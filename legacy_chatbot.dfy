/**
  The widget of the plugin's own copy (Plugin/assets/chatbot.js): the dataset is fetched once
  when the script starts, queries are ignored until the index exists, and the panel's `open`
  flag is toggled by the launcher, the close button and Escape.
*/
module LegacyChatbot {
  import opened Util
  import opened InvertedIndex
  import opened Query
  import opened MiniSearch
  import opened ClientThrottle
  import opened ChatClient

  class Widget {
    /** The throttle state of canQueryNow: lastQueryAt and the stored timestamps. */
    const throttle: Throttle
    const topK: int
    var mini: Engine?
    var open: bool

    ghost predicate Valid()
      reads this, mini
    {
      mini != null ==> mini.Valid() && SiteEngine(mini)
    }

    /**
      The script's start: clientMaxPerMinute, clientCooldownMs and topK come from window.FSSC
      (12, 1200 and 5 when absent); `stored` is what localStorage holds from earlier pages.
    */
    constructor (maxPerMinute: Option<nat>, cooldownMs: Option<int>, topK: Option<int>, stored: seq<int>)
      ensures Valid() && mini == null && !open
      ensures this.topK == (if topK.Some? then topK.value else DefaultTopK)
      ensures fresh(throttle)
      ensures throttle.maxPerMinute == (if maxPerMinute.Some? then maxPerMinute.value else DefaultMaxPerMinute)
      ensures throttle.cooldownMs == (if cooldownMs.Some? then cooldownMs.value else DefaultCooldownMs)
      ensures throttle.State() == ThrottleState(0, stored)
    {
      throttle := new Throttle(if cooldownMs.Some? then cooldownMs.value else DefaultCooldownMs,
                               if maxPerMinute.Some? then maxPerMinute.value else DefaultMaxPerMinute,
                               stored);
      this.topK := if topK.Some? then topK.value else DefaultTopK;
      mini := null;
      open := false;
    }

    /** openPanel: nothing when already open, otherwise the panel opens. */
    method OpenPanel()
      modifies this
      ensures open && mini == old(mini)
    {
      if open {
        return;
      }
      open := true;
    }

    /** closePanel: nothing when already closed, otherwise the panel closes. */
    method ClosePanel()
      modifies this
      ensures !open && mini == old(mini)
    {
      if !open {
        return;
      }
      open := false;
    }

    /**
      loadDataset, given what the fetch produced: the documents of the payload, or None when
      the response was not ok or could not be read. A failure leaves the index as it was.
    */
    method LoadDataset(fetched: Option<seq<Doc>>)
      requires Valid()
      modifies this
      ensures Valid() && open == old(open)
      ensures fetched.None? ==> mini == old(mini)
      ensures fetched.Some? ==> fresh(mini) && mini.docs == fetched.value
    {
      if fetched.Some? {
        mini := NewIndex(fetched.value);
      }
    }

    /**
      handleQuery: an empty trimmed query, or a query before the index exists, is ignored without
      consulting the throttle; a refusal is reported with its reason; an admitted query shows the
      first ShownCount(topK) hits of the AND search.
    */
    method HandleQuery(raw: string, now: int, w: Weight) returns (reply: Reply)
      requires Valid()
      modifies throttle
      ensures var q := Trim(raw, IsJsSpace);
              && ((q == [] || mini == null) ==> reply == Silent && unchanged(throttle))
              && (q != [] && mini != null ==>
                    var (st, gate) := Admit(throttle.cooldownMs, throttle.maxPerMinute, old(throttle.State()), now);
                    && throttle.State() == st
                    && (!gate.ok ==> reply == Refused(gate.reason))
                    && (gate.ok ==> Answers(mini.State(), w, q, ShownCount(topK), reply)))
    {
      var q := Trim(raw, IsJsSpace);
      if q == [] || mini == null {
        return Silent;
      }
      var gate := throttle.CanQueryNow(now);
      if !gate.ok {
        return Refused(gate.reason);
      }
      reply := Ask(mini, q, ShownCount(topK), w);
    }
  }
}

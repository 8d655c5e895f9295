/**
  The widget of the main script (assets/chatbot.js): the dataset is loaded lazily, by the first
  opening of the panel or by a query typed before the index exists; the launcher is hidden while
  the panel is open.
*/
module Chatbot {
  import opened Util
  import opened InvertedIndex
  import opened Query
  import opened MiniSearch
  import opened ClientThrottle
  import opened ChatClient

  class Widget {
    const throttle: Throttle
    const topK: int
    var mini: Engine?
    var loaded: bool
    var open: bool
    /** Whether the launcher button carries the 'hidden' class. */
    var launcherHidden: bool
    /** How many loads openPanel has started. */
    ghost var panelLoads: nat

    /**
      The index, when present, is the site's engine; the launcher is hidden exactly while the
      panel is open; and openPanel has started a load exactly once if `loaded` is set, never
      otherwise.
    */
    ghost predicate Valid()
      reads this, mini
    {
      && (mini != null ==> mini.Valid() && SiteEngine(mini))
      && launcherHidden == open
      && panelLoads == (if loaded then 1 else 0)
    }

    constructor (maxPerMinute: Option<nat>, cooldownMs: Option<int>, topK: Option<int>, stored: seq<int>)
      ensures Valid() && mini == null && !loaded && !open && panelLoads == 0
      ensures this.topK == (if topK.Some? then topK.value else DefaultTopK)
      ensures fresh(throttle)
      ensures throttle.maxPerMinute == (if maxPerMinute.Some? then maxPerMinute.value else DefaultMaxPerMinute)
      ensures throttle.cooldownMs == (if cooldownMs.Some? then cooldownMs.value else DefaultCooldownMs)
      ensures throttle.State() == ThrottleState(0, stored)
    {
      throttle := new Throttle(if cooldownMs.Some? then cooldownMs.value else DefaultCooldownMs,
                               if maxPerMinute.Some? then maxPerMinute.value else DefaultMaxPerMinute,
                               stored);
      this.topK := if topK.Some? then topK.value else DefaultTopK;
      mini := null;
      loaded := false;
      open := false;
      launcherHidden := false;
      panelLoads := 0;
    }

    /** loadDataset, given what the fetch produced (None: not ok, or unreadable). */
    method LoadDataset(fetched: Option<seq<Doc>>)
      requires Valid()
      modifies this
      ensures Valid()
      ensures open == old(open) && loaded == old(loaded) && launcherHidden == old(launcherHidden)
      ensures panelLoads == old(panelLoads)
      ensures fetched.None? ==> mini == old(mini)
      ensures fetched.Some? ==> fresh(mini) && mini.docs == fetched.value
    {
      if fetched.Some? {
        mini := NewIndex(fetched.value);
      }
    }

    /**
      openPanel: nothing when already open. Otherwise the panel opens, the launcher is hidden,
      and the first opening ever (whatever the fetch gives) marks the dataset loaded and loads it;
      later openings do not load again, even when that first load failed.
    */
    method OpenPanel(fetched: Option<seq<Doc>>)
      requires Valid()
      modifies this
      ensures Valid() && open && launcherHidden && panelLoads <= 1
      ensures old(open) ==> unchanged(this)
      ensures !old(open) && old(loaded) ==> mini == old(mini) && loaded && panelLoads == 1
      ensures !old(open) && !old(loaded) ==>
                loaded && panelLoads == 1
                && (fetched.None? ==> mini == old(mini))
                && (fetched.Some? ==> fresh(mini) && mini.docs == fetched.value)
    {
      if open {
        return;
      }
      open := true;
      launcherHidden := true;
      if !loaded {
        loaded := true;
        panelLoads := panelLoads + 1;
        LoadDataset(fetched);
      }
    }

    /** closePanel: nothing when already closed, otherwise the panel closes and the launcher shows. */
    method ClosePanel()
      requires Valid()
      modifies this
      ensures Valid() && !open && !launcherHidden
      ensures mini == old(mini) && loaded == old(loaded) && panelLoads == old(panelLoads)
      ensures !old(open) ==> unchanged(this)
    {
      if !open {
        return;
      }
      open := false;
      launcherHidden := false;
    }

    /**
      handleQuery: an empty trimmed query is ignored. Without an index it loads the dataset
      first and gives up silently, before the throttle, when there is still none. Then, as in the
      plugin's copy, a refusal is reported and an admitted query shows the first ShownCount(topK)
      hits.
    */
    method HandleQuery(raw: string, now: int, w: Weight, fetched: Option<seq<Doc>>) returns (reply: Reply)
      requires Valid()
      modifies this, throttle
      ensures Valid()
      ensures open == old(open) && loaded == old(loaded) && panelLoads == old(panelLoads)
      ensures var q := Trim(raw, IsJsSpace);
              && (q == [] ==> reply == Silent && unchanged(this) && unchanged(throttle))
              && (q != [] && old(mini) != null ==> mini == old(mini))
              && (q != [] && old(mini) == null ==>
                    (fetched.None? ==> mini == null) && (fetched.Some? ==> fresh(mini) && mini.docs == fetched.value))
              && (q != [] && mini == null ==> reply == Silent && unchanged(throttle))
              && (q != [] && mini != null ==>
                    var (st, gate) := Admit(throttle.cooldownMs, throttle.maxPerMinute, old(throttle.State()), now);
                    && throttle.State() == st
                    && (!gate.ok ==> reply == Refused(gate.reason))
                    && (gate.ok ==> Answers(mini.State(), w, q, ShownCount(topK), reply)))
    {
      var q := Trim(raw, IsJsSpace);
      if q == [] {
        return Silent;
      }
      if mini == null {
        LoadDataset(fetched);
        if mini == null {
          return Silent;
        }
      }
      var gate := throttle.CanQueryNow(now);
      if !gate.ok {
        return Refused(gate.reason);
      }
      reply := Ask(mini, q, ShownCount(topK), w);
    }
  }
}

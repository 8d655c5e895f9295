/**
  The chat widget's own throttle, canQueryNow, identical in both versions of the script: a
  cooldown since the last admitted query, and at most clientMaxPerMinute admitted queries among
  the timestamps kept in localStorage under 'fssc_qtimes', pruned to the last 60 seconds.
  Times are Date.now() values in milliseconds.
*/
module ClientThrottle {
  import opened Util
  import Exclusions

  const WindowMs: int := 60000
  const DefaultMaxPerMinute: nat := 12
  const DefaultCooldownMs: int := 1200

  const WaitReason: string := "Please wait a moment before sending another query."

  function LimitReason(max: nat): string {
    "Limit reached (" + Exclusions.ShowNat(max) + "/min). Try again in a minute."
  }

  /** canQueryNow's answer: `{ok:true}` has no reason, modelled as "". */
  datatype Gate = Gate(ok: bool, reason: string)

  /** lastQueryAt and the stored timestamp list. */
  datatype ThrottleState = ThrottleState(lastQueryAt: int, stored: seq<int>)

  /** `arr.filter(ts => (now - ts) < 60_000)` */
  function Recent(arr: seq<int>, now: int): (r: seq<int>)
    ensures |r| <= |arr|
    ensures forall i :: 0 <= i < |r| ==> now - r[i] < WindowMs
  {
    if arr == [] then []
    else
      var last := arr[|arr| - 1];
      Recent(arr[..|arr| - 1], now) + (if now - last < WindowMs then [last] else [])
  }

  /** One call of canQueryNow at time now. */
  function Admit(cooldownMs: int, max: nat, st: ThrottleState, now: int): (ThrottleState, Gate) {
    if now - st.lastQueryAt < cooldownMs then (st, Gate(false, WaitReason))
    else
      var arr := Recent(st.stored, now);
      if |arr| >= max then (st, Gate(false, LimitReason(max)))
      else (ThrottleState(now, arr + [now]), Gate(true, ""))
  }

  class Throttle {
    const cooldownMs: int
    const maxPerMinute: nat
    var lastQueryAt: int
    /** localStorage['fssc_qtimes'], parsed. */
    var stored: seq<int>

    function State(): ThrottleState
      reads this
    {
      ThrottleState(lastQueryAt, stored)
    }

    /** A fresh page: lastQueryAt starts at 0, the storage keeps what earlier pages left. */
    constructor (cooldownMs: int, maxPerMinute: nat, stored: seq<int>)
      ensures this.cooldownMs == cooldownMs && this.maxPerMinute == maxPerMinute
      ensures State() == ThrottleState(0, stored)
    {
      this.cooldownMs := cooldownMs;
      this.maxPerMinute := maxPerMinute;
      lastQueryAt := 0;
      this.stored := stored;
    }

    /** canQueryNow */
    method CanQueryNow(now: int) returns (gate: Gate)
      modifies this
      ensures (State(), gate) == Admit(cooldownMs, maxPerMinute, old(State()), now)
    {
      if now - lastQueryAt < cooldownMs {
        return Gate(false, WaitReason);
      }
      var arr := Recent(stored, now);
      if |arr| >= maxPerMinute {
        return Gate(false, LimitReason(maxPerMinute));
      }
      arr := arr + [now];
      stored := arr;
      lastQueryAt := now;
      return Gate(true, "");
    }
  }

  // ---------------------------------------------------------------------------

  /**
    A refusal changes nothing. An admission records now as the last query time and stores the
    pruned list plus now, which is then at most max long and holds only the last 60 seconds.
  */
  lemma AdmitSpec(cooldownMs: int, max: nat, st: ThrottleState, now: int)
    ensures var (st1, g) := Admit(cooldownMs, max, st, now);
            && (!g.ok ==> st1 == st)
            && (g.ok <==> now - st.lastQueryAt >= cooldownMs && |Recent(st.stored, now)| < max)
            && (g.ok ==> st1.lastQueryAt == now && |st1.stored| <= max
                         && st1.stored == Recent(st.stored, now) + [now]
                         && forall i :: 0 <= i < |st1.stored| ==> now - st1.stored[i] < WindowMs)
  {
  }

  /** A series of calls at the given times: the final state and the times that were admitted. */
  function Run(cooldownMs: int, max: nat, st: ThrottleState, times: seq<int>): (ThrottleState, seq<int>) {
    if times == [] then (st, [])
    else
      var (st1, admitted) := Run(cooldownMs, max, st, times[..|times| - 1]);
      var t := times[|times| - 1];
      var (st2, g) := Admit(cooldownMs, max, st1, t);
      (st2, if g.ok then admitted + [t] else admitted)
  }

  predicate Monotone(times: seq<int>) {
    forall i, j :: 0 <= i < j < |times| ==> times[i] <= times[j]
  }

  lemma {:induction false} RecentAgain(s: seq<int>, t: int, x: int)
    requires x >= t
    ensures Recent(Recent(s, t), x) == Recent(s, x)
  {
    if s != [] {
      var init := s[..|s| - 1];
      var last := s[|s| - 1];
      RecentAgain(init, t, x);
      if t - last < WindowMs {
        assert Recent(s, t) == Recent(init, t) + [last];
        assert Recent(Recent(init, t) + [last], x) == Recent(Recent(init, t), x) + (if x - last < WindowMs then [last] else []) by {
          assert (Recent(init, t) + [last])[..|Recent(init, t)|] == Recent(init, t);
        }
      } else {
        assert Recent(s, t) == Recent(init, t) + [];
        assert Recent(init, t) + [] == Recent(init, t);
      }
    }
  }

  lemma RecentAppend(s: seq<int>, t: int, x: int)
    ensures Recent(s + [t], x) == Recent(s, x) + (if x - t < WindowMs then [t] else [])
  {
    assert (s + [t])[..|s|] == s;
  }

  /**
    The filter keeps every recent time and only those: each value occurs in the pruned list
    exactly as often as in the stored one when it is less than 60 000 ms old, and not at all
    otherwise.
  */
  lemma {:induction false} RecentExactly(arr: seq<int>, now: int)
    ensures forall x :: multiset(Recent(arr, now))[x] == if now - x < WindowMs then multiset(arr)[x] else 0
    ensures forall x :: x in Recent(arr, now) <==> x in arr && now - x < WindowMs
  {
    if arr != [] {
      var init := arr[..|arr| - 1];
      var last := arr[|arr| - 1];
      RecentExactly(init, now);
      assert arr == init + [last];
      assert multiset(arr) == multiset(init) + multiset{last};
    }
  }

  /** The filter keeps the stored order: pruning a concatenation prunes each part. */
  lemma {:induction false} RecentConcat(a: seq<int>, b: seq<int>, now: int)
    ensures Recent(a + b, now) == Recent(a, now) + Recent(b, now)
  {
    if b == [] {
      assert a + b == a;
    } else {
      var init := b[..|b| - 1];
      var last := b[|b| - 1];
      RecentConcat(a, init, now);
      assert a + b == (a + init) + [last];
      RecentAppend(a + init, last, now);
      RecentAppend(init, last, now);
      assert b == init + [last];
    }
  }

  /** Within the last 60 seconds of any moment from lo on, `admitted` holds no more times than `stored`. */
  ghost predicate Dominated(admitted: seq<int>, stored: seq<int>, lo: int) {
    forall x :: x >= lo ==> |Recent(admitted, x)| <= |Recent(stored, x)|
  }

  /** Each time in `admitted` is at most the max-th of the 60 seconds ending at it. */
  ghost predicate EachWithin(admitted: seq<int>, max: nat) {
    forall i :: 0 <= i < |admitted| ==> |Recent(admitted[..i + 1], admitted[i])| <= max
  }

  /** One call of canQueryNow keeps both facts, because the stored list counts every admission. */
  lemma AdmitKeepsWindow(cooldownMs: int, max: nat, st: ThrottleState, admitted: seq<int>, t: int)
    requires Dominated(admitted, st.stored, t) && EachWithin(admitted, max)
    ensures var (st2, g) := Admit(cooldownMs, max, st, t);
            var admitted2 := if g.ok then admitted + [t] else admitted;
            Dominated(admitted2, st2.stored, t) && EachWithin(admitted2, max)
  {
    var (st2, g) := Admit(cooldownMs, max, st, t);
    if g.ok {
      var adm2 := admitted + [t];
      var arr := Recent(st.stored, t);
      assert st2.stored == arr + [t];
      forall x | x >= t
        ensures |Recent(adm2, x)| <= |Recent(st2.stored, x)|
      {
        RecentAppend(admitted, t, x);
        RecentAppend(arr, t, x);
        RecentAgain(st.stored, t, x);
      }
      RecentAppend(admitted, t, t);
      forall i | 0 <= i < |adm2|
        ensures |Recent(adm2[..i + 1], adm2[i])| <= max
      {
        if i < |admitted| {
          assert adm2[..i + 1] == admitted[..i + 1];
        } else {
          assert adm2[..i + 1] == adm2;
        }
      }
    }
  }

  /**
    For calls at non-decreasing times, the throttle never lets through more than max queries
    in any 60 seconds: for each admitted query, the admitted queries of the 60 seconds ending at
    it, itself included, number at most max. (The storage may start with any timestamps.)
  */
  lemma {:induction false} AtMostMaxPerWindow(cooldownMs: int, max: nat, st: ThrottleState, times: seq<int>)
    requires Monotone(times)
    ensures var (st1, admitted) := Run(cooldownMs, max, st, times);
            forall i :: 0 <= i < |admitted| ==> |Recent(admitted[..i + 1], admitted[i])| <= max
  {
    RunWindowInvariant(cooldownMs, max, st, times);
  }

  lemma {:induction false} RunWindowInvariant(cooldownMs: int, max: nat, st: ThrottleState, times: seq<int>)
    requires Monotone(times)
    ensures var (st1, admitted) := Run(cooldownMs, max, st, times);
            && (times == [] ==> admitted == [])
            && (times != [] ==> Dominated(admitted, st1.stored, times[|times| - 1]))
            && EachWithin(admitted, max)
  {
    if times != [] {
      var init := times[..|times| - 1];
      var t := times[|times| - 1];
      assert Monotone(init);
      RunWindowInvariant(cooldownMs, max, st, init);
      var (st1, adm) := Run(cooldownMs, max, st, init);
      if init != [] {
        assert t >= init[|init| - 1];
      }
      assert Dominated(adm, st1.stored, t);
      AdmitKeepsWindow(cooldownMs, max, st1, adm, t);
    }
  }

  /**
    Admitted queries are at least the cooldown apart, the first one counted from the starting
    lastQueryAt, and lastQueryAt is always the latest admission.
  */
  lemma {:induction false} CooldownBetweenAdmissions(cooldownMs: int, max: nat, st: ThrottleState, times: seq<int>)
    ensures var (st1, admitted) := Run(cooldownMs, max, st, times);
            && (admitted == [] ==> st1.lastQueryAt == st.lastQueryAt)
            && (admitted != [] ==> st1.lastQueryAt == admitted[|admitted| - 1]
                                   && admitted[0] - st.lastQueryAt >= cooldownMs)
            && (forall i :: 0 <= i < |admitted| - 1 ==> admitted[i + 1] - admitted[i] >= cooldownMs)
  {
    if times != [] {
      CooldownBetweenAdmissions(cooldownMs, max, st, times[..|times| - 1]);
    }
  }

  // ---------------------------------------------------------------------------

  const DefaultTopK: int := 5

  /** `Math.max(1, Math.min(10, topK))`: how many results are shown. */
  function ShownCount(topK: int): (k: int)
    ensures 1 <= k <= 10
    ensures 1 <= topK <= 10 ==> k == topK
    ensures topK < 1 ==> k == 1
    ensures topK > 10 ==> k == 10
  {
    Max(1, Min(10, topK))
  }

  /** `results.slice(0, k)`: a negative end counts back from the end of the list. */
  function Take<T>(results: seq<T>, k: int): (r: seq<T>)
    ensures |r| == if k < 0 then Max(0, |results| + k) else Min(k, |results|)
    ensures r == results[..|r|]
  {
    if k < 0 then results[..Max(0, |results| + k)]
    else if k >= |results| then results else results[..k]
  }
}

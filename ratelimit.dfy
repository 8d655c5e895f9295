/**
  The endpoint's server-side rate limit: two transient counters per client, one for the minute
  (cap 12, lifetime 60 s) and one for the hour (cap 200, lifetime 3600 s). A request is denied when
  either live count has reached its cap, and then nothing is written; otherwise both counts go up
  by one and both transients are stored again with a fresh lifetime.
*/
module RateLimit {
  import opened Util

  const PerMinute: int := 12
  const PerHour: int := 200
  const MinuteTtl: int := 60
  const HourTtl: int := 3600

  datatype Window = Minute | Hour

  function Cap(w: Window): int {
    match w
    case Minute => PerMinute
    case Hour => PerHour
  }

  function Ttl(w: Window): int {
    match w
    case Minute => MinuteTtl
    case Hour => HourTtl
  }

  /**
    The transient key of a window and client: 'fssc_rl_min_' or 'fssc_rl_hour_' followed by
    md5 of the address, taken here as one distinct key per (window, address).
  */
  datatype Key = Key(window: Window, client: string)

  /** A stored transient: its value and the time (in seconds) at which it expires. */
  datatype Counter = Counter(value: int, expires: int)

  type Transients = map<Key, Counter>

  /** `$_SERVER['REMOTE_ADDR'] ?? '0.0.0.0'` */
  function ClientOf(remoteAddr: Option<string>): string {
    if remoteAddr.Some? then remoteAddr.value else "0.0.0.0"
  }

  /** `(int)get_transient($key)`: the stored count until it expires, 0 when missing or expired. */
  function Count(t: Transients, k: Key, now: int): int {
    if k in t && now <= t[k].expires then t[k].value else 0
  }

  datatype Decision = Decision(admitted: bool, transients: Transients)

  /** One call of the limiter for `client` at time `now`. */
  function Step(t: Transients, client: string, now: int): Decision {
    var m := Count(t, Key(Minute, client), now);
    var h := Count(t, Key(Hour, client), now);
    if m >= PerMinute || h >= PerHour then Decision(false, t)
    else Decision(true, t[Key(Minute, client) := Counter(m + 1, now + MinuteTtl)]
                         [Key(Hour, client) := Counter(h + 1, now + HourTtl)])
  }

  /** Counts are never negative: nothing but the limiter writes them, and it only counts up from 0. */
  ghost predicate Sane(t: Transients) {
    forall k :: k in t ==> t[k].value >= 0
  }

  datatype Outcome = Outcome(transients: Transients, admitted: nat)

  /** A client's requests at the given times, one after another: the final store and how many got through. */
  function Run(t: Transients, client: string, times: seq<int>): Outcome {
    if times == [] then Outcome(t, 0)
    else
      var r := Run(t, client, times[..|times| - 1]);
      var d := Step(r.transients, client, times[|times| - 1]);
      Outcome(d.transients, r.admitted + if d.admitted then 1 else 0)
  }

  // ---------------------------------------------------------------------------

  /**
    A request is admitted exactly when both live counts are under their caps; a denial writes
    nothing; an admission sets both counters to their old live count plus one, with a fresh
    lifetime, and touches no other key.
  */
  lemma StepSpec(t: Transients, client: string, now: int)
    ensures var d := Step(t, client, now);
            && (d.admitted <==> forall w :: Count(t, Key(w, client), now) < Cap(w))
            && (!d.admitted ==> d.transients == t)
            && (d.admitted ==> forall w :: d.transients[Key(w, client)] == Counter(Count(t, Key(w, client), now) + 1, now + Ttl(w)))
            && (forall k: Key :: k.client != client ==> (k in d.transients <==> k in t) && (k in t ==> d.transients[k] == t[k]))
  {
    var d := Step(t, client, now);
    if !d.admitted {
      var w: Window :| Count(t, Key(w, client), now) >= Cap(w) by {
        if Count(t, Key(Minute, client), now) < PerMinute {
          assert Count(t, Key(Hour, client), now) >= Cap(Hour);
        } else {
          assert Count(t, Key(Minute, client), now) >= Cap(Minute);
        }
      }
    } else {
      forall w ensures Count(t, Key(w, client), now) < Cap(w) {
        match w
        case Minute =>
        case Hour =>
      }
    }
  }

  lemma StepSane(t: Transients, client: string, now: int)
    requires Sane(t)
    ensures Sane(Step(t, client, now).transients)
  {
  }

  /**
    Within any span of Ttl(w) seconds a client gets at most Cap(w) requests through: at most 12
    in any 60 seconds and at most 200 in any hour. (The times need not be ordered.)
  */
  lemma {:induction false} WindowCap(w: Window, t: Transients, client: string, times: seq<int>, start: int)
    requires Sane(t)
    requires forall i :: 0 <= i < |times| ==> start <= times[i] <= start + Ttl(w)
    ensures Run(t, client, times).admitted <= Cap(w)
  {
    WindowInvariant(w, t, client, times, start);
  }

  lemma {:induction false} WindowInvariant(w: Window, t: Transients, client: string, times: seq<int>, start: int)
    requires Sane(t)
    requires forall i :: 0 <= i < |times| ==> start <= times[i] <= start + Ttl(w)
    ensures var r := Run(t, client, times);
            var k := Key(w, client);
            && Sane(r.transients)
            && (r.admitted > 0 ==>
                  k in r.transients && r.transients[k].expires >= start + Ttl(w)
                  && r.admitted <= r.transients[k].value <= Cap(w))
  {
    if times != [] {
      var init := times[..|times| - 1];
      var now := times[|times| - 1];
      assert forall i :: 0 <= i < |init| ==> init[i] == times[i];
      WindowInvariant(w, t, client, init, start);
      var r := Run(t, client, init);
      StepSane(r.transients, client, now);
      StepSpec(r.transients, client, now);
    }
  }

  /** A client whose counters have both lapsed (or were never set) is admitted, and starts again from 1. */
  lemma QuietClientAdmitted(t: Transients, client: string, now: int)
    requires forall w :: Key(w, client) !in t || t[Key(w, client)].expires < now
    ensures var d := Step(t, client, now);
            d.admitted && forall w :: Key(w, client) in d.transients && d.transients[Key(w, client)] == Counter(1, now + Ttl(w))
  {
    assert Count(t, Key(Minute, client), now) == 0 && Count(t, Key(Hour, client), now) == 0;
    StepSpec(t, client, now);
  }

  /** Thirteen requests inside one minute: fewer than thirteen are admitted. */
  lemma {:induction false} ThirteenthDenied(t: Transients, client: string, times: seq<int>, start: int)
    requires Sane(t) && |times| == 13
    requires forall i :: 0 <= i < 13 ==> start <= times[i] <= start + MinuteTtl
    ensures Run(t, client, times).admitted < 13
  {
    WindowCap(Minute, t, client, times, start);
  }
}

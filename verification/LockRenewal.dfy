/** How many failed renewals a lock survives: the watchdog's schedule against the ttl. */
module LockRenewal {
  import opened RedisLock

  /** The watchdog's pause, from `_renew_until_stopped`. */
  function Interval(ttl: nat): nat {
    if ttl / 3 >= 1 then ttl / 3 else 1
  }

  function Span(ticks: nat, ttl: nat): nat {
    ticks * Interval(ttl)
  }

  /** Number of the last tick of `p` that renewed; 0 is the acquire itself. */
  function LastRenewal(p: seq<bool>): nat
    ensures LastRenewal(p) <= |p|
  {
    if p == [] then 0 else if p[|p| - 1] then |p| else LastRenewal(p[..|p| - 1])
  }

  /** The key is still live at the time of every tick: the last arm is less than ttl ago. */
  predicate Alive(p: seq<bool>, ttl: nat) {
    p == [] ||
    (Alive(p[..|p| - 1], ttl) && Span(|p| - LastRenewal(p[..|p| - 1]), ttl) < ttl)
  }

  lemma SpanGrows(a: nat, b: nat, ttl: nat)
    ensures a <= b ==> Span(a, ttl) <= Span(b, ttl)
    ensures Span(a + 1, ttl) == Span(a, ttl) + Interval(ttl)
  {
    if a <= b {
      assert b * Interval(ttl) == a * Interval(ttl) + (b - a) * Interval(ttl);
    }
  }

  /** Never more than `k` ticks in a row fail. */
  predicate AtMostFailing(p: seq<bool>, k: nat) {
    p == [] || (AtMostFailing(p[..|p| - 1], k) && |p| - LastRenewal(p) <= k)
  }

  ghost predicate Tolerates(ttl: nat, k: nat) {
    forall p :: AtMostFailing(p, k) ==> Alive(p, ttl)
  }

  function Failures(k: nat): seq<bool> {
    seq(k, i => false)
  }

  lemma {:induction false} FailuresFail(k: nat)
    ensures LastRenewal(Failures(k)) == 0 && forall m: nat :: m >= k ==> AtMostFailing(Failures(k), m)
  {
    if k > 0 {
      FailuresFail(k - 1);
      assert Failures(k)[..k - 1] == Failures(k - 1);
    }
  }

  lemma {:induction false} ShortGapsStayAlive(p: seq<bool>, ttl: nat, k: nat)
    requires Span(k + 1, ttl) < ttl && AtMostFailing(p, k)
    ensures Alive(p, ttl)
  {
    if p != [] {
      var shorter := p[..|p| - 1];
      ShortGapsStayAlive(shorter, ttl, k);
      SpanGrows(|p| - LastRenewal(shorter), k + 1, ttl);
    }
  }

  /** Without latency, k failures in a row are tolerated exactly when k + 1 intervals fit
      strictly inside the ttl. */
  lemma ToleratedFailures(ttl: nat, k: nat)
    ensures Tolerates(ttl, k) <==> (k + 1) * Interval(ttl) < ttl
  {
    if (k + 1) * Interval(ttl) < ttl {
      forall p | AtMostFailing(p, k) ensures Alive(p, ttl) {
        ShortGapsStayAlive(p, ttl, k);
      }
    } else {
      var p := Failures(k) + [true];
      assert p[..|p| - 1] == Failures(k);
      FailuresFail(k);
      assert AtMostFailing(p, k);
    }
  }

  /** One failed renewal is always safe from a ttl of 3 on, two exactly when the ttl is also
      no multiple of 3; with a ttl of 1 not even the punctual renewal is in time. */
  lemma OneAndTwoFailures(ttl: nat)
    ensures Tolerates(ttl, 0) <==> ttl >= 2
    ensures Tolerates(ttl, 1) <==> ttl >= 3
    ensures Tolerates(ttl, 2) <==> ttl >= 3 && ttl % 3 != 0
  {
    ToleratedFailures(ttl, 0);
    ToleratedFailures(ttl, 1);
    ToleratedFailures(ttl, 2);
  }

  /** The holder is inside the wrapped function and its watchdog is between two calls. */
  predicate Watched(s: State, w: nat) {
    w < |s.invs| && s.invs[w].Inside() && (s.invs[w].watchdog.Sleeping? || s.invs[w].watchdog.Gone?)
  }

  /** One tick of the lock protocol: the pause, then an extend that gets through or not. */
  function Round(s: State, c: Config, pause: real, w: nat, ok: bool): (t: State)
    requires pause > 0.0 && Watched(s, w)
    ensures Watched(t, w)
  {
    var late := Apply(s, Tick(pause), c);
    if s.invs[w].watchdog.Gone? then late
    else Apply(Apply(late, Do(w, Wake), c), Do(w, if ok then Action.Extend else ExtendFails), c)
  }

  function Drive(s: State, c: Config, pause: real, w: nat, p: seq<bool>): (t: State)
    requires pause > 0.0 && Watched(s, w)
    ensures Watched(t, w)
  {
    if p == [] then s else Round(Drive(s, c, pause, w, p[..|p| - 1]), c, pause, w, p[|p| - 1])
  }

  /** One round from a live key armed `age` ago: it lasts if the next tick is in time. */
  lemma RoundFromLive(s: State, ttl: nat, w: nat, ok: bool, age: nat)
    requires ttl >= 1 && Watched(s, w) && s.invs[w].watchdog.Sleeping?
    requires s.key == Held(w, s.now - age as real + ttl as real)
    ensures var t := Round(s, Config(ttl as real, true), Interval(ttl) as real, w, ok);
            var later := age + Interval(ttl);
            && t.now == s.now + Interval(ttl) as real
            && (OwnedBy(t, w) <==> later < ttl)
            && (later < ttl ==>
                  && t.invs[w].watchdog.Sleeping?
                  && t.key == Held(w, t.now - (if ok then 0 else later) as real + ttl as real))
  {
  }

  /** A key that has lapsed is not won back by its watchdog. */
  lemma RoundFromLapsed(s: State, c: Config, pause: real, w: nat, ok: bool)
    requires pause > 0.0 && Watched(s, w) && !OwnedBy(s, w)
    ensures var t := Round(s, c, pause, w, ok); !OwnedBy(t, w) && t.now == s.now + pause
  {
  }

  /** Time since the last successful arm, after the ticks of `p`. */
  function Age(p: seq<bool>, ttl: nat): nat {
    Span(|p| - LastRenewal(p), ttl)
  }

  /** After the ticks of `p` the holder still owns the live key exactly when none came too late. */
  ghost predicate Agrees(t: State, ttl: nat, w: nat, p: seq<bool>) {
    && Watched(t, w)
    && (OwnedBy(t, w) <==> Alive(p, ttl))
    && (Alive(p, ttl) ==>
          t.invs[w].watchdog.Sleeping? && t.key == Held(w, t.now - Age(p, ttl) as real + ttl as real))
  }

  lemma TickAgrees(s: State, ttl: nat, w: nat, p: seq<bool>)
    requires ttl >= 1 && p != [] && Agrees(s, ttl, w, p[..|p| - 1])
    ensures Agrees(Round(s, Config(ttl as real, true), Interval(ttl) as real, w, p[|p| - 1]), ttl, w, p)
  {
    var shorter, ok := p[..|p| - 1], p[|p| - 1];
    SpanGrows(|shorter| - LastRenewal(shorter), 0, ttl);
    if Alive(shorter, ttl) {
      RoundFromLive(s, ttl, w, ok, Age(shorter, ttl));
      assert Age(p, ttl) == if ok then 0 else Age(shorter, ttl) + Interval(ttl);
      assert |p| - LastRenewal(shorter) == |shorter| - LastRenewal(shorter) + 1;
    } else {
      RoundFromLapsed(s, Config(ttl as real, true), Interval(ttl) as real, w, ok);
    }
  }

  /** The schedule agrees with the protocol. */
  lemma {:induction false} DriveAgrees(s: State, ttl: nat, w: nat, p: seq<bool>)
    requires ttl >= 1 && Watched(s, w) && s.invs[w].watchdog.Sleeping?
    requires s.key == Held(w, s.now + ttl as real)
    ensures Agrees(Drive(s, Config(ttl as real, true), Interval(ttl) as real, w, p), ttl, w, p)
  {
    if p != [] {
      DriveAgrees(s, ttl, w, p[..|p| - 1]);
      TickAgrees(Drive(s, Config(ttl as real, true), Interval(ttl) as real, w, p[..|p| - 1]), ttl, w, p);
    }
  }
}

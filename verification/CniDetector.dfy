/** The CNI monitor of a cluster: a bad check more than three seconds after the last good one triggers. */
module CniDetector {
  import opened ClusterProbes
  import opened Wrappers

  const WARMUP: nat := 2 * SECOND
  const WINDOW: nat := 3 * SECOND

  /** triggers and migrations are history: the detections and the migration attempts so far. */
  datatype View = View(last: nat, detected: Option<nat>, triggered: bool, triggers: nat, migrations: nat)

  function Start(startup: nat): View {
    View(startup, None, false, 0, 0)
  }

  function Check(v: View, t: Tick, startup: nat): View {
    if !Taken(t, startup, WARMUP) then v
    else if t.probe.Ready? then View(t.now, None, false, v.triggers, v.migrations)
    else
      var u := v.(detected := Some(if v.detected.Some? then v.detected.value else t.now));
      if v.triggered || t.now as int - v.last <= WINDOW then u
      else u.(triggered := true, triggers := v.triggers + 1,
              migrations := v.migrations + if t.probe.fetched && t.probe.logEmpty then 1 else 0)
  }

  function CheckAll(trace: seq<Tick>, startup: nat): View {
    if |trace| == 0 then Start(startup) else Check(CheckAll(trace[..|trace| - 1], startup), trace[|trace| - 1], startup)
  }

  class CniMonitor {
    const startupTime: nat
    var tLastHeartbeat: nat
    var tDetected: Option<nat>
    var isTriggered: bool
    var triggers: nat
    var migrations: nat

    constructor (startupTime: nat)
      ensures this.startupTime == startupTime && Now() == Start(startupTime)
    {
      this.startupTime := startupTime;
      tLastHeartbeat, tDetected, isTriggered, triggers, migrations := startupTime, None, false, 0, 0;
    }

    ghost function Now(): View
      reads this
    {
      View(tLastHeartbeat, tDetected, isTriggered, triggers, migrations)
    }

    method OnTick(t: Tick)
      modifies this
      ensures Now() == Check(old(Now()), t, startupTime)
    {
      if t.now < startupTime + WARMUP { return; }
      if t.probe.NoClient? { return; }
      if t.probe.Ready? {
        tLastHeartbeat := t.now;
        isTriggered := false;
        tDetected := None;
        return;
      }
      var silence := t.now as int - tLastHeartbeat;
      if tDetected.None? {
        tDetected := Some(t.now);
      }
      if !isTriggered && silence > WINDOW {
        isTriggered := true;
        triggers := triggers + 1;
        if !t.probe.fetched { return; }
        if t.probe.logEmpty {
          migrations := migrations + 1;
        }
      }
    }

    /** The monitor loop over any trace of ticks. */
    method Monitor(trace: seq<Tick>)
      requires Now() == Start(startupTime)
      modifies this
      ensures Now() == CheckAll(trace, startupTime)
    {
      var i := 0;
      assert trace[..0] == [];
      while i < |trace|
        invariant 0 <= i <= |trace| && Now() == CheckAll(trace[..i], startupTime)
      {
        assert trace[..i + 1][..i] == trace[..i];
        OnTick(trace[i]);
        i := i + 1;
      }
      assert trace[..|trace|] == trace;
    }
  }

  // ---- Trace specification, on traces without skipped ticks -----------------------------------------------

  /** The time of the last Ready check among the first n, or the startup. */
  function LastReady(eff: seq<Tick>, n: nat, startup: nat): nat
    requires n <= |eff|
  {
    if n == 0 then startup else if eff[n - 1].probe.Ready? then eff[n - 1].now else LastReady(eff, n - 1, startup)
  }

  /** Length of the bad episode the first n checks end with. */
  function BadRun(eff: seq<Tick>, n: nat): (m: nat)
    requires n <= |eff|
    ensures m <= n && (forall i | n - m <= i < n :: eff[i].probe.Bad?) && (m < n ==> !eff[n - m - 1].probe.Bad?)
  {
    if n == 0 || !eff[n - 1].probe.Bad? then 0 else 1 + BadRun(eff, n - 1)
  }

  /** Check i is bad and comes more than the window after the last Ready check or startup. */
  predicate Overdue(eff: seq<Tick>, i: nat, startup: nat)
    requires i < |eff|
  {
    eff[i].probe.Bad? && eff[i].now as int - LastReady(eff, i, startup) > WINDOW
  }

  /** The first overdue check of its episode. */
  predicate Detects(eff: seq<Tick>, i: nat, startup: nat)
    requires i < |eff|
  {
    Overdue(eff, i, startup) && forall j | i - BadRun(eff, i) <= j < i :: !Overdue(eff, j, startup)
  }

  function Detections(eff: seq<Tick>, n: nat, startup: nat): set<nat>
    requires n <= |eff|
  {
    set i: nat | i < n && Detects(eff, i, startup)
  }

  function MigratingDetections(eff: seq<Tick>, n: nat, startup: nat): set<nat>
    requires n <= |eff|
  {
    set i: nat | i < n && Detects(eff, i, startup) && eff[i].probe.fetched && eff[i].probe.logEmpty
  }

  /** Some check of the current episode was overdue. */
  predicate OverdueEpisode(eff: seq<Tick>, n: nat, startup: nat)
    requires n <= |eff|
  {
    exists j :: n - BadRun(eff, n) <= j < n && Overdue(eff, j, startup)
  }

  /** The state after the first n checks. */
  predicate Meaning(v: View, eff: seq<Tick>, n: nat, startup: nat)
    requires n <= |eff|
  {
    ClockMeaning(v, eff, n, startup) && CountMeaning(v, eff, n, startup)
  }

  predicate ClockMeaning(v: View, eff: seq<Tick>, n: nat, startup: nat)
    requires n <= |eff|
  {
    var m := BadRun(eff, n);
    && v.last == LastReady(eff, n, startup)
    && v.detected == (if m == 0 then None else Some(eff[n - m].now))
    && (v.triggered <==> OverdueEpisode(eff, n, startup))
  }

  predicate CountMeaning(v: View, eff: seq<Tick>, n: nat, startup: nat)
    requires n <= |eff|
  {
    && v.triggers == |Detections(eff, n, startup)|
    && v.migrations == |MigratingDetections(eff, n, startup)|
  }

  lemma DetectionsStep(eff: seq<Tick>, n: nat, startup: nat)
    requires n < |eff|
    ensures Detections(eff, n + 1, startup)
            == Detections(eff, n, startup) + (if Detects(eff, n, startup) then {n} else {})
    ensures MigratingDetections(eff, n + 1, startup) == MigratingDetections(eff, n, startup)
            + (if Detects(eff, n, startup) && eff[n].probe.fetched && eff[n].probe.logEmpty then {n} else {})
  {
  }

  lemma OverdueEpisodeStep(eff: seq<Tick>, n: nat, startup: nat)
    requires n < |eff|
    ensures OverdueEpisode(eff, n + 1, startup) <==>
            eff[n].probe.Bad? && (OverdueEpisode(eff, n, startup) || Overdue(eff, n, startup))
    ensures Detects(eff, n, startup) <==> !OverdueEpisode(eff, n, startup) && Overdue(eff, n, startup)
  {
  }

  lemma ClockStep(v: View, eff: seq<Tick>, n: nat, startup: nat)
    requires n < |eff| && Taken(eff[n], startup, WARMUP) && ClockMeaning(v, eff, n, startup)
    ensures ClockMeaning(Check(v, eff[n], startup), eff, n + 1, startup)
  {
    OverdueEpisodeStep(eff, n, startup);
  }

  lemma CountStep(v: View, eff: seq<Tick>, n: nat, startup: nat)
    requires n < |eff| && Taken(eff[n], startup, WARMUP) && Meaning(v, eff, n, startup)
    ensures CountMeaning(Check(v, eff[n], startup), eff, n + 1, startup)
  {
    DetectionsStep(eff, n, startup);
    OverdueEpisodeStep(eff, n, startup);
  }

  lemma {:induction false} EffectiveMeaning(eff: seq<Tick>, n: nat, startup: nat)
    requires n <= |eff| && forall i | 0 <= i < |eff| :: Taken(eff[i], startup, WARMUP)
    ensures Meaning(CheckAll(eff[..n], startup), eff, n, startup)
  {
    if n > 0 {
      EffectiveMeaning(eff, n - 1, startup);
      assert eff[..n][..n - 1] == eff[..n - 1];
      ClockStep(CheckAll(eff[..n - 1], startup), eff, n - 1, startup);
      CountStep(CheckAll(eff[..n - 1], startup), eff, n - 1, startup);
    }
  }

  /** Skipped ticks stutter: deleting them changes nothing, as the silence clock reads the time and not the ticks. */
  lemma {:induction false} SkipsStutter(trace: seq<Tick>, startup: nat)
    ensures CheckAll(Effective(trace, startup, WARMUP), startup) == CheckAll(trace, startup)
  {
    if |trace| > 0 {
      var before := trace[..|trace| - 1];
      SkipsStutter(before, startup);
      var eff := Effective(trace, startup, WARMUP);
      if Taken(trace[|trace| - 1], startup, WARMUP) {
        assert eff[..|eff| - 1] == Effective(before, startup, WARMUP);
      } else {
        assert eff == Effective(before, startup, WARMUP);
      }
    }
  }

  /** The CNI detector refines the trace specification on every trace, skipped ticks included. */
  lemma CniTrace(trace: seq<Tick>, startup: nat)
    ensures var eff := Effective(trace, startup, WARMUP); Meaning(CheckAll(trace, startup), eff, |eff|, startup)
  {
    var eff := Effective(trace, startup, WARMUP);
    SkipsStutter(trace, startup);
    EffectiveAllTaken(trace, startup, WARMUP);
    EffectiveMeaning(eff, |eff|, startup);
    assert eff[..|eff|] == eff;
  }

  /** Between two detections there is a Ready check: each episode is detected at most once. */
  lemma OncePerEpisode(eff: seq<Tick>, i: nat, j: nat, startup: nat)
    requires i < j < |eff| && Detects(eff, i, startup) && Detects(eff, j, startup)
    ensures exists r :: i < r < j && !eff[r].probe.Bad?
  {
  }

  /** No detection ever exactly if every bad check comes within the window of the last Ready check or startup. */
  lemma NeverDetectsIff(eff: seq<Tick>, n: nat, startup: nat)
    requires n <= |eff|
    ensures Detections(eff, n, startup) == {} <==> forall i: nat | i < n :: !Overdue(eff, i, startup)
  {
    if i: nat :| i < n && Overdue(eff, i, startup) {
      var d := FirstOverdue(eff, i, startup);
      assert d in Detections(eff, n, startup);
    }
  }

  lemma {:induction false} FirstOverdue(eff: seq<Tick>, i: nat, startup: nat) returns (d: nat)
    requires i < |eff| && Overdue(eff, i, startup)
    ensures d <= i && Detects(eff, d, startup)
  {
    if j: nat :| i - BadRun(eff, i) <= j < i && Overdue(eff, j, startup) {
      d := FirstOverdue(eff, j, startup);
    } else {
      d := i;
    }
  }

  lemma {:induction false} LastReadyBound(eff: seq<Tick>, n: nat, i: nat, startup: nat)
    requires Ordered(eff) && n <= i < |eff| && forall k | 0 <= k < |eff| :: eff[k].now >= startup
    ensures LastReady(eff, n, startup) <= eff[i].now
  {
    if n > 0 && !eff[n - 1].probe.Ready? {
      LastReadyBound(eff, n - 1, i, startup);
    }
  }

  lemma {:induction false} EpisodeSharesReady(eff: seq<Tick>, i: nat, n: nat, startup: nat)
    requires i <= n <= |eff| && forall k | i <= k < n :: eff[k].probe.Bad?
    ensures LastReady(eff, n, startup) == LastReady(eff, i, startup)
  {
    if i < n {
      EpisodeSharesReady(eff, i, n - 1, startup);
    }
  }

  lemma NonNegative(v: View, eff: seq<Tick>, startup: nat)
    requires Meaning(v, eff, |eff|, startup) && Ordered(eff)
    requires forall k | 0 <= k < |eff| :: Taken(eff[k], startup, WARMUP)
    ensures v.detected.Some? ==> v.detected.value >= v.last
  {
    var m := BadRun(eff, |eff|);
    if m > 0 {
      EpisodeSharesReady(eff, |eff| - m, |eff|, startup);
      LastReadyBound(eff, |eff| - m, |eff| - m, startup);
    }
  }

  /** Under a clock that never runs backwards the reported detection time is never negative: it runs from the last
      Ready check to the episode's first bad one. */
  lemma DetectionTime(trace: seq<Tick>, startup: nat)
    requires Ordered(trace)
    ensures var v := CheckAll(trace, startup); v.detected.Some? ==> v.detected.value >= v.last
  {
    CniTrace(trace, startup);
    EffectiveOrdered(trace, startup, WARMUP);
    EffectiveAllTaken(trace, startup, WARMUP);
    NonNegative(CheckAll(trace, startup), Effective(trace, startup, WARMUP), startup);
  }

  // ---- Which ticks count, in plain numbers ----------------------------------------------------------------

  /** The tick comes before two seconds have passed, or without a client. */
  predicate Idle(t: Tick, startup: nat) {
    t.now < startup + 2_000_000_000 || t.probe == NoClient
  }

  /** A trace of idle ticks leaves the start state. */
  lemma {:induction false} IdleTraceIsSilent(trace: seq<Tick>, startup: nat)
    requires forall i | 0 <= i < |trace| :: Idle(trace[i], startup)
    ensures CheckAll(trace, startup) == View(startup, None, false, 0, 0)
  {
    if |trace| > 0 {
      IdleTraceIsSilent(trace[..|trace| - 1], startup);
    }
  }

  /** An idle tick can be inserted or deleted anywhere without changing anything. */
  lemma {:induction false} IdleTickVanishes(before: seq<Tick>, t: Tick, after: seq<Tick>, startup: nat)
    requires Idle(t, startup)
    ensures CheckAll(before + [t] + after, startup) == CheckAll(before + after, startup)
  {
    if |after| == 0 {
      assert before + [t] + after == before + [t] && before + after == before;
      assert (before + [t])[..|before|] == before;
    } else {
      var rest := after[..|after| - 1];
      IdleTickVanishes(before, t, rest, startup);
      assert (before + [t] + after)[..|before| + |after|] == before + [t] + rest;
      assert (before + after)[..|before| + |after| - 1] == before + rest;
    }
  }

  /** Every other tick counts.  A Ready probe resets everything to the tick's time.  The first bad one of an episode
      sets the detection time; the first one more than three seconds after the last Ready probe triggers, and migrates
      if the refreshed log is empty. */
  lemma OtherTicksCount(before: seq<Tick>, t: Tick, startup: nat)
    requires t.now >= startup + 2_000_000_000 && t.probe != NoClient
    ensures var v, w := CheckAll(before, startup), CheckAll(before + [t], startup);
            if t.probe.Ready? then w == View(t.now, None, false, v.triggers, v.migrations)
            else
              var late := !v.triggered && t.now > v.last + 3_000_000_000;
              && w.last == v.last
              && w.detected == (if v.detected.None? then Some(t.now) else v.detected)
              && (w.triggered <==> v.triggered || late)
              && w.triggers == v.triggers + (if late then 1 else 0)
              && w.migrations == v.migrations + (if late && t.probe.fetched && t.probe.logEmpty then 1 else 0)
  {
    assert (before + [t])[..|before|] == before;
  }
}

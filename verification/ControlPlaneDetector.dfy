/** The control-plane monitor of a cluster: three bad checks in a row trigger a migration attempt. */
module ControlPlaneDetector {
  import opened Episodes
  import opened ClusterProbes
  import opened Wrappers

  const WARMUP: nat := 5 * SECOND
  const THRESHOLD: nat := 3  // MissCount > 2

  /** triggers and migrations are history: the detections and the migration attempts so far. */
  datatype View = View(last: nat, detected: Option<nat>, triggered: bool, misses: nat, triggers: nat, migrations: nat)

  function Start(startup: nat): View {
    View(startup, None, false, 0, 0, 0)
  }

  function Check(v: View, t: Tick, startup: nat): View {
    if !Taken(t, startup, WARMUP) then v
    else if t.probe.Ready? then View(t.probe.at, None, false, 0, v.triggers, v.migrations)
    else if !v.triggered && v.misses + 1 >= THRESHOLD then
      View(v.last, Some(t.now), true, v.misses + 1, v.triggers + 1,
           v.migrations + if t.probe.fetched && t.probe.logEmpty then 1 else 0)
    else v.(misses := v.misses + 1, detected := if v.detected.None? then Some(t.now) else v.detected)
  }

  function CheckAll(trace: seq<Tick>, startup: nat): View {
    if |trace| == 0 then Start(startup) else Check(CheckAll(trace[..|trace| - 1], startup), trace[|trace| - 1], startup)
  }

  class ControlPlaneMonitor {
    const startupTime: nat
    var tLastHeartbeat: nat
    var tDetected: Option<nat>
    var isTriggered: bool
    var missCount: nat
    var triggers: nat
    var migrations: nat

    constructor (startupTime: nat)
      ensures this.startupTime == startupTime && Now() == Start(startupTime)
    {
      this.startupTime := startupTime;
      tLastHeartbeat, tDetected, isTriggered, missCount, triggers, migrations := startupTime, None, false, 0, 0, 0;
    }

    ghost function Now(): View
      reads this
    {
      View(tLastHeartbeat, tDetected, isTriggered, missCount, triggers, migrations)
    }

    method OnTick(t: Tick)
      modifies this
      ensures Now() == Check(old(Now()), t, startupTime)
    {
      if t.now < startupTime + WARMUP { return; }
      if t.probe.NoClient? { return; }
      if t.probe.Ready? {
        tLastHeartbeat := t.probe.at;
        isTriggered := false;
        tDetected := None;
        missCount := 0;
        return;
      }
      missCount := missCount + 1;
      if tDetected.None? {
        tDetected := Some(t.now);
      }
      if !isTriggered && missCount > 2 {
        isTriggered := true;
        tDetected := Some(t.now);
        triggers := triggers + 1;
        if !t.probe.fetched { return; }
        if t.probe.logEmpty {
          migrations := migrations + 1;
        }
      }
    }

    /** The monitor loop over any trace of ticks. */
    method Monitor(trace: seq<Tick>)
      requires Now() == Start(startupTime)
      modifies this
      ensures Now() == CheckAll(trace, startupTime)
    {
      var i := 0;
      assert trace[..0] == [];
      while i < |trace|
        invariant 0 <= i <= |trace| && Now() == CheckAll(trace[..i], startupTime)
      {
        assert trace[..i + 1][..i] == trace[..i];
        OnTick(trace[i]);
        i := i + 1;
      }
      assert trace[..|trace|] == trace;
    }
  }

  // ---- Trace specification --------------------------------------------------------------------------------

  /** The observations of a trace without skipped ticks. */
  function Observations(eff: seq<Tick>): (obs: seq<Obs>)
    ensures |obs| == |eff| && forall i | 0 <= i < |eff| :: obs[i] == (if eff[i].probe.Bad? then Stale else Fresh)
  {
    seq(|eff|, i requires 0 <= i < |eff| => if eff[i].probe.Bad? then Stale else Fresh)
  }

  /** The episode starting at a is detected at its third check, which finds the refreshed log empty. */
  predicate Migrates(eff: seq<Tick>, a: int) {
    LongRunAt(Observations(eff), a, THRESHOLD)
    && var p := eff[a + THRESHOLD - 1].probe; p.Bad? && p.fetched && p.logEmpty
  }

  function MigratingEpisodes(eff: seq<Tick>): set<int> {
    set a | a in LongRuns(Observations(eff), THRESHOLD) && Migrates(eff, a)
  }

  /** Skipped ticks stutter: deleting them changes nothing. */
  lemma {:induction false} SkipsStutter(trace: seq<Tick>, startup: nat)
    ensures CheckAll(Effective(trace, startup, WARMUP), startup) == CheckAll(trace, startup)
  {
    if |trace| > 0 {
      var before := trace[..|trace| - 1];
      SkipsStutter(before, startup);
      var eff := Effective(trace, startup, WARMUP);
      if Taken(trace[|trace| - 1], startup, WARMUP) {
        assert eff[..|eff| - 1] == Effective(before, startup, WARMUP);
      } else {
        assert eff == Effective(before, startup, WARMUP);
      }
    }
  }

  /** The time TDetected holds after a trace: the first bad check of the episode, then the one that triggered. */
  function DetectedAt(eff: seq<Tick>): Option<nat> {
    var m := TrailingStale(Observations(eff));
    if m == 0 || m > |eff| then None
    else if m < THRESHOLD then Some(eff[|eff| - m].now)
    else Some(eff[|eff| - m + THRESHOLD - 1].now)
  }

  /** The clock after the last Ready probe, or the startup. */
  function LastReady(eff: seq<Tick>, startup: nat): nat {
    if |eff| == 0 then startup
    else if eff[|eff| - 1].probe.Ready? then eff[|eff| - 1].probe.at
    else LastReady(eff[..|eff| - 1], startup)
  }

  lemma {:induction false} LastPart(eff: seq<Tick>, startup: nat)
    requires forall i | 0 <= i < |eff| :: Taken(eff[i], startup, WARMUP)
    ensures CheckAll(eff, startup).last == LastReady(eff, startup)
  {
    if |eff| > 0 {
      LastPart(eff[..|eff| - 1], startup);
    }
  }

  lemma ObservationsInit(eff: seq<Tick>)
    requires |eff| > 0
    ensures Observations(eff)[..|eff| - 1] == Observations(eff[..|eff| - 1])
    ensures Observations(eff) == Observations(eff[..|eff| - 1]) + [Observations(eff)[|eff| - 1]]
  {
  }

  lemma MigrationsStep(eff: seq<Tick>)
    requires |eff| > 0
    ensures var before := eff[..|eff| - 1]; var obs := Observations(before); var t := eff[|eff| - 1];
            |MigratingEpisodes(eff)| == |MigratingEpisodes(before)|
              + if t.probe.Bad? && TrailingStale(obs) + 1 == THRESHOLD && t.probe.fetched && t.probe.logEmpty
                then 1 else 0
  {
    var before, t := eff[..|eff| - 1], eff[|eff| - 1];
    var obs, o := Observations(before), Observations(eff)[|eff| - 1];
    ObservationsInit(eff);
    var e := |before| + 1 - THRESHOLD;
    forall a
      ensures a in MigratingEpisodes(eff) <==>
              || a in MigratingEpisodes(before)
              || (CompletesRun(obs, o, a, THRESHOLD) && t.probe.fetched && t.probe.logEmpty)
      ensures CompletesRun(obs, o, a, THRESHOLD) ==> a == e && a !in MigratingEpisodes(before)
    {
      RunsStep(obs, o, a, THRESHOLD);
    }
    if CompletesRun(obs, o, e, THRESHOLD) && t.probe.fetched && t.probe.logEmpty {
      assert MigratingEpisodes(eff) == MigratingEpisodes(before) + {e};
    } else {
      assert MigratingEpisodes(eff) == MigratingEpisodes(before);
    }
  }

  /** On traces without skips the monitor counts like the counting detector. */
  lemma {:induction false} CounterPart(eff: seq<Tick>, startup: nat)
    requires forall i | 0 <= i < |eff| :: Taken(eff[i], startup, WARMUP)
    ensures var v := CheckAll(eff, startup);
            CountAll(Observations(eff), THRESHOLD) == Counter(v.misses, v.triggered, v.triggers)
  {
    if |eff| > 0 {
      CounterPart(eff[..|eff| - 1], startup);
      ObservationsInit(eff);
    }
  }

  lemma TrailingStep(eff: seq<Tick>)
    requires |eff| > 0
    ensures var m := TrailingStale(Observations(eff[..|eff| - 1]));
            m < |eff| && TrailingStale(Observations(eff)) == if eff[|eff| - 1].probe.Bad? then m + 1 else 0
  {
    ObservationsInit(eff);
    TrailingRun(Observations(eff[..|eff| - 1]));
  }

  lemma DetectedStep(eff: seq<Tick>)
    requires |eff| > 0
    ensures var before := eff[..|eff| - 1]; var m := TrailingStale(Observations(before)); var t := eff[|eff| - 1];
            DetectedAt(eff) == if !t.probe.Bad? then None
                               else if m == 0 || m + 1 == THRESHOLD then Some(t.now)
                               else DetectedAt(before)
  {
    TrailingStep(eff);
  }

  lemma {:induction false} DetectedPart(eff: seq<Tick>, startup: nat)
    requires forall i | 0 <= i < |eff| :: Taken(eff[i], startup, WARMUP)
    ensures CheckAll(eff, startup).detected == DetectedAt(eff)
    ensures DetectedAt(eff).Some? <==> CheckAll(eff, startup).misses > 0
  {
    CounterPart(eff, startup);
    CountAllMeaning(Observations(eff), THRESHOLD);
    if |eff| > 0 {
      var before := eff[..|eff| - 1];
      DetectedPart(before, startup);
      CounterPart(before, startup);
      CountAllMeaning(Observations(before), THRESHOLD);
      TrailingStep(eff);
      DetectedStep(eff);
    }
  }

  lemma {:induction false} MigrationPart(eff: seq<Tick>, startup: nat)
    requires forall i | 0 <= i < |eff| :: Taken(eff[i], startup, WARMUP)
    ensures CheckAll(eff, startup).migrations == |MigratingEpisodes(eff)|
  {
    if |eff| > 0 {
      var before := eff[..|eff| - 1];
      MigrationPart(before, startup);
      CounterPart(before, startup);
      CountAllMeaning(Observations(before), THRESHOLD);
      MigrationsStep(eff);
    } else {
      assert MigratingEpisodes(eff) == {};
    }
  }

  /** The state after a trace, in terms of the observations of its checks: the miss count is the trailing bad run, the
      flag says whether it is three long, TDetected is set exactly in a bad episode, there was one trigger per long
      episode, and the migration attempts are the episodes whose third check found the refreshed log empty. */
  predicate Meaning(v: View, eff: seq<Tick>, startup: nat) {
    var obs := Observations(eff);
    && v.last == LastReady(eff, startup)
    && v.misses == TrailingStale(obs)
    && (v.triggered <==> v.misses >= THRESHOLD)
    && v.detected == DetectedAt(eff) && (v.detected.Some? <==> v.misses > 0)
    && v.triggers == |LongRuns(obs, THRESHOLD)|
    && v.migrations == |MigratingEpisodes(eff)| <= v.triggers
  }

  lemma EffectiveMeaning(eff: seq<Tick>, startup: nat)
    requires forall i | 0 <= i < |eff| :: Taken(eff[i], startup, WARMUP)
    ensures Meaning(CheckAll(eff, startup), eff, startup)
  {
    LastPart(eff, startup);
    CounterPart(eff, startup);
    DetectedPart(eff, startup);
    MigrationPart(eff, startup);
    CountAllMeaning(Observations(eff), THRESHOLD);
    SubsetSize(MigratingEpisodes(eff), LongRuns(Observations(eff), THRESHOLD));
  }

  /** The control-plane detector refines the trace specification on every trace, skipped ticks included. */
  lemma ControlPlaneTrace(trace: seq<Tick>, startup: nat)
    ensures Meaning(CheckAll(trace, startup), Effective(trace, startup, WARMUP), startup)
  {
    SkipsStutter(trace, startup);
    EffectiveAllTaken(trace, startup, WARMUP);
    EffectiveMeaning(Effective(trace, startup, WARMUP), startup);
  }

  lemma SubsetSize(a: set<int>, b: set<int>)
    requires a <= b
    ensures |a| <= |b|
  {
    assert b * a == a;
    assert |b - a| == |b| - |b * a|;
  }

  // ---- Which ticks count, in plain numbers ----------------------------------------------------------------

  /** The tick comes before five seconds have passed, or without a client. */
  predicate Idle(t: Tick, startup: nat) {
    t.now < startup + 5_000_000_000 || t.probe == NoClient
  }

  /** A trace of idle ticks leaves the start state. */
  lemma {:induction false} IdleTraceIsSilent(trace: seq<Tick>, startup: nat)
    requires forall i | 0 <= i < |trace| :: Idle(trace[i], startup)
    ensures CheckAll(trace, startup) == View(startup, None, false, 0, 0, 0)
  {
    if |trace| > 0 {
      IdleTraceIsSilent(trace[..|trace| - 1], startup);
    }
  }

  /** An idle tick can be inserted or deleted anywhere without changing anything. */
  lemma {:induction false} IdleTickVanishes(before: seq<Tick>, t: Tick, after: seq<Tick>, startup: nat)
    requires Idle(t, startup)
    ensures CheckAll(before + [t] + after, startup) == CheckAll(before + after, startup)
  {
    if |after| == 0 {
      assert before + [t] + after == before + [t] && before + after == before;
      assert (before + [t])[..|before|] == before;
    } else {
      var rest := after[..|after| - 1];
      IdleTickVanishes(before, t, rest, startup);
      assert (before + [t] + after)[..|before| + |after|] == before + [t] + rest;
      assert (before + after)[..|before| + |after| - 1] == before + rest;
    }
  }

  /** Every other tick counts.  A Ready probe resets everything to its clock.  A bad one is one miss more; the first of
      an episode and the third set the detection time; the third triggers, and migrates if the refreshed log is
      empty. */
  lemma OtherTicksCount(before: seq<Tick>, t: Tick, startup: nat)
    requires t.now >= startup + 5_000_000_000 && t.probe != NoClient
    ensures var v, w := CheckAll(before, startup), CheckAll(before + [t], startup);
            if t.probe.Ready? then w == View(t.probe.at, None, false, 0, v.triggers, v.migrations)
            else
              && w.last == v.last && w.misses == v.misses + 1
              && w.detected == (if v.misses == 0 || v.misses == 2 then Some(t.now) else v.detected)
              && (w.triggered <==> v.misses >= 2)
              && w.triggers == v.triggers + (if v.misses == 2 then 1 else 0)
              && w.migrations == v.migrations + (if v.misses == 2 && t.probe.fetched && t.probe.logEmpty then 1 else 0)
  {
    ControlPlaneTrace(before, startup);
    assert (before + [t])[..|before|] == before;
  }
}

/** What the control-plane and the CNI monitor of a cluster see at their ticks. */
module ClusterProbes {
  import opened Wrappers

  /** NoClient: the cluster or its client was not available.  Ready carries the clock after the probe.  Bad carries what
      refreshing the policy would return: whether it succeeds and whether the transition log is then empty. */
  datatype Probe = NoClient | Ready(at: nat) | Bad(fetched: bool, logEmpty: bool)

  datatype Tick = Tick(now: nat, probe: Probe)

  /** The check is carried out: past the warm-up and with a client. */
  predicate Taken(t: Tick, startup: nat, warmup: nat) {
    t.now >= startup + warmup && !t.probe.NoClient?
  }

  /** The trace without the skipped ticks. */
  function Effective(trace: seq<Tick>, startup: nat, warmup: nat): seq<Tick> {
    if |trace| == 0 then []
    else
      Effective(trace[..|trace| - 1], startup, warmup)
      + if Taken(trace[|trace| - 1], startup, warmup) then [trace[|trace| - 1]] else []
  }

  lemma {:induction false} EffectiveAllTaken(trace: seq<Tick>, startup: nat, warmup: nat)
    ensures var eff := Effective(trace, startup, warmup);
            (forall i | 0 <= i < |eff| :: Taken(eff[i], startup, warmup)) && Effective(eff, startup, warmup) == eff
  {
    if |trace| > 0 {
      EffectiveAllTaken(trace[..|trace| - 1], startup, warmup);
      var eff := Effective(trace, startup, warmup);
      if Taken(trace[|trace| - 1], startup, warmup) {
        assert eff[..|eff| - 1] == Effective(trace[..|trace| - 1], startup, warmup);
      } else {
        assert eff == Effective(trace[..|trace| - 1], startup, warmup);
      }
    }
  }

  /** The ticks carry the readings of a clock that never runs backwards. */
  predicate Ordered(trace: seq<Tick>) {
    forall i, j | 0 <= i < j < |trace| :: trace[i].now <= trace[j].now
  }

  lemma {:induction false} EffectiveOrdered(trace: seq<Tick>, startup: nat, warmup: nat)
    requires Ordered(trace)
    ensures var eff := Effective(trace, startup, warmup);
            Ordered(eff) && forall i | 0 <= i < |eff| :: |trace| > 0 && eff[i].now <= trace[|trace| - 1].now
  {
    if |trace| > 0 {
      EffectiveOrdered(trace[..|trace| - 1], startup, warmup);
    }
  }
}

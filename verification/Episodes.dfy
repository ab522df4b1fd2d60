/** The trace specification of a fault detector that counts misses: one trigger per long enough bad episode. */
module Episodes {

  datatype Obs = Fresh | Stale

  /** Length of the run of Stale observations a trace ends with. */
  function TrailingStale(trace: seq<Obs>): nat {
    if |trace| == 0 || trace[|trace| - 1].Fresh? then 0 else 1 + TrailingStale(trace[..|trace| - 1])
  }

  /** The k observations from a on are there and Stale. */
  predicate InARow(trace: seq<Obs>, a: int, k: nat) {
    0 <= a && a + k <= |trace| && forall i | a <= i < a + k :: trace[i].Stale?
  }

  /** A maximal Stale run of at least k observations starts at a. */
  predicate LongRunAt(trace: seq<Obs>, a: int, k: nat) {
    InARow(trace, a, k) && (a == 0 || trace[a - 1].Fresh?)
  }

  /** The maximal Stale runs of length at least k, by their starts. */
  function LongRuns(trace: seq<Obs>, k: nat): set<int> {
    set a | 0 <= a < |trace| && LongRunAt(trace, a, k)
  }

  /** The counting detector: a miss counter, the flag of the current episode, and the triggers so far. */
  datatype Counter = Counter(misses: nat, triggered: bool, triggers: nat)

  function Count(c: Counter, o: Obs, k: nat): Counter {
    match o
    case Fresh => Counter(0, false, c.triggers)
    case Stale =>
      if !c.triggered && c.misses + 1 >= k then Counter(c.misses + 1, true, c.triggers + 1)
      else Counter(c.misses + 1, c.triggered, c.triggers)
  }

  function CountAll(trace: seq<Obs>, k: nat): Counter {
    if |trace| == 0 then Counter(0, false, 0) else Count(CountAll(trace[..|trace| - 1], k), trace[|trace| - 1], k)
  }

  lemma {:induction false} TrailingRun(trace: seq<Obs>)
    ensures var n := TrailingStale(trace);
            && n <= |trace|
            && (forall i | |trace| - n <= i < |trace| :: trace[i].Stale?)
            && (n < |trace| ==> trace[|trace| - n - 1].Fresh?)
  {
    if |trace| > 0 && trace[|trace| - 1].Stale? {
      TrailingRun(trace[..|trace| - 1]);
    }
  }

  lemma OldRunsStay(trace: seq<Obs>, o: Obs, a: int, k: nat)
    requires k >= 1 && 0 <= a && a + k <= |trace|
    ensures LongRunAt(trace + [o], a, k) <==> LongRunAt(trace, a, k)
  {
    assert forall i | 0 <= i < |trace| :: (trace + [o])[i] == trace[i];
  }

  lemma NewRun(trace: seq<Obs>, o: Obs, a: int, k: nat)
    requires k >= 1 && 0 <= a && a + k == |trace| + 1
    ensures LongRunAt(trace + [o], a, k) <==> o.Stale? && TrailingStale(trace) + 1 == k
  {
    var n := TrailingStale(trace);
    TrailingRun(trace);
    assert forall i | 0 <= i < |trace| :: (trace + [o])[i] == trace[i];
    assert (trace + [o])[|trace|] == o;
    if LongRunAt(trace + [o], a, k) {
      assert n < |trace| ==> !(a <= |trace| - n - 1 < a + k) by {
        assert InARow(trace + [o], a, k);
      }
    }
  }

  /** The observation o after trace completes the run of k observations that starts at a. */
  predicate CompletesRun(trace: seq<Obs>, o: Obs, a: int, k: nat) {
    o.Stale? && TrailingStale(trace) + 1 == k && a == |trace| + 1 - k
  }

  lemma RunsStep(trace: seq<Obs>, o: Obs, a: int, k: nat)
    requires k >= 1
    ensures LongRunAt(trace + [o], a, k) <==> LongRunAt(trace, a, k) || CompletesRun(trace, o, a, k)
    ensures CompletesRun(trace, o, a, k) ==> 0 <= a && !LongRunAt(trace, a, k)
  {
    TrailingRun(trace);
    if 0 <= a && a + k <= |trace| {
      OldRunsStay(trace, o, a, k);
    } else if a >= 0 && a + k == |trace| + 1 {
      NewRun(trace, o, a, k);
    }
  }

  /** One more observation completes a long run exactly if it makes the trailing run k long. */
  lemma LongRunsStep(trace: seq<Obs>, o: Obs, k: nat)
    requires k >= 1
    ensures |LongRuns(trace + [o], k)|
            == |LongRuns(trace, k)| + if o.Stale? && TrailingStale(trace) + 1 == k then 1 else 0
  {
    var e := |trace| + 1 - k;
    forall a ensures LongRunAt(trace + [o], a, k) <==> LongRunAt(trace, a, k) || CompletesRun(trace, o, a, k) {
      RunsStep(trace, o, a, k);
    }
    RunsStep(trace, o, e, k);
    if CompletesRun(trace, o, e, k) {
      assert LongRuns(trace + [o], k) == LongRuns(trace, k) + {e};
    } else {
      assert LongRuns(trace + [o], k) == LongRuns(trace, k);
    }
  }

  /** The counter's state is a function of the trailing run, and it triggered once for every long maximal run. */
  lemma {:induction false} CountAllMeaning(trace: seq<Obs>, k: nat)
    requires k >= 1
    ensures var c := CountAll(trace, k);
            && c.misses == TrailingStale(trace)
            && (c.triggered <==> c.misses >= k)
            && c.triggers == |LongRuns(trace, k)|
  {
    if |trace| > 0 {
      var before := trace[..|trace| - 1];
      CountAllMeaning(before, k);
      assert trace == before + [trace[|trace| - 1]];
      LongRunsStep(before, trace[|trace| - 1], k);
    }
  }

  lemma RowsOfPrefix(trace: seq<Obs>, k: nat)
    requires k >= 1 && |trace| > 0
    ensures forall a :: InARow(trace, a, k) <==>
              InARow(trace[..|trace| - 1], a, k) || (a == |trace| - k && TrailingStale(trace) >= k)
  {
    var before := trace[..|trace| - 1];
    TrailingRun(trace);
    forall a ensures InARow(trace, a, k) <==> InARow(before, a, k) || (a == |trace| - k && TrailingStale(trace) >= k) {
      assert forall i | 0 <= i < |before| :: before[i] == trace[i];
      if a == |trace| - k && InARow(trace, a, k) {
        assert TrailingStale(trace) >= k;
      }
    }
  }

  /** A trace triggers nothing exactly if it never holds k Stale observations in a row. */
  lemma {:induction false} QuietIffNeverInARow(trace: seq<Obs>, k: nat)
    requires k >= 1
    ensures CountAll(trace, k).triggers == 0 <==> forall a :: !InARow(trace, a, k)
  {
    if |trace| > 0 {
      var before := trace[..|trace| - 1];
      QuietIffNeverInARow(before, k);
      CountAllMeaning(before, k);
      RowsOfPrefix(trace, k);
      if TrailingStale(before) >= k {
        TrailingRun(before);
        assert InARow(before, |before| - k, k) && InARow(trace, |before| - k, k);
      } else if TrailingStale(trace) >= k {
        assert InARow(trace, |trace| - k, k);
      } else {
        assert CountAll(trace, k).triggers == CountAll(before, k).triggers;
        assert forall a :: InARow(before, a, k) ==> InARow(trace, a, k);
      }
    }
  }
}

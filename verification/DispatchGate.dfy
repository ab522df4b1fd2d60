/** A gate that closes while a sweep is running: when a package has several workloads, a later failure opens it
    again. */
module DispatchGate {
  import opened TransitionLog
  import opened Dispatch

  /** Once the gate of pkg is closed in a sweep, it stays closed on every schedule. */
  ghost predicate ClosedStays(visits: seq<Visit>, log: Log, limit: nat, pkg: string) {
    forall s, t | Reaches(Init(visits, log), s, limit) && Reaches(s, t, limit) && Transitioned(s.log, pkg) ::
      Transitioned(t.log, pkg)
  }

  // ---- One key: at most one record ------------------------------------------------------------------------

  /** The one worker of pkg has appended its record, or never will. */
  predicate Spent(s: State, pkg: string) {
    exists i :: 0 <= i < |s.tasks| && s.tasks[i].visit.pkg == pkg && s.tasks[i].stage != Working(false)
  }

  ghost predicate ClosedBySpent(s: State, pkg: string) {
    Transitioned(s.log, pkg) ==> Spent(s, pkg)
  }

  lemma NoSecondAppend(s: State, i: nat, limit: nat, visits: seq<Visit>, pkg: string)
    requires Inv(s, limit) && FromVisits(s, visits) && OneKey(visits, pkg) && Spent(s, pkg)
    requires i < |s.tasks| && s.tasks[i].stage == Working(false)
    ensures s.tasks[i].visit.pkg != pkg
  {
  }

  lemma SpentStep(s: State, a: Action, limit: nat, visits: seq<Visit>, pkg: string)
    requires Inv(s, limit) && Enabled(s, a, limit) && FromVisits(s, visits) && OneKey(visits, pkg) && Spent(s, pkg)
    ensures var t := Step(s, a, limit); Spent(t, pkg) && (Transitioned(t.log, pkg) <==> Transitioned(s.log, pkg))
  {
    var t := Step(s, a, limit);
    var j :| 0 <= j < |s.tasks| && s.tasks[j].visit.pkg == pkg && s.tasks[j].stage != Working(false);
    assert t.tasks[j].visit.pkg == pkg && t.tasks[j].stage != Working(false);
    if a.Append? {
      NoSecondAppend(s, a.i, limit, visits, pkg);
      AppendOther(s.log, Record([s.tasks[a.i].visit.pkg], a.time, a.condition), pkg);
    }
  }

  lemma ClosingStep(s: State, a: Action, limit: nat, visits: seq<Visit>, pkg: string)
    requires Inv(s, limit) && Enabled(s, a, limit) && FromVisits(s, visits) && OneKey(visits, pkg)
    requires ClosedBySpent(s, pkg)
    ensures ClosedBySpent(Step(s, a, limit), pkg)
  {
    if Spent(s, pkg) {
      SpentStep(s, a, limit, visits, pkg);
    } else if a.Append? {
      var t := Step(s, a, limit);
      if s.tasks[a.i].visit.pkg == pkg {
        assert t.tasks[a.i].visit.pkg == pkg && t.tasks[a.i].stage != Working(false);
      } else {
        AppendOther(s.log, Record([s.tasks[a.i].visit.pkg], a.time, a.condition), pkg);
      }
    }
  }

  lemma {:induction false} ClosingRun(s: State, acts: seq<Action>, limit: nat, visits: seq<Visit>, pkg: string)
    requires Inv(s, limit) && IsRun(s, acts, limit) && FromVisits(s, visits) && OneKey(visits, pkg)
    requires ClosedBySpent(s, pkg)
    ensures var t := After(s, acts, limit); Inv(t, limit) && FromVisits(t, visits) && ClosedBySpent(t, pkg)
    ensures Spent(s, pkg) && Transitioned(s.log, pkg) ==> Transitioned(After(s, acts, limit).log, pkg)
    decreases |acts|
  {
    if |acts| > 0 {
      StepAdvances(s, acts[0], limit);
      SoundStep(s, acts[0], limit, visits);
      ClosingStep(s, acts[0], limit, visits, pkg);
      if Spent(s, pkg) {
        SpentStep(s, acts[0], limit, visits, pkg);
      }
      ClosingRun(Step(s, acts[0], limit), acts[1..], limit, visits, pkg);
    }
  }

  // ---- Two keys: a failure after a completion -------------------------------------------------------------

  /** A candidate of pkg under this key is still to be looked at, and the key is new. */
  predicate Due(s: State, pkg: string, key: string) {
    Awaits(s.todo, key, pkg) && key !in s.processed
  }

  /** t is s after candidates were worked off and one worker of pkg was spawned and left running. */
  predicate Spawned(s: State, t: State, pkg: string) {
    && t.main.Scanning? && t.sem == s.sem + 1 && |t.tasks| > |s.tasks| && t.tasks[..|s.tasks|] == s.tasks
    && t.tasks[|t.tasks| - 1].visit.pkg == pkg && t.tasks[|t.tasks| - 1].stage == Working(false)
  }

  /** The state between two candidates, with the gate of pkg open and a slot free. */
  ghost predicate Idling(s: State, limit: nat, pkg: string) {
    s.main.Scanning? && s.sem < limit && !Transitioned(s.log, pkg) && KeysTellPackages(s.todo)
  }

  /** The next candidate is not the one to stop at: it is skipped, or its worker completes at once. */
  lemma PassBy(s: State, limit: nat, pkg: string) returns (t: State)
    requires Idling(s, limit, pkg) && |s.todo| > 0 && (s.todo[0].pkg == pkg ==> s.todo[0].key in s.processed)
    ensures Idling(t, limit, pkg) && t.sem == s.sem && |s.tasks| <= |t.tasks| && t.tasks[..|s.tasks|] == s.tasks
    ensures t.todo == s.todo[1..] && forall key | Due(s, pkg, key) :: Due(t, pkg, key)
    ensures forall u | Reaches(t, u, limit) :: Reaches(s, u, limit)
  {
    var v, u := s.todo[0], StepScan(s);
    forall key | Due(s, pkg, key) ensures Awaits(s.todo[1..], key, pkg) {
      AwaitsTail(s.todo, key, pkg);
    }
    if u.main.Acquiring? {
      CompletedLog(u, pkg);
      t := Completed(u);
      assert forall key | Due(s, pkg, key) :: key != v.key;
      forall w | Reaches(t, w, limit) ensures Reaches(s, w, limit) {
        CompletedReached(u, w, limit);
        ReachStep(s, Scan, w, limit);
      }
    } else {
      t := u;
      forall w | Reaches(t, w, limit) ensures Reaches(s, w, limit) {
        ReachStep(s, Scan, w, limit);
      }
    }
  }

  /** The next candidate is due: spawn its worker. */
  lemma SpawnNow(s: State, limit: nat, pkg: string) returns (t: State)
    requires Idling(s, limit, pkg) && |s.todo| > 0 && s.todo[0].pkg == pkg && s.todo[0].key !in s.processed
    ensures Spawned(s, t, pkg) && !Transitioned(t.log, pkg) && KeysTellPackages(t.todo)
    ensures forall key | Due(s, pkg, key) && key != s.todo[0].key :: Due(t, pkg, key)
    ensures forall u | Reaches(t, u, limit) :: Reaches(s, u, limit)
  {
    var v, u := s.todo[0], StepScan(s);
    t := Step(u, Acquire, limit);
    forall key | Due(s, pkg, key) && key != v.key ensures Awaits(s.todo[1..], key, pkg) {
      AwaitsTail(s.todo, key, pkg);
    }
    forall w | Reaches(t, w, limit) ensures Reaches(s, w, limit) {
      ReachStep(u, Acquire, w, limit);
      ReachStep(s, Scan, w, limit);
    }
  }

  /** Scan on to the next due candidate of pkg and spawn its worker. */
  lemma {:induction false} SpawnNext(s: State, limit: nat, pkg: string, some: string) returns (t: State, key: string)
    requires Idling(s, limit, pkg) && Due(s, pkg, some)
    ensures Spawned(s, t, pkg) && !Transitioned(t.log, pkg) && KeysTellPackages(t.todo)
    ensures forall k | Due(s, pkg, k) && k != key :: Due(t, pkg, k)
    ensures forall u | Reaches(t, u, limit) :: Reaches(s, u, limit)
    decreases |s.todo|
  {
    if s.todo[0].pkg == pkg && s.todo[0].key !in s.processed {
      key := s.todo[0].key;
      t := SpawnNow(s, limit, pkg);
    } else {
      var u := PassBy(s, limit, pkg);
      t, key := SpawnNext(u, limit, pkg, some);
      assert t.tasks[..|s.tasks|] == t.tasks[..|u.tasks|][..|s.tasks|];
    }
  }

  /** Two running workers of pkg: one completes, then the other fails. */
  lemma Reopened(s: State, a: nat, b: nat, limit: nat, pkg: string) returns (closed: State, open: State)
    requires a < |s.tasks| && b < |s.tasks| && a != b
    requires s.tasks[a].visit.pkg == pkg && s.tasks[a].stage == Working(false)
    requires s.tasks[b].visit.pkg == pkg && s.tasks[b].stage == Working(false)
    ensures Reaches(s, closed, limit) && Reaches(closed, open, limit)
    ensures Transitioned(closed.log, pkg) && !Transitioned(open.log, pkg)
  {
    var time := LatestTime(s.log);
    LatestTimeBounds(s.log);
    var first, second := Append(a, time + 1, COMPLETED), Append(b, time + 2, FAILED);
    closed := Step(s, first, limit);
    AppendSame(s.log, Record([pkg], time + 1, COMPLETED), pkg);
    open := Step(closed, second, limit);
    AppendSame(closed.log, Record([pkg], time + 2, FAILED), pkg);
    assert FAILED[0] != COMPLETED[0];
    ReachSelf(closed, limit);
    ReachStep(s, first, closed, limit);
    ReachSelf(open, limit);
    ReachStep(closed, second, open, limit);
  }

  lemma TwoKeysReopen(visits: seq<Visit>, log: Log, limit: nat, pkg: string) returns (closed: State, open: State)
    requires limit >= 2 && KeysTellPackages(visits) && !Transitioned(log, pkg) && !OneKey(visits, pkg)
    ensures Reaches(Init(visits, log), closed, limit) && Reaches(closed, open, limit)
    ensures Transitioned(closed.log, pkg) && !Transitioned(open.log, pkg)
  {
    var init := Init(visits, log);
    var i, j :| 0 <= i < |visits| && 0 <= j < |visits| && visits[i].pkg == pkg && visits[j].pkg == pkg
                && visits[i].key != visits[j].key;
    assert Awaits(visits, visits[i].key, pkg) && Awaits(visits, visits[j].key, pkg);
    var s1, key := SpawnNext(init, limit, pkg, visits[i].key);
    var other := if visits[i].key == key then visits[j].key else visits[i].key;
    var a := |s1.tasks| - 1;
    var s2, _ := SpawnNext(s1, limit, pkg, other);
    assert s2.tasks[a] == s2.tasks[..|s1.tasks|][a] == s1.tasks[a];
    closed, open := Reopened(s2, a, |s2.tasks| - 1, limit, pkg);
  }

  /** For a package whose gate is open at the start: once closed it stays closed on every schedule exactly if all
      candidates of the package share one key. */
  lemma ClosedStaysIff(visits: seq<Visit>, log: Log, limit: nat, pkg: string)
    requires limit >= 2 && KeysTellPackages(visits) && !Transitioned(log, pkg)
    ensures ClosedStays(visits, log, limit, pkg) <==> OneKey(visits, pkg)
  {
    var init := Init(visits, log);
    if OneKey(visits, pkg) {
      forall s, t | Reaches(init, s, limit) && Reaches(s, t, limit) && Transitioned(s.log, pkg)
        ensures Transitioned(t.log, pkg)
      {
        var a1 :| IsRun(init, a1, limit) && After(init, a1, limit) == s;
        var a2 :| IsRun(s, a2, limit) && After(s, a2, limit) == t;
        ClosingRun(init, a1, limit, visits, pkg);
        ClosingRun(s, a2, limit, visits, pkg);
      }
    } else {
      var closed, open := TwoKeysReopen(visits, log, limit, pkg);
    }
  }
}

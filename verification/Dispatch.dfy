/** The dispatch scheme shared by HandlePodsOnNodeForPolicy and TriggerTransitionOnMissedNodeHealth: a main thread scans
    candidates, consults the transition log, de-duplicates by key and spawns workers under a counting semaphore, while
    the workers append to that log.  Appending a record and pushing the status is one atomic step. */
module Dispatch {
  import opened TransitionLog

  datatype PodRef = PodRef(namespace: string, name: string)

  /** A candidate that passed the filters, with the pod whose transition it would start. */
  datatype Visit = Visit(key: string, pkg: string, pod: PodRef)

  /** A worker: transitioning, then after `<-sem`, then after wg.Done. */
  datatype Stage = Working(appended: bool) | Released | Done

  datatype Task = Task(visit: Visit, stage: Stage)

  datatype Main = Scanning | Acquiring(visit: Visit) | Returned

  datatype State = State(todo: seq<Visit>, main: Main, processed: set<string>, tasks: seq<Task>, sem: nat, wg: int,
                         log: Log)

  datatype Action = Scan | Acquire | Append(i: nat, time: int, condition: Condition) | Release(i: nat) | Finish(i: nat)

  function Init(visits: seq<Visit>, log: Log): State {
    State(visits, Scanning, {}, [], 0, 0, log)
  }

  predicate Enabled(s: State, a: Action, limit: nat) {
    match a
    case Scan => s.main.Scanning? && (|s.todo| > 0 || s.wg == 0)  // the empty scan is wg.Wait
    case Acquire => s.main.Acquiring? && s.sem < limit
    case Append(i, _, _) => i < |s.tasks| && s.tasks[i].stage == Working(false)
    case Release(i) => i < |s.tasks| && s.tasks[i].stage.Working? && s.sem > 0
    case Finish(i) => i < |s.tasks| && s.tasks[i].stage.Released?
  }

  ghost function Step(s: State, a: Action, limit: nat): State
    requires Enabled(s, a, limit)
  {
    match a
    case Scan => if |s.todo| == 0 then s.(main := Returned) else StepScan(s)
    case Acquire => s.(main := Scanning, sem := s.sem + 1, tasks := s.tasks + [Task(s.main.visit, Working(false))])
    case Append(i, time, condition) =>
      s.(tasks := s.tasks[i := Task(s.tasks[i].visit, Working(true))],
         log := s.log + [Record([s.tasks[i].visit.pkg], time, condition)])
    case Release(i) => s.(tasks := s.tasks[i := Task(s.tasks[i].visit, Released)], sem := s.sem - 1)
    case Finish(i) => s.(tasks := s.tasks[i := Task(s.tasks[i].visit, Done)], wg := s.wg - 1)
  }

  /** One candidate: skipped if its package is transitioned or its key was seen, else handed to a worker. */
  ghost function StepScan(s: State): State
    requires |s.todo| > 0
  {
    var v := s.todo[0];
    if Transitioned(s.log, v.pkg) || v.key in s.processed then s.(todo := s.todo[1..])
    else s.(todo := s.todo[1..], processed := s.processed + {v.key}, wg := s.wg + 1, main := Acquiring(v))
  }

  ghost predicate IsRun(s: State, acts: seq<Action>, limit: nat)
    decreases |acts|
  {
    |acts| == 0 || (Enabled(s, acts[0], limit) && IsRun(Step(s, acts[0], limit), acts[1..], limit))
  }

  ghost function After(s: State, acts: seq<Action>, limit: nat): State
    requires IsRun(s, acts, limit)
    decreases |acts|
  {
    if |acts| == 0 then s else After(Step(s, acts[0], limit), acts[1..], limit)
  }

  // ---- Invariant ------------------------------------------------------------------------------------------

  function InFlight(tasks: seq<Task>, n: nat): nat
    requires n <= |tasks|
  {
    if n == 0 then 0 else InFlight(tasks, n - 1) + if tasks[n - 1].stage.Working? then 1 else 0
  }

  function Unfinished(tasks: seq<Task>, n: nat): nat
    requires n <= |tasks|
  {
    if n == 0 then 0 else Unfinished(tasks, n - 1) + if tasks[n - 1].stage.Done? then 0 else 1
  }

  function StageCost(stage: Stage): nat {
    match stage
    case Working(appended) => if appended then 2 else 3
    case Released => 1
    case Done => 0
  }

  function TaskCost(tasks: seq<Task>, n: nat): nat
    requires n <= |tasks|
  {
    if n == 0 then 0 else TaskCost(tasks, n - 1) + StageCost(tasks[n - 1].stage)
  }

  function MainCost(m: Main): nat {
    match m
    case Scanning => 1
    case Acquiring(_) => 5
    case Returned => 0
  }

  function Measure(s: State): nat {
    5 * |s.todo| + MainCost(s.main) + TaskCost(s.tasks, |s.tasks|)
  }

  predicate DistinctKeys(tasks: seq<Task>) {
    forall i, j | 0 <= i < j < |tasks| :: tasks[i].visit.key != tasks[j].visit.key
  }

  predicate HasTask(tasks: seq<Task>, key: string) {
    exists i :: 0 <= i < |tasks| && tasks[i].visit.key == key
  }

  predicate Inv(s: State, limit: nat) {
    && s.sem == InFlight(s.tasks, |s.tasks|) <= limit
    && s.wg == Unfinished(s.tasks, |s.tasks|) + (if s.main.Acquiring? then 1 else 0)
    && KeyInv(s)
    && (s.main.Returned? ==> |s.todo| == 0 && s.wg == 0)
  }

  /** The processed keys are those of the tasks and of the candidate about to be spawned, each once. */
  predicate KeyInv(s: State) {
    && DistinctKeys(s.tasks)
    && (forall i | 0 <= i < |s.tasks| :: s.tasks[i].visit.key in s.processed)
    && (forall k | k in s.processed :: HasTask(s.tasks, k) || (s.main.Acquiring? && s.main.visit.key == k))
    && (s.main.Acquiring? ==> s.main.visit.key in s.processed && !HasTask(s.tasks, s.main.visit.key))
  }

  lemma {:induction false} SumsUpdate(tasks: seq<Task>, n: nat, i: nat, t: Task)
    requires i < |tasks| && n <= |tasks|
    ensures InFlight(tasks[i := t], n) + (if i < n && tasks[i].stage.Working? then 1 else 0)
            == InFlight(tasks, n) + (if i < n && t.stage.Working? then 1 else 0)
    ensures Unfinished(tasks[i := t], n) + (if i < n && !tasks[i].stage.Done? then 1 else 0)
            == Unfinished(tasks, n) + (if i < n && !t.stage.Done? then 1 else 0)
    ensures TaskCost(tasks[i := t], n) + (if i < n then StageCost(tasks[i].stage) else 0)
            == TaskCost(tasks, n) + (if i < n then StageCost(t.stage) else 0)
  {
    if n > 0 {
      SumsUpdate(tasks, n - 1, i, t);
    }
  }

  lemma {:induction false} SumsAppend(tasks: seq<Task>, n: nat, t: Task)
    requires n <= |tasks|
    ensures InFlight(tasks + [t], n) == InFlight(tasks, n)
    ensures Unfinished(tasks + [t], n) == Unfinished(tasks, n)
    ensures TaskCost(tasks + [t], n) == TaskCost(tasks, n)
  {
    if n > 0 {
      SumsAppend(tasks, n - 1, t);
    }
  }

  lemma {:induction false} NoneUnfinished(tasks: seq<Task>, n: nat)
    requires n <= |tasks|
    ensures Unfinished(tasks, n) == 0 <==> forall i | 0 <= i < n :: tasks[i].stage.Done?
    ensures InFlight(tasks, n) <= Unfinished(tasks, n)
    ensures (exists i :: 0 <= i < n && tasks[i].stage.Working?) ==> InFlight(tasks, n) > 0
  {
    if n > 0 {
      NoneUnfinished(tasks, n - 1);
    }
  }

  ghost predicate Advances(s: State, t: State, limit: nat) {
    Inv(t, limit) && Measure(t) < Measure(s)
  }

  lemma ScanAdvances(s: State, limit: nat)
    requires Inv(s, limit) && Enabled(s, Scan, limit)
    ensures Advances(s, Step(s, Scan, limit), limit)
  {
  }

  lemma AcquireAdvances(s: State, limit: nat)
    requires Inv(s, limit) && Enabled(s, Acquire, limit)
    ensures Advances(s, Step(s, Acquire, limit), limit)
  {
    SumsAppend(s.tasks, |s.tasks|, Task(s.main.visit, Working(false)));
    AcquireKeys(s, Step(s, Acquire, limit));
  }

  lemma AcquireKeys(s: State, t: State)
    requires KeyInv(s) && s.main.Acquiring? && !t.main.Acquiring? && t.processed == s.processed
    requires t.tasks == s.tasks + [Task(s.main.visit, Working(false))]
    ensures KeyInv(t)
  {
    assert t.tasks[|s.tasks|].visit == s.main.visit;
    assert forall i | 0 <= i < |s.tasks| :: t.tasks[i] == s.tasks[i];
    forall k | k in t.processed ensures HasTask(t.tasks, k) {
      if HasTask(s.tasks, k) {
        var i :| 0 <= i < |s.tasks| && s.tasks[i].visit.key == k;
        assert t.tasks[i].visit.key == k;
      }
    }
  }

  lemma SameKeys(before: seq<Task>, after: seq<Task>)
    requires |before| == |after| && forall j | 0 <= j < |before| :: after[j].visit == before[j].visit
    ensures DistinctKeys(after) <==> DistinctKeys(before)
    ensures forall k :: HasTask(after, k) <==> HasTask(before, k)
  {
  }

  /** A worker's own step changes one stage and leaves the keys alone. */
  lemma StageChange(s: State, t: State, i: nat, stage: Stage, limit: nat)
    requires Inv(s, limit) && i < |s.tasks| && s.main == t.main && s.processed == t.processed && s.todo == t.todo
    requires t.tasks == s.tasks[i := Task(s.tasks[i].visit, stage)] && StageCost(stage) < StageCost(s.tasks[i].stage)
    requires t.sem == s.sem - (if s.tasks[i].stage.Working? && !stage.Working? then 1 else 0)
    requires t.wg == s.wg - (if stage.Done? then 1 else 0) && !(s.tasks[i].stage.Released? && stage.Working?)
    ensures Advances(s, t, limit)
  {
    SumsUpdate(s.tasks, |s.tasks|, i, t.tasks[i]);
    NoneUnfinished(s.tasks, |s.tasks|);
    SameKeys(s.tasks, t.tasks);
  }

  lemma StepAdvances(s: State, a: Action, limit: nat)
    requires Inv(s, limit) && Enabled(s, a, limit)
    ensures Advances(s, Step(s, a, limit), limit)
  {
    match a
    case Scan => ScanAdvances(s, limit);
    case Acquire => AcquireAdvances(s, limit);
    case Append(i, _, _) => StageChange(s, Step(s, a, limit), i, Working(true), limit);
    case Release(i) => StageChange(s, Step(s, a, limit), i, Released, limit);
    case Finish(i) => StageChange(s, Step(s, a, limit), i, Done, limit);
  }

  lemma {:induction false} RunInv(s: State, acts: seq<Action>, limit: nat)
    requires Inv(s, limit) && IsRun(s, acts, limit)
    ensures Inv(After(s, acts, limit), limit)
    ensures |acts| + Measure(After(s, acts, limit)) <= Measure(s)
    decreases |acts|
  {
    if |acts| > 0 {
      StepAdvances(s, acts[0], limit);
      RunInv(Step(s, acts[0], limit), acts[1..], limit);
    }
  }

  // ---- Main results ---------------------------------------------------------------------------------------

  /** In every reachable state each key has been dispatched at most once and at most limit workers are in flight; once
      the call has returned, none is left. */
  lemma AtMostOnce(visits: seq<Visit>, log: Log, acts: seq<Action>, limit: nat)
    requires IsRun(Init(visits, log), acts, limit)
    ensures var s := After(Init(visits, log), acts, limit);
            && DistinctKeys(s.tasks)
            && InFlight(s.tasks, |s.tasks|) <= limit
            && (s.main.Returned? ==> |s.todo| == 0 && forall i | 0 <= i < |s.tasks| :: s.tasks[i].stage.Done?)
  {
    RunInv(Init(visits, log), acts, limit);
    var s := After(Init(visits, log), acts, limit);
    NoneUnfinished(s.tasks, |s.tasks|);
  }

  /** The call never gets stuck and every run of it is finite. */
  lemma Progress(visits: seq<Visit>, log: Log, acts: seq<Action>, limit: nat)
    requires limit >= 1 && IsRun(Init(visits, log), acts, limit)
    ensures var s := After(Init(visits, log), acts, limit);
            && |acts| + Measure(s) <= Measure(Init(visits, log))
            && (!s.main.Returned? ==> exists a :: Enabled(s, a, limit))
  {
    RunInv(Init(visits, log), acts, limit);
    var s := After(Init(visits, log), acts, limit);
    NoneUnfinished(s.tasks, |s.tasks|);
    if !s.main.Returned? && !Enabled(s, Scan, limit) && !Enabled(s, Acquire, limit) {
      assert s.wg > 0;
      if s.main.Acquiring? {
        InFlightExists(s.tasks, |s.tasks|);
      }
      var i: nat :| i < |s.tasks| && !s.tasks[i].stage.Done?;
      assert Enabled(s, if s.tasks[i].stage.Released? then Finish(i) else Release(i), limit);
    }
  }

  lemma {:induction false} InFlightExists(tasks: seq<Task>, n: nat)
    requires n <= |tasks| && InFlight(tasks, n) > 0
    ensures exists i: nat :: i < n && tasks[i].stage.Working?
  {
    if !tasks[n - 1].stage.Working? {
      InFlightExists(tasks, n - 1);
    }
  }

  /** The gate of a package stays open in every state of a run. */
  ghost predicate OpenThroughout(s: State, acts: seq<Action>, limit: nat, pkg: string)
    requires IsRun(s, acts, limit)
    decreases |acts|
  {
    !Transitioned(s.log, pkg) && (|acts| > 0 ==> OpenThroughout(Step(s, acts[0], limit), acts[1..], limit, pkg))
  }

  lemma {:induction false} StaysDue(s: State, acts: seq<Action>, limit: nat, v: Visit)
    requires IsRun(s, acts, limit) && OpenThroughout(s, acts, limit, v.pkg)
    requires v in s.todo || v.key in s.processed
    ensures var t := After(s, acts, limit); v in t.todo || v.key in t.processed
    decreases |acts|
  {
    if |acts| > 0 {
      var t := Step(s, acts[0], limit);
      assert v in t.todo || v.key in t.processed by {
        if acts[0].Scan? && |s.todo| > 0 {
          assert s.todo == [s.todo[0]] + s.todo[1..];
        }
      }
      StaysDue(t, acts[1..], limit, v);
    }
  }

  /** Every candidate whose gate never closed is dispatched by the time the call returns. */
  lemma Completeness(visits: seq<Visit>, log: Log, acts: seq<Action>, limit: nat, v: Visit)
    requires IsRun(Init(visits, log), acts, limit) && After(Init(visits, log), acts, limit).main.Returned?
    requires v in visits && OpenThroughout(Init(visits, log), acts, limit, v.pkg)
    ensures HasTask(After(Init(visits, log), acts, limit).tasks, v.key)
  {
    RunInv(Init(visits, log), acts, limit);
    StaysDue(Init(visits, log), acts, limit, v);
  }

  predicate FromVisits(s: State, visits: seq<Visit>) {
    && (forall i | 0 <= i < |s.todo| :: s.todo[i] in visits)
    && (s.main.Acquiring? ==> s.main.visit in visits)
    && (forall i | 0 <= i < |s.tasks| :: s.tasks[i].visit in visits)
  }

  lemma SoundStep(s: State, a: Action, limit: nat, visits: seq<Visit>)
    requires Enabled(s, a, limit) && FromVisits(s, visits)
    ensures FromVisits(Step(s, a, limit), visits)
  {
  }

  /** Only candidates are dispatched. */
  lemma {:induction false} Soundness(s: State, acts: seq<Action>, limit: nat, visits: seq<Visit>)
    requires IsRun(s, acts, limit) && FromVisits(s, visits)
    ensures FromVisits(After(s, acts, limit), visits)
    decreases |acts|
  {
    if |acts| > 0 {
      SoundStep(s, acts[0], limit, visits);
      Soundness(Step(s, acts[0], limit), acts[1..], limit, visits);
    }
  }

  /** pkg is transitioned and nobody was or is about to be spawned for it. */
  ghost predicate Settled(s: State, pkg: string) {
    && Transitioned(s.log, pkg)
    && (s.main.Acquiring? ==> s.main.visit.pkg != pkg)
    && (forall i | 0 <= i < |s.tasks| :: s.tasks[i].visit.pkg != pkg)
  }

  lemma StepSettled(s: State, a: Action, limit: nat, pkg: string)
    requires Settled(s, pkg) && Enabled(s, a, limit)
    ensures Settled(Step(s, a, limit), pkg)
  {
    if a.Append? {
      AppendOther(s.log, Record([s.tasks[a.i].visit.pkg], a.time, a.condition), pkg);
    }
  }

  /** Stability: a package that is transitioned when the call starts is so in every state of it, and never dispatched,
      although the workers keep appending records. */
  lemma {:induction false} Stability(s: State, acts: seq<Action>, limit: nat, pkg: string)
    requires Settled(s, pkg) && IsRun(s, acts, limit)
    ensures Settled(After(s, acts, limit), pkg)
    decreases |acts|
  {
    if |acts| > 0 {
      StepSettled(s, acts[0], limit, pkg);
      Stability(Step(s, acts[0], limit), acts[1..], limit, pkg);
    }
  }

  // ---- One package, several workloads ---------------------------------------------------------------------

  function LatestTime(log: Log): int {
    if |log| == 0 then 0
    else if log[|log| - 1].time > LatestTime(log[..|log| - 1]) then log[|log| - 1].time
    else LatestTime(log[..|log| - 1])
  }

  lemma {:induction false} LatestTimeBounds(log: Log)
    ensures forall j | 0 <= j < |log| :: log[j].time <= LatestTime(log)
  {
    if |log| > 0 {
      LatestTimeBounds(log[..|log| - 1]);
      assert forall j | 0 <= j < |log| - 1 :: log[j] == log[..|log| - 1][j];
    }
  }

  ghost predicate Reaches(s: State, t: State, limit: nat) {
    exists acts :: IsRun(s, acts, limit) && After(s, acts, limit) == t
  }

  lemma ReachStep(s: State, a: Action, t: State, limit: nat)
    requires Enabled(s, a, limit) && Reaches(Step(s, a, limit), t, limit)
    ensures Reaches(s, t, limit)
  {
    var rest :| IsRun(Step(s, a, limit), rest, limit) && After(Step(s, a, limit), rest, limit) == t;
    var acts := [a] + rest;
    assert acts[1..] == rest;
    assert IsRun(s, acts, limit) && After(s, acts, limit) == t;
  }

  lemma ReachSelf(s: State, limit: nat)
    ensures Reaches(s, s, limit)
  {
    assert IsRun(s, [], limit) && After(s, [], limit) == s;
  }

  /** The first n candidates have new keys, all different, and open gates. */
  ghost predicate FreshAhead(s: State, n: nat) {
    && n <= |s.todo|
    && (forall i | 0 <= i < n :: !Transitioned(s.log, s.todo[i].pkg) && s.todo[i].key !in s.processed)
    && forall i, j | 0 <= i < j < n :: s.todo[i].key != s.todo[j].key
  }

  lemma FreshStep(s: State, n: nat)
    requires 0 < n && FreshAhead(s, n) && s.main.Scanning?
    ensures var t := StepScan(s);
            t.main.Acquiring? && FreshAhead(t.(main := Scanning, sem := s.sem + 1,
                                                tasks := s.tasks + [Task(s.todo[0], Working(false))]), n - 1)
  {
    var t := StepScan(s);
    assert forall i | 0 <= i < n - 1 :: t.todo[i] == s.todo[i + 1];
  }

  /** Every slot can be in use: n such candidates can be at work at once if n slots are free. */
  lemma {:induction false} SlotsFill(s: State, limit: nat, n: nat) returns (t: State)
    requires s.main.Scanning? && FreshAhead(s, n) && s.sem + n <= limit
    ensures Reaches(s, t, limit) && t.sem == s.sem + n
    decreases n
  {
    if n == 0 {
      t := s;
      ReachSelf(s, limit);
    } else {
      FreshStep(s, n);
      var u := StepScan(s);
      t := SlotsFill(Step(u, Acquire, limit), limit, n - 1);
      ReachStep(u, Acquire, t, limit);
      ReachStep(s, Scan, t, limit);
    }
  }

  /** The semaphore is exact: n candidates that do not stand in each other's way can be at work at once if and only if
      the limit is at least n. */
  lemma AtOnceIff(visits: seq<Visit>, log: Log, limit: nat, n: nat)
    requires FreshAhead(Init(visits, log), n)
    ensures (exists t :: Reaches(Init(visits, log), t, limit) && InFlight(t.tasks, |t.tasks|) >= n) <==> n <= limit
  {
    var init := Init(visits, log);
    forall t | Reaches(init, t, limit) ensures t.sem == InFlight(t.tasks, |t.tasks|) <= limit {
      var acts :| IsRun(init, acts, limit) && After(init, acts, limit) == t;
      RunInv(init, acts, limit);
    }
    if n <= limit {
      var t := SlotsFill(init, limit, n);
    }
  }

  /** The record a worker appends that completes at once, later than everything in the log. */
  function CompletionOf(s: State): Record
    requires s.main.Acquiring?
  {
    Record([s.main.visit.pkg], LatestTime(s.log) + 1, COMPLETED)
  }

  /** The state in which that worker is already gone again. */
  function Completed(s: State): State
    requires s.main.Acquiring?
  {
    s.(main := Scanning, tasks := s.tasks + [Task(s.main.visit, Done)], wg := s.wg - 1,
       log := s.log + [CompletionOf(s)])
  }

  /** The worker spawned last runs from the acquired slot to its end without interruption. */
  lemma WorkerReached(s: State, v: Visit, r: Record, u: State, limit: nat)
    requires s.sem < limit && r.names == [v.pkg]
    requires Reaches(s.(tasks := s.tasks + [Task(v, Done)], wg := s.wg - 1, log := s.log + [r]), u, limit)
    ensures Reaches(s.(sem := s.sem + 1, tasks := s.tasks + [Task(v, Working(false))]), u, limit)
  {
    var i := |s.tasks|;
    var log := s.log + [r];
    var s1 := s.(sem := s.sem + 1, tasks := s.tasks + [Task(v, Working(false))]);
    var s2 := s.(sem := s.sem + 1, tasks := s.tasks + [Task(v, Working(true))], log := log);
    var s3 := s.(tasks := s.tasks + [Task(v, Released)], log := log);
    var s4 := s.(tasks := s.tasks + [Task(v, Done)], wg := s.wg - 1, log := log);
    assert s1.tasks[i := Task(v, Working(true))] == s2.tasks;
    assert s2.tasks[i := Task(v, Released)] == s3.tasks;
    assert s3.tasks[i := Task(v, Done)] == s4.tasks;
    ReachStep(s3, Finish(i), u, limit);
    ReachStep(s2, Release(i), u, limit);
    ReachStep(s1, Append(i, r.time, r.condition), u, limit);
  }

  lemma CompletedReached(s: State, u: State, limit: nat)
    requires s.main.Acquiring? && s.sem < limit && Reaches(Completed(s), u, limit)
    ensures Reaches(s, u, limit)
  {
    WorkerReached(s.(main := Scanning), s.main.visit, CompletionOf(s), u, limit);
    ReachStep(s, Acquire, u, limit);
  }

  lemma CompletedLog(s: State, p: string)
    requires s.main.Acquiring?
    ensures Transitioned(Completed(s).log, s.main.visit.pkg)
    ensures p != s.main.visit.pkg ==> (Transitioned(Completed(s).log, p) <==> Transitioned(s.log, p))
  {
    LatestTimeBounds(s.log);
    AppendSame(s.log, CompletionOf(s), s.main.visit.pkg);
    if p != s.main.visit.pkg {
      AppendOther(s.log, CompletionOf(s), p);
    }
  }

  /** Keys tell packages apart, as the package name is part of every key. */
  predicate KeysTellPackages(visits: seq<Visit>) {
    forall i, j | 0 <= i < |visits| && 0 <= j < |visits| && visits[i].key == visits[j].key ::
      visits[i].pkg == visits[j].pkg
  }

  /** The next candidate of pkg has another key than the given one, and that key is still unseen. */
  predicate Shadowed(s: State, pkg: string, key: string) {
    exists i :: 0 <= i < |s.todo| && s.todo[i].pkg == pkg && s.todo[i].key != key && s.todo[i].key !in s.processed
                && forall j | 0 <= j < i :: s.todo[j].pkg != pkg
  }

  /** Nothing runs, and key is neither processed nor going to be looked at while the gate of pkg is open. */
  ghost predicate Doomed(s: State, pkg: string, key: string) {
    && s.main.Scanning? && s.wg == 0 && s.sem == 0
    && key !in s.processed && !HasTask(s.tasks, key)
    && KeysTellPackages(s.todo)
    && (forall i | 0 <= i < |s.todo| && s.todo[i].key == key :: s.todo[i].pkg == pkg)
    && (Transitioned(s.log, pkg) || Shadowed(s, pkg, key))
  }

  lemma DoomedStep(s: State, pkg: string, key: string)
    requires Doomed(s, pkg, key) && |s.todo| > 0
    ensures var t := StepScan(s);
            if t.main.Acquiring? then t.sem == 0 && Doomed(Completed(t), pkg, key) && |Completed(t).todo| < |s.todo|
            else Doomed(t, pkg, key)
  {
    var t := StepScan(s);
    var v := s.todo[0];
    if !Transitioned(s.log, pkg) {
      var i :| 0 <= i < |s.todo| && s.todo[i].pkg == pkg && s.todo[i].key != key && s.todo[i].key !in s.processed
               && forall j | 0 <= j < i :: s.todo[j].pkg != pkg;
      if i > 0 {
        assert t.todo[i - 1] == s.todo[i] && v.key != s.todo[i].key;
        assert forall j | 0 <= j < i - 1 :: t.todo[j] == s.todo[j + 1];
        assert s.todo[i].key !in t.processed;
        assert Shadowed(t, pkg, key);
      }
    }
    if t.main.Acquiring? {
      CompletedLog(t, pkg);
      var c := Completed(t);
      assert v.key != key;
      assert HasTask(c.tasks, key) ==> HasTask(s.tasks, key);
      assert !Transitioned(c.log, pkg) ==> Shadowed(c, pkg, key);
    }
  }

  /** A schedule that never dispatches key: every spawned worker completes before the scan goes on. */
  lemma {:induction false} MissingSchedule(s: State, limit: nat, pkg: string, key: string) returns (t: State)
    requires limit >= 1 && Doomed(s, pkg, key)
    ensures Reaches(s, t, limit) && t.main.Returned? && !HasTask(t.tasks, key)
    decreases |s.todo|
  {
    if |s.todo| == 0 {
      t := s.(main := Returned);
      ReachSelf(t, limit);
    } else {
      DoomedStep(s, pkg, key);
      var u := StepScan(s);
      if u.main.Acquiring? {
        t := MissingSchedule(Completed(u), limit, pkg, key);
        CompletedReached(u, t, limit);
      } else {
        t := MissingSchedule(u, limit, pkg, key);
      }
    }
    ReachStep(s, Scan, t, limit);
  }

  /** On every schedule, every candidate of pkg has been dispatched when the call returns. */
  ghost predicate AlwaysSwept(visits: seq<Visit>, log: Log, limit: nat, pkg: string) {
    forall t, v :: Reaches(Init(visits, log), t, limit) && t.main.Returned? && v in visits && v.pkg == pkg ==>
      HasTask(t.tasks, v.key)
  }

  /** A candidate of pkg under this key is still to be looked at. */
  predicate Awaits(todo: seq<Visit>, key: string, pkg: string) {
    exists i :: 0 <= i < |todo| && todo[i].key == key && todo[i].pkg == pkg
  }

  /** pkg is settled or its first candidate is ahead, or a candidate of it has been taken. */
  ghost predicate FirstTaken(s: State, visits: seq<Visit>, pkg: string, key: string) {
    || key in s.processed
    || (!Transitioned(s.log, pkg) && Awaits(s.todo, key, pkg))
  }

  predicate OneKey(visits: seq<Visit>, pkg: string) {
    forall i, j | 0 <= i < |visits| && 0 <= j < |visits| && visits[i].pkg == pkg && visits[j].pkg == pkg ::
      visits[i].key == visits[j].key
  }

  lemma {:induction false} OneKeyRun(s: State, acts: seq<Action>, limit: nat, visits: seq<Visit>, v: Visit)
    requires Inv(s, limit) && IsRun(s, acts, limit) && FromVisits(s, visits) && OneKey(visits, v.pkg) && v in visits
    requires FirstTaken(s, visits, v.pkg, v.key)
    ensures FirstTaken(After(s, acts, limit), visits, v.pkg, v.key) && Inv(After(s, acts, limit), limit)
    decreases |acts|
  {
    if |acts| > 0 {
      StepAdvances(s, acts[0], limit);
      SoundStep(s, acts[0], limit, visits);
      OneKeyStep(s, acts[0], limit, visits, v);
      OneKeyRun(Step(s, acts[0], limit), acts[1..], limit, visits, v);
    }
  }

  lemma OneKeyStep(s: State, a: Action, limit: nat, visits: seq<Visit>, v: Visit)
    requires Inv(s, limit) && Enabled(s, a, limit) && FromVisits(s, visits) && OneKey(visits, v.pkg) && v in visits
    requires FirstTaken(s, visits, v.pkg, v.key)
    ensures FirstTaken(Step(s, a, limit), visits, v.pkg, v.key)
  {
    var t := Step(s, a, limit);
    if v.key !in s.processed {
      if a.Append? {
        assert s.tasks[a.i].visit.key in s.processed && s.tasks[a.i].visit in visits;
        assert s.tasks[a.i].visit.pkg != v.pkg;
        AppendOther(s.log, Record([s.tasks[a.i].visit.pkg], a.time, a.condition), v.pkg);
      } else if a.Scan? && |s.todo| > 0 {
        AwaitsTail(s.todo, v.key, v.pkg);
      }
    }
  }

  lemma AwaitsTail(todo: seq<Visit>, key: string, pkg: string)
    requires |todo| > 0
    ensures Awaits(todo, key, pkg) <==> (todo[0].key == key && todo[0].pkg == pkg) || Awaits(todo[1..], key, pkg)
  {
    assert forall i | 0 < i < |todo| :: todo[i] == todo[1..][i - 1];
  }

  /** For a package whose gate is open at the start: all its candidates are dispatched on every schedule exactly if
      they share one key, since the first worker to complete closes the gate for the other workloads. */
  lemma SweptIffOneKey(visits: seq<Visit>, log: Log, limit: nat, pkg: string)
    requires limit >= 1 && KeysTellPackages(visits) && !Transitioned(log, pkg)
    ensures AlwaysSwept(visits, log, limit, pkg) <==> OneKey(visits, pkg)
  {
    var init := Init(visits, log);
    if OneKey(visits, pkg) {
      forall t, v | Reaches(init, t, limit) && t.main.Returned? && v in visits && v.pkg == pkg
        ensures HasTask(t.tasks, v.key)
      {
        var acts :| IsRun(init, acts, limit) && After(init, acts, limit) == t;
        OneKeyRun(init, acts, limit, visits, v);
      }
    } else {
      var i, j :| 0 <= i < |visits| && 0 <= j < |visits| && visits[i].pkg == pkg && visits[j].pkg == pkg
                  && visits[i].key != visits[j].key;
      var first := FirstOf(visits, pkg, i);
      var other := if visits[first].key == visits[i].key then j else i;
      assert Shadowed(init, pkg, visits[other].key);
      var t := MissingSchedule(init, limit, pkg, visits[other].key);
      assert visits[other] in visits;
    }
  }

  lemma {:induction false} FirstOf(visits: seq<Visit>, pkg: string, i: nat) returns (first: nat)
    requires i < |visits| && visits[i].pkg == pkg
    ensures first <= i && visits[first].pkg == pkg && forall j | 0 <= j < first :: visits[j].pkg != pkg
  {
    if j: nat :| j < i && visits[j].pkg == pkg {
      first := FirstOf(visits, pkg, j);
    } else {
      first := i;
    }
  }
}

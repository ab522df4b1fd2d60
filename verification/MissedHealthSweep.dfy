/** TriggerTransitionOnMissedNodeHealth: transitions the checkpoints of one package two at a time, and decides whether
    checkpoints have to be created first. */
module MissedHealthSweep {
  import opened Keys
  import opened TransitionLog
  import opened Dispatch
  import opened DispatchGate
  import opened WorkloadSweep

  const MISSED_HEALTH_LIMIT: nat := 2

  datatype Checkpoint = Checkpoint(podNamespace: string, podName: string, annotations: Annotations)

  /** The key names the pod, not its namespace. */
  function CheckpointKey(cp: Checkpoint, pkg: string): string {
    Join(cp.podName, pkg)
  }

  /** The candidate a checkpoint makes. */
  function VisitOf(cp: Checkpoint, pkg: string): Visit {
    Visit(CheckpointKey(cp, pkg), pkg, PodRef(cp.podNamespace, cp.podName))
  }

  function CheckpointVisits(cps: seq<Checkpoint>, pkg: string): seq<Visit> {
    if |cps| == 0 then []
    else (if Annotated(cps[0].annotations, pkg) then [VisitOf(cps[0], pkg)] else [])
         + CheckpointVisits(cps[1..], pkg)
  }

  /** The checkpoint's workload is marked "true" for the cluster policy and names the package. */
  predicate IsMarked(cp: Checkpoint, pkg: string) {
    cp.annotations.clusterPolicy == "true" && cp.annotations.packageName == pkg
  }

  /** The candidate stems from a marked checkpoint of the package, and names its pod. */
  ghost predicate IsCandidate(cps: seq<Checkpoint>, pkg: string, v: Visit) {
    exists cp :: cp in cps && IsMarked(cp, pkg)
                 && v == Visit(CheckpointKey(cp, pkg), pkg, PodRef(cp.podNamespace, cp.podName))
  }

  lemma {:induction false} CheckpointVisitsExact(cps: seq<Checkpoint>, pkg: string, v: Visit)
    ensures v in CheckpointVisits(cps, pkg) <==> IsCandidate(cps, pkg, v)
  {
    if |cps| > 0 {
      CheckpointVisitsExact(cps[1..], pkg, v);
      assert forall cp :: cp in cps <==> cp == cps[0] || cp in cps[1..];
    }
  }

  lemma KeyNamesPod(a: Checkpoint, b: Checkpoint, pkg: string)
    ensures CheckpointKey(a, pkg) == CheckpointKey(b, pkg) <==> a.podName == b.podName
  {
    var x, y := CheckpointKey(a, pkg), CheckpointKey(b, pkg);
    if x == y {
      assert a.podName == x[..|x| - |pkg| - 1] && b.podName == y[..|y| - |pkg| - 1];
    }
  }

  predicate ServesPod(tasks: seq<Task>, i: int, podName: string, pkg: string) {
    0 <= i < |tasks| && tasks[i].visit.key == Join(podName, pkg) && tasks[i].visit.pkg == pkg
  }

  /** At return, with the gate never closed: exactly one finished transition per pod name, however many checkpoints
      share that name in different namespaces. */
  lemma OncePerPodName(cps: seq<Checkpoint>, pkg: string, log: Log, acts: seq<Action>, cp: Checkpoint)
    requires cp in cps && IsMarked(cp, pkg)
    requires IsRun(Init(CheckpointVisits(cps, pkg), log), acts, MISSED_HEALTH_LIMIT)
    requires After(Init(CheckpointVisits(cps, pkg), log), acts, MISSED_HEALTH_LIMIT).main.Returned?
    requires OpenThroughout(Init(CheckpointVisits(cps, pkg), log), acts, MISSED_HEALTH_LIMIT, pkg)
    ensures var tasks := After(Init(CheckpointVisits(cps, pkg), log), acts, MISSED_HEALTH_LIMIT).tasks;
            exists i :: ServesPod(tasks, i, cp.podName, pkg) && tasks[i].stage.Done?
                        && forall j :: ServesPod(tasks, j, cp.podName, pkg) ==> j == i
  {
    var visits := CheckpointVisits(cps, pkg);
    var s := After(Init(visits, log), acts, MISSED_HEALTH_LIMIT);
    var v := VisitOf(cp, pkg);
    CheckpointVisitsExact(cps, pkg, v);
    Completeness(visits, log, acts, MISSED_HEALTH_LIMIT, v);
    AtMostOnce(visits, log, acts, MISSED_HEALTH_LIMIT);
    Soundness(Init(visits, log), acts, MISSED_HEALTH_LIMIT, visits);
    var i :| 0 <= i < |s.tasks| && s.tasks[i].visit.key == v.key;
    CheckpointVisitsExact(cps, pkg, s.tasks[i].visit);
    assert ServesPod(s.tasks, i, cp.podName, pkg);
  }

  /** All checkpoints marked for the package name one pod. */
  predicate OnePodName(cps: seq<Checkpoint>, pkg: string) {
    forall a, b | a in cps && b in cps && IsMarked(a, pkg) && IsMarked(b, pkg) ::
      a.podName == b.podName
  }

  lemma OneKeyMeansOnePodName(cps: seq<Checkpoint>, pkg: string)
    ensures KeysTellPackages(CheckpointVisits(cps, pkg))
    ensures OneKey(CheckpointVisits(cps, pkg), pkg) <==> OnePodName(cps, pkg)
  {
    var visits := CheckpointVisits(cps, pkg);
    forall i | 0 <= i < |visits| ensures IsCandidate(cps, pkg, visits[i]) {
      CheckpointVisitsExact(cps, pkg, visits[i]);
    }
    forall a, b | a in cps && b in cps && IsMarked(a, pkg) && IsMarked(b, pkg)
      ensures VisitOf(a, pkg) in visits && VisitOf(b, pkg) in visits
      ensures CheckpointKey(a, pkg) == CheckpointKey(b, pkg) <==> a.podName == b.podName
    {
      KeyNamesPod(a, b, pkg);
      CheckpointVisitsExact(cps, pkg, VisitOf(a, pkg));
      CheckpointVisitsExact(cps, pkg, VisitOf(b, pkg));
    }
  }

  /** For a package with an open gate: every pod name among its checkpoints is dispatched on every schedule exactly if
      there is only one. */
  lemma SweptIffOnePodName(cps: seq<Checkpoint>, pkg: string, log: Log)
    requires !Transitioned(log, pkg)
    ensures AlwaysSwept(CheckpointVisits(cps, pkg), log, MISSED_HEALTH_LIMIT, pkg) <==> OnePodName(cps, pkg)
  {
    OneKeyMeansOnePodName(cps, pkg);
    SweptIffOneKey(CheckpointVisits(cps, pkg), log, MISSED_HEALTH_LIMIT, pkg);
  }

  /** A package completed during the call stays transitioned to its end on every schedule exactly if they do. */
  lemma ClosedStaysIffOnePodName(cps: seq<Checkpoint>, pkg: string, log: Log)
    requires !Transitioned(log, pkg)
    ensures ClosedStays(CheckpointVisits(cps, pkg), log, MISSED_HEALTH_LIMIT, pkg) <==> OnePodName(cps, pkg)
  {
    OneKeyMeansOnePodName(cps, pkg);
    ClosedStaysIff(CheckpointVisits(cps, pkg), log, MISSED_HEALTH_LIMIT, pkg);
  }

  /** Candidates that do not stand in each other's way: n of them can be at work at once if and only if n is at most
      two. */
  lemma TwoAtOnce(cps: seq<Checkpoint>, pkg: string, log: Log, n: nat)
    requires FreshAhead(Init(CheckpointVisits(cps, pkg), log), n)
    ensures (exists t ::
               Reaches(Init(CheckpointVisits(cps, pkg), log), t, MISSED_HEALTH_LIMIT)
               && InFlight(t.tasks, |t.tasks|) >= n)
            <==> n <= 2
  {
    AtOnceIff(CheckpointVisits(cps, pkg), log, MISSED_HEALTH_LIMIT, n);
  }

  // ---- Pods, not pod names --------------------------------------------------------------------------------

  predicate Marked(cps: seq<Checkpoint>, pkg: string, cp: Checkpoint) {
    cp in cps && IsMarked(cp, pkg)
  }

  /** A transition was started for this checkpoint's pod. */
  predicate PodServed(tasks: seq<Task>, pkg: string, cp: Checkpoint) {
    exists i ::
      0 <= i < |tasks| && tasks[i].visit.pkg == pkg && tasks[i].visit.pod == PodRef(cp.podNamespace, cp.podName)
  }

  /** On every schedule, the pods of all marked checkpoints have been served when the call returns. */
  ghost predicate AllPodsServed(cps: seq<Checkpoint>, pkg: string, log: Log) {
    forall t, cp |
      && Reaches(Init(CheckpointVisits(cps, pkg), log), t, MISSED_HEALTH_LIMIT)
      && t.main.Returned? && Marked(cps, pkg, cp) ::
      PodServed(t.tasks, pkg, cp)
  }

  /** All marked checkpoints name one pod, its namespace included. */
  predicate OnePod(cps: seq<Checkpoint>, pkg: string) {
    forall a, b | a in cps && b in cps && IsMarked(a, pkg) && IsMarked(b, pkg) ::
      a.podName == b.podName && a.podNamespace == b.podNamespace
  }

  lemma CheckpointOf(cps: seq<Checkpoint>, pkg: string, v: Visit) returns (cp: Checkpoint)
    requires v in CheckpointVisits(cps, pkg)
    ensures Marked(cps, pkg, cp) && v == VisitOf(cp, pkg) && v.key == CheckpointKey(cp, pkg)
  {
    CheckpointVisitsExact(cps, pkg, v);
    cp :| cp in cps && IsMarked(cp, pkg)
          && v == Visit(CheckpointKey(cp, pkg), pkg, PodRef(cp.podNamespace, cp.podName));
  }

  lemma TaskOfMarked(cps: seq<Checkpoint>, pkg: string, log: Log, t: State, i: nat) returns (cp: Checkpoint)
    requires Reaches(Init(CheckpointVisits(cps, pkg), log), t, MISSED_HEALTH_LIMIT) && i < |t.tasks|
    ensures Marked(cps, pkg, cp) && t.tasks[i].visit == VisitOf(cp, pkg)
  {
    var visits := CheckpointVisits(cps, pkg);
    var acts :| IsRun(Init(visits, log), acts, MISSED_HEALTH_LIMIT)
                && After(Init(visits, log), acts, MISSED_HEALTH_LIMIT) == t;
    Soundness(Init(visits, log), acts, MISSED_HEALTH_LIMIT, visits);
    cp := CheckpointOf(cps, pkg, t.tasks[i].visit);
  }

  lemma SameKeySameTask(cps: seq<Checkpoint>, pkg: string, log: Log, t: State, i: nat, j: nat)
    requires Reaches(Init(CheckpointVisits(cps, pkg), log), t, MISSED_HEALTH_LIMIT)
    requires i < |t.tasks| && j < |t.tasks| && t.tasks[i].visit.key == t.tasks[j].visit.key
    ensures i == j
  {
    var visits := CheckpointVisits(cps, pkg);
    var acts :| IsRun(Init(visits, log), acts, MISSED_HEALTH_LIMIT)
                && After(Init(visits, log), acts, MISSED_HEALTH_LIMIT) == t;
    AtMostOnce(visits, log, acts, MISSED_HEALTH_LIMIT);
  }

  /** Two pods of one name are never both served by one call. */
  lemma SameNameServedOnce(cps: seq<Checkpoint>, pkg: string, log: Log, t: State, a: Checkpoint, b: Checkpoint)
    requires Reaches(Init(CheckpointVisits(cps, pkg), log), t, MISSED_HEALTH_LIMIT)
    requires a.podName == b.podName && a.podNamespace != b.podNamespace
    ensures !(PodServed(t.tasks, pkg, a) && PodServed(t.tasks, pkg, b))
  {
    if PodServed(t.tasks, pkg, a) && PodServed(t.tasks, pkg, b) {
      var i: nat :| i < |t.tasks| && t.tasks[i].visit.pkg == pkg
                    && t.tasks[i].visit.pod == PodRef(a.podNamespace, a.podName);
      var j: nat :| j < |t.tasks| && t.tasks[j].visit.pkg == pkg
                    && t.tasks[j].visit.pod == PodRef(b.podNamespace, b.podName);
      var x := TaskOfMarked(cps, pkg, log, t, i);
      var y := TaskOfMarked(cps, pkg, log, t, j);
      SameKeySameTask(cps, pkg, log, t, i, j);
    }
  }

  /** Some run of the call returns. */
  lemma SomeReturn(cps: seq<Checkpoint>, pkg: string, log: Log, cp: Checkpoint) returns (t: State)
    requires Marked(cps, pkg, cp) && !Transitioned(log, pkg)
    ensures Reaches(Init(CheckpointVisits(cps, pkg), log), t, MISSED_HEALTH_LIMIT) && t.main.Returned?
  {
    var visits := CheckpointVisits(cps, pkg);
    CheckpointVisitsExact(cps, pkg, VisitOf(cp, pkg));
    OneKeyMeansOnePodName(cps, pkg);
    forall i | 0 <= i < |visits| ensures visits[i].pkg == pkg && visits[i].key != "" {
      CheckpointVisitsExact(cps, pkg, visits[i]);
    }
    assert visits[0].pkg == pkg;
    assert Shadowed(Init(visits, log), pkg, "");
    t := MissingSchedule(Init(visits, log), MISSED_HEALTH_LIMIT, pkg, "");
  }

  lemma TwoPodsNotAllServed(cps: seq<Checkpoint>, pkg: string, log: Log, a: Checkpoint, b: Checkpoint)
    requires !Transitioned(log, pkg) && Marked(cps, pkg, a) && Marked(cps, pkg, b)
    requires a.podName == b.podName && a.podNamespace != b.podNamespace
    ensures !AllPodsServed(cps, pkg, log)
  {
    var t := SomeReturn(cps, pkg, log, a);
    SameNameServedOnce(cps, pkg, log, t, a, b);
  }

  lemma ServedMeansKey(cps: seq<Checkpoint>, pkg: string, log: Log, t: State, cp: Checkpoint)
    requires Reaches(Init(CheckpointVisits(cps, pkg), log), t, MISSED_HEALTH_LIMIT) && PodServed(t.tasks, pkg, cp)
    ensures HasTask(t.tasks, CheckpointKey(cp, pkg))
  {
    var i: nat :| i < |t.tasks| && t.tasks[i].visit.pkg == pkg
                  && t.tasks[i].visit.pod == PodRef(cp.podNamespace, cp.podName);
    var x := TaskOfMarked(cps, pkg, log, t, i);
  }

  lemma KeyMeansServed(cps: seq<Checkpoint>, pkg: string, log: Log, t: State, cp: Checkpoint)
    requires OnePod(cps, pkg) && Marked(cps, pkg, cp)
    requires Reaches(Init(CheckpointVisits(cps, pkg), log), t, MISSED_HEALTH_LIMIT)
    requires HasTask(t.tasks, CheckpointKey(cp, pkg))
    ensures PodServed(t.tasks, pkg, cp)
  {
    var i: nat :| i < |t.tasks| && t.tasks[i].visit.key == CheckpointKey(cp, pkg);
    var x := TaskOfMarked(cps, pkg, log, t, i);
    assert t.tasks[i].visit.pod == PodRef(cp.podNamespace, cp.podName);
  }

  /** For a package with an open gate: the pod of every marked checkpoint is transitioned on every schedule exactly if
      all these checkpoints name one pod, namespace included. */
  lemma AllPodsServedIff(cps: seq<Checkpoint>, pkg: string, log: Log)
    requires !Transitioned(log, pkg)
    ensures AllPodsServed(cps, pkg, log) <==> OnePod(cps, pkg)
  {
    SweptIffOnePodName(cps, pkg, log);
    if OnePod(cps, pkg) {
      forall t, cp |
        && Reaches(Init(CheckpointVisits(cps, pkg), log), t, MISSED_HEALTH_LIMIT)
        && t.main.Returned? && Marked(cps, pkg, cp)
        ensures PodServed(t.tasks, pkg, cp)
      {
        CheckpointVisitsExact(cps, pkg, VisitOf(cp, pkg));
        KeyMeansServed(cps, pkg, log, t, cp);
      }
    } else if OnePodName(cps, pkg) {
      var a, b :| a in cps && b in cps && IsMarked(a, pkg) && IsMarked(b, pkg)
                  && a.podNamespace != b.podNamespace;
      TwoPodsNotAllServed(cps, pkg, log, a, b);
    } else {
      TwoNamesNotAllServed(cps, pkg, log);
    }
  }

  lemma TwoNamesNotAllServed(cps: seq<Checkpoint>, pkg: string, log: Log)
    requires !AlwaysSwept(CheckpointVisits(cps, pkg), log, MISSED_HEALTH_LIMIT, pkg)
    ensures !AllPodsServed(cps, pkg, log)
  {
    var t, v :| Reaches(Init(CheckpointVisits(cps, pkg), log), t, MISSED_HEALTH_LIMIT) && t.main.Returned?
                && v in CheckpointVisits(cps, pkg) && v.pkg == pkg && !HasTask(t.tasks, v.key);
    var cp := CheckpointOf(cps, pkg, v);
    if PodServed(t.tasks, pkg, cp) {
      ServedMeansKey(cps, pkg, log, t, cp);
    }
  }

  /** Checkpoints of pods of one name in two namespaces: on every schedule one of the pods is left out. */
  lemma TwoNamespaces(name: string, first: string, second: string, pkg: string, log: Log, t: State)
    requires first != second
    requires var marks := Annotations("true", pkg);
             var cps := [Checkpoint(first, name, marks), Checkpoint(second, name, marks)];
             Reaches(Init(CheckpointVisits(cps, pkg), log), t, MISSED_HEALTH_LIMIT)
    ensures var marks := Annotations("true", pkg);
            && !(PodServed(t.tasks, pkg, Checkpoint(first, name, marks))
                 && PodServed(t.tasks, pkg, Checkpoint(second, name, marks)))
  {
    var marks := Annotations("true", pkg);
    var a, b := Checkpoint(first, name, marks), Checkpoint(second, name, marks);
    SameNameServedOnce([a, b], pkg, log, t, a, b);
  }

  // ---- The second stage -----------------------------------------------------------------------------------

  /** The scan that keeps the second stage from being entered: the package has a checkpoint, marked or not. */
  method HasCheckpoint(cps: seq<Checkpoint>, pkg: string) returns (hasCheckpoint: bool)
    ensures hasCheckpoint <==> exists cp :: cp in cps && cp.annotations.packageName == pkg
  {
    hasCheckpoint := false;
    for i := 0 to |cps|
      invariant !hasCheckpoint && forall j | 0 <= j < i :: cps[j].annotations.packageName != pkg
    {
      if cps[i].annotations.packageName == pkg {
        hasCheckpoint := true;
        break;
      }
    }
  }

  /** Every task of every run transitions the pod of a listed checkpoint that is marked "true" and names the package; so
      a call that transitions something creates nothing. */
  lemma TasksAreMarked(cps: seq<Checkpoint>, pkg: string, log: Log, acts: seq<Action>, i: nat)
    requires IsRun(Init(CheckpointVisits(cps, pkg), log), acts, MISSED_HEALTH_LIMIT)
    requires i < |After(Init(CheckpointVisits(cps, pkg), log), acts, MISSED_HEALTH_LIMIT).tasks|
    ensures var visit := After(Init(CheckpointVisits(cps, pkg), log), acts, MISSED_HEALTH_LIMIT).tasks[i].visit;
            && visit.pkg == pkg
            && exists cp :: cp in cps && visit.pod == PodRef(cp.podNamespace, cp.podName)
                 && cp.annotations.clusterPolicy == "true" && cp.annotations.packageName == pkg
  {
    var visits := CheckpointVisits(cps, pkg);
    Soundness(Init(visits, log), acts, MISSED_HEALTH_LIMIT, visits);
    CheckpointVisitsExact(cps, pkg, After(Init(visits, log), acts, MISSED_HEALTH_LIMIT).tasks[i].visit);
  }

  /** With a gate that stays open, a returned call has transitioned something exactly if some checkpoint of the package
      is marked "true". */
  lemma TransitionsIffMarked(cps: seq<Checkpoint>, pkg: string, log: Log, acts: seq<Action>)
    requires IsRun(Init(CheckpointVisits(cps, pkg), log), acts, MISSED_HEALTH_LIMIT)
    requires After(Init(CheckpointVisits(cps, pkg), log), acts, MISSED_HEALTH_LIMIT).main.Returned?
    requires OpenThroughout(Init(CheckpointVisits(cps, pkg), log), acts, MISSED_HEALTH_LIMIT, pkg)
    ensures |After(Init(CheckpointVisits(cps, pkg), log), acts, MISSED_HEALTH_LIMIT).tasks| > 0 <==>
            exists cp :: cp in cps && cp.annotations.clusterPolicy == "true" && cp.annotations.packageName == pkg
  {
    if |After(Init(CheckpointVisits(cps, pkg), log), acts, MISSED_HEALTH_LIMIT).tasks| > 0 {
      TasksAreMarked(cps, pkg, log, acts, 0);
    }
    if cp :| cp in cps && IsMarked(cp, pkg) {
      OncePerPodName(cps, pkg, log, acts, cp);
    }
  }

  /** A call that transitioned something finds a checkpoint of the package and creates none. */
  lemma StagesExclude(cps: seq<Checkpoint>, pkg: string, log: Log, acts: seq<Action>)
    requires IsRun(Init(CheckpointVisits(cps, pkg), log), acts, MISSED_HEALTH_LIMIT)
    requires |After(Init(CheckpointVisits(cps, pkg), log), acts, MISSED_HEALTH_LIMIT).tasks| > 0
    ensures exists cp :: cp in cps && cp.annotations.packageName == pkg
  {
    TasksAreMarked(cps, pkg, log, acts, 0);
  }

  /** With an open gate, a returned call has neither transitioned anything nor gone on to create checkpoints exactly if
      the package has some and none of them is marked "true". */
  lemma NeitherStage(cps: seq<Checkpoint>, pkg: string, log: Log, acts: seq<Action>)
    requires IsRun(Init(CheckpointVisits(cps, pkg), log), acts, MISSED_HEALTH_LIMIT)
    requires After(Init(CheckpointVisits(cps, pkg), log), acts, MISSED_HEALTH_LIMIT).main.Returned?
    requires OpenThroughout(Init(CheckpointVisits(cps, pkg), log), acts, MISSED_HEALTH_LIMIT, pkg)
    ensures var tasks := After(Init(CheckpointVisits(cps, pkg), log), acts, MISSED_HEALTH_LIMIT).tasks;
            |tasks| == 0 && (exists cp :: cp in cps && cp.annotations.packageName == pkg) <==>
            && (exists cp :: cp in cps && cp.annotations.packageName == pkg)
            && forall cp | cp in cps && cp.annotations.packageName == pkg :: cp.annotations.clusterPolicy != "true"
  {
    TransitionsIffMarked(cps, pkg, log, acts);
  }
}

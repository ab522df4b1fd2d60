/** HandlePodsOnNodeForPolicy: the pods of a failed node, filtered to candidates and dispatched four at a time. */
module WorkloadSweep {
  import opened Keys
  import opened TransitionLog
  import opened Dispatch
  import opened DispatchGate

  const LIMIT: nat := 4

  /** The two annotations the operator reads, under transition.dcnlab.ssu.ac.kr; "" if absent. */
  datatype Annotations = Annotations(clusterPolicy: string, packageName: string)

  datatype Owner = NoOwner | Owner(kind: string, name: string)

  /** The outcome of the parent lookup made for one pod. */
  datatype Parent = LookupFailed | Unsupported | Parent(annotations: Annotations)

  datatype Pod = Pod(namespace: string, name: string, owner: Owner, parent: Parent)

  predicate Annotated(annotations: Annotations, pkg: string) {
    annotations.clusterPolicy == "true" && annotations.packageName == pkg
  }

  /** The pod's workload was resolved and asks for the transition of this package. */
  predicate Wants(pod: Pod, pkg: string) {
    pod.owner.Owner? && pod.parent.Parent? && Annotated(pod.parent.annotations, pkg)
  }

  function WorkloadKey(namespace: string, owner: Owner, pkg: string): string
    requires owner.Owner?
  {
    Join(namespace, Join(owner.name, Join(owner.kind, pkg)))
  }

  /** The candidate a pod makes for a package. */
  function VisitOf(pod: Pod, pkg: string): Visit
    requires pod.owner.Owner?
  {
    Visit(WorkloadKey(pod.namespace, pod.owner, pkg), pkg, PodRef(pod.namespace, pod.name))
  }

  function PodVisits(pod: Pod, selectors: seq<string>): seq<Visit> {
    if |selectors| == 0 then []
    else (if Wants(pod, selectors[0]) then [VisitOf(pod, selectors[0])] else [])
         + PodVisits(pod, selectors[1..])
  }

  /** The candidates in the order of the two nested loops. */
  function Visits(pods: seq<Pod>, selectors: seq<string>): seq<Visit> {
    if |pods| == 0 then [] else PodVisits(pods[0], selectors) + Visits(pods[1..], selectors)
  }

  /** The pod is owned by a workload whose annotations were found, are marked "true" for the cluster policy, and name
      the package. */
  predicate AsksFor(pod: Pod, pkg: string) {
    && pod.owner.Owner? && pod.parent.Parent?
    && pod.parent.annotations.clusterPolicy == "true" && pod.parent.annotations.packageName == pkg
  }

  /** The candidate stems from a listed pod that asks for one of the policy's packages. */
  ghost predicate IsVisit(pods: seq<Pod>, selectors: seq<string>, v: Visit) {
    exists pod :: pod in pods && v.pkg in selectors && AsksFor(pod, v.pkg)
                  && v == Visit(WorkloadKey(pod.namespace, pod.owner, v.pkg), v.pkg, PodRef(pod.namespace, pod.name))
  }

  lemma {:induction false} PodVisitsExact(pod: Pod, selectors: seq<string>, v: Visit)
    ensures v in PodVisits(pod, selectors) <==>
            && v.pkg in selectors && AsksFor(pod, v.pkg)
            && v == Visit(WorkloadKey(pod.namespace, pod.owner, v.pkg), v.pkg, PodRef(pod.namespace, pod.name))
  {
    if |selectors| > 0 {
      PodVisitsExact(pod, selectors[1..], v);
      assert v.pkg in selectors <==> v.pkg == selectors[0] || v.pkg in selectors[1..];
    }
  }

  lemma {:induction false} VisitsExact(pods: seq<Pod>, selectors: seq<string>, v: Visit)
    ensures v in Visits(pods, selectors) <==> IsVisit(pods, selectors, v)
  {
    if |pods| > 0 {
      VisitsExact(pods[1..], selectors, v);
      PodVisitsExact(pods[0], selectors, v);
      assert forall pod :: pod in pods <==> pod == pods[0] || pod in pods[1..];
    }
  }

  /** A pod whose workload is not resolved, or not marked "true", makes no candidate, whatever the selectors; one that
      is makes one for each selector that names its package. */
  lemma {:induction false} CandidatesOf(pod: Pod, selectors: seq<string>)
    ensures var visits := PodVisits(pod, selectors);
            if pod.owner.Owner? && pod.parent.Parent? && pod.parent.annotations.clusterPolicy == "true"
            then |visits| == multiset(selectors)[pod.parent.annotations.packageName]
            else |visits| == 0
  {
    if |selectors| > 0 {
      CandidatesOf(pod, selectors[1..]);
      assert selectors == [selectors[0]] + selectors[1..];
    }
  }

  /** Kubernetes names and kinds contain no slash. */
  predicate ProperNames(pods: seq<Pod>) {
    forall i | 0 <= i < |pods| :: SlashFree(pods[i].namespace)
      && (pods[i].owner.Owner? ==> SlashFree(pods[i].owner.name) && SlashFree(pods[i].owner.kind))
  }

  lemma WorkloadKeyInjective(ns1: string, o1: Owner, p1: string, ns2: string, o2: Owner, p2: string)
    requires o1.Owner? && o2.Owner? && SlashFree(ns1) && SlashFree(ns2)
    requires SlashFree(o1.name) && SlashFree(o2.name) && SlashFree(o1.kind) && SlashFree(o2.kind)
    requires WorkloadKey(ns1, o1, p1) == WorkloadKey(ns2, o2, p2)
    ensures ns1 == ns2 && o1 == o2 && p1 == p2
  {
    JoinInjective(ns1, Join(o1.name, Join(o1.kind, p1)), ns2, Join(o2.name, Join(o2.kind, p2)));
    JoinInjective(o1.name, Join(o1.kind, p1), o2.name, Join(o2.kind, p2));
    JoinInjective(o1.kind, p1, o2.kind, p2);
  }

  /** Task i transitions this package of this workload. */
  predicate Serves(tasks: seq<Task>, i: int, namespace: string, owner: Owner, pkg: string)
    requires owner.Owner?
  {
    0 <= i < |tasks| && tasks[i].visit.key == WorkloadKey(namespace, owner, pkg) && tasks[i].visit.pkg == pkg
  }

  lemma TaskIsVisit(pods: seq<Pod>, selectors: seq<string>, log: Log, acts: seq<Action>, i: nat)
    requires IsRun(Init(Visits(pods, selectors), log), acts, LIMIT)
    requires i < |After(Init(Visits(pods, selectors), log), acts, LIMIT).tasks|
    ensures IsVisit(pods, selectors, After(Init(Visits(pods, selectors), log), acts, LIMIT).tasks[i].visit)
  {
    var visits := Visits(pods, selectors);
    Soundness(Init(visits, log), acts, LIMIT, visits);
    VisitsExact(pods, selectors, After(Init(visits, log), acts, LIMIT).tasks[i].visit);
  }

  lemma PodOf(pods: seq<Pod>, selectors: seq<string>, v: Visit) returns (pod: Pod)
    requires v in Visits(pods, selectors)
    ensures pod in pods && AsksFor(pod, v.pkg) && v == VisitOf(pod, v.pkg)
  {
    VisitsExact(pods, selectors, v);
    pod :| pod in pods && v.pkg in selectors && AsksFor(pod, v.pkg) && v == VisitOf(pod, v.pkg);
  }

  /** Sweep dispatch: at return every wanted package of a resolved workload whose gate never closed has been
      dispatched exactly once and its worker has finished; four at most were in flight at any time. */
  lemma DispatchedExactlyOnce(pods: seq<Pod>, selectors: seq<string>, log: Log, acts: seq<Action>, pod: Pod,
                              pkg: string)
    requires ProperNames(pods) && pod in pods && pkg in selectors && AsksFor(pod, pkg)
    requires IsRun(Init(Visits(pods, selectors), log), acts, LIMIT)
    requires After(Init(Visits(pods, selectors), log), acts, LIMIT).main.Returned?
    requires OpenThroughout(Init(Visits(pods, selectors), log), acts, LIMIT, pkg)
    ensures var tasks := After(Init(Visits(pods, selectors), log), acts, LIMIT).tasks;
            exists i :: Serves(tasks, i, pod.namespace, pod.owner, pkg) && tasks[i].stage.Done?
                        && forall j :: Serves(tasks, j, pod.namespace, pod.owner, pkg) ==> j == i
  {
    var visits := Visits(pods, selectors);
    var s := After(Init(visits, log), acts, LIMIT);
    var v := VisitOf(pod, pkg);
    VisitsExact(pods, selectors, v);
    Completeness(visits, log, acts, LIMIT, v);
    AtMostOnce(visits, log, acts, LIMIT);
    var i :| 0 <= i < |s.tasks| && s.tasks[i].visit.key == v.key;
    var w := s.tasks[i].visit;
    Soundness(Init(visits, log), acts, LIMIT, visits);
    var other := PodOf(pods, selectors, w);
    WorkloadKeyInjective(pod.namespace, pod.owner, pkg, other.namespace, other.owner, w.pkg);
    assert Serves(s.tasks, i, pod.namespace, pod.owner, pkg);
  }

  /** Every task of every run transitions a listed pod whose workload was resolved, is marked "true" and names the
      task's package, which is one of the policy's. */
  lemma TasksAreMarked(pods: seq<Pod>, selectors: seq<string>, log: Log, acts: seq<Action>, i: nat)
    requires IsRun(Init(Visits(pods, selectors), log), acts, LIMIT)
    requires i < |After(Init(Visits(pods, selectors), log), acts, LIMIT).tasks|
    ensures var visit := After(Init(Visits(pods, selectors), log), acts, LIMIT).tasks[i].visit;
            && visit.pkg in selectors
            && exists pod :: pod in pods && visit.pod == PodRef(pod.namespace, pod.name)
                 && pod.owner.Owner? && pod.parent.Parent?
                 && pod.parent.annotations.clusterPolicy == "true" && pod.parent.annotations.packageName == visit.pkg
  {
    TaskIsVisit(pods, selectors, log, acts, i);
  }

  /** With a gate that stays open, a returned sweep has transitioned something for a package exactly if it is one of the
      policy's and some listed pod's workload was resolved, is marked "true" and names it. */
  lemma ServedIffMarked(pods: seq<Pod>, selectors: seq<string>, log: Log, acts: seq<Action>, pkg: string)
    requires IsRun(Init(Visits(pods, selectors), log), acts, LIMIT)
    requires After(Init(Visits(pods, selectors), log), acts, LIMIT).main.Returned?
    requires OpenThroughout(Init(Visits(pods, selectors), log), acts, LIMIT, pkg) && ProperNames(pods)
    ensures var tasks := After(Init(Visits(pods, selectors), log), acts, LIMIT).tasks;
            (exists i :: 0 <= i < |tasks| && tasks[i].visit.pkg == pkg) <==>
            && pkg in selectors
            && exists pod :: pod in pods && pod.owner.Owner? && pod.parent.Parent?
                 && pod.parent.annotations.clusterPolicy == "true" && pod.parent.annotations.packageName == pkg
  {
    var tasks := After(Init(Visits(pods, selectors), log), acts, LIMIT).tasks;
    if i: nat :| i < |tasks| && tasks[i].visit.pkg == pkg {
      TasksAreMarked(pods, selectors, log, acts, i);
    }
    if pkg in selectors {
      forall pod | pod in pods && AsksFor(pod, pkg)
        ensures exists i :: 0 <= i < |tasks| && tasks[i].visit.pkg == pkg
      {
        DispatchedExactlyOnce(pods, selectors, log, acts, pod, pkg);
      }
    }
  }

  /** No two tasks serve the same package of the same workload, and each serves one that a listed pod wants. */
  lemma NeverTwice(pods: seq<Pod>, selectors: seq<string>, log: Log, acts: seq<Action>, i: nat, j: nat)
    requires IsRun(Init(Visits(pods, selectors), log), acts, LIMIT)
    requires i < j < |After(Init(Visits(pods, selectors), log), acts, LIMIT).tasks|
    ensures var s := After(Init(Visits(pods, selectors), log), acts, LIMIT);
            && InFlight(s.tasks, |s.tasks|) <= 4
            && IsVisit(pods, selectors, s.tasks[i].visit)
            && forall namespace, owner: Owner, pkg | owner.Owner? ::
                 !(Serves(s.tasks, i, namespace, owner, pkg) && Serves(s.tasks, j, namespace, owner, pkg))
  {
    AtMostOnce(Visits(pods, selectors), log, acts, LIMIT);
    TaskIsVisit(pods, selectors, log, acts, i);
  }

  /** Candidates that do not stand in each other's way: n of them can be at work at once if and only if n is at most
      four. */
  lemma FourAtOnce(pods: seq<Pod>, selectors: seq<string>, log: Log, n: nat)
    requires FreshAhead(Init(Visits(pods, selectors), log), n)
    ensures (exists t :: Reaches(Init(Visits(pods, selectors), log), t, LIMIT) && InFlight(t.tasks, |t.tasks|) >= n)
            <==> n <= 4
  {
    AtOnceIff(Visits(pods, selectors), log, LIMIT, n);
  }

  /** Sweep stability: a package whose gate is closed at the start stays closed and is never dispatched. */
  lemma ClosedStaysClosed(pods: seq<Pod>, selectors: seq<string>, log: Log, acts: seq<Action>, pkg: string)
    requires IsRun(Init(Visits(pods, selectors), log), acts, LIMIT) && Transitioned(log, pkg)
    ensures var s := After(Init(Visits(pods, selectors), log), acts, LIMIT);
            Transitioned(s.log, pkg) && forall i | 0 <= i < |s.tasks| :: s.tasks[i].visit.pkg != pkg
  {
    Stability(Init(Visits(pods, selectors), log), acts, LIMIT, pkg);
  }

  predicate SameWorkload(a: Pod, b: Pod) {
    a.namespace == b.namespace && a.owner == b.owner
  }

  /** All pods that want the package belong to one workload. */
  predicate OneWorkload(pods: seq<Pod>, pkg: string) {
    forall a, b | a in pods && b in pods && AsksFor(a, pkg) && AsksFor(b, pkg) :: SameWorkload(a, b)
  }

  lemma OneKeyMeansOneWorkload(pods: seq<Pod>, selectors: seq<string>, pkg: string)
    requires ProperNames(pods) && pkg in selectors
    ensures OneKey(Visits(pods, selectors), pkg) <==> OneWorkload(pods, pkg)
  {
    var visits := Visits(pods, selectors);
    if OneKey(visits, pkg) {
      forall a, b | a in pods && b in pods && AsksFor(a, pkg) && AsksFor(b, pkg) ensures SameWorkload(a, b) {
        var va, vb := VisitOf(a, pkg), VisitOf(b, pkg);
        VisitsExact(pods, selectors, va);
        VisitsExact(pods, selectors, vb);
        assert va.key == vb.key;
        WorkloadKeyInjective(a.namespace, a.owner, pkg, b.namespace, b.owner, pkg);
      }
    } else {
      var i, j :| 0 <= i < |visits| && 0 <= j < |visits| && visits[i].pkg == pkg && visits[j].pkg == pkg
                  && visits[i].key != visits[j].key;
      var a := PodOf(pods, selectors, visits[i]);
      var b := PodOf(pods, selectors, visits[j]);
      assert !SameWorkload(a, b);
    }
  }

  lemma WorkloadKeysTellPackages(pods: seq<Pod>, selectors: seq<string>)
    requires ProperNames(pods)
    ensures KeysTellPackages(Visits(pods, selectors))
  {
    var visits := Visits(pods, selectors);
    forall i, j | 0 <= i < |visits| && 0 <= j < |visits| && visits[i].key == visits[j].key
      ensures visits[i].pkg == visits[j].pkg
    {
      var a := PodOf(pods, selectors, visits[i]);
      var b := PodOf(pods, selectors, visits[j]);
      WorkloadKeyInjective(a.namespace, a.owner, visits[i].pkg, b.namespace, b.owner, visits[j].pkg);
    }
  }

  /** All workloads of a package on the node are transitioned on every schedule exactly if there is only one. */
  lemma SweptIffOneWorkload(pods: seq<Pod>, selectors: seq<string>, log: Log, pkg: string)
    requires ProperNames(pods) && pkg in selectors && !Transitioned(log, pkg)
    ensures AlwaysSwept(Visits(pods, selectors), log, LIMIT, pkg) <==> OneWorkload(pods, pkg)
  {
    WorkloadKeysTellPackages(pods, selectors);
    SweptIffOneKey(Visits(pods, selectors), log, LIMIT, pkg);
    OneKeyMeansOneWorkload(pods, selectors, pkg);
  }

  /** A package completed during the sweep stays transitioned to its end on every schedule exactly if there is only
      one. */
  lemma ClosedStaysIffOneWorkload(pods: seq<Pod>, selectors: seq<string>, log: Log, pkg: string)
    requires ProperNames(pods) && pkg in selectors && !Transitioned(log, pkg)
    ensures ClosedStays(Visits(pods, selectors), log, LIMIT, pkg) <==> OneWorkload(pods, pkg)
  {
    WorkloadKeysTellPackages(pods, selectors);
    ClosedStaysIff(Visits(pods, selectors), log, LIMIT, pkg);
    OneKeyMeansOneWorkload(pods, selectors, pkg);
  }
}

/** The second stage of TriggerTransitionOnMissedNodeHealth: a checkpoint for the first pod of every workload of a
    package, created under a generated name that may be taken. */
module CheckpointCreation {
  import opened Keys
  import opened TransitionLog
  import opened WorkloadSweep

  /** A pod whose workload was resolved and carries the package annotation. */
  predicate Eligible(pod: Pod, pkg: string) {
    pod.owner.Owner? && pod.parent.Parent? && pod.parent.annotations.packageName == pkg
  }

  /** Namespace, workload and package; the workload's kind is not part of it. */
  function CreationKey(pod: Pod, pkg: string): string {
    Join(pod.namespace, Join(if pod.owner.Owner? then pod.owner.name else "", pkg))
  }

  /** The checkpoint's name in the namespace "default"; the pod's namespace is not part of it. */
  function CheckpointName(policy: string, pod: Pod, pkg: string): string {
    "checkpoint-" + policy + "-" + pod.name + "-" + pkg
  }

  datatype Outcome = Created | AlreadyExists | Failed

  /** The API server's answer to a creation; refused stands for every error but a taken name. */
  function Create(names: set<string>, name: string, refused: bool): Outcome {
    if refused then Failed else if name in names then AlreadyExists else Created
  }

  // ---- What the loop does ---------------------------------------------------------------------------------

  /** Pod i is the first eligible one of its key: a creation is attempted for it. */
  predicate IsFirst(pods: seq<Pod>, pkg: string, i: nat)
    requires i < |pods|
  {
    && Eligible(pods[i], pkg)
    && forall j | 0 <= j < i && Eligible(pods[j], pkg) :: CreationKey(pods[j], pkg) != CreationKey(pods[i], pkg)
  }

  /** One of the attempts for the first n pods asks for this name. */
  predicate Attempted(pods: seq<Pod>, policy: string, pkg: string, name: string, n: nat)
    requires n <= |pods|
  {
    exists j :: 0 <= j < n && IsFirst(pods, pkg, j) && CheckpointName(policy, pods[j], pkg) == name
  }

  /** The attempt for pod i finds its name free. */
  predicate IsCreated(pods: seq<Pod>, policy: string, pkg: string, existing: set<string>, i: nat)
    requires i < |pods|
  {
    && IsFirst(pods, pkg, i)
    && CheckpointName(policy, pods[i], pkg) !in existing
    && !Attempted(pods, policy, pkg, CheckpointName(policy, pods[i], pkg), i)
  }

  /** created lists, in order, the pods among the first n whose attempt created a checkpoint, and no other. */
  predicate CreatedAmong(pods: seq<Pod>, policy: string, pkg: string, existing: set<string>, created: seq<nat>, n: nat)
    requires n <= |pods|
  {
    && (forall k | 0 <= k < |created| :: created[k] < n && IsCreated(pods, policy, pkg, existing, created[k]))
    && (forall j, k | 0 <= j < k < |created| :: created[j] < created[k])
    && (forall i | 0 <= i < n && IsCreated(pods, policy, pkg, existing, i) :: i in created)
  }

  /** The names that exist after the attempts for the first n pods. */
  ghost predicate NamesAfter(pods: seq<Pod>, policy: string, pkg: string, existing: set<string>, names: set<string>,
                             n: nat)
    requires n <= |pods|
  {
    forall name :: name in names <==> name in existing || Attempted(pods, policy, pkg, name, n)
  }

  /** keys are those of the eligible pods among the first n. */
  ghost predicate KeysSeen(pods: seq<Pod>, pkg: string, keys: set<string>, n: nat)
    requires n <= |pods|
  {
    forall key :: key in keys <==> exists j :: 0 <= j < n && Eligible(pods[j], pkg) && CreationKey(pods[j], pkg) == key
  }

  lemma KeysStep(pods: seq<Pod>, pkg: string, keys: set<string>, i: nat)
    requires i < |pods| && KeysSeen(pods, pkg, keys, i)
    ensures KeysSeen(pods, pkg, if Eligible(pods[i], pkg) then keys + {CreationKey(pods[i], pkg)} else keys, i + 1)
    ensures IsFirst(pods, pkg, i) <==> Eligible(pods[i], pkg) && CreationKey(pods[i], pkg) !in keys
  {
  }

  lemma AttemptedStep(pods: seq<Pod>, policy: string, pkg: string, name: string, i: nat)
    requires i < |pods|
    ensures Attempted(pods, policy, pkg, name, i + 1) <==>
            || Attempted(pods, policy, pkg, name, i)
            || (IsFirst(pods, pkg, i) && CheckpointName(policy, pods[i], pkg) == name)
  {
  }

  lemma NamesStep(pods: seq<Pod>, policy: string, pkg: string, existing: set<string>, names: set<string>, i: nat)
    requires i < |pods| && NamesAfter(pods, policy, pkg, existing, names, i)
    ensures var name := CheckpointName(policy, pods[i], pkg);
            && NamesAfter(pods, policy, pkg, existing, if IsFirst(pods, pkg, i) then names + {name} else names, i + 1)
            && (IsFirst(pods, pkg, i) ==> (IsCreated(pods, policy, pkg, existing, i) <==> name !in names))
  {
    forall other
      ensures Attempted(pods, policy, pkg, other, i + 1) <==>
              Attempted(pods, policy, pkg, other, i)
              || (IsFirst(pods, pkg, i) && CheckpointName(policy, pods[i], pkg) == other)
    {
      AttemptedStep(pods, policy, pkg, other, i);
    }
  }

  lemma CreatedStep(pods: seq<Pod>, policy: string, pkg: string, existing: set<string>, created: seq<nat>, i: nat)
    requires i < |pods| && CreatedAmong(pods, policy, pkg, existing, created, i)
    ensures CreatedAmong(pods, policy, pkg, existing,
                         if IsCreated(pods, policy, pkg, existing, i) then created + [i] else created, i + 1)
  {
    if IsCreated(pods, policy, pkg, existing, i) {
      var longer := created + [i];
      assert longer[|created|] == i && forall k | 0 <= k < |created| :: longer[k] == created[k];
    }
  }

  /** What the loop holds after the attempts for the first n pods. */
  datatype Loop = Loop(created: seq<nat>, names: set<string>, keys: set<string>)

  ghost predicate LoopInv(pods: seq<Pod>, policy: string, pkg: string, existing: set<string>, l: Loop, n: nat)
    requires n <= |pods|
  {
    && CreatedAmong(pods, policy, pkg, existing, l.created, n)
    && NamesAfter(pods, policy, pkg, existing, l.names, n)
    && KeysSeen(pods, pkg, l.keys, n)
  }

  /** The turn for pod i, unless its creation is refused. */
  function Turn(l: Loop, pod: Pod, policy: string, pkg: string, i: nat): Loop {
    var key, name := CreationKey(pod, pkg), CheckpointName(policy, pod, pkg);
    if !Eligible(pod, pkg) || key in l.keys then l
    else Loop(if name in l.names then l.created else l.created + [i], l.names + {name}, l.keys + {key})
  }

  lemma TurnIs(l: Loop, pod: Pod, policy: string, pkg: string, i: nat, first: bool, free: bool)
    requires first <==> Eligible(pod, pkg) && CreationKey(pod, pkg) !in l.keys
    requires free ==> first
    requires first ==> (free <==> CheckpointName(policy, pod, pkg) !in l.names)
    ensures Turn(l, pod, policy, pkg, i)
            == Loop(if free then l.created + [i] else l.created,
                    if first then l.names + {CheckpointName(policy, pod, pkg)} else l.names,
                    if Eligible(pod, pkg) then l.keys + {CreationKey(pod, pkg)} else l.keys)
  {
    if Eligible(pod, pkg) && CreationKey(pod, pkg) in l.keys {
      assert l.keys + {CreationKey(pod, pkg)} == l.keys;
    }
  }

  lemma TurnKeepsInv(pods: seq<Pod>, policy: string, pkg: string, existing: set<string>, l: Loop, i: nat)
    requires i < |pods| && LoopInv(pods, policy, pkg, existing, l, i)
    ensures LoopInv(pods, policy, pkg, existing, Turn(l, pods[i], policy, pkg, i), i + 1)
    ensures IsFirst(pods, pkg, i) <==> Eligible(pods[i], pkg) && CreationKey(pods[i], pkg) !in l.keys
  {
    KeysStep(pods, pkg, l.keys, i);
    NamesStep(pods, policy, pkg, existing, l.names, i);
    CreatedStep(pods, policy, pkg, existing, l.created, i);
    TurnIs(l, pods[i], policy, pkg, i, IsFirst(pods, pkg, i), IsCreated(pods, policy, pkg, existing, i));
  }

  /** What is refused to pod i ends the loop there. */
  ghost predicate EndsAt(pods: seq<Pod>, pkg: string, refused: seq<bool>, n: nat, ok: bool)
    requires |refused| == |pods|
  {
    && n <= |pods| && (forall i | 0 <= i < n && IsFirst(pods, pkg, i) :: !refused[i])
    && if ok then n == |pods| else n < |pods| && IsFirst(pods, pkg, n) && refused[n]
  }

  /** The loop body for pod i, behind the gate. */
  method Consider(l: Loop, pod: Pod, policy: string, pkg: string, transitioned: bool, i: nat, refused: bool)
    returns (next: Loop, ok: bool)
    ensures ok <==> transitioned || !refused || !Eligible(pod, pkg) || CreationKey(pod, pkg) in l.keys
    ensures ok ==> next == if transitioned then l else Turn(l, pod, policy, pkg, i)
    ensures !ok ==> next.created == l.created && next.names == l.names
  {
    if !Eligible(pod, pkg) || transitioned { return l, true; }
    var key := CreationKey(pod, pkg);
    if key in l.keys { return l, true; }
    next := l.(keys := l.keys + {key});
    var outcome := Create(l.names, CheckpointName(policy, pod, pkg), refused);
    if outcome.Failed? { return next, false; }
    next := next.(created := if outcome.Created? then l.created + [i] else l.created,
                  names := l.names + {CheckpointName(policy, pod, pkg)});
    return next, true;
  }

  /** The creation loop over the API server's checkpoint names; refused[i] is the outcome of a creation for pod i apart
      from taken names.  With an open gate a creation is attempted for the first eligible pod of each key, up to the
      first one refused; a taken name passes for success. */
  method CreateCheckpoints(pods: seq<Pod>, policy: string, pkg: string, log: Log, existing: set<string>,
                           refused: seq<bool>)
    returns (created: seq<nat>, names: set<string>, ok: bool)
    requires |refused| == |pods|
    ensures Transitioned(log, pkg) ==> |created| == 0 && names == existing && ok
    ensures !Transitioned(log, pkg) ==>
              exists n :: EndsAt(pods, pkg, refused, n, ok) && CreatedAmong(pods, policy, pkg, existing, created, n)
                          && NamesAfter(pods, policy, pkg, existing, names, n)
  {
    var transitioned := IsPackageTransitioned(log, pkg);  // asked anew for every pod, with the same answer
    var l := Loop([], existing, {});
    ok := true;
    var i := 0;
    while i < |pods|
      invariant 0 <= i <= |pods| && ok
      invariant transitioned ==> l == Loop([], existing, {})
      invariant !transitioned ==> LoopInv(pods, policy, pkg, existing, l, i)
      invariant !transitioned ==> forall j | 0 <= j < i && IsFirst(pods, pkg, j) :: !refused[j]
    {
      if !transitioned {
        TurnKeepsInv(pods, policy, pkg, existing, l, i);
      }
      l, ok := Consider(l, pods[i], policy, pkg, transitioned, i, refused[i]);
      if !ok {
        assert EndsAt(pods, pkg, refused, i, false);
        return l.created, l.names, false;
      }
      i := i + 1;
    }
    assert !transitioned ==> EndsAt(pods, pkg, refused, i, true);
    return l.created, l.names, true;
  }

  // ---- Which workloads get a checkpoint -------------------------------------------------------------------

  /** Within one package the creation key tells namespaces and workload names apart, and nothing else. */
  lemma CreationKeyNames(a: Pod, b: Pod, pkg: string)
    requires a.owner.Owner? && b.owner.Owner? && SlashFree(a.namespace) && SlashFree(b.namespace)
    ensures CreationKey(a, pkg) == CreationKey(b, pkg) <==> a.namespace == b.namespace && a.owner.name == b.owner.name
  {
    if CreationKey(a, pkg) == CreationKey(b, pkg) {
      JoinInjective(a.namespace, Join(a.owner.name, pkg), b.namespace, Join(b.owner.name, pkg));
      var x, y := Join(a.owner.name, pkg), Join(b.owner.name, pkg);
      assert a.owner.name == x[..|x| - |pkg| - 1] && b.owner.name == y[..|y| - |pkg| - 1];
    }
  }

  /** Within one policy and package the checkpoint name tells pod names apart, and nothing else. */
  lemma CheckpointNamesPod(policy: string, a: Pod, b: Pod, pkg: string)
    ensures CheckpointName(policy, a, pkg) == CheckpointName(policy, b, pkg) <==> a.name == b.name
  {
    var x, y := CheckpointName(policy, a, pkg), CheckpointName(policy, b, pkg);
    var n := |"checkpoint-" + policy + "-"|;
    assert a.name == x[n..|x| - |pkg| - 1] && b.name == y[n..|y| - |pkg| - 1];
  }

  lemma {:induction false} FirstWithKey(pods: seq<Pod>, pkg: string, i: nat) returns (first: nat)
    requires i < |pods| && Eligible(pods[i], pkg)
    ensures first <= i && IsFirst(pods, pkg, first) && CreationKey(pods[first], pkg) == CreationKey(pods[i], pkg)
  {
    if j: nat :| j < i && Eligible(pods[j], pkg) && CreationKey(pods[j], pkg) == CreationKey(pods[i], pkg) {
      first := FirstWithKey(pods, pkg, j);
    } else {
      first := i;
    }
  }

  /** A checkpoint was created for a pod of the same workload. */
  predicate Covered(pods: seq<Pod>, created: seq<nat>, pod: Pod) {
    exists k :: 0 <= k < |created| && created[k] < |pods| && SameWorkload(pods[created[k]], pod)
  }

  predicate AllCovered(pods: seq<Pod>, pkg: string, created: seq<nat>) {
    forall i | 0 <= i < |pods| && Eligible(pods[i], pkg) :: Covered(pods, created, pods[i])
  }

  predicate TwinAt(pods: seq<Pod>, pkg: string, i: int, j: int) {
    && 0 <= i < |pods| && 0 <= j < |pods| && Eligible(pods[i], pkg) && Eligible(pods[j], pkg)
    && pods[i].namespace == pods[j].namespace && pods[i].owner.name == pods[j].owner.name
    && pods[i].owner.kind != pods[j].owner.kind
  }

  /** Two eligible workloads of one namespace share a name and differ in kind. */
  ghost predicate KindTwins(pods: seq<Pod>, pkg: string) {
    exists i, j :: TwinAt(pods, pkg, i, j)
  }

  predicate NamesakeAt(pods: seq<Pod>, pkg: string, i: int, j: int) {
    0 <= i < j < |pods| && IsFirst(pods, pkg, i) && IsFirst(pods, pkg, j) && pods[i].name == pods[j].name
  }

  /** The first pods of two different keys share their name. */
  ghost predicate Namesakes(pods: seq<Pod>, pkg: string) {
    exists i, j :: NamesakeAt(pods, pkg, i, j)
  }

  predicate TakenAt(pods: seq<Pod>, policy: string, pkg: string, existing: set<string>, i: int) {
    0 <= i < |pods| && IsFirst(pods, pkg, i) && CheckpointName(policy, pods[i], pkg) in existing
  }

  /** A generated name exists already. */
  ghost predicate NameTaken(pods: seq<Pod>, policy: string, pkg: string, existing: set<string>) {
    exists i :: TakenAt(pods, policy, pkg, existing, i)
  }

  /** A workload whose first pod created nothing has no checkpoint of its own. */
  lemma OnlyFirstCovers(pods: seq<Pod>, policy: string, pkg: string, existing: set<string>, created: seq<nat>, i: nat)
    requires CreatedAmong(pods, policy, pkg, existing, created, |pods|) && i < |pods| && IsFirst(pods, pkg, i)
    ensures Covered(pods, created, pods[i]) <==> IsCreated(pods, policy, pkg, existing, i)
  {
    if Covered(pods, created, pods[i]) {
      var k :| 0 <= k < |created| && created[k] < |pods| && SameWorkload(pods[created[k]], pods[i]);
      assert CreationKey(pods[created[k]], pkg) == CreationKey(pods[i], pkg);
      assert created[k] == i;
    }
    if IsCreated(pods, policy, pkg, existing, i) {
      assert i in created;
    }
  }

  lemma NamesakesCoveredAreOne(pods: seq<Pod>, policy: string, pkg: string, existing: set<string>, created: seq<nat>,
                               i: nat, j: nat)
    requires CreatedAmong(pods, policy, pkg, existing, created, |pods|) && i < |pods| && j < |pods|
    requires Eligible(pods[i], pkg) && Eligible(pods[j], pkg)
    requires pods[i].namespace == pods[j].namespace && pods[i].owner.name == pods[j].owner.name
    requires Covered(pods, created, pods[i]) && Covered(pods, created, pods[j])
    ensures pods[i].owner == pods[j].owner
  {
    var k :| 0 <= k < |created| && created[k] < |pods| && SameWorkload(pods[created[k]], pods[i]);
    var h :| 0 <= h < |created| && created[h] < |pods| && SameWorkload(pods[created[h]], pods[j]);
    assert IsFirst(pods, pkg, created[k]) && IsFirst(pods, pkg, created[h]);
    assert CreationKey(pods[created[k]], pkg) == CreationKey(pods[created[h]], pkg);
  }

  lemma AllFirstCreated(pods: seq<Pod>, policy: string, pkg: string, existing: set<string>, i: nat)
    requires i < |pods| && IsFirst(pods, pkg, i)
    requires !Namesakes(pods, pkg) && !NameTaken(pods, policy, pkg, existing)
    ensures IsCreated(pods, policy, pkg, existing, i)
  {
    assert !TakenAt(pods, policy, pkg, existing, i);
    forall j: nat | j < i && IsFirst(pods, pkg, j)
      ensures CheckpointName(policy, pods[j], pkg) != CheckpointName(policy, pods[i], pkg)
    {
      CheckpointNamesPod(policy, pods[j], pods[i], pkg);
      assert !NamesakeAt(pods, pkg, j, i);
    }
  }

  lemma NoObstacleMeansCovered(pods: seq<Pod>, policy: string, pkg: string, existing: set<string>, created: seq<nat>)
    requires ProperNames(pods) && CreatedAmong(pods, policy, pkg, existing, created, |pods|)
    requires !KindTwins(pods, pkg) && !Namesakes(pods, pkg) && !NameTaken(pods, policy, pkg, existing)
    ensures AllCovered(pods, pkg, created)
  {
    forall i: nat | i < |pods| && Eligible(pods[i], pkg) ensures Covered(pods, created, pods[i]) {
      var first := FirstWithKey(pods, pkg, i);
      CreationKeyNames(pods[first], pods[i], pkg);
      AllFirstCreated(pods, policy, pkg, existing, first);
      assert !TwinAt(pods, pkg, first, i);
      assert first in created && SameWorkload(pods[first], pods[i]);
    }
  }

  lemma NamesakeNotCovered(pods: seq<Pod>, policy: string, pkg: string, existing: set<string>, created: seq<nat>,
                           i: nat, j: nat)
    requires CreatedAmong(pods, policy, pkg, existing, created, |pods|) && NamesakeAt(pods, pkg, i, j)
    ensures !Covered(pods, created, pods[j])
  {
    CheckpointNamesPod(policy, pods[i], pods[j], pkg);
    assert Attempted(pods, policy, pkg, CheckpointName(policy, pods[j], pkg), j);
    OnlyFirstCovers(pods, policy, pkg, existing, created, j);
  }

  /** After a creation loop that went through with an open gate, every eligible workload has a checkpoint of its own if
      and only if no two of them in one namespace share a name across kinds, the first pods of different keys have
      different names, and none of the generated names existed before. */
  lemma EveryWorkloadCoveredIff(pods: seq<Pod>, policy: string, pkg: string, existing: set<string>, created: seq<nat>)
    requires ProperNames(pods) && CreatedAmong(pods, policy, pkg, existing, created, |pods|)
    ensures AllCovered(pods, pkg, created) <==>
            !KindTwins(pods, pkg) && !Namesakes(pods, pkg) && !NameTaken(pods, policy, pkg, existing)
  {
    if i: nat, j: nat :| TwinAt(pods, pkg, i, j) {
      if Covered(pods, created, pods[i]) && Covered(pods, created, pods[j]) {
        NamesakesCoveredAreOne(pods, policy, pkg, existing, created, i, j);
      }
    } else if i: nat, j: nat :| NamesakeAt(pods, pkg, i, j) {
      NamesakeNotCovered(pods, policy, pkg, existing, created, i, j);
    } else if i: nat :| TakenAt(pods, policy, pkg, existing, i) {
      OnlyFirstCovers(pods, policy, pkg, existing, created, i);
    } else {
      NoObstacleMeansCovered(pods, policy, pkg, existing, created);
    }
  }

  /** The pod's workload was resolved and names the package; whether it is marked for the cluster policy does not
      matter here. */
  predicate BelongsTo(pod: Pod, pkg: string) {
    pod.owner.Owner? && pod.parent.Parent? && pod.parent.annotations.packageName == pkg
  }

  /** Pod j belongs to the package and is of the same namespace and workload name. */
  predicate StandsFor(pods: seq<Pod>, pkg: string, j: nat, i: nat)
    requires i < |pods| && pods[i].owner.Owner?
  {
    && j <= i && BelongsTo(pods[j], pkg)
    && pods[j].namespace == pods[i].namespace && pods[j].owner.name == pods[i].owner.name
  }

  /** Pod j got a checkpoint, or its name existed already or was generated for an earlier pod of the package. */
  predicate CreatedOrTaken(pods: seq<Pod>, policy: string, pkg: string, existing: set<string>, created: seq<nat>,
                           j: nat)
    requires j < |pods|
  {
    || j in created
    || CheckpointName(policy, pods[j], pkg) in existing
    || exists h :: 0 <= h < j && BelongsTo(pods[h], pkg) && pods[h].name == pods[j].name
  }

  /** What a loop that went through creates: checkpoints only for pods that belong to the package, and for each of these
      one of its workload's, unless the name generated for that was taken. */
  lemma CreatesForThePackage(pods: seq<Pod>, policy: string, pkg: string, existing: set<string>, created: seq<nat>)
    requires ProperNames(pods) && CreatedAmong(pods, policy, pkg, existing, created, |pods|)
    ensures forall k | 0 <= k < |created| :: created[k] < |pods| && BelongsTo(pods[created[k]], pkg)
    ensures forall i: nat | i < |pods| && BelongsTo(pods[i], pkg) ::
              exists j :: StandsFor(pods, pkg, j, i) && CreatedOrTaken(pods, policy, pkg, existing, created, j)
  {
    forall i: nat | i < |pods| && BelongsTo(pods[i], pkg)
      ensures exists j :: StandsFor(pods, pkg, j, i) && CreatedOrTaken(pods, policy, pkg, existing, created, j)
    {
      var j := FirstWithKey(pods, pkg, i);
      CreationKeyNames(pods[j], pods[i], pkg);
      assert StandsFor(pods, pkg, j, i);
      if Attempted(pods, policy, pkg, CheckpointName(policy, pods[j], pkg), j) {
        var h: nat :| h < j && IsFirst(pods, pkg, h)
                      && CheckpointName(policy, pods[h], pkg) == CheckpointName(policy, pods[j], pkg);
        CheckpointNamesPod(policy, pods[h], pods[j], pkg);
      }
    }
  }

  // ---- Inputs that miss each of the three conditions ------------------------------------------------------

  function OfPackage(pkg: string): Parent {
    Parent(Annotations("true", pkg))
  }

  /** A StatefulSet and a DaemonSet of one name in one namespace: the second gets no checkpoint. */
  lemma StatefulSetHidesDaemonSet(namespace: string, name: string, policy: string, pkg: string, existing: set<string>,
                                  created: seq<nat>)
    requires SlashFree(namespace) && SlashFree(name)
    ensures var pods := [Pod(namespace, name + "-0", Owner("StatefulSet", name), OfPackage(pkg)),
                         Pod(namespace, name + "-x", Owner("DaemonSet", name), OfPackage(pkg))];
            CreatedAmong(pods, policy, pkg, existing, created, 2) ==> !Covered(pods, created, pods[1])
  {
    var pods := [Pod(namespace, name + "-0", Owner("StatefulSet", name), OfPackage(pkg)),
                 Pod(namespace, name + "-x", Owner("DaemonSet", name), OfPackage(pkg))];
    assert "StatefulSet"[0] != "DaemonSet"[0];
    assert CreationKey(pods[0], pkg) == CreationKey(pods[1], pkg);
    assert !IsFirst(pods, pkg, 1);
  }

  /** StatefulSets of one name in two namespaces, each with a pod of one name: the second gets no checkpoint, although
      the creation keys differ. */
  lemma SameNameInTwoNamespaces(first: string, second: string, name: string, policy: string, pkg: string,
                                existing: set<string>, created: seq<nat>)
    requires SlashFree(first) && SlashFree(second) && first != second
    ensures var pods := [Pod(first, name + "-0", Owner("StatefulSet", name), OfPackage(pkg)),
                         Pod(second, name + "-0", Owner("StatefulSet", name), OfPackage(pkg))];
            && !KindTwins(pods, pkg)
            && (CreatedAmong(pods, policy, pkg, existing, created, 2) ==> !Covered(pods, created, pods[1]))
  {
    var pods := [Pod(first, name + "-0", Owner("StatefulSet", name), OfPackage(pkg)),
                 Pod(second, name + "-0", Owner("StatefulSet", name), OfPackage(pkg))];
    CreationKeyNames(pods[0], pods[1], pkg);
    assert NamesakeAt(pods, pkg, 0, 1);
    if CreatedAmong(pods, policy, pkg, existing, created, 2) {
      NamesakeNotCovered(pods, policy, pkg, existing, created, 0, 1);
    }
  }

  /** Names of different packages can be the same: pod x of package y-z, and pod x-y of package z. */
  lemma DashesAreAmbiguous(policy: string, x: string, y: string, z: string, pod: Pod, other: Pod)
    requires pod.name == x && other.name == x + "-" + y
    ensures CheckpointName(policy, pod, y + "-" + z) == CheckpointName(policy, other, z)
  {
    var p := "checkpoint-" + policy + "-";
    assert CheckpointName(policy, pod, y + "-" + z) == p + (x + "-" + (y + "-" + z));
    assert CheckpointName(policy, other, z) == p + (x + "-" + y + "-" + z);
    assert x + "-" + (y + "-" + z) == x + "-" + y + "-" + z;
  }
}

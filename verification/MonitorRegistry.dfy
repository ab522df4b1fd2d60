/** The registry that keeps a cluster from being watched twice by the same kind of monitor. */
module MonitorRegistry {

  datatype Kind = ControlPlane | Cni

  const CNI_SUFFIX := "-cni"

  function Key(kind: Kind, cluster: string): string {
    if kind.Cni? then cluster + CNI_SUFFIX else cluster
  }

  /** A start call and the monitor it may spawn: before the lock, registered, spawned, past its loop, deregistered.  A
      rejected call records, as history, the thread that held its key. */
  datatype Phase = Entering | Registered | Live | Leaving | Gone | Rejected(holder: nat)

  datatype Thread = Thread(kind: Kind, cluster: string, phase: Phase)

  datatype State = State(registry: set<string>, threads: seq<Thread>)

  datatype Action = Start(kind: Kind, cluster: string) | Move(i: nat)

  const INIT := State({}, [])

  predicate Enabled(s: State, a: Action) {
    a.Start? || (a.i < |s.threads| && !s.threads[a.i].phase.Gone? && !s.threads[a.i].phase.Rejected?)
  }

  /** The thread's key is in the registry on its account. */
  predicate Holds(t: Thread) {
    t.phase.Registered? || t.phase.Live? || t.phase.Leaving?
  }

  function KeyAt(s: State, i: nat): string
    requires i < |s.threads|
  {
    Key(s.threads[i].kind, s.threads[i].cluster)
  }

  /** The first thread among the first n that holds the key, or n. */
  function Holder(s: State, key: string, n: nat): (i: nat)
    requires n <= |s.threads|
    ensures i <= n && (i < n ==> Holds(s.threads[i]) && KeyAt(s, i) == key)
    ensures i == n ==> forall j: nat | j < n :: !(Holds(s.threads[j]) && KeyAt(s, j) == key)
  {
    if n == 0 then 0
    else
      var i := Holder(s, key, n - 1);
      if i < n - 1 || (Holds(s.threads[n - 1]) && KeyAt(s, n - 1) == key) then i else n
  }

  /** Each section under the mutex is one step. */
  function Step(s: State, a: Action): State
    requires Enabled(s, a)
  {
    match a
    case Start(kind, cluster) => s.(threads := s.threads + [Thread(kind, cluster, Entering)])
    case Move(i) =>
      var t := s.threads[i];
      var key := Key(t.kind, t.cluster);
      match t.phase
      case Entering =>
        if key in s.registry then s.(threads := s.threads[i := t.(phase := Rejected(Holder(s, key, |s.threads|)))])
        else State(s.registry + {key}, s.threads[i := t.(phase := Registered)])
      case Registered => s.(threads := s.threads[i := t.(phase := Live)])
      case Live => s.(threads := s.threads[i := t.(phase := Leaving)])
      case Leaving => State(s.registry - {key}, s.threads[i := t.(phase := Gone)])
  }

  predicate IsRun(s: State, acts: seq<Action>)
    decreases |acts|
  {
    |acts| == 0 || (Enabled(s, acts[0]) && IsRun(Step(s, acts[0]), acts[1..]))
  }

  function After(s: State, acts: seq<Action>): State
    requires IsRun(s, acts)
    decreases |acts|
  {
    if |acts| == 0 then s else After(Step(s, acts[0]), acts[1..])
  }

  // ---- Invariant ------------------------------------------------------------------------------------------

  predicate HeldBy(s: State, key: string, i: int) {
    0 <= i < |s.threads| && Holds(s.threads[i]) && KeyAt(s, i) == key
  }

  /** The thread that turned thread i away runs, or ran, under the same key. */
  predicate TurnedAway(s: State, i: nat)
    requires i < |s.threads| && s.threads[i].phase.Rejected?
  {
    var j := s.threads[i].phase.holder;
    && j < |s.threads| && j != i && KeyAt(s, j) == KeyAt(s, i)
    && !s.threads[j].phase.Entering? && !s.threads[j].phase.Rejected?
  }

  ghost predicate Inv(s: State) {
    && (forall key :: key in s.registry <==> exists i :: HeldBy(s, key, i))
    && (forall key, i, j :: HeldBy(s, key, i) && HeldBy(s, key, j) ==> i == j)
    && (forall i | 0 <= i < |s.threads| && s.threads[i].phase.Rejected? :: TurnedAway(s, i))
  }

  lemma StartInv(s: State, a: Action)
    requires Inv(s) && a.Start?
    ensures Inv(Step(s, a))
  {
    var t := Step(s, a);
    assert forall i | 0 <= i < |s.threads| :: t.threads[i] == s.threads[i];
    assert forall key, i :: HeldBy(t, key, i) <==> HeldBy(s, key, i);
    assert forall i | 0 <= i < |s.threads| && s.threads[i].phase.Rejected? :: TurnedAway(s, i);
  }

  lemma MoveInv(s: State, i: nat)
    requires Inv(s) && Enabled(s, Move(i))
    ensures Inv(Step(s, Move(i)))
  {
    var t := Step(s, Move(i));
    var key := KeyAt(s, i);
    forall k, j ensures HeldBy(t, k, j) <==> if j == i then k == key && Holds(t.threads[i]) else HeldBy(s, k, j) {}
    if Holds(s.threads[i]) {
      assert HeldBy(s, key, i);
    }
    if Holds(t.threads[i]) {
      assert HeldBy(t, key, i);
    }
    assert forall k, j :: HeldBy(s, k, j) && j != i ==> HeldBy(t, k, j);
    forall j | 0 <= j < |t.threads| && t.threads[j].phase.Rejected? ensures TurnedAway(t, j) {
      if j == i {
        var h :| HeldBy(s, key, h);
        assert Holder(s, key, |s.threads|) < |s.threads|;
      } else {
        assert TurnedAway(s, j);
      }
    }
  }

  lemma {:induction false} RunInv(s: State, acts: seq<Action>)
    requires Inv(s) && IsRun(s, acts)
    ensures Inv(After(s, acts))
    decreases |acts|
  {
    if |acts| > 0 {
      match acts[0] {
        case Start(_, _) => StartInv(s, acts[0]);
        case Move(i) => MoveInv(s, i);
      }
      RunInv(Step(s, acts[0]), acts[1..]);
    }
  }

  // ---- Main results ---------------------------------------------------------------------------------------

  /** Nobody is between the two sections of a start or about to deregister. */
  predicate Settled(s: State) {
    forall i | 0 <= i < |s.threads| :: !s.threads[i].phase.Registered? && !s.threads[i].phase.Leaving?
  }

  predicate Watched(s: State, key: string) {
    exists i :: 0 <= i < |s.threads| && s.threads[i].phase.Live? && KeyAt(s, i) == key
  }

  /** However many start calls and exits are interleaved: no two live monitors share a key, every live monitor is
      registered, and outside the short windows the registry's keys are exactly the watched ones. */
  lemma RegistryMirrorsMonitors(acts: seq<Action>)
    requires IsRun(INIT, acts)
    ensures var s := After(INIT, acts);
            && (forall i, j | 0 <= i < j < |s.threads| && s.threads[i].phase.Live? && s.threads[j].phase.Live? ::
                  KeyAt(s, i) != KeyAt(s, j))
            && (forall key | Watched(s, key) :: key in s.registry)
            && (Settled(s) ==> forall key :: key in s.registry <==> Watched(s, key))
  {
    RunInv(INIT, acts);
    var s := After(INIT, acts);
    forall i, j | 0 <= i < j < |s.threads| && s.threads[i].phase.Live? && s.threads[j].phase.Live?
      ensures KeyAt(s, i) != KeyAt(s, j)
    {
      assert HeldBy(s, KeyAt(s, i), i) && HeldBy(s, KeyAt(s, j), j);
    }
    forall key | Watched(s, key) ensures key in s.registry {
      var i :| 0 <= i < |s.threads| && s.threads[i].phase.Live? && KeyAt(s, i) == key;
      assert HeldBy(s, key, i);
    }
  }

  /** Two monitors share a key exactly if they are the same, or one's cluster is the other's name plus the suffix. */
  lemma KeysCollideIff(k1: Kind, c1: string, k2: Kind, c2: string)
    ensures Key(k1, c1) == Key(k2, c2) <==>
            || (k1 == k2 && c1 == c2)
            || (k1.ControlPlane? && k2.Cni? && c1 == c2 + "-cni")
            || (k1.Cni? && k2.ControlPlane? && c2 == c1 + "-cni")
  {
  }

  predicate StartsOnly(acts: seq<Action>, clusters: set<string>) {
    forall i | 0 <= i < |acts| && acts[i].Start? :: acts[i].cluster in clusters
  }

  /** Every rejected start was turned away by a monitor of the same kind on the same cluster. */
  predicate RejectsOwnKind(s: State) {
    forall i | 0 <= i < |s.threads| && s.threads[i].phase.Rejected? ::
      var j := s.threads[i].phase.holder;
      j < |s.threads| && s.threads[j].kind == s.threads[i].kind && s.threads[j].cluster == s.threads[i].cluster
  }

  /** At the moment of a rejection the blocking thread holds the key, and no other does. */
  lemma RejectedByHolder(s: State, i: nat)
    requires Inv(s) && Enabled(s, Move(i)) && Step(s, Move(i)).threads[i].phase.Rejected?
    ensures s.threads[i].phase.Entering? && HeldBy(s, KeyAt(s, i), Step(s, Move(i)).threads[i].phase.holder)
    ensures forall j :: HeldBy(s, KeyAt(s, i), j) ==> j == Step(s, Move(i)).threads[i].phase.holder
  {
    var key := KeyAt(s, i);
    var h :| HeldBy(s, key, h);
    var j := Holder(s, key, |s.threads|);
    assert j < |s.threads| && HeldBy(s, key, j);
  }

  predicate FromClusters(s: State, clusters: set<string>) {
    forall i | 0 <= i < |s.threads| :: s.threads[i].cluster in clusters
  }

  lemma {:induction false} RunFromClusters(s: State, acts: seq<Action>, clusters: set<string>)
    requires IsRun(s, acts) && FromClusters(s, clusters) && StartsOnly(acts, clusters)
    ensures FromClusters(After(s, acts), clusters)
    decreases |acts|
  {
    if |acts| > 0 {
      RunFromClusters(Step(s, acts[0]), acts[1..], clusters);
    }
  }

  /** The two kinds of monitor never shut each other out, on any run, exactly if no cluster of the fleet is named like
      another one plus "-cni". */
  lemma KindsIndependentIff(clusters: set<string>)
    ensures (forall acts: seq<Action> | IsRun(INIT, acts) && StartsOnly(acts, clusters) ::
               RejectsOwnKind(After(INIT, acts)))
            <==> forall c | c in clusters :: c + "-cni" !in clusters
  {
    if forall c | c in clusters :: c + CNI_SUFFIX !in clusters {
      forall acts: seq<Action> | IsRun(INIT, acts) && StartsOnly(acts, clusters)
        ensures RejectsOwnKind(After(INIT, acts))
      {
        NoClashNoExclusion(acts, clusters);
      }
    } else {
      var c :| c in clusters && c + CNI_SUFFIX in clusters;
      var acts := Exclusion(c);
      assert StartsOnly(acts, clusters);
    }
  }

  lemma NoClashNoExclusion(acts: seq<Action>, clusters: set<string>)
    requires IsRun(INIT, acts) && StartsOnly(acts, clusters) && forall c | c in clusters :: c + CNI_SUFFIX !in clusters
    ensures RejectsOwnKind(After(INIT, acts))
  {
    var s := After(INIT, acts);
    RunInv(INIT, acts);
    RunFromClusters(INIT, acts, clusters);
    forall i | 0 <= i < |s.threads| && s.threads[i].phase.Rejected?
      ensures var j := s.threads[i].phase.holder;
              j < |s.threads| && s.threads[j].kind == s.threads[i].kind && s.threads[j].cluster == s.threads[i].cluster
    {
      assert TurnedAway(s, i);
      var j := s.threads[i].phase.holder;
      KeysCollideIff(s.threads[i].kind, s.threads[i].cluster, s.threads[j].kind, s.threads[j].cluster);
    }
  }

  /** The CNI monitor of c keeps the control-plane monitor of c-cni from starting. */
  lemma Exclusion(c: string) returns (acts: seq<Action>)
    ensures IsRun(INIT, acts) && !RejectsOwnKind(After(INIT, acts))
    ensures forall i | 0 <= i < |acts| && acts[i].Start? :: acts[i].cluster in {c, c + CNI_SUFFIX}
  {
    var d := c + CNI_SUFFIX;
    acts := [Start(Cni, c), Move(0), Start(ControlPlane, d), Move(1)];
    var s1 := State({}, [Thread(Cni, c, Entering)]);
    var s2 := State({d}, [Thread(Cni, c, Registered)]);
    var s3 := State({d}, [Thread(Cni, c, Registered), Thread(ControlPlane, d, Entering)]);
    var s4 := State({d}, [Thread(Cni, c, Registered), Thread(ControlPlane, d, Rejected(0))]);
    assert Holder(s3, d, 1) == 0 && Holder(s3, d, 2) == 0;
    assert Step(INIT, acts[0]) == s1 && Step(s1, acts[1]) == s2 && Step(s2, acts[2]) == s3 && Step(s3, acts[3]) == s4;
    var a3, a2, a1 := acts[3..], acts[2..], acts[1..];
    assert a3[1..] == [] && a2[1..] == a3 && a1[1..] == a2;
    assert IsRun(s4, []) && IsRun(s3, a3) && IsRun(s2, a2) && IsRun(s1, a1) && IsRun(INIT, acts);
    assert After(INIT, acts) == After(s1, a1) == After(s2, a2) == After(s3, a3) == s4;
    assert s4.threads[1].phase.Rejected?;
  }
}

/** Which scans can end without an error although one occurred: the collector chooses among the ready channels, and a
    pending error may lose against the closed matchCh or against done. */
module ScanFaults {
  import opened ManifestScan

  predicate DirtyFile(f: File) {
    !f.readable || f.malformed
  }

  /** The entry ends the walk with an error, or is a manifest some worker will fail on. */
  predicate DirtyEntry(e: Entry) {
    e.WalkError? || (IsSend(e) && DirtyFile(e.file))
  }

  predicate DirtyWorker(w: Worker) {
    match w
    case Holding(f) => DirtyFile(f)
    case Scanning(_, _, malformed) => malformed
    case Sending(_, _, malformed) => malformed
    case _ => false
  }

  /** The walk meets no error and every manifest can be read and decoded to its end. */
  predicate CleanTree(tree: seq<Entry>) {
    forall i | 0 <= i < |tree| :: !DirtyEntry(tree[i])
  }

  predicate CleanQueue(files: seq<File>) {
    forall i | 0 <= i < |files| :: !DirtyFile(files[i])
  }

  predicate CleanCrew(ws: seq<Worker>) {
    forall i | 0 <= i < |ws| :: !DirtyWorker(ws[i])
  }

  /** Nothing that is still to be processed causes a fault. */
  predicate Clean(s: State) {
    CleanTree(s.walk) && CleanQueue(s.fileCh) && CleanCrew(s.workers)
  }

  predicate NoCancel(acts: seq<Action>) {
    forall i | 0 <= i < |acts| :: !acts[i].Cancel?
  }

  // ---- One step -------------------------------------------------------------------------------------------

  /** A step other than a cancellation faults only if something unclean is processed; otherwise what is unclean
      stays. */
  predicate Tracks(s: State, t: State) {
    && t.cancelled == s.cancelled
    && (s.faulted ==> t.faulted)
    && (Clean(s) && !s.faulted && !s.cancelled ==> !t.faulted)
    && (!t.faulted ==> (Clean(t) <==> Clean(s)))
  }

  lemma CrewUpdateClean(ws: seq<Worker>, i: nat, w: Worker)
    requires i < |ws|
    ensures DirtyWorker(w) == DirtyWorker(ws[i]) ==> (CleanCrew(ws[i := w]) <==> CleanCrew(ws))
    ensures DirtyWorker(w) ==> !CleanCrew(ws[i := w])
  {
    assert forall j | 0 <= j < |ws| && j != i :: ws[i := w][j] == ws[j];
    assert ws[i := w][i] == w;
  }

  lemma QueueHeadClean(files: seq<File>)
    requires |files| > 0
    ensures CleanQueue(files) <==> !DirtyFile(files[0]) && CleanQueue(files[1..])
  {
  }

  lemma TreeHeadClean(walk: seq<Entry>)
    requires |walk| > 0
    ensures CleanTree(walk) <==> !DirtyEntry(walk[0]) && CleanTree(walk[1..])
  {
  }

  lemma QueueAppendClean(files: seq<File>, f: File)
    ensures CleanQueue(files + [f]) <==> CleanQueue(files) && !DirtyFile(f)
  {
    assert forall i | 0 <= i < |files| :: (files + [f])[i] == files[i];
    assert (files + [f])[|files|] == f;
  }

  lemma ReceiveTracks(s: State, i: nat)
    requires i < |s.workers| && s.workers[i].Idle?
    ensures Tracks(s, Receive(s, i))
  {
    if |s.fileCh| > 0 {
      QueueHeadClean(s.fileCh);
      CrewUpdateClean(s.workers, i, Holding(s.fileCh[0]));
    } else {
      CrewUpdateClean(s.workers, i, Returned);
    }
  }

  lemma OpenTracks(s: State, i: nat, f: File)
    requires i < |s.workers| && s.workers[i] == Holding(f)
    ensures Tracks(s, Open(s, i, f))
  {
    assert CleanCrew(s.workers) ==> !DirtyWorker(s.workers[i]);
    CrewUpdateClean(s.workers, i, Scanning(f.path, f.docs, f.malformed));
  }

  lemma DecodeTracks(s: State, i: nat, path: string, docs: seq<Doc>, malformed: bool)
    requires i < |s.workers| && s.workers[i] == Scanning(path, docs, malformed) && |docs| > 0
    ensures Tracks(s, Decode(s, i, path, docs, malformed))
  {
    CrewUpdateClean(s.workers, i, Sending(path, docs[1..], malformed));
    CrewUpdateClean(s.workers, i, Scanning(path, docs[1..], malformed));
  }

  lemma EndOfFileTracks(s: State, i: nat, path: string, malformed: bool)
    requires i < |s.workers| && s.workers[i] == Scanning(path, [], malformed)
    ensures Tracks(s, EndOfFile(s, i, malformed))
  {
    assert CleanCrew(s.workers) ==> !DirtyWorker(s.workers[i]);
    CrewUpdateClean(s.workers, i, Idle);
  }

  lemma SendTracks(s: State, i: nat, path: string, docs: seq<Doc>, malformed: bool)
    requires i < |s.workers| && s.workers[i] == Sending(path, docs, malformed)
    ensures Tracks(s, Send(s, i, path, docs, malformed))
  {
    CrewUpdateClean(s.workers, i, Scanning(path, docs, malformed));
  }

  lemma WorkTracks(s: State, i: nat)
    requires Enabled(s, Work(i))
    ensures Tracks(s, StepWorker(s, i))
  {
    match s.workers[i]
    case Idle => ReceiveTracks(s, i);
    case Holding(f) => OpenTracks(s, i, f);
    case Scanning(path, docs, malformed) =>
      if |docs| > 0 {
        DecodeTracks(s, i, path, docs, malformed);
      } else {
        EndOfFileTracks(s, i, path, malformed);
      }
    case Sending(path, docs, malformed) => SendTracks(s, i, path, docs, malformed);
  }

  lemma WalkTracks(s: State)
    requires Enabled(s, Walk)
    ensures Tracks(s, StepWalk(s))
  {
    if |s.walk| > 0 {
      TreeHeadClean(s.walk);
      if IsSend(s.walk[0]) {
        QueueAppendClean(s.fileCh, s.walk[0].file);
      }
    }
  }

  lemma StepTracks(s: State, a: Action)
    requires Enabled(s, a) && !a.Cancel?
    ensures Tracks(s, Step(s, a))
  {
    match a
    case Walk => WalkTracks(s);
    case Work(i) => WorkTracks(s, i);
    case Collect(arm) => CollectTracks(s, arm);
    case Close =>
  }

  lemma CollectTracks(s: State, arm: Arm)
    requires Enabled(s, Collect(arm))
    ensures Tracks(s, Step(s, Collect(arm)))
  {
  }

  // ---- A clean tree never faults --------------------------------------------------------------------------

  lemma {:induction false} CleanRun(s: State, acts: seq<Action>)
    requires IsRun(s, acts) && NoCancel(acts) && Clean(s) && !s.faulted && !s.cancelled
    ensures var t := After(s, acts); Clean(t) && !t.faulted && !t.cancelled
    decreases |acts|
  {
    if |acts| > 0 {
      StepTracks(s, acts[0]);
      CleanRun(Step(s, acts[0]), acts[1..]);
    }
  }

  /** Without a cancellation, a clean tree is reported completely through the closed matchCh, and through done up to
      what is still buffered; either way no goroutine is left behind. */
  lemma CleanTreeExit(ref: Ref, tree: seq<Entry>, cpus: nat, acts: seq<Action>)
    requires cpus >= 1 && IsRun(Init(ref, tree, cpus), acts) && CleanTree(tree) && NoCancel(acts)
    ensures var s := After(Init(ref, tree, cpus), acts);
            && (s.collector.Exited? ==> NilExit(s))
            && (NilExit(s) ==>
                  && multiset(s.collected) + multiset(s.matchCh) == multiset(Expected(tree, ref))
                  && AllReturned(s))
            && (s.collector == Exited(Drained) ==> multiset(s.collected) == multiset(Expected(tree, ref)))
  {
    CleanRun(Init(ref, tree, cpus), acts);
    InitInv(Any, ref, tree, cpus);
    RunInv(Any, Init(ref, tree, cpus), acts);
    if NilExit(After(Init(ref, tree, cpus), acts)) {
      FaultFreeExit(ref, tree, cpus, acts);
    }
  }

  // ---- An error can always be swallowed -------------------------------------------------------------------

  /** When matchCh is closed, whatever could fail has failed. */
  lemma DirtHasFaulted(s: State)
    requires Inv(s) && s.matchClosed && (!Clean(s) || s.faulted)
    ensures s.faulted
  {
    NoneAlive(s.workers, |s.workers|);
  }

  /** The next action of a schedule on which the collector looks at nothing but matchCh. */
  lemma SwallowingAction(s: State) returns (a: Action)
    requires Inv(s) && s.collector.Collecting? && !(s.matchClosed && |s.matchCh| == 0)
    ensures Enabled(s, a) && !a.Cancel? && Step(s, a).collector.Collecting?
  {
    if !s.matchClosed && |s.matchCh| < CAPACITY {
      a := HelperCanMove(s);
      OnlyCollectorCollects(s, a);
    } else {
      a := Collect(MatchArm);
    }
  }

  /** The collector looks at nothing but matchCh: the error stays in errCh and the call returns without one. */
  lemma {:induction false} SwallowedError(s: State) returns (acts: seq<Action>)
    requires Inv(s) && s.collector.Collecting? && (!Clean(s) || s.faulted)
    ensures IsRun(s, acts) && NoCancel(acts)
    ensures After(s, acts).collector == Exited(Drained) && After(s, acts).faulted
    decreases Measure(s)
  {
    if s.matchClosed && |s.matchCh| == 0 {
      DirtHasFaulted(s);
      acts := [Collect(MatchArm)];
      assert After(Step(s, acts[0]), acts[1..]) == Step(s, acts[0]);
    } else {
      var a := SwallowingAction(s);
      StepAdvances(Any, s, a);
      StepTracks(s, a);
      var rest := SwallowedError(Step(s, a));
      acts := [a] + rest;
      assert acts[1..] == rest;
    }
  }

  /** No uncancelled run returns without an error after one occurred. */
  ghost predicate ErrorsSurface(ref: Ref, tree: seq<Entry>, cpus: nat) {
    forall acts: seq<Action> ::
      IsRun(Init(ref, tree, cpus), acts) && NoCancel(acts) && NilExit(After(Init(ref, tree, cpus), acts)) ==>
        !After(Init(ref, tree, cpus), acts).faulted
  }

  /** That is so exactly for the trees in which nothing can fail. */
  lemma ErrorsSurfaceIff(ref: Ref, tree: seq<Entry>, cpus: nat)
    requires cpus >= 1
    ensures ErrorsSurface(ref, tree, cpus) <==> CleanTree(tree)
  {
    var init := Init(ref, tree, cpus);
    if CleanTree(tree) {
      forall acts: seq<Action> | IsRun(init, acts) && NoCancel(acts) && NilExit(After(init, acts))
        ensures !After(init, acts).faulted
      {
        CleanRun(init, acts);
      }
    } else {
      InitInv(Any, ref, tree, cpus);
      var acts := SwallowedError(init);
      assert NilExit(After(init, acts));
    }
  }

  /** One unreadable manifest holding a match: the scan can end through the closed matchCh with nothing found. */
  lemma UnreadableMatchIsMissed(ref: Ref) returns (tree: seq<Entry>, acts: seq<Action>)
    ensures IsRun(Init(ref, tree, 1), acts) && NoCancel(acts)
    ensures After(Init(ref, tree, 1), acts).collector == Exited(Drained)
    ensures After(Init(ref, tree, 1), acts).collected == [] && Expected(tree, ref) != []
  {
    var path := "a.yml";
    var file := File(path, false, [Doc(ref.kind, ref.name, ref.namespace)], false);
    tree := [Regular(file)];
    ExtensionOfYml();
    assert FileMatches(path, file.docs, ref) == [path] + FileMatches(path, file.docs[1..], ref);
    assert Expected(tree, ref) == FileMatches(path, file.docs, ref) + Expected(tree[1..], ref);
    var s0 := Init(ref, tree, 1);
    var s1 := s0.(walk := [], fileCh := [file]);
    var s2 := s1.(workers := [Holding(file)], fileCh := []);
    var s3 := s2.(workers := [Returned], wg := 0, errPending := true, lostFiles := [file], faulted := true);
    var s4 := s3.(matchClosed := true);
    var s5 := s4.(collector := Exited(Drained));
    assert Step(s0, Walk) == s1;
    assert Step(s1, Work(0)) == s2;
    assert Step(s2, Work(0)) == s3;
    assert Step(s3, Close) == s4;
    assert Step(s4, Collect(MatchArm)) == s5;
    Prepend(s4, Collect(MatchArm), []);
    Prepend(s3, Close, [Collect(MatchArm)]);
    Prepend(s2, Work(0), [Close] + [Collect(MatchArm)]);
    Prepend(s1, Work(0), [Work(0)] + ([Close] + [Collect(MatchArm)]));
    Prepend(s0, Walk, [Work(0)] + ([Work(0)] + ([Close] + [Collect(MatchArm)])));
    acts := [Walk] + ([Work(0)] + ([Work(0)] + ([Close] + [Collect(MatchArm)])));
  }

  lemma Prepend(s: State, a: Action, rest: seq<Action>)
    requires Enabled(s, a) && IsRun(Step(s, a), rest)
    ensures IsRun(s, [a] + rest) && After(s, [a] + rest) == After(Step(s, a), rest)
  {
  }

  lemma ExtensionOfYml()
    ensures IsManifest("a.yml")
  {
    assert "a.yml"[..4] == "a.ym" && "a.ym"[..3] == "a.y" && "a.y"[..2] == "a.";
    assert Extension("a.") == ".";
    assert Extension("a.y") == ".y";
    assert Extension("a.ym") == ".ym";
  }
}

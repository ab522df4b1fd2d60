/** Which errors of a scan reach its caller: whatever failed before the collector returned is waiting in errCh. */
module ScanErrors {
  import opened ManifestScan
  import opened ScanFaults

  /** The walk meets an error here, or enqueues a manifest that cannot be read or decoded. */
  predicate Fails(e: Entry) {
    || e.WalkError?
    || (e.Regular? && IsManifest(e.file.path) && (!e.file.readable || e.file.malformed))
  }

  predicate HasWalkError(walk: seq<Entry>) {
    exists i :: 0 <= i < |walk| && walk[i].WalkError?
  }

  /** The failing manifests the walk comes by before its first error. */
  function FailingAhead(walk: seq<Entry>): nat {
    if |walk| == 0 || walk[0].WalkError? then 0
    else (if Fails(walk[0]) then 1 else 0) + FailingAhead(walk[1..])
  }

  function FailingQueued(files: seq<File>): nat {
    if |files| == 0 then 0
    else (if files[0].readable && !files[0].malformed then 0 else 1) + FailingQueued(files[1..])
  }

  function FailingHeld(ws: seq<Worker>, n: nat): nat
    requires n <= |ws|
  {
    if n == 0 then 0 else FailingHeld(ws, n - 1) + if DirtyWorker(ws[n - 1]) then 1 else 0
  }

  /** The failing manifests nobody has failed on yet. */
  function StillToFail(s: State): nat {
    FailingAhead(s.walk) + FailingQueued(s.fileCh) + FailingHeld(s.workers, |s.workers|)
  }

  /** Between s and t the walk ended with an error, or a worker failed on a manifest. */
  predicate FailedBetween(s: State, t: State) {
    (HasWalkError(s.walk) && !HasWalkError(t.walk)) || StillToFail(t) < StillToFail(s)
  }

  /** An error is waiting in errCh, or was returned. */
  predicate Raised(s: State) {
    s.errPending || s.collector == Exited(Failed)
  }

  /** An error is raised by the first failure, and stays so. */
  predicate Arms(s: State, t: State) {
    && t.cancelled == s.cancelled && (t.faulted ==> s.faulted || Raised(t))
    && (HasWalkError(t.walk) ==> HasWalkError(s.walk)) && StillToFail(t) <= StillToFail(s)
    && (Raised(t) <==> Raised(s) || FailedBetween(s, t))
  }

  // ---- One step -------------------------------------------------------------------------------------------

  lemma {:induction false} HeldUpdate(ws: seq<Worker>, n: nat, i: nat, w: Worker)
    requires i < |ws| && n <= |ws|
    ensures FailingHeld(ws[i := w], n) + (if i < n && DirtyWorker(ws[i]) then 1 else 0)
            == FailingHeld(ws, n) + (if i < n && DirtyWorker(w) then 1 else 0)
  {
    if n > 0 {
      HeldUpdate(ws, n - 1, i, w);
    }
  }

  lemma {:induction false} QueuedAppend(files: seq<File>, f: File)
    ensures FailingQueued(files + [f]) == FailingQueued(files) + if f.readable && !f.malformed then 0 else 1
  {
    if |files| == 0 {
      assert files + [f] == [f] && [f][1..] == [];
    } else {
      assert (files + [f])[1..] == files[1..] + [f];
      QueuedAppend(files[1..], f);
    }
  }

  /** Worker i becomes w: it takes over what left the queue, or it fails and says so. */
  lemma WorkerArms(s: State, t: State, i: nat, w: Worker)
    requires i < |s.workers| && t.workers == s.workers[i := w] && t.walk == s.walk && t.cancelled == s.cancelled
    requires t.collector == s.collector && (t.faulted ==> s.faulted || t.errPending)
    requires FailingQueued(t.fileCh) + (if DirtyWorker(w) then 1 else 0)
             <= FailingQueued(s.fileCh) + (if DirtyWorker(s.workers[i]) then 1 else 0)
    requires t.errPending <==>
             || s.errPending
             || FailingQueued(t.fileCh) + (if DirtyWorker(w) then 1 else 0)
                < FailingQueued(s.fileCh) + (if DirtyWorker(s.workers[i]) then 1 else 0)
    ensures Arms(s, t)
  {
    HeldUpdate(s.workers, |s.workers|, i, w);
  }

  lemma ReceiveArms(s: State, i: nat)
    requires i < |s.workers| && s.workers[i].Idle?
    ensures Arms(s, Receive(s, i))
  {
    WorkerArms(s, Receive(s, i), i, if |s.fileCh| > 0 then Holding(s.fileCh[0]) else Returned);
  }

  lemma OpenArms(s: State, i: nat, f: File)
    requires i < |s.workers| && s.workers[i] == Holding(f) && !s.cancelled
    ensures Arms(s, Open(s, i, f))
  {
    WorkerArms(s, Open(s, i, f), i, if f.readable then Scanning(f.path, f.docs, f.malformed) else Returned);
  }

  lemma DecodeArms(s: State, i: nat, path: string, docs: seq<Doc>, malformed: bool)
    requires i < |s.workers| && s.workers[i] == Scanning(path, docs, malformed) && |docs| > 0
    ensures Arms(s, Decode(s, i, path, docs, malformed))
  {
    if Matches(docs[0], s.ref) {
      WorkerArms(s, Decode(s, i, path, docs, malformed), i, Sending(path, docs[1..], malformed));
    } else {
      WorkerArms(s, Decode(s, i, path, docs, malformed), i, Scanning(path, docs[1..], malformed));
    }
  }

  lemma EndOfFileArms(s: State, i: nat, path: string, malformed: bool)
    requires i < |s.workers| && s.workers[i] == Scanning(path, [], malformed)
    ensures Arms(s, EndOfFile(s, i, malformed))
  {
    WorkerArms(s, EndOfFile(s, i, malformed), i, if malformed then Returned else Idle);
  }

  lemma SendArms(s: State, i: nat, path: string, docs: seq<Doc>, malformed: bool)
    requires i < |s.workers| && s.workers[i] == Sending(path, docs, malformed)
    ensures Arms(s, Send(s, i, path, docs, malformed))
  {
    if !s.matchClosed {
      WorkerArms(s, Send(s, i, path, docs, malformed), i, Scanning(path, docs, malformed));
    }
  }

  lemma WorkArms(s: State, i: nat)
    requires Enabled(s, Work(i)) && !s.cancelled
    ensures Arms(s, StepWorker(s, i))
  {
    match s.workers[i]
    case Idle => ReceiveArms(s, i);
    case Holding(f) => OpenArms(s, i, f);
    case Scanning(path, docs, malformed) =>
      if |docs| > 0 {
        DecodeArms(s, i, path, docs, malformed);
      } else {
        EndOfFileArms(s, i, path, malformed);
      }
    case Sending(path, docs, malformed) => SendArms(s, i, path, docs, malformed);
  }

  lemma WalkArms(s: State)
    requires Enabled(s, Walk)
    ensures Arms(s, StepWalk(s))
  {
    if |s.walk| > 0 {
      var rest := s.walk[1..];
      assert forall i | 0 <= i < |rest| :: rest[i] == s.walk[i + 1];
      assert HasWalkError(s.walk) <==> s.walk[0].WalkError? || HasWalkError(rest) by {
        if HasWalkError(rest) {
          var i :| 0 <= i < |rest| && rest[i].WalkError?;
          assert s.walk[i + 1].WalkError?;
        }
      }
      if IsSend(s.walk[0]) {
        QueuedAppend(s.fileCh, s.walk[0].file);
      }
    }
  }

  lemma CollectArms(s: State, arm: Arm)
    requires Enabled(s, Collect(arm))
    ensures Arms(s, Step(s, Collect(arm)))
  {
    match arm
    case CtxArm => assert Step(s, Collect(arm)) == s.(collector := Exited(Cancelled));
    case ErrArm => assert Step(s, Collect(arm)) == s.(errPending := false, collector := Exited(Failed));
    case DoneChArm => assert Step(s, Collect(arm)) == s.(collector := Exited(DoneArm));
    case MatchArm =>
      if |s.matchCh| > 0 {
        assert Step(s, Collect(arm)) == s.(matchCh := s.matchCh[1..], collected := s.collected + [s.matchCh[0]]);
      }
  }

  lemma StepArms(s: State, a: Action)
    requires Enabled(s, a) && !a.Cancel? && !s.cancelled
    ensures Arms(s, Step(s, a))
  {
    match a
    case Walk => WalkArms(s);
    case Work(i) => WorkArms(s, i);
    case Collect(arm) => CollectArms(s, arm);
    case Close =>
  }

  // ---- Runs -----------------------------------------------------------------------------------------------

  lemma {:induction false} RunArms(s: State, acts: seq<Action>)
    requires IsRun(s, acts) && NoCancel(acts) && !s.cancelled
    ensures Arms(s, After(s, acts))
    decreases |acts|
  {
    if |acts| > 0 {
      StepArms(s, acts[0]);
      RunArms(Step(s, acts[0]), acts[1..]);
    }
  }

  lemma {:induction false} NothingHeld(ws: seq<Worker>, n: nat)
    requires n <= |ws| && forall i | 0 <= i < n :: ws[i].Idle?
    ensures FailingHeld(ws, n) == 0
  {
    if n > 0 {
      NothingHeld(ws, n - 1);
    }
  }

  /** In every state of an uncancelled scan an error is raised exactly if something has failed: the walk's first error
      is behind it, or fewer of the failing manifests before it are still to be failed on than the tree holds.  While
      the collector has not returned, that is to say that the error arm is ready. */
  lemma ErrorRaisedIff(ref: Ref, tree: seq<Entry>, cpus: nat, acts: seq<Action>)
    requires cpus >= 1 && IsRun(Init(ref, tree, cpus), acts) && NoCancel(acts)
    ensures var s := After(Init(ref, tree, cpus), acts);
            && StillToFail(s) <= FailingAhead(tree)
            && (Raised(s) <==> (HasWalkError(tree) && !HasWalkError(s.walk)) || StillToFail(s) < FailingAhead(tree))
            && (s.collector.Collecting? ==> (Enabled(s, Collect(ErrArm)) <==> Raised(s)))
  {
    RunArms(Init(ref, tree, cpus), acts);
    NothingHeld(Init(ref, tree, cpus).workers, cpus);
    CloseOrder(ref, tree, cpus, acts);
  }

  // ---- An error can always be returned --------------------------------------------------------------------

  /** Every fault so far is waiting in errCh. */
  predicate Reported(s: State) {
    !s.cancelled && (s.faulted ==> Raised(s))
  }

  lemma {:induction false} RunReports(s: State, acts: seq<Action>)
    requires Inv(s) && IsRun(s, acts) && NoCancel(acts) && Reported(s)
    ensures var t := After(s, acts);
            Inv(t) && Reported(t) && (!t.faulted ==> (Clean(t) <==> Clean(s)))
    decreases |acts|
  {
    if |acts| > 0 {
      var t := Step(s, acts[0]);
      StepAdvances(Any, s, acts[0]);
      StepTracks(s, acts[0]);
      StepArms(s, acts[0]);
      RunReports(t, acts[1..]);
      if t.faulted {
        FaultStays(t, acts[1..]);
      }
    }
  }

  lemma {:induction false} FaultStays(s: State, acts: seq<Action>)
    requires IsRun(s, acts) && NoCancel(acts) && s.faulted
    ensures After(s, acts).faulted
    decreases |acts|
  {
    if |acts| > 0 {
      StepTracks(s, acts[0]);
      FaultStays(Step(s, acts[0]), acts[1..]);
    }
  }

  /** The others run, and the collector makes room for them, until something fails; then it takes the error. */
  lemma {:induction false} FailingRun(s: State) returns (acts: seq<Action>)
    requires Inv(s) && Reported(s) && s.collector.Collecting? && (s.errPending || !Clean(s))
    ensures IsRun(s, acts) && NoCancel(acts) && After(s, acts).collector == Exited(Failed)
    decreases Measure(s)
  {
    if s.errPending {
      acts := [Collect(ErrArm)];
      assert After(Step(s, acts[0]), acts[1..]) == Step(s, acts[0]);
    } else {
      if s.matchClosed {
        DirtHasFaulted(s);
      }
      var a := SwallowingAction(s);
      StepAdvances(Any, s, a);
      StepTracks(s, a);
      StepArms(s, a);
      var rest := FailingRun(Step(s, a));
      acts := [a] + rest;
      assert acts[1..] == rest;
    }
  }

  /** Some uncancelled continuation returns an error. */
  ghost predicate CanFail(s: State) {
    exists acts :: IsRun(s, acts) && NoCancel(acts) && After(s, acts).collector == Exited(Failed)
  }

  lemma CleanCannotFail(s: State)
    requires Inv(s) && Clean(s) && !s.faulted && !s.cancelled
    ensures !CanFail(s)
  {
    forall acts | IsRun(s, acts) && NoCancel(acts) ensures After(s, acts).collector != Exited(Failed) {
      CleanRun(s, acts);
      RunInv(Any, s, acts);
    }
  }

  /** From every state of an uncancelled scan whose collector still collects, the start included, it is possible that
      the call returns an error if and only if the tree holds something that fails: a walk error, or a manifest that
      cannot be read or decoded. */
  lemma CanFailIff(ref: Ref, tree: seq<Entry>, cpus: nat, acts: seq<Action>)
    requires cpus >= 1 && IsRun(Init(ref, tree, cpus), acts) && NoCancel(acts)
    requires After(Init(ref, tree, cpus), acts).collector.Collecting?
    ensures CanFail(After(Init(ref, tree, cpus), acts)) <==> exists i :: 0 <= i < |tree| && Fails(tree[i])
  {
    var init := Init(ref, tree, cpus);
    var s := After(init, acts);
    InitInv(Any, ref, tree, cpus);
    RunReports(init, acts);
    assert Clean(init) <==> forall i | 0 <= i < |tree| :: !Fails(tree[i]);
    if Clean(init) {
      CleanRun(init, acts);
      CleanCannotFail(s);
    } else {
      var rest := FailingRun(s);
    }
  }
}

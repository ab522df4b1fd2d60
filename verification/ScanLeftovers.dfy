/** Which scans leave a goroutine blocked forever after the collector has returned: a worker on a full matchCh, or the
    walker on a full fileCh once every worker is gone. */
module ScanLeftovers {
  import opened ManifestScan
  import opened ScanFaults

  /** The files the walk will enqueue: the manifests before its first error. */
  function ToCome(walk: seq<Entry>): seq<File> {
    if |walk| == 0 || walk[0].WalkError? then []
    else (if IsSend(walk[0]) then [walk[0].file] else []) + ToCome(walk[1..])
  }

  /** The matches a worker finds in a file; a malformed file is read up to its error. */
  function FileSends(f: File, ref: Ref): nat {
    if f.readable then Hits(Any, f.path, f.docs, ref) else 0
  }

  /** The matches found in these files, in order, by so many workers, each of which gives up at its first bad file. */
  function Sendable(files: seq<File>, workers: nat, ref: Ref): nat {
    if |files| == 0 || workers == 0 then 0
    else FileSends(files[0], ref) + Sendable(files[1..], if DirtyFile(files[0]) then workers - 1 else workers, ref)
  }

  /** Workers that are not waiting for a file. */
  function Busy(ws: seq<Worker>, n: nat): nat
    requires n <= |ws|
  {
    if n == 0 then 0 else Busy(ws, n - 1) + if ws[n - 1].Idle? then 0 else 1
  }

  lemma {:induction false} BusyUpdate(ws: seq<Worker>, n: nat, i: nat, w: Worker)
    requires i < |ws| && n <= |ws|
    ensures Busy(ws[i := w], n) + (if i < n && !ws[i].Idle? then 1 else 0)
            == Busy(ws, n) + (if i < n && !w.Idle? then 1 else 0)
  {
    if n > 0 {
      BusyUpdate(ws, n - 1, i, w);
    }
  }

  lemma {:induction false} BusyBounds(ws: seq<Worker>, n: nat)
    requires n <= |ws|
    ensures Busy(ws, n) <= n
    ensures Busy(ws, n) == n <==> forall i | 0 <= i < n :: !ws[i].Idle?
    ensures Busy(ws, n) == 0 <==> forall i | 0 <= i < n :: ws[i].Idle?
  {
    if n > 0 {
      BusyBounds(ws, n - 1);
    }
  }

  // ---- States in which nothing moves any more -------------------------------------------------------------

  predicate Helper(a: Action) {
    !a.Collect? && !a.Cancel?
  }

  /** Neither walker nor workers nor closer can take a step. */
  ghost predicate HelpersStuck(s: State) {
    forall a :: Helper(a) ==> !Enabled(s, a)
  }

  /** The collector has returned and nobody else can move. */
  ghost predicate Stuck(s: State) {
    s.collector.Exited? && HelpersStuck(s)
  }

  predicate AllGone(s: State) {
    AllReturned(s) && s.fileClosed && s.matchClosed && s.doneClosed
  }

  predicate BlockedSender(s: State, i: nat) {
    i < |s.workers| && s.workers[i].Sending? && |s.matchCh| >= CAPACITY
  }

  predicate BlockedWalker(s: State) {
    AllReturned(s) && !s.fileClosed && |s.fileCh| >= CAPACITY && |s.walk| > 0 && IsSend(s.walk[0])
  }

  lemma StuckWorker(s: State, i: nat)
    requires Inv(s) && HelpersStuck(s) && i < |s.workers| && !s.workers[i].Returned?
    ensures BlockedSender(s, i)
  {
    assert !Enabled(s, Work(i)) && !Enabled(s, Walk);
  }

  /** What a stuck helper is waiting for. */
  lemma StuckMeans(s: State)
    requires Inv(s) && HelpersStuck(s)
    ensures AllGone(s) || (exists i :: BlockedSender(s, i)) || BlockedWalker(s)
    ensures AllGone(s) ==> (forall i :: !BlockedSender(s, i)) && !BlockedWalker(s)
  {
    NoneAlive(s.workers, |s.workers|);
    if AllReturned(s) {
      assert !Enabled(s, Walk) && !Enabled(s, Close);
    } else {
      var i: nat :| i < |s.workers| && !s.workers[i].Returned?;
      StuckWorker(s, i);
    }
  }

  // ---- Few enough matches and manifests -------------------------------------------------------------------

  /** Before fileCh is closed every busy worker has taken a file of its own. */
  predicate Taken(s: State, manifests: nat, crew: nat) {
    |s.workers| == crew &&
    (!s.fileClosed ==> |ToCome(s.walk)| + |s.fileCh| + Busy(s.workers, |s.workers|) <= manifests)
  }

  /** Worker i becomes w, having taken a file if it is busy now and was not. */
  lemma TakenBy(s: State, t: State, i: nat, w: Worker, manifests: nat, crew: nat)
    requires i < |s.workers| && t.workers == s.workers[i := w] && t.walk == s.walk && t.fileClosed == s.fileClosed
    requires !s.fileClosed ==>
               |t.fileCh| + (if w.Idle? then 0 else 1) <= |s.fileCh| + (if s.workers[i].Idle? then 0 else 1)
    requires Taken(s, manifests, crew)
    ensures Taken(t, manifests, crew)
  {
    BusyUpdate(s.workers, |s.workers|, i, w);
  }

  /** The worker after decoding one document. */
  function Decoded(path: string, docs: seq<Doc>, malformed: bool, ref: Ref): Worker
    requires |docs| > 0
  {
    if Matches(docs[0], ref) then Sending(path, docs[1..], malformed) else Scanning(path, docs[1..], malformed)
  }

  lemma DecodeIs(s: State, i: nat, path: string, docs: seq<Doc>, malformed: bool)
    requires i < |s.workers| && |docs| > 0
    ensures Decode(s, i, path, docs, malformed) == s.(workers := s.workers[i := Decoded(path, docs, malformed, s.ref)])
  {
  }

  lemma TakenDecode(s: State, i: nat, path: string, docs: seq<Doc>, malformed: bool, manifests: nat, crew: nat)
    requires i < |s.workers| && s.workers[i] == Scanning(path, docs, malformed) && |docs| > 0
    requires Taken(s, manifests, crew)
    ensures Taken(Decode(s, i, path, docs, malformed), manifests, crew)
  {
    var w := Decoded(path, docs, malformed, s.ref);
    DecodeIs(s, i, path, docs, malformed);
    TakenBy(s, s.(workers := s.workers[i := w]), i, w, manifests, crew);
  }

  lemma TakenOpen(s: State, i: nat, f: File, manifests: nat, crew: nat)
    requires i < |s.workers| && s.workers[i] == Holding(f) && Taken(s, manifests, crew)
    ensures Taken(Open(s, i, f), manifests, crew)
  {
    var w := if s.cancelled || !f.readable then Returned else Scanning(f.path, f.docs, f.malformed);
    TakenBy(s, Open(s, i, f), i, w, manifests, crew);
  }

  lemma TakenReceive(s: State, i: nat, manifests: nat, crew: nat)
    requires i < |s.workers| && s.workers[i].Idle? && (|s.fileCh| > 0 || s.fileClosed) && Taken(s, manifests, crew)
    ensures Taken(Receive(s, i), manifests, crew)
  {
    TakenBy(s, Receive(s, i), i, if |s.fileCh| > 0 then Holding(s.fileCh[0]) else Returned, manifests, crew);
  }

  lemma TakenEnd(s: State, i: nat, malformed: bool, manifests: nat, crew: nat)
    requires i < |s.workers| && s.workers[i].Scanning? && Taken(s, manifests, crew)
    ensures Taken(EndOfFile(s, i, malformed), manifests, crew)
  {
    TakenBy(s, EndOfFile(s, i, malformed), i, if malformed then Returned else Idle, manifests, crew);
  }

  lemma TakenSend(s: State, i: nat, path: string, docs: seq<Doc>, malformed: bool, manifests: nat, crew: nat)
    requires i < |s.workers| && s.workers[i] == Sending(path, docs, malformed) && Taken(s, manifests, crew)
    ensures Taken(Send(s, i, path, docs, malformed), manifests, crew)
  {
    if !s.matchClosed {
      TakenBy(s, Send(s, i, path, docs, malformed), i, Scanning(path, docs, malformed), manifests, crew);
    }
  }

  lemma TakenWork(s: State, i: nat, manifests: nat, crew: nat)
    requires Enabled(s, Work(i)) && Taken(s, manifests, crew)
    ensures Taken(StepWorker(s, i), manifests, crew)
  {
    match s.workers[i]
    case Idle => TakenReceive(s, i, manifests, crew);
    case Holding(f) => TakenOpen(s, i, f, manifests, crew);
    case Scanning(path, docs, malformed) =>
      if |docs| > 0 {
        TakenDecode(s, i, path, docs, malformed, manifests, crew);
      } else {
        TakenEnd(s, i, malformed, manifests, crew);
      }
    case Sending(path, docs, malformed) => TakenSend(s, i, path, docs, malformed, manifests, crew);
  }

  lemma TakenWalk(s: State, manifests: nat, crew: nat)
    requires Enabled(s, Walk) && Taken(s, manifests, crew)
    ensures Taken(StepWalk(s), manifests, crew)
  {
  }

  lemma TakenStep(s: State, a: Action, manifests: nat, crew: nat)
    requires Enabled(s, a) && Taken(s, manifests, crew)
    ensures Taken(Step(s, a), manifests, crew)
  {
    match a
    case Walk => TakenWalk(s, manifests, crew);
    case Work(i) => TakenWork(s, i, manifests, crew);
    case _ =>
  }

  lemma {:induction false} TakenRun(s: State, acts: seq<Action>, manifests: nat, crew: nat)
    requires IsRun(s, acts) && Taken(s, manifests, crew)
    ensures Taken(After(s, acts), manifests, crew)
    decreases |acts|
  {
    if |acts| > 0 {
      TakenStep(s, acts[0], manifests, crew);
      TakenRun(Step(s, acts[0]), acts[1..], manifests, crew);
    }
  }

  lemma {:induction false} LengthIsCount(paths: seq<string>)
    ensures Count(Any, paths) == |paths|
  {
    if |paths| > 0 {
      LengthIsCount(paths[1..]);
    }
  }

  // ---- What can be sent at all ----------------------------------------------------------------------------

  function WorkerSends(w: Worker, ref: Ref): nat {
    match w
    case Holding(f) => FileSends(f, ref)
    case Scanning(path, docs, _) => Hits(Any, path, docs, ref)
    case Sending(path, docs, _) => 1 + Hits(Any, path, docs, ref)
    case _ => 0
  }

  function CrewSends(ws: seq<Worker>, n: nat, ref: Ref): nat
    requires n <= |ws|
  {
    if n == 0 then 0 else CrewSends(ws, n - 1, ref) + WorkerSends(ws[n - 1], ref)
  }

  function AbleOne(w: Worker): nat {
    if w.Returned? || DirtyWorker(w) then 0 else 1
  }

  /** The workers that will come back for another file. */
  function Able(ws: seq<Worker>, n: nat): nat
    requires n <= |ws|
  {
    if n == 0 then 0 else Able(ws, n - 1) + AbleOne(ws[n - 1])
  }

  lemma {:induction false} SendsUpdate(ws: seq<Worker>, n: nat, i: nat, w: Worker, ref: Ref)
    requires i < |ws| && n <= |ws|
    ensures CrewSends(ws[i := w], n, ref) + (if i < n then WorkerSends(ws[i], ref) else 0)
            == CrewSends(ws, n, ref) + (if i < n then WorkerSends(w, ref) else 0)
    ensures Able(ws[i := w], n) + (if i < n then AbleOne(ws[i]) else 0)
            == Able(ws, n) + (if i < n then AbleOne(w) else 0)
  {
    if n > 0 {
      SendsUpdate(ws, n - 1, i, w, ref);
    }
  }

  lemma {:induction false} SendsBounds(ws: seq<Worker>, n: nat, ref: Ref)
    requires n <= |ws|
    ensures (exists i :: 0 <= i < n && ws[i].Sending?) ==> CrewSends(ws, n, ref) >= 1
    ensures (forall i | 0 <= i < n :: ws[i].Returned?) ==> CrewSends(ws, n, ref) == 0 && Able(ws, n) == 0
    ensures (forall i | 0 <= i < n :: ws[i].Idle?) ==> CrewSends(ws, n, ref) == 0 && Able(ws, n) == n
  {
    if n > 0 {
      SendsBounds(ws, n - 1, ref);
    }
  }

  lemma {:induction false} FewerWorkers(files: seq<File>, few: nat, many: nat, ref: Ref)
    requires few <= many
    ensures Sendable(files, few, ref) <= Sendable(files, many, ref)
  {
    if |files| > 0 && few > 0 {
      var lost := if DirtyFile(files[0]) then 1 else 0;
      FewerWorkers(files[1..], few - lost, many - lost, ref);
    }
  }

  /** Sent, about to be sent, and still sendable. */
  function Reach(s: State): nat {
    |s.matchCh| + |s.collected| + CrewSends(s.workers, |s.workers|, s.ref)
    + Sendable(s.fileCh + ToCome(s.walk), Able(s.workers, |s.workers|), s.ref)
  }

  /** Only a cancellation changes what can be sent in all, and never upwards. */
  predicate Within(s: State, total: nat) {
    Reach(s) <= total && (!s.cancelled ==> Reach(s) == total)
  }

  predicate KeepsReach(s: State, t: State) {
    && t.cancelled == s.cancelled
    && Reach(t) <= Reach(s) && (!s.cancelled ==> Reach(t) == Reach(s))
  }

  lemma ReachTake(s: State, i: nat)
    requires i < |s.workers| && s.workers[i].Idle? && |s.fileCh| > 0
    ensures KeepsReach(s, Receive(s, i))
  {
    var files := s.fileCh + ToCome(s.walk);
    SendsUpdate(s.workers, |s.workers|, i, Returned, s.ref);
    SendsUpdate(s.workers, |s.workers|, i, Holding(s.fileCh[0]), s.ref);
    assert files[0] == s.fileCh[0] && files[1..] == s.fileCh[1..] + ToCome(s.walk);
  }

  lemma ReachReceive(s: State, i: nat)
    requires Inv(s) && Enabled(s, Work(i)) && s.workers[i].Idle?
    ensures KeepsReach(s, Receive(s, i))
  {
    if |s.fileCh| > 0 {
      ReachTake(s, i);
    } else {
      SendsUpdate(s.workers, |s.workers|, i, Returned, s.ref);
      assert s.fileCh + ToCome(s.walk) == [];
    }
  }

  lemma ReachOpen(s: State, i: nat, f: File)
    requires i < |s.workers| && s.workers[i] == Holding(f)
    ensures KeepsReach(s, Open(s, i, f))
  {
    if s.cancelled || !f.readable {
      SendsUpdate(s.workers, |s.workers|, i, Returned, s.ref);
      var few, many := Able(s.workers[i := Returned], |s.workers|), Able(s.workers, |s.workers|);
      FewerWorkers(s.fileCh + ToCome(s.walk), few, many, s.ref);
    } else {
      ReachBy(s, Open(s, i, f), i, Scanning(f.path, f.docs, f.malformed));
    }
  }

  /** Worker i becomes w; what it no longer has to send it has sent. */
  lemma ReachBy(s: State, t: State, i: nat, w: Worker)
    requires i < |s.workers| && t.workers == s.workers[i := w] && AbleOne(w) == AbleOne(s.workers[i])
    requires t.walk == s.walk && t.fileCh == s.fileCh && t.ref == s.ref && t.cancelled == s.cancelled
    requires t.collected == s.collected
    requires |t.matchCh| + WorkerSends(w, s.ref) == |s.matchCh| + WorkerSends(s.workers[i], s.ref)
    ensures KeepsReach(s, t)
  {
    SendsUpdate(s.workers, |s.workers|, i, w, s.ref);
  }

  lemma ReachDecode(s: State, i: nat, path: string, docs: seq<Doc>, malformed: bool)
    requires i < |s.workers| && s.workers[i] == Scanning(path, docs, malformed) && |docs| > 0
    ensures KeepsReach(s, Decode(s, i, path, docs, malformed))
  {
    var w := Decoded(path, docs, malformed, s.ref);
    DecodedSends(path, docs, malformed, s.ref);
    DecodeIs(s, i, path, docs, malformed);
    ReachBy(s, s.(workers := s.workers[i := w]), i, w);
  }

  lemma DecodedSends(path: string, docs: seq<Doc>, malformed: bool, ref: Ref)
    requires |docs| > 0
    ensures WorkerSends(Decoded(path, docs, malformed, ref), ref) == Hits(Any, path, docs, ref)
    ensures AbleOne(Decoded(path, docs, malformed, ref)) == AbleOne(Scanning(path, docs, malformed))
  {
  }

  lemma ReachEnd(s: State, i: nat, path: string, malformed: bool)
    requires i < |s.workers| && s.workers[i] == Scanning(path, [], malformed)
    ensures KeepsReach(s, EndOfFile(s, i, malformed))
  {
    ReachBy(s, EndOfFile(s, i, malformed), i, if malformed then Returned else Idle);
  }

  lemma ReachSend(s: State, i: nat, path: string, docs: seq<Doc>, malformed: bool)
    requires i < |s.workers| && s.workers[i] == Sending(path, docs, malformed)
    ensures KeepsReach(s, Send(s, i, path, docs, malformed))
  {
    if !s.matchClosed {
      ReachBy(s, Send(s, i, path, docs, malformed), i, Scanning(path, docs, malformed));
    }
  }

  lemma ReachWork(s: State, i: nat)
    requires Inv(s) && Enabled(s, Work(i))
    ensures KeepsReach(s, StepWorker(s, i))
  {
    match s.workers[i]
    case Idle => ReachReceive(s, i);
    case Holding(f) => ReachOpen(s, i, f);
    case Scanning(path, docs, malformed) =>
      if |docs| > 0 {
        ReachDecode(s, i, path, docs, malformed);
      } else {
        ReachEnd(s, i, path, malformed);
      }
    case Sending(path, docs, malformed) => ReachSend(s, i, path, docs, malformed);
  }

  lemma ReachWalk(s: State)
    requires Enabled(s, Walk)
    ensures KeepsReach(s, StepWalk(s))
  {
    if |s.walk| > 0 && !s.walk[0].WalkError? && IsSend(s.walk[0]) {
      assert s.fileCh + ToCome(s.walk) == (s.fileCh + [s.walk[0].file]) + ToCome(s.walk[1..]);
    } else if |s.walk| > 0 && !s.walk[0].WalkError? {
      assert ToCome(s.walk) == ToCome(s.walk[1..]);
    }
  }

  lemma ReachCollect(s: State, arm: Arm)
    requires Enabled(s, Collect(arm))
    ensures KeepsReach(s, Step(s, Collect(arm)))
  {
  }

  lemma ReachCancel(s: State, total: nat)
    requires Enabled(s, Cancel) && Within(s, total)
    ensures Within(Step(s, Cancel), total)
  {
  }

  lemma ReachStep(s: State, a: Action, total: nat)
    requires Inv(s) && Enabled(s, a) && Within(s, total)
    ensures Within(Step(s, a), total)
  {
    match a
    case Walk => ReachWalk(s);
    case Work(i) => ReachWork(s, i);
    case Collect(arm) => ReachCollect(s, arm);
    case Cancel => ReachCancel(s, total);
    case Close =>
  }

  lemma {:induction false} ReachRun(s: State, acts: seq<Action>, total: nat)
    requires Inv(s) && IsRun(s, acts) && Within(s, total)
    ensures Within(After(s, acts), total)
    decreases |acts|
  {
    if |acts| > 0 {
      StepAdvances(Any, s, acts[0]);
      ReachStep(s, acts[0], total);
      ReachRun(Step(s, acts[0]), acts[1..], total);
    }
  }

  lemma InitReach(ref: Ref, tree: seq<Entry>, cpus: nat)
    ensures Within(Init(ref, tree, cpus), Sendable(ToCome(tree), cpus, ref))
  {
    SendsBounds(Init(ref, tree, cpus).workers, cpus, ref);
    assert [] + ToCome(tree) == ToCome(tree);
  }

  /** With at most 100 matches to be sent and at most 100 manifests more than there are workers, nobody is left behind,
      whatever fails and whenever the caller cancels. */
  lemma NobodyLeftBehind(ref: Ref, tree: seq<Entry>, cpus: nat, acts: seq<Action>)
    requires cpus >= 1 && IsRun(Init(ref, tree, cpus), acts) && HelpersStuck(After(Init(ref, tree, cpus), acts))
    requires Sendable(ToCome(tree), cpus, ref) <= CAPACITY && |ToCome(tree)| <= CAPACITY + cpus
    ensures AllGone(After(Init(ref, tree, cpus), acts))
  {
    var init := Init(ref, tree, cpus);
    var s := After(init, acts);
    InitInv(Any, ref, tree, cpus);
    RunInv(Any, init, acts);
    InitReach(ref, tree, cpus);
    ReachRun(init, acts, Sendable(ToCome(tree), cpus, ref));
    BusyBounds(init.workers, cpus);
    TakenRun(init, acts, |ToCome(tree)|, cpus);
    StuckMeans(s);
    if i :| BlockedSender(s, i) {
      SendsBounds(s.workers, |s.workers|, s.ref);
    } else if BlockedWalker(s) {
      BusyBounds(s.workers, |s.workers|);
    }
  }

  // ---- Too many matches -----------------------------------------------------------------------------------

  lemma {:induction false} Concat(s: State, a: seq<Action>, b: seq<Action>)
    requires IsRun(s, a) && IsRun(After(s, a), b)
    ensures IsRun(s, a + b) && After(s, a + b) == After(After(s, a), b)
    decreases |a|
  {
    if |a| == 0 {
      assert a + b == b;
    } else {
      assert (a + b)[1..] == a[1..] + b;
      Concat(Step(s, a[0]), a[1..], b);
    }
  }

  lemma HelperKeeps(s: State, a: Action)
    requires Inv(s) && Enabled(s, a) && Helper(a)
    ensures SameCollector(s, Step(s, a)) && Step(s, a).cancelled == s.cancelled
  {
    OnlyCollectorCollects(s, a);
    StepTracks(s, a);
  }

  /** Let the helpers run as far as they get. */
  lemma {:induction false} RunHelpers(s: State) returns (acts: seq<Action>)
    requires Inv(s)
    ensures IsRun(s, acts) && NoCancel(acts) && HelpersStuck(After(s, acts)) && Inv(After(s, acts))
    ensures SameCollector(s, After(s, acts)) && After(s, acts).cancelled == s.cancelled
    decreases Measure(s)
  {
    if a :| Helper(a) && Enabled(s, a) {
      StepAdvances(Any, s, a);
      HelperKeeps(s, a);
      var rest := RunHelpers(Step(s, a));
      acts := [a] + rest;
      Prepend(s, a, rest);
    } else {
      acts := [];
    }
  }

  lemma NotAllReturned(s: State)
    requires Inv(s) && |s.collected| == 0 && Reach(s) > CAPACITY
    ensures !AllReturned(s)
  {
    if AllReturned(s) {
      SendsBounds(s.workers, |s.workers|, s.ref);
    }
  }

  /** Helpers that get stuck in a scan nobody collects from: with more than 100 matches to be sent one of them is
      blocked sending. */
  lemma FullMatchChBlocks(s: State) returns (i: nat)
    requires Inv(s) && HelpersStuck(s) && |s.collected| == 0 && Reach(s) > CAPACITY
    ensures BlockedSender(s, i)
  {
    NotAllReturned(s);
    i :| i < |s.workers| && !s.workers[i].Returned?;
    StuckWorker(s, i);
  }

  /** A blocked sender stays blocked once nobody receives. */
  lemma {:induction false} StaysBlocked(s: State, acts: seq<Action>, i: nat)
    requires Inv(s) && IsRun(s, acts) && BlockedSender(s, i) && s.collector.Exited?
    ensures BlockedSender(After(s, acts), i) && Inv(After(s, acts))
    decreases |acts|
  {
    if |acts| > 0 {
      StepAdvances(Any, s, acts[0]);
      BlockedStep(s, acts[0], i);
      StaysBlocked(Step(s, acts[0]), acts[1..], i);
    }
  }

  lemma BlockedStep(s: State, a: Action, i: nat)
    requires Inv(s) && Enabled(s, a) && BlockedSender(s, i) && s.collector.Exited?
    ensures BlockedSender(Step(s, a), i) && Step(s, a).collector.Exited?
  {
    NoneAlive(s.workers, |s.workers|);
    assert !s.matchClosed;
    if a.Work? {
      BlockedWork(s, a.i, i);
    }
  }

  /** Another worker moves without touching matchCh. */
  lemma BlockedBy(s: State, t: State, j: nat, w: Worker, i: nat)
    requires j < |s.workers| && j != i && BlockedSender(s, i) && t.workers == s.workers[j := w]
    requires t.matchCh == s.matchCh && t.collector == s.collector
    ensures BlockedSender(t, i) && t.collector == s.collector
  {
  }

  lemma BlockedWork(s: State, j: nat, i: nat)
    requires Enabled(s, Work(j)) && BlockedSender(s, i) && !s.matchClosed
    ensures BlockedSender(StepWorker(s, j), i) && StepWorker(s, j).collector == s.collector
  {
    var t := StepWorker(s, j);
    assert j != i;
    match s.workers[j]
    case Idle => BlockedBy(s, t, j, if |s.fileCh| > 0 then Holding(s.fileCh[0]) else Returned, i);
    case Holding(f) =>
      BlockedBy(s, t, j, if s.cancelled || !f.readable then Returned else Scanning(f.path, f.docs, f.malformed), i);
    case Scanning(path, docs, malformed) =>
      if |docs| > 0 {
        DecodeIs(s, j, path, docs, malformed);
        BlockedBy(s, t, j, Decoded(path, docs, malformed, s.ref), i);
      } else {
        BlockedBy(s, t, j, if malformed then Returned else Idle, i);
      }
  }

  lemma CancelAndLeave(s: State) returns (acts: seq<Action>)
    requires Inv(s) && !s.cancelled && s.collector.Collecting?
    ensures IsRun(s, acts) && After(s, acts) == s.(cancelled := true, collector := Exited(Cancelled))
    ensures Inv(After(s, acts))
  {
    var t := s.(cancelled := true);
    assert Step(s, Cancel) == t && Step(t, Collect(CtxArm)) == t.(collector := Exited(Cancelled));
    Prepend(t, Collect(CtxArm), []);
    Prepend(s, Cancel, [Collect(CtxArm)]);
    acts := [Cancel] + [Collect(CtxArm)];
    StepAdvances(Any, s, Cancel);
    StepAdvances(Any, t, Collect(CtxArm));
  }

  lemma ManyMatchesLeaveSender(ref: Ref, tree: seq<Entry>, cpus: nat) returns (acts: seq<Action>)
    requires cpus >= 1 && Sendable(ToCome(tree), cpus, ref) > CAPACITY
    ensures IsRun(Init(ref, tree, cpus), acts)
    ensures var s := After(Init(ref, tree, cpus), acts); Stuck(s) && !AllGone(s)
  {
    var init := Init(ref, tree, cpus);
    InitInv(Any, ref, tree, cpus);
    InitReach(ref, tree, cpus);
    var a1 := RunHelpers(init);
    ReachRun(init, a1, Sendable(ToCome(tree), cpus, ref));
    var s1 := After(init, a1);
    var i := FullMatchChBlocks(s1);
    var a2 := CancelAndLeave(s1);
    Concat(init, a1, a2);
    var s2 := After(init, a1 + a2);
    var a3 := RunHelpers(s2);
    StaysBlocked(s2, a3, i);
    Concat(init, a1 + a2, a3);
    acts := a1 + a2 + a3;
  }

  // ---- Too many manifests ---------------------------------------------------------------------------------

  /** After a cancellation each worker gives up with the first file it takes; more remain than fileCh holds. */
  predicate Abandoned(s: State, manifests: nat) {
    && s.cancelled && s.collector.Exited? && !s.fileClosed
    && (forall i | 0 <= i < |s.workers| :: s.workers[i].Idle? || s.workers[i].Holding? || s.workers[i].Returned?)
    && |ToCome(s.walk)| + |s.fileCh| + Busy(s.workers, |s.workers|) == manifests > CAPACITY + |s.workers|
  }

  lemma AbandonedWork(s: State, i: nat, manifests: nat)
    requires Inv(s) && Enabled(s, Work(i)) && Abandoned(s, manifests)
    ensures Abandoned(StepWorker(s, i), manifests)
  {
    var t := StepWorker(s, i);
    assert t.workers == s.workers[i := t.workers[i]];
    BusyUpdate(s.workers, |s.workers|, i, t.workers[i]);
  }

  lemma AbandonedStep(s: State, a: Action, manifests: nat)
    requires Inv(s) && Enabled(s, a) && Abandoned(s, manifests)
    ensures Abandoned(Step(s, a), manifests)
  {
    BusyBounds(s.workers, |s.workers|);
    match a
    case Walk => assert |s.walk| > 0 && !s.walk[0].WalkError?;
    case Work(i) => AbandonedWork(s, i, manifests);
    case _ =>
  }

  lemma {:induction false} AbandonedRun(s: State, acts: seq<Action>, manifests: nat)
    requires Inv(s) && IsRun(s, acts) && Abandoned(s, manifests)
    ensures Abandoned(After(s, acts), manifests)
    decreases |acts|
  {
    if |acts| > 0 {
      StepAdvances(Any, s, acts[0]);
      AbandonedStep(s, acts[0], manifests);
      AbandonedRun(Step(s, acts[0]), acts[1..], manifests);
    }
  }

  lemma ManyManifestsLeaveWalker(ref: Ref, tree: seq<Entry>, cpus: nat) returns (acts: seq<Action>)
    requires cpus >= 1 && |ToCome(tree)| > CAPACITY + cpus
    ensures IsRun(Init(ref, tree, cpus), acts)
    ensures var s := After(Init(ref, tree, cpus), acts); Stuck(s) && !AllGone(s)
  {
    var init := Init(ref, tree, cpus);
    InitInv(Any, ref, tree, cpus);
    BusyBounds(init.workers, cpus);
    var a1 := CancelAndLeave(init);
    var s1 := After(init, a1);
    var a2 := RunHelpers(s1);
    AbandonedRun(s1, a2, |ToCome(tree)|);
    Concat(init, a1, a2);
    acts := a1 + a2;
  }

  // ---- Main result ----------------------------------------------------------------------------------------

  /** Every run that cannot go on after the collector's return has ended all goroutines. */
  ghost predicate NeverLeaks(ref: Ref, tree: seq<Entry>, cpus: nat) {
    forall acts: seq<Action> :: IsRun(Init(ref, tree, cpus), acts) && Stuck(After(Init(ref, tree, cpus), acts)) ==>
      AllGone(After(Init(ref, tree, cpus), acts))
  }

  /** No scan of a tree leaves a goroutine behind, whatever fails and however it is cancelled, if and only if at most
      100 matches can be sent and at most 100 manifests more than there are workers come before the walk's first
      error. */
  lemma NeverLeaksIff(ref: Ref, tree: seq<Entry>, cpus: nat)
    requires cpus >= 1
    ensures NeverLeaks(ref, tree, cpus) <==>
            Sendable(ToCome(tree), cpus, ref) <= 100 && |ToCome(tree)| <= 100 + cpus
  {
    if Sendable(ToCome(tree), cpus, ref) > CAPACITY {
      var acts := ManyMatchesLeaveSender(ref, tree, cpus);
    } else if |ToCome(tree)| > CAPACITY + cpus {
      var acts := ManyManifestsLeaveWalker(ref, tree, cpus);
    } else {
      forall acts: seq<Action> | IsRun(Init(ref, tree, cpus), acts) && Stuck(After(Init(ref, tree, cpus), acts))
        ensures AllGone(After(Init(ref, tree, cpus), acts))
      {
        NobodyLeftBehind(ref, tree, cpus, acts);
      }
    }
  }

  /** In a tree in which nothing can fail every match can be sent. */
  lemma {:induction false} CleanSendsAll(ref: Ref, tree: seq<Entry>, cpus: nat)
    requires cpus >= 1 && CleanTree(tree)
    ensures Sendable(ToCome(tree), cpus, ref) == |Expected(tree, ref)|
  {
    if |tree| > 0 {
      assert !DirtyEntry(tree[0]);
      TreeHeadClean(tree);
      CleanSendsAll(ref, tree[1..], cpus);
      if IsSend(tree[0]) {
        assert ToCome(tree)[0] == tree[0].file && ToCome(tree)[1..] == ToCome(tree[1..]);
        FileMatchesCount(Any, tree[0].file.path, tree[0].file.docs, ref);
        LengthIsCount(FileMatches(tree[0].file.path, tree[0].file.docs, ref));
      } else {
        assert ToCome(tree) == ToCome(tree[1..]);
      }
    }
  }
}

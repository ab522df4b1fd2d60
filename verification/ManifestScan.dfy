/** The manifest scan of CheckRepoForMatchingManifests: a directory walker, a crew of workers, a closer and a
    collector that talk over three bounded channels.  Every interleaving is a sequence of Actions. */
module ManifestScan {

  const CAPACITY: nat := 100  // buffer of fileCh and of matchCh

  datatype Ref = Ref(kind: string, name: string, namespace: string)
  datatype Doc = Doc(kind: string, name: string, namespace: string)

  /** What a worker would find at a path: the documents it decodes, then the end of the file or a decoding error. */
  datatype File = File(path: string, readable: bool, docs: seq<Doc>, malformed: bool)

  /** One callback of the directory walk. */
  datatype Entry = WalkError | Directory | Regular(file: File)

  function OrDefault(namespace: string): string {
    if |namespace| == 0 then "default" else namespace
  }

  predicate Matches(d: Doc, ref: Ref) {
    d.kind == ref.kind && d.name == ref.name && OrDefault(d.namespace) == OrDefault(ref.namespace)
  }

  function Lower(c: char): char {
    if 'A' <= c <= 'Z' then (c as int + 32) as char else c
  }

  /** The lower-cased extension: from the last dot of the last path element on. */
  function Extension(path: string): string {
    if |path| == 0 || path[|path| - 1] == '/' then ""
    else if path[|path| - 1] == '.' then "."
    else
      var e := Extension(path[..|path| - 1]);
      if |e| == 0 then "" else e + [Lower(path[|path| - 1])]
  }

  predicate IsManifest(path: string) {
    Extension(path) == ".yaml" || Extension(path) == ".yml"
  }

  // ---- The matches a scan is expected to report -----------------------------------------------------------

  /** One path per matching document of a file, in document order. */
  function FileMatches(path: string, docs: seq<Doc>, ref: Ref): seq<string> {
    if |docs| == 0 then []
    else (if Matches(docs[0], ref) then [path] else []) + FileMatches(path, docs[1..], ref)
  }

  /** What the scan of a tree promises to report, up to order. */
  function Expected(tree: seq<Entry>, ref: Ref): seq<string> {
    if |tree| == 0 then []
    else
      (if IsSend(tree[0]) then FileMatches(tree[0].file.path, tree[0].file.docs, ref) else [])
      + Expected(tree[1..], ref)
  }

  /** Conservation is counted per path, and for all paths together. */
  datatype Selection = Any | Only(path: string)

  function Weight(sel: Selection, path: string): nat {
    if sel == Any || sel == Only(path) then 1 else 0
  }

  function Count(sel: Selection, paths: seq<string>): nat {
    if |paths| == 0 then 0 else Weight(sel, paths[0]) + Count(sel, paths[1..])
  }

  /** Number of matching documents among docs, counted if their file is selected. */
  function Hits(sel: Selection, path: string, docs: seq<Doc>, ref: Ref): nat {
    if |docs| == 0 then 0
    else (if Matches(docs[0], ref) then Weight(sel, path) else 0) + Hits(sel, path, docs[1..], ref)
  }

  function QueueHits(sel: Selection, files: seq<File>, ref: Ref): nat {
    if |files| == 0 then 0 else Hits(sel, files[0].path, files[0].docs, ref) + QueueHits(sel, files[1..], ref)
  }

  predicate IsSend(e: Entry) {
    e.Regular? && IsManifest(e.file.path)
  }

  /** Number of expected matches of a tree. */
  function WalkHits(sel: Selection, walk: seq<Entry>, ref: Ref): nat {
    if |walk| == 0 then 0
    else
      (if IsSend(walk[0]) then Hits(sel, walk[0].file.path, walk[0].file.docs, ref) else 0)
      + WalkHits(sel, walk[1..], ref)
  }

  // ---- State ----------------------------------------------------------------------------------------------

  datatype Worker =
    | Idle                                                        // receiving from fileCh
    | Holding(file: File)                                         // before the cancellation check
    | Scanning(path: string, docs: seq<Doc>, malformed: bool)     // decoding
    | Sending(path: string, docs: seq<Doc>, malformed: bool)      // sending path on matchCh
    | Returned

  datatype Exit = Cancelled | Failed | Drained | DoneArm

  datatype Collector = Collecting | Exited(exit: Exit)

  /** lostFiles, lostWalk and faulted are history: the files dropped by a failing or cancelled worker, the entries a
      broken-off walk did not visit, and whether any party failed. */
  datatype State = State(
    ref: Ref,
    walk: seq<Entry>, fileCh: seq<File>, fileClosed: bool,
    workers: seq<Worker>, wg: int,
    matchCh: seq<string>, matchClosed: bool, doneClosed: bool,
    errPending: bool, cancelled: bool,
    collected: seq<string>, collector: Collector,
    panicked: bool, lostFiles: seq<File>, lostWalk: seq<Entry>, faulted: bool)

  datatype Arm = CtxArm | ErrArm | MatchArm | DoneChArm

  datatype Action = Walk | Work(i: nat) | Close | Collect(arm: Arm) | Cancel

  function Init(ref: Ref, tree: seq<Entry>, cpus: nat): State {
    State(ref, tree, [], false, seq(cpus, _ => Idle), cpus, [], false, false, false, false, [], Collecting,
          false, [], [], false)
  }

  predicate Enabled(s: State, a: Action) {
    !s.panicked &&
    match a
    case Walk => !s.fileClosed && (|s.walk| == 0 || !IsSend(s.walk[0]) || |s.fileCh| < CAPACITY)
    case Work(i) =>
      i < |s.workers| &&
      (match s.workers[i]
       case Idle => |s.fileCh| > 0 || s.fileClosed
       case Sending(_, _, _) => s.matchClosed || |s.matchCh| < CAPACITY
       case Returned => false
       case _ => true)
    case Close => if s.matchClosed then !s.doneClosed else s.wg == 0
    case Collect(arm) =>
      s.collector.Collecting? &&
      (match arm
       case CtxArm => s.cancelled
       case ErrArm => s.errPending
       case MatchArm => |s.matchCh| > 0 || s.matchClosed
       case DoneChArm => s.doneClosed)
    case Cancel => !s.cancelled
  }

  function Step(s: State, a: Action): State
    requires Enabled(s, a)
  {
    match a
    case Walk => StepWalk(s)
    case Work(i) => StepWorker(s, i)
    case Close => if s.matchClosed then s.(doneClosed := true) else s.(matchClosed := true)
    case Collect(arm) =>
      (match arm
       case CtxArm => s.(collector := Exited(Cancelled))
       case ErrArm => s.(errPending := false, collector := Exited(Failed))
       case MatchArm =>
         if |s.matchCh| == 0 then s.(collector := Exited(Drained))
         else s.(matchCh := s.matchCh[1..], collected := s.collected + [s.matchCh[0]])
       case DoneChArm => s.(collector := Exited(DoneArm)))
    case Cancel => s.(cancelled := true)
  }

  /** One walk callback, or the deferred close of fileCh once the walk is over.  A walk error ends the walk. */
  function StepWalk(s: State): State
    requires Enabled(s, Walk)
  {
    if |s.walk| == 0 then s.(fileClosed := true)
    else if s.walk[0].WalkError? then BreakOff(s)
    else if IsSend(s.walk[0]) then Enqueue(s, s.walk[0].file)
    else s.(walk := s.walk[1..])
  }

  function BreakOff(s: State): State
    requires |s.walk| > 0
  {
    s.(walk := [], errPending := true, lostWalk := s.walk[1..], faulted := true)
  }

  function Enqueue(s: State, f: File): State
    requires |s.walk| > 0
  {
    s.(walk := s.walk[1..], fileCh := s.fileCh + [f])
  }

  function StepWorker(s: State, i: nat): State
    requires Enabled(s, Work(i))
  {
    match s.workers[i]
    case Idle => Receive(s, i)
    case Holding(f) => Open(s, i, f)
    case Scanning(path, docs, malformed) =>
      if |docs| > 0 then Decode(s, i, path, docs, malformed) else EndOfFile(s, i, malformed)
    case Sending(path, docs, malformed) => Send(s, i, path, docs, malformed)
  }

  /** `for path := range fileCh`: the next file, or the end of the loop once fileCh is closed and drained. */
  function Receive(s: State, i: nat): State
    requires i < |s.workers|
  {
    if |s.fileCh| > 0 then s.(workers := s.workers[i := Holding(s.fileCh[0])], fileCh := s.fileCh[1..])
    else s.(workers := s.workers[i := Returned], wg := s.wg - 1)
  }

  function Open(s: State, i: nat, f: File): State
    requires i < |s.workers|
  {
    if s.cancelled || !f.readable then
      s.(workers := s.workers[i := Returned], wg := s.wg - 1, errPending := s.errPending || !s.cancelled,
         lostFiles := s.lostFiles + [f], faulted := true)
    else s.(workers := s.workers[i := Scanning(f.path, f.docs, f.malformed)])
  }

  function Decode(s: State, i: nat, path: string, docs: seq<Doc>, malformed: bool): State
    requires i < |s.workers| && |docs| > 0
  {
    if Matches(docs[0], s.ref) then s.(workers := s.workers[i := Sending(path, docs[1..], malformed)])
    else s.(workers := s.workers[i := Scanning(path, docs[1..], malformed)])
  }

  function EndOfFile(s: State, i: nat, malformed: bool): State
    requires i < |s.workers|
  {
    if malformed then
      s.(workers := s.workers[i := Returned], wg := s.wg - 1, errPending := true, faulted := true)
    else s.(workers := s.workers[i := Idle])
  }

  function Send(s: State, i: nat, path: string, docs: seq<Doc>, malformed: bool): State
    requires i < |s.workers|
  {
    if s.matchClosed then s.(panicked := true)  // send on a closed channel
    else s.(workers := s.workers[i := Scanning(path, docs, malformed)], matchCh := s.matchCh + [path])
  }

  // ---- Runs -----------------------------------------------------------------------------------------------

  predicate IsRun(s: State, acts: seq<Action>)
    decreases |acts|
  {
    |acts| == 0 || (Enabled(s, acts[0]) && IsRun(Step(s, acts[0]), acts[1..]))
  }

  function After(s: State, acts: seq<Action>): State
    requires IsRun(s, acts)
    decreases |acts|
  {
    if |acts| == 0 then s else After(Step(s, acts[0]), acts[1..])
  }

  // ---- Quantities over the crew ---------------------------------------------------------------------------

  function WorkerHits(sel: Selection, w: Worker, ref: Ref): nat {
    match w
    case Holding(f) => Hits(sel, f.path, f.docs, ref)
    case Scanning(path, docs, _) => Hits(sel, path, docs, ref)
    case Sending(path, docs, _) => Weight(sel, path) + Hits(sel, path, docs, ref)
    case _ => 0
  }

  /** Sums over the first n workers. */
  function CrewHits(sel: Selection, ws: seq<Worker>, n: nat, ref: Ref): nat
    requires n <= |ws|
  {
    if n == 0 then 0 else CrewHits(sel, ws, n - 1, ref) + WorkerHits(sel, ws[n - 1], ref)
  }

  function Alive(ws: seq<Worker>, n: nat): nat
    requires n <= |ws|
  {
    if n == 0 then 0 else Alive(ws, n - 1) + Pending(ws[n - 1].Returned?)
  }

  function WorkerCost(w: Worker): nat {
    match w
    case Idle => 1
    case Holding(f) => 3 * |f.docs| + 3
    case Scanning(_, docs, _) => 3 * |docs| + 2
    case Sending(_, docs, _) => 3 * |docs| + 4
    case Returned => 0
  }

  function CrewCost(ws: seq<Worker>, n: nat): nat
    requires n <= |ws|
  {
    if n == 0 then 0 else CrewCost(ws, n - 1) + WorkerCost(ws[n - 1])
  }

  function QueueCost(files: seq<File>): nat {
    if |files| == 0 then 0 else 3 * |files[0].docs| + 3 + QueueCost(files[1..])
  }

  function WalkCost(walk: seq<Entry>): nat {
    if |walk| == 0 then 0
    else (if walk[0].Regular? then 3 * |walk[0].file.docs| + 4 else 1) + WalkCost(walk[1..])
  }

  function Pending(done: bool): nat { if done then 0 else 1 }

  /** What is left to do; every action lowers it. */
  function Measure(s: State): nat {
    WalkCost(s.walk) + QueueCost(s.fileCh) + CrewCost(s.workers, |s.workers|) + |s.matchCh| + Pending(s.fileClosed)
    + Pending(s.matchClosed) + Pending(s.doneClosed) + Pending(s.cancelled) + Pending(s.collector.Exited?)
    + Pending(s.panicked)
  }

  lemma {:induction false} CrewHitsUpdate(sel: Selection, ws: seq<Worker>, n: nat, i: nat, w: Worker, ref: Ref)
    requires i < |ws| && n <= |ws|
    ensures CrewHits(sel, ws[i := w], n, ref) + (if i < n then WorkerHits(sel, ws[i], ref) else 0)
            == CrewHits(sel, ws, n, ref) + (if i < n then WorkerHits(sel, w, ref) else 0)
  {
    if n > 0 {
      CrewHitsUpdate(sel, ws, n - 1, i, w, ref);
    }
  }

  lemma {:induction false} CrewCostUpdate(ws: seq<Worker>, n: nat, i: nat, w: Worker)
    requires i < |ws| && n <= |ws|
    ensures CrewCost(ws[i := w], n) + (if i < n then WorkerCost(ws[i]) else 0)
            == CrewCost(ws, n) + (if i < n then WorkerCost(w) else 0)
  {
    if n > 0 {
      CrewCostUpdate(ws, n - 1, i, w);
    }
  }

  lemma {:induction false} AliveUpdate(ws: seq<Worker>, n: nat, i: nat, w: Worker)
    requires i < |ws| && n <= |ws|
    ensures Alive(ws[i := w], n) + (if i < n then Pending(ws[i].Returned?) else 0)
            == Alive(ws, n) + (if i < n then Pending(w.Returned?) else 0)
  {
    if n > 0 {
      AliveUpdate(ws, n - 1, i, w);
    }
  }

  lemma {:induction false} QueueAppend(sel: Selection, files: seq<File>, f: File, ref: Ref)
    ensures QueueHits(sel, files + [f], ref) == QueueHits(sel, files, ref) + Hits(sel, f.path, f.docs, ref)
    ensures QueueCost(files + [f]) == QueueCost(files) + 3 * |f.docs| + 3
  {
    if |files| == 0 {
      assert QueueHits(sel, [f][1..], ref) == 0 && QueueCost([f][1..]) == 0;
      assert files + [f] == [f];
    } else {
      assert (files + [f])[1..] == files[1..] + [f];
      QueueAppend(sel, files[1..], f, ref);
    }
  }

  lemma {:induction false} CountConcat(sel: Selection, a: seq<string>, b: seq<string>)
    ensures Count(sel, a + b) == Count(sel, a) + Count(sel, b)
  {
    if |a| == 0 {
      assert a + b == b;
    } else {
      assert (a + b)[1..] == a[1..] + b;
      CountConcat(sel, a[1..], b);
    }
  }

  /** Count is the length, and the multiplicity of one path. */
  lemma {:induction false} CountMeaning(paths: seq<string>, p: string)
    ensures Count(Any, paths) == |paths|
    ensures Count(Only(p), paths) == multiset(paths)[p]
  {
    if |paths| > 0 {
      assert paths == [paths[0]] + paths[1..];
      CountMeaning(paths[1..], p);
    }
  }

  lemma {:induction false} FileMatchesCount(sel: Selection, path: string, docs: seq<Doc>, ref: Ref)
    ensures Count(sel, FileMatches(path, docs, ref)) == Hits(sel, path, docs, ref)
  {
    if |docs| > 0 {
      FileMatchesCount(sel, path, docs[1..], ref);
      if Matches(docs[0], ref) {
        CountConcat(sel, [path], FileMatches(path, docs[1..], ref));
        assert Count(sel, [path]) == Weight(sel, path) + Count(sel, [path][1..]);
      } else {
        assert FileMatches(path, docs, ref) == FileMatches(path, docs[1..], ref);
      }
    }
  }

  lemma {:induction false} ExpectedCount(sel: Selection, tree: seq<Entry>, ref: Ref)
    ensures Count(sel, Expected(tree, ref)) == WalkHits(sel, tree, ref)
  {
    if |tree| > 0 {
      ExpectedCount(sel, tree[1..], ref);
      if IsSend(tree[0]) {
        FileMatchesCount(sel, tree[0].file.path, tree[0].file.docs, ref);
        CountConcat(sel, FileMatches(tree[0].file.path, tree[0].file.docs, ref), Expected(tree[1..], ref));
      } else {
        assert Expected(tree, ref) == Expected(tree[1..], ref);
      }
    }
  }

  lemma {:induction false} NoneAlive(ws: seq<Worker>, n: nat)
    requires n <= |ws|
    ensures Alive(ws, n) == 0 <==> forall i | 0 <= i < n :: ws[i].Returned?
  {
    if n > 0 {
      NoneAlive(ws, n - 1);
    }
  }

  lemma {:induction false} NoHands(sel: Selection, ws: seq<Worker>, n: nat, ref: Ref)
    requires n <= |ws| && forall i | 0 <= i < n :: ws[i].Returned?
    ensures CrewHits(sel, ws, n, ref) == 0
  {
    if n > 0 {
      NoHands(sel, ws, n - 1, ref);
    }
  }

  lemma {:induction false} AllIdle(sel: Selection, ws: seq<Worker>, n: nat, ref: Ref)
    requires n <= |ws| && forall i | 0 <= i < n :: ws[i].Idle?
    ensures CrewHits(sel, ws, n, ref) == 0 && Alive(ws, n) == n
  {
    if n > 0 {
      AllIdle(sel, ws, n - 1, ref);
    }
  }

  // ---- The invariant --------------------------------------------------------------------------------------

  /** Unwalked + queued + in the workers' hands + buffered + collected + lost. */
  function Total(sel: Selection, s: State): nat {
    WalkHits(sel, s.walk, s.ref) + QueueHits(sel, s.fileCh, s.ref) + CrewHits(sel, s.workers, |s.workers|, s.ref)
    + Count(sel, s.matchCh) + Count(sel, s.collected)
    + QueueHits(sel, s.lostFiles, s.ref) + WalkHits(sel, s.lostWalk, s.ref)
  }

  predicate AllReturned(s: State) {
    forall i | 0 <= i < |s.workers| :: s.workers[i].Returned?
  }

  predicate Inv(s: State) {
    && !s.panicked
    && |s.workers| >= 1
    && |s.fileCh| <= CAPACITY && |s.matchCh| <= CAPACITY
    && s.wg == Alive(s.workers, |s.workers|) <= |s.workers|
    && (s.fileClosed ==> |s.walk| == 0)
    && (|s.lostWalk| > 0 ==> |s.walk| == 0)
    && (s.matchClosed ==> s.wg == 0)
    && (s.doneClosed ==> s.matchClosed)
    && (s.errPending ==> s.faulted)
    && (!s.faulted ==> |s.lostFiles| == 0 && |s.lostWalk| == 0)
    && (!s.faulted && s.wg < |s.workers| ==> s.fileClosed && |s.fileCh| == 0)
    && ExitInv(s)
  }

  predicate ExitInv(s: State) {
    match s.collector
    case Collecting => true
    case Exited(Cancelled) => s.cancelled
    case Exited(Failed) => s.faulted
    case Exited(Drained) => s.matchClosed && |s.matchCh| == 0
    case Exited(DoneArm) => s.doneClosed
  }

  lemma InitInv(sel: Selection, ref: Ref, tree: seq<Entry>, cpus: nat)
    requires cpus >= 1
    ensures Inv(Init(ref, tree, cpus)) && Total(sel, Init(ref, tree, cpus)) == WalkHits(sel, tree, ref)
  {
    AllIdle(sel, Init(ref, tree, cpus).workers, cpus, ref);
  }

  /** One step keeps the invariant, lowers the measure and conserves every count. */
  predicate Advances(sel: Selection, s: State, t: State) {
    Inv(t) && Measure(t) < Measure(s) && Total(sel, t) == Total(sel, s) && t.ref == s.ref
  }

  predicate SameCollector(s: State, t: State) {
    t.collected == s.collected && t.collector == s.collector
  }

  lemma CrewUpdate(sel: Selection, s: State, i: nat, w: Worker)
    requires i < |s.workers|
    ensures var ws := s.workers[i := w]; var n := |s.workers|;
            && CrewHits(sel, ws, n, s.ref) + WorkerHits(sel, s.workers[i], s.ref)
               == CrewHits(sel, s.workers, n, s.ref) + WorkerHits(sel, w, s.ref)
            && CrewCost(ws, n) + WorkerCost(s.workers[i]) == CrewCost(s.workers, n) + WorkerCost(w)
            && Alive(ws, n) + Pending(s.workers[i].Returned?) == Alive(s.workers, n) + Pending(w.Returned?)
  {
    CrewHitsUpdate(sel, s.workers, |s.workers|, i, w, s.ref);
    CrewCostUpdate(s.workers, |s.workers|, i, w);
    AliveUpdate(s.workers, |s.workers|, i, w);
  }

  /** A step that only changes what one running worker is doing. */
  lemma WorkerMovesOn(sel: Selection, s: State, i: nat, w: Worker)
    requires Inv(s) && i < |s.workers| && !s.workers[i].Returned? && !w.Returned?
    requires WorkerHits(sel, w, s.ref) == WorkerHits(sel, s.workers[i], s.ref)
    requires WorkerCost(w) < WorkerCost(s.workers[i])
    ensures Advances(sel, s, s.(workers := s.workers[i := w])) && SameCollector(s, s.(workers := s.workers[i := w]))
  {
    CrewUpdate(sel, s, i, w);
  }

  lemma ReceiveAdvances(sel: Selection, s: State, i: nat)
    requires Inv(s) && Enabled(s, Work(i)) && s.workers[i].Idle?
    ensures Advances(sel, s, Receive(s, i)) && SameCollector(s, Receive(s, i))
  {
    CrewUpdate(sel, s, i, if |s.fileCh| > 0 then Holding(s.fileCh[0]) else Returned);
  }

  lemma OpenAdvances(sel: Selection, s: State, i: nat, f: File)
    requires Inv(s) && Enabled(s, Work(i)) && s.workers[i] == Holding(f)
    ensures Advances(sel, s, Open(s, i, f)) && SameCollector(s, Open(s, i, f))
  {
    if s.cancelled || !f.readable {
      CrewUpdate(sel, s, i, Returned);
      QueueAppend(sel, s.lostFiles, f, s.ref);
    } else {
      WorkerMovesOn(sel, s, i, Scanning(f.path, f.docs, f.malformed));
    }
  }

  lemma DecodeAdvances(sel: Selection, s: State, i: nat, path: string, docs: seq<Doc>, malformed: bool)
    requires Inv(s) && Enabled(s, Work(i)) && s.workers[i] == Scanning(path, docs, malformed) && |docs| > 0
    ensures Advances(sel, s, Decode(s, i, path, docs, malformed))
    ensures SameCollector(s, Decode(s, i, path, docs, malformed))
  {
    if Matches(docs[0], s.ref) {
      WorkerMovesOn(sel, s, i, Sending(path, docs[1..], malformed));
    } else {
      WorkerMovesOn(sel, s, i, Scanning(path, docs[1..], malformed));
    }
  }

  lemma EndOfFileAdvances(sel: Selection, s: State, i: nat, path: string, malformed: bool)
    requires Inv(s) && Enabled(s, Work(i)) && s.workers[i] == Scanning(path, [], malformed)
    ensures Advances(sel, s, EndOfFile(s, i, malformed)) && SameCollector(s, EndOfFile(s, i, malformed))
  {
    CrewUpdate(sel, s, i, if malformed then Returned else Idle);
  }

  lemma SendAdvances(sel: Selection, s: State, i: nat, path: string, docs: seq<Doc>, malformed: bool)
    requires Inv(s) && Enabled(s, Work(i)) && s.workers[i] == Sending(path, docs, malformed)
    ensures Advances(sel, s, Send(s, i, path, docs, malformed)) && SameCollector(s, Send(s, i, path, docs, malformed))
  {
    CrewUpdate(sel, s, i, Returned);
    CrewUpdate(sel, s, i, Scanning(path, docs, malformed));
    CountConcat(sel, s.matchCh, [path]);
  }

  lemma BreakOffAdvances(sel: Selection, s: State)
    requires Inv(s) && Enabled(s, Walk) && |s.walk| > 0 && s.walk[0].WalkError?
    ensures Advances(sel, s, BreakOff(s))
  {
  }

  lemma EnqueueAdvances(sel: Selection, s: State, f: File)
    requires Inv(s) && Enabled(s, Walk) && |s.walk| > 0 && s.walk[0] == Regular(f) && IsSend(s.walk[0])
    ensures Advances(sel, s, Enqueue(s, f))
  {
    QueueAppend(sel, s.fileCh, f, s.ref);
  }

  lemma WalkAdvances(sel: Selection, s: State)
    requires Inv(s) && Enabled(s, Walk)
    ensures Advances(sel, s, StepWalk(s))
  {
    if |s.walk| > 0 && s.walk[0].WalkError? {
      BreakOffAdvances(sel, s);
    } else if |s.walk| > 0 && IsSend(s.walk[0]) {
      EnqueueAdvances(sel, s, s.walk[0].file);
    }
  }

  lemma CollectAdvances(sel: Selection, s: State, arm: Arm)
    requires Inv(s) && Enabled(s, Collect(arm))
    ensures Advances(sel, s, Step(s, Collect(arm)))
  {
    if arm.MatchArm? && |s.matchCh| > 0 {
      CountConcat(sel, s.collected, [s.matchCh[0]]);
    }
  }

  lemma FlagAdvances(sel: Selection, s: State, a: Action)
    requires Inv(s) && Enabled(s, a) && (a.Close? || a.Cancel?)
    ensures Advances(sel, s, Step(s, a))
  {
  }

  lemma WorkerAdvances(sel: Selection, s: State, i: nat)
    requires Inv(s) && Enabled(s, Work(i))
    ensures Advances(sel, s, StepWorker(s, i)) && SameCollector(s, StepWorker(s, i))
  {
    match s.workers[i]
    case Idle => ReceiveAdvances(sel, s, i);
    case Holding(f) => OpenAdvances(sel, s, i, f);
    case Scanning(path, docs, malformed) =>
      if |docs| > 0 {
        DecodeAdvances(sel, s, i, path, docs, malformed);
      } else {
        EndOfFileAdvances(sel, s, i, path, malformed);
      }
    case Sending(path, docs, malformed) => SendAdvances(sel, s, i, path, docs, malformed);
  }

  lemma StepAdvances(sel: Selection, s: State, a: Action)
    requires Inv(s) && Enabled(s, a)
    ensures Advances(sel, s, Step(s, a))
  {
    match a
    case Walk => WalkAdvances(sel, s);
    case Work(i) => WorkerAdvances(sel, s, i);
    case Collect(arm) => CollectAdvances(sel, s, arm);
    case _ => FlagAdvances(sel, s, a);
  }

  lemma {:induction false} RunInv(sel: Selection, s: State, acts: seq<Action>)
    requires Inv(s) && IsRun(s, acts)
    ensures var t := After(s, acts);
            Inv(t) && Total(sel, t) == Total(sel, s) && t.ref == s.ref && |acts| + Measure(t) <= Measure(s)
    decreases |acts|
  {
    if |acts| > 0 {
      StepAdvances(sel, s, acts[0]);
      RunInv(sel, Step(s, acts[0]), acts[1..]);
    }
  }

  // ---- Main results ---------------------------------------------------------------------------------------

  predicate NilExit(s: State) {
    s.collector == Exited(Drained) || s.collector == Exited(DoneArm)
  }

  /** Conservation in every reachable state: nothing is duplicated, and nothing vanishes without a fault. */
  lemma Conservation(sel: Selection, ref: Ref, tree: seq<Entry>, cpus: nat, acts: seq<Action>)
    requires cpus >= 1 && IsRun(Init(ref, tree, cpus), acts)
    ensures var s := After(Init(ref, tree, cpus), acts);
            Total(sel, s) == WalkHits(sel, tree, ref) && (!s.faulted ==> |s.lostFiles| == 0 && |s.lostWalk| == 0)
  {
    InitInv(sel, ref, tree, cpus);
    RunInv(sel, Init(ref, tree, cpus), acts);
  }

  /** matchCh is closed only after every worker has returned, fileCh only after the walk; no send ever panics. */
  lemma CloseOrder(ref: Ref, tree: seq<Entry>, cpus: nat, acts: seq<Action>)
    requires cpus >= 1 && IsRun(Init(ref, tree, cpus), acts)
    ensures var s := After(Init(ref, tree, cpus), acts);
            && !s.panicked
            && (s.matchClosed ==> AllReturned(s))
            && (s.fileClosed ==> |s.walk| == 0)
            && |s.fileCh| <= 100 && |s.matchCh| <= 100
  {
    InitInv(Any, ref, tree, cpus);
    RunInv(Any, Init(ref, tree, cpus), acts);
    var s := After(Init(ref, tree, cpus), acts);
    NoneAlive(s.workers, |s.workers|);
  }

  /** Without a fault the closed-matchCh exit reports exactly the matches, the done exit all but what is still
      buffered; and then no goroutine is left behind. */
  lemma FaultFreeExit(ref: Ref, tree: seq<Entry>, cpus: nat, acts: seq<Action>)
    requires cpus >= 1 && IsRun(Init(ref, tree, cpus), acts)
    requires var s := After(Init(ref, tree, cpus), acts); NilExit(s) && !s.faulted
    ensures var s := After(Init(ref, tree, cpus), acts);
            && multiset(s.collected) + multiset(s.matchCh) == multiset(Expected(tree, ref))
            && (s.collector == Exited(Drained) ==> multiset(s.collected) == multiset(Expected(tree, ref)))
            && AllReturned(s) && s.fileClosed && s.matchClosed
  {
    var s := After(Init(ref, tree, cpus), acts);
    InitInv(Any, ref, tree, cpus);
    RunInv(Any, Init(ref, tree, cpus), acts);
    NoneAlive(s.workers, |s.workers|);
    forall p: string
      ensures (multiset(s.collected) + multiset(s.matchCh))[p] == multiset(Expected(tree, ref))[p]
    {
      InitInv(Only(p), ref, tree, cpus);
      RunInv(Only(p), Init(ref, tree, cpus), acts);
      NoHands(Only(p), s.workers, |s.workers|, ref);
      ExpectedCount(Only(p), tree, ref);
      CountMeaning(s.collected, p);
      CountMeaning(s.matchCh, p);
      CountMeaning(Expected(tree, ref), p);
    }
  }

  /** As long as done is not closed and matchCh has room, someone other than the collector can move. */
  lemma HelperCanMove(s: State) returns (a: Action)
    requires Inv(s) && !s.doneClosed && |s.matchCh| < CAPACITY
    ensures Enabled(s, a) && !a.Collect? && !a.Cancel?
  {
    NoneAlive(s.workers, |s.workers|);
    if AllReturned(s) {
      a := Close;
    } else {
      var i: nat :| i < |s.workers| && !s.workers[i].Returned?;
      a := if s.workers[i].Idle? && |s.fileCh| == 0 && !s.fileClosed then Walk else Work(i);
    }
  }

  /** No deadlock before the collector returns, whoever has died; and every run is finite. */
  lemma Progress(ref: Ref, tree: seq<Entry>, cpus: nat, acts: seq<Action>)
    requires cpus >= 1 && IsRun(Init(ref, tree, cpus), acts)
    ensures var s := After(Init(ref, tree, cpus), acts);
            && |acts| + Measure(s) <= Measure(Init(ref, tree, cpus))
            && (s.collector.Collecting? ==> exists a :: Enabled(s, a) && !a.Cancel?)
  {
    InitInv(Any, ref, tree, cpus);
    RunInv(Any, Init(ref, tree, cpus), acts);
    var s := After(Init(ref, tree, cpus), acts);
    if s.collector.Collecting? {
      if s.doneClosed {
        assert Enabled(s, Collect(DoneChArm));
      } else if |s.matchCh| > 0 {
        assert Enabled(s, Collect(MatchArm));
      } else {
        var a := HelperCanMove(s);
      }
    }
  }

  /** A collector that receives only from a full matchCh ends on the done arm with a match missing. */
  lemma OnlyCollectorCollects(s: State, a: Action)
    requires Inv(s) && Enabled(s, a) && !a.Collect?
    ensures SameCollector(s, Step(s, a))
  {
    if a.Work? {
      WorkerAdvances(Any, s, a.i);
    }
  }

  lemma FullMatchChLeavesSome(s: State)
    requires Enabled(s, Collect(MatchArm)) && |s.matchCh| >= CAPACITY
    ensures var t := Step(s, Collect(MatchArm)); t.collector.Collecting? && |t.collected| < Total(Any, t)
  {
    var t := Step(s, Collect(MatchArm));
    CountMeaning(t.collected, "");
    CountMeaning(t.matchCh, "");
  }

  /** The adversary's next action: let the others run, and receive only from a full matchCh, which leaves 99 paths. */
  lemma LossyAction(s: State) returns (a: Action)
    requires Inv(s) && s.collector.Collecting? && !s.doneClosed && |s.collected| < Total(Any, s)
    ensures Enabled(s, a) && Step(s, a).collector.Collecting? && |Step(s, a).collected| < Total(Any, Step(s, a))
  {
    if |s.matchCh| < CAPACITY {
      a := HelperCanMove(s);
      StepAdvances(Any, s, a);
      OnlyCollectorCollects(s, a);
    } else {
      a := Collect(MatchArm);
      FullMatchChLeavesSome(s);
    }
  }

  /** Such a collector ends on the done arm with a match missing. */
  lemma {:induction false} LossySchedule(s: State) returns (acts: seq<Action>)
    requires Inv(s) && s.collector.Collecting? && |s.collected| < Total(Any, s)
    ensures IsRun(s, acts) && After(s, acts).collector == Exited(DoneArm) && |After(s, acts).collected| < Total(Any, s)
    decreases Measure(s)
  {
    if s.doneClosed {
      acts := [Collect(DoneChArm)];
      assert After(Step(s, acts[0]), acts[1..]) == Step(s, acts[0]);
    } else {
      var a := LossyAction(s);
      StepAdvances(Any, s, a);
      var rest := LossySchedule(Step(s, a));
      acts := [a] + rest;
      assert acts[1..] == rest;
    }
  }

  ghost predicate ReportsAll(ref: Ref, tree: seq<Entry>, cpus: nat) {
    forall acts: seq<Action> ::
      IsRun(Init(ref, tree, cpus), acts) && NilExit(After(Init(ref, tree, cpus), acts)) ==>
        multiset(After(Init(ref, tree, cpus), acts).collected) == multiset(Expected(tree, ref))
  }

  /** A nil-error return is complete on every schedule exactly when the tree holds no match at all: the done arm can
      always be taken with a match still buffered. */
  lemma CompleteIffNothingToFind(ref: Ref, tree: seq<Entry>, cpus: nat)
    requires cpus >= 1
    ensures ReportsAll(ref, tree, cpus) <==> Expected(tree, ref) == []
  {
    var init := Init(ref, tree, cpus);
    InitInv(Any, ref, tree, cpus);
    ExpectedCount(Any, tree, ref);
    CountMeaning(Expected(tree, ref), "");
    if Expected(tree, ref) == [] {
      forall acts: seq<Action> | IsRun(init, acts) && NilExit(After(init, acts))
        ensures multiset(After(init, acts).collected) == multiset(Expected(tree, ref))
      {
        RunInv(Any, init, acts);
        CountMeaning(After(init, acts).collected, "");
      }
    } else {
      var acts := LossySchedule(init);
      assert |multiset(After(init, acts).collected)| < |multiset(Expected(tree, ref))|;
    }
  }
}

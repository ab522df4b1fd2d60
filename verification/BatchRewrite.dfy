/** The concurrent update of all matched manifests: one goroutine per reported path, duplicates included, each of
    which reads its file, truncates it and writes it.  At most limit goroutines are between their first and their last
    step; where the code has no limit, the number of paths is one. */
module BatchRewrite {
  import opened ImageRewrite

  type Files = map<string, Content>

  /** Truncated: between os.WriteFile's truncation of the file and its write. */
  datatype Phase = Waiting | Loaded(content: Content) | Truncated(content: Content) | Finished(ok: bool)

  datatype Job = Job(path: string, phase: Phase)

  datatype State = State(files: Files, jobs: seq<Job>)

  /** The two images every job of a batch is given. */
  datatype Images = Images(checkpoint: string, original: string)

  const EMPTIED := Docs([])

  function Init(files: Files, matches: seq<string>): State {
    State(files, seq(|matches|, i requires 0 <= i < |matches| => Job(matches[i], Waiting)))
  }

  predicate InHand(phase: Phase) {
    phase.Loaded? || phase.Truncated?
  }

  function InFlight(jobs: seq<Job>, n: nat): nat
    requires n <= |jobs|
  {
    if n == 0 then 0 else InFlight(jobs, n - 1) + if InHand(jobs[n - 1].phase) then 1 else 0
  }

  predicate Enabled(s: State, i: nat, limit: nat) {
    i < |s.jobs| && !s.jobs[i].phase.Finished? && (s.jobs[i].phase.Waiting? ==> InFlight(s.jobs, |s.jobs|) < limit)
  }

  /** The next atomic step of goroutine i. */
  function Step(s: State, i: nat, img: Images): State
    requires i < |s.jobs| && !s.jobs[i].phase.Finished?
  {
    var job := s.jobs[i];
    match job.phase
    case Waiting =>
      if job.path in s.files then Becomes(s, i, Loaded(s.files[job.path])) else Becomes(s, i, Finished(false))
    case Loaded(content) =>
      (match UpdateOf(content, img.checkpoint, img.original)
       case Failed(_) => Becomes(s, i, Finished(false))
       case Skipped => Becomes(s, i, Finished(true))
       case Written(c) => Becomes(s.(files := s.files[job.path := EMPTIED]), i, Truncated(c)))
    case Truncated(c) => Becomes(s.(files := s.files[job.path := c]), i, Finished(true))
  }

  function Becomes(s: State, i: nat, phase: Phase): State
    requires i < |s.jobs|
  {
    s.(jobs := s.jobs[i := Job(s.jobs[i].path, phase)])
  }

  predicate IsRun(s: State, schedule: seq<nat>, img: Images, limit: nat)
    decreases |schedule|
  {
    |schedule| == 0 || (Enabled(s, schedule[0], limit) && IsRun(Step(s, schedule[0], img), schedule[1..], img, limit))
  }

  function After(s: State, schedule: seq<nat>, img: Images, limit: nat): State
    requires IsRun(s, schedule, img, limit)
    decreases |schedule|
  {
    if |schedule| == 0 then s else After(Step(s, schedule[0], img), schedule[1..], img, limit)
  }

  predicate AllFinished(s: State) {
    forall i | 0 <= i < |s.jobs| :: s.jobs[i].phase.Finished?
  }

  /** The schedule takes every goroutine to its end. */
  predicate IsComplete(files: Files, matches: seq<string>, schedule: seq<nat>, img: Images, limit: nat) {
    IsRun(Init(files, matches), schedule, img, limit) && AllFinished(After(Init(files, matches), schedule, img, limit))
  }

  // ---- Specification: each distinct path updated once -----------------------------------------------------

  function UpdateEach(files: Files, paths: set<string>, img: Images): Files {
    map p | p in files :: if p in paths then Updated(files[p], img.checkpoint, img.original) else files[p]
  }

  predicate Updatable(files: Files, path: string, img: Images) {
    path in files && !UpdateOf(files[path], img.checkpoint, img.original).Failed?
  }

  /** The first document of the file runs the original image, so that an update writes the file. */
  predicate Hot(files: Files, path: string, img: Images) {
    path in files && UpdateOf(files[path], img.checkpoint, img.original).Written?
  }

  /** Such a file was reported twice. */
  predicate HotDuplicate(files: Files, matches: seq<string>, img: Images) {
    exists i, j :: 0 <= i < j < |matches| && matches[i] == matches[j] && Hot(files, matches[i], img)
  }

  // ---- Invariant ------------------------------------------------------------------------------------------

  function Goal(start: Files, p: string, img: Images): Content
    requires p in start
  {
    Updated(start[p], img.checkpoint, img.original)
  }

  /** What a goroutine may find in a file. */
  predicate Seen(c: Content, start: Files, p: string, img: Images) {
    p in start && (c == start[p] || (Hot(start, p, img) && (c == Goal(start, p, img) || c == EMPTIED)))
  }

  predicate JobInv(job: Job, start: Files, img: Images) {
    match job.phase
    case Waiting => true
    case Loaded(c) => Seen(c, start, job.path, img)
    case Truncated(c) => Hot(start, job.path, img) && c == Goal(start, job.path, img)
    case Finished(ok) =>
      if ok then Updatable(start, job.path, img) else Updatable(start, job.path, img) ==> Hot(start, job.path, img)
  }

  /** No goroutine has got further with p than reading the original. */
  predicate Untouched(jobs: seq<Job>, p: string, original: Content) {
    forall i | 0 <= i < |jobs| && jobs[i].path == p :: jobs[i].phase == Waiting || jobs[i].phase == Loaded(original)
  }

  predicate BeingWritten(jobs: seq<Job>, p: string) {
    exists i :: 0 <= i < |jobs| && jobs[i].path == p && jobs[i].phase.Truncated?
  }

  /** A file is the original, its update, or empty while someone is about to write it. */
  predicate FileInv(s: State, p: string, start: Files, img: Images)
    requires p in start && p in s.files
  {
    if Hot(start, p, img) then
      || s.files[p] == Goal(start, p, img)
      || (s.files[p] == start[p] && Untouched(s.jobs, p, start[p]))
      || (s.files[p] == EMPTIED && BeingWritten(s.jobs, p))
    else s.files[p] == start[p]
  }

  ghost predicate Inv(s: State, start: Files, matches: seq<string>, img: Images) {
    && s.files.Keys == start.Keys
    && |s.jobs| == |matches|
    && (forall i | 0 <= i < |matches| :: s.jobs[i].path == matches[i] && JobInv(s.jobs[i], start, img))
    && (forall p | p in start :: FileInv(s, p, start, img) && (p !in matches ==> s.files[p] == start[p]))
  }

  /** The updated file leads to the same update and to the same verdict as the original, the empty one to an error. */
  lemma SeenUpdate(c: Content, start: Files, p: string, img: Images)
    requires Seen(c, start, p, img)
    ensures var u := UpdateOf(c, img.checkpoint, img.original);
            && (u.Failed? && Updatable(start, p, img) ==> Hot(start, p, img) && c == EMPTIED)
            && (!u.Failed? ==> Updatable(start, p, img))
            && (u.Written? ==> u.content == Goal(start, p, img) && Hot(start, p, img))
            && (u.Skipped? ==> c == Goal(start, p, img))
  {
    UpdatedTwice(start[p], img.checkpoint, img.original);
  }

  /** Goroutine i may step, and its own facts and those of its file hold. */
  predicate Ready(s: State, i: nat, start: Files, img: Images) {
    && i < |s.jobs| && !s.jobs[i].phase.Finished? && s.files.Keys == start.Keys && JobInv(s.jobs[i], start, img)
    && (s.jobs[i].path in start ==> FileInv(s, s.jobs[i].path, start, img))
  }

  lemma OwnStep(s: State, i: nat, start: Files, img: Images)
    requires i < |s.jobs| && !s.jobs[i].phase.Finished? && s.files.Keys == start.Keys && JobInv(s.jobs[i], start, img)
    requires s.jobs[i].path in start ==> Seen(s.files[s.jobs[i].path], start, s.jobs[i].path, img)
    ensures var t := Step(s, i, img); var p := s.jobs[i].path;
            && t.jobs == s.jobs[i := t.jobs[i]] && t.jobs[i].path == p && JobInv(t.jobs[i], start, img)
            && (if p in start then t.files == s.files[p := t.files[p]] else t.files == s.files)
  {
    if s.jobs[i].phase.Loaded? {
      SeenUpdate(s.jobs[i].phase.content, start, s.jobs[i].path, img);
    }
  }

  lemma OwnFile(s: State, i: nat, start: Files, img: Images)
    requires Ready(s, i, start, img) && s.jobs[i].path in start
    ensures var t := Step(s, i, img); s.jobs[i].path in t.files && FileInv(t, s.jobs[i].path, start, img)
  {
    var t, p := Step(s, i, img), s.jobs[i].path;
    if s.jobs[i].phase.Loaded? {
      SeenUpdate(s.jobs[i].phase.content, start, p, img);
    }
    if t.jobs[i].phase.Truncated? {
      assert BeingWritten(t.jobs, p);
    } else if Hot(start, p, img) && !s.jobs[i].phase.Truncated? && BeingWritten(s.jobs, p) {
      var j :| 0 <= j < |s.jobs| && s.jobs[j].path == p && s.jobs[j].phase.Truncated?;
      assert t.jobs[j] == s.jobs[j];
    }
  }

  lemma OtherFile(s: State, t: State, i: nat, p: string, start: Files, img: Images)
    requires p in start && p in s.files && p in t.files && FileInv(s, p, start, img)
    requires i < |s.jobs| && |t.jobs| == |s.jobs| && t.jobs == s.jobs[i := t.jobs[i]]
    requires t.jobs[i].path == s.jobs[i].path && s.jobs[i].path != p && t.files[p] == s.files[p]
    ensures FileInv(t, p, start, img)
  {
    if BeingWritten(s.jobs, p) {
      var j :| 0 <= j < |s.jobs| && s.jobs[j].path == p && s.jobs[j].phase.Truncated?;
      assert t.jobs[j] == s.jobs[j];
    }
  }

  lemma StepInv(s: State, i: nat, start: Files, matches: seq<string>, img: Images)
    requires Inv(s, start, matches, img) && i < |s.jobs| && !s.jobs[i].phase.Finished?
    ensures Inv(Step(s, i, img), start, matches, img)
  {
    var t := Step(s, i, img);
    assert s.jobs[i].path == matches[i];
    OwnStep(s, i, start, img);
    forall p | p in start ensures FileInv(t, p, start, img) {
      if p == s.jobs[i].path {
        OwnFile(s, i, start, img);
      } else {
        OtherFile(s, t, i, p, start, img);
      }
    }
  }

  lemma {:induction false} RunInv(s: State, schedule: seq<nat>, start: Files, matches: seq<string>, img: Images,
                                  limit: nat)
    requires Inv(s, start, matches, img) && IsRun(s, schedule, img, limit)
    ensures Inv(After(s, schedule, img, limit), start, matches, img)
    decreases |schedule|
  {
    if |schedule| > 0 {
      StepInv(s, schedule[0], start, matches, img);
      RunInv(Step(s, schedule[0], img), schedule[1..], start, matches, img, limit);
    }
  }

  // ---- The files ------------------------------------------------------------------------------------------

  lemma FinalFile(t: State, i: nat, start: Files, img: Images)
    requires AllFinished(t) && i < |t.jobs| && t.jobs[i].path in start && t.jobs[i].path in t.files
    requires FileInv(t, t.jobs[i].path, start, img)
    ensures t.files[t.jobs[i].path] == Goal(start, t.jobs[i].path, img)
  {
  }

  /** Confluence: when all goroutines are done, the files are those obtained by updating each distinct path once,
      whatever the interleaving; and no path that cannot be updated goes unreported. */
  lemma Confluence(files: Files, matches: seq<string>, schedule: seq<nat>, img: Images, limit: nat)
    requires IsComplete(files, matches, schedule, img, limit)
    ensures var t := After(Init(files, matches), schedule, img, limit);
            && t.files == UpdateEach(files, (set p | p in matches), img)
            && |t.jobs| == |matches|
            && forall i | 0 <= i < |matches| && !Updatable(files, matches[i], img) :: t.jobs[i].phase == Finished(false)
  {
    RunInv(Init(files, matches), schedule, files, matches, img, limit);
    var t := After(Init(files, matches), schedule, img, limit);
    forall p | p in files
      ensures t.files[p] == if p in matches then Goal(files, p, img) else files[p]
    {
      if p in matches {
        var i :| 0 <= i < |matches| && matches[i] == p;
        assert t.jobs[i].path == p;
        FinalFile(t, i, files, img);
      }
    }
  }

  /** Order and multiplicity of the reported paths do not matter for the files. */
  lemma DuplicatesAreHarmless(files: Files, m1: seq<string>, s1: seq<nat>, m2: seq<string>, s2: seq<nat>, img: Images,
                              limit: nat)
    requires forall p :: p in m1 <==> p in m2
    requires IsComplete(files, m1, s1, img, limit) && IsComplete(files, m2, s2, img, limit)
    ensures After(Init(files, m1), s1, img, limit).files == After(Init(files, m2), s2, img, limit).files
  {
    Confluence(files, m1, s1, img, limit);
    Confluence(files, m2, s2, img, limit);
    assert (set p | p in m1) == (set p | p in m2);
  }
}

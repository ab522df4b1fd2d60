/** Which paths the concurrent update reports as failed.  A goroutine that reads a file another one has just truncated
    finds it empty and fails, although the manifest could be updated. */
module BatchVerdicts {
  import opened ImageRewrite
  import opened BatchRewrite

  /** Goroutine i succeeds exactly if its path can be updated. */
  predicate VerdictExact(job: Job, start: Files, img: Images) {
    match job.phase
    case Loaded(c) => Updatable(start, job.path, img) ==> !UpdateOf(c, img.checkpoint, img.original).Failed?
    case Finished(ok) => ok <==> Updatable(start, job.path, img)
    case _ => true
  }

  predicate VerdictsExact(jobs: seq<Job>, start: Files, img: Images) {
    forall i | 0 <= i < |jobs| :: VerdictExact(jobs[i], start, img)
  }

  // ---- Without two updates of one file at once ------------------------------------------------------------

  lemma {:induction false} NoneInFlight(jobs: seq<Job>, n: nat)
    requires n <= |jobs|
    ensures InFlight(jobs, n) == 0 <==> forall i | 0 <= i < n :: !InHand(jobs[i].phase)
  {
    if n > 0 {
      NoneInFlight(jobs, n - 1);
    }
  }

  /** No two updates of one file that is to be written are ever at work at the same time: no such file was reported
      twice, or only one update is at work at once. */
  predicate OneWriterEach(start: Files, matches: seq<string>, img: Images, limit: nat) {
    limit == 1 || !HotDuplicate(start, matches, img)
  }

  /** A file someone else is about to write was reported twice. */
  lemma WrittenByAnother(s: State, i: nat, start: Files, matches: seq<string>, img: Images)
    requires Inv(s, start, matches, img) && i < |s.jobs| && s.jobs[i].phase.Waiting?
    requires Hot(start, s.jobs[i].path, img) && BeingWritten(s.jobs, s.jobs[i].path)
    ensures HotDuplicate(start, matches, img)
  {
    var j :| 0 <= j < |s.jobs| && s.jobs[j].path == s.jobs[i].path && s.jobs[j].phase.Truncated?;
    assert matches[i] == s.jobs[i].path && matches[j] == s.jobs[j].path && j != i;
  }

  lemma WriterAtWork(jobs: seq<Job>, p: string)
    requires BeingWritten(jobs, p)
    ensures InFlight(jobs, |jobs|) > 0
  {
    NoneInFlight(jobs, |jobs|);
    var j :| 0 <= j < |jobs| && jobs[j].path == p && jobs[j].phase.Truncated?;
    assert InHand(jobs[j].phase);
  }

  /** Whoever begins to read a file that is to be written finds nobody else writing it. */
  lemma NotBeingWritten(s: State, i: nat, start: Files, matches: seq<string>, img: Images, limit: nat)
    requires Inv(s, start, matches, img) && OneWriterEach(start, matches, img, limit)
    requires Enabled(s, i, limit) && s.jobs[i].phase.Waiting? && Hot(start, s.jobs[i].path, img)
    ensures !BeingWritten(s.jobs, s.jobs[i].path)
  {
    if BeingWritten(s.jobs, s.jobs[i].path) {
      WriterAtWork(s.jobs, s.jobs[i].path);
      WrittenByAnother(s, i, start, matches, img);
    }
  }

  lemma ReadsGood(s: State, i: nat, start: Files, matches: seq<string>, img: Images, limit: nat)
    requires Inv(s, start, matches, img) && OneWriterEach(start, matches, img, limit)
    requires Enabled(s, i, limit) && s.jobs[i].phase.Waiting? && s.jobs[i].path in start
    requires Updatable(start, s.jobs[i].path, img)
    ensures !UpdateOf(s.files[s.jobs[i].path], img.checkpoint, img.original).Failed?
  {
    var p := s.jobs[i].path;
    assert p == matches[i] && FileInv(s, p, start, img);
    if Hot(start, p, img) {
      NotBeingWritten(s, i, start, matches, img, limit);
      SeenUpdate(Goal(start, p, img), start, p, img);
      GoalNotEmpty(start, p, img);
    }
  }

  lemma GoalNotEmpty(start: Files, p: string, img: Images)
    requires Hot(start, p, img)
    ensures Goal(start, p, img) != EMPTIED
  {
  }

  lemma VerdictStep(s: State, i: nat, start: Files, matches: seq<string>, img: Images, limit: nat)
    requires Inv(s, start, matches, img) && OneWriterEach(start, matches, img, limit)
    requires VerdictsExact(s.jobs, start, img) && Enabled(s, i, limit)
    ensures VerdictsExact(Step(s, i, img).jobs, start, img)
  {
    var t := Step(s, i, img);
    assert s.jobs[i].path == matches[i] && JobInv(s.jobs[i], start, img) && VerdictExact(s.jobs[i], start, img);
    match s.jobs[i].phase
    case Waiting =>
      if s.jobs[i].path in start && Updatable(start, s.jobs[i].path, img) {
        ReadsGood(s, i, start, matches, img, limit);
      }
    case Loaded(c) => SeenUpdate(c, start, s.jobs[i].path, img);
    case _ =>
  }

  lemma {:induction false} VerdictRun(s: State, schedule: seq<nat>, start: Files, matches: seq<string>, img: Images,
                                      limit: nat)
    requires Inv(s, start, matches, img) && OneWriterEach(start, matches, img, limit)
    requires VerdictsExact(s.jobs, start, img) && IsRun(s, schedule, img, limit)
    ensures VerdictsExact(After(s, schedule, img, limit).jobs, start, img)
    decreases |schedule|
  {
    if |schedule| > 0 {
      StepInv(s, schedule[0], start, matches, img);
      VerdictStep(s, schedule[0], start, matches, img, limit);
      VerdictRun(Step(s, schedule[0], img), schedule[1..], start, matches, img, limit);
    }
  }

  /** The other half of confluence: with one writer for each file, exactly the paths that cannot be updated report an
      error. */
  lemma OnlyBadPathsFail(files: Files, matches: seq<string>, schedule: seq<nat>, img: Images, limit: nat)
    requires IsComplete(files, matches, schedule, img, limit) && OneWriterEach(files, matches, img, limit)
    ensures var t := After(Init(files, matches), schedule, img, limit);
            |t.jobs| == |matches|
            && forall i | 0 <= i < |matches| ::
                 t.jobs[i] == Job(matches[i], Finished(Updatable(files, matches[i], img)))
  {
    RunInv(Init(files, matches), schedule, files, matches, img, limit);
    VerdictRun(Init(files, matches), schedule, files, matches, img, limit);
  }

  // ---- Running on to the end ------------------------------------------------------------------------------

  function PhaseCost(phase: Phase): nat {
    match phase
    case Waiting => 3
    case Loaded(_) => 2
    case Truncated(_) => 1
    case Finished(_) => 0
  }

  function Cost(jobs: seq<Job>, n: nat): nat
    requires n <= |jobs|
  {
    if n == 0 then 0 else Cost(jobs, n - 1) + PhaseCost(jobs[n - 1].phase)
  }

  lemma {:induction false} SumsUpdate(jobs: seq<Job>, n: nat, i: nat, job: Job)
    requires i < |jobs| && n <= |jobs|
    ensures Cost(jobs[i := job], n) + (if i < n then PhaseCost(jobs[i].phase) else 0)
            == Cost(jobs, n) + (if i < n then PhaseCost(job.phase) else 0)
    ensures InFlight(jobs[i := job], n) + (if i < n && InHand(jobs[i].phase) then 1 else 0)
            == InFlight(jobs, n) + (if i < n && InHand(job.phase) then 1 else 0)
  {
    if n > 0 {
      SumsUpdate(jobs, n - 1, i, job);
    }
  }

  lemma StepAtWork(s: State, i: nat, img: Images, limit: nat)
    requires Enabled(s, i, limit) && InFlight(s.jobs, |s.jobs|) <= limit
    ensures var t := Step(s, i, img); |t.jobs| == |s.jobs| && InFlight(t.jobs, |t.jobs|) <= limit
  {
    var t := Step(s, i, img);
    SumsUpdate(s.jobs, |s.jobs|, i, t.jobs[i]);
    assert t.jobs == s.jobs[i := t.jobs[i]];
  }

  lemma {:induction false} RunAtWork(s: State, schedule: seq<nat>, img: Images, limit: nat)
    requires IsRun(s, schedule, img, limit) && InFlight(s.jobs, |s.jobs|) <= limit
    ensures var t := After(s, schedule, img, limit); InFlight(t.jobs, |t.jobs|) <= limit
    decreases |schedule|
  {
    if |schedule| > 0 {
      StepAtWork(s, schedule[0], img, limit);
      RunAtWork(Step(s, schedule[0], img), schedule[1..], img, limit);
    }
  }

  /** In every state of a batch at most limit updates are between their first and their last step. */
  lemma AtMostAtWork(files: Files, matches: seq<string>, schedule: seq<nat>, img: Images, limit: nat)
    requires IsRun(Init(files, matches), schedule, img, limit)
    ensures var t := After(Init(files, matches), schedule, img, limit); InFlight(t.jobs, |t.jobs|) <= limit
  {
    NoneInFlight(Init(files, matches).jobs, |matches|);
    RunAtWork(Init(files, matches), schedule, img, limit);
  }

  /** As long as a goroutine has not finished, one can move. */
  lemma SomeoneCanMove(s: State, limit: nat) returns (i: nat)
    requires limit >= 1 && !AllFinished(s)
    ensures Enabled(s, i, limit)
  {
    NoneInFlight(s.jobs, |s.jobs|);
    if j: nat :| j < |s.jobs| && InHand(s.jobs[j].phase) {
      i := j;
    } else {
      i :| i < |s.jobs| && !s.jobs[i].phase.Finished?;
    }
  }

  predicate Ended(s: State, k: nat, ok: bool) {
    k < |s.jobs| && s.jobs[k].phase == Finished(ok)
  }

  /** Every state can be run to completion, and a verdict once given stays. */
  lemma {:induction false} RunToEnd(s: State, img: Images, limit: nat) returns (schedule: seq<nat>)
    requires limit >= 1
    ensures IsRun(s, schedule, img, limit) && AllFinished(After(s, schedule, img, limit))
    ensures forall k, ok | Ended(s, k, ok) :: Ended(After(s, schedule, img, limit), k, ok)
    decreases Cost(s.jobs, |s.jobs|)
  {
    if AllFinished(s) {
      schedule := [];
    } else {
      var i := SomeoneCanMove(s, limit);
      var t := Step(s, i, img);
      SumsUpdate(s.jobs, |s.jobs|, i, t.jobs[i]);
      assert t.jobs == s.jobs[i := t.jobs[i]];
      var rest := RunToEnd(t, img, limit);
      schedule := [i] + rest;
      assert schedule[1..] == rest;
      assert forall k, ok | Ended(s, k, ok) :: Ended(t, k, ok);
    }
  }

  lemma Prepend(s: State, i: nat, rest: seq<nat>, img: Images, limit: nat)
    requires Enabled(s, i, limit) && IsRun(Step(s, i, img), rest, img, limit)
    ensures IsRun(s, [i] + rest, img, limit)
    ensures After(s, [i] + rest, img, limit) == After(Step(s, i, img), rest, img, limit)
  {
  }

  // ---- With a hot duplicate -------------------------------------------------------------------------------

  /** Job i reads and truncates; job j reads the empty file and fails; i writes. */
  lemma FailingSchedule(files: Files, matches: seq<string>, i: nat, j: nat, img: Images, limit: nat)
    returns (schedule: seq<nat>)
    requires limit >= 2 && i < j < |matches| && matches[i] == matches[j] && Hot(files, matches[i], img)
    ensures IsComplete(files, matches, schedule, img, limit)
    ensures Ended(After(Init(files, matches), schedule, img, limit), j, false)
  {
    var p := matches[i];
    var u := UpdateOf(files[p], img.checkpoint, img.original).content;
    var s0 := Init(files, matches);
    var s1 := Becomes(s0, i, Loaded(files[p]));
    var s2 := Becomes(s1.(files := files[p := EMPTIED]), i, Truncated(u));
    var s3 := Becomes(s2, j, Loaded(EMPTIED));
    var s4 := Becomes(s3, j, Finished(false));
    NoneInFlight(s0.jobs, |matches|);
    SumsUpdate(s0.jobs, |matches|, i, s1.jobs[i]);
    SumsUpdate(s1.jobs, |matches|, i, s2.jobs[i]);
    assert InFlight(s0.jobs, |matches|) == 0 && InFlight(s2.jobs, |matches|) == 1;
    assert Step(s0, i, img) == s1;
    assert Step(s1, i, img) == s2;
    assert Step(s2, j, img) == s3;
    assert Step(s3, j, img) == s4;
    assert Ended(s4, j, false);
    var rest := RunToEnd(s4, img, limit);
    Prepend(s3, j, rest, img, limit);
    Prepend(s2, j, [j] + rest, img, limit);
    Prepend(s1, i, [j] + ([j] + rest), img, limit);
    Prepend(s0, i, [i] + ([j] + ([j] + rest)), img, limit);
    schedule := [i] + ([i] + ([j] + ([j] + rest)));
  }

  /** On no schedule does a path that can be updated report an error. */
  ghost predicate NoSpuriousError(files: Files, matches: seq<string>, img: Images, limit: nat) {
    forall schedule, i: nat |
      IsComplete(files, matches, schedule, img, limit) && i < |matches| && Updatable(files, matches[i], img) ::
      Ended(After(Init(files, matches), schedule, img, limit), i, true)
  }

  /** Exactly the lists in which no file that is to be written occurs twice are safe from spurious errors, unless the
      updates are done one at a time. */
  lemma NoSpuriousErrorIff(files: Files, matches: seq<string>, img: Images, limit: nat)
    requires limit >= 1
    ensures NoSpuriousError(files, matches, img, limit) <==> limit == 1 || !HotDuplicate(files, matches, img)
  {
    if OneWriterEach(files, matches, img, limit) {
      forall schedule, i: nat |
        IsComplete(files, matches, schedule, img, limit) && i < |matches| && Updatable(files, matches[i], img)
        ensures Ended(After(Init(files, matches), schedule, img, limit), i, true)
      {
        OnlyBadPathsFail(files, matches, schedule, img, limit);
      }
    } else {
      var i: nat, j: nat :| i < j < |matches| && matches[i] == matches[j] && Hot(files, matches[i], img);
      var schedule := FailingSchedule(files, matches, i, j, img, limit);
      assert Updatable(files, matches[j], img) && !Ended(After(Init(files, matches), schedule, img, limit), j, true);
    }
  }
}

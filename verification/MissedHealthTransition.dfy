/** TransitionOnMissedNodeHealth: the ordered external effects of one transition and the record it leaves. */
module MissedHealthTransition {
  import opened TransitionLog
  import opened ImageRewrite
  import opened BatchRewrite
  import opened BatchVerdicts
  import C = CheckpointRun
  import opened Wrappers

  datatype PackageType = Stateful | Stateless | UnknownType

  /** A backup entry; for a scheduled one the result of fetching the checkpoint it stands for. */
  datatype Backup = Manual | Unfetchable | Scheduled(checkpoint: C.Status)

  datatype Package = Package(name: string, packageType: PackageType, backups: seq<Backup>)

  const UPDATE_LIMIT: nat := 2  // manifest updates at work at once

  /** The cloned source repository, the scan's result, and how the update goroutines are interleaved. */
  datatype Clone = CloneFailed | Clone(files: Files, matches: seq<string>, schedule: seq<nat>)

  /** What the external calls return; prepared covers the clients, repositories and target looked up first. */
  datatype Externals = Externals(prepared: bool, clone: Clone, credentials: bool, pushes: bool, appPushes: bool,
                                 syncs: bool, now: int)

  datatype Effect =
    | Cloned
    | Rewritten(files: Files, ok: bool)
    | Pushed(files: Files)
    | PushFailed
    | AppPushed(ok: bool)
    | Synced(ok: bool)
    | Recorded(record: Record)

  // ---- Specification --------------------------------------------------------------------------------------

  datatype Pick = Abort | Missing | Found(checkpoint: C.Status)

  /** The associated checkpoint after the first n backup entries: the last scheduled one wins, any failure aborts. */
  function Associated(backups: seq<Backup>, n: nat): (pick: Pick)
    requires n <= |backups|
    ensures pick.Found? ==> pick.checkpoint.lastCheckpointImage != ""
  {
    if n == 0 then Missing
    else
      var before := Associated(backups, n - 1);
      if before.Abort? || backups[n - 1].Manual? then before
      else if backups[n - 1].Unfetchable? || backups[n - 1].checkpoint.lastCheckpointImage == "" then Abort
      else Found(backups[n - 1].checkpoint)
  }

  /** A scheduled entry whose checkpoint was fetched and has an image. */
  predicate Usable(b: Backup) {
    b.Scheduled? && b.checkpoint.lastCheckpointImage != ""
  }

  predicate LastScheduled(backups: seq<Backup>, n: nat, i: int)
    requires n <= |backups|
  {
    0 <= i < n && !backups[i].Manual? && forall j | i < j < n :: backups[j].Manual?
  }

  /** A checkpoint is found exactly if there is a scheduled entry and all of them could be fetched with an image; it is
      then the last one's.  It is missing exactly if no entry is scheduled. */
  lemma {:induction false} AssociatedMeaning(backups: seq<Backup>, n: nat)
    requires n <= |backups|
    ensures var pick := Associated(backups, n);
            && (pick.Missing? <==> forall i | 0 <= i < n :: backups[i].Manual?)
            && (pick.Abort? <==> exists i :: 0 <= i < n && !backups[i].Manual? && !Usable(backups[i]))
            && forall i | LastScheduled(backups, n, i) && !pick.Abort? ::
                 Usable(backups[i]) && pick == Found(backups[i].checkpoint)
  {
    if n > 0 {
      AssociatedMeaning(backups, n - 1);
    }
  }

  function ImagesOf(checkpoint: C.Status): Images {
    Images(checkpoint.lastCheckpointImage, checkpoint.originalImage)
  }

  /** The update goroutines run to completion under the given schedule. */
  predicate CompleteSchedule(clone: Clone, img: Images) {
    clone.Clone? ==> IsComplete(clone.files, clone.matches, clone.schedule, img, UPDATE_LIMIT)
  }

  predicate Proper(pkg: Package, x: Externals) {
    var pick := Associated(pkg.backups, |pkg.backups|);
    pkg.packageType.Stateful? && pick.Found? ==> CompleteSchedule(x.clone, ImagesOf(pick.checkpoint))
  }

  function Finale(pkg: Package, x: Externals): seq<Effect> {
    if !x.appPushes then [AppPushed(false), Recorded(Record([pkg.name], x.now, FAILED))]
    else [AppPushed(true), Synced(x.syncs), Recorded(Record([pkg.name], x.now, COMPLETED))]
  }

  function CommitTrace(pkg: Package, x: Externals, files: Files): seq<Effect> {
    if !x.credentials then []
    else if !x.pushes then [PushFailed]
    else [Pushed(files)] + Finale(pkg, x)
  }

  function StatefulTrace(pkg: Package, x: Externals, checkpoint: C.Status): seq<Effect>
    requires CompleteSchedule(x.clone, ImagesOf(checkpoint))
  {
    if x.clone.CloneFailed? then []
    else if |x.clone.matches| == 0 then [Cloned]
    else
      var start := BatchRewrite.Init(x.clone.files, x.clone.matches);
      var t := After(start, x.clone.schedule, ImagesOf(checkpoint), UPDATE_LIMIT);
      var ok := forall i | 0 <= i < |t.jobs| :: t.jobs[i].phase == Finished(true);
      [Cloned, Rewritten(t.files, ok)] + if ok then CommitTrace(pkg, x, t.files) else []
  }

  /** The effects of one call, in order. */
  function Trace(pkg: Package, x: Externals): seq<Effect>
    requires Proper(pkg, x)
  {
    if !x.prepared then []
    else
      match pkg.packageType
      case Stateful =>
        (match Associated(pkg.backups, |pkg.backups|)
         case Found(checkpoint) => StatefulTrace(pkg, x, checkpoint)
         case _ => [])
      case Stateless => Finale(pkg, x)
      case UnknownType => []
  }

  function Records(effects: seq<Effect>): Log {
    if |effects| == 0 then []
    else
      var last := effects[|effects| - 1];
      Records(effects[..|effects| - 1]) + (if last.Recorded? then [last.record] else [])
  }

  // ---- The code -------------------------------------------------------------------------------------------

  class PolicyTransition {
    var log: Log               // clusterPolicy.Status.TransitionedPackages
    var effects: seq<Effect>   // history of the external effects

    constructor (log: Log)
      ensures this.log == log && effects == []
    {
      this.log := log;
      effects := [];
    }

    method Perform(e: Effect)
      modifies this`effects
      ensures effects == old(effects) + [e]
    {
      effects := effects + [e];
    }

    method UpdateClusterPolicyStatus(name: string, now: int, condition: Condition)
      modifies this
      ensures log == old(log) + [Record([name], now, condition)]
      ensures effects == old(effects) + [Recorded(Record([name], now, condition))]
    {
      log := log + [Record([name], now, condition)];
      Perform(Recorded(Record([name], now, condition)));
    }

    method PushAppAndRecord(pkg: Package, x: Externals)
      modifies this
      ensures effects == old(effects) + Finale(pkg, x)
      ensures log == old(log) + [Record([pkg.name], x.now, if x.appPushes then COMPLETED else FAILED)]
    {
      Perform(AppPushed(x.appPushes));
      if !x.appPushes {
        UpdateClusterPolicyStatus(pkg.name, x.now, FAILED);
        return;
      }
      Perform(Synced(x.syncs));  // a failing sync only changes the message
      UpdateClusterPolicyStatus(pkg.name, x.now, COMPLETED);
    }

    method FindCheckpoint(backups: seq<Backup>) returns (pick: Pick)
      ensures pick == Associated(backups, |backups|)
    {
      pick := Missing;
      var i := 0;
      while i < |backups|
        invariant 0 <= i <= |backups| && pick == Associated(backups, i) && !pick.Abort?
      {
        if !backups[i].Manual? {
          if backups[i].Unfetchable? || backups[i].checkpoint.lastCheckpointImage == "" {
            AbortStays(backups, i + 1, |backups|);
            return Abort;
          }
          pick := Found(backups[i].checkpoint);
        }
        i := i + 1;
      }
    }

    method TransitionStateful(pkg: Package, x: Externals, checkpoint: C.Status)
      requires CompleteSchedule(x.clone, ImagesOf(checkpoint))
      modifies this
      ensures effects == old(effects) + StatefulTrace(pkg, x, checkpoint)
      ensures log == old(log) + if |StatefulTrace(pkg, x, checkpoint)| > 3 then Records(Finale(pkg, x)) else []
    {
      if x.clone.CloneFailed? { return; }
      Perform(Cloned);
      if |x.clone.matches| == 0 { return; }
      UpdateAndCommit(pkg, x, checkpoint);
    }

    /** One goroutine per match; after all of them, the first reported error ends the transition. */
    method UpdateAndCommit(pkg: Package, x: Externals, checkpoint: C.Status)
      requires CompleteSchedule(x.clone, ImagesOf(checkpoint)) && x.clone.Clone? && |x.clone.matches| > 0
      modifies this
      ensures effects == old(effects) + StatefulTrace(pkg, x, checkpoint)[1..]
      ensures log == old(log) + if |StatefulTrace(pkg, x, checkpoint)| > 3 then Records(Finale(pkg, x)) else []
    {
      var start := BatchRewrite.Init(x.clone.files, x.clone.matches);
      var t := After(start, x.clone.schedule, ImagesOf(checkpoint), UPDATE_LIMIT);
      var ok := forall i | 0 <= i < |t.jobs| :: t.jobs[i].phase == Finished(true);
      Perform(Rewritten(t.files, ok));
      if !ok { return; }
      Commit(pkg, x, t.files);
    }

    /** The steps from the commit on. */
    method Commit(pkg: Package, x: Externals, files: Files)
      modifies this
      ensures effects == old(effects) + CommitTrace(pkg, x, files)
      ensures log == old(log) + if x.credentials && x.pushes then Records(Finale(pkg, x)) else []
    {
      RecordsOfFinale(pkg, x);
      if !x.credentials { return; }
      if !x.pushes { Perform(PushFailed); return; }
      Perform(Pushed(files));
      PushAppAndRecord(pkg, x);
      assert effects == old(effects) + ([Pushed(files)] + Finale(pkg, x));
    }

    method TransitionOnMissedNodeHealth(pkg: Package, x: Externals)
      requires Proper(pkg, x)
      modifies this
      ensures effects == old(effects) + Trace(pkg, x)
      ensures log == old(log) + Records(Trace(pkg, x))
    {
      RecordsOfFinale(pkg, x);
      if !x.prepared { return; }
      match pkg.packageType
      case Stateful =>
        var pick := FindCheckpoint(pkg.backups);
        if pick.Found? {
          StatefulRecords(pkg, x, pick.checkpoint);
          TransitionStateful(pkg, x, pick.checkpoint);
        }
      case Stateless => PushAppAndRecord(pkg, x);
      case UnknownType =>
    }
  }

  lemma {:induction false} AbortStays(backups: seq<Backup>, k: nat, n: nat)
    requires k <= n <= |backups| && Associated(backups, k).Abort?
    ensures Associated(backups, n).Abort?
  {
    if k < n {
      AbortStays(backups, k, n - 1);
    }
  }

  lemma RecordsAppend(effects: seq<Effect>, e: Effect)
    ensures Records(effects + [e]) == Records(effects) + if e.Recorded? then [e.record] else []
  {
  }

  lemma RecordsOfFinale(pkg: Package, x: Externals)
    ensures Records(Finale(pkg, x)) == [Record([pkg.name], x.now, if x.appPushes then COMPLETED else FAILED)]
  {
    var r := Recorded(Record([pkg.name], x.now, if x.appPushes then COMPLETED else FAILED));
    RecordsAppend([], AppPushed(x.appPushes));
    RecordsAppend([AppPushed(true)], Synced(x.syncs));
    RecordsAppend([AppPushed(false)], r);
    RecordsAppend([AppPushed(true), Synced(x.syncs)], r);
    assert [] + [AppPushed(x.appPushes)] == [AppPushed(x.appPushes)];
    assert [AppPushed(true)] + [Synced(x.syncs)] == [AppPushed(true), Synced(x.syncs)];
    assert Finale(pkg, x) == (if x.appPushes then [AppPushed(true), Synced(x.syncs)] else [AppPushed(false)]) + [r];
  }

  lemma {:induction false} NoRecords(effects: seq<Effect>)
    requires forall i | 0 <= i < |effects| :: !effects[i].Recorded?
    ensures Records(effects) == []
  {
    if |effects| > 0 {
      NoRecords(effects[..|effects| - 1]);
    }
  }

  lemma {:induction false} RecordsConcat(a: seq<Effect>, b: seq<Effect>)
    ensures Records(a + b) == Records(a) + Records(b)
  {
    if |b| == 0 {
      assert a + b == a;
    } else {
      var c := b[..|b| - 1];
      RecordsConcat(a, c);
      RecordsAppend(a + c, b[|b| - 1]);
      assert a + b == (a + c) + [b[|b| - 1]];
    }
  }

  lemma StatefulRecords(pkg: Package, x: Externals, checkpoint: C.Status)
    requires CompleteSchedule(x.clone, ImagesOf(checkpoint))
    ensures var trace := StatefulTrace(pkg, x, checkpoint);
            && |Records(trace)| <= 1
            && Records(trace) == (if |trace| > 3 then Records(Finale(pkg, x)) else [])
  {
    RecordsOfFinale(pkg, x);
    var trace := StatefulTrace(pkg, x, checkpoint);
    if |trace| > 3 {
      NoRecords(trace[..3]);
      RecordsConcat(trace[..3], Finale(pkg, x));
      assert trace == trace[..3] + Finale(pkg, x);
    } else {
      NoRecords(trace);
    }
  }

  // ---- Main results ---------------------------------------------------------------------------------------

  /** Each call appends at most one record, and it names the package of the call alone. */
  lemma AtMostOneRecord(pkg: Package, x: Externals)
    requires Proper(pkg, x)
    ensures var r := Records(Trace(pkg, x));
            r == [] || exists c :: r == [Record([pkg.name], x.now, c)] && c in {COMPLETED, FAILED}
  {
    RecordsOfFinale(pkg, x);
    var pick := Associated(pkg.backups, |pkg.backups|);
    if pkg.packageType.Stateful? && pick.Found? {
      StatefulRecords(pkg, x, pick.checkpoint);
    }
  }

  /** A stateless package: the app is pushed, the sync follows if the push succeeded, and then one record for the
      package, Completed if and only if the push succeeded.  Nothing is cloned, rewritten or committed. */
  lemma StatelessTransition(pkg: Package, x: Externals)
    requires pkg.packageType.Stateless? && x.prepared
    ensures Trace(pkg, x) ==
            if x.appPushes
            then [AppPushed(true), Synced(x.syncs), Recorded(Record([pkg.name], x.now, "Completed"))]
            else [AppPushed(false), Recorded(Record([pkg.name], x.now, "Failed"))]
    ensures Records(Trace(pkg, x)) == [Record([pkg.name], x.now, if x.appPushes then "Completed" else "Failed")]
  {
    RecordsOfFinale(pkg, x);
  }

  /** A call has no effect at all, and so leaves no record, exactly if its preparations failed, the package type is
      unknown, or a stateful package has no usable checkpoint or its repository cannot be cloned. */
  lemma NoEffectIff(pkg: Package, x: Externals)
    requires Proper(pkg, x)
    ensures Trace(pkg, x) == [] <==>
            || !x.prepared || pkg.packageType.UnknownType?
            || (pkg.packageType.Stateful?
                && (!Associated(pkg.backups, |pkg.backups|).Found? || x.clone.CloneFailed?))
    ensures Trace(pkg, x) == [] ==> Records(Trace(pkg, x)) == []
  {
  }

  /** The effects of a prepared stateful call with a checkpoint, one after the other, and what each depends on. */
  lemma StatefulSteps(pkg: Package, x: Externals, checkpoint: C.Status)
    requires Proper(pkg, x) && pkg.packageType.Stateful? && x.prepared
    requires Associated(pkg.backups, |pkg.backups|) == Found(checkpoint)
    ensures var trace := Trace(pkg, x);
            && (|trace| >= 1 <==> x.clone.Clone?) && (|trace| >= 1 ==> trace[0] == Cloned)
            && (|trace| >= 2 <==> x.clone.Clone? && |x.clone.matches| > 0)
            && (|trace| >= 2 ==> trace[1].Rewritten? && trace[1].files == UpdatedFiles(x, checkpoint)
                                 && (trace[1].ok ==> AllUpdatable(x.clone, ImagesOf(checkpoint))))
            && (|trace| >= 3 <==> |trace| >= 2 && trace[1].ok && x.credentials)
            && (|trace| >= 3 ==> trace[2] == if x.pushes then Pushed(trace[1].files) else PushFailed)
            && (|trace| >= 4 <==> |trace| >= 3 && x.pushes)
            && (|trace| >= 4 ==>
                  trace[3..] ==
                  if x.appPushes
                  then [AppPushed(true), Synced(x.syncs), Recorded(Record([pkg.name], x.now, "Completed"))]
                  else [AppPushed(false), Recorded(Record([pkg.name], x.now, "Failed"))])
  {
    if x.clone.Clone? {
      Confluence(x.clone.files, x.clone.matches, x.clone.schedule, ImagesOf(checkpoint), UPDATE_LIMIT);
    }
  }

  /** At most two manifests are being updated at any time. */
  lemma TwoUpdatesAtMost(files: Files, matches: seq<string>, schedule: seq<nat>, img: Images)
    requires IsRun(BatchRewrite.Init(files, matches), schedule, img, UPDATE_LIMIT)
    ensures var t := After(BatchRewrite.Init(files, matches), schedule, img, UPDATE_LIMIT);
            InFlight(t.jobs, |t.jobs|) <= 2
  {
    AtMostAtWork(files, matches, schedule, img, UPDATE_LIMIT);
  }

  predicate AllUpdatable(clone: Clone, img: Images)
    requires clone.Clone?
  {
    forall i | 0 <= i < |clone.matches| :: Updatable(clone.files, clone.matches[i], img)
  }

  /** Everything a stateful transition needs, apart from the race between its updates: the clone has matches, each can
      be updated, and the commit is pushed. */
  predicate Clear(x: Externals, img: Images) {
    && x.prepared && x.clone.Clone? && |x.clone.matches| > 0 && AllUpdatable(x.clone, img)
    && x.credentials && x.pushes
  }

  /** A stateful transition gets past the commit only if it is clear to, and then always unless a file that is to be
      written was matched twice. */
  lemma PastCommit(pkg: Package, x: Externals, checkpoint: C.Status)
    requires x.prepared && CompleteSchedule(x.clone, ImagesOf(checkpoint))
    ensures |StatefulTrace(pkg, x, checkpoint)| > 3 ==> Clear(x, ImagesOf(checkpoint))
    ensures Clear(x, ImagesOf(checkpoint)) && !HotDuplicate(x.clone.files, x.clone.matches, ImagesOf(checkpoint)) ==>
              |StatefulTrace(pkg, x, checkpoint)| > 3
  {
    if x.clone.Clone? {
      Confluence(x.clone.files, x.clone.matches, x.clone.schedule, ImagesOf(checkpoint), UPDATE_LIMIT);
      if !HotDuplicate(x.clone.files, x.clone.matches, ImagesOf(checkpoint)) {
        OnlyBadPathsFail(x.clone.files, x.clone.matches, x.clone.schedule, ImagesOf(checkpoint), UPDATE_LIMIT);
      }
    }
  }

  function RecordOf(pkg: Package, x: Externals): Record {
    Record([pkg.name], x.now, if x.appPushes then COMPLETED else FAILED)
  }

  /** A stateful transition leaves one record or none; a record only if a checkpoint was found and the transition was
      clear, and then always unless a file that is to be written was matched twice.  It is Completed exactly if the
      Argo app was pushed too. */
  lemma StatefulRecord(pkg: Package, x: Externals)
    requires Proper(pkg, x) && pkg.packageType.Stateful?
    ensures var pick := Associated(pkg.backups, |pkg.backups|); var records := Records(Trace(pkg, x));
            && (records == [] || records == [RecordOf(pkg, x)])
            && (records != [] ==> pick.Found? && Clear(x, ImagesOf(pick.checkpoint)))
            && (pick.Found? && Clear(x, ImagesOf(pick.checkpoint)) && records == [] ==>
                  HotDuplicate(x.clone.files, x.clone.matches, ImagesOf(pick.checkpoint)))
  {
    RecordsOfFinale(pkg, x);
    var pick := Associated(pkg.backups, |pkg.backups|);
    if pick.Found? && x.prepared {
      StatefulRecords(pkg, x, pick.checkpoint);
      PastCommit(pkg, x, pick.checkpoint);
    }
  }

  function OnSchedule(x: Externals, schedule: seq<nat>): Externals {
    if x.clone.Clone? then x.(clone := x.clone.(schedule := schedule)) else x
  }

  /** However the updates interleave, the transition leaves its record. */
  ghost predicate AlwaysRecorded(pkg: Package, x: Externals) {
    forall schedule | Proper(pkg, OnSchedule(x, schedule)) ::
      Records(Trace(pkg, OnSchedule(x, schedule))) == [RecordOf(pkg, x)]
  }

  /** One failed update and there is no record. */
  lemma ErrorLeavesNoRecord(pkg: Package, x: Externals, checkpoint: C.Status, j: nat)
    requires CompleteSchedule(x.clone, ImagesOf(checkpoint)) && x.clone.Clone?
    requires var start := BatchRewrite.Init(x.clone.files, x.clone.matches);
             Ended(After(start, x.clone.schedule, ImagesOf(checkpoint), UPDATE_LIMIT), j, false)
    ensures Records(StatefulTrace(pkg, x, checkpoint)) == []
  {
    StatefulRecords(pkg, x, checkpoint);
  }

  /** Some interleaving of the updates; with a file that is to be written matched twice, one that leaves no record. */
  lemma WorstSchedule(pkg: Package, x: Externals) returns (schedule: seq<nat>)
    requires pkg.packageType.Stateful?
    ensures Proper(pkg, OnSchedule(x, schedule))
    ensures var pick := Associated(pkg.backups, |pkg.backups|);
            pick.Found? && x.clone.Clone? && HotDuplicate(x.clone.files, x.clone.matches, ImagesOf(pick.checkpoint)) ==>
              Records(Trace(pkg, OnSchedule(x, schedule))) == []
  {
    schedule := [];
    var pick := Associated(pkg.backups, |pkg.backups|);
    if pick.Found? && x.clone.Clone? {
      var img, files, matches := ImagesOf(pick.checkpoint), x.clone.files, x.clone.matches;
      if HotDuplicate(files, matches, img) {
        var i: nat, j: nat :| i < j < |matches| && matches[i] == matches[j] && Hot(files, matches[i], img);
        schedule := FailingSchedule(files, matches, i, j, img, UPDATE_LIMIT);
        ErrorLeavesNoRecord(pkg, OnSchedule(x, schedule), pick.checkpoint, j);
      } else {
        schedule := RunToEnd(BatchRewrite.Init(files, matches), img, UPDATE_LIMIT);
      }
    }
  }

  /** A stateful transition leaves its record on every interleaving of its updates exactly if a checkpoint was found,
      the transition is clear, and no file that is to be written was matched twice. */
  lemma StatefulRecordIff(pkg: Package, x: Externals)
    requires pkg.packageType.Stateful?
    ensures AlwaysRecorded(pkg, x) <==>
            && Associated(pkg.backups, |pkg.backups|).Found?
            && var img := ImagesOf(Associated(pkg.backups, |pkg.backups|).checkpoint);
               Clear(x, img) && !HotDuplicate(x.clone.files, x.clone.matches, img)
  {
    var schedule := WorstSchedule(pkg, x);
    StatefulRecord(pkg, OnSchedule(x, schedule));
    forall schedule | Proper(pkg, OnSchedule(x, schedule))
      ensures var records := Records(Trace(pkg, OnSchedule(x, schedule)));
              records != [] ==> records == [RecordOf(pkg, x)]
    {
      StatefulRecord(pkg, OnSchedule(x, schedule));
    }
    var pick := Associated(pkg.backups, |pkg.backups|);
    if pick.Found? && Clear(x, ImagesOf(pick.checkpoint))
       && !HotDuplicate(x.clone.files, x.clone.matches, ImagesOf(pick.checkpoint))
    {
      forall schedule | Proper(pkg, OnSchedule(x, schedule))
        ensures Records(Trace(pkg, OnSchedule(x, schedule))) != []
      {
        StatefulRecord(pkg, OnSchedule(x, schedule));
      }
    }
  }

  /** The files with each distinct match updated once. */
  function UpdatedFiles(x: Externals, checkpoint: C.Status): Files
    requires x.clone.Clone?
  {
    UpdateEach(x.clone.files, (set p | p in x.clone.matches), ImagesOf(checkpoint))
  }

  lemma StatefulShape(pkg: Package, x: Externals, checkpoint: C.Status)
    requires CompleteSchedule(x.clone, ImagesOf(checkpoint)) && |StatefulTrace(pkg, x, checkpoint)| > 3
    ensures x.clone.Clone? &&
            var files := UpdatedFiles(x, checkpoint);
            StatefulTrace(pkg, x, checkpoint) == [Cloned, Rewritten(files, true), Pushed(files)] + Finale(pkg, x)
  {
    Confluence(x.clone.files, x.clone.matches, x.clone.schedule, ImagesOf(checkpoint), UPDATE_LIMIT);
  }

  lemma RecordedTrace(pkg: Package, x: Externals, checkpoint: C.Status)
    requires Proper(pkg, x) && pkg.packageType.Stateful? && Associated(pkg.backups, |pkg.backups|) == Found(checkpoint)
    requires Records(Trace(pkg, x)) != []
    ensures x.clone.Clone? && Records(Trace(pkg, x)) == Records(Finale(pkg, x))
    ensures var files := UpdatedFiles(x, checkpoint);
            Trace(pkg, x) == [Cloned, Rewritten(files, true), Pushed(files)] + Finale(pkg, x)
  {
    StatefulRecords(pkg, x, checkpoint);
    StatefulShape(pkg, x, checkpoint);
  }

  /** Order: whenever a record was left, the clone, the update of every matched manifest, the push of exactly the
      updated files and the Argo push came before it, in that order. */
  lemma RecordOrder(pkg: Package, x: Externals, checkpoint: C.Status)
    requires Proper(pkg, x) && pkg.packageType.Stateful? && Associated(pkg.backups, |pkg.backups|) == Found(checkpoint)
    requires Records(Trace(pkg, x)) != []
    ensures var trace := Trace(pkg, x);
            x.clone.Clone? &&
            var files := UpdatedFiles(x, checkpoint);
            && |trace| >= 5
            && trace[..4] == [Cloned, Rewritten(files, true), Pushed(files), AppPushed(x.appPushes)]
            && trace[|trace| - 1] == Recorded(Records(trace)[0])
            && (x.appPushes ==> |trace| == 6 && trace[4] == Synced(x.syncs))
  {
    RecordedTrace(pkg, x, checkpoint);
    RecordsOfFinale(pkg, x);
  }

  /** The image of container i of a list, or "" if it has none. */
  function ImageAt(pod: Fields, field: string, i: nat): string
    requires IsList(pod, field) && i < |pod[field].items|
  {
    if pod[field].items[i].Map? then StringAt(pod[field].items[i].fields, "image") else ""
  }

  /** An update replaces no image but the original, by the checkpoint's. */
  lemma UpdateSwapsImages(c: Content, img: Images, field: string, i: nat)
    requires Locate(c).Pod? && field in CONTAINER_FIELDS && IsList(Locate(c).pod, field)
    requires i < |Locate(c).pod[field].items|
    ensures var before, after := Locate(c), Locate(Updated(c, img.checkpoint, img.original));
            && after.Pod? && IsList(after.pod, field) && i < |after.pod[field].items|
            && (ImageAt(after.pod, field, i) != ImageAt(before.pod, field, i) ==>
                ImageAt(before.pod, field, i) == img.original && ImageAt(after.pod, field, i) == img.checkpoint)
  {
    var l := Locate(c);
    RewriteFrame(l.pod, img.checkpoint, img.original);
    LocateWithPod(c, Rewrite(l.pod, img.checkpoint, img.original));
  }

  /** End to end: if the two images of the checkpoint are paired, every container image that differs in the pushed
      files refers to an image built on the one it replaced. */
  lemma PushedImagesDerive(pkg: Package, x: Externals, checkpoint: C.Status, pushes: seq<C.Push>, p: string,
                           field: string, i: nat)
    requires Proper(pkg, x) && pkg.packageType.Stateful? && Associated(pkg.backups, |pkg.backups|) == Found(checkpoint)
    requires Records(Trace(pkg, x)) != [] && C.Paired(checkpoint, pushes)
    requires x.clone.Clone? && p in x.clone.files && Locate(x.clone.files[p]).Pod?
    requires field in CONTAINER_FIELDS && IsList(Locate(x.clone.files[p]).pod, field)
    requires i < |Locate(x.clone.files[p]).pod[field].items|
    ensures |Trace(pkg, x)| >= 5 && Trace(pkg, x)[2].Pushed? && p in Trace(pkg, x)[2].files &&
            var before, after := Locate(x.clone.files[p]), Locate(Trace(pkg, x)[2].files[p]);
            && after.Pod? && IsList(after.pod, field) && i < |after.pod[field].items|
            && (ImageAt(after.pod, field, i) != ImageAt(before.pod, field, i) ==>
                C.BaseOf(pushes, ImageAt(after.pod, field, i)) == Some(ImageAt(before.pod, field, i)))
  {
    var img := ImagesOf(checkpoint);
    RecordOrder(pkg, x, checkpoint);
    assert Trace(pkg, x)[..4][2] == Trace(pkg, x)[2];
    UpdateSwapsImages(x.clone.files[p], img, field, i);
  }

  /** The same without assuming the pairing: for a pod whose containers all run one image, whichever moment of whichever
      history of checkpoint runs the checkpoint is read at. */
  lemma PushedImagesDeriveAlways(pkg: Package, x: Externals, prefix: string, cs: seq<C.Container>, runs: seq<C.Run>,
                                 at: nat, p: string, field: string, i: nat)
    requires C.OneImage(cs) && forall k | 0 <= k < |runs| :: C.WellFormed(runs[k]) && runs[k].containers == cs
    requires at < |C.History(C.FRESH, prefix, runs)|
    requires Proper(pkg, x) && pkg.packageType.Stateful? && Records(Trace(pkg, x)) != []
    requires Associated(pkg.backups, |pkg.backups|) == Found(C.History(C.FRESH, prefix, runs)[at].stored)
    requires x.clone.Clone? && p in x.clone.files && Locate(x.clone.files[p]).Pod?
    requires field in CONTAINER_FIELDS && IsList(Locate(x.clone.files[p]).pod, field)
    requires i < |Locate(x.clone.files[p]).pod[field].items|
    ensures |Trace(pkg, x)| >= 5 && Trace(pkg, x)[2].Pushed? && p in Trace(pkg, x)[2].files &&
            var before, after := Locate(x.clone.files[p]), Locate(Trace(pkg, x)[2].files[p]);
            && after.Pod? && IsList(after.pod, field) && i < |after.pod[field].items|
            && (ImageAt(after.pod, field, i) != ImageAt(before.pod, field, i) ==>
                C.BaseOf(C.History(C.FRESH, prefix, runs)[at].pushes, ImageAt(after.pod, field, i))
                == Some(ImageAt(before.pod, field, i)))
  {
    var w := C.History(C.FRESH, prefix, runs)[at];
    C.OneImagePaired(prefix, cs, runs);
    assert C.PairedWorld(w);
    PushedImagesDerive(pkg, x, w.stored, w.pushes, p, field, i);
  }
}

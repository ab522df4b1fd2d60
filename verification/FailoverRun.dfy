/** The manifest scan and the transition that uses its result, end to end: what a Completed record says about the
    manifests of the workload. */
module FailoverRun {
  import opened TransitionLog
  import opened ImageRewrite
  import opened MissedHealthTransition
  import B = BatchRewrite
  import C = CheckpointRun
  import L = ScanLeftovers
  import M = ManifestScan
  import S = ScanFaults
  import V = BatchVerdicts

  /** The scan of a clone, on one of its schedules. */
  datatype Scan = Scan(ref: M.Ref, tree: seq<M.Entry>, cpus: nat, acts: seq<M.Action>)

  /** It returned without an error. */
  predicate Returns(scan: Scan) {
    && M.IsRun(M.Init(scan.ref, scan.tree, scan.cpus), scan.acts)
    && M.NilExit(M.After(M.Init(scan.ref, scan.tree, scan.cpus), scan.acts))
  }

  /** The paths it reported. */
  function Reported(scan: Scan): seq<string>
    requires Returns(scan)
  {
    M.After(M.Init(scan.ref, scan.tree, scan.cpus), scan.acts).collected
  }

  /** The transition's surroundings when it works on this scan's result. */
  function AfterScan(x: Externals, files: B.Files, scan: Scan, schedule: seq<nat>): Externals
    requires Returns(scan)
  {
    x.(clone := Clone(files, Reported(scan), schedule))
  }

  predicate CompletedBy(pkg: Package, x: Externals) {
    Proper(pkg, x) && exists r :: r in Records(Trace(pkg, x)) && r.condition == COMPLETED
  }

  /** The commit the transition pushed has the updated version of every matching manifest. */
  predicate AllUpdated(pkg: Package, x: Externals, files: B.Files, img: B.Images, expected: seq<string>)
    requires Proper(pkg, x)
  {
    var trace := Trace(pkg, x);
    |trace| > 2 && trace[2].Pushed? &&
    forall p | p in expected && p in files :: p in trace[2].files && trace[2].files[p] == B.Goal(files, p, img)
  }

  /** All matches lie in one file. */
  predicate OnePath(paths: seq<string>) {
    forall p, q | p in paths && q in paths :: p == q
  }

  // ---- What is reported matches ---------------------------------------------------------------------------

  lemma ReportedMatches(ref: M.Ref, tree: seq<M.Entry>, cpus: nat, acts: seq<M.Action>, p: string)
    requires cpus >= 1 && M.IsRun(M.Init(ref, tree, cpus), acts)
    requires p in M.After(M.Init(ref, tree, cpus), acts).collected
    ensures p in M.Expected(tree, ref)
  {
    var s := M.After(M.Init(ref, tree, cpus), acts);
    M.Conservation(M.Only(p), ref, tree, cpus, acts);
    M.ExpectedCount(M.Only(p), tree, ref);
    M.CountMeaning(s.collected, p);
    M.CountMeaning(M.Expected(tree, ref), p);
  }

  lemma AtMostAll(paths: seq<string>, p: string)
    ensures multiset(paths)[p] <= |paths|
  {
    M.CountMeaning(paths, p);
    SelectedAtMostAll(paths, p);
  }

  lemma {:induction false} SelectedAtMostAll(paths: seq<string>, p: string)
    ensures M.Count(M.Only(p), paths) <= M.Count(M.Any, paths)
  {
    if |paths| > 0 {
      SelectedAtMostAll(paths[1..], p);
    }
  }

  /** A file with more matches than matchCh buffers is reported by every uncancelled scan of a clean tree. */
  lemma FrequentIsReported(scan: Scan, p: string)
    requires scan.cpus >= 1 && Returns(scan) && S.CleanTree(scan.tree) && S.NoCancel(scan.acts)
    requires multiset(M.Expected(scan.tree, scan.ref))[p] > 100
    ensures p in Reported(scan)
  {
    var s := M.After(M.Init(scan.ref, scan.tree, scan.cpus), scan.acts);
    S.CleanTreeExit(scan.ref, scan.tree, scan.cpus, scan.acts);
    M.CloseOrder(scan.ref, scan.tree, scan.cpus, scan.acts);
    AtMostAll(s.matchCh, p);
    assert (multiset(s.collected) + multiset(s.matchCh))[p] > 100;
  }

  lemma CompletedTrace(pkg: Package, x: Externals, checkpoint: C.Status)
    requires pkg.packageType.Stateful? && Associated(pkg.backups, |pkg.backups|) == Found(checkpoint)
    requires CompletedBy(pkg, x)
    ensures x.clone.Clone? && |x.clone.matches| > 0
    ensures |Trace(pkg, x)| > 2 && Trace(pkg, x)[2] == Pushed(UpdatedFiles(x, checkpoint))
  {
    RecordedTrace(pkg, x, checkpoint);
    StatefulRecord(pkg, x);
  }

  /** Whatever the scan and the updates interleave like, and whatever fails: if all matches lie in one file, a Completed
      record means that this file was updated. */
  lemma OnePathIsUpdated(pkg: Package, x: Externals, files: B.Files, scan: Scan, schedule: seq<nat>,
                         checkpoint: C.Status)
    requires pkg.packageType.Stateful? && Associated(pkg.backups, |pkg.backups|) == Found(checkpoint)
    requires scan.cpus >= 1 && Returns(scan) && OnePath(M.Expected(scan.tree, scan.ref))
    requires CompletedBy(pkg, AfterScan(x, files, scan, schedule))
    ensures AllUpdated(pkg, AfterScan(x, files, scan, schedule), files, ImagesOf(checkpoint),
                       M.Expected(scan.tree, scan.ref))
  {
    var y := AfterScan(x, files, scan, schedule);
    CompletedTrace(pkg, y, checkpoint);
    var found := Reported(scan)[0];
    ReportedMatches(scan.ref, scan.tree, scan.cpus, scan.acts, found);
    forall p | p in M.Expected(scan.tree, scan.ref) && p in files
      ensures p in UpdatedFiles(y, checkpoint)
      ensures UpdatedFiles(y, checkpoint)[p] == B.Goal(files, p, ImagesOf(checkpoint))
    {
      assert p == found && p in y.clone.matches;
    }
  }

  // ---- Two files ------------------------------------------------------------------------------------------

  /** A scan that reports one match and leaves the others in the buffer. */
  lemma ReportOne(ref: M.Ref, tree: seq<M.Entry>, cpus: nat) returns (acts: seq<M.Action>)
    requires cpus >= 1 && S.CleanTree(tree) && 0 < |M.Expected(tree, ref)| <= M.CAPACITY
    ensures Returns(Scan(ref, tree, cpus, acts)) && |Reported(Scan(ref, tree, cpus, acts))| == 1
    ensures S.NoCancel(acts)
  {
    var init := M.Init(ref, tree, cpus);
    M.InitInv(M.Any, ref, tree, cpus);
    var a1 := L.RunHelpers(init);
    var s1 := M.After(init, a1);
    BufferHoldsAll(ref, tree, cpus, a1);
    var s2 := M.Step(s1, M.Collect(M.MatchArm));
    S.Prepend(s2, M.Collect(M.DoneChArm), []);
    S.Prepend(s1, M.Collect(M.MatchArm), [M.Collect(M.DoneChArm)]);
    var a2 := [M.Collect(M.MatchArm)] + [M.Collect(M.DoneChArm)];
    L.Concat(init, a1, a2);
    acts := a1 + a2;
    assert |M.After(init, acts).collected| == 1;
  }

  /** Helpers of a clean scan that ran as far as they get have sent every match, and done is closed. */
  lemma BufferHoldsAll(ref: M.Ref, tree: seq<M.Entry>, cpus: nat, acts: seq<M.Action>)
    requires cpus >= 1 && S.CleanTree(tree) && |M.Expected(tree, ref)| <= M.CAPACITY
    requires M.IsRun(M.Init(ref, tree, cpus), acts) && S.NoCancel(acts)
    requires var s := M.After(M.Init(ref, tree, cpus), acts);
             L.HelpersStuck(s) && M.SameCollector(M.Init(ref, tree, cpus), s)
    ensures var s := M.After(M.Init(ref, tree, cpus), acts);
            s.doneClosed && |s.matchCh| == |M.Expected(tree, ref)| && s.collector.Collecting? && !s.panicked
  {
    var init := M.Init(ref, tree, cpus);
    var s := M.After(init, acts);
    var total := L.Sendable(L.ToCome(tree), cpus, ref);
    M.InitInv(M.Any, ref, tree, cpus);
    M.RunInv(M.Any, init, acts);
    S.CleanRun(init, acts);
    L.InitReach(ref, tree, cpus);
    L.ReachRun(init, acts, total);
    L.CleanSendsAll(ref, tree, cpus);
    L.StuckMeans(s);
    L.SendsBounds(s.workers, |s.workers|, s.ref);
    M.NoneAlive(s.workers, |s.workers|);
  }

  /** An update of a file that runs the original image changes it, unless the two images are the same. */
  lemma UpdateChanges(files: B.Files, p: string, img: B.Images)
    requires B.Hot(files, p, img) && img.checkpoint != img.original
    ensures B.Goal(files, p, img) != files[p]
  {
    var l := Locate(files[p]);
    LocateWithPod(files[p], Rewrite(l.pod, img.checkpoint, img.original));
    RewriteChanges(l.pod, img.checkpoint, img.original);
  }

  /** The setting in which nothing but the scan can go wrong: every external step succeeds, and every matching manifest
      runs the original image. */
  predicate Smooth(pkg: Package, x: Externals, files: B.Files, expected: seq<string>, checkpoint: C.Status) {
    && pkg.packageType.Stateful? && Associated(pkg.backups, |pkg.backups|) == Found(checkpoint)
    && x.prepared && x.credentials && x.pushes && x.appPushes
    && checkpoint.lastCheckpointImage != checkpoint.originalImage
    && forall p | p in expected :: B.Hot(files, p, ImagesOf(checkpoint))
  }

  /** A scan that reports p alone, and the record that follows. */
  lemma OneReportedCompletes(pkg: Package, x: Externals, files: B.Files, scan: Scan, checkpoint: C.Status)
    returns (schedule: seq<nat>)
    requires Returns(scan) && |Reported(scan)| == 1 && Smooth(pkg, x, files, Reported(scan), checkpoint)
    ensures CompletedBy(pkg, AfterScan(x, files, scan, schedule))
  {
    var matches, img := Reported(scan), ImagesOf(checkpoint);
    schedule := V.RunToEnd(B.Init(files, matches), img, UPDATE_LIMIT);
    var y := AfterScan(x, files, scan, schedule);
    assert matches[0] in matches && Proper(pkg, y);
    assert AllUpdatable(y.clone, img) && !B.HotDuplicate(files, matches, img);
    StatefulRecord(pkg, y);
    assert RecordOf(pkg, y) in Records(Trace(pkg, y));
  }

  /** Another matching manifest was not updated by it. */
  lemma OtherFileIsStale(pkg: Package, x: Externals, files: B.Files, scan: Scan, schedule: seq<nat>,
                         checkpoint: C.Status, q: string)
    requires Returns(scan) && Smooth(pkg, x, files, M.Expected(scan.tree, scan.ref), checkpoint)
    requires q in M.Expected(scan.tree, scan.ref) && q !in Reported(scan)
    requires CompletedBy(pkg, AfterScan(x, files, scan, schedule))
    ensures !AllUpdated(pkg, AfterScan(x, files, scan, schedule), files, ImagesOf(checkpoint),
                       M.Expected(scan.tree, scan.ref))
  {
    var y := AfterScan(x, files, scan, schedule);
    CompletedTrace(pkg, y, checkpoint);
    UpdateChanges(files, q, ImagesOf(checkpoint));
    assert UpdatedFiles(y, checkpoint)[q] == files[q];
  }

  /** On every uncancelled schedule of the scan and of the updates, a Completed record means that every matching
      manifest was updated. */
  ghost predicate CompletedMeansUpdated(pkg: Package, x: Externals, files: B.Files, ref: M.Ref, tree: seq<M.Entry>,
                                        cpus: nat, checkpoint: C.Status)
  {
    forall acts, schedule |
      && Returns(Scan(ref, tree, cpus, acts)) && S.NoCancel(acts)
      && CompletedBy(pkg, AfterScan(x, files, Scan(ref, tree, cpus, acts), schedule)) ::
      AllUpdated(pkg, AfterScan(x, files, Scan(ref, tree, cpus, acts), schedule), files, ImagesOf(checkpoint),
                 M.Expected(tree, ref))
  }

  /** For a tree in which nothing fails, with no more matches than matchCh buffers, and a transition in which nothing
      else goes wrong: a Completed record always means that every matching manifest was updated exactly if all matches
      lie in one file. */
  lemma CompletedMeansUpdatedIff(pkg: Package, x: Externals, files: B.Files, ref: M.Ref, tree: seq<M.Entry>, cpus: nat,
                                 checkpoint: C.Status)
    requires cpus >= 1 && S.CleanTree(tree) && |M.Expected(tree, ref)| <= 100
    requires Smooth(pkg, x, files, M.Expected(tree, ref), checkpoint)
    ensures CompletedMeansUpdated(pkg, x, files, ref, tree, cpus, checkpoint) <==> OnePath(M.Expected(tree, ref))
  {
    if OnePath(M.Expected(tree, ref)) {
      forall acts, schedule |
        && Returns(Scan(ref, tree, cpus, acts)) && S.NoCancel(acts)
        && CompletedBy(pkg, AfterScan(x, files, Scan(ref, tree, cpus, acts), schedule))
        ensures AllUpdated(pkg, AfterScan(x, files, Scan(ref, tree, cpus, acts), schedule), files, ImagesOf(checkpoint),
                           M.Expected(tree, ref))
      {
        OnePathIsUpdated(pkg, x, files, Scan(ref, tree, cpus, acts), schedule, checkpoint);
      }
    } else {
      var acts, schedule := StaleCompletion(pkg, x, files, ref, tree, cpus, checkpoint);
    }
  }

  /** Two matching files: a schedule on which the record says Completed and one of them was never touched. */
  lemma StaleCompletion(pkg: Package, x: Externals, files: B.Files, ref: M.Ref, tree: seq<M.Entry>, cpus: nat,
                        checkpoint: C.Status) returns (acts: seq<M.Action>, schedule: seq<nat>)
    requires cpus >= 1 && S.CleanTree(tree) && |M.Expected(tree, ref)| <= M.CAPACITY && !OnePath(M.Expected(tree, ref))
    requires Smooth(pkg, x, files, M.Expected(tree, ref), checkpoint)
    ensures Returns(Scan(ref, tree, cpus, acts)) && S.NoCancel(acts)
    ensures CompletedBy(pkg, AfterScan(x, files, Scan(ref, tree, cpus, acts), schedule))
    ensures !AllUpdated(pkg, AfterScan(x, files, Scan(ref, tree, cpus, acts), schedule), files, ImagesOf(checkpoint),
                        M.Expected(tree, ref))
  {
    acts := ReportOne(ref, tree, cpus);
    schedule := StaleAfter(pkg, x, files, Scan(ref, tree, cpus, acts), checkpoint);
  }

  lemma StaleAfter(pkg: Package, x: Externals, files: B.Files, scan: Scan, checkpoint: C.Status)
    returns (schedule: seq<nat>)
    requires scan.cpus >= 1 && Returns(scan) && |Reported(scan)| == 1 && !OnePath(M.Expected(scan.tree, scan.ref))
    requires Smooth(pkg, x, files, M.Expected(scan.tree, scan.ref), checkpoint)
    ensures CompletedBy(pkg, AfterScan(x, files, scan, schedule))
    ensures !AllUpdated(pkg, AfterScan(x, files, scan, schedule), files, ImagesOf(checkpoint),
                       M.Expected(scan.tree, scan.ref))
  {
    ReportedIsSmooth(pkg, x, files, scan, checkpoint);
    var q := NotReported(M.Expected(scan.tree, scan.ref), Reported(scan));
    schedule := OneReportedCompletes(pkg, x, files, scan, checkpoint);
    OtherFileIsStale(pkg, x, files, scan, schedule, checkpoint, q);
  }

  lemma ReportedIsSmooth(pkg: Package, x: Externals, files: B.Files, scan: Scan, checkpoint: C.Status)
    requires scan.cpus >= 1 && Returns(scan) && Smooth(pkg, x, files, M.Expected(scan.tree, scan.ref), checkpoint)
    ensures Smooth(pkg, x, files, Reported(scan), checkpoint)
  {
    forall p | p in Reported(scan) ensures p in M.Expected(scan.tree, scan.ref) {
      ReportedMatches(scan.ref, scan.tree, scan.cpus, scan.acts, p);
    }
  }

  lemma NotReported(expected: seq<string>, reported: seq<string>) returns (q: string)
    requires !OnePath(expected) && |reported| == 1
    ensures q in expected && q !in reported
  {
    var p, r :| p in expected && r in expected && p != r;
    q := if p == reported[0] then r else p;
  }
}

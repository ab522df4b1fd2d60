/** A checkpoint run: performCheckpoint and checkpointContainer, with every external step free to fail. */
module CheckpointRun {
  import opened Wrappers

  datatype Phase = Unset | Pending | Running | Completed | Failed

  datatype Status = Status(phase: Phase, lastCheckpointTime: Option<nat>, originalImage: string,
                           lastCheckpointImage: string)

  const EMPTY_STATUS := Status(Unset, None, "", "")

  datatype Container = Container(name: string, image: string)

  /** An image pushed to the registry, with the image it was built on. */
  datatype Push = Push(image: string, base: string)

  /** What the external steps of one container's checkpoint return; the last three are status updates made when a step
      failed, and the one performCheckpoint makes. */
  datatype Outcome = Outcome(announced: bool, created: bool, arrived: bool, downloaded: bool, built: bool, pushed: bool,
                             saved: bool, savedAgain: bool, failureSaved: bool, failureReported: bool)

  /** The checkpoint object in memory, as stored by the API server, and the registry's history. */
  datatype World = World(status: Status, stored: Status, pushes: seq<Push>)

  const FRESH := World(EMPTY_STATUS, EMPTY_STATUS, [])

  datatype Result = Result(world: World, ok: bool)

  function ImageName(prefix: string, c: Container): string {
    prefix + c.name + ":latest"
  }

  function PushOf(prefix: string, c: Container): Push {
    Push(ImageName(prefix, c), c.image)
  }

  // ---- Specification --------------------------------------------------------------------------------------

  function Announcing(s: Status, c: Container, now: nat): Status {
    s.(originalImage := c.image, lastCheckpointTime := Some(now), phase := Running)
  }

  function Failing(s: Status, c: Container, now: nat): Status {
    s.(originalImage := c.image, lastCheckpointTime := Some(now), phase := Failed)
  }

  function Completing(s: Status, prefix: string, c: Container, now: nat): Status {
    Status(Completed, Some(now), c.image, ImageName(prefix, c))
  }

  predicate ReachesRegistry(o: Outcome) {
    o.announced && o.created && o.arrived && o.downloaded && o.built && o.pushed
  }

  /** The status is set to Running and sent to the API server. */
  function Announced(w: World, c: Container, o: Outcome, now: nat): World {
    var announcing := Announcing(w.status, c, now);
    w.(status := announcing, stored := if o.announced then announcing else w.stored)
  }

  /** The status is set to Failed and sent. */
  function Report(w: World, c: Container, saved: bool, now: nat): World {
    var failing := Failing(w.status, c, now);
    w.(status := failing, stored := if saved then failing else w.stored)
  }

  function Publish(w: World, prefix: string, c: Container, o: Outcome, now: nat): Result {
    var completing := Completing(w.status, prefix, c, now);
    Result(World(completing, if o.saved then completing else w.stored, w.pushes + [PushOf(prefix, c)]),
           o.saved && o.savedAgain)
  }

  function RunContainer(w: World, prefix: string, c: Container, o: Outcome, now: nat): Result {
    var v := Announced(w, c, o, now);
    if !o.announced then Result(v, false)
    else if !ReachesRegistry(o) then Result(Report(v, c, o.failureSaved, now), false)
    else Publish(v, prefix, c, o, now)
  }

  /** One turn of the container loop: a failed container is reported. */
  function Stage(w: World, prefix: string, c: Container, o: Outcome, now: nat): Result {
    var q := RunContainer(w, prefix, c, o, now);
    if q.ok then q else Result(Report(q.world, c, o.failureReported, now), false)
  }

  /** The container loop over the first n containers; it stops at the first error. */
  function RunContainers(w: World, prefix: string, cs: seq<Container>, os: seq<Outcome>, now: nat, n: nat): Result
    requires |os| == |cs| && n <= |cs|
  {
    if n == 0 then Result(w, true)
    else
      var r := RunContainers(w, prefix, cs, os, now, n - 1);
      if r.ok then Stage(r.world, prefix, cs[n - 1], os[n - 1], now) else r
  }

  // ---- The states a run passes through: one after every assignment to the status, update or push ----------

  function ReportTrail(w: World, c: Container, saved: bool, now: nat): seq<World> {
    [w.(status := Failing(w.status, c, now)), Report(w, c, saved, now)]
  }

  function PublishTrail(w: World, prefix: string, c: Container, o: Outcome, now: nat): seq<World> {
    var pushed := w.(pushes := w.pushes + [PushOf(prefix, c)]);
    var completing := pushed.(status := Completing(w.status, prefix, c, now));
    var saved := completing.(stored := if o.saved then completing.status else w.stored);
    [pushed, completing, saved] + if o.saved then [saved, saved] else []
  }

  function ContainerTrail(w: World, prefix: string, c: Container, o: Outcome, now: nat): seq<World> {
    var v := Announced(w, c, o, now);
    [w.(status := v.status), v] +
    if !o.announced then []
    else if !ReachesRegistry(o) then ReportTrail(v, c, o.failureSaved, now)
    else PublishTrail(v, prefix, c, o, now)
  }

  function StageTrail(w: World, prefix: string, c: Container, o: Outcome, now: nat): seq<World> {
    var q := RunContainer(w, prefix, c, o, now);
    ContainerTrail(w, prefix, c, o, now) + if q.ok then [] else ReportTrail(q.world, c, o.failureReported, now)
  }

  function RunTrail(w: World, prefix: string, cs: seq<Container>, os: seq<Outcome>, now: nat, n: nat): seq<World>
    requires |os| == |cs| && n <= |cs|
  {
    if n == 0 then []
    else
      var r := RunContainers(w, prefix, cs, os, now, n - 1);
      RunTrail(w, prefix, cs, os, now, n - 1)
      + if r.ok then StageTrail(r.world, prefix, cs[n - 1], os[n - 1], now) else []
  }

  // ---- The code -------------------------------------------------------------------------------------------

  class Checkpoint {
    const prefix: string  // registry, repository, namespace and pod of the checkpoint image names
    var status: Status
    var stored: Status
    var pushes: seq<Push>
    ghost var trail: seq<World>  // the states passed through

    constructor (prefix: string)
      ensures this.prefix == prefix && Now() == FRESH && trail == []
    {
      this.prefix := prefix;
      status, stored, pushes, trail := EMPTY_STATUS, EMPTY_STATUS, [], [];
    }

    ghost function Now(): World
      reads this
    {
      World(status, stored, pushes)
    }

    method SetStatus(s: Status)
      modifies this`status, this`trail
      ensures status == s && trail == old(trail) + [Now()]
    {
      status := s;
      trail := trail + [Now()];
    }

    method UpdateStatus(ok: bool)
      modifies this`stored, this`trail
      ensures stored == (if ok then status else old(stored)) && trail == old(trail) + [Now()]
    {
      if ok { stored := status; }
      trail := trail + [Now()];
    }

    method PushImage(image: string, base: string)
      modifies this`pushes, this`trail
      ensures pushes == old(pushes) + [Push(image, base)] && trail == old(trail) + [Now()]
    {
      pushes := pushes + [Push(image, base)];
      trail := trail + [Now()];
    }

    method Fail(c: Container, now: nat, saved: bool)
      modifies this`status, this`stored, this`trail
      ensures Now() == Report(old(Now()), c, saved, now) && trail == old(trail) + ReportTrail(old(Now()), c, saved, now)
    {
      SetStatus(status.(originalImage := c.image, lastCheckpointTime := Some(now), phase := Failed));
      UpdateStatus(saved);
    }

    method CheckpointContainer(c: Container, o: Outcome, now: nat) returns (ok: bool)
      modifies this
      ensures Result(Now(), ok) == RunContainer(old(Now()), prefix, c, o, now)
      ensures trail == old(trail) + ContainerTrail(old(Now()), prefix, c, o, now)
    {
      SetStatus(status.(originalImage := c.image, lastCheckpointTime := Some(now), phase := Running));
      UpdateStatus(o.announced);
      assert Now() == Announced(old(Now()), c, o, now);
      if !o.announced { return false; }
      if !o.created { Fail(c, now, o.failureSaved); return false; }
      if !o.arrived { Fail(c, now, o.failureSaved); return false; }
      if !o.downloaded { Fail(c, now, o.failureSaved); return false; }
      if !o.built { Fail(c, now, o.failureSaved); return false; }
      if !o.pushed { Fail(c, now, o.failureSaved); return false; }
      ok := PushAndComplete(ImageName(prefix, c), c, o, now);
    }

    /** The steps from the push on. */
    method PushAndComplete(imageName: string, c: Container, o: Outcome, now: nat) returns (ok: bool)
      requires imageName == ImageName(prefix, c)
      modifies this
      ensures Result(Now(), ok) == Publish(old(Now()), prefix, c, o, now)
      ensures trail == old(trail) + PublishTrail(old(Now()), prefix, c, o, now)
    {
      var baseImage := c.image;
      PushImage(imageName, baseImage);
      SetStatus(Status(Completed, Some(now), baseImage, imageName));
      UpdateStatus(o.saved);
      if !o.saved { return false; }
      // pre-pulling the image and removing local copies may fail without consequence
      SetStatus(Status(Completed, Some(now), baseImage, imageName));
      UpdateStatus(o.savedAgain);
      return o.savedAgain;
    }

    /** podFound and running describe the pod lookup that precedes the container loop. */
    method PerformCheckpoint(podFound: bool, running: bool, cs: seq<Container>, os: seq<Outcome>, now: nat)
      returns (ok: bool)
      requires |os| == |cs|
      modifies this
      ensures !(podFound && running) ==> ok == podFound && Now() == old(Now()) && trail == old(trail)
      ensures podFound && running ==> Result(Now(), ok) == RunContainers(old(Now()), prefix, cs, os, now, |cs|)
      ensures podFound && running ==> trail == old(trail) + RunTrail(old(Now()), prefix, cs, os, now, |cs|)
    {
      if !podFound { return false; }
      if !running { return true; }
      ghost var start, before := Now(), trail;
      var i := 0;
      while i < |cs|
        invariant 0 <= i <= |cs|
        invariant RunContainers(start, prefix, cs, os, now, i) == Result(Now(), true)
        invariant trail == before + RunTrail(start, prefix, cs, os, now, i)
      {
        var done := ProcessContainer(cs, os, now, i, start, before);
        if !done {
          FirstErrorStops(start, prefix, cs, os, now, i + 1, |cs|);
          return false;
        }
        i := i + 1;
      }
      return true;
    }

    /** The body of the loop, for container i of a loop begun in start. */
    method ProcessContainer(cs: seq<Container>, os: seq<Outcome>, now: nat, i: nat, ghost start: World,
                            ghost before: seq<World>)
      returns (ok: bool)
      requires |os| == |cs| && i < |cs| && RunContainers(start, prefix, cs, os, now, i) == Result(Now(), true)
      requires trail == before + RunTrail(start, prefix, cs, os, now, i)
      modifies this
      ensures Result(Now(), ok) == RunContainers(start, prefix, cs, os, now, i + 1)
      ensures trail == before + RunTrail(start, prefix, cs, os, now, i + 1)
    {
      LoopTurn(start, prefix, cs, os, now, i, Now(), before);
      ok := RunStage(cs[i], os[i], now);
    }

    method RunStage(c: Container, o: Outcome, now: nat) returns (ok: bool)
      modifies this
      ensures Result(Now(), ok) == Stage(old(Now()), prefix, c, o, now)
      ensures trail == old(trail) + StageTrail(old(Now()), prefix, c, o, now)
    {
      ok := CheckpointContainer(c, o, now);
      if !ok {
        Fail(c, now, o.failureReported);
      }
    }
  }

  lemma LoopTurn(w: World, prefix: string, cs: seq<Container>, os: seq<Outcome>, now: nat, i: nat, v: World,
                 before: seq<World>)
    requires |os| == |cs| && i < |cs| && RunContainers(w, prefix, cs, os, now, i) == Result(v, true)
    ensures RunContainers(w, prefix, cs, os, now, i + 1) == Stage(v, prefix, cs[i], os[i], now)
    ensures before + RunTrail(w, prefix, cs, os, now, i + 1)
            == (before + RunTrail(w, prefix, cs, os, now, i)) + StageTrail(v, prefix, cs[i], os[i], now)
  {
  }

  lemma {:induction false} FirstErrorStops(w: World, prefix: string, cs: seq<Container>, os: seq<Outcome>, now: nat,
                                           k: nat, n: nat)
    requires |os| == |cs| && k <= n <= |cs| && !RunContainers(w, prefix, cs, os, now, k).ok
    ensures RunContainers(w, prefix, cs, os, now, n) == RunContainers(w, prefix, cs, os, now, k)
    ensures RunTrail(w, prefix, cs, os, now, n) == RunTrail(w, prefix, cs, os, now, k)
  {
    if k < n {
      FirstErrorStops(w, prefix, cs, os, now, k, n - 1);
    }
  }

  // ---- One run --------------------------------------------------------------------------------------------

  function Pushes(prefix: string, cs: seq<Container>, n: nat): (r: seq<Push>)
    requires n <= |cs|
    ensures |r| == n && forall i | 0 <= i < n :: r[i] == Push(prefix + cs[i].name + ":latest", cs[i].image)
  {
    seq(n, i requires 0 <= i < n => PushOf(prefix, cs[i]))
  }

  /** All steps of a container's checkpoint succeeded. */
  predicate AllSteps(o: Outcome) {
    o.announced && o.created && o.arrived && o.downloaded && o.built && o.pushed && o.saved && o.savedAgain
  }

  /** Its image is in the registry. */
  predicate ImageIsOut(o: Outcome) {
    o.announced && o.created && o.arrived && o.downloaded && o.built && o.pushed
  }

  /** Container k is the first one a step of which failed. */
  predicate FailsFirst(os: seq<Outcome>, k: nat) {
    k < |os| && !AllSteps(os[k]) && forall i | 0 <= i < k :: AllSteps(os[i])
  }

  /** LastCheckpointImage after m pushes of a run begun in w. */
  function LastAfter(w: World, prefix: string, cs: seq<Container>, m: nat): string
    requires m <= |cs|
  {
    if m == 0 then w.status.lastCheckpointImage else prefix + cs[m - 1].name + ":latest"
  }

  /** The run begun in w ended in t with the failure of container k: the images pushed before it and, if that got so
      far, its own are in the registry, and the status in memory is Failed with the container's image.  The stored
      status is that one if a report of the failure got through, else the last one that did. */
  predicate StoppedAt(w: World, t: World, prefix: string, cs: seq<Container>, os: seq<Outcome>, now: nat, k: nat) {
    && k < |cs| == |os|
    && var o, image := os[k], cs[k].image;
       var last := LastAfter(w, prefix, cs, if ImageIsOut(o) then k + 1 else k);
       && t.pushes == w.pushes + Pushes(prefix, cs, if ImageIsOut(o) then k + 1 else k)
       && t.status == Status(Failed, Some(now), image, last)
       && t.stored ==
          if o.failureReported || (o.announced && !ImageIsOut(o) && o.failureSaved) then t.status
          else if ImageIsOut(o) && o.saved then Status(Completed, Some(now), image, last)
          else if o.announced then Status(Running, Some(now), image, LastAfter(w, prefix, cs, k))
          else if k > 0 then Status(Completed, Some(now), cs[k - 1].image, LastAfter(w, prefix, cs, k))
          else w.stored
  }

  /** After n successful containers their images have been pushed in order, and both statuses are Completed on the last
      one. */
  predicate SucceededTo(w: World, t: World, prefix: string, cs: seq<Container>, now: nat, n: nat) {
    && n <= |cs|
    && t.pushes == w.pushes + Pushes(prefix, cs, n)
    && (n == 0 ==> t == w)
    && (n > 0 ==> t.status == t.stored == Status(Completed, Some(now), cs[n - 1].image, LastAfter(w, prefix, cs, n)))
  }

  lemma StageOutcome(w: World, v: World, prefix: string, cs: seq<Container>, os: seq<Outcome>, now: nat, k: nat)
    requires k < |cs| == |os| && SucceededTo(w, v, prefix, cs, now, k)
    ensures var q := Stage(v, prefix, cs[k], os[k], now);
            && (q.ok <==> AllSteps(os[k]))
            && if q.ok then SucceededTo(w, q.world, prefix, cs, now, k + 1)
               else StoppedAt(w, q.world, prefix, cs, os, now, k)
  {
    assert w.pushes + Pushes(prefix, cs, k) + [PushOf(prefix, cs[k])] == w.pushes + Pushes(prefix, cs, k + 1);
  }

  /** A run succeeds exactly if all eight steps of every container do, and then has pushed every container's image in
      order and ends Completed on the last one.  Otherwise it is stopped by the first container one of whose steps
      failed, whose image is pushed exactly if the first six of them succeeded. */
  lemma {:induction false} RunOutcome(w: World, prefix: string, cs: seq<Container>, os: seq<Outcome>, now: nat, n: nat)
    requires |os| == |cs| && n <= |cs|
    ensures var r := RunContainers(w, prefix, cs, os, now, n);
            && (r.ok <==> forall i | 0 <= i < n :: AllSteps(os[i]))
            && (r.ok ==> SucceededTo(w, r.world, prefix, cs, now, n))
            && forall k: nat | k < n && FailsFirst(os, k) :: StoppedAt(w, r.world, prefix, cs, os, now, k)
  {
    if n == 0 {
      assert w.pushes + Pushes(prefix, cs, 0) == w.pushes;
    } else {
      RunOutcome(w, prefix, cs, os, now, n - 1);
      var r := RunContainers(w, prefix, cs, os, now, n - 1);
      if r.ok {
        StageOutcome(w, r.world, prefix, cs, os, now, n - 1);
      }
    }
  }

  /** LastCheckpointImage is its initial value or, once something was pushed, the image pushed last. */
  lemma {:induction false} LastImageIsLastPush(w: World, prefix: string, cs: seq<Container>, os: seq<Outcome>,
                                               now: nat, n: nat)
    requires |os| == |cs| && n <= |cs|
    ensures var t := RunContainers(w, prefix, cs, os, now, n).world;
            && |t.pushes| >= |w.pushes| && t.pushes[..|w.pushes|] == w.pushes
            && t.status.lastCheckpointImage ==
               (if |t.pushes| == |w.pushes| then w.status.lastCheckpointImage else t.pushes[|t.pushes| - 1].image)
            && (n > 0 ==> t.status.lastCheckpointTime == Some(now))
  {
    if n > 0 {
      LastImageIsLastPush(w, prefix, cs, os, now, n - 1);
    }
  }

  // ---- Pairing of the two images, over many runs ----------------------------------------------------------

  /** The base of what a tag of the registry refers to: the last push under that name. */
  function BaseOf(pushes: seq<Push>, image: string): Option<string> {
    if |pushes| == 0 then None
    else if pushes[|pushes| - 1].image == image then Some(pushes[|pushes| - 1].base)
    else BaseOf(pushes[..|pushes| - 1], image)
  }

  /** A non-empty LastCheckpointImage was built on OriginalImage. */
  predicate Paired(s: Status, pushes: seq<Push>) {
    s.lastCheckpointImage == "" || BaseOf(pushes, s.lastCheckpointImage) == Some(s.originalImage)
  }

  /** One run of a history: the pod's containers then, the outcomes, and whether it started from the stored object
      instead of the one in memory. */
  datatype Run = Run(containers: seq<Container>, outcomes: seq<Outcome>, now: nat, refetched: bool)

  predicate WellFormed(run: Run) {
    |run.outcomes| == |run.containers|
  }

  function StartOf(w: World, run: Run): World {
    if run.refetched then w.(status := w.stored) else w
  }

  function RunAll(w: World, prefix: string, runs: seq<Run>): World
    requires forall i | 0 <= i < |runs| :: WellFormed(runs[i])
  {
    if |runs| == 0 then w
    else
      var v := RunAll(w, prefix, runs[..|runs| - 1]);
      var run := runs[|runs| - 1];
      assert WellFormed(run);
      RunContainers(StartOf(v, run), prefix, run.containers, run.outcomes, run.now, |run.containers|).world
  }

  /** Every state a history of runs passes through, the first one included. */
  function History(w: World, prefix: string, runs: seq<Run>): seq<World>
    requires forall i | 0 <= i < |runs| :: WellFormed(runs[i])
  {
    if |runs| == 0 then [w]
    else
      var run := runs[|runs| - 1];
      assert WellFormed(run);
      var v := StartOf(RunAll(w, prefix, runs[..|runs| - 1]), run);
      History(w, prefix, runs[..|runs| - 1]) + [v]
      + RunTrail(v, prefix, run.containers, run.outcomes, run.now, |run.containers|)
  }

  /** A run whose object was fetched anew begins with the stored status, whatever the last run left in memory; any other
      one begins with what that left. */
  lemma RunBegins(prefix: string, before: seq<Run>, run: Run)
    requires (forall i | 0 <= i < |before| :: WellFormed(before[i])) && WellFormed(run)
    ensures forall i | 0 <= i < |before + [run]| :: WellFormed((before + [run])[i])
    ensures var v := RunAll(FRESH, prefix, before);
            RunAll(FRESH, prefix, before + [run])
            == RunContainers(World(if run.refetched then v.stored else v.status, v.stored, v.pushes), prefix,
                             run.containers, run.outcomes, run.now, |run.containers|).world
  {
    assert (before + [run])[..|before|] == before;
  }

  /** The image stems from a container of the run whose push succeeded. */
  predicate PushedIn(p: Push, prefix: string, run: Run) {
    exists i :: 0 <= i < |run.containers| && i < |run.outcomes| && run.outcomes[i].pushed
                && p == Push(prefix + run.containers[i].name + ":latest", run.containers[i].image)
  }

  lemma {:induction false} PushesSucceeded(w: World, prefix: string, run: Run, n: nat)
    requires WellFormed(run) && n <= |run.containers|
    ensures var t := RunContainers(w, prefix, run.containers, run.outcomes, run.now, n).world;
            && |t.pushes| >= |w.pushes| && t.pushes[..|w.pushes|] == w.pushes
            && forall j | |w.pushes| <= j < |t.pushes| :: PushedIn(t.pushes[j], prefix, run)
  {
    if n > 0 {
      PushesSucceeded(w, prefix, run, n - 1);
      var r := RunContainers(w, prefix, run.containers, run.outcomes, run.now, n - 1);
      if r.ok && run.outcomes[n - 1].pushed {
        assert PushedIn(PushOf(prefix, run.containers[n - 1]), prefix, run);
      }
    }
  }

  predicate Stems(p: Push, prefix: string, runs: seq<Run>) {
    exists i :: 0 <= i < |runs| && PushedIn(p, prefix, runs[i])
  }

  predicate AllStem(pushes: seq<Push>, prefix: string, runs: seq<Run>) {
    forall j | 0 <= j < |pushes| :: Stems(pushes[j], prefix, runs)
  }

  /** Whatever runs succeed or fail: every image the registry holds stems from a container whose push succeeded. */
  lemma {:induction false} RegistryHoldsPushed(prefix: string, runs: seq<Run>)
    requires forall i | 0 <= i < |runs| :: WellFormed(runs[i])
    ensures AllStem(RunAll(FRESH, prefix, runs).pushes, prefix, runs)
  {
    if |runs| > 0 {
      var before, run := runs[..|runs| - 1], runs[|runs| - 1];
      assert forall i | 0 <= i < |before| :: before[i] == runs[i];
      RegistryHoldsPushed(prefix, before);
      var v := RunAll(FRESH, prefix, before);
      PushesSucceeded(StartOf(v, run), prefix, run, |run.containers|);
      var pushes := RunAll(FRESH, prefix, runs).pushes;
      assert AllStem(v.pushes, prefix, before);
      forall j | 0 <= j < |pushes| ensures Stems(pushes[j], prefix, runs) {
        if j < |v.pushes| {
          assert pushes[j] == pushes[..|v.pushes|][j] == v.pushes[j];
          var i :| 0 <= i < |before| && PushedIn(v.pushes[j], prefix, before[i]);
          assert runs[i] == before[i];
        } else {
          assert PushedIn(pushes[j], prefix, runs[|runs| - 1]);
        }
      }
    }
  }

  /** Everything in the registry was built on base, and so were the images the two statuses name. */
  predicate BuiltOn(s: Status, pushes: seq<Push>, base: string) {
    s.lastCheckpointImage != "" ==>
      s.originalImage == base && exists i :: 0 <= i < |pushes| && pushes[i].image == s.lastCheckpointImage
  }

  predicate UniformWorld(w: World, base: string) {
    && (forall i | 0 <= i < |w.pushes| :: w.pushes[i].base == base)
    && BuiltOn(w.status, w.pushes, base) && BuiltOn(w.stored, w.pushes, base)
  }

  lemma {:induction false} UniformBase(pushes: seq<Push>, image: string, base: string)
    requires forall i | 0 <= i < |pushes| :: pushes[i].base == base
    requires exists i :: 0 <= i < |pushes| && pushes[i].image == image
    ensures BaseOf(pushes, image) == Some(base)
  {
    if pushes[|pushes| - 1].image != image {
      UniformBase(pushes[..|pushes| - 1], image, base);
    }
  }

  predicate AllUniform(trail: seq<World>, base: string) {
    forall i | 0 <= i < |trail| :: UniformWorld(trail[i], base)
  }

  lemma PushKeepsUniform(w: World, prefix: string, c: Container)
    requires UniformWorld(w, c.image)
    ensures UniformWorld(w.(pushes := w.pushes + [PushOf(prefix, c)]), c.image)
  {
    var t := w.(pushes := w.pushes + [PushOf(prefix, c)]);
    assert forall i | 0 <= i < |w.pushes| :: t.pushes[i] == w.pushes[i];
  }

  lemma PublishKeepsUniform(w: World, prefix: string, c: Container, o: Outcome, now: nat)
    requires UniformWorld(w, c.image)
    ensures UniformWorld(Publish(w, prefix, c, o, now).world, c.image)
    ensures AllUniform(PublishTrail(w, prefix, c, o, now), c.image)
  {
    PushKeepsUniform(w, prefix, c);
    assert (w.pushes + [PushOf(prefix, c)])[|w.pushes|] == PushOf(prefix, c);
  }

  lemma ReportKeepsUniform(w: World, c: Container, saved: bool, now: nat)
    requires UniformWorld(w, c.image)
    ensures UniformWorld(Report(w, c, saved, now), c.image) && AllUniform(ReportTrail(w, c, saved, now), c.image)
  {
  }

  lemma ContainerKeepsUniform(w: World, prefix: string, c: Container, o: Outcome, now: nat)
    requires UniformWorld(w, c.image)
    ensures UniformWorld(RunContainer(w, prefix, c, o, now).world, c.image)
    ensures AllUniform(ContainerTrail(w, prefix, c, o, now), c.image)
  {
    var v := Announced(w, c, o, now);
    assert UniformWorld(v, c.image) && UniformWorld(w.(status := v.status), c.image);
    ReportKeepsUniform(v, c, o.failureSaved, now);
    PublishKeepsUniform(v, prefix, c, o, now);
  }

  lemma StageKeepsUniform(w: World, prefix: string, c: Container, o: Outcome, now: nat)
    requires UniformWorld(w, c.image)
    ensures UniformWorld(Stage(w, prefix, c, o, now).world, c.image)
    ensures AllUniform(StageTrail(w, prefix, c, o, now), c.image)
  {
    ContainerKeepsUniform(w, prefix, c, o, now);
    ReportKeepsUniform(RunContainer(w, prefix, c, o, now).world, c, o.failureReported, now);
  }

  lemma {:induction false} RunKeepsUniform(w: World, prefix: string, cs: seq<Container>, os: seq<Outcome>, now: nat,
                                           n: nat, base: string)
    requires |os| == |cs| && n <= |cs| && UniformWorld(w, base) && forall i | 0 <= i < |cs| :: cs[i].image == base
    ensures UniformWorld(RunContainers(w, prefix, cs, os, now, n).world, base)
    ensures AllUniform(RunTrail(w, prefix, cs, os, now, n), base)
  {
    if n > 0 {
      RunKeepsUniform(w, prefix, cs, os, now, n - 1, base);
      var r := RunContainers(w, prefix, cs, os, now, n - 1);
      if r.ok {
        StageKeepsUniform(r.world, prefix, cs[n - 1], os[n - 1], now);
      }
    }
  }

  predicate UniformRuns(runs: seq<Run>, base: string) {
    forall i, j | 0 <= i < |runs| && 0 <= j < |runs[i].containers| :: runs[i].containers[j].image == base
  }

  lemma {:induction false} RunsKeepUniform(w: World, prefix: string, runs: seq<Run>, base: string)
    requires (forall i | 0 <= i < |runs| :: WellFormed(runs[i])) && UniformRuns(runs, base) && UniformWorld(w, base)
    ensures UniformWorld(RunAll(w, prefix, runs), base) && AllUniform(History(w, prefix, runs), base)
  {
    if |runs| > 0 {
      var before := runs[..|runs| - 1];
      assert forall i | 0 <= i < |before| :: before[i] == runs[i];
      RunsKeepUniform(w, prefix, before, base);
      var run := runs[|runs| - 1];
      RunKeepsUniform(StartOf(RunAll(w, prefix, before), run), prefix, run.containers, run.outcomes, run.now,
                      |run.containers|, base);
    }
  }

  lemma UniformIsPaired(s: Status, pushes: seq<Push>, base: string)
    requires (forall i | 0 <= i < |pushes| :: pushes[i].base == base) && BuiltOn(s, pushes, base)
    ensures Paired(s, pushes)
  {
    if s.lastCheckpointImage != "" {
      UniformBase(pushes, s.lastCheckpointImage, base);
    }
  }

  /** The status in memory and the one anybody else can read are paired. */
  predicate PairedWorld(w: World) {
    Paired(w.status, w.pushes) && Paired(w.stored, w.pushes)
  }

  predicate AllPaired(trail: seq<World>) {
    forall i | 0 <= i < |trail| :: PairedWorld(trail[i])
  }

  /** Whatever runs succeed or fail: as long as all containers ever checkpointed run one image, the status in memory
      and the stored one are paired in every state of every run.  A single-container pod with a fixed image is the
      plain case. */
  lemma PairedThroughout(prefix: string, runs: seq<Run>, base: string)
    requires (forall i | 0 <= i < |runs| :: WellFormed(runs[i])) && UniformRuns(runs, base)
    ensures AllPaired(History(FRESH, prefix, runs))
  {
    RunsKeepUniform(FRESH, prefix, runs, base);
    var trail := History(FRESH, prefix, runs);
    forall i | 0 <= i < |trail| ensures PairedWorld(trail[i]) {
      assert UniformWorld(trail[i], base);
      UniformIsPaired(trail[i].status, trail[i].pushes, base);
      UniformIsPaired(trail[i].stored, trail[i].pushes, base);
    }
  }

  /** Every history of runs of a pod with these containers is paired in all of its states. */
  ghost predicate AlwaysPaired(prefix: string, cs: seq<Container>) {
    forall runs: seq<Run> | forall i | 0 <= i < |runs| :: WellFormed(runs[i]) && runs[i].containers == cs ::
      AllPaired(History(FRESH, prefix, runs))
  }

  predicate OneImage(cs: seq<Container>) {
    forall i | 0 < i < |cs| :: cs[i].image == cs[i - 1].image
  }

  lemma {:induction false} OneImageEverywhere(cs: seq<Container>, n: nat)
    requires OneImage(cs) && n < |cs|
    ensures cs[n].image == cs[0].image
  {
    if n > 0 {
      OneImageEverywhere(cs, n - 1);
    }
  }

  const GOOD := Outcome(true, true, true, true, true, true, true, true, true, true)

  lemma {:induction false} GoodRun(prefix: string, cs: seq<Container>, os: seq<Outcome>, n: nat)
    requires |os| == |cs| && n <= |cs| && forall i | 0 <= i < n :: os[i] == GOOD
    ensures RunContainers(FRESH, prefix, cs, os, 0, n).ok
  {
    if n > 0 {
      GoodRun(prefix, cs, os, n - 1);
    }
  }

  /** What the loop over the first containers passes through, the whole loop passes through. */
  lemma {:induction false} TrailGrows(w: World, prefix: string, cs: seq<Container>, os: seq<Outcome>, now: nat, k: nat,
                                      n: nat, i: nat)
    requires |os| == |cs| && k <= n <= |cs| && i < |RunTrail(w, prefix, cs, os, now, k)|
    ensures i < |RunTrail(w, prefix, cs, os, now, n)|
    ensures RunTrail(w, prefix, cs, os, now, n)[i] == RunTrail(w, prefix, cs, os, now, k)[i]
  {
    if k < n {
      TrailGrows(w, prefix, cs, os, now, k, n - 1, i);
    }
  }

  /** Announcing container k stores its image beside the checkpoint of the container before it. */
  lemma AnnouncedMispaired(prefix: string, cs: seq<Container>, os: seq<Outcome>, k: nat)
    requires 0 < k < |cs| == |os| && cs[k].image != cs[k - 1].image && forall i | 0 <= i < |os| :: os[i] == GOOD
    ensures var r := RunContainers(FRESH, prefix, cs, os, 0, k);
            r.ok && !Paired(Announced(r.world, cs[k], os[k], 0).stored, r.world.pushes)
  {
    GoodRun(prefix, cs, os, k);
    RunOutcome(FRESH, prefix, cs, os, 0, k);
    var r := RunContainers(FRESH, prefix, cs, os, 0, k).world;
    assert r.pushes[|r.pushes| - 1] == PushOf(prefix, cs[k - 1]);
    assert |ImageName(prefix, cs[k - 1])| >= |":latest"|;
  }

  /** The stored announcement of container k among the states of the whole loop. */
  lemma AnnouncedOnTheWay(w: World, prefix: string, cs: seq<Container>, os: seq<Outcome>, now: nat, k: nat)
    returns (j: nat)
    requires |os| == |cs| && k < |cs| && RunContainers(w, prefix, cs, os, now, k).ok
    ensures j < |RunTrail(w, prefix, cs, os, now, |cs|)|
    ensures RunTrail(w, prefix, cs, os, now, |cs|)[j]
            == Announced(RunContainers(w, prefix, cs, os, now, k).world, cs[k], os[k], now)
  {
    var r := RunContainers(w, prefix, cs, os, now, k).world;
    LoopTurn(w, prefix, cs, os, now, k, r, []);
    j := |RunTrail(w, prefix, cs, os, now, k)| + 1;
    assert RunTrail(w, prefix, cs, os, now, k + 1)[j] == StageTrail(r, prefix, cs[k], os[k], now)[1];
    TrailGrows(w, prefix, cs, os, now, k + 1, |cs|, j);
  }

  /** A run in which every step succeeds, and the state of it in which the stored status is mispaired: container k has
      just been announced. */
  lemma MispairedRun(prefix: string, cs: seq<Container>, k: nat) returns (run: Run, at: nat)
    requires 0 < k < |cs| && cs[k].image != cs[k - 1].image
    ensures WellFormed(run) && run.containers == cs && RunContainers(FRESH, prefix, cs, run.outcomes, run.now, |cs|).ok
    ensures at < |History(FRESH, prefix, [run])|
    ensures var w := History(FRESH, prefix, [run])[at]; !Paired(w.stored, w.pushes)
  {
    var os := seq(|cs|, i => GOOD);
    run := Run(cs, os, 0, false);
    GoodRun(prefix, cs, os, |cs|);
    AnnouncedMispaired(prefix, cs, os, k);
    var j := AnnouncedOnTheWay(FRESH, prefix, cs, os, 0, k);
    assert [run][..0] == [] && StartOf(FRESH, run) == FRESH;
    assert History(FRESH, prefix, [run]) == [FRESH] + [FRESH] + RunTrail(FRESH, prefix, cs, os, 0, |cs|);
    at := j + 2;
  }

  /** Exactly the pods whose containers all run one image are safe: in any other, a checkpoint run stores the checkpoint
      image of one container beside the original image of the next, even if nothing fails. */
  lemma PairedIffOneImage(prefix: string, cs: seq<Container>)
    ensures AlwaysPaired(prefix, cs) <==> OneImage(cs)
  {
    if OneImage(cs) {
      forall runs: seq<Run> | forall i | 0 <= i < |runs| :: WellFormed(runs[i]) && runs[i].containers == cs
        ensures AllPaired(History(FRESH, prefix, runs))
      {
        OneImagePaired(prefix, cs, runs);
      }
    } else {
      var k :| 0 < k < |cs| && cs[k].image != cs[k - 1].image;
      var runs := MispairedHistory(prefix, cs, k);
    }
  }

  lemma MispairedHistory(prefix: string, cs: seq<Container>, k: nat) returns (runs: seq<Run>)
    requires 0 < k < |cs| && cs[k].image != cs[k - 1].image
    ensures forall i | 0 <= i < |runs| :: WellFormed(runs[i]) && runs[i].containers == cs
    ensures !AllPaired(History(FRESH, prefix, runs))
  {
    var run, at := MispairedRun(prefix, cs, k);
    runs := [run];
    assert !PairedWorld(History(FRESH, prefix, runs)[at]);
  }

  lemma OneImagePaired(prefix: string, cs: seq<Container>, runs: seq<Run>)
    requires OneImage(cs) && forall i | 0 <= i < |runs| :: WellFormed(runs[i]) && runs[i].containers == cs
    ensures AllPaired(History(FRESH, prefix, runs))
  {
    forall j | 0 <= j < |cs| ensures cs[j].image == cs[0].image {
      OneImageEverywhere(cs, j);
    }
    PairedThroughout(prefix, runs, if |cs| == 0 then "" else cs[0].image);
  }

  // ---- LastCheckpointTime ---------------------------------------------------------------------------------

  /** The run stored something: its first announcement, or the report of that one's failure. */
  predicate Stores(run: Run)
    requires WellFormed(run)
  {
    |run.outcomes| > 0 && (run.outcomes[0].announced || run.outcomes[0].failureReported)
  }

  /** The run begun in v succeeded. */
  predicate Succeeds(v: World, prefix: string, run: Run)
    requires WellFormed(run)
  {
    && |run.containers| > 0
    && RunContainers(StartOf(v, run), prefix, run.containers, run.outcomes, run.now, |run.containers|).ok
  }

  /** The time of the last successful run. */
  function LastSuccess(prefix: string, runs: seq<Run>): Option<nat>
    requires forall i | 0 <= i < |runs| :: WellFormed(runs[i])
  {
    if |runs| == 0 then None
    else
      var run := runs[|runs| - 1];
      if Succeeds(RunAll(FRESH, prefix, runs[..|runs| - 1]), prefix, run) then Some(run.now)
      else LastSuccess(prefix, runs[..|runs| - 1])
  }

  /** The last run that stored anything succeeded, or none did. */
  predicate LastStoringRunSucceeded(prefix: string, runs: seq<Run>)
    requires forall i | 0 <= i < |runs| :: WellFormed(runs[i])
  {
    |runs| == 0 ||
    var run := runs[|runs| - 1];
    if Stores(run) then Succeeds(RunAll(FRESH, prefix, runs[..|runs| - 1]), prefix, run)
    else LastStoringRunSucceeded(prefix, runs[..|runs| - 1])
  }

  lemma {:induction false} StoredTime(w: World, prefix: string, cs: seq<Container>, os: seq<Outcome>, now: nat, n: nat)
    requires |os| == |cs| && 0 < n <= |cs|
    ensures var r := RunContainers(w, prefix, cs, os, now, n);
            if os[0].announced || os[0].failureReported then r.world.stored.lastCheckpointTime == Some(now)
            else r.world.stored == w.stored && !r.ok
  {
    if n > 1 {
      StoredTime(w, prefix, cs, os, now, n - 1);
    } else {
      assert RunContainers(w, prefix, cs, os, now, 0) == Result(w, true);
    }
  }

  predicate LaterAndLater(runs: seq<Run>) {
    forall i, j | 0 <= i < j < |runs| :: runs[i].now < runs[j].now
  }

  lemma {:induction false} LastSuccessBefore(prefix: string, runs: seq<Run>)
    requires forall i | 0 <= i < |runs| :: WellFormed(runs[i])
    ensures LastSuccess(prefix, runs).Some? ==>
              exists i :: 0 <= i < |runs| && LastSuccess(prefix, runs) == Some(runs[i].now)
  {
    if |runs| > 0 && !Succeeds(RunAll(FRESH, prefix, runs[..|runs| - 1]), prefix, runs[|runs| - 1]) {
      LastSuccessBefore(prefix, runs[..|runs| - 1]);
    }
  }

  /** The stored LastCheckpointTime is the time of the last success, as documented, if and only if the last run that
      stored anything succeeded. */
  lemma {:induction false} LastTimeIsLastSuccessIff(prefix: string, runs: seq<Run>)
    requires (forall i | 0 <= i < |runs| :: WellFormed(runs[i])) && LaterAndLater(runs)
    ensures RunAll(FRESH, prefix, runs).stored.lastCheckpointTime == LastSuccess(prefix, runs)
            <==> LastStoringRunSucceeded(prefix, runs)
  {
    if |runs| > 0 {
      var before, run := runs[..|runs| - 1], runs[|runs| - 1];
      assert forall i | 0 <= i < |before| :: before[i] == runs[i];
      LastTimeIsLastSuccessIff(prefix, before);
      LastSuccessBefore(prefix, before);
      if |run.containers| > 0 {
        StoredTime(StartOf(RunAll(FRESH, prefix, before), run), prefix, run.containers, run.outcomes, run.now,
                   |run.containers|);
      }
    }
  }
}

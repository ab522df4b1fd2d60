/** The heartbeat store and the node monitor together, over every interleaving of heartbeats and ticks. */
module NodeHistory {
  import opened Episodes
  import opened NodeDetector
  import opened Wrappers

  /** A heartbeat stored at a time, or a tick of the monitor with its clock readings and the nodes whose machines could
      not be listed if they were declared unhealthy now. */
  datatype Event = Beat(hb: Payload, at: nat) | Tick(now: nat, clock: nat, unlistable: set<string>)

  type History = seq<Event>

  function Last(h: History): Event
    requires |h| > 0
  {
    h[|h| - 1]
  }

  function Init(h: History): History
    requires |h| > 0
  {
    h[..|h| - 1]
  }

  /** Ticks of the first five seconds do nothing. */
  predicate Snaps(e: Event, startup: nat) {
    e.Tick? && e.now >= startup + WARMUP
  }

  // ---- What the code computes over a history --------------------------------------------------------------

  function StoreNext(data: Store, e: Event): Store {
    if e.Beat? then data[e.hb.nodeName := Payload(e.hb.nodeName, e.at, 0, e.hb.report)] else data
  }

  function DataAfter(h: History): Store {
    if |h| == 0 then map[] else StoreNext(DataAfter(Init(h)), Last(h))
  }

  /** The monitor's state as long as no machine listing has failed. */
  function ViewsAfter(h: History, startup: nat): Views {
    if |h| == 0 then map[]
    else if Snaps(Last(h), startup) then
      TickAll(ViewsAfter(Init(h), startup), DataAfter(Init(h)), Last(h).now, Last(h).clock)
    else ViewsAfter(Init(h), startup)
  }

  /** The nodes the last event finds unhealthy. */
  function FiredBy(h: History, startup: nat): set<string>
    requires |h| > 0
  {
    if Snaps(Last(h), startup) then
      FiredIn(ViewsAfter(Init(h), startup), DataAfter(Init(h)), Last(h).now, Last(h).clock)
    else {}
  }

  /** Some tick met a node whose machines could not be listed: the monitor has returned for good. */
  predicate StoppedBy(h: History, startup: nat) {
    |h| > 0 && (StoppedBy(Init(h), startup)
                || (Last(h).Tick? && exists node :: node in FiredBy(h, startup) && node in Last(h).unlistable))
  }

  /** How often a node has been found unhealthy. */
  function Declarations(h: History, startup: nat, node: string): nat {
    if |h| == 0 then 0 else Declarations(Init(h), startup, node) + if node in FiredBy(h, startup) then 1 else 0
  }

  /** The nodes declared unhealthy by the last event: those it finds so, unless the monitor has stopped; in the tick
      that stops it, some of them, but none whose machines could not be listed. */
  predicate Declares(h: History, startup: nat, declared: set<string>)
    requires |h| > 0
  {
    if StoppedBy(Init(h), startup) then declared == {}
    else if StoppedBy(h, startup) then Last(h).Tick? && declared <= FiredBy(h, startup) - Last(h).unlistable
    else declared == FiredBy(h, startup)
  }

  /** One tick past the warm-up. */
  method TakeSnapshot(store: HeartbeatStore, monitor: NodeMonitor, now: nat, clock: nat, unlistable: set<string>)
    returns (fired: set<string>, stopped: bool)
    requires store.Valid() && monitor.Valid()
    modifies monitor, monitor.state.Values
    ensures monitor.Valid() && fresh(monitor.state.Values - old(monitor.state.Values))
    ensures stopped <==> Aborting(old(monitor.View()), store.data, now, clock, unlistable)
    ensures !stopped ==> monitor.View() == TickAll(old(monitor.View()), store.data, now, clock)
    ensures !stopped ==> fired == FiredIn(old(monitor.View()), store.data, now, clock)
    ensures fired <= FiredIn(old(monitor.View()), store.data, now, clock) - unlistable
  {
    var nodes := store.All();
    TickMeaning(monitor.View(), store.data, nodes, now, clock, unlistable);
    fired, stopped := monitor.Tick(nodes, now, clock, unlistable);
  }

  /** The monitor at the end of h, unless it has stopped. */
  method React(h: History, startup: nat, store: HeartbeatStore, monitor: NodeMonitor, stopped: bool)
    returns (declared: set<string>, stopped': bool)
    requires |h| > 0 && store.Valid() && monitor.Valid()
    requires store.data == DataAfter(Init(h)) && (stopped <==> StoppedBy(Init(h), startup))
    requires !stopped ==> monitor.View() == ViewsAfter(Init(h), startup)
    modifies monitor, monitor.state.Values
    ensures monitor.Valid() && fresh(monitor.state.Values - old(monitor.state.Values))
    ensures stopped' <==> StoppedBy(h, startup)
    ensures !stopped' ==> monitor.View() == ViewsAfter(h, startup)
    ensures Declares(h, startup, declared)
  {
    declared, stopped' := {}, stopped;
    if !stopped && Last(h).Tick? && Last(h).now >= startup + WARMUP {
      declared, stopped' := TakeSnapshot(store, monitor, Last(h).now, Last(h).clock, Last(h).unlistable);
    }
  }

  /** The store at the end of h. */
  method Receive(h: History, store: HeartbeatStore)
    requires |h| > 0 && store.Valid() && store.data == DataAfter(Init(h))
    modifies store
    ensures store.Valid() && store.data == DataAfter(h)
  {
    if Last(h).Beat? {
      store.Update(Last(h).hb, Last(h).at);
    }
  }

  /** declared lists, event by event, what the first n events of h declare. */
  predicate DeclaredSoFar(h: History, startup: nat, declared: seq<set<string>>, n: nat)
    requires n <= |h|
  {
    |declared| == n && forall j | 0 <= j < n :: Declares(h[..j + 1], startup, declared[j])
  }

  lemma OneMoreDeclared(h: History, startup: nat, declared: seq<set<string>>, n: nat, now: set<string>)
    requires n < |h| && DeclaredSoFar(h, startup, declared, n) && Declares(h[..n + 1], startup, now)
    ensures DeclaredSoFar(h, startup, declared + [now], n + 1)
  {
  }

  /** The store and the monitor, driven by a history. */
  method Drive(h: History, startup: nat)
    returns (store: HeartbeatStore, monitor: NodeMonitor, declared: seq<set<string>>, stopped: bool)
    ensures store.Valid() && store.data == DataAfter(h)
    ensures monitor.Valid() && (stopped <==> StoppedBy(h, startup))
    ensures !stopped ==> monitor.View() == ViewsAfter(h, startup)
    ensures DeclaredSoFar(h, startup, declared, |h|)
  {
    store := new HeartbeatStore();
    monitor := new NodeMonitor();
    declared, stopped := [], false;
    var i := 0;
    assert h[..0] == [];
    while i < |h|
      invariant 0 <= i <= |h| && fresh(store) && fresh(monitor) && fresh(monitor.state.Values)
      invariant store.Valid() && store.data == DataAfter(h[..i])
      invariant monitor.Valid() && (stopped <==> StoppedBy(h[..i], startup))
      invariant !stopped ==> monitor.View() == ViewsAfter(h[..i], startup)
      invariant DeclaredSoFar(h, startup, declared, i)
    {
      assert Init(h[..i + 1]) == h[..i];
      var now: set<string>;
      now, stopped := React(h[..i + 1], startup, store, monitor, stopped);
      Receive(h[..i + 1], store);
      OneMoreDeclared(h, startup, declared, i, now);
      declared := declared + [now];
      i := i + 1;
    }
    assert h[..|h|] == h;
  }

  // ---- What a history means -------------------------------------------------------------------------------

  /** A heartbeat of the node arrived since the last snapshot. */
  predicate BeatSince(h: History, startup: nat, node: string) {
    && |h| > 0 && !Snaps(Last(h), startup)
    && ((Last(h).Beat? && Last(h).hb.nodeName == node) || BeatSince(Init(h), startup, node))
  }

  predicate EverBeat(h: History, node: string) {
    exists i :: 0 <= i < |h| && h[i].Beat? && h[i].hb.nodeName == node
  }

  /** The observations of a node at the snapshots from its first one on: the first sighting counts as Stale, a later
      one is Fresh exactly if a heartbeat arrived since the snapshot before. */
  function Observations(h: History, startup: nat, node: string): seq<Obs> {
    if |h| == 0 then []
    else
      var before := Observations(Init(h), startup, node);
      if !Snaps(Last(h), startup) || !EverBeat(Init(h), node) then before
      else before + [if |before| > 0 && BeatSince(Init(h), startup, node) then Fresh else Stale]
  }

  /** Heartbeats are stamped by a strictly increasing clock. */
  predicate Increasing(h: History) {
    forall i, j | 0 <= i < j < |h| && h[i].Beat? && h[j].Beat? :: h[i].at < h[j].at
  }

  /** Agreement of the store with the monitor, for one node. */
  predicate Agrees(h: History, startup: nat, node: string) {
    var data := DataAfter(h);
    var views := ViewsAfter(h, startup);
    && (node in data <==> EverBeat(h, node))
    && (node in data ==>
          && data[node].nodeName == node
          && exists i :: 0 <= i < |h| && h[i].Beat? && h[i].at == data[node].receivedAt)
    && (node in views ==> node in data && views[node].last <= data[node].receivedAt)
    && (node in views ==> (BeatSince(h, startup, node) <==> views[node].last < data[node].receivedAt))
  }

  lemma EverBeatStep(h: History, node: string)
    requires |h| > 0
    ensures EverBeat(h, node) <==> EverBeat(Init(h), node) || (Last(h).Beat? && Last(h).hb.nodeName == node)
  {
  }

  lemma {:induction false} StoreAgreement(h: History, startup: nat, node: string)
    requires Increasing(h)
    ensures Agrees(h, startup, node)
  {
    if |h| > 0 {
      StoreAgreement(Init(h), startup, node);
      EverBeatStep(h, node);
      AgreementStep(h, startup, node);
    }
  }

  lemma AgreementStep(h: History, startup: nat, node: string)
    requires |h| > 0 && Increasing(h) && Agrees(Init(h), startup, node)
    ensures Agrees(h, startup, node)
  {
  }

  /** The monitor's state for a node and the number of its declarations are those of the counting detector run on
      the node's observations. */
  predicate Traced(h: History, startup: nat, node: string) {
    var obs := Observations(h, startup, node);
    var views := ViewsAfter(h, startup);
    && (node in views <==> |obs| > 0)
    && (node in views ==>
          && CountAll(obs, THRESHOLD)
             == Counter(views[node].misses, views[node].triggered, Declarations(h, startup, node))
          && (views[node].detected.Some? <==> views[node].misses > 0))
    && (node !in views ==> Declarations(h, startup, node) == 0)
  }

  /** The node detector refines the trace specification at every point of every interleaving. */
  lemma {:induction false} NodeTrace(h: History, startup: nat, node: string)
    requires Increasing(h)
    ensures Traced(h, startup, node)
  {
    if |h| > 0 {
      NodeTrace(Init(h), startup, node);
      StoreAgreement(Init(h), startup, node);
      if Snaps(Last(h), startup) && EverBeat(Init(h), node) {
        CountStep(h, startup, node);
      } else {
        IdleStep(h, startup, node);
      }
    }
  }

  lemma IdleStep(h: History, startup: nat, node: string)
    requires |h| > 0 && Traced(Init(h), startup, node) && Agrees(Init(h), startup, node)
    requires !(Snaps(Last(h), startup) && EverBeat(Init(h), node))
    ensures Traced(h, startup, node)
  {
  }

  lemma CountStep(h: History, startup: nat, node: string)
    requires |h| > 0 && Snaps(Last(h), startup) && EverBeat(Init(h), node)
    requires Agrees(Init(h), startup, node) && Traced(Init(h), startup, node)
    ensures Traced(h, startup, node)
  {
  }

  /** The ticks at which the observations of a node were made. */
  function Sightings(h: History, startup: nat, node: string): (r: seq<Event>)
    ensures |r| == |Observations(h, startup, node)| && forall i | 0 <= i < |r| :: r[i].Tick?
  {
    if |h| == 0 then []
    else
      var before := Sightings(Init(h), startup, node);
      if !Snaps(Last(h), startup) || !EverBeat(Init(h), node) then before else before + [Last(h)]
  }

  /** The time of the first miss of the current silence, until the thirteenth miss re-stamps it with its own clock. */
  function DetectedAt(ticks: seq<Event>, misses: nat): Option<nat>
    requires forall i | 0 <= i < |ticks| :: ticks[i].Tick?
  {
    if misses == 0 || misses > |ticks| then None
    else if misses < THRESHOLD then Some(ticks[|ticks| - misses].now)
    else Some(ticks[|ticks| - misses + THRESHOLD - 1].clock)
  }

  predicate Stamped(v: NodeView, ticks: seq<Event>)
    requires forall i | 0 <= i < |ticks| :: ticks[i].Tick?
  {
    v.misses <= |ticks| && (v.triggered <==> v.misses >= THRESHOLD) && v.detected == DetectedAt(ticks, v.misses)
  }

  lemma ObserveStamps(v: NodeView, ticks: seq<Event>, receivedAt: nat, t: Event)
    requires t.Tick? && (forall i | 0 <= i < |ticks| :: ticks[i].Tick?) && Stamped(v, ticks)
    ensures Stamped(Observe(v, receivedAt, t.now, t.clock).view, ticks + [t])
  {
  }

  /** The detection time the monitor holds for a node it tracks is the one its observations call for. */
  lemma {:induction false} DetectionStamp(h: History, startup: nat, node: string)
    requires Increasing(h)
    ensures var views := ViewsAfter(h, startup);
            node in views ==> Stamped(views[node], Sightings(h, startup, node))
  {
    if |h| > 0 {
      DetectionStamp(Init(h), startup, node);
      StoreAgreement(Init(h), startup, node);
      NodeTrace(Init(h), startup, node);
      if Snaps(Last(h), startup) && node in DataAfter(Init(h)) {
        var views, hb := ViewsAfter(Init(h), startup), DataAfter(Init(h))[node];
        var view := if node in views then views[node] else FirstSight(hb.receivedAt);
        ObserveStamps(view, Sightings(Init(h), startup, node), hb.receivedAt, Last(h));
      }
    }
  }

  /** Detector guarantee in terms of heartbeats: thirteen snapshots in a row without a heartbeat declare a node
      unhealthy once per silent episode, and nothing else does. */
  lemma DeclaredOncePerEpisode(h: History, startup: nat, node: string)
    requires Increasing(h)
    ensures var obs := Observations(h, startup, node);
            && Declarations(h, startup, node) == |LongRuns(obs, 13)|
            && (Declarations(h, startup, node) == 0 <==> forall a :: !InARow(obs, a, 13))
            && (|obs| > 0 ==>
                  && node in ViewsAfter(h, startup)
                  && ViewsAfter(h, startup)[node].misses == TrailingStale(obs)
                  && (ViewsAfter(h, startup)[node].triggered <==> TrailingStale(obs) >= 13))
  {
    NodeTrace(h, startup, node);
    CountAllMeaning(Observations(h, startup, node), THRESHOLD);
    QuietIffNeverInARow(Observations(h, startup, node), THRESHOLD);
  }

  /** A node is found unhealthy by the last event exactly if that is a snapshot of it at which its silence becomes
      thirteen snapshots long. */
  lemma FiredIff(h: History, startup: nat, node: string)
    requires Increasing(h) && |h| > 0
    ensures node in FiredBy(h, startup) <==>
            && Snaps(Last(h), startup) && EverBeat(Init(h), node)
            && TrailingStale(Observations(h, startup, node)) == 13
  {
    NodeTrace(Init(h), startup, node);
    StoreAgreement(Init(h), startup, node);
    if Snaps(Last(h), startup) && EverBeat(Init(h), node) {
      var before, obs := Observations(Init(h), startup, node), Observations(h, startup, node);
      CountAllMeaning(before, THRESHOLD);
      assert obs[..|obs| - 1] == before;
    }
  }

  /** The monitor ends exactly at the first snapshot at which some node's silence becomes thirteen snapshots long and
      its machines cannot be listed. */
  lemma StopsIff(h: History, startup: nat)
    requires Increasing(h) && |h| > 0
    ensures StoppedBy(h, startup) <==>
            || StoppedBy(Init(h), startup)
            || (Snaps(Last(h), startup)
                && exists node :: node in Last(h).unlistable && EverBeat(Init(h), node)
                                  && TrailingStale(Observations(h, startup, node)) == 13)
  {
    if Snaps(Last(h), startup) {
      forall node | node in Last(h).unlistable
        ensures node in FiredBy(h, startup) <==>
                EverBeat(Init(h), node) && TrailingStale(Observations(h, startup, node)) == THRESHOLD
      {
        FiredIff(h, startup, node);
      }
    }
  }

  lemma {:induction false} StaysStopped(h: History, startup: nat, i: nat)
    requires i <= |h| && StoppedBy(h[..i], startup)
    ensures StoppedBy(h, startup)
  {
    if i == |h| {
      assert h[..i] == h;
    } else {
      assert Init(h)[..i] == h[..i];
      StaysStopped(Init(h), startup, i);
    }
  }

  /** Once stopped, the monitor declares nothing any more, whatever heartbeats and ticks follow. */
  lemma SilentAfterStop(h: History, startup: nat, i: nat, declared: set<string>)
    requires i < |h| && StoppedBy(h[..i], startup) && Declares(h, startup, declared)
    ensures declared == {}
  {
    assert Init(h)[..i] == h[..i];
    StaysStopped(Init(h), startup, i);
  }

  /** Event i is the last heartbeat of the node. */
  predicate LastBeat(h: History, node: string, i: int) {
    && 0 <= i < |h| && h[i].Beat? && h[i].hb.nodeName == node
    && forall j | i < j < |h| && h[j].Beat? :: h[j].hb.nodeName != node
  }

  /** The store holds exactly the nodes that ever reported, each with its last heartbeat, stamped by the store. */
  lemma {:induction false} StoreHoldsLastBeat(h: History, node: string)
    ensures node in DataAfter(h) <==> exists i :: LastBeat(h, node, i)
    ensures forall i | LastBeat(h, node, i) ::
              node in DataAfter(h) && DataAfter(h)[node] == Payload(node, h[i].at, 0, h[i].hb.report)
  {
    if |h| > 0 {
      StoreHoldsLastBeat(Init(h), node);
      if Last(h).Beat? && Last(h).hb.nodeName == node {
        assert LastBeat(h, node, |h| - 1);
      } else {
        assert forall i :: LastBeat(h, node, i) <==> LastBeat(Init(h), node, i);
      }
    }
  }

  /** Asking the store for a node after the heartbeats of a history gives the node's last one, or none. */
  method AskAfter(h: History, node: string) returns (hb: Option<Payload>)
    ensures hb.None? <==> forall i :: !LastBeat(h, node, i)
    ensures forall i | LastBeat(h, node, i) :: hb == Some(Payload(node, h[i].at, 0, h[i].hb.report))
  {
    var store := new HeartbeatStore();
    var i := 0;
    assert h[..0] == [];
    while i < |h|
      invariant 0 <= i <= |h| && fresh(store) && store.Valid() && store.data == DataAfter(h[..i])
    {
      assert Init(h[..i + 1]) == h[..i];
      Receive(h[..i + 1], store);
      i := i + 1;
    }
    assert h[..|h|] == h;
    hb := store.Get(node);
    StoreHoldsLastBeat(h, node);
  }

  // ---- Which ticks count, in plain numbers ----------------------------------------------------------------

  /** Two histories after which store, monitor and the declarations so far are the same. */
  ghost predicate Alike(g: History, h: History, startup: nat) {
    && DataAfter(g) == DataAfter(h) && ViewsAfter(g, startup) == ViewsAfter(h, startup)
    && (StoppedBy(g, startup) <==> StoppedBy(h, startup))
    && forall node :: Declarations(g, startup, node) == Declarations(h, startup, node)
  }

  lemma AlikeStep(g: History, h: History, e: Event, startup: nat)
    requires Alike(g, h, startup)
    ensures Alike(g + [e], h + [e], startup)
  {
    assert Init(g + [e]) == g && Init(h + [e]) == h && Last(g + [e]) == e && Last(h + [e]) == e;
    assert FiredBy(g + [e], startup) == FiredBy(h + [e], startup);
  }

  /** A tick of the monitor's first five seconds can be inserted or deleted anywhere without changing anything. */
  lemma {:induction false} WarmUpTickVanishes(before: History, e: Event, after: History, startup: nat)
    requires e.Tick? && e.now < startup + 5_000_000_000
    ensures Alike(before + [e] + after, before + after, startup)
  {
    if |after| == 0 {
      assert before + [e] + after == before + [e] && before + after == before;
      assert Init(before + [e]) == before && Last(before + [e]) == e;
      assert FiredBy(before + [e], startup) == {};
    } else {
      var rest, last := after[..|after| - 1], after[|after| - 1];
      WarmUpTickVanishes(before, e, rest, startup);
      AlikeStep(before + [e] + rest, before + rest, last, startup);
      assert before + [e] + after == (before + [e] + rest) + [last] && before + after == (before + rest) + [last];
    }
  }

  /** Every later tick looks at every node that ever reported: a node with a heartbeat since the snapshot before has no
      misses any more, any other one more; the thirteenth in a row finds it unhealthy. */
  lemma LaterTicksCount(before: History, e: Event, startup: nat, node: string)
    requires Increasing(before) && e.Tick? && e.now >= startup + 5_000_000_000
    ensures var u, v := ViewsAfter(before, startup), ViewsAfter(before + [e], startup);
            && (node in v <==> EverBeat(before, node))
            && (node in v ==>
                  var misses := if node in u then u[node].misses else 0;
                  && v[node].misses == (if node in u && BeatSince(before, startup, node) then 0 else misses + 1)
                  && (node in FiredBy(before + [e], startup) <==> v[node].misses == 13))
  {
    var h := before + [e];
    assert Init(h) == before && Last(h) == e;
    NodeTrace(before, startup, node);
    StoreAgreement(before, startup, node);
    CountAllMeaning(Observations(before, startup, node), THRESHOLD);
  }
}

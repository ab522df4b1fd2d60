/** The heartbeat store and the node fault detector MonitorNodes. */
module NodeDetector {
  import opened Episodes
  import opened Wrappers

  const WARMUP: nat := 5 * SECOND
  const THRESHOLD: nat := 13  // MissCount > 12

  /** A heartbeat; report stands for the address and machine data it carries. */
  datatype Payload = Payload(nodeName: string, receivedAt: nat, missCount: nat, report: string)

  type Store = map<string, Payload>

  predicate NamedByKey(data: Store) {
    forall k | k in data :: data[k].nodeName == k
  }

  class HeartbeatStore {
    var data: Store

    ghost predicate Valid()
      reads this
    {
      NamedByKey(data)
    }

    constructor ()
      ensures Valid() && data == map[]
    {
      data := map[];
    }

    method Update(hb: Payload, now: nat)
      requires Valid()
      modifies this
      ensures Valid() && data == old(data)[hb.nodeName := Payload(hb.nodeName, now, 0, hb.report)]
    {
      var stamped := hb.(receivedAt := now);
      stamped := stamped.(missCount := 0);
      data := data[stamped.nodeName := stamped];
    }

    method Get(node: string) returns (hb: Option<Payload>)
      ensures hb == if node in data then Some(data[node]) else None
    {
      if node in data { return Some(data[node]); }
      return None;
    }

    /** Every stored payload once, in whatever order the map iteration yields. */
    method All() returns (res: seq<Payload>)
      requires Valid()
      ensures IsSnapshot(res, data)
    {
      res := [];
      var rest := data.Keys;
      while rest != {}
        invariant rest <= data.Keys
        invariant forall i | 0 <= i < |res| ::
                    res[i].nodeName in data && res[i].nodeName !in rest && data[res[i].nodeName] == res[i]
        invariant forall i, j | 0 <= i < j < |res| :: res[i].nodeName != res[j].nodeName
        invariant forall k | k in data && k !in rest :: data[k] in res
        decreases rest
      {
        var k :| k in rest;
        res := res + [data[k]];
        rest := rest - {k};
      }
    }
  }

  predicate DistinctNodes(snapshot: seq<Payload>) {
    forall i, j | 0 <= i < j < |snapshot| :: snapshot[i].nodeName != snapshot[j].nodeName
  }

  /** snapshot lists the map's payloads, each once. */
  predicate IsSnapshot(snapshot: seq<Payload>, data: Store) {
    && DistinctNodes(snapshot)
    && (forall i | 0 <= i < |snapshot| :: snapshot[i].nodeName in data && data[snapshot[i].nodeName] == snapshot[i])
    && (forall k | k in data :: data[k] in snapshot)
  }

  // ---- One node -------------------------------------------------------------------------------------------

  datatype NodeView = NodeView(last: nat, detected: Option<nat>, triggered: bool, misses: nat)

  datatype Observed = Observed(view: NodeView, fired: bool)

  function FirstSight(receivedAt: nat): NodeView {
    NodeView(receivedAt, None, false, 0)
  }

  /** One look at a node; now is the tick's time, clock the time at which a trigger is stamped. */
  function Observe(v: NodeView, receivedAt: nat, now: nat, clock: nat): Observed {
    if receivedAt > v.last then Observed(NodeView(receivedAt, None, false, 0), false)
    else if !v.triggered && v.misses + 1 >= THRESHOLD then
      Observed(NodeView(v.last, Some(clock), true, v.misses + 1), true)
    else
      Observed(NodeView(v.last, Some(if v.detected.Some? then v.detected.value else now), v.triggered, v.misses + 1),
               false)
  }

  class NodeState {
    var tLastHeartbeat: nat
    var tDetected: Option<nat>
    var isTriggered: bool
    var missCount: nat

    constructor (receivedAt: nat)
      ensures View() == FirstSight(receivedAt)
    {
      tLastHeartbeat, tDetected, isTriggered, missCount := receivedAt, None, false, 0;
    }

    ghost function View(): NodeView
      reads this
    {
      NodeView(tLastHeartbeat, tDetected, isTriggered, missCount)
    }

    method Look(receivedAt: nat, now: nat, clock: nat) returns (fired: bool)
      modifies this
      ensures Observed(View(), fired) == Observe(old(View()), receivedAt, now, clock)
    {
      if receivedAt > tLastHeartbeat {
        tLastHeartbeat := receivedAt;
        isTriggered := false;
        missCount := 0;
        tDetected := None;
        return false;
      }
      missCount := missCount + 1;
      if tDetected.None? {
        tDetected := Some(now);
      }
      fired := false;
      if !isTriggered && missCount > 12 {
        tDetected := Some(clock);
        isTriggered := true;
        fired := true;
      }
    }
  }

  // ---- One tick -------------------------------------------------------------------------------------------

  type Views = map<string, NodeView>

  /** The monitor during a tick: the state map, the nodes declared unhealthy, and whether the machine listing failed. */
  datatype TickState = TickState(views: Views, fired: set<string>, stopped: bool)

  function Look(views: Views, hb: Payload, now: nat, clock: nat): Observed {
    Observe(if hb.nodeName in views then views[hb.nodeName] else FirstSight(hb.receivedAt), hb.receivedAt, now, clock)
  }

  /** The loop body for one payload; a trigger on a node whose machines cannot be listed ends the monitor. */
  function Process(s: TickState, hb: Payload, now: nat, clock: nat, unlistable: set<string>): TickState {
    if s.stopped then s
    else
      var o := Look(s.views, hb, now, clock);
      var views := s.views[hb.nodeName := o.view];
      if !o.fired then s.(views := views)
      else if hb.nodeName in unlistable then TickState(views, s.fired, true)
      else TickState(views, s.fired + {hb.nodeName}, false)
  }

  function ProcessAll(views: Views, snapshot: seq<Payload>, n: nat, now: nat, clock: nat,
                      unlistable: set<string>): TickState
    requires n <= |snapshot|
  {
    if n == 0 then TickState(views, {}, false)
    else Process(ProcessAll(views, snapshot, n - 1, now, clock, unlistable), snapshot[n - 1], now, clock, unlistable)
  }

  class NodeMonitor {
    var state: map<string, NodeState>

    ghost predicate Valid()
      reads this
    {
      forall j, k | j in state && k in state && j != k :: state[j] != state[k]
    }

    ghost function View(): Views
      reads this, state.Values
    {
      map k | k in state :: state[k].View()
    }

    constructor ()
      ensures Valid() && state == map[]
    {
      state := map[];
    }

    /** One pass over a snapshot.  stopped reports the early return on a failed machine listing. */
    method Tick(snapshot: seq<Payload>, now: nat, clock: nat, unlistable: set<string>)
      returns (fired: set<string>, stopped: bool)
      requires Valid()
      modifies this, state.Values
      ensures Valid() && fresh(state.Values - old(state.Values))
      ensures TickState(View(), fired, stopped) == ProcessAll(old(View()), snapshot, |snapshot|, now, clock, unlistable)
    {
      fired, stopped := {}, false;
      var i := 0;
      while i < |snapshot|
        invariant 0 <= i <= |snapshot| && Valid() && !stopped
        invariant fresh(state.Values - old(state.Values))
        invariant TickState(View(), fired, false) == ProcessAll(old(View()), snapshot, i, now, clock, unlistable)
      {
        var hit := LookAt(snapshot[i], now, clock);
        if hit {
          if snapshot[i].nodeName in unlistable {
            stopped := true;
            StoppedStays(old(View()), snapshot, i + 1, |snapshot|, now, clock, unlistable);
            return;
          }
          fired := fired + {snapshot[i].nodeName};
        }
        i := i + 1;
      }
    }

    method LookAt(hb: Payload, now: nat, clock: nat) returns (hit: bool)
      requires Valid()
      modifies this, state.Values
      ensures Valid() && fresh(state.Values - old(state.Values))
      ensures View() == old(View())[hb.nodeName := Look(old(View()), hb, now, clock).view]
      ensures hit == Look(old(View()), hb, now, clock).fired
    {
      if hb.nodeName !in state {
        var st := new NodeState(hb.receivedAt);
        state := state[hb.nodeName := st];
      }
      hit := state[hb.nodeName].Look(hb.receivedAt, now, clock);
    }
  }

  lemma {:induction false} StoppedStays(views: Views, snapshot: seq<Payload>, k: nat, n: nat, now: nat, clock: nat,
                                        unlistable: set<string>)
    requires k <= n <= |snapshot| && ProcessAll(views, snapshot, k, now, clock, unlistable).stopped
    ensures ProcessAll(views, snapshot, n, now, clock, unlistable)
            == ProcessAll(views, snapshot, k, now, clock, unlistable)
  {
    if k < n {
      StoppedStays(views, snapshot, k, n - 1, now, clock, unlistable);
    }
  }

  // ---- A tick as a whole ----------------------------------------------------------------------------------

  /** The views after a complete tick, node by node. */
  function TickAll(views: Views, data: Store, now: nat, clock: nat): Views {
    map k | k in views.Keys + data.Keys :: if k in data then Look(views, data[k], now, clock).view else views[k]
  }

  function FiredIn(views: Views, data: Store, now: nat, clock: nat): set<string> {
    set k | k in data && Look(views, data[k], now, clock).fired
  }

  /** Some node fires whose machines cannot be listed. */
  predicate Aborting(views: Views, data: Store, now: nat, clock: nat, unlistable: set<string>) {
    exists k :: k in FiredIn(views, data, now, clock) && k in unlistable
  }

  /** The first n payloads of a snapshot as a map. */
  function Prefix(snapshot: seq<Payload>, n: nat): Store
    requires n <= |snapshot|
  {
    if n == 0 then map[] else Prefix(snapshot, n - 1)[snapshot[n - 1].nodeName := snapshot[n - 1]]
  }

  lemma {:induction false} PrefixKeys(snapshot: seq<Payload>, n: nat, k: string)
    requires n <= |snapshot| && DistinctNodes(snapshot)
    ensures k in Prefix(snapshot, n) <==> exists i :: 0 <= i < n && snapshot[i].nodeName == k
    ensures forall i | 0 <= i < n && snapshot[i].nodeName == k ::
              k in Prefix(snapshot, n) && Prefix(snapshot, n)[k] == snapshot[i]
  {
    if n > 0 {
      PrefixKeys(snapshot, n - 1, k);
    }
  }

  lemma WholePrefix(snapshot: seq<Payload>, data: Store)
    requires IsSnapshot(snapshot, data) && NamedByKey(data)
    ensures Prefix(snapshot, |snapshot|) == data
  {
    forall k ensures k in Prefix(snapshot, |snapshot|) <==> k in data {
      PrefixKeys(snapshot, |snapshot|, k);
      if k in data {
        var i :| 0 <= i < |snapshot| && snapshot[i] == data[k];
      }
    }
    forall k | k in data ensures Prefix(snapshot, |snapshot|)[k] == data[k] {
      PrefixKeys(snapshot, |snapshot|, k);
    }
  }

  lemma OneMore(views: Views, data: Store, hb: Payload, now: nat, clock: nat)
    requires hb.nodeName !in data
    ensures var k := hb.nodeName; var o := Look(views, hb, now, clock);
            && TickAll(views, data[k := hb], now, clock) == TickAll(views, data, now, clock)[k := o.view]
            && FiredIn(views, data[k := hb], now, clock)
               == FiredIn(views, data, now, clock) + (if o.fired then {k} else {})
            && Look(TickAll(views, data, now, clock), hb, now, clock) == o
  {
  }

  /** The loop over a snapshot computes the tick as a whole, unless it meets a node that aborts it. */
  lemma {:induction false} ProcessedPrefix(views: Views, snapshot: seq<Payload>, n: nat, now: nat, clock: nat,
                                           unlistable: set<string>)
    requires DistinctNodes(snapshot) && n <= |snapshot|
    ensures var s := ProcessAll(views, snapshot, n, now, clock, unlistable); var data := Prefix(snapshot, n);
            && (s.stopped <==> Aborting(views, data, now, clock, unlistable))
            && (!s.stopped ==>
                  s == TickState(TickAll(views, data, now, clock), FiredIn(views, data, now, clock), false))
            && s.fired <= FiredIn(views, data, now, clock) - unlistable
  {
    if n == 0 {
      assert TickAll(views, map[], now, clock) == views;
    } else {
      var hb := snapshot[n - 1];
      var data := Prefix(snapshot, n - 1);
      ProcessedPrefix(views, snapshot, n - 1, now, clock, unlistable);
      PrefixKeys(snapshot, n - 1, hb.nodeName);
      OneMore(views, data, hb, now, clock);
      assert forall k | k in unlistable ::
          k in FiredIn(views, data[hb.nodeName := hb], now, clock) <==>
          k in FiredIn(views, data, now, clock) || (k == hb.nodeName && Look(views, hb, now, clock).fired);
    }
  }

  /** Tick order independence: whatever order the map iteration yields, the tick stops exactly if some node aborts it,
      and otherwise leaves the same views and declares the same nodes; a tick that stops declares some of these, none of
      which aborts it. */
  lemma TickMeaning(views: Views, data: Store, snapshot: seq<Payload>, now: nat, clock: nat, unlistable: set<string>)
    requires IsSnapshot(snapshot, data) && NamedByKey(data)
    ensures var s := ProcessAll(views, snapshot, |snapshot|, now, clock, unlistable);
            && (s.stopped <==> Aborting(views, data, now, clock, unlistable))
            && (!s.stopped ==>
                  s == TickState(TickAll(views, data, now, clock), FiredIn(views, data, now, clock), false))
            && s.fired <= FiredIn(views, data, now, clock) - unlistable
  {
    ProcessedPrefix(views, snapshot, |snapshot|, now, clock, unlistable);
    WholePrefix(snapshot, data);
  }

  /** What a tick leaves behind: its declarations, and the node states unless it ended the monitor. */
  function Remains(s: TickState): TickState {
    if s.stopped then s.(views := map[]) else s
  }

  ghost predicate OrderIndependent(views: Views, data: Store, now: nat, clock: nat, unlistable: set<string>) {
    forall s, t | IsSnapshot(s, data) && IsSnapshot(t, data) ::
      Remains(ProcessAll(views, s, |s|, now, clock, unlistable))
      == Remains(ProcessAll(views, t, |t|, now, clock, unlistable))
  }

  /** Some enumeration of a store. */
  lemma {:induction false} SomeSnapshot(data: Store) returns (s: seq<Payload>)
    requires NamedByKey(data)
    ensures IsSnapshot(s, data)
    decreases |data|
  {
    if |data| == 0 {
      s := [];
    } else {
      var k :| k in data;
      var rest := data - {k};
      assert |rest| < |data| by { assert rest.Keys == data.Keys - {k}; }
      var r := SomeSnapshot(rest);
      s := r + [data[k]];
      assert forall j | j in data :: j == k || j in rest;
    }
  }

  /** An enumeration that begins with the given node. */
  lemma SnapshotFrom(data: Store, first: string) returns (s: seq<Payload>)
    requires NamedByKey(data) && first in data
    ensures IsSnapshot(s, data) && |s| > 0 && s[0] == data[first]
  {
    var rest := data - {first};
    var r := SomeSnapshot(rest);
    s := [data[first]] + r;
    assert forall j | j in data :: j == first || j in rest;
  }

  /** A node declared first stays declared. */
  lemma {:induction false} FirstStaysDeclared(views: Views, snapshot: seq<Payload>, n: nat, now: nat, clock: nat,
                                              unlistable: set<string>)
    requires 1 <= n <= |snapshot| && snapshot[0].nodeName !in unlistable && Look(views, snapshot[0], now, clock).fired
    ensures snapshot[0].nodeName in ProcessAll(views, snapshot, n, now, clock, unlistable).fired
  {
    if n > 1 {
      FirstStaysDeclared(views, snapshot, n - 1, now, clock, unlistable);
    } else {
      assert ProcessAll(views, snapshot, 0, now, clock, unlistable) == TickState(views, {}, false);
    }
  }

  /** A node that aborts the tick and one that could be declared: whichever comes first decides. */
  lemma OrderMatters(views: Views, data: Store, now: nat, clock: nat, unlistable: set<string>, a: string, b: string)
    requires NamedByKey(data) && a in FiredIn(views, data, now, clock) && a in unlistable
    requires b in FiredIn(views, data, now, clock) && b !in unlistable
    ensures !OrderIndependent(views, data, now, clock, unlistable)
  {
    var s := SnapshotFrom(data, a);
    var t := SnapshotFrom(data, b);
    assert ProcessAll(views, s, 0, now, clock, unlistable) == TickState(views, {}, false);
    StoppedStays(views, s, 1, |s|, now, clock, unlistable);
    assert b !in ProcessAll(views, s, |s|, now, clock, unlistable).fired;
    FirstStaysDeclared(views, t, |t|, now, clock, unlistable);
  }

  /** The order of a tick is immaterial exactly if no node aborts it or no firing node could be declared. */
  lemma OrderIndependentIff(views: Views, data: Store, now: nat, clock: nat, unlistable: set<string>)
    requires NamedByKey(data)
    ensures OrderIndependent(views, data, now, clock, unlistable) <==>
            || !Aborting(views, data, now, clock, unlistable)
            || FiredIn(views, data, now, clock) <= unlistable
  {
    if !Aborting(views, data, now, clock, unlistable) || FiredIn(views, data, now, clock) <= unlistable {
      forall s, t | IsSnapshot(s, data) && IsSnapshot(t, data)
        ensures Remains(ProcessAll(views, s, |s|, now, clock, unlistable))
                == Remains(ProcessAll(views, t, |t|, now, clock, unlistable))
      {
        TickMeaning(views, data, s, now, clock, unlistable);
        TickMeaning(views, data, t, now, clock, unlistable);
      }
    } else {
      var a :| a in FiredIn(views, data, now, clock) && a in unlistable;
      var b :| b in FiredIn(views, data, now, clock) && b !in unlistable;
      OrderMatters(views, data, now, clock, unlistable, a, b);
    }
  }
}

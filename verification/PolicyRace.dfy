/** The two monitors of a cluster share one cluster policy: each reads its transition log after a detection and migrates
    if the log is empty, without a lock between the reading and the first record of the migration. */
module PolicyRace {
  import opened MonitorRegistry

  /** records: the records stored; migrating: the monitors in the middle of a migration; started: history. */
  datatype Policy = Policy(records: nat, migrating: set<Kind>, started: seq<Kind>)

  const EMPTY_POLICY := Policy(0, {}, [])

  /** A detection, with the outcome of fetching the policy; a record of the monitor's own migration, or of some other
      transition of the policy; the end of the migration, which may have left no record. */
  datatype Move = Detect(kind: Kind, fetched: bool) | Append(kind: Kind) | Foreign | Finish(kind: Kind)

  /** A monitor handles one detection at a time. */
  predicate CanMove(p: Policy, m: Move) {
    match m
    case Detect(k, _) => k !in p.migrating
    case Append(k) => k in p.migrating
    case Finish(k) => k in p.migrating
    case Foreign => true
  }

  function MoveOn(p: Policy, m: Move): Policy
    requires CanMove(p, m)
  {
    match m
    case Detect(k, fetched) =>
      if fetched && p.records == 0 then p.(migrating := p.migrating + {k}, started := p.started + [k]) else p
    case Append(_) => p.(records := p.records + 1)
    case Foreign => p.(records := p.records + 1)
    case Finish(k) => p.(migrating := p.migrating - {k})
  }

  predicate IsHistory(p: Policy, moves: seq<Move>)
    decreases |moves|
  {
    |moves| == 0 || (CanMove(p, moves[0]) && IsHistory(MoveOn(p, moves[0]), moves[1..]))
  }

  function Outcome(p: Policy, moves: seq<Move>): Policy
    requires IsHistory(p, moves)
    decreases |moves|
  {
    if |moves| == 0 then p else Outcome(MoveOn(p, moves[0]), moves[1..])
  }

  predicate Records(m: Move) {
    m.Append? || m.Foreign?
  }

  predicate Reads(m: Move) {
    m.Detect? && m.fetched
  }

  /** The monitors that read the log before anything was recorded. */
  function ReadersOfEmpty(moves: seq<Move>): seq<Kind> {
    if |moves| == 0 || Records(moves[0]) then []
    else (if Reads(moves[0]) then [moves[0].kind] else []) + ReadersOfEmpty(moves[1..])
  }

  lemma {:induction false} NoneAfterRecord(p: Policy, moves: seq<Move>)
    requires IsHistory(p, moves) && p.records > 0
    ensures Outcome(p, moves).started == p.started
    decreases |moves|
  {
    if |moves| > 0 {
      NoneAfterRecord(MoveOn(p, moves[0]), moves[1..]);
    }
  }

  /** Exactly the detections that read the log before the first record start a migration, whichever monitor they are of
      and whoever is migrating. */
  lemma {:induction false} StartedByReaders(p: Policy, moves: seq<Move>)
    requires IsHistory(p, moves) && p.records == 0
    ensures Outcome(p, moves).started == p.started + ReadersOfEmpty(moves)
    decreases |moves|
  {
    if |moves| > 0 {
      var q := MoveOn(p, moves[0]);
      if Records(moves[0]) {
        NoneAfterRecord(q, moves[1..]);
      } else {
        StartedByReaders(q, moves[1..]);
        if Reads(moves[0]) {
          assert (p.started + [moves[0].kind]) + ReadersOfEmpty(moves[1..]) == p.started + ReadersOfEmpty(moves);
        }
      }
    }
  }

  /** Both monitors migrate from the same empty log. */
  lemma BothMigrate() returns (moves: seq<Move>)
    ensures IsHistory(EMPTY_POLICY, moves)
    ensures var p := Outcome(EMPTY_POLICY, moves); p.records == 0 && p.migrating == {ControlPlane, Cni}
  {
    moves := [Detect(ControlPlane, true), Detect(Cni, true)];
    var p1 := MoveOn(EMPTY_POLICY, moves[0]);
    var p2 := MoveOn(p1, moves[1]);
    assert moves[1..][1..] == [] && p2.migrating == {ControlPlane, Cni};
    assert IsHistory(p2, []) && IsHistory(p1, moves[1..]);
    assert Outcome(EMPTY_POLICY, moves) == Outcome(p1, moves[1..]) == Outcome(p2, moves[1..][1..]) == p2;
  }

  /** Something was recorded before every reading but the first. */
  predicate RecordedBeforeSecond(moves: seq<Move>) {
    forall i, j | 0 <= i < j < |moves| && Reads(moves[i]) && Reads(moves[j]) ::
      exists m :: 0 <= m < j && Records(moves[m])
  }

  lemma {:induction false} SomeReader(moves: seq<Move>, j: nat)
    requires j < |moves| && Reads(moves[j]) && forall m | 0 <= m < j :: !Records(moves[m])
    ensures |ReadersOfEmpty(moves)| >= 1
  {
    if j > 0 {
      SomeReader(moves[1..], j - 1);
    }
  }

  lemma {:induction false} TwoReaders(moves: seq<Move>, i: nat, j: nat)
    requires i < j < |moves| && Reads(moves[i]) && Reads(moves[j]) && forall m | 0 <= m < j :: !Records(moves[m])
    ensures |ReadersOfEmpty(moves)| >= 2
  {
    if i > 0 {
      TwoReaders(moves[1..], i - 1, j - 1);
    } else {
      SomeReader(moves[1..], j - 1);
    }
  }

  lemma {:induction false} ReaderAt(moves: seq<Move>) returns (j: nat)
    requires |ReadersOfEmpty(moves)| >= 1
    ensures j < |moves| && Reads(moves[j]) && forall m | 0 <= m < j :: !Records(moves[m])
  {
    if Reads(moves[0]) {
      j := 0;
    } else {
      var k := ReaderAt(moves[1..]);
      j := k + 1;
    }
  }

  lemma {:induction false} ReadersAt(moves: seq<Move>) returns (i: nat, j: nat)
    requires |ReadersOfEmpty(moves)| >= 2
    ensures i < j < |moves| && Reads(moves[i]) && Reads(moves[j]) && forall m | 0 <= m < j :: !Records(moves[m])
  {
    if Reads(moves[0]) {
      var k := ReaderAt(moves[1..]);
      i, j := 0, k + 1;
    } else {
      var h, k := ReadersAt(moves[1..]);
      i, j := h + 1, k + 1;
    }
  }

  /** At most one migration is started from the empty log exactly if something is recorded before the log is read for
      the second time, by either monitor. */
  lemma AtMostOneMigrationIff(moves: seq<Move>)
    requires IsHistory(EMPTY_POLICY, moves)
    ensures |Outcome(EMPTY_POLICY, moves).started| <= 1 <==> RecordedBeforeSecond(moves)
  {
    StartedByReaders(EMPTY_POLICY, moves);
    if |ReadersOfEmpty(moves)| >= 2 {
      var i, j := ReadersAt(moves);
      assert Reads(moves[i]) && Reads(moves[j]);
    } else if !RecordedBeforeSecond(moves) {
      var i: nat, j: nat :| i < j < |moves| && Reads(moves[i]) && Reads(moves[j])
                            && forall m | 0 <= m < j :: !Records(moves[m]);
      TwoReaders(moves, i, j);
    }
  }
}

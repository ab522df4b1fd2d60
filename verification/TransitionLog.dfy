/** The transition log of a cluster policy and the gate IsPackageTransitioned that reads it. */
module TransitionLog {

  type Condition = string

  const IN_PROGRESS: Condition := "InProgress"
  const COMPLETED: Condition := "Completed"
  const FAILED: Condition := "Failed"

  /** One TransitionedPackages record: the names of its selectors, its time and its condition. */
  datatype Record = Record(names: seq<string>, time: int, condition: Condition)

  type Log = seq<Record>

  /** Record i decides about name: no record for name is later, and none before i is as late. */
  predicate Decides(log: Log, name: string, i: nat) {
    && i < |log| && name in log[i].names
    && (forall j | 0 <= j < |log| && name in log[j].names :: log[j].time <= log[i].time)
    && (forall j | 0 <= j < i && name in log[j].names :: log[j].time < log[i].time)
  }

  /** The gate, declaratively: some record decides, and it says Completed. */
  ghost predicate Transitioned(log: Log, name: string) {
    exists i: nat :: Decides(log, name, i) && log[i].condition == COMPLETED
  }

  /** The deciding record among the first n. */
  predicate Leads(log: Log, n: nat, name: string, latest: int)
    requires n <= |log|
  {
    if latest < 0 then forall j | 0 <= j < n :: name !in log[j].names
    else latest < n && Decides(log[..n], name, latest)
  }

  method IsPackageTransitioned(log: Log, name: string) returns (transitioned: bool)
    ensures transitioned <==> Transitioned(log, name)
  {
    var latestMatch := -1;
    var i := 0;
    while i < |log|
      invariant 0 <= i <= |log| && -1 <= latestMatch < i
      invariant Leads(log, i, name, latestMatch)
    {
      var start := latestMatch;
      var k := 0;
      while k < |log[i].names|
        invariant 0 <= k <= |log[i].names|
        invariant latestMatch ==
                  if name in log[i].names[..k] && (start < 0 || log[i].time > log[start].time) then i else start
      {
        if log[i].names[k] == name && (latestMatch < 0 || log[i].time > log[latestMatch].time) {
          latestMatch := i;
        }
        k := k + 1;
      }
      LeaderAfter(log, i, name, start);
      i := i + 1;
    }
    assert log[..|log|] == log;
    if latestMatch >= 0 {
      DecidesUnique(log, name, latestMatch);
      if log[latestMatch].condition == COMPLETED { return true; }
      assert IN_PROGRESS[0] != COMPLETED[0];
      if log[latestMatch].condition == IN_PROGRESS { return false; }
    }
    return false;
  }

  lemma LeaderAfter(log: Log, i: nat, name: string, start: int)
    requires i < |log| && -1 <= start < i && Leads(log, i, name, start)
    ensures Leads(log, i + 1, name,
                  if name in log[i].names && (start < 0 || log[i].time > log[start].time) then i else start)
  {
  }

  lemma DecidesUnique(log: Log, name: string, i: nat)
    requires Decides(log, name, i)
    ensures forall j: nat :: Decides(log, name, j) ==> j == i
  {
  }

  /** A name that is mentioned has a deciding record. */
  lemma {:induction false} SomeoneDecides(log: Log, n: nat, name: string) returns (i: int)
    requires n <= |log|
    ensures -1 <= i < n && Leads(log, n, name, i)
  {
    if n == 0 {
      i := -1;
    } else {
      var start := SomeoneDecides(log, n - 1, name);
      LeaderAfter(log, n - 1, name, start);
      i := if name in log[n - 1].names && (start < 0 || log[n - 1].time > log[start].time) then n - 1 else start;
    }
  }

  /** Records for other names do not move the gate. */
  lemma AppendOther(log: Log, r: Record, name: string)
    requires name !in r.names
    ensures Transitioned(log + [r], name) <==> Transitioned(log, name)
  {
    assert forall j | 0 <= j < |log| :: (log + [r])[j] == log[j];
    forall i: nat
      ensures Decides(log + [r], name, i) <==> Decides(log, name, i)
    {
      if i < |log| && Decides(log + [r], name, i) {
        assert forall j | 0 <= j < |log| && name in log[j].names :: (log + [r])[j].time <= log[i].time;
      }
    }
    assert forall i: nat :: Decides(log, name, i) ==> (log + [r])[i] == log[i];
  }

  predicate LaterThanAll(log: Log, r: Record, name: string) {
    forall j | 0 <= j < |log| && name in log[j].names :: log[j].time < r.time
  }

  /** An appended record for a name takes over exactly if it is strictly later than every earlier one; on a tie the
      earlier record keeps deciding. */
  lemma AppendSame(log: Log, r: Record, name: string)
    requires name in r.names
    ensures Transitioned(log + [r], name) <==>
            if LaterThanAll(log, r, name) then r.condition == COMPLETED else Transitioned(log, name)
  {
    var after := log + [r];
    assert forall j | 0 <= j < |log| :: after[j] == log[j];
    assert after[|log|] == r;
    if LaterThanAll(log, r, name) {
      assert Decides(after, name, |log|);
      DecidesUnique(after, name, |log|);
    } else {
      var d := SomeoneDecides(log, |log|, name);
      assert log[..|log|] == log;
      assert Decides(log, name, d) && after[d] == log[d];
      assert Decides(after, name, d);
      DecidesUnique(log, name, d);
      DecidesUnique(after, name, d);
    }
  }

  predicate StrictlyIncreasing(log: Log) {
    forall i, j | 0 <= i < j < |log| :: log[i].time < log[j].time
  }

  /** Under strictly increasing times the last record naming the package decides. */
  lemma LastRecordDecides(log: Log, name: string)
    requires StrictlyIncreasing(log)
    ensures Transitioned(log, name) <==>
            exists i :: 0 <= i < |log| && name in log[i].names && log[i].condition == "Completed"
                        && forall j | i < j < |log| :: name !in log[j].names
  {
  }

  /** Two records of the same instant: a failure followed by a completion stays open, the reverse stays closed. */
  lemma TiesKeepTheFirst(name: string, t: int)
    ensures !Transitioned([Record([name], t, "Failed"), Record([name], t, "Completed")], name)
    ensures Transitioned([Record([name], t, "Completed"), Record([name], t, "Failed")], name)
  {
    var failed, completed := Record([name], t, FAILED), Record([name], t, COMPLETED);
    var a, b := [failed, completed], [completed, failed];
    assert Decides(a, name, 0) && Decides(b, name, 0) && FAILED[0] != COMPLETED[0];
    DecidesUnique(a, name, 0);
  }
}

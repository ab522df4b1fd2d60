/** The job table scheduledJobs of the checkpoint reconciler against the live entries of its cron scheduler. */
module CronMirror {
  import opened Keys
  import opened Wrappers

  datatype Name = Name(namespace: string, name: string)

  function KeyOf(n: Name): string {
    Join(n.namespace, n.name)
  }

  /** A cron entry runs the checkpoint of one key on a schedule. */
  datatype Job = Job(key: string, schedule: string)

  class Cron {
    var nextId: nat
    var entries: map<nat, Job>

    constructor ()
      ensures nextId == 1 && entries == map[]
    {
      nextId, entries := 1, map[];
    }

    /** parses says whether the library accepts the schedule. */
    method AddFunc(schedule: string, key: string, parses: bool) returns (id: Option<nat>)
      modifies this
      ensures !parses ==> id == None && entries == old(entries) && nextId == old(nextId)
      ensures parses ==>
                && id == Some(old(nextId)) && nextId == old(nextId) + 1
                && entries == old(entries)[old(nextId) := Job(key, schedule)]
    {
      if !parses { return None; }
      entries := entries[nextId := Job(key, schedule)];
      id := Some(nextId);
      nextId := nextId + 1;
    }

    method Remove(id: nat)
      modifies this`entries
      ensures entries == old(entries) - {id}
    {
      entries := entries - {id};
    }
  }

  /** One reconciliation.  Aborted covers every return before the scheduler is touched. */
  datatype Event =
    | NotFound(name: Name)
    | Aborted(name: Name)
    | Deleting(name: Name, updated: bool)
    | Normal(name: Name, schedule: string, parses: bool)

  /** Live entries and job table are inverse to each other. */
  predicate Mirrors(table: map<string, nat>, entries: map<nat, Job>, nextId: nat) {
    && (forall k | k in table :: table[k] in entries && entries[table[k]].key == k)
    && (forall id | id in entries :: id < nextId && entries[id].key in table && table[entries[id].key] == id)
  }

  /** The schedule each key's job runs on. */
  function Schedule(table: map<string, nat>, entries: map<nat, Job>): map<string, string>
    requires forall k | k in table :: table[k] in entries
  {
    map k | k in table :: entries[table[k]].schedule
  }

  lemma RemoveMirrors(table: map<string, nat>, entries: map<nat, Job>, nextId: nat, key: string)
    requires Mirrors(table, entries, nextId) && key in table
    ensures Mirrors(table - {key}, entries - {table[key]}, nextId)
    ensures Schedule(table - {key}, entries - {table[key]}) == Schedule(table, entries) - {key}
  {
  }

  lemma AddMirrors(table: map<string, nat>, entries: map<nat, Job>, nextId: nat, job: Job)
    requires Mirrors(table, entries, nextId) && job.key !in table
    ensures Mirrors(table[job.key := nextId], entries[nextId := job], nextId + 1)
    ensures Schedule(table[job.key := nextId], entries[nextId := job])
            == Schedule(table, entries)[job.key := job.schedule]
  {
    var t, e := table[job.key := nextId], entries[nextId := job];
    assert nextId !in entries;
    forall k | k in t ensures t[k] in e && e[t[k]].key == k {}
    forall id | id in e ensures id < nextId + 1 && e[id].key in t && t[e[id].key] == id {}
  }

  class CheckpointReconciler {
    var scheduler: Cron?
    var scheduledJobs: map<string, nat>

    ghost predicate Valid()
      reads this, scheduler
    {
      if scheduler == null then scheduledJobs == map[] else Mirrors(scheduledJobs, scheduler.entries, scheduler.nextId)
    }

    ghost function Jobs(): map<string, string>
      requires Valid()
      reads this, scheduler
    {
      if scheduler == null then map[] else Schedule(scheduledJobs, scheduler.entries)
    }

    constructor ()
      ensures Valid() && scheduler == null && Jobs() == map[]
    {
      scheduler, scheduledJobs := null, map[];
    }

    method RemoveJob(key: string)
      requires Valid()
      modifies this, scheduler
      ensures Valid() && scheduler == old(scheduler) && Jobs() == old(Jobs()) - {key} && key !in scheduledJobs
    {
      if key in scheduledJobs {
        RemoveMirrors(scheduledJobs, scheduler.entries, scheduler.nextId, key);
        scheduler.Remove(scheduledJobs[key]);
        scheduledJobs := scheduledJobs - {key};
      }
    }

    method InitializeScheduler()
      requires Valid()
      modifies this
      ensures Valid() && scheduler != null && Jobs() == old(Jobs())
      ensures scheduler == old(scheduler) || fresh(scheduler)
    {
      if scheduler == null {
        scheduler := new Cron();
        scheduledJobs := map[];
      }
    }

    method ReconcileNormal(key: string, schedule: string, parses: bool) returns (ok: bool)
      requires Valid() && scheduler != null
      modifies this, scheduler
      ensures Valid() && scheduler == old(scheduler) && ok == parses
      ensures Jobs() == if parses then old(Jobs())[key := schedule] else old(Jobs()) - {key}
    {
      RemoveJob(key);
      AddMirrors(scheduledJobs, scheduler.entries, scheduler.nextId, Job(key, schedule));
      var id := scheduler.AddFunc(schedule, key, parses);
      if id.None? { return false; }
      scheduledJobs := scheduledJobs[key := id.value];
      return true;
    }

    method Reconcile(e: Event)
      requires Valid()
      modifies this, scheduler
      ensures Valid() && Jobs() == Next(old(Jobs()), e)
      ensures scheduler == old(scheduler) || fresh(scheduler)
    {
      match e
      case NotFound(n) => RemoveJob(KeyOf(n));
      case Aborted(_) =>
      case Deleting(n, _) => RemoveJob(KeyOf(n));  // whether or not the finalizer update then succeeds
      case Normal(n, schedule, parses) =>
        InitializeScheduler();
        var ok := ReconcileNormal(KeyOf(n), schedule, parses);
    }
  }

  function Next(jobs: map<string, string>, e: Event): map<string, string> {
    match e
    case NotFound(n) => jobs - {KeyOf(n)}
    case Aborted(_) => jobs
    case Deleting(n, _) => jobs - {KeyOf(n)}
    case Normal(n, schedule, parses) => if parses then jobs[KeyOf(n) := schedule] else jobs - {KeyOf(n)}
  }

  function Replay(events: seq<Event>): map<string, string> {
    if |events| == 0 then map[] else Next(Replay(events[..|events| - 1]), events[|events| - 1])
  }

  /** After any sequence of events the live cron entries are exactly the values of the table, one entry per key at
      most, and the jobs are those the events call for. */
  method Run(events: seq<Event>) returns (r: CheckpointReconciler)
    ensures r.Valid() && r.Jobs() == Replay(events)
    ensures r.scheduler != null ==>
              && r.scheduler.entries.Keys == r.scheduledJobs.Values
              && forall i, j | i in r.scheduler.entries && j in r.scheduler.entries && i != j ::
                   r.scheduler.entries[i].key != r.scheduler.entries[j].key
  {
    r := new CheckpointReconciler();
    var i := 0;
    while i < |events|
      invariant 0 <= i <= |events| && fresh(r) && (r.scheduler != null ==> fresh(r.scheduler))
      invariant r.Valid() && r.Jobs() == Replay(events[..i])
      decreases |events| - i
    {
      assert events[..i + 1][..i] == events[..i];
      r.Reconcile(events[i]);
      i := i + 1;
    }
    assert events[..|events|] == events;
    if r.scheduler != null {
      forall id | id in r.scheduler.entries ensures id in r.scheduledJobs.Values {
        assert r.scheduledJobs[r.scheduler.entries[id].key] == id;
      }
    }
  }

  /** The event decides about the key's job: it removes it or tries to schedule it. */
  predicate Touches(e: Event, key: string) {
    !e.Aborted? && KeyOf(e.name) == key
  }

  predicate Schedules(e: Event, key: string) {
    e.Normal? && e.parses && KeyOf(e.name) == key
  }

  predicate LastTouch(events: seq<Event>, key: string, i: int) {
    0 <= i < |events| && Touches(events[i], key) && forall j | i < j < |events| :: !Touches(events[j], key)
  }

  /** A key has a job exactly if the last event that touched it scheduled it successfully, and the job carries that
      event's schedule.  In particular a rejected schedule leaves the checkpoint without any job. */
  lemma {:induction false} LastEventDecides(events: seq<Event>, key: string)
    ensures key in Replay(events) <==> exists i :: LastTouch(events, key, i) && Schedules(events[i], key)
    ensures forall i | LastTouch(events, key, i) && Schedules(events[i], key) ::
              key in Replay(events) && Replay(events)[key] == events[i].schedule
  {
    if |events| > 0 {
      var n := |events| - 1;
      var before := events[..n];
      LastEventDecides(before, key);
      assert forall i | 0 <= i < n :: before[i] == events[i];
      if Touches(events[n], key) {
        assert LastTouch(events, key, n);
      } else {
        assert forall i :: LastTouch(events, key, i) <==> LastTouch(before, key, i);
      }
    }
  }

  /** Checkpoints whose namespaces hold no slash never touch each other's job. */
  lemma NamesApart(a: Name, b: Name)
    requires SlashFree(a.namespace) && SlashFree(b.namespace) && KeyOf(a) == KeyOf(b)
    ensures a == b
  {
    JoinInjective(a.namespace, a.name, b.namespace, b.name);
  }
}

/**
 The heavy-job queue as the panel changes it: job records updated in place, a waiting list, a slot
 table and a table of begin callbacks. Every method is proved to do to the queue's value exactly
 what the functions of JobQueueState say.
 */
module JobQueue {
  import opened Basics
  import opened JobQueueState
  import Proofs = JobQueueProofs

  class Job {
    const id: JobId
    const servers: seq<ServerId>
    var status: Status
    var position: Option<nat>
    var forced: bool

    constructor (id: JobId, servers: seq<ServerId>)
      ensures this.id == id && this.servers == servers
      ensures status == Queued && position == None && !forced
    {
      this.id, this.servers := id, servers;
      status, position, forced := Queued, None, false;
    }

    function Info(): JobInfo
      reads this
    {
      JobInfo(servers, status, position, forced)
    }
  }

  function Ids(js: seq<Job>): (r: seq<JobId>)
    ensures |r| == |js| && forall i | 0 <= i < |js| :: r[i] == js[i].id
  {
    seq(|js|, i requires 0 <= i < |js| => js[i].id)
  }

  ghost function Records(jobs: map<JobId, Job>): (r: map<JobId, JobInfo>)
    reads jobs.Values
    ensures r.Keys == jobs.Keys
    ensures forall id | id in jobs :: r[id] == JobInfo(jobs[id].servers, jobs[id].status, jobs[id].position, jobs[id].forced)
  {
    map id | id in jobs :: jobs[id].Info()
  }

  lemma ScanNext(q: Queue, id: JobId, rest: seq<JobId>, blocked: set<ServerId>)
    requires id in q.jobs
    ensures Scan(q, [id] + rest, blocked) ==
              if Fits(q, id, blocked) then Scan(Begin(q, id, false), rest, blocked) else Scan(q, rest, Block(q, id, blocked))
  {
    hide Fits, Begin, Block;
  }

  lemma KeepNext(ids: seq<JobId>, i: nat, gone: set<JobId>)
    requires i < |ids|
    ensures Minus(ids[..i + 1], gone) == if ids[i] in gone then Minus(ids[..i], gone) else Minus(ids[..i], gone) + [ids[i]]
    ensures Minus(ids[..0], gone) == [] && ids[..|ids|] == ids
  {
    assert ids[..i + 1] == ids[..i] + [ids[i]];
    MinusConcat(ids[..i], [ids[i]], gone);
  }

  lemma IdsConcat(a: seq<Job>, b: seq<Job>)
    ensures Ids(a + b) == Ids(a) + Ids(b)
  {
  }

  lemma SpliceIds(js: seq<Job>, from: nat, to: nat)
    requires from < |js| && to < |js|
    ensures var rest := js[..from] + js[from + 1..];
            Ids(rest[..to] + [js[from]] + rest[to..]) == Splice(Ids(js), from, to)
  {
    var rest := js[..from] + js[from + 1..];
    IdsConcat(js[..from], js[from + 1..]);
    assert Ids(js[..from]) == Ids(js)[..from] && Ids(js[from + 1..]) == Ids(js)[from + 1..];
    IdsConcat(rest[..to] + [js[from]], rest[to..]);
    IdsSnoc(rest[..to], js[from]);
    assert Ids(rest[..to]) == Ids(rest)[..to] && Ids(rest[to..]) == Ids(rest)[to..];
  }

  lemma IdsSnoc(js: seq<Job>, j: Job)
    ensures Ids(js + [j]) == Ids(js) + [j.id]
  {
  }

  lemma ScanEnd(q: Queue, blocked: set<ServerId>)
    ensures Scan(q, [], blocked) == q
  {
  }

  /** When only job `j` changed, only its record did. */
  lemma OneRecord(was: map<JobId, JobInfo>, jobs: map<JobId, Job>, j: Job)
    requires j.id in jobs && jobs[j.id] == j && was.Keys == jobs.Keys
    requires forall id | id in jobs && id != j.id ::
               was[id] == JobInfo(jobs[id].servers, jobs[id].status, jobs[id].position, jobs[id].forced)
    ensures Records(jobs) == was[j.id := j.Info()]
  {
    assert Records(jobs).Keys == was[j.id := j.Info()].Keys;
  }

  /** The records after the first `i` waiting jobs have been given their positions. */
  ghost function NumberedTo(records: map<JobId, JobInfo>, ids: seq<JobId>, i: nat): map<JobId, JobInfo>
    requires i <= |ids|
  {
    map id | id in records ::
      if id in ids[..i] then records[id].(position := Some(IndexOf(ids, id) + 1)) else records[id]
  }

  lemma NumberedNext(records: map<JobId, JobInfo>, ids: seq<JobId>, i: nat)
    requires NoDup(ids) && i < |ids| && ids[i] in records
    ensures NumberedTo(records, ids, i + 1)
         == var r := NumberedTo(records, ids, i); r[ids[i] := r[ids[i]].(position := Some(i + 1))]
  {
    Proofs.IndexOfAt(ids, i);
    assert ids[..i + 1] == ids[..i] + [ids[i]];
  }

  lemma {:induction false} FirstIsIndex(ids: seq<JobId>, i: nat)
    requires i < |ids| && ids[i] !in ids[..i]
    ensures IndexOf(ids, ids[i]) == i
  {
    var k := IndexOf(ids, ids[i]);
  }

  class HeavyQueue {
    var perServer: int
    var waiting: seq<Job>
    var slots: map<JobId, Slot>
    var begin: set<JobId>
    var jobs: map<JobId, Job>
    ghost var begun: seq<JobId>

    /** The job table files each job under its own id, and waiting jobs are in it. */
    ghost predicate Filed()
      reads this
    {
      && (forall id | id in jobs :: jobs[id].id == id)
      && (forall i | 0 <= i < |waiting| :: waiting[i].id in jobs && jobs[waiting[i].id] == waiting[i])
    }

    ghost function Value(): Queue
      reads this, jobs.Values
    {
      Queue(perServer, Ids(waiting), slots, begin, Records(jobs), begun)
    }

    ghost predicate Valid()
      reads this, jobs.Values
    {
      Filed() && Stable(Value())
    }

    constructor ()
      ensures Valid() && Value() == InitQueue() && jobs == map[]
      ensures perServer == 1 && waiting == [] && slots == map[] && begin == {} && begun == []
    {
      perServer, waiting, slots, begin, jobs, begun := 1, [], map[], {}, map[], [];
    }

    method MqUsed(sid: ServerId) returns (n: nat)
      ensures n == |Holders(slots, sid)|
    {
      n := 0;
      var left := slots.Keys;
      ghost var seen: set<JobId>, counted: set<JobId> := {}, {};
      while left != {}
        invariant left + seen == slots.Keys && left !! seen
        invariant n == |counted| && counted <= seen
        invariant forall id | id in seen :: id in counted <==> sid in slots[id].servers
      {
        var id :| id in left;
        left, seen := left - {id}, seen + {id};
        if sid in slots[id].servers {
          counted := counted + {id};
          n := n + 1;
        }
      }
      assert Holders(slots, sid) == counted;
    }

    method FitsNow(j: Job, blocked: set<ServerId>) returns (fits: bool)
      requires Filed() && j.id in jobs && jobs[j.id] == j
      ensures fits == Fits(Value(), j.id, blocked)
    {
      assert ServersOf(Value(), j.id) == j.servers;
      for i := 0 to |j.servers|
        invariant forall k | 0 <= k < i :: j.servers[k] !in blocked && Used(Value(), j.servers[k]) < perServer
      {
        if j.servers[i] in blocked {
          return false;
        }
        var used := MqUsed(j.servers[i]);
        if used >= perServer {
          assert j.servers[i] in j.servers;
          return false;
        }
      }
      return true;
    }

    /** Filter the waiting list, keeping the jobs whose id is not in `gone`. */
    method KeepWaiting(gone: set<JobId>) returns (kept: seq<Job>)
      requires Filed()
      ensures Ids(kept) == Minus(Ids(waiting), gone)
      ensures forall i | 0 <= i < |kept| :: kept[i].id in jobs && jobs[kept[i].id] == kept[i]
    {
      hide Minus, Ids;
      kept := [];
      for i := 0 to |waiting|
        invariant Ids(kept) == Minus(Ids(waiting)[..i], gone)
        invariant forall k | 0 <= k < |kept| :: kept[k].id in jobs && jobs[kept[k].id] == kept[k]
      {
        KeepNext(Ids(waiting), i, gone);
        IdsSnoc(kept, waiting[i]);
        if waiting[i].id !in gone {
          kept := kept + [waiting[i]];
        }
      }
      assert Ids(waiting)[..|waiting|] == Ids(waiting);
    }

    method LeaveWaiting(gone: set<JobId>)
      requires Filed()
      modifies this`waiting
      ensures Filed()
      ensures Value() == old(Value()).(waiting := Minus(old(Value()).waiting, gone))
    {
      hide Minus, Ids;
      var kept := KeepWaiting(gone);
      waiting := kept;
    }

    method MqBegin(j: Job, forced: bool)
      requires Filed() && j.id in jobs && jobs[j.id] == j
      modifies this, j
      ensures Filed() && jobs == old(jobs)
      ensures Value() == Begin(old(Value()), j.id, forced)
    {
      hide Minus, Value, Filed;
      ghost var q := Value();
      assert q.jobs[j.id] == JobInfo(j.servers, j.status, j.position, j.forced) && j.id in q.jobs && q.begin == begin by {
        RecordOf(j);
      }
      var called := TakeSlot(j, forced);
      RecordStart(j, forced, called);
    }

    lemma RecordOf(j: Job)
      requires Filed() && j.id in jobs && jobs[j.id] == j
      ensures j.id in Value().jobs && Value().begin == begin
      ensures Value().jobs[j.id] == JobInfo(j.servers, j.status, j.position, j.forced)
    {
    }

    /** The job leaves the waiting list for a slot; its begin callback, if there, is taken out to be called. */
    method TakeSlot(j: Job, forced: bool) returns (called: bool)
      requires Filed() && j.id in jobs && jobs[j.id] == j
      modifies this`waiting, this`slots, this`begin, this`begun
      ensures Filed() && called == (j.id in old(begin))
      ensures Value() == var q := old(Value());
                q.(waiting := Minus(q.waiting, {j.id}), slots := q.slots[j.id := Slot(j.servers, forced)],
                   begin := q.begin - {j.id}, begun := if called then q.begun + [j.id] else q.begun)
    {
      hide Minus, Ids;
      LeaveWaiting({j.id});
      slots := slots[j.id := Slot(j.servers, forced)];
      called := j.id in begin;
      begin := begin - {j.id};
      if called {
        begun := begun + [j.id];
      }
    }

    /** The changes to the job record itself when the job starts. */
    method RecordStart(j: Job, forced: bool, called: bool)
      requires Filed() && j.id in jobs && jobs[j.id] == j
      modifies j
      ensures Filed()
      ensures Value() == old(Value()).(jobs := old(Value()).jobs[j.id :=
                JobInfo(j.servers, if called then Running else old(j.status), None, forced)])
    {
      ghost var records := Records(jobs);
      j.position := None;
      j.forced := forced;
      if called {
        j.status := Running;
      }
      assert forall id | id in jobs && id != j.id :: jobs[id] != j;
      OneRecord(records, jobs, j);
    }

    /** Drop the slots of jobs that are neither queued nor running. */
    method DropSlots()
      requires Filed()
      modifies this`slots
      ensures Filed()
      ensures Value() == old(Value()).(slots := DropDone(old(Value())).slots)
    {
      var all, left, seen := slots, slots.Keys, {};
      while left != {}
        invariant left + seen == all.Keys && left !! seen
        invariant slots == map id | id in all && (id in left || Live(id)) :: all[id]
      {
        var id :| id in left;
        left, seen := left - {id}, seen + {id};
        if !Live(id) {
          slots := slots - {id};
        }
      }
      assert forall id :: Live(id) == (HasStatus(old(Value()), id, Queued) || HasStatus(old(Value()), id, Running));
    }

    predicate Live(id: JobId)
      reads this`jobs, jobs.Values
    {
      id in jobs && (jobs[id].status == Queued || jobs[id].status == Running)
    }

    /** Drop the waiting jobs that are no longer queued. */
    method DropWaiting()
      requires Filed()
      modifies this`waiting
      ensures Filed()
      ensures Value() == old(Value()).(waiting := Minus(old(Value()).waiting, NoLongerQueued(old(Value()))))
    {
      hide Minus;
      var gone := set j | j in waiting && j.status != Queued :: j.id;
      GoneIsNoLongerQueued(gone);
      LeaveWaiting(gone);
    }

    lemma GoneIsNoLongerQueued(gone: set<JobId>)
      requires Filed() && gone == set j | j in waiting && j.status != Queued :: j.id
      ensures gone == NoLongerQueued(Value())
    {
      forall id | id in NoLongerQueued(Value()) ensures id in gone {
        var i :| 0 <= i < |Ids(waiting)| && Ids(waiting)[i] == id;
        assert waiting[i] in waiting && waiting[i].id == id;
      }
      forall id | id in gone ensures id in NoLongerQueued(Value()) {
        var j :| j in waiting && j.status != Queued && j.id == id;
        var i :| 0 <= i < |waiting| && waiting[i] == j;
        assert Ids(waiting)[i] == id;
      }
    }

    method ScanWaiting()
      requires Filed()
      modifies this, jobs.Values
      ensures Filed() && jobs == old(jobs)
      ensures Value() == Scan(old(Value()), old(Value()).waiting, {})
    {
      hide Begin, Fits, Scan;
      var snapshot := waiting;
      var blocked: set<ServerId> := {};
      assert Ids(snapshot)[0..] == Value().waiting;
      for i := 0 to |snapshot|
        invariant Filed() && jobs == old(jobs)
        invariant forall k | 0 <= k < |snapshot| :: snapshot[k].id in jobs && jobs[snapshot[k].id] == snapshot[k]
        invariant Scan(Value(), Ids(snapshot)[i..], blocked) == Scan(old(Value()), old(Value()).waiting, {})
      {
        var j := snapshot[i];
        assert Ids(snapshot)[i..] == [j.id] + Ids(snapshot)[i + 1..];
        assert ServersOf(Value(), j.id) == j.servers;
        ScanNext(Value(), j.id, Ids(snapshot)[i + 1..], blocked);
        var fits := FitsNow(j, blocked);
        if fits {
          MqBegin(j, false);
        } else {
          blocked := blocked + set sid | sid in j.servers;
        }
      }
      assert Ids(snapshot)[|snapshot|..] == [];
      ScanEnd(Value(), blocked);
    }

    method NumberWaiting()
      requires Filed() && NoDup(Ids(waiting))
      modifies jobs.Values
      ensures Filed()
      ensures Value() == Number(old(Value()))
    {
      ghost var records, ids := Records(jobs), Ids(waiting);
      for i := 0 to |waiting|
        invariant Filed()
        invariant Records(jobs) == NumberedTo(records, ids, i)
      {
        var j := waiting[i];
        j.position := Some(i + 1);
        assert forall id | id in jobs && id != j.id :: jobs[id] != j;
        OneRecord(NumberedTo(records, ids, i), jobs, j);
        NumberedNext(records, ids, i);
      }
      assert ids[..|ids|] == ids;
    }

    method MqPump()
      requires Filed() && NoDup(Scan(DropDone(Value()), DropDone(Value()).waiting, {}).waiting)
      modifies this, jobs.Values
      ensures Filed() && jobs == old(jobs)
      ensures Value() == Pump(old(Value()))
    {
      Proofs.DropStages(Value());
      DropSlots();
      DropWaiting();
      ScanWaiting();
      NumberWaiting();
    }

    // -------------------------------------------------------------- commands

    /** A new heavy job: recorded, given its begin callback, put at the end of the queue. */
    method AddHeavy(id: JobId, servers: seq<ServerId>, serverId: ServerId) returns (job: Job)
      requires Valid() && id !in jobs
      modifies this, jobs.Values
      ensures Valid()
      ensures Value() == Step(old(Value()), Add(id, servers, serverId))
      ensures fresh(job) && jobs == old(jobs)[id := job]
    {
      hide Pump, Scan, DropDone, Sane, Pruned, Numbered, Settled, NoDup;
      Proofs.StepStages(Value(), Add(id, servers, serverId));
      job := new Job(id, if servers != [] then servers else if serverId != "" then [serverId] else ["main"]);
      Push(job);
      MqPump();
    }

    method Push(job: Job)
      requires Filed() && job.id !in jobs
      requires job.status == Queued && job.position == None && !job.forced
      modifies this
      ensures Filed() && jobs == old(jobs)[job.id := job]
      ensures Value() == Enqueue(old(Value()), job.id, job.servers)
    {
      ghost var records := Records(jobs);
      assert forall i | 0 <= i < |waiting| :: waiting[i].id != job.id;
      jobs := jobs[job.id := job];
      begin := begin + {job.id};
      assert Ids(waiting + [job]) == Ids(waiting) + [job.id];
      waiting := waiting + [job];
      assert Records(jobs) == records[job.id := job.Info()];
    }

    method SetLimit(n: int) returns (refused: Option<int>)
      requires Valid()
      modifies this, jobs.Values
      ensures Valid() && jobs == old(jobs)
      ensures Value() == Step(old(Value()), Command.SetLimit(n))
      ensures refused == Refusal(old(Value()), Command.SetLimit(n))
    {
      hide Pump, Scan, DropDone, Sane, Pruned, Numbered, Settled, NoDup;
      if n < 1 || n > MAX_PER_SERVER {
        return Some(400);
      }
      Proofs.StepStages(Value(), Command.SetLimit(n));
      perServer := n;
      MqPump();
      return None;
    }

    method SetStatus(j: Job, st: Status)
      requires Filed() && j.id in jobs && jobs[j.id] == j
      modifies j`status
      ensures Filed()
      ensures Value() == JobQueueState.SetStatus(old(Value()), j.id, st)
    {
      ghost var records := Records(jobs);
      j.status := st;
      assert forall id | id in jobs && id != j.id :: jobs[id] != j;
      OneRecord(records, jobs, j);
    }

    /** The timer of a running job reaches the end of its lines. */
    method FinishJob(j: Job, ok: bool)
      requires Valid() && j.id in jobs && jobs[j.id] == j && j.status == Running
      modifies this, jobs.Values
      ensures Valid() && jobs == old(jobs)
      ensures Value() == Step(old(Value()), Finish(j.id, ok))
    {
      hide Pump, Scan, DropDone, Sane, Pruned, Numbered, Settled, NoDup;
      Proofs.StepStages(Value(), Finish(j.id, ok));
      SetStatus(j, if ok then Succeeded else Failed);
      MqPump();
    }

    method CancelJob(id: JobId) returns (refused: Option<int>)
      requires Valid()
      modifies this, jobs.Values
      ensures Valid() && jobs == old(jobs)
      ensures Value() == Step(old(Value()), Cancel(id))
      ensures refused == Refusal(old(Value()), Cancel(id))
    {
      hide Pump, Scan, DropDone, Sane, Pruned, Numbered, Settled, NoDup;
      if id !in jobs {
        return Some(404);
      }
      var j := jobs[id];
      if j.status == Running || j.status == Queued {
        Proofs.StepStages(Value(), Cancel(id));
        SetStatus(j, Cancelled);
        MqPump();
      }
      return None;
    }

    /** The index of a job in the waiting list. */
    method WaitingIndex(id: JobId) returns (at: Option<nat>)
      requires Filed()
      ensures at == if id in Ids(waiting) then Some(IndexOf(Ids(waiting), id)) else None
    {
      for i := 0 to |waiting|
        invariant id !in Ids(waiting)[..i]
      {
        if waiting[i].id == id {
          assert Ids(waiting)[i] == id;
          FirstIsIndex(Ids(waiting), i);
          return Some(i);
        }
        assert Ids(waiting)[..i + 1] == Ids(waiting)[..i] + [waiting[i].id];
      }
      assert Ids(waiting)[..|waiting|] == Ids(waiting);
      return None;
    }

    method MoveJob(id: JobId, to: Target) returns (refused: Option<int>)
      requires Valid()
      modifies this, jobs.Values
      ensures Valid() && jobs == old(jobs)
      ensures Value() == Step(old(Value()), Move(id, to))
      ensures refused == Refusal(old(Value()), Move(id, to))
    {
      hide Pump, Scan, DropDone, Edit, Sane, Pruned, Numbered, Settled, NoDup, IndexOf, Splice;
      if id !in jobs {
        return Some(404);
      }
      var at := WaitingIndex(id);
      if at.None? {
        return Some(409);
      }
      var from, last := at.value, |waiting| - 1;
      var dest := Destination(from, last, to);
      if dest.None? {
        return Some(400);
      }
      var index := Clamp(dest.value, 0, last);
      ghost var q := Value();
      Proofs.MoveStages(q, id, to, from, index);
      SpliceWaiting(from, index);
      assert Value() == q.(waiting := Splice(q.waiting, from, index));
      MqPump();
      return None;
    }

    method SpliceWaiting(from: nat, to: nat)
      requires Filed() && from < |waiting| && to < |waiting|
      modifies this`waiting
      ensures Filed()
      ensures Value() == old(Value()).(waiting := Splice(old(Value()).waiting, from, to))
    {
      SpliceIds(waiting, from, to);
      var j := waiting[from];
      var rest := waiting[..from] + waiting[from + 1..];
      waiting := rest[..to] + [j] + rest[to..];
    }

    method ForceJob(id: JobId) returns (refused: Option<int>)
      requires Valid()
      modifies this, jobs.Values
      ensures Valid() && jobs == old(jobs)
      ensures Value() == Step(old(Value()), Force(id))
      ensures refused == Refusal(old(Value()), Force(id))
    {
      hide Pump, Scan, DropDone, Sane, Pruned, Numbered, Settled, NoDup;
      if id !in jobs {
        return Some(404);
      }
      var at := WaitingIndex(id);
      if at.None? {
        return Some(409);
      }
      Proofs.StepStages(Value(), Force(id));
      MqBegin(jobs[id], true);
      MqPump();
      return None;
    }
  }
}

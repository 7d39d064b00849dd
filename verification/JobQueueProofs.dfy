/** What the job queue keeps, proved over the value model of JobQueueState. */
module JobQueueProofs {
  import opened Basics
  import opened JobQueueState

  // ---------------------------------------------------------------- one start

  lemma BeginSane(q: Queue, id: JobId, forced: bool)
    requires Sane(q) && id in q.waiting && HasStatus(q, id, Queued)
    ensures Sane(Begin(q, id, forced))
    ensures Pruned(q) ==> Pruned(Begin(q, id, forced))
    ensures Begin(q, id, forced).begun == q.begun + [id]
  {
  }

  lemma HoldersAdd(slots: map<JobId, Slot>, id: JobId, slot: Slot, sid: ServerId)
    requires id !in slots
    ensures Holders(slots[id := slot], sid) == Holders(slots, sid) + (if sid in slot.servers then {id} else {})
  {
  }

  /** Starting a job only ever uses up slots, one on each of its servers. */
  lemma BeginUses(q: Queue, id: JobId, forced: bool, sid: ServerId)
    requires id in q.jobs && id !in q.slots
    ensures Used(Begin(q, id, forced), sid) == Used(q, sid) + (if sid in ServersOf(q, id) then 1 else 0)
  {
    HoldersAdd(q.slots, id, Slot(q.jobs[id].servers, forced), sid);
    assert id !in Holders(q.slots, sid);
  }

  lemma BeginAt(q: Queue, kept: seq<JobId>, id: JobId, rest: seq<JobId>, forced: bool)
    requires Sane(q) && q.waiting == kept + [id] + rest
    ensures id in q.waiting
    ensures Begin(q, id, forced).waiting == kept + rest
  {
    assert q.waiting[|kept|] == id;
    NoDupApart(kept, id, rest);
    MinusOne(kept, id, rest);
  }

  // ---------------------------------------------------------------- the scan

  /** The scan has passed over `kept`, blocking its servers, and still has `todo` to look at. */
  ghost predicate Scanning(q: Queue, kept: seq<JobId>, todo: seq<JobId>, blocked: set<ServerId>) {
    && Sane(q) && Pruned(q)
    && q.waiting == kept + todo
    && Blocks(q, kept, blocked)
    && (forall i | 0 <= i < |kept| :: !Startable(q, i))
  }

  lemma ScanningFits(q: Queue, kept: seq<JobId>, todo: seq<JobId>, blocked: set<ServerId>)
    requires Scanning(q, kept, todo, blocked) && todo != []
    ensures todo[0] in q.jobs && HasStatus(q, todo[0], Queued) && todo[0] in q.waiting
    ensures Fits(q, todo[0], blocked) <==> Startable(q, |kept|)
  {
    assert q.waiting[|kept|] == todo[0];
    assert forall k | 0 <= k < |kept| :: q.waiting[k] == kept[k];
  }

  /** A job that could not start cannot start when more slots are in use and the same jobs are ahead of it. */
  lemma StillNotStartable(q: Queue, b: Queue, i: nat)
    requires i < |q.waiting| && i < |b.waiting| && !Startable(q, i)
    requires forall k | 0 <= k <= i :: q.waiting[k] == b.waiting[k]
    requires forall id :: ServersOf(q, id) == ServersOf(b, id)
    requires q.perServer == b.perServer && forall sid :: Used(q, sid) <= Used(b, sid)
    ensures !Startable(b, i)
  {
    var sid :| sid in ServersOf(q, q.waiting[i])
               && !(Used(q, sid) < q.perServer && forall k | 0 <= k < i :: sid !in ServersOf(q, q.waiting[k]));
    assert sid in ServersOf(b, b.waiting[i]);
    assert Used(q, sid) <= Used(b, sid);
  }

  lemma BeginFrame(q: Queue, id: JobId, forced: bool)
    requires id in q.jobs && id !in q.slots
    ensures var b := Begin(q, id, forced);
            && b.perServer == q.perServer
            && (forall x :: ServersOf(b, x) == ServersOf(q, x))
            && (forall sid :: Used(q, sid) <= Used(b, sid))
  {
    var b := Begin(q, id, forced);
    forall sid ensures Used(q, sid) <= Used(b, sid) {
      BeginUses(q, id, forced, sid);
    }
  }

  lemma KeptStays(q: Queue, b: Queue, kept: seq<JobId>, todo: seq<JobId>, rest: seq<JobId>)
    requires q.waiting == kept + todo && b.waiting == kept + rest
    requires forall i | 0 <= i < |kept| :: !Startable(q, i)
    requires forall id :: ServersOf(b, id) == ServersOf(q, id)
    requires b.perServer == q.perServer && forall sid :: Used(q, sid) <= Used(b, sid)
    ensures forall i | 0 <= i < |kept| :: !Startable(b, i)
  {
    forall i | 0 <= i < |kept| ensures !Startable(b, i) {
      assert forall k | 0 <= k < |kept| :: b.waiting[k] == kept[k] == q.waiting[k];
      StillNotStartable(q, b, i);
    }
  }

  lemma ScanningStart(q: Queue, kept: seq<JobId>, todo: seq<JobId>, blocked: set<ServerId>)
    requires Scanning(q, kept, todo, blocked) && todo != [] && Fits(q, todo[0], blocked)
    ensures todo[0] in q.jobs && todo[0] !in q.slots
    ensures Scanning(Begin(q, todo[0], false), kept, todo[1..], blocked)
  {
    ScanningFits(q, kept, todo, blocked);
    var id, rest := todo[0], todo[1..];
    assert q.waiting == kept + [id] + rest;
    BeginAt(q, kept, id, rest, false);
    BeginSane(q, id, false);
    BeginFrame(q, id, false);
    KeptStays(q, Begin(q, id, false), kept, todo, rest);
  }

  ghost predicate Blocks(q: Queue, kept: seq<JobId>, blocked: set<ServerId>) {
    forall sid :: sid in blocked <==> exists k :: 0 <= k < |kept| && sid in ServersOf(q, kept[k])
  }

  lemma BlocksMore(q: Queue, kept: seq<JobId>, id: JobId, blocked: set<ServerId>)
    requires Blocks(q, kept, blocked)
    ensures Blocks(q, kept + [id], Block(q, id, blocked))
  {
    var now := kept + [id];
    forall sid ensures sid in Block(q, id, blocked) <==> exists k :: 0 <= k < |now| && sid in ServersOf(q, now[k]) {
      if sid in blocked {
        var k :| 0 <= k < |kept| && sid in ServersOf(q, kept[k]);
        assert now[k] == kept[k];
      }
      if sid in ServersOf(q, id) {
        assert now[|kept|] == id;
      }
      if k :| 0 <= k < |now| && sid in ServersOf(q, now[k]) {
        if k < |kept| {
          assert now[k] == kept[k];
          assert sid in blocked;
        }
      }
    }
  }

  lemma ScanningSkip(q: Queue, kept: seq<JobId>, todo: seq<JobId>, blocked: set<ServerId>)
    requires Scanning(q, kept, todo, blocked) && todo != [] && !Fits(q, todo[0], blocked)
    ensures Scanning(q, kept + [todo[0]], todo[1..], Block(q, todo[0], blocked))
  {
    ScanningFits(q, kept, todo, blocked);
    assert q.waiting == kept + [todo[0]] + todo[1..];
    BlocksMore(q, kept, todo[0], blocked);
  }

  lemma ScanningInit(q: Queue)
    requires Sane(q) && Pruned(q)
    ensures Scanning(q, [], q.waiting, {})
  {
    assert q.waiting == [] + q.waiting;
  }

  /** The single pass starts exactly what the repeated search for the first startable job starts. */
  lemma {:induction false} ScanIsGreedy(q: Queue, kept: seq<JobId>, todo: seq<JobId>, blocked: set<ServerId>)
    requires Scanning(q, kept, todo, blocked)
    ensures Scan(q, todo, blocked) == Greedy(q)
    decreases |todo|
  {
    if todo == [] {
      assert FirstStartable(q, 0) == |q.waiting|;
    } else {
      ScanningFits(q, kept, todo, blocked);
      if Fits(q, todo[0], blocked) {
        ScanningStart(q, kept, todo, blocked);
        ScanIsGreedy(Begin(q, todo[0], false), kept, todo[1..], blocked);
        assert q.waiting[|kept|] == todo[0];
        assert FirstStartable(q, 0) == |kept|;
      } else {
        ScanningSkip(q, kept, todo, blocked);
        ScanIsGreedy(q, kept + [todo[0]], todo[1..], Block(q, todo[0], blocked));
      }
    }
  }

  /** The scan ends with nothing left to start. */
  lemma {:induction false} ScanSettles(q: Queue, kept: seq<JobId>, todo: seq<JobId>, blocked: set<ServerId>)
    requires Scanning(q, kept, todo, blocked)
    ensures var r := Scan(q, todo, blocked);
            Sane(r) && Pruned(r) && Settled(r) && r.perServer == q.perServer
    decreases |todo|
  {
    if todo != [] {
      if Fits(q, todo[0], blocked) {
        ScanningStart(q, kept, todo, blocked);
        ScanSettles(Begin(q, todo[0], false), kept, todo[1..], blocked);
      } else {
        ScanningFits(q, kept, todo, blocked);
        ScanningSkip(q, kept, todo, blocked);
        ScanSettles(q, kept + [todo[0]], todo[1..], Block(q, todo[0], blocked));
      }
    }
  }

  // ---------------------------------------------------------------- the pump

  lemma DropDoneSane(q: Queue)
    requires Sane(q)
    ensures Sane(DropDone(q)) && Pruned(DropDone(q))
  {
  }

  lemma DropDoneNothing(q: Queue)
    requires Sane(q) && Pruned(q)
    ensures DropDone(q) == q
  {
    MinusNothing(q.waiting, NoLongerQueued(q));
    assert DropDone(q).slots == q.slots;
  }

  lemma IndexOfAt(ids: seq<JobId>, i: nat)
    requires NoDup(ids) && i < |ids|
    ensures IndexOf(ids, ids[i]) == i
  {
    var k := IndexOf(ids, ids[i]);
    assert ids[k] == ids[i];
  }

  lemma NumberStable(q: Queue)
    requires Sane(q) && Pruned(q) && Settled(q)
    ensures Stable(Number(q))
  {
    var n := Number(q);
    forall i | 0 <= i < |n.waiting| ensures n.waiting[i] in n.jobs && n.jobs[n.waiting[i]].position == Some(i + 1) {
      IndexOfAt(q.waiting, i);
      assert q.waiting[i] in q.waiting;
    }
    forall i | 0 <= i < |n.waiting| ensures !Startable(n, i) {
      StillNotStartable(q, n, i);
    }
  }

  lemma NumberNothing(q: Queue)
    requires Sane(q) && Numbered(q)
    ensures Number(q) == q
  {
    forall id | id in q.waiting ensures q.jobs[id].(position := Some(IndexOf(q.waiting, id) + 1)) == q.jobs[id] {
      var i := IndexOf(q.waiting, id);
      assert q.waiting[i] == id;
    }
    assert Number(q).jobs == q.jobs;
  }

  /** A pump turns any state a command's edit can leave into a settled one. */
  lemma PumpStable(q: Queue)
    requires Sane(q)
    ensures Stable(Pump(q)) && Pump(q).perServer == q.perServer
  {
    var d := DropDone(q);
    DropDoneSane(q);
    ScanningInit(d);
    ScanSettles(d, [], d.waiting, {});
    NumberStable(Scan(d, d.waiting, {}));
  }

  /** Dropping slots first does not change which waiting jobs go. */
  lemma DropStages(q: Queue)
    ensures var s := q.(slots := DropDone(q).slots);
            s.(waiting := Minus(s.waiting, NoLongerQueued(s))) == DropDone(q)
  {
    assert NoLongerQueued(q.(slots := DropDone(q).slots)) == NoLongerQueued(q);
  }

  /** The stages of a pump, with what the last of them relies on. */
  lemma PumpStages(q: Queue)
    requires Sane(q)
    ensures var s := Scan(DropDone(q), DropDone(q).waiting, {});
            NoDup(s.waiting) && Pump(q) == Number(s)
    ensures Stable(Pump(q))
  {
    var d := DropDone(q);
    DropDoneSane(q);
    ScanningInit(d);
    ScanSettles(d, [], d.waiting, {});
    PumpStable(q);
  }

  /**
   One pass of the pump reaches exactly the state of "start the first waiting job whose servers all
   have a free slot and are named by no earlier waiting job", repeated until there is none.
   */
  lemma PumpIsGreedy(q: Queue)
    requires Sane(q)
    ensures Pump(q) == Number(Greedy(DropDone(q)))
  {
    var d := DropDone(q);
    DropDoneSane(q);
    ScanningInit(d);
    ScanIsGreedy(d, [], d.waiting, {});
  }

  lemma {:induction false} ScanNothing(q: Queue, kept: seq<JobId>, todo: seq<JobId>, blocked: set<ServerId>)
    requires Scanning(q, kept, todo, blocked) && Settled(q)
    ensures Scan(q, todo, blocked) == q
    decreases |todo|
  {
    if todo != [] {
      ScanningFits(q, kept, todo, blocked);
      ScanningSkip(q, kept, todo, blocked);
      ScanNothing(q, kept + [todo[0]], todo[1..], Block(q, todo[0], blocked));
    }
  }

  /** Pumping a settled queue changes nothing, so a second pump never does anything. */
  lemma PumpNothing(q: Queue)
    requires Stable(q)
    ensures Pump(q) == q
  {
    DropDoneNothing(q);
    ScanningInit(q);
    ScanNothing(q, [], q.waiting, {});
    NumberNothing(q);
  }

  lemma PumpIdempotent(q: Queue)
    requires Sane(q)
    ensures Pump(Pump(q)) == Pump(q)
  {
    PumpStable(q);
    PumpNothing(Pump(q));
  }

  // ---------------------------------------------------------------- the commands

  lemma SpliceFacts(ids: seq<JobId>, from: nat, to: nat)
    requires from < |ids| && to < |ids| && NoDup(ids)
    ensures var r := Splice(ids, from, to);
            && |r| == |ids| && NoDup(r) && r[to] == ids[from]
            && (forall x :: x in r <==> x in ids)
            && multiset(r) == multiset(ids)
  {
    var rest := ids[..from] + ids[from + 1..];
    var r := Splice(ids, from, to);
    assert ids == ids[..from] + [ids[from]] + ids[from + 1..];
    assert rest == rest[..to] + rest[to..];
    assert multiset(r) == multiset(rest) + multiset{ids[from]} == multiset(ids);
    SameBag(ids, r);
  }

  lemma SameBag(s: seq<JobId>, t: seq<JobId>)
    requires NoDup(s) && multiset(s) == multiset(t)
    ensures |s| == |t| && NoDup(t) && forall x :: x in t <==> x in s
  {
    assert |multiset(s)| == |s| && |multiset(t)| == |t|;
    forall x ensures x in t <==> x in s {
      assert x in t <==> x in multiset(t);
      assert x in s <==> x in multiset(s);
    }
    forall i, j | 0 <= i < j < |t| ensures t[i] != t[j] {
      if t[i] == t[j] {
        TwiceCounts(t, i, j);
        assert t[i] in s;
        OnceCounts(s, t[i]);
      }
    }
  }

  lemma TwiceCounts(t: seq<JobId>, i: nat, j: nat)
    requires i < j < |t| && t[i] == t[j]
    ensures multiset(t)[t[i]] >= 2
  {
    assert t == t[..i] + [t[i]] + t[i + 1..j] + [t[j]] + t[j + 1..];
  }

  lemma {:induction false} OnceCounts(s: seq<JobId>, x: JobId)
    requires NoDup(s)
    ensures multiset(s)[x] <= 1
  {
    if s != [] {
      assert s == [s[0]] + s[1..];
      OnceCounts(s[1..], x);
      if x == s[0] {
        assert x !in s[1..];
        assert multiset(s[1..])[x] == 0;
      }
    }
  }

  /** The two splices move one job to its new place and keep the order of all the others. */
  lemma SpliceOrder(ids: seq<JobId>, from: nat, to: nat, a: JobId, b: JobId)
    requires from < |ids| && to < |ids| && NoDup(ids)
    requires Before(ids, a, b) && a != ids[from] && b != ids[from]
    ensures Before(Splice(ids, from, to), a, b)
  {
    var i, j :| 0 <= i < j < |ids| && ids[i] == a && ids[j] == b;
    var rest := ids[..from] + ids[from + 1..];
    var i', j' := if i < from then i else i - 1, if j < from then j else j - 1;
    assert rest[i'] == a && rest[j'] == b;
    var r := Splice(ids, from, to);
    assert r[if i' < to then i' else i' + 1] == a && r[if j' < to then j' else j' + 1] == b;
  }

  lemma EnqueueSane(q: Queue, id: JobId, servers: seq<ServerId>)
    requires Stable(q) && id !in q.jobs
    ensures Sane(Enqueue(q, id, servers))
  {
    assert id !in q.waiting && id !in q.slots && id !in q.begun && id !in q.begin;
  }

  lemma SetStatusSane(q: Queue, id: JobId, st: Status)
    requires Stable(q) && id in q.jobs
    requires st == Cancelled || ((st == Succeeded || st == Failed) && HasStatus(q, id, Running))
    requires HasStatus(q, id, Running) || HasStatus(q, id, Queued)
    ensures Sane(SetStatus(q, id, st))
  {
    assert q.jobs[id].status == Running ==> id in q.slots;
  }

  lemma MoveSane(q: Queue, from: nat, to: nat)
    requires Stable(q) && from < |q.waiting| && to < |q.waiting|
    ensures Sane(q.(waiting := Splice(q.waiting, from, to)))
  {
    SpliceFacts(q.waiting, from, to);
  }

  lemma LimitSane(q: Queue, n: int)
    requires Sane(q) && 1 <= n <= MAX_PER_SERVER
    ensures Sane(q.(perServer := n))
  {
  }

  lemma EditSane(q: Queue, c: Command)
    requires Stable(q) && !Ignored(q, c)
    ensures Sane(Edit(q, c))
  {
    hide IndexOf, Splice;
    if c.Force? {
      assert HasStatus(q, c.id, Queued);
    }
    if c.SetLimit? {
      LimitSane(q, c.n);
    }
    hide Sane, Pruned, Numbered, Settled, HasStatus;
    match c
    case Add(id, servers, serverId) => EnqueueSane(q, id, ServersFor(servers, serverId));
    case Finish(id, ok) => SetStatusSane(q, id, if ok then Succeeded else Failed);
    case Cancel(id) => SetStatusSane(q, id, Cancelled);
    case Move(id, to) =>
      var from, last := IndexOf(q.waiting, id), |q.waiting| - 1;
      MoveSane(q, from, Clamp(Destination(from, last, to).value, 0, last));
    case Force(id) => BeginSane(q, id, true);
    case SetLimit(n) =>
  }

  lemma StepStable(q: Queue, c: Command)
    requires Stable(q)
    ensures Stable(Step(q, c))
  {
    if !Ignored(q, c) {
      EditSane(q, c);
      PumpStable(Edit(q, c));
    }
  }

  /** What carrying out a command relies on. */
  lemma StepStages(q: Queue, c: Command)
    requires Stable(q) && !Ignored(q, c)
    ensures var d := DropDone(Edit(q, c)); NoDup(Scan(d, d.waiting, {}).waiting)
    ensures Step(q, c) == Pump(Edit(q, c)) && Stable(Step(q, c))
  {
    EditSane(q, c);
    PumpStages(Edit(q, c));
  }

  lemma MoveStages(q: Queue, id: JobId, to: Target, from: nat, index: nat)
    requires Stable(q) && id in q.waiting && !to.Nowhere? && from == IndexOf(q.waiting, id)
    requires index == Clamp(Destination(from, |q.waiting| - 1, to).value, 0, |q.waiting| - 1)
    ensures index < |q.waiting|
    ensures var e := q.(waiting := Splice(q.waiting, from, index));
            && Step(q, Move(id, to)) == Pump(e)
            && NoDup(Scan(DropDone(e), DropDone(e).waiting, {}).waiting)
    ensures Stable(Step(q, Move(id, to)))
  {
    MoveEdits(q, id, to, from, index);
    StepStages(q, Move(id, to));
  }

  lemma MoveEdits(q: Queue, id: JobId, to: Target, from: nat, index: nat)
    requires id in q.jobs && id in q.waiting && !to.Nowhere? && from == IndexOf(q.waiting, id)
    requires index == Clamp(Destination(from, |q.waiting| - 1, to).value, 0, |q.waiting| - 1)
    ensures !Ignored(q, Move(id, to))
    ensures index < |q.waiting|
    ensures Edit(q, Move(id, to)) == q.(waiting := Splice(q.waiting, from, index))
  {
  }

  /**
   Every state a run reaches from a good one is good: waiting and slots are disjoint, a job waits
   exactly while queued and holds a slot exactly while running, positions are 1..n, no begin callback
   has run twice, and nothing that could start is left waiting.
   */
  lemma {:induction false} RunStable(q: Queue, cs: seq<Command>)
    requires Stable(q)
    ensures Stable(Run(q, cs))
    decreases |cs|
  {
    if cs != [] {
      StepStable(q, cs[0]);
      RunStable(Step(q, cs[0]), cs[1..]);
    }
  }

  lemma InitStable()
    ensures Stable(InitQueue())
  {
  }
}

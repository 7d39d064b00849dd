/** What the job queue promises over whole runs: order, capacity, conservation and draining. */
module JobQueueLaws {
  import opened Basics
  import opened JobQueueState
  import opened JobQueueProofs

  // ---------------------------------------------------------------- order

  ghost predicate ShareServer(q: Queue, a: JobId, b: JobId) {
    exists sid :: sid in ServersOf(q, a) && sid in ServersOf(q, b)
  }

  /** `b` has not overtaken `a`: it has not begun before `a`, and while both wait `a` is ahead. */
  ghost predicate NotOvertaken(q: Queue, a: JobId, b: JobId) {
    && a != b && a in q.jobs && b in q.jobs && ShareServer(q, a, b)
    && if a in q.begun then b in q.begun ==> Before(q.begun, a, b)
       else a in q.waiting && b !in q.begun && (b in q.waiting ==> Before(q.waiting, a, b))
  }

  lemma BeforeAppend(s: seq<JobId>, a: JobId, b: JobId, x: JobId)
    requires a in s && (b in s ==> Before(s, a, b))
    ensures b in s + [x] ==> Before(s + [x], a, b)
  {
    var t := s + [x];
    var i :| 0 <= i < |s| && s[i] == a;
    assert t[i] == a && t[|s|] == x;
    if b in s {
      var k, j :| 0 <= k < j < |s| && s[k] == a && s[j] == b;
      assert t[k] == a && t[j] == b;
    }
  }

  /** Starting a waiting job other than an overtaking `b` keeps the order of `a` and `b`. */
  lemma BeginOrder(q: Queue, id: JobId, forced: bool, a: JobId, b: JobId)
    requires Sane(q) && id in q.waiting && HasStatus(q, id, Queued) && NotOvertaken(q, a, b)
    requires id == b ==> a in q.begun
    ensures NotOvertaken(Begin(q, id, forced), a, b)
  {
    var r := Begin(q, id, forced);
    assert ServersOf(r, a) == ServersOf(q, a) && ServersOf(r, b) == ServersOf(q, b);
    if a in q.begun {
      BeforeAppend(q.begun, a, b, id);
    } else if id == a {
      assert r.begun[|q.begun|] == a;
    } else {
      if b in r.waiting {
        MinusBefore(q.waiting, {id}, a, b);
      }
    }
  }

  lemma {:induction false} ScanOrder(q: Queue, kept: seq<JobId>, todo: seq<JobId>, blocked: set<ServerId>, a: JobId, b: JobId)
    requires Scanning(q, kept, todo, blocked) && NotOvertaken(q, a, b)
    ensures NotOvertaken(Scan(q, todo, blocked), a, b)
    decreases |todo|
  {
    if todo != [] {
      ScanningFits(q, kept, todo, blocked);
      if Fits(q, todo[0], blocked) {
        if todo[0] == b && a !in q.begun {
          AheadIsKept(q, kept, todo, a, b);
          assert false;
        }
        ScanningStart(q, kept, todo, blocked);
        BeginOrder(q, todo[0], false, a, b);
        ScanOrder(Begin(q, todo[0], false), kept, todo[1..], blocked, a, b);
      } else {
        ScanningSkip(q, kept, todo, blocked);
        ScanOrder(q, kept + [todo[0]], todo[1..], Block(q, todo[0], blocked), a, b);
      }
    }
  }

  lemma AheadIsKept(q: Queue, kept: seq<JobId>, todo: seq<JobId>, a: JobId, b: JobId)
    requires NoDup(q.waiting) && q.waiting == kept + todo && todo != [] && todo[0] == b && Before(q.waiting, a, b)
    ensures a in kept
  {
    var i, j :| 0 <= i < j < |q.waiting| && q.waiting[i] == a && q.waiting[j] == b;
    assert q.waiting[|kept|] == b;
    assert kept[i] == a;
  }

  /** No pump ever starts a job before one that is ahead of it in the queue and shares a server with it. */
  lemma PumpOrder(q: Queue, a: JobId, b: JobId)
    requires Sane(q) && NotOvertaken(q, a, b) && (a in q.begun || HasStatus(q, a, Queued))
    ensures NotOvertaken(Pump(q), a, b)
  {
    var d := DropDone(q);
    DropDoneSane(q);
    if a !in q.begun && b in d.waiting {
      MinusBefore(q.waiting, NoLongerQueued(q), a, b);
    }
    assert ServersOf(d, a) == ServersOf(q, a) && ServersOf(d, b) == ServersOf(q, b);
    ScanningInit(d);
    ScanOrder(d, [], d.waiting, {}, a, b);
    var s := Scan(d, d.waiting, {});
    assert ServersOf(Number(s), a) == ServersOf(s, a) && ServersOf(Number(s), b) == ServersOf(s, b);
  }

  /** The commands an admin can use to let `b` pass `a`. */
  predicate Reorders(c: Command, a: JobId, b: JobId) {
    (c.Move? && (c.id == a || c.id == b)) || (c.Force? && c.id == b) || (c.Cancel? && c.id == a)
  }

  lemma StepOrder(q: Queue, c: Command, a: JobId, b: JobId)
    requires Stable(q) && NotOvertaken(q, a, b) && !Reorders(c, a, b)
    ensures NotOvertaken(Step(q, c), a, b)
  {
    if !Ignored(q, c) {
      hide Pump, Edit, NotOvertaken, Reorders, Sane, HasStatus;
      EditSane(q, c);
      EditOrder(q, c, a, b);
      PumpOrder(Edit(q, c), a, b);
    }
  }

  /** An edit that keeps every job's servers keeps who shares a server. */
  lemma SameServersShare(q: Queue, e: Queue, a: JobId, b: JobId)
    requires ServersOf(e, a) == ServersOf(q, a) && ServersOf(e, b) == ServersOf(q, b)
    ensures ShareServer(e, a, b) <==> ShareServer(q, a, b)
  {
  }

  lemma EnqueueOrder(q: Queue, id: JobId, servers: seq<ServerId>, a: JobId, b: JobId)
    requires Sane(q) && id !in q.jobs && NotOvertaken(q, a, b)
    ensures NotOvertaken(Enqueue(q, id, servers), a, b)
  {
    hide ShareServer, Before;
    SameServersShare(q, Enqueue(q, id, servers), a, b);
    if a in q.waiting {
      BeforeAppend(q.waiting, a, b, id);
    }
  }

  lemma MoveOrder(q: Queue, from: nat, to: nat, a: JobId, b: JobId)
    requires NoDup(q.waiting) && from < |q.waiting| && to < |q.waiting| && NotOvertaken(q, a, b)
    requires a != q.waiting[from] && b != q.waiting[from]
    ensures NotOvertaken(q.(waiting := Splice(q.waiting, from, to)), a, b)
  {
    hide ShareServer, Before, Splice, NoDup;
    SameServersShare(q, q.(waiting := Splice(q.waiting, from, to)), a, b);
    SpliceFacts(q.waiting, from, to);
    if a !in q.begun && b in q.waiting {
      SpliceOrder(q.waiting, from, to, a, b);
    }
  }

  lemma StatusOrder(q: Queue, id: JobId, st: Status, a: JobId, b: JobId)
    requires id in q.jobs && NotOvertaken(q, a, b)
    ensures NotOvertaken(JobQueueState.SetStatus(q, id, st), a, b)
  {
    hide ShareServer, Before;
    SameServersShare(q, JobQueueState.SetStatus(q, id, st), a, b);
  }

  lemma LimitOrder(q: Queue, n: int, a: JobId, b: JobId)
    requires NotOvertaken(q, a, b)
    ensures NotOvertaken(q.(perServer := n), a, b)
  {
    hide ShareServer, Before;
    SameServersShare(q, q.(perServer := n), a, b);
  }

  lemma EditOrder(q: Queue, c: Command, a: JobId, b: JobId)
    requires Stable(q) && NotOvertaken(q, a, b) && !Reorders(c, a, b) && !Ignored(q, c)
    ensures NotOvertaken(Edit(q, c), a, b)
    ensures a in Edit(q, c).begun || HasStatus(Edit(q, c), a, Queued)
  {
    EditKeepsQueued(q, c, a, b);
    if c.Force? {
      assert HasStatus(q, c.id, Queued);
    }
    hide NotOvertaken, HasStatus, Pruned, Numbered, Settled, Before, IndexOf, Splice;
    match c
    case Add(id, servers, serverId) => EnqueueOrder(q, id, ServersFor(servers, serverId), a, b);
    case Move(id, to) =>
      var from, last := IndexOf(q.waiting, id), |q.waiting| - 1;
      MoveOrder(q, from, Clamp(Destination(from, last, to).value, 0, last), a, b);
    case Force(id) => BeginOrder(q, id, true, a, b);
    case Finish(id, ok) => StatusOrder(q, id, if ok then Succeeded else Failed, a, b);
    case Cancel(id) => StatusOrder(q, id, Cancelled, a, b);
    case SetLimit(n) => LimitOrder(q, n, a, b);
  }

  lemma EditKeepsQueued(q: Queue, c: Command, a: JobId, b: JobId)
    requires Stable(q) && NotOvertaken(q, a, b) && !Reorders(c, a, b) && !Ignored(q, c)
    ensures a in Edit(q, c).begun || HasStatus(Edit(q, c), a, Queued)
    ensures c.Move? ==> a != c.id && b != c.id
    ensures c.Force? ==> c.id != b || a in q.begun
  {
    hide Splice, IndexOf, Minus, Numbered, Settled;
  }

  /**
   Fairness over every run: as long as nobody moves `a` or `b`, forces `b` or cancels `a`, a job `b`
   behind `a` that shares a server with it has begun only if `a` began before it.
   */
  lemma {:induction false} RunOrder(q: Queue, cs: seq<Command>, a: JobId, b: JobId)
    requires Stable(q) && NotOvertaken(q, a, b)
    requires forall i | 0 <= i < |cs| :: !Reorders(cs[i], a, b)
    ensures NotOvertaken(Run(q, cs), a, b)
    ensures b in Run(q, cs).begun ==> Before(Run(q, cs).begun, a, b)
    decreases |cs|
  {
    if cs != [] {
      StepStable(q, cs[0]);
      StepOrder(q, cs[0], a, b);
      RunOrder(Step(q, cs[0]), cs[1..], a, b);
    }
  }

  // ---------------------------------------------------------------- capacity

  /** The jobs on a server that were let in by the pump rather than forced. */
  function Admitted(q: Queue, sid: ServerId): set<JobId> {
    set id | id in q.slots && sid in q.slots[id].servers && !q.slots[id].forced
  }

  ghost predicate SlotsGrow(q: Queue, r: Queue) {
    forall id | id in q.slots :: id in r.slots && r.slots[id] == q.slots[id]
  }

  lemma {:induction false} ScanCapacity(q: Queue, kept: seq<JobId>, todo: seq<JobId>, blocked: set<ServerId>, sid: ServerId)
    requires Scanning(q, kept, todo, blocked)
    ensures var r := Scan(q, todo, blocked);
            && SlotsGrow(q, r)
            && (Used(r, sid) <= q.perServer || Holders(r.slots, sid) == Holders(q.slots, sid))
    decreases |todo|
  {
    if todo != [] {
      ScanningFits(q, kept, todo, blocked);
      if Fits(q, todo[0], blocked) {
        ScanningStart(q, kept, todo, blocked);
        BeginUses(q, todo[0], false, sid);
        HoldersAdd(q.slots, todo[0], Slot(q.jobs[todo[0]].servers, false), sid);
        ScanCapacity(Begin(q, todo[0], false), kept, todo[1..], blocked, sid);
      } else {
        ScanningSkip(q, kept, todo, blocked);
        ScanCapacity(q, kept + [todo[0]], todo[1..], Block(q, todo[0], blocked), sid);
      }
    }
  }

  /**
   A pump never fills a server past the limit, forced jobs counted: a server above the limit after
   the pump is held by nobody who did not hold it before.
   */
  lemma PumpCapacity(q: Queue, sid: ServerId)
    requires Sane(q)
    ensures Used(Pump(q), sid) <= q.perServer || Holders(Pump(q).slots, sid) <= Holders(q.slots, sid)
    ensures |Admitted(Pump(q), sid)| <= q.perServer || |Admitted(Pump(q), sid)| <= |Admitted(q, sid)|
  {
    var d := DropDone(q);
    DropDoneSane(q);
    ScanningInit(d);
    ScanCapacity(d, [], d.waiting, {}, sid);
    var r := Pump(q);
    assert Holders(d.slots, sid) <= Holders(q.slots, sid);
    assert Admitted(r, sid) <= Holders(r.slots, sid);
    Subset(Admitted(r, sid), Holders(r.slots, sid));
    if Used(r, sid) > q.perServer {
      assert Admitted(r, sid) <= Admitted(q, sid);
      Subset(Admitted(r, sid), Admitted(q, sid));
    }
  }

  lemma {:induction false} Subset(a: set<JobId>, b: set<JobId>)
    requires a <= b
    ensures |a| <= |b|
  {
    if a != {} {
      var x :| x in a;
      Subset(a - {x}, b - {x});
    }
  }

  lemma EditAdmitsNobody(q: Queue, c: Command, sid: ServerId)
    requires Stable(q) && !Ignored(q, c)
    ensures Admitted(Edit(q, c), sid) == Admitted(q, sid)
  {
    hide Splice, IndexOf, Minus, Numbered, Settled, Pruned;
  }

  lemma StepCapacity(q: Queue, c: Command, sid: ServerId, bound: int)
    requires Stable(q) && |Admitted(q, sid)| <= bound && Step(q, c).perServer <= bound
    ensures |Admitted(Step(q, c), sid)| <= bound
  {
    if !Ignored(q, c) {
      hide Pump, Edit, Ignored, Sane, Pruned, Numbered, Settled, Admitted;
      EditSane(q, c);
      var e := Edit(q, c);
      EditAdmitsNobody(q, c, sid);
      PumpStable(e);
      PumpCapacity(e, sid);
    }
  }

  /**
   Over every run the jobs the pump let in on one server never number more than the highest limit
   that was in force, so never more than the limit when it is never lowered.
   */
  lemma {:induction false} RunCapacity(q: Queue, cs: seq<Command>, sid: ServerId, bound: int)
    requires Stable(q) && |Admitted(q, sid)| <= bound && Peak(q, cs) <= bound
    ensures |Admitted(Run(q, cs), sid)| <= bound
    decreases |cs|
  {
    if cs != [] {
      StepStable(q, cs[0]);
      PeakBounds(Step(q, cs[0]), cs[1..]);
      StepCapacity(q, cs[0], sid, bound);
      RunCapacity(Step(q, cs[0]), cs[1..], sid, bound);
    }
  }

  lemma PeakBounds(q: Queue, cs: seq<Command>)
    ensures q.perServer <= Peak(q, cs)
  {
  }

  predicate Lowers(q: Queue, cs: seq<Command>)
    decreases |cs|
  {
    cs != [] && (Step(q, cs[0]).perServer < q.perServer || Lowers(Step(q, cs[0]), cs[1..]))
  }

  lemma {:induction false} NeverLowered(q: Queue, cs: seq<Command>)
    requires !Lowers(q, cs)
    ensures Peak(q, cs) == Run(q, cs).perServer
    decreases |cs|
  {
    if cs != [] {
      NeverLowered(Step(q, cs[0]), cs[1..]);
      PeakBounds(Step(q, cs[0]), cs[1..]);
    }
  }

  /** From an empty queue, with a limit nobody lowers, every server stays within the limit. */
  lemma LimitKept(cs: seq<Command>, sid: ServerId)
    requires !Lowers(InitQueue(), cs)
    ensures |Admitted(Run(InitQueue(), cs), sid)| <= Run(InitQueue(), cs).perServer
  {
    InitStable();
    NeverLowered(InitQueue(), cs);
    PeakBounds(InitQueue(), cs);
    assert Admitted(InitQueue(), sid) == {};
    RunCapacity(InitQueue(), cs, sid, Peak(InitQueue(), cs));
  }

  // ---------------------------------------------------------------- conservation and draining

  function WaitingSet(q: Queue): set<JobId> {
    set id | id in q.waiting
  }

  function Held(q: Queue): set<JobId> {
    WaitingSet(q) + q.slots.Keys
  }

  /** How much is left: jobs waiting and jobs holding slots. */
  function Load(q: Queue): nat {
    |q.waiting| + |q.slots|
  }

  lemma {:induction false} WaitingCount(ids: seq<JobId>)
    requires NoDup(ids)
    ensures |set id | id in ids| == |ids|
  {
    if ids != [] {
      WaitingCount(ids[1..]);
      assert (set id | id in ids) == {ids[0]} + set id | id in ids[1..];
    }
  }

  lemma LoadIsHeld(q: Queue)
    requires Sane(q)
    ensures Load(q) == |Held(q)|
  {
    WaitingCount(q.waiting);
    assert |q.slots.Keys| == |q.slots|;
    assert WaitingSet(q) !! q.slots.Keys;
  }

  /** From `q` to `r` jobs only went from waiting into slots, each beginning once as it did. */
  ghost predicate Carried(q: Queue, r: Queue) {
    && Held(r) == Held(q) && r.jobs.Keys == q.jobs.Keys
    && q.begun <= r.begun
    && (forall id | id in r.waiting :: id in q.waiting)
    && (forall id :: id in r.begun[|q.begun|..] <==> id in q.waiting && id !in r.waiting)
    && (forall id | id in q.jobs && id !in q.waiting :: r.jobs[id] == q.jobs[id])
  }

  lemma BeginCarries(q: Queue, id: JobId)
    requires Sane(q) && id in q.waiting && HasStatus(q, id, Queued)
    ensures Carried(q, Begin(q, id, false))
  {
    var b := Begin(q, id, false);
    assert b.begun[|q.begun|..] == [id];
    assert WaitingSet(b) == WaitingSet(q) - {id};
    assert b.slots.Keys == q.slots.Keys + {id};
    assert Held(b) == Held(q);
  }

  lemma CarriedTwice(q: Queue, b: Queue, r: Queue)
    requires Carried(q, b) && Carried(b, r)
    ensures Carried(q, r)
  {
    assert r.begun[|q.begun|..] == b.begun[|q.begun|..] + r.begun[|b.begun|..];
  }

  /** The scan moves jobs from waiting into slots and loses none. */
  lemma {:induction false} ScanCarries(q: Queue, kept: seq<JobId>, todo: seq<JobId>, blocked: set<ServerId>)
    requires Scanning(q, kept, todo, blocked)
    ensures Carried(q, Scan(q, todo, blocked))
    decreases |todo|
  {
    if todo == [] {
      assert q.begun[|q.begun|..] == [];
    } else {
      ScanningFits(q, kept, todo, blocked);
      if Fits(q, todo[0], blocked) {
        var b := Begin(q, todo[0], false);
        ScanningStart(q, kept, todo, blocked);
        BeginCarries(q, todo[0]);
        ScanCarries(b, kept, todo[1..], blocked);
        CarriedTwice(q, b, Scan(b, todo[1..], blocked));
      } else {
        ScanningSkip(q, kept, todo, blocked);
        ScanCarries(q, kept + [todo[0]], todo[1..], Block(q, todo[0], blocked));
      }
    }
  }

  /** What a pump leaves unchanged, and whose callbacks it runs. */
  lemma PumpConserves(q: Queue)
    requires Sane(q)
    ensures Held(Pump(q)) == Held(DropDone(q)) && Pump(q).jobs.Keys == q.jobs.Keys
    ensures q.begun <= Pump(q).begun
    ensures forall id :: id in Pump(q).begun[|q.begun|..] <==> HasStatus(q, id, Queued) && HasStatus(Pump(q), id, Running)
    ensures forall id, st | HasStatus(q, id, st) && st != Queued :: HasStatus(Pump(q), id, st)
  {
    PumpCarries(q);
    PumpStable(q);
    DropDoneSane(q);
    QueuedStayWaiting(q);
    hide Pump, DropDone, Settled, Numbered;
    var d, p := DropDone(q), Pump(q);
    forall id ensures id in p.begun[|q.begun|..] <==> HasStatus(q, id, Queued) && HasStatus(p, id, Running) {
      if id in p.begun[|q.begun|..] {
        assert id in Held(d) && id in Held(p) && id in p.slots;
      }
    }
  }

  lemma QueuedStayWaiting(q: Queue)
    requires Sane(q)
    ensures forall id :: id in DropDone(q).waiting <==> HasStatus(q, id, Queued)
    ensures DropDone(q).begun == q.begun && DropDone(q).jobs == q.jobs
  {
  }

  /** A pump is carried from the state with the finished jobs dropped; only positions change besides. */
  lemma PumpCarries(q: Queue)
    requires Sane(q)
    ensures var d, p := DropDone(q), Pump(q);
            && Held(p) == Held(d) && p.jobs.Keys == d.jobs.Keys && d.begun <= p.begun
            && (forall id | id in p.waiting :: id in d.waiting)
            && (forall id :: id in p.begun[|d.begun|..] <==> id in d.waiting && id !in p.waiting)
            && (forall id | id in d.jobs && id !in d.waiting :: id in p.jobs && p.jobs[id].status == d.jobs[id].status)
  {
    hide Scan, DropDone;
    var d := DropDone(q);
    DropDoneSane(q);
    ScanningInit(d);
    ScanCarries(d, [], d.waiting, {});
  }

  /** A run never un-runs a callback, never forgets a job, and a job cancelled while waiting never begins. */
  lemma {:induction false} RunHistory(q: Queue, cs: seq<Command>)
    requires Stable(q)
    ensures q.begun <= Run(q, cs).begun
    ensures q.jobs.Keys <= Run(q, cs).jobs.Keys
    ensures forall id | NeverBegins(q, id) :: NeverBegins(Run(q, cs), id)
    decreases |cs|
  {
    if cs != [] {
      var n := Step(q, cs[0]);
      StepStable(q, cs[0]);
      StepHistory(q, cs[0]);
      RunHistory(n, cs[1..]);
    }
  }

  ghost predicate NeverBegins(q: Queue, id: JobId) {
    HasStatus(q, id, Cancelled) && id !in q.begun
  }

  lemma EditHistory(q: Queue, c: Command)
    requires Stable(q) && !Ignored(q, c)
    ensures q.begun <= Edit(q, c).begun
    ensures q.jobs.Keys <= Edit(q, c).jobs.Keys
    ensures forall id | NeverBegins(q, id) :: NeverBegins(Edit(q, c), id)
  {
    forall id | NeverBegins(q, id) ensures NeverBegins(Edit(q, c), id) {
      assert id !in q.waiting;
    }
  }

  lemma NotAppended(s: seq<JobId>, t: seq<JobId>, x: JobId)
    requires s <= t && x !in s && x !in t[|s|..]
    ensures x !in t
  {
    assert t == s + t[|s|..];
  }

  lemma PumpHistory(q: Queue, id: JobId)
    requires Sane(q) && NeverBegins(q, id)
    ensures NeverBegins(Pump(q), id)
  {
    PumpConserves(q);
    NotAppended(q.begun, Pump(q).begun, id);
  }

  lemma StepHistory(q: Queue, c: Command)
    requires Stable(q)
    ensures q.begun <= Step(q, c).begun
    ensures q.jobs.Keys <= Step(q, c).jobs.Keys
    ensures forall id | NeverBegins(q, id) :: NeverBegins(Step(q, c), id)
  {
    if !Ignored(q, c) {
      var e := Edit(q, c);
      EditSane(q, c);
      EditHistory(q, c);
      PumpConserves(e);
      forall id | NeverBegins(q, id) ensures NeverBegins(Pump(e), id) {
        PumpHistory(e, id);
      }
    }
  }

  /** In a settled queue the first waiting job waits for somebody. */
  lemma SomebodyRuns(q: Queue)
    requires Stable(q) && q.waiting != []
    ensures q.slots != map[]
  {
    assert !Startable(q, 0);
    var sid :| sid in ServersOf(q, q.waiting[0]) && !(Used(q, sid) < q.perServer);
    assert Holders(q.slots, sid) != {};
    var id :| id in Holders(q.slots, sid);
    assert id in q.slots;
  }

  lemma FinishFrees(q: Queue, id: JobId, st: Status)
    requires Stable(q) && HasStatus(q, id, Running) && st != Queued && st != Running
    ensures var d := DropDone(SetStatus(q, id, st));
            d.slots.Keys == q.slots.Keys - {id} && d.waiting == q.waiting
  {
    var e := SetStatus(q, id, st);
    assert id !in q.waiting;
    MinusNothing(e.waiting, NoLongerQueued(e));
  }

  lemma FinishHeld(q: Queue, id: JobId, ok: bool)
    requires Stable(q) && HasStatus(q, id, Running)
    ensures !Ignored(q, Finish(id, ok)) && id in Held(q)
    ensures HasStatus(Edit(q, Finish(id, ok)), id, if ok then Succeeded else Failed)
    ensures Held(DropDone(Edit(q, Finish(id, ok)))) == Held(q) - {id}
  {
    hide DropDone;
    FinishFrees(q, id, if ok then Succeeded else Failed);
    assert id in q.jobs && id in q.slots && id !in WaitingSet(q);
  }

  /** When a running job ends, exactly one job leaves the queue for good. */
  lemma FinishDrains(q: Queue, id: JobId, ok: bool)
    requires Stable(q) && HasStatus(q, id, Running)
    ensures Load(Step(q, Finish(id, ok))) == Load(q) - 1
    ensures Held(Step(q, Finish(id, ok))) == Held(q) - {id}
    ensures HasStatus(Step(q, Finish(id, ok)), id, if ok then Succeeded else Failed)
  {
    hide Pump, DropDone, Edit, Ignored, Held, Load, HasStatus, Sane, Pruned, Numbered, Settled;
    var c := Finish(id, ok);
    FinishHeld(q, id, ok);
    EditSane(q, c);
    var e := Edit(q, c);
    PumpConserves(e);
    PumpStable(e);
    LoadIsHeld(q);
    LoadIsHeld(Pump(e));
  }

  /** A cancelled job leaves the waiting list or its slot; one that was waiting never begins. */
  lemma CancelEnds(q: Queue, id: JobId)
    requires Stable(q) && (HasStatus(q, id, Queued) || HasStatus(q, id, Running))
    ensures var r := Step(q, Cancel(id));
            && HasStatus(r, id, Cancelled) && Held(r) == Held(q) - {id}
            && (HasStatus(q, id, Queued) ==> NeverBegins(r, id))
  {
    hide Pump, Edit, Ignored, Numbered, Settled;
    var e := SetStatus(q, id, Cancelled);
    CancelEdits(q, id);
    EditSane(q, Cancel(id));
    PumpConserves(e);
    CancelFrees(q, id);
    if HasStatus(q, id, Queued) {
      PumpHistory(e, id);
    }
  }

  lemma CancelEdits(q: Queue, id: JobId)
    requires Stable(q) && (HasStatus(q, id, Queued) || HasStatus(q, id, Running))
    ensures !Ignored(q, Cancel(id)) && Edit(q, Cancel(id)) == SetStatus(q, id, Cancelled)
    ensures HasStatus(SetStatus(q, id, Cancelled), id, Cancelled)
    ensures HasStatus(q, id, Queued) ==> NeverBegins(SetStatus(q, id, Cancelled), id)
  {
  }

  lemma CancelFrees(q: Queue, id: JobId)
    requires Stable(q) && id in q.jobs
    ensures Held(DropDone(SetStatus(q, id, Cancelled))) == Held(q) - {id}
  {
    hide Numbered, Settled;
    var d := DropDone(SetStatus(q, id, Cancelled));
    assert WaitingSet(d) == WaitingSet(q) - {id};
    assert d.slots.Keys == q.slots.Keys - {id};
  }

  /** A forced job begins at once, before anything else, marked as forced; no other job leaves the queue for it. */
  lemma ForceStarts(q: Queue, id: JobId)
    requires Stable(q) && id in q.waiting
    ensures var r := Step(q, Force(id));
            && HasStatus(r, id, Running) && r.jobs[id].forced && Held(r) == Held(q)
            && q.begun + [id] <= r.begun
  {
    var e := Begin(q, id, true);
    assert Step(q, Force(id)) == Pump(e) && HasStatus(q, id, Queued) && HasStatus(e, id, Running) && e.jobs[id].forced;
    BeginSane(q, id, true);
    BeginHolds(q, id);
    hide Pump, DropDone, Begin, Step, Sane, Pruned, Numbered, Settled, HasStatus, Held;
    PumpConserves(e);
    PumpKeepsRecord(e, id);
    DropDoneNothing(e);
  }

  lemma BeginHolds(q: Queue, id: JobId)
    requires Sane(q) && id in q.waiting
    ensures Held(Begin(q, id, true)) == Held(q)
  {
    var e := Begin(q, id, true);
    assert WaitingSet(e) == WaitingSet(q) - {id};
    assert e.slots.Keys == q.slots.Keys + {id};
  }

  lemma PumpKeepsRecord(q: Queue, id: JobId)
    requires Sane(q) && HasStatus(q, id, Running)
    ensures id in Pump(q).jobs && Pump(q).jobs[id] == q.jobs[id]
  {
    hide Scan, DropDone, Settled;
    QueuedStayWaiting(q);
    DropDoneSane(q);
    var d := DropDone(q);
    ScanningInit(d);
    ScanCarries(d, [], d.waiting, {});
  }

  /** A new job joins behind every waiting job it shares a server with, and none is lost for it. */
  lemma AddJoins(q: Queue, id: JobId, servers: seq<ServerId>, serverId: ServerId, a: JobId)
    requires Stable(q) && id !in q.jobs && a in q.waiting
    requires exists sid :: sid in ServersOf(q, a) && sid in ServersFor(servers, serverId)
    ensures var r := Step(q, Add(id, servers, serverId)); Held(r) == Held(q) + {id} && NotOvertaken(r, a, id)
  {
    var all := ServersFor(servers, serverId);
    var e := Enqueue(q, id, all);
    assert Step(q, Add(id, servers, serverId)) == Pump(e);
    hide Pump, DropDone, Step, Enqueue, ServersFor, Sane, Pruned, Numbered, Settled, NotOvertaken, Held, HasStatus;
    EnqueueSane(q, id, all);
    EnqueueHeld(q, id, all);
    EnqueueBehind(q, id, all, a);
    PumpConserves(e);
    PumpOrder(e, a, id);
  }

  lemma EnqueueHeld(q: Queue, id: JobId, servers: seq<ServerId>)
    requires Stable(q) && id !in q.jobs
    ensures Held(DropDone(Enqueue(q, id, servers))) == Held(q) + {id}
  {
    hide Numbered, Settled, Minus, NoDup, DropDone;
    var e := Enqueue(q, id, servers);
    EnqueueSane(q, id, servers);
    assert Pruned(e);
    DropDoneNothing(e);
    assert WaitingSet(e) == WaitingSet(q) + {id};
  }

  lemma EnqueueBehind(q: Queue, id: JobId, servers: seq<ServerId>, a: JobId)
    requires Stable(q) && id !in q.jobs && a in q.waiting
    requires exists sid :: sid in ServersOf(q, a) && sid in servers
    ensures NotOvertaken(Enqueue(q, id, servers), a, id) && HasStatus(Enqueue(q, id, servers), a, Queued)
  {
    hide Numbered, Settled, NoDup, Before;
    var e := Enqueue(q, id, servers);
    var sid :| sid in ServersOf(q, a) && sid in servers;
    assert sid in ServersOf(e, a) && sid in ServersOf(e, id);
    BeforeAppend(q.waiting, a, id, id);
  }

  /** `cs` are ends of jobs, each of a job running at that moment. */
  ghost predicate Finishes(q: Queue, cs: seq<Command>)
    decreases |cs|
  {
    cs != [] ==> cs[0].Finish? && HasStatus(q, cs[0].id, Running) && Finishes(Step(q, cs[0]), cs[1..])
  }

  /**
   The queue always drains. Whatever order running jobs end in, each end takes one off the load; as
   long as there is load there is a running job left to end; and once every job has ended nothing
   waits, nothing holds a slot, and every job that was waiting has begun.
   */
  lemma {:induction false} QueueDrains(q: Queue, cs: seq<Command>)
    requires Stable(q) && Finishes(q, cs)
    ensures var r := Run(q, cs);
            && Stable(r) && Load(r) == Load(q) - |cs|
            && (Load(r) > 0 ==> exists id :: HasStatus(r, id, Running))
            && (Load(r) == 0 ==> r.waiting == [] && r.slots == map[] && forall id | id in q.waiting :: id in r.begun)
    decreases |cs|
  {
    if cs == [] {
      if q.waiting != [] {
        SomebodyRuns(q);
      }
      if Load(q) > 0 {
        var id :| id in q.slots;
        assert HasStatus(q, id, Running);
      }
    } else {
      var c := cs[0];
      var n := Step(q, c);
      StepStable(q, c);
      FinishDrains(q, c.id, c.ok);
      QueueDrains(n, cs[1..]);
      RunHistory(n, cs[1..]);
      var r := Run(n, cs[1..]);
      forall id | Load(r) == 0 && id in q.waiting ensures id in r.begun {
        assert id in Held(q) && id != c.id;
        assert id in Held(n);
        if id in n.slots {
          assert id in n.begun;
        }
      }
    }
  }

  // ---------------------------------------------------------------- what each command asks for

  /**
   Where a move puts a job, the rest keeping their order: top is the front and bottom the end, up
   exchanges it with the job before it and down with the job after it, if there is one.
   */
  lemma MoveGoes(q: Queue, before: seq<JobId>, id: JobId, after: seq<JobId>)
    requires Stable(q) && q.waiting == before + [id] + after
    ensures Step(q, Move(id, Top)) == Pump(q.(waiting := [id] + before + after))
    ensures Step(q, Move(id, Bottom)) == Pump(q.(waiting := before + after + [id]))
    ensures before == [] ==> Step(q, Move(id, Up)) == q
    ensures forall front, b | before == front + [b] ::
              Step(q, Move(id, Up)) == Pump(q.(waiting := front + [id, b] + after))
    ensures after == [] ==> Step(q, Move(id, Down)) == q
    ensures forall a, back | after == [a] + back ::
              Step(q, Move(id, Down)) == Pump(q.(waiting := before + [a, id] + back))
  {
    hide Stable, Pump, Step;
    var k, last := |before|, |q.waiting| - 1;
    MovedTo(q, before, id, after, Top, 0);
    MovedTo(q, before, id, after, Bottom, last);
    MovedTo(q, before, id, after, Up, Max(0, k - 1));
    MovedTo(q, before, id, after, Down, Min(last, k + 1));
    var rest := before + after;
    assert rest[..0] + [id] + rest[0..] == [id] + before + after;
    assert rest[..last] + [id] + rest[last..] == before + after + [id];
    if before == [] || after == [] {
      assert rest[..k] + [id] + rest[k..] == q.waiting;
      PumpNothing(q);
    }
    forall front, b | before == front + [b]
      ensures Step(q, Move(id, Up)) == Pump(q.(waiting := front + [id, b] + after))
    {
      assert rest[..k - 1] + [id] + rest[k - 1..] == front + [id, b] + after;
    }
    forall a, back | after == [a] + back
      ensures Step(q, Move(id, Down)) == Pump(q.(waiting := before + [a, id] + back))
    {
      assert rest[..k + 1] + [id] + rest[k + 1..] == before + [a, id] + back;
    }
  }

  /** A move to an index puts the job at that index, a too small one meaning the front and a too large one the end. */
  lemma MoveGoesAt(q: Queue, before: seq<JobId>, id: JobId, after: seq<JobId>, i: int)
    requires Stable(q) && q.waiting == before + [id] + after
    ensures var rest := before + after;
            && (i <= 0 ==> Step(q, Move(id, At(i))) == Pump(q.(waiting := [id] + rest)))
            && (0 <= i <= |rest| ==> Step(q, Move(id, At(i))) == Pump(q.(waiting := rest[..i] + [id] + rest[i..])))
            && (|rest| <= i ==> Step(q, Move(id, At(i))) == Pump(q.(waiting := rest + [id])))
  {
    hide Stable, Pump, Step;
    var rest := before + after;
    var k := if i <= 0 then 0 else if i <= |rest| then i else |rest|;
    MovedTo(q, before, id, after, At(i), k);
    assert rest[..0] + [id] + rest[0..] == [id] + rest;
    assert rest[..|rest|] + [id] + rest[|rest|..] == rest + [id];
  }

  lemma MovedTo(q: Queue, before: seq<JobId>, id: JobId, after: seq<JobId>, to: Target, k: nat)
    requires Stable(q) && q.waiting == before + [id] + after && !to.Nowhere?
    requires k == Clamp(Destination(|before|, |q.waiting| - 1, to).value, 0, |q.waiting| - 1)
    ensures var rest := before + after;
            k <= |rest| && Step(q, Move(id, to)) == Pump(q.(waiting := rest[..k] + [id] + rest[k..]))
  {
    assert q.waiting[|before|] == id && id in q.jobs;
    IndexOfAt(q.waiting, |before|);
    MoveEdits(q, id, to, |before|, k);
    assert q.waiting[..|before|] == before && q.waiting[|before| + 1..] == after;
  }

  /** Which commands are refused, with which status, and that a refused one changes nothing. */
  lemma RefusedIff(q: Queue, c: Command)
    requires Stable(q)
    ensures Refusal(q, c).Some? ==> Step(q, c) == q
    ensures Refusal(q, c) == Some(404) <==> (c.Cancel? || c.Move? || c.Force?) && c.id !in q.jobs
    ensures Refusal(q, c) == Some(409) <==>
            (c.Move? || c.Force?) && c.id in q.jobs && q.jobs[c.id].status != Queued
    ensures Refusal(q, c) == Some(400) <==>
            || (c.SetLimit? && (c.n < 1 || c.n > 8))
            || (c.Move? && c.to == Nowhere && HasStatus(q, c.id, Queued))
    ensures Refusal(q, c) in {None, Some(400), Some(404), Some(409)}
  {
  }

  /** A change of the limit is taken as given, and what it makes room for is started. */
  lemma LimitIsTaken(q: Queue, n: int)
    requires Stable(q) && 1 <= n <= 8
    ensures Step(q, SetLimit(n)).perServer == n && Step(q, SetLimit(n)) == Pump(q.(perServer := n))
  {
    LimitSane(q, n);
    PumpStable(q.(perServer := n));
  }

  /** The record of a new job: the given servers, else its one server, else the main one; not forced. */
  lemma AddIsRecorded(q: Queue, id: JobId, servers: seq<ServerId>, serverId: ServerId)
    requires Stable(q) && id !in q.jobs
    ensures var r := Step(q, Add(id, servers, serverId));
            && r.jobs.Keys == q.jobs.Keys + {id}
            && (HasStatus(r, id, Queued) || HasStatus(r, id, Running)) && !r.jobs[id].forced
            && (servers != [] ==> r.jobs[id].servers == servers)
            && (servers == [] && serverId != "" ==> r.jobs[id].servers == [serverId])
            && (servers == [] && serverId == "" ==> r.jobs[id].servers == ["main"])
  {
    var all := ServersFor(servers, serverId);
    var e := Enqueue(q, id, all);
    EnqueueSane(q, id, all);
    PumpRecords(e);
    assert Step(q, Add(id, servers, serverId)) == Pump(e);
  }

  lemma {:induction false} ScanRecords(q: Queue, kept: seq<JobId>, todo: seq<JobId>, blocked: set<ServerId>)
    requires Scanning(q, kept, todo, blocked)
    ensures Recorded(q, Scan(q, todo, blocked))
    decreases |todo|
  {
    hide Sane, Settled, Scanning, Fits, Block;
    if todo != [] {
      ScanningFits(q, kept, todo, blocked);
      if Fits(q, todo[0], blocked) {
        ScanningStart(q, kept, todo, blocked);
        ScanRecords(Begin(q, todo[0], false), kept, todo[1..], blocked);
      } else {
        ScanningSkip(q, kept, todo, blocked);
        ScanRecords(q, kept + [todo[0]], todo[1..], Block(q, todo[0], blocked));
      }
    }
  }

  /** Jobs keep their servers; one starts only from the queue, and only a forced command makes one forced. */
  ghost predicate Recorded(q: Queue, r: Queue) {
    && r.jobs.Keys == q.jobs.Keys
    && (forall id | id in q.jobs ::
          && r.jobs[id].servers == q.jobs[id].servers
          && (r.jobs[id].forced ==> q.jobs[id].forced)
          && (r.jobs[id].status == q.jobs[id].status || (q.jobs[id].status == Queued && r.jobs[id].status == Running)))
  }

  lemma PumpRecords(q: Queue)
    requires Sane(q)
    ensures Recorded(q, Pump(q))
  {
    hide Sane, Settled, Scan;
    DropDoneSane(q);
    ScanningInit(DropDone(q));
    ScanRecords(DropDone(q), [], DropDone(q).waiting, {});
  }
}

/**
 The heavy-job queue as a value: what each command of the queue routes does to the waiting list,
 the slots and the job records. The class in JobQueue.dfy changes these things in place and is
 proved against the functions here.
 */
module JobQueueState {
  import opened Basics

  type JobId = string
  type ServerId = string

  datatype Status = Queued | Running | Succeeded | Failed | Cancelled

  datatype JobInfo = JobInfo(servers: seq<ServerId>, status: Status, position: Option<nat>, forced: bool)

  datatype Slot = Slot(servers: seq<ServerId>, forced: bool)

  /**
   `begin` holds the jobs whose begin callback is still registered; `begun` lists the callbacks
   that ran, in order.
   */
  datatype Queue = Queue(perServer: int, waiting: seq<JobId>, slots: map<JobId, Slot>, begin: set<JobId>,
                         jobs: map<JobId, JobInfo>, begun: seq<JobId>)

  const MAX_PER_SERVER: int := 8

  function InitQueue(): Queue {
    Queue(1, [], map[], {}, map[], [])
  }

  // ---------------------------------------------------------------- the pump

  function Holders(slots: map<JobId, Slot>, sid: ServerId): set<JobId> {
    set id | id in slots && sid in slots[id].servers
  }

  function Used(q: Queue, sid: ServerId): nat {
    |Holders(q.slots, sid)|
  }

  function ServersOf(q: Queue, id: JobId): seq<ServerId> {
    if id in q.jobs then q.jobs[id].servers else []
  }

  /** The pump's test for starting a waiting job. */
  predicate Fits(q: Queue, id: JobId, blocked: set<ServerId>) {
    forall sid | sid in ServersOf(q, id) :: sid !in blocked && Used(q, sid) < q.perServer
  }

  /** Start a job: out of the waiting list, into a slot; its begin callback (if still there) makes it run. */
  function Begin(q: Queue, id: JobId, forced: bool): Queue
    requires id in q.jobs
  {
    var called := id in q.begin;
    var job := q.jobs[id].(position := None, forced := forced, status := if called then Running else q.jobs[id].status);
    q.(waiting := Minus(q.waiting, {id}),
       slots := q.slots[id := Slot(q.jobs[id].servers, forced)],
       begin := q.begin - {id},
       jobs := q.jobs[id := job],
       begun := if called then q.begun + [id] else q.begun)
  }

  predicate HasStatus(q: Queue, id: JobId, st: Status) {
    id in q.jobs && q.jobs[id].status == st
  }

  function NoLongerQueued(q: Queue): set<JobId> {
    set id | id in q.waiting && !HasStatus(q, id, Queued)
  }

  /** The first two statements of the pump: slots of finished jobs and jobs no longer queued go. */
  function DropDone(q: Queue): Queue {
    q.(slots := map id | id in q.slots && (HasStatus(q, id, Queued) || HasStatus(q, id, Running)) :: q.slots[id],
       waiting := Minus(q.waiting, NoLongerQueued(q)))
  }

  function Block(q: Queue, id: JobId, blocked: set<ServerId>): set<ServerId> {
    blocked + set sid | sid in ServersOf(q, id)
  }

  /** One pass over the snapshot `todo` with the servers of the jobs passed over in `blocked`. */
  function Scan(q: Queue, todo: seq<JobId>, blocked: set<ServerId>): Queue
    decreases |todo|
  {
    if todo == [] then q
    else if todo[0] in q.jobs && Fits(q, todo[0], blocked) then Scan(Begin(q, todo[0], false), todo[1..], blocked)
    else Scan(q, todo[1..], Block(q, todo[0], blocked))
  }

  function IndexOf(ids: seq<JobId>, id: JobId): (i: nat)
    requires id in ids
    ensures i < |ids| && ids[i] == id && id !in ids[..i]
  {
    if ids[0] == id then 0 else 1 + IndexOf(ids[1..], id)
  }

  /** Waiting jobs get positions 1, 2, 3… */
  function Number(q: Queue): Queue {
    q.(jobs := map id | id in q.jobs ::
         if id in q.waiting then q.jobs[id].(position := Some(IndexOf(q.waiting, id) + 1)) else q.jobs[id])
  }

  function Pump(q: Queue): Queue {
    var d := DropDone(q);
    Number(Scan(d, d.waiting, {}))
  }

  // ---------------------------------------------------------------- the commands

  datatype Target = Top | Bottom | Up | Down | At(index: int) | Nowhere

  datatype Command =
    | Add(id: JobId, servers: seq<ServerId>, serverId: ServerId)
    | Finish(id: JobId, ok: bool)
    | Cancel(id: JobId)
    | SetLimit(n: int)
    | Move(id: JobId, to: Target)
    | Force(id: JobId)

  function SetStatus(q: Queue, id: JobId, st: Status): Queue
    requires id in q.jobs
  {
    q.(jobs := q.jobs[id := q.jobs[id].(status := st)])
  }

  /** `servers`, else the one server of the job, else "main". */
  function ServersFor(servers: seq<ServerId>, serverId: ServerId): seq<ServerId> {
    if servers != [] then servers else if serverId != "" then [serverId] else ["main"]
  }

  function Enqueue(q: Queue, id: JobId, servers: seq<ServerId>): Queue {
    q.(jobs := q.jobs[id := JobInfo(servers, Queued, None, false)], begin := q.begin + {id}, waiting := q.waiting + [id])
  }

  function Destination(from: nat, last: int, to: Target): Option<int> {
    match to
    case Top => Some(0)
    case Bottom => Some(last)
    case Up => Some(from - 1)
    case Down => Some(from + 1)
    case At(i) => Some(i)
    case Nowhere => None
  }

  /** The two splices of the move route. */
  function Splice(ids: seq<JobId>, from: nat, to: nat): (r: seq<JobId>)
    requires from < |ids| && to < |ids|
  {
    var rest := ids[..from] + ids[from + 1..];
    rest[..to] + [ids[from]] + rest[to..]
  }

  /** The HTTP status a command is refused with, if it is refused. */
  function Refusal(q: Queue, c: Command): Option<int> {
    match c
    case Add(_, _, _) => None
    case Finish(_, _) => None
    case Cancel(id) => if id in q.jobs then None else Some(404)
    case SetLimit(n) => if 1 <= n <= MAX_PER_SERVER then None else Some(400)
    case Move(id, to) =>
      if id !in q.jobs then Some(404) else if id !in q.waiting then Some(409) else if to.Nowhere? then Some(400) else None
    case Force(id) => if id !in q.jobs then Some(404) else if id !in q.waiting then Some(409) else None
  }

  /** The edit a command makes before it pumps. */
  function Edit(q: Queue, c: Command): Queue
    requires Refusal(q, c).None?
  {
    match c
    case Add(id, servers, serverId) => Enqueue(q, id, ServersFor(servers, serverId))
    case Finish(id, ok) => if id in q.jobs then SetStatus(q, id, if ok then Succeeded else Failed) else q
    case Cancel(id) => SetStatus(q, id, Cancelled)
    case SetLimit(n) => q.(perServer := n)
    case Move(id, to) =>
      var from := IndexOf(q.waiting, id);
      var last := |q.waiting| - 1;
      q.(waiting := Splice(q.waiting, from, Clamp(Destination(from, last, to).value, 0, last)))
    case Force(id) => Begin(q, id, true)
  }

  /**
   Commands that never reach the pump: a refused one, a new job under an id that exists, the end of
   a job that is not running (its timer is gone), the cancellation of a job that is already over.
   */
  predicate Ignored(q: Queue, c: Command) {
    || Refusal(q, c).Some?
    || (c.Add? && c.id in q.jobs)
    || (c.Finish? && !HasStatus(q, c.id, Running))
    || (c.Cancel? && !HasStatus(q, c.id, Running) && !HasStatus(q, c.id, Queued))
  }

  function Step(q: Queue, c: Command): Queue {
    if Ignored(q, c) then q else Pump(Edit(q, c))
  }

  function Run(q: Queue, cs: seq<Command>): Queue
    decreases |cs|
  {
    if cs == [] then q else Run(Step(q, cs[0]), cs[1..])
  }

  /** The highest limit in force at any moment of the run. */
  function Peak(q: Queue, cs: seq<Command>): int
    decreases |cs|
  {
    if cs == [] then q.perServer
    else
      var later := Peak(Step(q, cs[0]), cs[1..]);
      if q.perServer > later then q.perServer else later
  }

  // ---------------------------------------------------------------- the independent reading of the pump

  /**
   A waiting job may start when each of its servers has a free slot and no earlier waiting job
   names one of them.
   */
  predicate Startable(q: Queue, i: nat)
    requires i < |q.waiting|
  {
    forall sid | sid in ServersOf(q, q.waiting[i]) ::
      Used(q, sid) < q.perServer && forall k | 0 <= k < i :: sid !in ServersOf(q, q.waiting[k])
  }

  ghost predicate Settled(q: Queue) {
    forall i | 0 <= i < |q.waiting| :: !Startable(q, i)
  }

  /** The first startable job from index `k` on, or the length of the waiting list. */
  function FirstStartable(q: Queue, k: nat): (i: nat)
    requires k <= |q.waiting|
    ensures k <= i <= |q.waiting|
    ensures i < |q.waiting| ==> Startable(q, i)
    ensures forall h | k <= h < i :: !Startable(q, h)
    decreases |q.waiting| - k
  {
    if k == |q.waiting| || Startable(q, k) then k else FirstStartable(q, k + 1)
  }

  /** Start the first startable job, over and over, until there is none. */
  function Greedy(q: Queue): Queue
    decreases |q.waiting|
  {
    var i := FirstStartable(q, 0);
    if i == |q.waiting| || q.waiting[i] !in q.jobs then q
    else
      MinusShrinks(q.waiting, i);
      Greedy(Begin(q, q.waiting[i], false))
  }

  lemma {:induction false} MinusShrinks(s: seq<JobId>, i: nat)
    requires i < |s|
    ensures |Minus(s, {s[i]})| < |s|
  {
    if i > 0 {
      MinusShrinks(s[1..], i - 1);
    }
  }

  // ---------------------------------------------------------------- invariants

  /** What holds even between a command's edit and the pump that follows it. */
  ghost predicate Sane(q: Queue) {
    && 1 <= q.perServer <= MAX_PER_SERVER
    && NoDup(q.waiting)
    && NoDup(q.begun)
    && (forall id | id in q.waiting :: id in q.jobs && id in q.begin && id !in q.slots
                                       && (q.jobs[id].status == Queued || q.jobs[id].status == Cancelled))
    && (forall id | id in q.slots :: id in q.jobs && id in q.begun && q.jobs[id].status != Queued
                                     && q.slots[id] == Slot(q.jobs[id].servers, q.jobs[id].forced))
    && (forall id | id in q.jobs :: (q.jobs[id].status == Queued ==> id in q.waiting)
                                    && (q.jobs[id].status == Running ==> id in q.slots)
                                    && (q.jobs[id].status == Succeeded || q.jobs[id].status == Failed ==> id in q.begun)
                                    && (id in q.begin <==> id !in q.begun)
                                    && (id in q.begun ==> q.jobs[id].position == None))
    && (forall id | id in q.begun :: id in q.jobs)
    && (forall id | id in q.begin :: id in q.jobs)
  }

  /** Every waiting job is queued and every slot belongs to a running job. */
  ghost predicate Pruned(q: Queue) {
    && (forall id | id in q.waiting :: HasStatus(q, id, Queued))
    && (forall id | id in q.slots :: HasStatus(q, id, Running))
  }

  ghost predicate Numbered(q: Queue) {
    forall i | 0 <= i < |q.waiting| :: q.waiting[i] in q.jobs && q.jobs[q.waiting[i]].position == Some(i + 1)
  }

  /** What holds whenever no command is being carried out. */
  ghost predicate Stable(q: Queue) {
    Sane(q) && Pruned(q) && Numbered(q) && Settled(q)
  }
}

/**
 Uploading a file in pieces: the client (panel/public/assets/api.js, uploadChunked), the server that appends
 them to one temporary file (panel/lib/mysql.mjs, appendToFile and the import route), and the network between
 them. The server takes a request in several steps (the size is compared, the file opened, bytes are
 written as they arrive, the request ends or breaks) and nothing keeps two requests from being under
 way at once: a piece whose connection hangs goes on although the client has given it up.
 */
module UploadProtocol {
  import opened Basics

  /** The appending contract alone, or the import route built on it. */
  datatype Kind = AppendContract | ImportRoute

  datatype Upload = Upload(kind: Kind, file: seq<Byte>, chunk: nat)

  ghost predicate Fits(u: Upload) {
    u.chunk > 0
  }

  // ---------------------------------------------------------------- the client

  datatype Answer = Accepted(size: Option<nat>) | Refused(status: int, size: Option<nat>)

  datatype Client = Sending(offset: nat, retries: nat, resyncs: nat) | Returned | Thrown(status: int)

  const MAX_RETRIES: nat := 4
  const MAX_RESYNCS: nat := 5

  /** Where the piece starting at `offset` ends. */
  function End(u: Upload, offset: nat): nat {
    if |u.file| < offset + u.chunk then |u.file| else offset + u.chunk
  }

  function Length(u: Upload, offset: nat): nat {
    if offset <= End(u, offset) then End(u, offset) - offset else 0
  }

  /** Statuses that mean the connection or a proxy gave up, so the piece is worth sending again. */
  predicate Transient(status: int) {
    status == 0 || status == 502 || status == 504 || status == 520 || status == 524
  }

  /** What the client makes of the answer to the piece it sent. */
  function React(u: Upload, c: Client, a: Answer): Client
    requires c.Sending?
  {
    match a
    case Accepted(size) =>
      if End(u, c.offset) >= |u.file| then Returned
      else if size.Some? then Sending(size.value, 0, 0)
      else Sending(End(u, c.offset), 0, 0)
    case Refused(status, size) =>
      if status == 409 && size.Some? && c.resyncs + 1 <= MAX_RESYNCS then Sending(size.value, c.retries, c.resyncs + 1)
      else if Transient(status) && c.retries + 1 <= MAX_RETRIES then Sending(c.offset, c.retries + 1, c.resyncs)
      else Thrown(status)
  }

  // ---------------------------------------------------------------- the server

  /** A stored byte: one of the uploaded file, or one that only lengthening the file put there. */
  datatype Cell = Of(index: nat) | Zero

  /** The cells of the uploaded file from `a` to `b`. */
  function Cells(a: nat, b: nat): (r: seq<Cell>)
    requires a <= b
    ensures |r| == b - a && forall i | 0 <= i < |r| :: r[i] == Of(a + i)
  {
    seq(b - a, i requires 0 <= i => Of(a + i))
  }

  function CellContent(u: Upload, c: Cell): Byte {
    if c.Of? && c.index < |u.file| then u.file[c.index] else 0
  }

  predicate InFile(u: Upload, cells: seq<Cell>) {
    forall c | c in cells :: c.Of? ==> c.index < |u.file|
  }

  /** The bytes that cells stand for. */
  function Content(u: Upload, cells: seq<Cell>): (r: seq<Byte>)
    requires InFile(u, cells)
    ensures |r| == |cells|
  {
    seq(|cells|, i requires 0 <= i < |cells| => CellContent(u, cells[i]))
  }

  /**
   A request that passed the size comparison. `handle` names the file it has opened (files are counted,
   since a removed one lives on for the requests that have it open); `written` is how much has arrived.
   */
  datatype Flight = Flight(offset: nat, handle: Option<nat>, written: nat, open: bool)

  /**
   The temporary file (None: there is none; it is number `gen`), every file handed on as complete, the
   requests in the order they came, the offsets ever sent, and the client's own request.
   */
  datatype Net = Net(disk: Option<seq<Cell>>, gen: nat, completed: seq<seq<Cell>>, flights: seq<Flight>,
                     sent: set<nat>, own: Option<nat>)

  function Size(n: Net): nat {
    if n.disk.Some? then |n.disk.value| else 0
  }

  /** The import route takes no empty upload and no piece at or past the end. */
  predicate OffsetTaken(u: Upload, offset: nat) {
    u.kind.ImportRoute? ==> |u.file| > 0 && offset < |u.file|
  }

  /** The import route removes the temporary file for offset 0. */
  predicate StartsAfresh(u: Upload, offset: nat) {
    u.kind.ImportRoute? && offset == 0 && OffsetTaken(u, offset)
  }

  function Removed(n: Net): Net {
    n.(disk := None, gen := n.gen + 1)
  }

  /** A request arrives: refused, or under way from now on. */
  function Arrived(u: Upload, n: Net, offset: nat): (Net, Option<Answer>) {
    if !OffsetTaken(u, offset) then (n, Some(Refused(400, None)))
    else
      var t := if StartsAfresh(u, offset) then Removed(n) else n;
      if Size(t) != offset then (t, Some(Refused(409, Some(Size(t)))))
      else if offset > |u.file| then (t, Some(Refused(400, None)))
      else (t.(flights := t.flights + [Flight(offset, None, 0, true)]), None)
  }

  /** The file is opened for appending, which makes it if need be. */
  function Opened(n: Net, i: nat): Net
    requires i < |n.flights|
  {
    n.(disk := if n.disk.Some? then n.disk else Some([]),
       flights := n.flights[i := n.flights[i].(handle := Some(n.gen))])
  }

  predicate Attached(n: Net, f: Flight) {
    f.handle == Some(n.gen) && n.disk.Some?
  }

  /** Some bytes arrive and go to the end of the file that the request has open. */
  function Written(n: Net, i: nat, count: nat): Net
    requires i < |n.flights|
  {
    var f := n.flights[i];
    var from := f.offset + f.written;
    n.(disk := if Attached(n, f) then Some(n.disk.value + Cells(from, from + count)) else n.disk,
       flights := n.flights[i := f.(written := f.written + count)])
  }

  function Closed(n: Net, i: nat): Net
    requires i < |n.flights|
  {
    n.(flights := n.flights[i := n.flights[i].(open := false)])
  }

  /** All bytes of the piece have arrived: the answer, and after the last piece the file is handed on. */
  function Finished(u: Upload, n: Net, i: nat): (Net, Answer)
    requires i < |n.flights|
  {
    var size := n.flights[i].offset + Length(u, n.flights[i].offset);
    var t := Closed(n, i);
    if size < |u.file| then (t, Accepted(Some(size)))
    else if t.disk.None? then (t, Refused(500, None))
    else (t.(completed := t.completed + [t.disk.value]), Accepted(None))
  }

  function Zeros(n: nat): (r: seq<Cell>)
    ensures |r| == n && forall i | 0 <= i < n :: r[i] == Zero
  {
    seq(n, _ => Zero)
  }

  /** Setting the length of a file cuts it or fills it up with zeros. */
  function Truncated(cells: seq<Cell>, length: nat): seq<Cell> {
    if length <= |cells| then cells[..length] else cells + Zeros(length - |cells|)
  }

  /** A request breaks off: whatever file is there now is set to the length the request began at. */
  function Broken(n: Net, i: nat): Net
    requires i < |n.flights|
  {
    var t := Closed(n, i);
    if t.disk.Some? then t.(disk := Some(Truncated(t.disk.value, n.flights[i].offset))) else t
  }

  // ---------------------------------------------------------------- the world

  /**
   A request arrives (the client's own, or a copy of one sent before, at any time), its file is opened,
   bytes arrive, it ends, it breaks off; the client gives its request up with a status; the import job that
   took the file over removes it.
   */
  datatype Action =
    | Arrive(offset: nat, own: bool)
    | Open(i: nat)
    | Write(i: nat, count: nat)
    | Finish(i: nat)
    | Break(i: nat, status: int)
    | GiveUp(status: int)
    | Consumed

  datatype World = World(net: Net, client: Client)

  function Start(): World {
    World(Net(None, 0, [], [], {}, None), Sending(0, 0, 0))
  }

  predicate IsOpen(n: Net, i: nat) {
    i < |n.flights| && n.flights[i].open
  }

  predicate Possible(u: Upload, w: World, a: Action) {
    var n := w.net;
    match a
    case Arrive(offset, own) =>
      if own then w.client.Sending? && n.own.None? && offset == w.client.offset else offset in n.sent
    case Open(i) => IsOpen(n, i) && n.flights[i].handle.None?
    case Write(i, count) =>
      IsOpen(n, i) && n.flights[i].handle.Some? && 0 < count <= Length(u, n.flights[i].offset) - n.flights[i].written
    case Finish(i) =>
      IsOpen(n, i) && n.flights[i].handle.Some? && n.flights[i].written == Length(u, n.flights[i].offset)
    case Break(i, _) => IsOpen(n, i)
    case GiveUp(_) => w.client.Sending?
    case Consumed => u.kind.ImportRoute? && n.completed != []
  }

  /** An answer reaches the client only if the client still waits for that request. */
  function Answered(n: Net, i: nat, a: Answer): (Net, Option<Answer>) {
    if n.own == Some(i) then (n.(own := None), Some(a)) else (n, None)
  }

  /** What an action does to the server and the network, and the answer the client gets, if any. */
  function NetStep(u: Upload, w: World, a: Action): (Net, Option<Answer>)
    requires Possible(u, w, a)
  {
    var n := w.net;
    match a
    case Arrive(offset, own) =>
      var (t, refusal) := Arrived(u, n, offset);
      if !own then (t, None)
      else (t.(sent := t.sent + {offset}, own := if refusal.None? then Some(|n.flights|) else None), refusal)
    case Open(i) => (Opened(n, i), None)
    case Write(i, count) => (Written(n, i, count), None)
    case Finish(i) => Answered(Finished(u, n, i).0, i, Finished(u, n, i).1)
    case Break(i, status) => Answered(Broken(n, i), i, Refused(status, None))
    case GiveUp(status) => (n.(own := None, sent := n.sent + {w.client.offset}), Some(Refused(status, None)))
    case Consumed => (Removed(n), None)
  }

  function Step(u: Upload, w: World, a: Action): World {
    if !Possible(u, w, a) then w
    else
      var (n, answer) := NetStep(u, w, a);
      World(n, if answer.Some? && w.client.Sending? then React(u, w.client, answer.value) else w.client)
  }

  function Run(u: Upload, w: World, acts: seq<Action>): World {
    if acts == [] then w else Step(u, Run(u, w, acts[..|acts| - 1]), acts[|acts| - 1])
  }

  /** Runs compose. */
  lemma {:induction false} RunTwice(u: Upload, w: World, acts: seq<Action>, more: seq<Action>)
    ensures Run(u, w, acts + more) == Run(u, Run(u, w, acts), more)
  {
    hide Step;
    if more == [] {
      assert acts + more == acts;
    } else {
      assert (acts + more)[..|acts + more| - 1] == acts + more[..|more| - 1];
      RunTwice(u, w, acts, more[..|more| - 1]);
    }
  }

  // ---------------------------------------------------------------- what every run keeps

  ghost predicate FlightFormed(u: Upload, n: Net, f: Flight) {
    && f.offset <= |u.file| && f.written <= Length(u, f.offset)
    && (f.handle.None? ==> f.written == 0)
    && (f.handle.Some? ==> f.handle.value <= n.gen && (f.handle.value == n.gen ==> n.disk.Some?))
  }

  ghost predicate FlightsFormed(u: Upload, n: Net) {
    forall i | 0 <= i < |n.flights| :: FlightFormed(u, n, n.flights[i])
  }

  /** The client's own request is one that is under way, for the piece it waits for. */
  ghost predicate OwnFormed(w: World) {
    w.net.own.Some? ==>
      w.client.Sending? && IsOpen(w.net, w.net.own.value) && w.net.flights[w.net.own.value].offset == w.client.offset
  }

  ghost predicate ClientFormed(w: World) {
    && (w.client.Sending? ==> w.client.retries <= MAX_RETRIES && w.client.resyncs <= MAX_RESYNCS)
    && (w.client.Returned? ==> w.net.completed != [])
  }

  ghost predicate Formed(u: Upload, w: World) {
    FlightsFormed(u, w.net) && OwnFormed(w) && ClientFormed(w)
  }

  lemma ArriveFormed(u: Upload, n: Net, offset: nat)
    requires FlightsFormed(u, n)
    ensures var t := Arrived(u, n, offset).0;
            && FlightsFormed(u, t) && n.flights <= t.flights && t.completed == n.completed && t.own == n.own
            && (Arrived(u, n, offset).1.None? ==> IsOpen(t, |n.flights|) && t.flights[|n.flights|].offset == offset)
  {
  }

  /** Apart from request `i`, and apart from how far it is, the requests stay as they are. */
  ghost predicate OnlyFlight(n: Net, t: Net, i: nat) {
    && |t.flights| == |n.flights| && i < |n.flights| && n.completed <= t.completed && t.own == n.own
    && t.flights[i].offset == n.flights[i].offset
    && forall k | 0 <= k < |n.flights| && k != i :: t.flights[k] == n.flights[k]
  }

  lemma FlightFormedStep(u: Upload, n: Net, i: nat)
    requires FlightsFormed(u, n) && IsOpen(n, i)
    ensures n.flights[i].handle.None? ==>
              var t := Opened(n, i); FlightsFormed(u, t) && OnlyFlight(n, t, i) && t.flights[i].open
    ensures forall count | n.flights[i].handle.Some? && 0 < count <= Length(u, n.flights[i].offset) - n.flights[i].written ::
              var t := Written(n, i, count); FlightsFormed(u, t) && OnlyFlight(n, t, i) && t.flights[i].open
    ensures FlightsFormed(u, Finished(u, n, i).0) && OnlyFlight(n, Finished(u, n, i).0, i)
    ensures FlightsFormed(u, Broken(n, i)) && OnlyFlight(n, Broken(n, i), i)
  {
    hide Length, Truncated;
  }

  lemma StepFlightsFormed(u: Upload, w: World, a: Action)
    requires FlightsFormed(u, w.net) && Possible(u, w, a)
    ensures FlightsFormed(u, NetStep(u, w, a).0)
  {
    hide Opened, Written, Finished, Broken, Arrived, FlightFormed;
    var n := w.net;
    match a
    case Arrive(offset, _) => ArriveFormed(u, n, offset); SameFlights(u, Arrived(u, n, offset).0, NetStep(u, w, a).0);
    case Open(i) => FlightFormedStep(u, n, i);
    case Write(i, count) => FlightFormedStep(u, n, i);
    case Finish(i) => FlightFormedStep(u, n, i); SameFlights(u, Finished(u, n, i).0, NetStep(u, w, a).0);
    case Break(i, _) => FlightFormedStep(u, n, i); SameFlights(u, Broken(n, i), NetStep(u, w, a).0);
    case GiveUp(_) => SameFlights(u, n, NetStep(u, w, a).0);
    case Consumed => RemovedFormed(u, n);
  }

  lemma SameFlights(u: Upload, n: Net, t: Net)
    requires FlightsFormed(u, n) && t.flights == n.flights && t.gen == n.gen && t.disk == n.disk
    ensures FlightsFormed(u, t)
  {
  }

  lemma RemovedFormed(u: Upload, n: Net)
    requires FlightsFormed(u, n)
    ensures FlightsFormed(u, Removed(n))
  {
  }

  lemma StepOwnFormed(u: Upload, w: World, a: Action)
    requires FlightsFormed(u, w.net) && OwnFormed(w) && Possible(u, w, a)
    ensures OwnFormed(Step(u, w, a))
    ensures NetStep(u, w, a).1.Some? ==> w.client.Sending? && NetStep(u, w, a).0.own.None?
  {
    hide Opened, Written, Finished, Broken, Arrived, FlightsFormed, React;
    match a
    case Arrive(offset, _) => ArriveFormed(u, w.net, offset);
    case Open(i) => FlightFormedStep(u, w.net, i);
    case Write(i, _) => FlightFormedStep(u, w.net, i);
    case Finish(i) => FlightFormedStep(u, w.net, i);
    case Break(i, _) => FlightFormedStep(u, w.net, i);
    case GiveUp(_) =>
    case Consumed =>
  }

  /** The client only returns on an answer that came after the file was handed on. */
  lemma StepClientFormed(u: Upload, w: World, a: Action)
    requires FlightsFormed(u, w.net) && OwnFormed(w) && ClientFormed(w) && Possible(u, w, a)
    ensures ClientFormed(Step(u, w, a))
  {
    hide Opened, Written, Broken, Arrived, FlightsFormed;
    match a
    case Arrive(offset, _) => ArriveFormed(u, w.net, offset); ArrivalRefused(u, w.net, offset);
    case Open(i) => FlightFormedStep(u, w.net, i);
    case Write(i, _) => FlightFormedStep(u, w.net, i);
    case Finish(i) =>
    case Break(i, _) => FlightFormedStep(u, w.net, i);
    case GiveUp(_) =>
    case Consumed =>
  }

  lemma ArrivalRefused(u: Upload, n: Net, offset: nat)
    ensures var answer := Arrived(u, n, offset).1; answer.Some? ==> answer.value.Refused?
  {
  }

  lemma StepFormed(u: Upload, w: World, a: Action)
    requires Formed(u, w)
    ensures Formed(u, Step(u, w, a))
  {
    hide FlightsFormed, OwnFormed, ClientFormed, NetStep, React;
    if Possible(u, w, a) {
      StepFlightsFormed(u, w, a);
      StepOwnFormed(u, w, a);
      StepClientFormed(u, w, a);
    }
  }

  lemma {:induction false} RunFormed(u: Upload, acts: seq<Action>)
    ensures Formed(u, Run(u, Start(), acts))
  {
    hide Step;
    if acts != [] {
      hide Formed;
      RunFormed(u, acts[..|acts| - 1]);
      StepFormed(u, Run(u, Start(), acts[..|acts| - 1]), acts[|acts| - 1]);
    }
  }

  // ---------------------------------------------------------------- where requests and removals come from

  /** Every request on the server is for a place that the client has sent a piece from. */
  ghost predicate AllSent(n: Net) {
    forall i | 0 <= i < |n.flights| :: n.flights[i].offset in n.sent
  }

  lemma StepSent(u: Upload, w: World, a: Action)
    requires AllSent(w.net)
    ensures AllSent(Step(u, w, a).net)
    ensures w.net.sent <= Step(u, w, a).net.sent
    ensures forall x | x in Step(u, w, a).net.sent && x !in w.net.sent :: w.client.Sending? && x == w.client.offset
  {
    hide React, Truncated, Length;
  }

  /** Over every run the server only ever gets requests that the client has sent, or copies of them. */
  lemma {:induction false} RunSent(u: Upload, acts: seq<Action>)
    ensures AllSent(Run(u, Start(), acts).net)
  {
    hide Step, AllSent;
    if acts != [] {
      var w := Run(u, Start(), acts[..|acts| - 1]);
      RunSent(u, acts[..|acts| - 1]);
      StepSent(u, w, acts[|acts| - 1]);
    } else {
      assert AllSent(Start().net) by { NoneSent(Start().net); }
    }
  }

  lemma NoneSent(n: Net)
    requires n.flights == []
    ensures AllSent(n)
  {
  }

  /** A temporary file only goes when the first piece of an import comes again, or after a file was handed on. */
  lemma FileGoes(u: Upload, w: World, a: Action)
    requires w.net.disk.Some? && Step(u, w, a).net.disk.None?
    ensures u.kind.ImportRoute? && (w.net.completed != [] || (a.Arrive? && a.offset == 0))
  {
    hide React, Length, Truncated, Cells;
  }
}

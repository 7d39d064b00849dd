/**
 The chunked upload's run: it always ends, how many pieces it takes, what a lost last answer does, and the
 client's loop over any network.
 */
module ChunkedUpload {
  import opened Basics
  import opened UploadProtocol
  import opened UploadSafety

  // ---------------------------------------------------------------- termination

  /**
   The step throws away bytes that no broken request has to give back: the file is removed, a breaking
   request cuts off more than its own bytes, or bytes are written past the size of the uploaded file.
   */
  predicate Undoes(u: Upload, w: World, a: Action) {
    && Possible(u, w, a)
    && w.net.disk.Some?
    && match a
       case Arrive(offset, _) => StartsAfresh(u, offset)
       case Consumed => true
       case Break(i, _) => Size(w.net) > w.net.flights[i].offset + Stored(w.net, w.net.flights[i])
       case Write(i, count) => Attached(w.net, w.net.flights[i]) && Size(w.net) + count > |u.file|
       case _ => false
  }

  /** How many bytes a request has put into the present file. */
  function Stored(n: Net, f: Flight): nat {
    if Attached(n, f) then f.written else 0
  }

  function UndoCount(u: Upload, w: World, acts: seq<Action>): nat {
    if acts == [] then 0
    else
      var before := acts[..|acts| - 1];
      UndoCount(u, w, before) + if Undoes(u, Run(u, w, before), acts[|acts| - 1]) then 1 else 0
  }

  /** The step is the outcome of one of the client's requests: an answer, or the client giving it up. */
  predicate Ends(u: Upload, w: World, a: Action) {
    Possible(u, w, a) && NetStep(u, w, a).1.Some?
  }

  /** How many requests of the client have had an outcome. */
  function SendCount(u: Upload, w: World, acts: seq<Action>): nat {
    if acts == [] then 0
    else
      var before := acts[..|acts| - 1];
      SendCount(u, w, before) + if Ends(u, Run(u, w, before), acts[|acts| - 1]) then 1 else 0
  }

  lemma {:induction false} CountsTwice(u: Upload, w: World, acts: seq<Action>, more: seq<Action>)
    ensures UndoCount(u, w, acts + more) == UndoCount(u, w, acts) + UndoCount(u, Run(u, w, acts), more)
    ensures SendCount(u, w, acts + more) == SendCount(u, w, acts) + SendCount(u, Run(u, w, acts), more)
  {
    hide Step, Undoes, Ends, Run;
    if more == [] {
      assert acts + more == acts;
      RunNothing(u, w);
    } else {
      var before := more[..|more| - 1];
      assert (acts + more)[..|acts + more| - 1] == acts + before;
      CountsTwice(u, w, acts, before);
      RunTwice(u, w, acts, before);
    }
  }

  lemma RunNothing(u: Upload, w: World)
    ensures Run(u, w, []) == w && UndoCount(u, w, []) == 0 && SendCount(u, w, []) == 0
  {
  }

  // ---------------------------------------------------------------- what the client still may do

  function Lacking(u: Upload, n: Net): nat {
    if Size(n) <= |u.file| then |u.file| - Size(n) else 0
  }

  /**
   Bytes a request has stored but not yet finished; for the client's own request whose file was removed, its
   whole piece, since it may still be accepted.
   */
  function Pending(u: Upload, n: Net, i: nat): nat
    requires i < |n.flights|
  {
    var f := n.flights[i];
    if !f.open then 0
    else if Attached(n, f) then f.written
    else if f.handle.Some? && n.own == Some(i) then Length(u, f.offset)
    else 0
  }

  function Pendings(u: Upload, n: Net): (r: seq<nat>)
    ensures |r| == |n.flights| && forall i | 0 <= i < |r| :: r[i] == Pending(u, n, i)
  {
    seq(|n.flights|, i requires 0 <= i < |n.flights| => Pending(u, n, i))
  }

  function Sum(s: seq<nat>): nat {
    if s == [] then 0 else Sum(s[..|s| - 1]) + s[|s| - 1]
  }

  /** One entry may grow by at most d, the others not at all. */
  lemma {:induction false} SumStep(s: seq<nat>, t: seq<nat>, i: nat, d: int)
    requires |s| == |t| && i < |s| && t[i] <= s[i] + d
    requires forall k | 0 <= k < |s| && k != i :: t[k] <= s[k]
    ensures Sum(t) <= Sum(s) + d
  {
    var m := |s| - 1;
    if i == m {
      SumLess(s[..m], t[..m]);
    } else {
      SumStep(s[..m], t[..m], i, d);
    }
  }

  lemma {:induction false} SumLess(s: seq<nat>, t: seq<nat>)
    requires |s| == |t| && forall k | 0 <= k < |s| :: t[k] <= s[k]
    ensures Sum(t) <= Sum(s)
  {
    if s != [] {
      SumLess(s[..|s| - 1], t[..|s| - 1]);
    }
  }

  lemma SumSnoc(s: seq<nat>, x: nat)
    ensures Sum(s + [x]) == Sum(s) + x
  {
    assert (s + [x])[..|s|] == s;
  }

  /** The bytes still to come: lacking on the server, or there but not yet finished. */
  function Due(u: Upload, n: Net): nat {
    Lacking(u, n) + Sum(Pendings(u, n))
  }

  function Patience(u: Upload, w: World): int
    requires Fits(u)
  {
    if w.client.Sending? then 10 * (Due(u, w.net) / u.chunk) + 10 - w.client.retries - w.client.resyncs else 0
  }

  /** How much one undoing step can give back, and more than there is at the start. */
  function FullPatience(u: Upload): nat
    requires Fits(u)
  {
    10 * (|u.file| / u.chunk) + 20
  }

  // ---------------------------------------------------------------- how the bytes due change

  lemma ArrivedDue(u: Upload, n: Net, offset: nat)
    requires FlightsFormed(u, n)
    ensures var t := Arrived(u, n, offset).0;
            && (!(StartsAfresh(u, offset) && n.disk.Some?) ==> Due(u, t) <= Due(u, n))
            && Due(u, t) <= Due(u, n) + |u.file| + u.chunk
  {
    hide Pending, Sum;
    var m := if StartsAfresh(u, offset) && OffsetTaken(u, offset) then Removed(n) else n;
    RemovedDue(u, n);
    var t := Arrived(u, n, offset).0;
    if t.flights != n.flights {
      assert Pendings(u, t) == Pendings(u, m) + [0] by {
        AppendPending(u, m, offset, t);
      }
      SumSnoc(Pendings(u, m), 0);
    }
  }

  lemma AppendPending(u: Upload, m: Net, offset: nat, t: Net)
    requires t == m.(flights := m.flights + [Flight(offset, None, 0, true)])
    ensures Pendings(u, t) == Pendings(u, m) + [0]
  {
  }

  lemma RemovedDue(u: Upload, n: Net)
    requires FlightsFormed(u, n)
    ensures n.disk.None? ==> Due(u, Removed(n)) <= Due(u, n)
    ensures Due(u, Removed(n)) <= Due(u, n) + |u.file| + u.chunk
  {
    hide Sum;
    var s, t := Pendings(u, n), Pendings(u, Removed(n));
    if n.own.Some? && n.own.value < |n.flights| {
      SumStep(s, t, n.own.value, if n.disk.None? then 0 else u.chunk);
    } else {
      SumLess(s, t);
    }
  }

  lemma OpenedDue(u: Upload, n: Net, i: nat)
    requires FlightsFormed(u, n) && IsOpen(n, i) && n.flights[i].handle.None?
    ensures Due(u, Opened(n, i)) <= Due(u, n)
  {
    hide Sum;
    SumLess(Pendings(u, n), Pendings(u, Opened(n, i)));
  }

  lemma WrittenDue(u: Upload, n: Net, i: nat, count: nat)
    requires FlightsFormed(u, n) && IsOpen(n, i) && n.flights[i].handle.Some?
    requires 0 < count <= Length(u, n.flights[i].offset) - n.flights[i].written
    ensures !(Attached(n, n.flights[i]) && Size(n) + count > |u.file|) ==> Due(u, Written(n, i, count)) <= Due(u, n)
    ensures Due(u, Written(n, i, count)) <= Due(u, n) + u.chunk
  {
    hide Sum;
    SumStep(Pendings(u, n), Pendings(u, Written(n, i, count)), i, if Attached(n, n.flights[i]) then count else 0);
  }

  lemma ClosedDue(u: Upload, n: Net, i: nat)
    requires FlightsFormed(u, n) && IsOpen(n, i)
    ensures Sum(Pendings(u, Closed(n, i))) <= Sum(Pendings(u, n)) - Pending(u, n, i)
    ensures Size(Closed(n, i)) == Size(n)
  {
    hide Sum;
    SumStep(Pendings(u, n), Pendings(u, Closed(n, i)), i, 0 - Pending(u, n, i));
  }

  lemma BrokenDue(u: Upload, n: Net, i: nat)
    requires FlightsFormed(u, n) && IsOpen(n, i)
    ensures Size(n) <= n.flights[i].offset + Stored(n, n.flights[i]) ==> Due(u, Broken(n, i)) <= Due(u, n)
    ensures Due(u, Broken(n, i)) <= Due(u, n) + |u.file|
  {
    hide Sum;
    ClosedDue(u, n, i);
    assert Pendings(u, Broken(n, i)) == Pendings(u, Closed(n, i));
  }

  /** Once the client has its answer, or has given up, its own request counts for no more than before. */
  lemma DisownedDue(u: Upload, n: Net)
    ensures Due(u, n.(own := None)) <= Due(u, n)
  {
    hide Sum;
    SumLess(Pendings(u, n), Pendings(u, n.(own := None)));
  }

  // ---------------------------------------------------------------- every request costs patience

  lemma DivOrder(a: int, b: int, d: int)
    requires d > 0 && 0 <= a <= b
    ensures 0 <= a / d <= b / d
  {
    assert a == d * (a / d) + a % d && b == d * (b / d) + b % d;
    if a / d > b / d {
      MulOrder(d, b / d + 1, a / d);
    }
  }

  lemma MulOrder(d: int, x: int, y: int)
    requires d >= 0 && x <= y
    ensures d * x <= d * y
  {
  }

  lemma DivUnique(a: int, d: int, q: int, r: int)
    requires d > 0 && 0 <= r < d && a == d * q + r
    ensures a / d == q
  {
    var k := a / d - q;
    assert d * k == r - a % d;
    if k > 0 { MulOrder(d, 1, k); }
    if k < 0 { MulOrder(d, k, -1); }
  }

  lemma DivLess(a: int, d: int)
    requires d > 0 && a >= d
    ensures (a - d) / d == a / d - 1
  {
    assert a == d * (a / d) + a % d;
    assert a - d == d * (a / d - 1) + a % d;
    DivUnique(a - d, d, a / d - 1, a % d);
  }

  lemma DivSum(a: nat, b: nat, d: nat)
    requires d > 0
    ensures (a + b + d) / d <= a / d + b / d + 2
  {
    var q, r := a / d + b / d, a % d + b % d;
    assert a == d * (a / d) + a % d && b == d * (b / d) + b % d;
    assert a + b == d * q + r && r < 2 * d;
    if r < d {
      DivUnique(a + b + d, d, q + 1, r);
    } else {
      DivUnique(a + b + d, d, q + 2, r - d);
    }
  }

  lemma PatienceBounds(u: Upload, w: World)
    requires Fits(u) && ClientFormed(w)
    ensures 0 <= Patience(u, w) && (w.client.Sending? ==> Patience(u, w) >= 1)
  {
    DivOrder(0, Due(u, w.net), u.chunk);
  }

  /** The bytes due grow only when the step undoes something, and then by at most a file and a piece. */
  lemma StepDue(u: Upload, w: World, a: Action)
    requires FlightsFormed(u, w.net) && OwnFormed(w) && Possible(u, w, a)
    ensures !Undoes(u, w, a) ==> Due(u, NetStep(u, w, a).0) <= Due(u, w.net)
    ensures Due(u, NetStep(u, w, a).0) <= Due(u, w.net) + |u.file| + u.chunk
  {
    hide Due, Opened, Written, Closed, Broken, Arrived, FlightsFormed, StartsAfresh, Finished;
    var n, t := w.net, NetStep(u, w, a).0;
    match a
    case Arrive(offset, own) =>
      ArrivedDue(u, n, offset);
      ArriveOwnDue(u, w, offset, own);
    case Open(i) => OpenedDue(u, n, i);
    case Write(i, count) => WrittenDue(u, n, i, count);
    case Finish(i) =>
      FinishedDue(u, n, i);
      DisownedDue(u, Finished(u, n, i).0);
    case Break(i, _) =>
      BrokenDue(u, n, i);
      DisownedDue(u, Broken(n, i));
    case GiveUp(_) =>
      DisownedDue(u, n);
      SameDue(u, n.(own := None), t);
    case Consumed => RemovedDue(u, n);
  }

  lemma SameDue(u: Upload, n: Net, t: Net)
    requires t.disk == n.disk && t.gen == n.gen && t.flights == n.flights && t.own == n.own
    ensures Due(u, t) == Due(u, n)
  {
    assert Pendings(u, t) == Pendings(u, n);
  }

  lemma ArriveOwnDue(u: Upload, w: World, offset: nat, own: bool)
    requires Possible(u, w, Arrive(offset, own))
    ensures Due(u, NetStep(u, w, Arrive(offset, own)).0) == Due(u, Arrived(u, w.net, offset).0)
  {
    var t, m := NetStep(u, w, Arrive(offset, own)).0, Arrived(u, w.net, offset).0;
    assert Pendings(u, t) == Pendings(u, m);
  }

  lemma FinishedDue(u: Upload, n: Net, i: nat)
    requires FlightsFormed(u, n) && IsOpen(n, i)
    ensures Due(u, Finished(u, n, i).0) <= Due(u, n) - Pending(u, n, i)
  {
    hide Pending, Sum;
    ClosedDue(u, n, i);
    assert Pendings(u, Finished(u, n, i).0) == Pendings(u, Closed(n, i)) by {
      SamePendings(u, Closed(n, i), Finished(u, n, i).0);
    }
  }

  lemma SamePendings(u: Upload, n: Net, t: Net)
    requires t.disk == n.disk && t.gen == n.gen && t.flights == n.flights && t.own == n.own
    ensures Pendings(u, t) == Pendings(u, n)
  {
  }

  /** A refused request costs one resync, one retry, or the upload. */
  lemma RefusedCosts(u: Upload, w: World, t: World, status: int, size: Option<nat>)
    requires Fits(u) && ClientFormed(w) && w.client.Sending? && Due(u, t.net) <= Due(u, w.net)
    requires t.client == React(u, w.client, Refused(status, size))
    ensures Patience(u, t) + 1 <= Patience(u, w)
  {
    hide Due;
    DivOrder(Due(u, t.net), Due(u, w.net), u.chunk);
    PatienceBounds(u, w);
  }

  /** An accepted piece that is not the last costs the patience for the whole of it. */
  lemma AcceptedCosts(u: Upload, w: World, i: nat)
    requires Fits(u) && Formed(u, w) && w.client.Sending? && w.net.own == Some(i) && Possible(u, w, Finish(i))
    ensures Patience(u, Step(u, w, Finish(i))) + 1 <= Patience(u, w)
  {
    hide Due;
    var n, t := w.net, Step(u, w, Finish(i));
    FinishedDue(u, n, i);
    DisownedDue(u, Finished(u, n, i).0);
    PatienceBounds(u, w);
    var answer := Finished(u, n, i).1;
    if answer.Refused? {
      RefusedCosts(u, w, t, answer.status, answer.size);
    } else if t.client.Sending? {
      assert Length(u, n.flights[i].offset) == u.chunk == Pending(u, n, i);
      DivLess(Due(u, n), u.chunk);
      DivOrder(Due(u, t.net), Due(u, n) - u.chunk, u.chunk);
    }
  }

  lemma EndsCosts(u: Upload, w: World, a: Action)
    requires Fits(u) && Formed(u, w) && Ends(u, w, a) && !Undoes(u, w, a)
    ensures Patience(u, Step(u, w, a)) + 1 <= Patience(u, w)
  {
    hide Undoes, Patience, Arrived, Finished, Broken, FlightsFormed, React;
    StepOwnFormed(u, w, a);
    StepDue(u, w, a);
    var answer := NetStep(u, w, a).1.value;
    match a
    case Arrive(offset, _) =>
      ArrivalRefused(u, w.net, offset);
      RefusedCosts(u, w, Step(u, w, a), answer.status, answer.size);
    case Finish(i) =>
      FlightFormedStep(u, w.net, i);
      AcceptedCosts(u, w, i);
    case Break(_, status) => RefusedCosts(u, w, Step(u, w, a), status, None);
    case GiveUp(status) => RefusedCosts(u, w, Step(u, w, a), status, None);
  }

  lemma UndoneGives(u: Upload, w: World, a: Action)
    requires Fits(u) && Formed(u, w) && Undoes(u, w, a)
    ensures var ends := if Ends(u, w, a) then 1 else 0;
            Patience(u, Step(u, w, a)) + ends <= Patience(u, w) + FullPatience(u)
  {
    assert Possible(u, w, a);
    hide Due, Undoes, NetStep, FlightsFormed, OwnFormed;
    var t := Step(u, w, a);
    StepOwnFormed(u, w, a);
    StepDue(u, w, a);
    StepClientFormed(u, w, a);
    PatienceBounds(u, w);
    UndoneClient(u, w, a);
    DivSum(Due(u, w.net), |u.file|, u.chunk);
    DivOrder(Due(u, t.net), Due(u, w.net) + |u.file| + u.chunk, u.chunk);
  }

  /** No undoing step is an accepted piece, so the client has no more retries or resyncs left than before. */
  lemma UndoneClient(u: Upload, w: World, a: Action)
    requires Formed(u, w) && Undoes(u, w, a)
    ensures var c, d := w.client, Step(u, w, a).client;
            var ends := if Ends(u, w, a) then 1 else 0;
            d.Sending? ==> c.Sending? && c.retries + c.resyncs + ends <= d.retries + d.resyncs
  {
    hide FlightsFormed, OwnFormed, ClientFormed, Arrived, Broken;
    match a
    case Arrive(offset, _) => ArrivalRefused(u, w.net, offset);
    case _ =>
  }

  /** A request's outcome takes patience from the client, unless the step undoes something; nothing else gives it any. */
  lemma StepPatience(u: Upload, w: World, a: Action)
    requires Fits(u) && Formed(u, w)
    ensures var ends := if Ends(u, w, a) then 1 else 0;
            Patience(u, Step(u, w, a)) + ends <= Patience(u, w) + if Undoes(u, w, a) then FullPatience(u) else 0
  {
    var t := Step(u, w, a);
    PatienceBounds(u, w);
    if Possible(u, w, a) {
      StepOwnFormed(u, w, a);
      StepDue(u, w, a);
      if Undoes(u, w, a) {
        UndoneGives(u, w, a);
      } else if Ends(u, w, a) {
        EndsCosts(u, w, a);
      } else {
        assert t.client == w.client;
        DivOrder(Due(u, t.net), Due(u, w.net), u.chunk);
      }
    }
  }

  // ---------------------------------------------------------------- every run ends

  lemma MulStep(f: nat, k: nat)
    ensures f * (k + 1) + f == f * (k + 2)
  {
  }

  /**
   The upload always ends: in any run, with requests overlapping in any way, the client's requests number at
   most ten for each chunk of the file and twenty more, as often as stored bytes are undone and once more.
   */
  lemma {:induction false} UploadTerminates(u: Upload, acts: seq<Action>)
    requires Fits(u)
    ensures SendCount(u, Start(), acts) + Patience(u, Run(u, Start(), acts))
         <= FullPatience(u) * (UndoCount(u, Start(), acts) + 1)
    ensures SendCount(u, Start(), acts) <= FullPatience(u) * (UndoCount(u, Start(), acts) + 1)
  {
    hide Step, Undoes, Ends, Patience, FullPatience, Formed, ClientFormed;
    RunFormed(u, acts);
    StartPatience(u);
    if acts != [] {
      var before := acts[..|acts| - 1];
      UploadTerminates(u, before);
      RunFormed(u, before);
      StepPatience(u, Run(u, Start(), before), acts[|acts| - 1]);
      MulStep(FullPatience(u), UndoCount(u, Start(), before));
    } else {
      RunNothing(u, Start());
    }
    FormedPatience(u, Run(u, Start(), acts));
  }

  lemma FormedPatience(u: Upload, w: World)
    requires Fits(u) && Formed(u, w)
    ensures Patience(u, w) >= 0
  {
    PatienceBounds(u, w);
  }

  lemma StartPatience(u: Upload)
    requires Fits(u)
    ensures Patience(u, Start()) <= FullPatience(u)
  {
    assert Pendings(u, Start().net) == [];
  }

  /** The appending contract alone, with requests that do not overlap, undoes nothing: the bound is absolute. */
  lemma {:induction false} ContractUndoesNothing(u: Upload, acts: seq<Action>)
    requires u.kind.AppendContract? && NoOverlap(u, acts)
    ensures UndoCount(u, Start(), acts) == 0
  {
    if acts != [] {
      hide Step, Undoes, Solo, Formed, Apart, Possible;
      var before := acts[..|acts| - 1];
      NoOverlapBefore(u, acts);
      ContractUndoesNothing(u, before);
      NoOverlapSolo(u, before);
      RunFormed(u, before);
      SoloUndoesNothing(u, Run(u, Start(), before), acts[|acts| - 1]);
    }
  }

  lemma NoOverlapBefore(u: Upload, acts: seq<Action>)
    requires NoOverlap(u, acts) && acts != []
    ensures NoOverlap(u, acts[..|acts| - 1])
  {
    hide Run, Apart, Possible;
    var before := acts[..|acts| - 1];
    assert forall k | 0 <= k < |before| :: before[..k] == acts[..k] && before[k] == acts[k];
  }

  lemma SoloUndoesNothing(u: Upload, w: World, a: Action)
    requires u.kind.AppendContract? && Formed(u, w) && Solo(u, w.net)
    ensures !Undoes(u, w, a)
  {
    hide OwnFormed, ClientFormed;
    if Possible(u, w, a) && (a.Break? || a.Write?) {
      assert InPlace(w.net, w.net.flights[a.i]);
    }
  }

  lemma ContractTerminates(u: Upload, acts: seq<Action>)
    requires Fits(u) && u.kind.AppendContract? && NoOverlap(u, acts)
    ensures SendCount(u, Start(), acts) <= FullPatience(u)
  {
    hide FullPatience, Patience, SendCount, UndoCount, NoOverlap, Run;
    ContractUndoesNothing(u, acts);
    UploadTerminates(u, acts);
  }

  // ---------------------------------------------------------------- a clean network, and a lost last answer

  /** How many pieces are left from `offset`. */
  function PiecesLeft(u: Upload, offset: nat): (n: nat)
    requires Fits(u) && offset <= |u.file|
    ensures n > 0
    decreases |u.file| - offset
  {
    if End(u, offset) == |u.file| then 1 else 1 + PiecesLeft(u, End(u, offset))
  }

  lemma ServedCounts(u: Upload, w: World)
    requires Fits(u) && InStep(u, w)
    ensures SendCount(u, w, Served(|w.net.flights|, w.client.offset, Length(u, w.client.offset))) == 1
  {
    var i, offset, count := |w.net.flights|, w.client.offset, Length(u, w.client.offset);
    var acts := Served(i, offset, count);
    ServedIs(u, w);
    assert Step(u, w, acts[0]).client == w.client && !Ends(u, w, acts[0]);
    hide Step, Run, Ends;
    CountFour(u, w, acts);
    RunFour(u, w, acts);
    var w1 := Step(u, w, acts[0]);
    var w2 := Step(u, w1, acts[1]);
    var w3 := Step(u, w2, acts[2]);
    QuietStep(u, w1, acts[1]);
    QuietStep(u, w2, acts[2]);
    QuietStep(u, w3, acts[3]);
  }

  /** Without an outcome the client stays as it is; opening and writing are no outcome. */
  lemma QuietStep(u: Upload, w: World, a: Action)
    ensures !Ends(u, w, a) ==> Step(u, w, a).client == w.client
    ensures a.Open? || a.Write? ==> !Ends(u, w, a)
  {
  }

  lemma CountFour(u: Upload, w: World, acts: seq<Action>)
    requires |acts| == 4
    ensures var w1 := Step(u, w, acts[0]);
            var w2 := Step(u, w1, acts[1]);
            var w3 := Step(u, w2, acts[2]);
            SendCount(u, w, acts) == (if Ends(u, w, acts[0]) then 1 else 0) + (if Ends(u, w1, acts[1]) then 1 else 0)
                                   + (if Ends(u, w2, acts[2]) then 1 else 0) + (if Ends(u, w3, acts[3]) then 1 else 0)
  {
    hide Step, Ends;
    assert acts[..3][..2] == acts[..2] && acts[..2][..1] == acts[..1] && acts[..1][..0] == [];
    assert Run(u, w, acts[..1]) == Step(u, w, acts[0]);
    assert Run(u, w, acts[..2]) == Step(u, Run(u, w, acts[..1]), acts[1]);
    assert Run(u, w, acts[..3]) == Step(u, Run(u, w, acts[..2]), acts[2]);
    assert SendCount(u, w, acts[..1]) == if Ends(u, w, acts[0]) then 1 else 0;
    assert SendCount(u, w, acts[..2]) == SendCount(u, w, acts[..1]) + if Ends(u, Run(u, w, acts[..1]), acts[1]) then 1 else 0;
    assert SendCount(u, w, acts[..3]) == SendCount(u, w, acts[..2]) + if Ends(u, Run(u, w, acts[..2]), acts[2]) then 1 else 0;
  }

  lemma StillInStep(u: Upload, w: World)
    requires Fits(u) && InStep(u, w) && End(u, w.client.offset) < |u.file|
    ensures InStep(u, World(AfterServed(u, w.net, w.client.offset), Sending(End(u, w.client.offset), 0, 0)))
  {
  }

  /** When every piece arrives whole and is answered, the upload returns after exactly the pieces that are left. */
  lemma {:induction false} CleanUploadReturns(u: Upload, w: World) returns (acts: seq<Action>)
    requires Fits(u) && InStep(u, w)
    ensures Run(u, w, acts).client == Returned
    ensures Run(u, w, acts).net.completed == w.net.completed + [Cells(0, |u.file|)]
    ensures SendCount(u, w, acts) == PiecesLeft(u, w.client.offset)
    decreases |u.file| - w.client.offset
  {
    hide Step, Run, SendCount, UndoCount, InStep;
    ServedOffsets(u, w);
    var offset := w.client.offset;
    acts := Served(|w.net.flights|, offset, Length(u, offset));
    ServedIs(u, w);
    ServedCounts(u, w);
    if End(u, offset) < |u.file| {
      StillInStep(u, w);
      var more := CleanUploadReturns(u, Run(u, w, acts));
      RunTwice(u, w, acts, more);
      CountsTwice(u, w, acts, more);
      acts := acts + more;
    }
  }

  lemma ServedOffsets(u: Upload, w: World)
    requires Fits(u) && InStep(u, w)
    ensures w.client.Sending? && w.client.offset < End(u, w.client.offset) <= |u.file|
  {
  }

  /** The last piece arrives whole but its answer does not. */
  function Lost(u: Upload, w: World, status: int): World
    requires w.client.Sending?
  {
    var i, offset := |w.net.flights|, w.client.offset;
    var arrived := Step(u, Step(u, Step(u, w, Arrive(offset, true)), Open(i)), Write(i, Length(u, offset)));
    Step(u, Step(u, arrived, GiveUp(status)), Finish(i))
  }

  lemma LostIs(u: Upload, w: World, status: int)
    requires Fits(u) && InStep(u, w) && End(u, w.client.offset) == |u.file|
    requires status in {0, 502, 504, 520, 524} && w.client.retries < 4
    ensures var l := Lost(u, w, status);
            && l.client == w.client.(retries := w.client.retries + 1)
            && l.net.completed == w.net.completed + [Cells(0, |u.file|)]
            && l.net.disk == Some(Cells(0, |u.file|)) && l.net.own == None && Right(u, l.net) && Quiet(l.net)
  {
    var n, offset, i := w.net, w.client.offset, |w.net.flights|;
    var count := Length(u, offset);
    TakenIs(u, w);
    var w2 := Step(u, Step(u, w, Arrive(offset, true)), Open(i));
    var f := w2.net.flights[i];
    var w3 := Step(u, w2, Write(i, count));
    CellsJoin(0, offset, offset + count);
    assert w3.net.disk == Some(Cells(0, |u.file|));
    assert w3.net.flights == n.flights + [f.(written := count)];
    var w4 := Step(u, w3, GiveUp(status));
    var w5 := Step(u, w4, Finish(i));
    assert w5.net.flights == n.flights + [f.(written := count, open := false)];
  }

  /** The piece is sent again, and after a refusal with a size the client asks once more from there. */
  lemma LastAnswerLost(u: Upload, w: World, status: int)
    requires Fits(u) && InStep(u, w) && End(u, w.client.offset) == |u.file|
    requires status in {0, 502, 504, 520, 524} && w.client.retries < 4 && w.client.resyncs < 5
    ensures var l := Lost(u, w, status);
            var i, offset, size := |l.net.flights|, w.client.offset, |u.file|;
            && l.net.completed == w.net.completed + [Cells(0, size)]
            && (StartsAfresh(u, offset) ==>
                  var again := Run(u, l, Served(i, 0, Length(u, 0)));
                  again.client == Returned && again.net.completed == w.net.completed + [Cells(0, size), Cells(0, size)])
            && (!StartsAfresh(u, offset) ==>
                  var resumed := Step(u, Step(u, l, Arrive(offset, true)), Arrive(size, true));
                  if u.kind.ImportRoute? then resumed.client == Thrown(400) && resumed.net.completed == l.net.completed
                  else Step(u, Step(u, resumed, Open(i)), Finish(i)).client == Returned)
  {
    hide Lost;
    LostIs(u, w, status);
    var l, offset, i := Lost(u, w, status), w.client.offset, |Lost(u, w, status).net.flights|;
    if StartsAfresh(u, offset) {
      ServedIs(u, l);
    } else {
      LostResumes(u, l);
    }
  }

  lemma LostResumes(u: Upload, l: World)
    requires Fits(u) && l.client.Sending? && l.client.offset < |u.file| && l.client.resyncs < MAX_RESYNCS
    requires !StartsAfresh(u, l.client.offset) && l.net.disk == Some(Cells(0, |u.file|)) && l.net.own == None
    ensures var i := |l.net.flights|;
            var resumed := Step(u, Step(u, l, Arrive(l.client.offset, true)), Arrive(|u.file|, true));
            if u.kind.ImportRoute? then resumed.client == Thrown(400) && resumed.net.completed == l.net.completed
            else Step(u, Step(u, resumed, Open(i)), Finish(i)).client == Returned
  {
    var i, size := |l.net.flights|, |u.file|;
    var refused := Step(u, l, Arrive(l.client.offset, true));
    assert refused.client == Sending(size, l.client.retries, l.client.resyncs + 1) && refused.net.own == None;
    var resumed := Step(u, refused, Arrive(size, true));
    if u.kind.AppendContract? {
      assert resumed.net.flights == l.net.flights + [Flight(size, None, 0, true)] && resumed.net.own == Some(i);
      var begun := Step(u, resumed, Open(i));
      assert begun.net.flights[i] == Flight(size, Some(l.net.gen), 0, true);
    }
  }

  // ---------------------------------------------------------------- the upload loop

  /** The network and the server behind it. It may undo stored bytes `undosLeft` more times. */
  class Wire {
    var net: Net
    var undosLeft: nat

    constructor (undos: nat)
      ensures net == Start().net && undosLeft == undos
    {
      net, undosLeft := Start().net, undos;
    }

    /**
     Send one piece and wait for its outcome. Meanwhile anything may happen on the network and the server:
     this request and any others arrive, are written, end and break in any order.
     */
    method SendRaw(u: Upload, offset: nat, ghost c: Client) returns (answer: Answer, ghost acts: seq<Action>)
      requires c.Sending? && c.offset == offset
      modifies this
      ensures Run(u, old(World(net, c)), acts) == World(net, React(u, c, answer))
      ensures SendCount(u, old(World(net, c)), acts) == 1
      ensures undosLeft + UndoCount(u, old(World(net, c)), acts) == old(undosLeft)
    {
      hide React, Undoes, NetStep, Possible;
      ghost var w0 := World(net, c);
      acts := [];
      var turns :| turns >= 0;
      for k := 0 to turns
        invariant Run(u, w0, acts) == World(net, c)
        invariant SendCount(u, w0, acts) == 0
        invariant undosLeft + UndoCount(u, w0, acts) == old(undosLeft)
      {
        var a: Action := *;
        var w := World(net, Sending(offset, 0, 0));
        if Possible(u, w, a) && !(Undoes(u, w, a) && undosLeft == 0) {
          SameForServer(u, w, World(net, c), a);
          assert (acts + [a])[..|acts + [a]| - 1] == acts;
          if Undoes(u, w, a) {
            undosLeft := undosLeft - 1;
          }
          var (n, outcome) := NetStep(u, w, a);
          net, acts := n, acts + [a];
          if outcome.Some? {
            return outcome.value, acts;
          }
        }
      }
      var status: int := *;
      var a, w := GiveUp(status), World(net, Sending(offset, 0, 0));
      SameForServer(u, w, World(net, c), a);
      GivenUp(u, w, status);
      assert (acts + [a])[..|acts + [a]| - 1] == acts;
      net, acts := NetStep(u, w, a).0, acts + [a];
      answer := Refused(status, None);
    }
  }

  /** The server and the network do not see the client's counters. */
  lemma SameForServer(u: Upload, w: World, v: World, a: Action)
    requires w.net == v.net && w.client.Sending? && v.client.Sending? && w.client.offset == v.client.offset
    ensures Possible(u, w, a) <==> Possible(u, v, a)
    ensures Undoes(u, w, a) <==> Undoes(u, v, a)
    ensures Possible(u, w, a) ==> NetStep(u, w, a) == NetStep(u, v, a)
  {
  }

  lemma GivenUp(u: Upload, w: World, status: int)
    requires w.client.Sending?
    ensures Possible(u, w, GiveUp(status)) && NetStep(u, w, GiveUp(status)).1 == Some(Refused(status, None))
    ensures !Undoes(u, w, GiveUp(status))
  {
  }

  /**
   The upload. None: it returned; Some: it threw that status. Everything that happened is one run of the
   protocol. The loop ends because each turn takes an undoing from the network, or patience from the client:
   bytes due, then resyncs and retries left. If nothing went astray, all that was handed on is the file.
   */
  method UploadChunked(u: Upload, wire: Wire) returns (thrown: Option<int>, ghost acts: seq<Action>)
    requires Fits(u)
    requires wire.net == Start().net
    modifies wire
    ensures Run(u, Start(), acts) == World(wire.net, if thrown.None? then Returned else Thrown(thrown.value))
    ensures thrown.None? ==> wire.net.completed != []
    ensures OnCourse(u, acts) ==> Right(u, wire.net) && forall i | 0 <= i < |wire.net.completed| :: IsWholeFile(u, wire.net.completed[i])
    ensures SendCount(u, Start(), acts) <= FullPatience(u) * (old(wire.undosLeft) + 1)
  {
    hide Run, UndoCount, SendCount, Patience, FullPatience, Formed, OnCourse, Right, IsWholeFile;
    var offset: nat, retries: nat, resyncs: nat := 0, 0, 0;
    acts := [];
    RunNothing(u, Start());
    while true
      invariant Run(u, Start(), acts) == World(wire.net, Sending(offset, retries, resyncs))
      invariant wire.undosLeft + UndoCount(u, Start(), acts) == old(wire.undosLeft)
      decreases wire.undosLeft, Patience(u, World(wire.net, Sending(offset, retries, resyncs)))
    {
      ghost var c := Sending(offset, retries, resyncs);
      ghost var w := World(wire.net, c);
      RunFormed(u, acts);
      FormedPatience(u, w);
      var end := End(u, offset);
      var r, more := wire.SendRaw(u, offset, c);
      RunTwice(u, Start(), acts, more);
      CountsTwice(u, Start(), acts, more);
      RunPatience(u, w, more);
      acts := acts + more;
      match r {
        case Accepted(size) =>
          retries, resyncs := 0, 0;
          if end >= |u.file| {
            thrown := None;
            break;
          }
          offset := if size.Some? then size.value else end;
        case Refused(status, size) =>
          if status == 409 && size.Some? {
            resyncs := resyncs + 1;
            if resyncs <= MAX_RESYNCS {
              offset := size.value;
              continue;
            }
          }
          if Transient(status) {
            retries := retries + 1;
            if retries <= MAX_RETRIES {
              continue;
            }
          }
          thrown := Some(status);
          break;
      }
    }
    UploadEnds(u, acts, old(wire.undosLeft));
  }

  /** From any formed state a run without undoing uses up the client's patience. */
  lemma {:induction false} RunPatience(u: Upload, w: World, acts: seq<Action>)
    requires Fits(u) && Formed(u, w)
    ensures Formed(u, Run(u, w, acts))
    ensures UndoCount(u, w, acts) == 0 ==> Patience(u, Run(u, w, acts)) + SendCount(u, w, acts) <= Patience(u, w)
  {
    hide Step, Undoes, Ends, Patience, Formed;
    if acts != [] {
      var before := acts[..|acts| - 1];
      RunPatience(u, w, before);
      StepFormed(u, Run(u, w, before), acts[|acts| - 1]);
      StepPatience(u, Run(u, w, before), acts[|acts| - 1]);
    } else {
      RunNothing(u, w);
    }
  }

  lemma UploadEnds(u: Upload, acts: seq<Action>, undos: nat)
    requires Fits(u) && UndoCount(u, Start(), acts) <= undos
    ensures var w := Run(u, Start(), acts);
            && (w.client.Returned? ==> w.net.completed != [])
            && (OnCourse(u, acts) ==> Right(u, w.net) && forall i | 0 <= i < |w.net.completed| :: IsWholeFile(u, w.net.completed[i]))
    ensures SendCount(u, Start(), acts) <= FullPatience(u) * (undos + 1)
  {
    hide Run, OnCourse, Right, IsWholeFile, FullPatience;
    RunFormed(u, acts);
    if OnCourse(u, acts) {
      RunSound(u, acts);
    }
    UploadTerminates(u, acts);
    MulOrder(FullPatience(u), UndoCount(u, Start(), acts) + 1, undos + 1);
  }
}

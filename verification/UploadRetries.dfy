/**
 Which failures a chunked upload survives: how often and for which answers a piece is sent again, and
 that an upload with no worse failures than those still hands on the whole file.
 */
module UploadRetries {
  import opened Basics
  import opened UploadProtocol
  import opened UploadSafety
  import opened ChunkedUpload

  /**
   A request that fails: it never arrives, or it breaks off after `count` bytes of its piece (or the whole
   of a shorter piece). The client gets `status`.
   */
  datatype Failure = NeverArrives(status: int) | BreaksOff(status: int, count: nat)

  function Part(u: Upload, offset: nat, count: nat): nat {
    if count <= Length(u, offset) then count else Length(u, offset)
  }

  /** The next request, which is number `i` if it arrives, fails. */
  function Failed(u: Upload, i: nat, offset: nat, f: Failure): seq<Action> {
    match f
    case NeverArrives(status) => [GiveUp(status)]
    case BreaksOff(status, count) => [Arrive(offset, true), Open(i), Write(i, Part(u, offset, count)), Break(i, status)]
  }

  function NextFlight(i: nat, f: Failure): nat {
    if f.BreaksOff? then i + 1 else i
  }

  function NextFlightAll(i: nat, fs: seq<Failure>): nat
    decreases |fs|
  {
    if fs == [] then i else NextFlightAll(NextFlight(i, fs[0]), fs[1..])
  }

  function FailedAll(u: Upload, i: nat, offset: nat, fs: seq<Failure>): seq<Action>
    decreases |fs|
  {
    if fs == [] then [] else Failed(u, i, offset, fs[0]) + FailedAll(u, NextFlight(i, fs[0]), offset, fs[1..])
  }

  /** Each piece from `offset` on fails as listed and is then stored and answered. */
  function Bumpy(u: Upload, i: nat, offset: nat, fails: seq<seq<Failure>>): seq<Action>
    decreases |fails|
  {
    if fails == [] then []
    else
      var j := NextFlightAll(i, fails[0]);
      FailedAll(u, i, offset, fails[0]) + Served(j, offset, Length(u, offset)) + Bumpy(u, j + 1, End(u, offset), fails[1..])
  }

  function Total(fails: seq<seq<Failure>>): nat {
    if fails == [] then 0 else |fails[0]| + Total(fails[1..])
  }

  /** No connection, or a proxy in front of the panel gave up. */
  ghost predicate Passing(f: Failure) {
    f.status in {0, 502, 504, 520, 524} && (f.BreaksOff? ==> f.count > 0)
  }

  // ---------------------------------------------------------------- one failure

  /** The client sends again, at most four times in a row, when a connection or a proxy gave up. */
  ghost function AfterFailure(c: Client, status: int): Client
    requires c.Sending?
  {
    if status in {0, 502, 504, 520, 524} && c.retries < 4 then Sending(c.offset, c.retries + 1, c.resyncs) else Thrown(status)
  }

  lemma NeverArrivesIs(u: Upload, w: World, status: int)
    requires w.client.Sending?
    ensures Step(u, w, GiveUp(status)) ==
              World(w.net.(own := None, sent := w.net.sent + {w.client.offset}), AfterFailure(w.client, status))
    ensures Run(u, w, [GiveUp(status)]) == Step(u, w, GiveUp(status)) && SendCount(u, w, [GiveUp(status)]) == 1
  {
    var acts := [GiveUp(status)];
    assert acts[..0] == [];
    RunNothing(u, w);
  }

  lemma BreaksOffIs(u: Upload, w: World, status: int, count: nat)
    requires Fits(u) && InStep(u, w) && 0 < count <= Length(u, w.client.offset)
    ensures var i, offset := |w.net.flights|, w.client.offset;
            var w3 := Step(u, Step(u, Step(u, w, Arrive(offset, true)), Open(i)), Write(i, count));
            var r := Step(u, w3, Break(i, status));
            && Ends(u, w3, Break(i, status)) && r.client == AfterFailure(w.client, status)
            && r.net.disk == Some(Cells(0, offset)) && r.net.own == None && Right(u, r.net) && Quiet(r.net)
            && |r.net.flights| == i + 1 && r.net.completed == w.net.completed
  {
    var n, offset, i := w.net, w.client.offset, |w.net.flights|;
    TakenIs(u, w);
    assert Quiet(n) && Right(u, n);
    hide StartsAfresh, InStep;
    var w2 := Step(u, Step(u, w, Arrive(offset, true)), Open(i));
    var f := w2.net.flights[i];
    var w3 := Step(u, w2, Write(i, count));
    CellsJoin(0, offset, offset + count);
    assert w3.net.disk == Some(Cells(0, offset + count));
    assert w3.net.flights == n.flights + [f.(written := count)];
    var r := Step(u, w3, Break(i, status));
    assert Cells(0, offset + count)[..offset] == Cells(0, offset);
    assert r.net.flights == n.flights + [f.(written := count, open := false)];
  }

  /**
   A failed request stores nothing and is sent again exactly when its status says that a connection or a
   proxy gave up and fewer than four failures came before it; otherwise the upload ends with its status.
   */
  lemma FailureIs(u: Upload, w: World, f: Failure)
    requires Fits(u) && InStep(u, w) && (f.BreaksOff? ==> f.count > 0)
    ensures var c := w.client;
            var r := Run(u, w, Failed(u, |w.net.flights|, c.offset, f));
            && (f.status in {0, 502, 504, 520, 524} && c.retries < 4 ==>
                  r.client == Sending(c.offset, c.retries + 1, c.resyncs))
            && (f.status !in {0, 502, 504, 520, 524} || c.retries >= 4 ==> r.client == Thrown(f.status))
            && (r.client.Sending? ==> InStep(u, r))
            && |r.net.flights| == NextFlight(|w.net.flights|, f)
            && r.net.completed == w.net.completed
            && SendCount(u, w, Failed(u, |w.net.flights|, c.offset, f)) == 1
  {
    var i, offset := |w.net.flights|, w.client.offset;
    var acts := Failed(u, i, offset, f);
    ServedOffsets(u, w);
    hide Step, Run, SendCount, Ends;
    match f
    case NeverArrives(status) => NeverArrivesIs(u, w, status);
    case BreaksOff(status, count) =>
      var part := Part(u, offset, count);
      BreaksOffIs(u, w, status, part);
      BrokenCounts(u, w, status, part);
      RunFour(u, w, acts);
  }

  lemma BrokenCounts(u: Upload, w: World, status: int, count: nat)
    requires Fits(u) && InStep(u, w) && 0 < count <= Length(u, w.client.offset)
    ensures SendCount(u, w, [Arrive(w.client.offset, true), Open(|w.net.flights|), Write(|w.net.flights|, count),
                             Break(|w.net.flights|, status)]) == 1
  {
    var i, offset := |w.net.flights|, w.client.offset;
    var acts := [Arrive(offset, true), Open(i), Write(i, count), Break(i, status)];
    BreaksOffIs(u, w, status, count);
    var w1 := Step(u, w, acts[0]);
    assert !Ends(u, w, acts[0]);
    hide Step, Run, Ends;
    CountFour(u, w, acts);
    QuietStep(u, w1, acts[1]);
    QuietStep(u, Step(u, w1, acts[1]), acts[2]);
  }

  // ---------------------------------------------------------------- failures in a row

  /** Up to four failures that pass are made up for: the client is still sending the same piece. */
  lemma {:induction false} FailuresAre(u: Upload, w: World, fs: seq<Failure>)
    requires Fits(u) && InStep(u, w) && w.client.retries + |fs| <= 4 && forall k | 0 <= k < |fs| :: Passing(fs[k])
    ensures var c, acts := w.client, FailedAll(u, |w.net.flights|, w.client.offset, fs);
            var r := Run(u, w, acts);
            && r.client == Sending(c.offset, c.retries + |fs|, c.resyncs) && InStep(u, r)
            && |r.net.flights| == NextFlightAll(|w.net.flights|, fs) && r.net.completed == w.net.completed
            && SendCount(u, w, acts) == |fs|
    decreases |fs|
  {
    hide InStep, Step, Run, SendCount, UndoCount, Failed;
    ServedOffsets(u, w);
    if fs == [] {
      RunNothing(u, w);
    } else {
      var i, offset := |w.net.flights|, w.client.offset;
      var acts := Failed(u, i, offset, fs[0]);
      FailureIs(u, w, fs[0]);
      var r := Run(u, w, acts);
      FailuresAre(u, r, fs[1..]);
      var more := FailedAll(u, |r.net.flights|, offset, fs[1..]);
      RunTwice(u, w, acts, more);
      CountsTwice(u, w, acts, more);
    }
  }

  /** The fifth failure in a row ends the upload with its status, after five requests. */
  lemma FifthFailureThrows(u: Upload, w: World, fs: seq<Failure>, last: Failure)
    requires Fits(u) && InStep(u, w) && w.client.retries == 0 && |fs| == 4
    requires Passing(last) && forall k | 0 <= k < |fs| :: Passing(fs[k])
    ensures var i, offset := |w.net.flights|, w.client.offset;
            var acts := FailedAll(u, i, offset, fs) + Failed(u, NextFlightAll(i, fs), offset, last);
            && Run(u, w, acts).client == Thrown(last.status)
            && Run(u, w, acts).net.completed == w.net.completed
            && SendCount(u, w, acts) == 5
  {
    hide InStep, Step, Run, SendCount, UndoCount, Failed, FailedAll, NextFlightAll;
    ServedOffsets(u, w);
    var i, offset := |w.net.flights|, w.client.offset;
    var acts, more := FailedAll(u, i, offset, fs), Failed(u, NextFlightAll(i, fs), offset, last);
    FailuresAre(u, w, fs);
    FailureIs(u, Run(u, w, acts), last);
    RunTwice(u, w, acts, more);
    CountsTwice(u, w, acts, more);
  }

  /**
   An upload each of whose pieces fails at most four times in a row, each time because a connection or a
   proxy gave up, before or in the middle of the piece, hands on the whole file and returns; it takes one
   request for each piece left and one for each failure.
   */
  lemma {:induction false} BumpyUploadReturns(u: Upload, w: World, fails: seq<seq<Failure>>)
    requires Fits(u) && InStep(u, w) && w.client.retries == 0 && |fails| == PiecesLeft(u, w.client.offset)
    requires forall p | 0 <= p < |fails| :: |fails[p]| <= 4 && forall k | 0 <= k < |fails[p]| :: Passing(fails[p][k])
    ensures var acts := Bumpy(u, |w.net.flights|, w.client.offset, fails);
            && Run(u, w, acts).client == Returned
            && Run(u, w, acts).net.completed == w.net.completed + [Cells(0, |u.file|)]
            && SendCount(u, w, acts) == |fails| + Total(fails)
    decreases |fails|
  {
    hide InStep, Step, Run, SendCount, UndoCount, FailedAll, NextFlightAll, Served;
    ServedOffsets(u, w);
    var i, offset := |w.net.flights|, w.client.offset;
    var first := FailedAll(u, i, offset, fails[0]);
    FailuresAre(u, w, fails[0]);
    var r := Run(u, w, first);
    var taken := Served(|r.net.flights|, offset, Length(u, offset));
    PieceTaken(u, r);
    var s := Run(u, r, taken);
    RunTwice(u, w, first, taken);
    CountsTwice(u, w, first, taken);
    assert Run(u, w, first + taken) == s;
    var more := Bumpy(u, |s.net.flights|, End(u, offset), fails[1..]);
    if End(u, offset) < |u.file| {
      BumpyUploadReturns(u, s, fails[1..]);
      RunTwice(u, w, first + taken, more);
      CountsTwice(u, w, first + taken, more);
    } else {
      assert fails[1..] == [];
      assert first + taken + more == first + taken;
    }
  }

  lemma PieceTaken(u: Upload, w: World)
    requires Fits(u) && InStep(u, w)
    ensures var i, offset, end := |w.net.flights|, w.client.offset, End(u, w.client.offset);
            var r := Run(u, w, Served(i, offset, Length(u, offset)));
            && SendCount(u, w, Served(i, offset, Length(u, offset))) == 1 && |r.net.flights| == i + 1
            && (end < |u.file| ==> r.client == Sending(end, 0, 0) && InStep(u, r) && r.net.completed == w.net.completed)
            && (end == |u.file| ==> r.client == Returned && r.net.completed == w.net.completed + [Cells(0, |u.file|)])
  {
    hide InStep, Step, Run, SendCount;
    ServedOffsets(u, w);
    ServedIs(u, w);
    ServedCounts(u, w);
    if End(u, w.client.offset) < |u.file| {
      StillInStep(u, w);
    }
  }

  // ---------------------------------------------------------------- answers that say where to resume

  /**
   A piece that does not start where the stored bytes end stores nothing; the client goes on from where they
   do end, up to five times in a row, and the sixth time the upload ends with status 409.
   */
  lemma ResyncIs(u: Upload, w: World)
    requires w.client.Sending? && w.net.own.None? && w.client.offset != Size(w.net)
    requires u.kind.ImportRoute? ==> 0 < w.client.offset < |u.file|
    ensures var c, r := w.client, Step(u, w, Arrive(w.client.offset, true));
            && (c.resyncs < 5 ==> r.client == Sending(Size(w.net), c.retries, c.resyncs + 1))
            && (c.resyncs >= 5 ==> r.client == Thrown(409))
            && r.net == w.net.(sent := w.net.sent + {c.offset})
            && (c.resyncs < 5 && Right(u, w.net) && Quiet(w.net) && Size(w.net) < |u.file| ==> InStep(u, r))
  {
    assert !StartsAfresh(u, w.client.offset);
  }

  /** A client that starts in the wrong place of a sound upload finds the right one, and the whole file is handed on. */
  lemma ResumedUploadReturns(u: Upload, w: World, fails: seq<seq<Failure>>)
    requires Fits(u) && w.client.Sending? && w.client.retries == 0 && w.client.resyncs < 5
    requires w.net.own.None? && Right(u, w.net) && Quiet(w.net) && w.client.offset != Size(w.net) < |u.file|
    requires u.kind.ImportRoute? ==> 0 < w.client.offset < |u.file|
    requires |fails| == PiecesLeft(u, Size(w.net))
    requires forall p | 0 <= p < |fails| :: |fails[p]| <= 4 && forall k | 0 <= k < |fails[p]| :: Passing(fails[p][k])
    ensures var acts := [Arrive(w.client.offset, true)] + Bumpy(u, |w.net.flights|, Size(w.net), fails);
            && Run(u, w, acts).client == Returned
            && Run(u, w, acts).net.completed == w.net.completed + [Cells(0, |u.file|)]
  {
    hide InStep, Right, Quiet, Bumpy, Arrived;
    var ask := [Arrive(w.client.offset, true)];
    ResyncIs(u, w);
    assert ask[..0] == [];
    RunNothing(u, w);
    hide Step;
    assert Run(u, w, ask) == Step(u, w, ask[0]);
    hide Run;
    var r := Run(u, w, ask);
    BumpyUploadReturns(u, r, fails);
    RunTwice(u, w, ask, Bumpy(u, |w.net.flights|, Size(w.net), fails));
  }

  /** What the server takes no piece for ends the upload with status 400: a start that is not inside the file. */
  lemma OutsideIs400(u: Upload, w: World)
    requires w.client.Sending? && w.net.own.None?
    requires if u.kind.ImportRoute? then w.client.offset >= |u.file|
             else w.client.offset > |u.file| && Size(w.net) == w.client.offset
    ensures var r := Step(u, w, Arrive(w.client.offset, true));
            r.client == Thrown(400) && r.net == w.net.(sent := w.net.sent + {w.client.offset})
  {
    assert !StartsAfresh(u, w.client.offset);
  }

  /** A last piece that arrives after its file was removed ends the upload with status 500, and nothing is handed on. */
  lemma FileGoneIs500(u: Upload, w: World, i: nat)
    requires w.client.Sending? && w.net.own == Some(i) && Possible(u, w, Finish(i)) && w.net.disk.None?
    requires w.net.flights[i].offset + w.net.flights[i].written >= |u.file|
    ensures var r := Step(u, w, Finish(i));
            r.client == Thrown(500) && r.net.completed == w.net.completed && r.net.own.None?
  {
  }

  /** An accepted piece before the last: on to where the answer says, or without a size to the end of the piece. */
  lemma AcceptedMoves(u: Upload, c: Client, size: Option<nat>)
    requires c.Sending? && c.offset + u.chunk < |u.file|
    ensures var d := React(u, c, Accepted(size));
            && d.Sending? && d.retries == 0 == d.resyncs
            && d.offset == match size case Some(n) => n case None => c.offset + u.chunk
  {
  }
}

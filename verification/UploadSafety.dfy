/**
 When the stored bytes are a prefix of the file and what is handed on is the whole of it: exactly as long
 as no request goes astray, which is sure when requests do not overlap, and fails when they do.
 */
module UploadSafety {
  import opened Basics
  import opened UploadProtocol

  /** The temporary file is a prefix of the uploaded file, whatever its bytes, and all that was handed on is the whole file. */
  ghost predicate Right(u: Upload, n: Net) {
    && (n.disk.Some? ==> n.disk.value == Cells(0, |n.disk.value|) && |n.disk.value| <= |u.file|)
    && (forall i | 0 <= i < |n.completed| :: n.completed[i] == Cells(0, |u.file|))
  }

  /** The same in bytes. */
  lemma RightMeans(u: Upload, n: Net)
    requires Right(u, n)
    ensures n.disk.Some? ==> InFile(u, n.disk.value) && Content(u, n.disk.value) == u.file[..|n.disk.value|]
    ensures forall i | 0 <= i < |n.completed| :: IsWholeFile(u, n.completed[i])
  {
    if n.disk.Some? {
      assert Content(u, n.disk.value) == u.file[..|n.disk.value|];
    }
    assert Content(u, Cells(0, |u.file|)) == u.file;
  }

  ghost predicate IsWholeFile(u: Upload, cells: seq<Cell>) {
    InFile(u, cells) && Content(u, cells) == u.file
  }

  /**
   A request does something to a file that is not as it left it: writes at another place than its next
   one, sets the file to a length it no longer has, or hands it on when it is not complete.
   */
  predicate Astray(u: Upload, w: World, a: Action) {
    && Possible(u, w, a)
    && var n := w.net;
       match a
       case Write(i, _) => Attached(n, n.flights[i]) && Size(n) != n.flights[i].offset + n.flights[i].written
       case Break(i, _) => n.disk.Some? && Size(n) < n.flights[i].offset
       case Finish(i) =>
         n.disk.Some? && Size(n) != |u.file| && n.flights[i].offset + Length(u, n.flights[i].offset) >= |u.file|
       case _ => false
  }

  // ---------------------------------------------------------------- the exact condition

  lemma CellsJoin(a: nat, b: nat, c: nat)
    requires a <= b <= c
    ensures Cells(a, b) + Cells(b, c) == Cells(a, c)
  {
  }

  lemma WriteExact(u: Upload, w: World, i: nat, count: nat)
    requires Right(u, w.net) && Possible(u, w, Write(i, count))
    ensures Right(u, Written(w.net, i, count)) <==> !Astray(u, w, Write(i, count))
  {
    var n := w.net;
    var f := n.flights[i];
    if Attached(n, f) {
      var from := f.offset + f.written;
      var disk := n.disk.value + Cells(from, from + count);
      if Size(n) == from {
        CellsJoin(0, from, from + count);
      } else {
        assert disk[Size(n)] == Of(from) && Cells(0, |disk|)[Size(n)] == Of(Size(n));
      }
    }
  }

  lemma BreakExact(u: Upload, w: World, i: nat, status: int)
    requires Right(u, w.net) && Possible(u, w, Break(i, status))
    ensures Right(u, Broken(w.net, i)) <==> !Astray(u, w, Break(i, status))
  {
    var n := w.net;
    var length := n.flights[i].offset;
    if n.disk.Some? {
      var disk := Truncated(n.disk.value, length);
      if length <= Size(n) {
        assert disk == Cells(0, length);
      } else {
        assert disk[Size(n)] == Zero && Cells(0, |disk|)[Size(n)] == Of(Size(n));
      }
    }
  }

  lemma FinishExact(u: Upload, w: World, i: nat)
    requires Right(u, w.net) && Possible(u, w, Finish(i))
    ensures Right(u, Finished(u, w.net, i).0) <==> !Astray(u, w, Finish(i))
  {
    var t := Finished(u, w.net, i).0;
    if |t.completed| > |w.net.completed| {
      assert t.completed[|w.net.completed|] == w.net.disk.value;
    }
  }

  lemma RightElse(u: Upload, n: Net, t: Net)
    requires Right(u, n) && t.completed == n.completed && (t.disk == n.disk || t.disk == None || t.disk == Some([]))
    ensures Right(u, t)
  {
    assert Cells(0, 0) == [];
  }

  /** From a right state a step leads to a right one exactly when it does not go astray. */
  lemma StepExact(u: Upload, w: World, a: Action)
    requires Right(u, w.net)
    ensures Right(u, Step(u, w, a).net) <==> !Astray(u, w, a)
  {
    hide Right, Written, Broken, Finished, React;
    var t := Step(u, w, a).net;
    if Possible(u, w, a) {
      match a
      case Arrive(offset, own) => ArrivedKeeps(u, w.net, offset); RightElse(u, w.net, t);
      case Open(i) => RightElse(u, w.net, t);
      case Write(i, count) => WriteExact(u, w, i, count);
      case Finish(i) => FinishExact(u, w, i); SameDisk(u, Finished(u, w.net, i).0, t);
      case Break(i, status) => BreakExact(u, w, i, status); SameDisk(u, Broken(w.net, i), t);
      case GiveUp(_) => RightElse(u, w.net, t);
      case Consumed => RightElse(u, w.net, t);
    }
  }

  lemma ArrivedKeeps(u: Upload, n: Net, offset: nat)
    ensures var t := Arrived(u, n, offset).0; t.completed == n.completed && (t.disk == n.disk || t.disk == None)
  {
  }

  lemma SameDisk(u: Upload, n: Net, t: Net)
    requires t.disk == n.disk && t.completed == n.completed
    ensures Right(u, t) <==> Right(u, n)
  {
  }

  ghost predicate AlwaysRight(u: Upload, acts: seq<Action>) {
    forall k | 0 <= k <= |acts| :: Right(u, Run(u, Start(), acts[..k]).net)
  }

  ghost predicate OnCourse(u: Upload, acts: seq<Action>) {
    forall k | 0 <= k < |acts| :: !Astray(u, Run(u, Start(), acts[..k]), acts[k])
  }

  lemma AlwaysRightSnoc(u: Upload, acts: seq<Action>)
    requires acts != []
    ensures AlwaysRight(u, acts) <==> AlwaysRight(u, acts[..|acts| - 1]) && Right(u, Run(u, Start(), acts).net)
  {
    hide Right, Run;
    var before := acts[..|acts| - 1];
    assert forall k | 0 <= k <= |before| :: before[..k] == acts[..k];
    assert acts[..|acts|] == acts;
  }

  lemma OnCourseSnoc(u: Upload, acts: seq<Action>)
    requires acts != []
    ensures var before := acts[..|acts| - 1];
            OnCourse(u, acts) <==> OnCourse(u, before) && !Astray(u, Run(u, Start(), before), acts[|acts| - 1])
  {
    hide Astray, Run;
    var before := acts[..|acts| - 1];
    assert forall k | 0 <= k < |before| :: before[..k] == acts[..k] && before[k] == acts[k];
  }

  /**
   Over every run, with requests overlapping in any way: the stored bytes are a prefix of the file at every
   moment, and everything handed on is the whole file, exactly when no request ever goes astray.
   */
  lemma {:induction false} RunRightIff(u: Upload, acts: seq<Action>)
    ensures AlwaysRight(u, acts) <==> OnCourse(u, acts)
  {
    if acts == [] {
      assert acts[..0] == [];
      assert Right(u, Start().net);
    } else {
      hide AlwaysRight, OnCourse, Right, Astray, Step;
      var before := acts[..|acts| - 1];
      RunRightIff(u, before);
      AlwaysRightSnoc(u, acts);
      OnCourseSnoc(u, acts);
      if AlwaysRight(u, before) {
        RightAtEnd(u, before);
        StepExact(u, Run(u, Start(), before), acts[|acts| - 1]);
      }
    }
  }

  lemma RightAtEnd(u: Upload, acts: seq<Action>)
    requires AlwaysRight(u, acts)
    ensures Right(u, Run(u, Start(), acts).net)
  {
    hide Right, Run;
    assert acts[..|acts|] == acts;
  }

  /** As long as nothing goes astray, a client that returned has had its whole file handed on, byte for byte. */
  lemma RunSound(u: Upload, acts: seq<Action>)
    requires OnCourse(u, acts)
    ensures var w := Run(u, Start(), acts);
            && Right(u, w.net)
            && (forall i | 0 <= i < |w.net.completed| :: IsWholeFile(u, w.net.completed[i]))
            && (w.client.Returned? ==> w.net.completed != [])
  {
    hide OnCourse, AlwaysRight, Right, Run, IsWholeFile;
    RunRightIff(u, acts);
    RightAtEnd(u, acts);
    RunFormed(u, acts);
    RightMeans(u, Run(u, Start(), acts).net);
  }

  // ---------------------------------------------------------------- requests that do not overlap

  predicate Quiet(n: Net) {
    forall i | 0 <= i < |n.flights| :: !n.flights[i].open
  }

  /** No request is taken, and the file is not removed, while one is under way. */
  predicate Apart(u: Upload, w: World, a: Action) {
    match a
    case Arrive(offset, _) => StartsAfresh(u, offset) || Arrived(u, w.net, offset).1.None? ==> Quiet(w.net)
    case Consumed => Quiet(w.net)
    case _ => true
  }

  /** At most one request is under way, and the file is as that one left it. */
  ghost predicate Solo(u: Upload, n: Net) {
    && (forall i, j | 0 <= i < |n.flights| && 0 <= j < |n.flights| && n.flights[i].open && n.flights[j].open :: i == j)
    && (forall i | 0 <= i < |n.flights| && n.flights[i].open :: InPlace(n, n.flights[i]))
  }

  predicate InPlace(n: Net, f: Flight) {
    Size(n) == f.offset + f.written && (f.handle.Some? ==> Attached(n, f))
  }

  lemma SoloOnCourse(u: Upload, w: World, a: Action)
    requires Formed(u, w) && Solo(u, w.net)
    ensures !Astray(u, w, a)
  {
    hide OwnFormed, ClientFormed, StartsAfresh;
  }

  lemma FlightSolo(u: Upload, n: Net, i: nat)
    requires FlightsFormed(u, n) && Solo(u, n) && IsOpen(n, i)
    ensures n.flights[i].handle.None? ==> Solo(u, Opened(n, i))
    ensures forall count | n.flights[i].handle.Some? && count > 0 :: Solo(u, Written(n, i, count))
    ensures Solo(u, Closed(n, i)) && Solo(u, Broken(n, i))
  {
    hide Truncated, Length;
    assert InPlace(n, n.flights[i]);
  }

  lemma SoloStep(u: Upload, w: World, a: Action)
    requires Formed(u, w) && Solo(u, w.net) && (Possible(u, w, a) ==> Apart(u, w, a))
    ensures Solo(u, Step(u, w, a).net)
  {
    var n := w.net;
    if Possible(u, w, a) {
      hide React, OwnFormed, ClientFormed, FlightsFormed, Solo, Opened, Written, Closed, Broken, Arrived;
      var t := Step(u, w, a).net;
      match a
      case Arrive(offset, own) => ArrivedSolo(u, n, offset); SoloElse(u, Arrived(u, n, offset).0, t);
      case Open(i) => FlightSolo(u, n, i);
      case Write(i, count) => FlightSolo(u, n, i);
      case Finish(i) => FlightSolo(u, n, i); SoloElse(u, Closed(n, i), t);
      case Break(i, _) => FlightSolo(u, n, i); SoloElse(u, Broken(n, i), t);
      case GiveUp(_) => SoloElse(u, n, t);
      case Consumed => RemovedSolo(u, n);
    }
  }

  lemma RemovedSolo(u: Upload, n: Net)
    requires Quiet(n)
    ensures Solo(u, Removed(n))
  {
  }

  lemma SoloElse(u: Upload, n: Net, t: Net)
    requires Solo(u, n) && t.disk == n.disk && t.gen == n.gen && t.flights == n.flights
    ensures Solo(u, t)
  {
  }

  lemma ArrivedSolo(u: Upload, n: Net, offset: nat)
    requires Solo(u, n) && (StartsAfresh(u, offset) || Arrived(u, n, offset).1.None? ==> Quiet(n))
    ensures Solo(u, Arrived(u, n, offset).0)
  {
  }

  ghost predicate NoOverlap(u: Upload, acts: seq<Action>) {
    forall k | 0 <= k < |acts| ::
      Possible(u, Run(u, Start(), acts[..k]), acts[k]) ==> Apart(u, Run(u, Start(), acts[..k]), acts[k])
  }

  lemma {:induction false} NoOverlapSolo(u: Upload, acts: seq<Action>)
    requires NoOverlap(u, acts)
    ensures Solo(u, Run(u, Start(), acts).net)
  {
    if acts != [] {
      hide Solo, Apart, Possible, Step, Formed;
      var before := acts[..|acts| - 1];
      assert forall k | 0 <= k < |before| :: before[..k] == acts[..k] && before[k] == acts[k];
      NoOverlapSolo(u, before);
      RunFormed(u, before);
      SoloStep(u, Run(u, Start(), before), acts[|acts| - 1]);
    }
  }

  /** Requests that do not overlap never go astray: every such run is right at every moment. */
  lemma NoOverlapIsRight(u: Upload, acts: seq<Action>)
    requires NoOverlap(u, acts)
    ensures OnCourse(u, acts) && AlwaysRight(u, acts)
  {
    hide Run, Astray, Apart, Possible, Solo, Formed, Right;
    forall k | 0 <= k < |acts| ensures !Astray(u, Run(u, Start(), acts[..k]), acts[k]) {
      var before := acts[..k];
      assert forall h | 0 <= h < k :: before[..h] == acts[..h] && before[h] == acts[h];
      NoOverlapSolo(u, before);
      RunFormed(u, before);
      SoloOnCourse(u, Run(u, Start(), before), acts[k]);
    }
    RunRightIff(u, acts);
  }

  /** What the network may do next about two requests under way. */
  function Threat(w: World, i: nat, j: nat): seq<Action>
    requires i < |w.net.flights| && j < |w.net.flights|
  {
    var f, g := w.net.flights[i], w.net.flights[j];
    if Size(w.net) != f.offset + f.written then [Write(i, 1)]
    else if Size(w.net) < g.offset then [Break(j, 0)]
    else [Write(i, 1), Break(j, 0), Write(i, 1)]
  }

  /**
   Not overlapping is what it takes: with two requests under way, one of which has the file open and two
   bytes to go, at most three steps that the network may take at any time lead astray.
   */
  lemma OverlapCanGoAstray(u: Upload, w: World, i: nat, j: nat)
    requires i != j && IsOpen(w.net, i) && IsOpen(w.net, j) && Attached(w.net, w.net.flights[i])
    requires w.net.flights[i].written + 2 <= Length(u, w.net.flights[i].offset)
    ensures var acts := Threat(w, i, j); Astray(u, Run(u, w, acts[..|acts| - 1]), acts[|acts| - 1])
  {
    hide React, Length;
    var acts, f, g := Threat(w, i, j), w.net.flights[i], w.net.flights[j];
    if |acts| == 1 {
      assert acts[..0] == [];
    } else {
      var w1 := Step(u, w, Write(i, 1));
      assert w1.net.flights[i] == f.(written := f.written + 1) && w1.net.flights[j] == g && w1.net.gen == w.net.gen;
      assert Size(w1.net) == Size(w.net) + 1;
      var w2 := Step(u, w1, Break(j, 0));
      assert w2.net.flights[i] == w1.net.flights[i] && w2.net.gen == w.net.gen && Size(w2.net) == g.offset;
      hide Step, Astray;
      assert acts[..2][..1] == [Write(i, 1)] && acts[..2][1] == Break(j, 0) && [Write(i, 1)][..0] == [];
      assert Run(u, w, [Write(i, 1)]) == w1;
      assert Run(u, w, acts[..2]) == w2;
      AstrayWrite(u, w2, i);
    }
  }

  lemma AstrayWrite(u: Upload, w: World, i: nat)
    requires Possible(u, w, Write(i, 1)) && Attached(w.net, w.net.flights[i])
    requires Size(w.net) != w.net.flights[i].offset + w.net.flights[i].written
    ensures Astray(u, w, Write(i, 1))
  {
  }

  // ---------------------------------------------------------------- one exchange without trouble

  /** The client is about to send a piece that the server will take, and nothing else is under way. */
  ghost predicate InStep(u: Upload, w: World) {
    && Right(u, w.net) && Quiet(w.net) && w.net.own.None?
    && w.client.Sending? && w.client.offset < |u.file|
    && (StartsAfresh(u, w.client.offset) || Size(w.net) == w.client.offset)
  }

  function Served(i: nat, offset: nat, count: nat): seq<Action> {
    [Arrive(offset, true), Open(i), Write(i, count), Finish(i)]
  }

  /** The server and the network after the client's piece was taken and answered. */
  function AfterServed(u: Upload, n: Net, offset: nat): Net
    requires offset <= End(u, offset)
  {
    var gen := if StartsAfresh(u, offset) then n.gen + 1 else n.gen;
    var end := End(u, offset);
    Net(Some(Cells(0, end)), gen, if end < |u.file| then n.completed else n.completed + [Cells(0, end)],
        n.flights + [Flight(offset, Some(gen), Length(u, offset), false)], n.sent + {offset}, None)
  }

  lemma RunFour(u: Upload, w: World, acts: seq<Action>)
    requires |acts| == 4
    ensures Run(u, w, acts) == Step(u, Step(u, Step(u, Step(u, w, acts[0]), acts[1]), acts[2]), acts[3])
  {
    hide Step;
    assert acts[..3][..2] == acts[..2] && acts[..2][..1] == acts[..1] && acts[..1][..0] == [];
    assert Run(u, w, acts[..1]) == Step(u, w, acts[0]);
    assert Run(u, w, acts[..2]) == Step(u, Run(u, w, acts[..1]), acts[1]);
    assert Run(u, w, acts[..3]) == Step(u, Run(u, w, acts[..2]), acts[2]);
  }

  /** The client's request is taken and its file is opened. */
  lemma TakenIs(u: Upload, w: World)
    requires InStep(u, w)
    ensures var n, offset, i := w.net, w.client.offset, |w.net.flights|;
            var gen := if StartsAfresh(u, offset) then n.gen + 1 else n.gen;
            Step(u, Step(u, w, Arrive(offset, true)), Open(i)) ==
              World(Net(Some(Cells(0, offset)), gen, n.completed, n.flights + [Flight(offset, Some(gen), 0, true)],
                        n.sent + {offset}, Some(i)), w.client)
  {
    var n, offset, i := w.net, w.client.offset, |w.net.flights|;
    var gen := if StartsAfresh(u, offset) then n.gen + 1 else n.gen;
    var f := Flight(offset, None, 0, true);
    var w1 := Step(u, w, Arrive(offset, true));
    assert w1.net.flights == n.flights + [f] && w1.net.own == Some(i) && w1.net.gen == gen && Size(w1.net) == offset;
    var w2 := Step(u, w1, Open(i));
    assert w2.net.flights == n.flights + [f.(handle := Some(gen))] && w2.net.disk == Some(Cells(0, offset));
  }

  /** A piece that arrives whole, alone and in its turn is stored and answered. */
  lemma ServedIs(u: Upload, w: World)
    requires Fits(u) && InStep(u, w)
    ensures var offset, end := w.client.offset, End(u, w.client.offset);
            && offset < end
            && Run(u, w, Served(|w.net.flights|, offset, Length(u, offset))) ==
                 World(AfterServed(u, w.net, offset),
                       if end < |u.file| then Sending(end, 0, 0) else Returned)
  {
    var n, offset, i := w.net, w.client.offset, |w.net.flights|;
    var count := Length(u, offset);
    RunFour(u, w, Served(i, offset, count));
    TakenIs(u, w);
    var w2 := Step(u, Step(u, w, Arrive(offset, true)), Open(i));
    ServedEnds(u, n, w2, offset);
  }

  lemma ServedEnds(u: Upload, n: Net, w: World, offset: nat)
    requires Fits(u) && offset < |u.file| && w.client.Sending? && w.client.offset == offset
    requires var gen := if StartsAfresh(u, offset) then n.gen + 1 else n.gen;
             w.net == Net(Some(Cells(0, offset)), gen, n.completed, n.flights + [Flight(offset, Some(gen), 0, true)],
                          n.sent + {offset}, Some(|n.flights|))
    ensures var i, count := |n.flights|, Length(u, offset);
            Step(u, Step(u, w, Write(i, count)), Finish(i)) ==
              World(AfterServed(u, n, offset), if End(u, offset) < |u.file| then Sending(End(u, offset), 0, 0) else Returned)
  {
    hide StartsAfresh;
    var i, count, f := |n.flights|, Length(u, offset), w.net.flights[|n.flights|];
    var w3 := Step(u, w, Write(i, count));
    CellsJoin(0, offset, offset + count);
    assert w3.net.disk == Some(Cells(0, offset + count));
    assert w3.net.flights == n.flights + [f.(written := count)];
    var w4 := Step(u, w3, Finish(i));
    assert w4.net.flights == n.flights + [f.(written := count, open := false)];
  }

  // ---------------------------------------------------------------- requests that do overlap

  /** Half of a file of 100 bytes is stored and nothing is under way. */
  ghost predicate HalfStored(u: Upload, w: World) {
    && |u.file| == 100 && u.chunk == 50
    && w.net.disk == Some(Cells(0, 50)) && Quiet(w.net) && w.net.own == None && |w.net.flights| == 1
    && w.client == Sending(50, 0, 0)
  }

  /**
   The second piece hangs after 20 of its 50 bytes and the client gives it up. Sent again it is refused with
   size 70, so the client goes on from there; that piece has got 10 of its 30 bytes through.
   */
  function Overlapping(u: Upload, w: World): World {
    var hanging := Step(u, Step(u, Step(u, Step(u, w, Arrive(50, true)), Open(1)), Write(1, 20)), GiveUp(0));
    Step(u, Step(u, Step(u, Step(u, hanging, Arrive(50, true)), Arrive(70, true)), Open(2)), Write(2, 10))
  }

  lemma HangingIs(u: Upload, w: World)
    requires HalfStored(u, w)
    ensures var h := Step(u, Step(u, Step(u, Step(u, w, Arrive(50, true)), Open(1)), Write(1, 20)), GiveUp(0));
            && h.client == Sending(50, 1, 0) && h.net.disk == Some(Cells(0, 70)) && h.net.own == None
            && |h.net.flights| == 2 && h.net.flights[1] == Flight(50, Some(h.net.gen), 20, true)
            && h.net.completed == w.net.completed && !h.net.flights[0].open
  {
    var f := Flight(50, None, 0, true);
    var w1 := Step(u, w, Arrive(50, true));
    assert w1.net.flights == w.net.flights + [f] && w1.net.own == Some(1);
    var w2 := Step(u, w1, Open(1));
    assert w2.net.flights[1] == f.(handle := Some(w.net.gen));
    var w3 := Step(u, w2, Write(1, 20));
    CellsJoin(0, 50, 70);
  }

  lemma OverlappingIs(u: Upload, w: World)
    requires HalfStored(u, w)
    ensures var o := Overlapping(u, w);
            && o.client == Sending(70, 1, 1) && o.net.disk == Some(Cells(0, 80)) && o.net.own == Some(2)
            && |o.net.flights| == 3 && !o.net.flights[0].open
            && o.net.flights[1] == Flight(50, Some(o.net.gen), 20, true)
            && o.net.flights[2] == Flight(70, Some(o.net.gen), 10, true)
            && o.net.completed == w.net.completed
  {
    HangingIs(u, w);
    var h := Step(u, Step(u, Step(u, Step(u, w, Arrive(50, true)), Open(1)), Write(1, 20)), GiveUp(0));
    var w5 := Step(u, h, Arrive(50, true));
    assert w5.client == Sending(70, 1, 1) && w5.net.flights == h.net.flights;
    var w6 := Step(u, w5, Arrive(70, true));
    assert w6.net.flights == h.net.flights + [Flight(70, None, 0, true)] && w6.net.own == Some(2);
    var w7 := Step(u, w6, Open(2));
    var w8 := Step(u, w7, Write(2, 10));
    CellsJoin(0, 70, 80);
  }

  /**
   The hanging request dies, the file is cut to 50, and the other one goes on writing at its end: the client
   returns, and 70 bytes were handed on as the file of 100.
   */
  lemma OverlapHandsOnTooLittle(u: Upload, w: World)
    requires HalfStored(u, w)
    ensures var cut := Step(u, Overlapping(u, w), Break(1, 0));
            var done := Step(u, Step(u, cut, Write(2, 20)), Finish(2));
            && Astray(u, cut, Write(2, 20))
            && done.client == Returned
            && done.net.completed == w.net.completed + [Cells(0, 50) + Cells(80, 100)]
            && |Cells(0, 50) + Cells(80, 100)| < |u.file|
  {
    hide Overlapping;
    OverlappingIs(u, w);
    var o := Overlapping(u, w);
    var cut := Step(u, o, Break(1, 0));
    assert cut.net.disk == Some(Cells(0, 50)) by { assert Cells(0, 80)[..50] == Cells(0, 50); }
    assert cut.client == Sending(70, 1, 1) && cut.net.flights[2] == Flight(70, Some(cut.net.gen), 10, true);
    var more := Step(u, cut, Write(2, 20));
    assert more.net.disk == Some(Cells(0, 50) + Cells(80, 100));
    assert more.net.flights[2] == Flight(70, Some(cut.net.gen), 30, true) && more.net.own == Some(2);
  }

  /**
   Both requests die, the older first: the file is cut to 50 and then set to 70 again, with zeros. The client
   goes on from 70, returns, and a file of the right length with 20 zeros in it was handed on.
   */
  lemma OverlapHandsOnZeros(u: Upload, w: World)
    requires HalfStored(u, w)
    ensures var cut := Step(u, Overlapping(u, w), Break(1, 0));
            var filled := Step(u, cut, Break(2, 0));
            var again := Step(u, Step(u, filled, Arrive(70, true)), Open(3));
            var done := Step(u, Step(u, again, Write(3, 30)), Finish(3));
            && Astray(u, cut, Break(2, 0))
            && done.client == Returned
            && done.net.completed == w.net.completed + [Cells(0, 50) + Zeros(20) + Cells(70, 100)]
  {
    hide Overlapping;
    OverlappingIs(u, w);
    var o := Overlapping(u, w);
    var cut := Step(u, o, Break(1, 0));
    assert cut.net.disk == Some(Cells(0, 50)) by { assert Cells(0, 80)[..50] == Cells(0, 50); }
    assert cut.net.flights[2] == Flight(70, Some(cut.net.gen), 10, true) && cut.net.own == Some(2);
    var filled := Step(u, cut, Break(2, 0));
    assert filled.net.disk == Some(Cells(0, 50) + Zeros(20)) && filled.client == Sending(70, 2, 1) && filled.net.own == None;
    assert |filled.net.flights| == 3;
    ResumeAt70(u, filled);
  }

  lemma ResumeAt70(u: Upload, w: World)
    requires |u.file| == 100 && u.chunk == 50 && |w.net.flights| == 3 && Size(w.net) == 70 && w.net.own == None
    requires w.client.Sending? && w.client.offset == 70
    ensures var again := Step(u, Step(u, w, Arrive(70, true)), Open(3));
            var done := Step(u, Step(u, again, Write(3, 30)), Finish(3));
            done.client == Returned && done.net.completed == w.net.completed + [w.net.disk.value + Cells(70, 100)]
  {
    var f := Flight(70, None, 0, true);
    var w1 := Step(u, w, Arrive(70, true));
    assert w1.net.flights == w.net.flights + [f] && w1.net.own == Some(3) && w1.net.disk == w.net.disk;
    var w2 := Step(u, w1, Open(3));
    assert w2.net.flights[3] == f.(handle := Some(w.net.gen)) && w2.net.disk == w.net.disk;
    var w3 := Step(u, w2, Write(3, 30));
    assert w3.net.flights[3] == Flight(70, Some(w.net.gen), 30, true);
  }

  /** The state these runs begin in is reached by an undisturbed first piece. */
  lemma HalfStoredIsReached(u: Upload)
    requires |u.file| == 100 && u.chunk == 50
    ensures HalfStored(u, Run(u, Start(), Served(0, 0, 50)))
  {
    ServedIs(u, Start());
  }
}

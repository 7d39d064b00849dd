/** Whether the live-event client misses events, over every run against the server's event bus. */
module EventGaps {
  import opened Basics
  import opened EventClientState
  import opened EventWorld
  import opened EventLog

  /** How far the client has got in the log: its last id, or before it has one where its view begins. */
  function Cursor(w: World): nat {
    if w.client.lastId > 0 then w.client.lastId else if w.begin.Some? then w.begin.value else 0
  }

  /** What was emitted is the log from where the client's view begins to its cursor, each event once. */
  ghost predicate GapFree(w: World) {
    && (w.begin.None? ==> w.client.emitted == [])
    && (w.begin.Some? ==> w.begin.value <= Cursor(w) && w.client.emitted == Ids(w.begin.value, Cursor(w)))
  }

  /** Fewer events were emitted than the view spans. */
  ghost predicate Gappy(w: World) {
    w.begin.Some? && |w.client.emitted| < Cursor(w) - w.begin.value
  }

  /** The step takes the cursor past events that are not handed over: they are skipped for good. */
  predicate Misses(w: World, a: Action) {
    && Possible(w, a)
    && w.begin.Some?
    && match a
       case Event => Cursor(w) < w.stream.value
       case PollAnswer(gen) => gen == w.client.pollGen && Cursor(w) < w.replies[gen].from
       case _ => false
  }

  // ---------------------------------------------------------------- where the view begins

  /** The view begins with the first sign of life, and nothing under way lies before it. */
  ghost predicate Begun(w: World) {
    && (w.begin.None? ==> w.client.lastId == 0 && (w.client.es.Some? ==> !w.client.es.value.up))
    && (w.begin.Some? ==> w.begin.value <= w.newest && (w.client.lastId > 0 ==> w.begin.value <= w.client.lastId))
    && (w.begin.Some? && w.client.lastId == 0 ==> NothingBefore(w, w.begin.value))
  }

  ghost predicate NothingBefore(w: World, b: nat) {
    && (w.stream.Some? ==> b <= w.stream.value)
    && (w.client.pollGen in w.replies ==> b <= w.replies[w.client.pollGen].from)
  }

  lemma SourceBegun(w: World, a: Action)
    requires Good(w) && Begun(w) && OnSource(a)
    ensures Begun(Step(w, a))
  {
    hide CurrentAsks, AllAsk, RepliesFit, Fallback, StartSSE, Alive, OnError, OnPollAnswer, ReplayFrom, Alert;
    SourceStep(w, a);
    var c := w.client;
    if Possible(w, a) {
      match a
      case Connect => ReplayFits(w, Asked(w));
      case Hello => AliveIds(c);
      case Error(recent, closed) => ErrorIds(c, recent, closed);
      case OpenTimeout => FallbackIds(c.(openTimer := false));
      case StallTimeout => FallbackIds(c.(stallTimer := false));
      case RetryTimeout => StartIds(c.(retryTimer := false));
      case ProbeTimeout => StartIds(c.(probeTimer := false));
    }
  }

  lemma EventBegun(w: World)
    requires Good(w) && Begun(w) && Possible(w, Event)
    ensures Begun(Step(w, Event))
  {
    hide Alive, LoopsInLog, Known, Alert;
    AliveIds(w.client);
  }

  lemma AnswerBegun(w: World, gen: nat)
    requires Good(w) && Begun(w) && Possible(w, PollAnswer(gen))
    ensures Begun(Step(w, PollAnswer(gen)))
  {
    assert Alert(w.client) && gen in w.client.loops;
    hide Ids, OnPollAnswer, Events, CurrentAsks, AllAsk, RepliesFit, Known;
    PollAnswerIds(w, gen);
  }

  lemma LoopBegun(w: World, a: Action)
    requires Good(w) && Begun(w) && !OnSource(a) && !a.Event? && !a.PollAnswer?
    ensures Begun(Step(w, a))
  {
    hide Ids, Alert, RepliesFit;
    if Possible(w, a) {
      match a
      case Broadcast =>
      case PollServe(gen) => ReplayFits(w, w.client.loops[gen].after);
      case PollFailure(gen) =>
      case Wake(gen) =>
    }
  }

  lemma StepBegun(w: World, a: Action)
    requires Good(w) && Begun(w)
    ensures Begun(Step(w, a))
  {
    hide Step, Good, Begun;
    if OnSource(a) {
      SourceBegun(w, a);
    } else if !Possible(w, a) {
      Impossible(w, a);
    } else if a.Event? {
      EventBegun(w);
    } else if a.PollAnswer? {
      AnswerBegun(w, a.gen);
    } else {
      LoopBegun(w, a);
    }
  }

  lemma Impossible(w: World, a: Action)
    requires !Possible(w, a)
    ensures Step(w, a) == w
  {
  }

  lemma {:induction false} RunBegun(boot: nat, acts: seq<Action>)
    requires boot > 0
    ensures Begun(Run(Start(boot), acts))
  {
    if acts != [] {
      hide Step, Good, Begun;
      RunBegun(boot, acts[..|acts| - 1]);
      RunGood(boot, acts[..|acts| - 1]);
      StepBegun(Run(Start(boot), acts[..|acts| - 1]), acts[|acts| - 1]);
    }
  }

  // ---------------------------------------------------------------- the exact condition

  lemma IdsExtend(a: nat, b: nat)
    requires a <= b
    ensures Ids(a, b + 1) == Ids(a, b) + [b + 1]
  {
  }

  lemma IdsJoin(a: nat, b: nat, c: nat)
    requires a <= b <= c
    ensures Ids(a, b) + Ids(b, c) == Ids(a, c)
  {
  }

  lemma NoIds(a: nat)
    ensures Ids(a, a) == []
  {
  }

  lemma EventEffect(w: World)
    requires Possible(w, Event)
    ensures var n, id := Step(w, Event), w.stream.value + 1;
            && n.begin == (if w.begin.None? then w.stream else w.begin)
            && n.client.lastId == (if id <= w.client.lastId then w.client.lastId else id)
            && n.client.emitted == (if id <= w.client.lastId then w.client.emitted else w.client.emitted + [id])
  {
    hide Alive;
    AliveIds(w.client);
  }

  /** An event on a stream keeps the view gap-free exactly if the stream is not ahead of the cursor. */
  lemma EventKeepsGapFreeIff(w: World)
    requires Good(w) && Begun(w) && Possible(w, Event)
    ensures GapFree(w) ==> if Misses(w, Event) then Gappy(Step(w, Event)) else GapFree(Step(w, Event))
    ensures Gappy(w) ==> Gappy(Step(w, Event))
  {
    EventEffect(w);
    hide Good, Step;
    var at := w.stream.value;
    IdsExtend(at, at);
    NoIds(at);
    if w.begin.Some? && w.begin.value <= at {
      IdsExtend(w.begin.value, at);
    }
  }

  /** An answer of the current poll loop does exactly if it does not start past the cursor. */
  lemma PollKeepsGapFreeIff(w: World, gen: nat)
    requires Good(w) && Begun(w) && Possible(w, PollAnswer(gen))
    ensures GapFree(w) ==>
              if Misses(w, PollAnswer(gen)) then Gappy(Step(w, PollAnswer(gen))) else GapFree(Step(w, PollAnswer(gen)))
    ensures Gappy(w) ==> Gappy(Step(w, PollAnswer(gen)))
  {
    hide OnPollAnswer, Alert, InLog, AllAsk, Events;
    PollAnswerIds(w, gen);
    var r := w.replies[gen];
    if gen == w.client.pollGen {
      NoIds(r.last);
      if w.begin.Some? && w.begin.value <= r.from {
        IdsJoin(w.begin.value, r.from, r.last);
      }
    }
  }

  /** A gap-free view stays so exactly if the step misses nothing, and what was missed never comes. */
  lemma StepExact(w: World, a: Action)
    requires Good(w) && Begun(w)
    ensures GapFree(w) ==> if Misses(w, a) then Gappy(Step(w, a)) else GapFree(Step(w, a))
    ensures Gappy(w) ==> Gappy(Step(w, a))
  {
    hide Good, Step;
    if a.Event? && Possible(w, a) {
      EventKeepsGapFreeIff(w);
    } else if a.PollAnswer? && Possible(w, a) {
      PollKeepsGapFreeIff(w, a.gen);
    } else {
      QuietIds(w, a);
      if w.begin.None? && w.stream.Some? {
        NoIds(w.stream.value);
      }
    }
  }

  ghost predicate Missless(w: World, acts: seq<Action>) {
    forall i | 0 <= i < |acts| :: !Misses(Run(w, acts[..i]), acts[i])
  }

  lemma MisslessSnoc(w: World, acts: seq<Action>)
    requires acts != []
    ensures var before := acts[..|acts| - 1];
            Missless(w, acts) <==> Missless(w, before) && !Misses(Run(w, before), acts[|acts| - 1])
  {
    hide Misses, Run;
    var before := acts[..|acts| - 1];
    assert forall i | 0 <= i < |before| :: before[..i] == acts[..i] && before[i] == acts[i];
  }

  lemma {:induction false} RunExact(boot: nat, acts: seq<Action>)
    requires boot > 0
    ensures if Missless(Start(boot), acts) then GapFree(Run(Start(boot), acts)) else Gappy(Run(Start(boot), acts))
  {
    if acts != [] {
      hide Missless, GapFree, Gappy, Misses, Step, Good, Begun;
      var before := acts[..|acts| - 1];
      RunExact(boot, before);
      RunGood(boot, before);
      RunBegun(boot, before);
      MisslessSnoc(Start(boot), acts);
      StepExact(Run(Start(boot), before), acts[|acts| - 1]);
    }
  }

  /**
   Over every run: the events emitted since the first sign of life are the log without a gap, in order,
   exactly when no event on a stream, and no answer of the current poll loop, came from past the cursor.
   */
  lemma RunGapFreeIff(boot: nat, acts: seq<Action>)
    requires boot > 0
    ensures GapFree(Run(Start(boot), acts)) <==> Missless(Start(boot), acts)
  {
    hide Run, Missless;
    RunExact(boot, acts);
  }

  // ---------------------------------------------------------------- moments that can be told beforehand

  /**
   The ways to lose events, where they begin. A stream or poll asks for what follows an id that the ring
   buffer no longer reaches; it asks with no id after the view began and something happened since; or a
   stream that was opened with no id, and has had none, goes live behind polls that have set a last id.
   */
  predicate Risky(w: World, a: Action) {
    && Possible(w, a)
    && match a
       case Connect => if Asked(w) > 0 then w.newest - Asked(w) > 500 else ForgetsBegin(w)
       case PollServe(gen) =>
         var after := w.client.loops[gen].after;
         if after > 0 then w.newest - after > 500 else gen == w.client.pollGen && ForgetsBegin(w)
       case Hello => OpensBehind(w)
       case Event => OpensBehind(w)
       case _ => false
  }

  /** The client has seen signs of life but no id yet, and something happened since. */
  predicate ForgetsBegin(w: World) {
    w.begin.Some? && w.client.lastId == 0 && w.begin.value < w.newest
  }

  predicate OpensBehind(w: World) {
    && w.client.es.Some? && w.stream.Some? && !w.client.es.value.up
    && w.client.es.value.after == 0 && w.own == 0
    && 0 < w.client.lastId < w.stream.value
  }

  ghost predicate StreamFollows(w: World) {
    w.stream.Some? && w.client.es.Some? ==>
      && (w.own > 0 || w.client.es.value.after > 0 ==> w.stream.value <= w.client.lastId)
      && (w.client.es.value.up || (w.begin.Some? && w.client.lastId == 0) ==> w.stream.value <= Cursor(w))
  }

  ghost predicate RepliesFollow(w: World) {
    forall gen | gen in w.replies && gen in w.client.loops && w.client.loops[gen].Fetching? ::
      ReplyFollows(w, gen, w.replies[gen].from, w.client.loops[gen].after)
  }

  predicate ReplyFollows(w: World, gen: nat, from: nat, after: nat) {
    && (after > 0 ==> from == after)
    && (after == 0 && gen == w.client.pollGen && w.begin.Some? ==> from <= w.begin.value)
  }

  lemma StepStreamFollows(w: World, a: Action)
    requires Good(w) && Begun(w) && StreamFollows(w) && !Risky(w, a)
    ensures StreamFollows(Step(w, a))
  {
    hide Ids, DeliverAll, Known, LoopsInLog, NothingBefore, Fallback, StartSSE, Alive, OnError, OnPollAnswer, ReplayFrom;
    var c := w.client;
    if Possible(w, a) {
      match a
      case Broadcast =>
      case Connect => ReplayFits(w, Asked(w)); NewestFrom(w);
      case Hello => AliveIds(c);
      case Event => AliveIds(c);
      case Error(recent, closed) => ErrorIds(c, recent, closed);
      case OpenTimeout => FallbackIds(c.(openTimer := false));
      case StallTimeout => FallbackIds(c.(stallTimer := false));
      case RetryTimeout => StartIds(c.(retryTimer := false));
      case ProbeTimeout => StartIds(c.(probeTimer := false));
      case PollServe(gen) =>
      case PollAnswer(gen) => PollAnswerIds(w, gen);
      case PollFailure(gen) =>
      case Wake(gen) =>
    }
  }

  lemma NewestFrom(w: World)
    ensures ReplayFrom(w.boot, w.newest, 0) == w.newest
  {
  }

  lemma AnswerRepliesFollow(w: World, gen: nat)
    requires Good(w) && RepliesFollow(w) && Possible(w, PollAnswer(gen))
    ensures RepliesFollow(Step(w, PollAnswer(gen)))
  {
    PollAnswerIds(w, gen);
    hide Ids, Good, Events, OnPollAnswer;
  }

  lemma StepRepliesFollow(w: World, a: Action)
    requires Good(w) && Begun(w) && RepliesFollow(w) && !Risky(w, a)
    ensures RepliesFollow(Step(w, a))
  {
    hide Ids, DeliverAll, Events, Alert, NothingBefore, StreamFollows, Alive, OnPollAnswer, ReplayFrom;
    var c := w.client;
    if OnSource(a) {
      SourceStep(w, a);
      hide Step;
    } else if Possible(w, a) {
      match a
      case Broadcast =>
      case Event => AliveIds(c);
      case PollServe(gen) => ReplayFits(w, c.loops[gen].after); NewestFrom(w);
      case PollAnswer(gen) => AnswerRepliesFollow(w, gen);
      case PollFailure(gen) =>
      case Wake(gen) =>
    }
  }

  lemma FollowingMissesNothing(w: World, a: Action)
    requires Good(w) && Begun(w) && StreamFollows(w) && RepliesFollow(w) && !Risky(w, a)
    ensures !Misses(w, a)
  {
    hide Alert;
  }

  ghost predicate Careful(w: World, acts: seq<Action>) {
    forall i | 0 <= i < |acts| :: !Risky(Run(w, acts[..i]), acts[i])
  }

  lemma CarefulBefore(w: World, acts: seq<Action>, k: nat)
    requires Careful(w, acts) && k <= |acts|
    ensures Careful(w, acts[..k])
  {
    hide Risky, Run;
    assert forall i | 0 <= i < k :: acts[..k][..i] == acts[..i] && acts[..k][i] == acts[i];
  }

  lemma {:induction false} RunFollows(boot: nat, acts: seq<Action>)
    requires boot > 0 && Careful(Start(boot), acts)
    ensures StreamFollows(Run(Start(boot), acts)) && RepliesFollow(Run(Start(boot), acts))
  {
    if acts != [] {
      hide Step, Risky, Good, Begun, StreamFollows, RepliesFollow;
      var before := acts[..|acts| - 1];
      CarefulBefore(Start(boot), acts, |before|);
      RunFollows(boot, before);
      RunGood(boot, before);
      RunBegun(boot, before);
      StepStreamFollows(Run(Start(boot), before), acts[|acts| - 1]);
      StepRepliesFollow(Run(Start(boot), before), acts[|acts| - 1]);
    }
  }

  /**
   Through every interleaving of streams, drops, polls and probes without a risky moment, the events
   emitted are the log from where the client's view begins to its cursor: none missing, none twice.
   */
  lemma RunGapFree(boot: nat, acts: seq<Action>)
    requires boot > 0 && Careful(Start(boot), acts)
    ensures GapFree(Run(Start(boot), acts))
  {
    hide Run, Misses, Risky, Good, Begun, StreamFollows, RepliesFollow, GapFree, Careful;
    forall i | 0 <= i < |acts| ensures !Misses(Run(Start(boot), acts[..i]), acts[i]) {
      CarefulBefore(Start(boot), acts, i);
      RunFollows(boot, acts[..i]);
      RunGood(boot, acts[..i]);
      RunBegun(boot, acts[..i]);
      NotRiskyAt(Start(boot), acts, i);
      FollowingMissesNothing(Run(Start(boot), acts[..i]), acts[i]);
    }
    RunGapFreeIff(boot, acts);
  }

  lemma NotRiskyAt(w: World, acts: seq<Action>, i: nat)
    requires Careful(w, acts) && i < |acts|
    ensures !Risky(Run(w, acts[..i]), acts[i])
  {
  }

  // ---------------------------------------------------------------- runs that lose events

  function Bursts(w: World, n: nat): World {
    if n == 0 then w else Step(Bursts(w, n - 1), Broadcast)
  }

  lemma {:induction false} BurstsAre(w: World, n: nat)
    ensures Bursts(w, n) == w.(newest := w.newest + n)
  {
    if n > 0 {
      BurstsAre(w, n - 1);
    }
  }

  /** The stream has said hello on a quiet panel: live, with no id yet. */
  function Quiet(boot: nat): World {
    Step(Step(Start(boot), Connect), Hello)
  }

  lemma QuietIs(boot: nat)
    requires boot > 0
    ensures var w := Quiet(boot);
            && w.boot == w.newest == boot && w.begin == Some(boot) && w.stream == Some(boot) && w.own == 0
            && w.client.lastId == 0 && w.client.emitted == [] && w.client.pollGen == 1 && w.client.loops == map[]
            && w.client.es == Some(Source(0, true, false)) && w.client.mode == Sse && w.client.status == Live
            && w.client.stallTimer && w.client.errs == 0 && w.replies == map[]
  {
  }

  /** The stream stalls, `n` events happen, and the first poll is answered. */
  function StallAndPoll(w: World, n: nat): World {
    Step(Step(Bursts(Step(w, StallTimeout), n), PollServe(2)), PollAnswer(2))
  }

  /** A poll without an id skips what happened since the hello: nothing is lost only if nothing happened. */
  lemma StallLosesEvents(boot: nat, n: nat)
    requires boot > 0
    ensures var w := StallAndPoll(Quiet(boot), n);
            && w.begin == Some(boot) && w.client.lastId == boot + n && w.client.emitted == []
            && (GapFree(w) <==> n == 0)
  {
    hide Quiet;
    QuietIs(boot);
    var s := Step(Quiet(boot), StallTimeout);
    assert s.client.loops == map[2 := Fetching(0)] && s.client.pollGen == 2 && s.client.lastId == 0;
    BurstsAre(s, n);
    hide Bursts;
    var b := Bursts(s, n);
    var p := Step(b, PollServe(2));
    assert p.replies == map[2 := Reply(boot + n, boot + n)];
    NoIds(boot + n);
    var w := Step(p, PollAnswer(2));
    assert w.client.emitted == [] && w.client.lastId == boot + n;
    NoIds(boot);
  }

  /** The stream drops, `n` events happen, the browser reconnects, and one more happens and is received. */
  function DropAndReconnect(w: World, n: nat): World {
    Step(Step(Step(Bursts(Step(w, Error(0, false)), n), Connect), Broadcast), Event)
  }

  /** With no event received before, the browser reconnects without an id: the same. */
  lemma DropLosesEvents(boot: nat, n: nat)
    requires boot > 0
    ensures var w := DropAndReconnect(Quiet(boot), n);
            && w.begin == Some(boot) && w.client.emitted == [boot + n + 1]
            && (GapFree(w) <==> n == 0)
  {
    hide Quiet;
    QuietIs(boot);
    var e := Step(Quiet(boot), Error(0, false));
    assert e.client.es == Some(Source(0, false, false)) && e.stream == None && e.own == 0;
    BurstsAre(e, n);
    hide Bursts;
    var c := Step(Bursts(e, n), Connect);
    assert c.stream == Some(boot + n);
    var w := Step(Step(c, Broadcast), Event);
    assert w.client.emitted == [boot + n + 1] && w.client.lastId == boot + n + 1;
    if n == 0 {
      assert Ids(boot, boot + 1) == [boot + 1];
    }
  }

  /** The first event has been received on the stream. */
  function FirstReceived(boot: nat): World {
    Step(Step(Quiet(boot), Broadcast), Event)
  }

  lemma FirstReceivedIs(boot: nat)
    requires boot > 0
    ensures var w := FirstReceived(boot);
            && w.boot == boot && w.begin == Some(boot) && w.newest == w.client.lastId == w.own == boot + 1
            && w.client.emitted == [boot + 1] && w.stream == Some(boot + 1) && w.client.errs == 0
            && w.client.es == Some(Source(0, true, false)) && w.client.mode == Sse
  {
    hide Quiet;
    QuietIs(boot);
  }

  /** The stream drops after its first event, `n` events happen, the browser reconnects and receives the next. */
  function Overflow(w: World, n: nat): World {
    Step(Step(Bursts(Step(w, Error(0, false)), n), Connect), Event)
  }

  /** With an id to reconnect from, events are lost exactly when more than 500 happened. */
  lemma OverflowLosesEvents(boot: nat, n: nat)
    requires boot > 0 && n > 0
    ensures var w := Overflow(FirstReceived(boot), n);
            && w.client.emitted == [boot + 1, w.client.lastId]
            && w.client.lastId == boot + 2 + (if n <= 500 then 0 else n - 500)
            && (GapFree(w) <==> n <= 500)
  {
    hide FirstReceived;
    FirstReceivedIs(boot);
    var e := Step(FirstReceived(boot), Error(0, false));
    BurstsAre(e, n);
    hide Bursts;
    var b := Bursts(e, n);
    assert b.client.es == Some(Source(0, false, false)) && b.stream == None && b.own == boot + 1;
    var c := Step(b, Connect);
    assert c.stream == Some(ReplayFrom(boot, boot + 1 + n, boot + 1));
    var w := Step(c, Event);
    assert w.client.emitted == [boot + 1] + [c.stream.value + 1] && w.begin == Some(boot);
    if n <= 500 {
      assert Ids(boot, boot + 2) == [boot + 1, boot + 2];
    }
  }

  /** Streaming never opens, so the client polls; it probes before any poll has answered. */
  function RaceStart(boot: nat): World {
    Step(Step(Start(boot), OpenTimeout), ProbeTimeout)
  }

  /** A poll is answered, an event happens, the probe's stream opens, and only then the answer arrives. */
  function RaceMiddle(w: World): World {
    Step(Step(Step(Step(w, PollServe(1)), Broadcast), Connect), PollAnswer(1))
  }

  lemma RaceStarts(boot: nat)
    requires boot > 0
    ensures var w := RaceStart(boot);
            && w.client.mode == Poll && w.client.pollGen == 1 && w.client.loops == map[1 := Fetching(0)]
            && w.client.lastId == 0 && w.client.emitted == [] && w.client.status == Connecting
            && w.client.es == Some(Source(0, false, false)) && w.stream == None && w.own == 0
            && w.boot == w.newest == boot && w.replies == map[] && w.begin == None
  {
  }

  lemma RaceMeets(w: World)
    requires w.client.mode == Poll && w.client.pollGen == 1 && w.client.loops == map[1 := Fetching(0)]
    requires w.client.lastId == 0 && w.client.emitted == [] && w.client.status == Connecting
    requires w.client.es == Some(Source(0, false, false)) && w.stream == None && w.own == 0
    requires 0 < w.boot == w.newest && w.replies == map[] && w.begin == None
    ensures var m := RaceMiddle(w);
            && m.begin == Some(w.boot) && m.client.lastId == w.boot && m.client.emitted == [] && m.client.es == w.client.es
            && m.stream == Some(w.boot + 1) && m.newest == w.boot + 1 && m.own == 0
  {
    var b := Step(Step(w, PollServe(1)), Broadcast);
    assert b.replies == map[1 := Reply(w.boot, w.boot)] && b.newest == w.boot + 1;
    assert Step(b, Connect).stream == Some(w.boot + 1);
    assert Events(Reply(w.boot, w.boot)) == [];
  }

  /**
   A stream opened with no id while the first poll is under way takes over, and the event between the
   poll's answer and the stream's opening is never emitted.
   */
  lemma RaceLosesAnEvent(boot: nat)
    requires boot > 0
    ensures var m := RaceMiddle(RaceStart(boot));
            var w := Step(Step(Step(m, Hello), Broadcast), Event);
            && Risky(m, Hello)
            && w.begin == Some(boot) && w.newest == boot + 2 && w.client.emitted == [boot + 2] && !GapFree(w)
  {
    hide RaceStart, RaceMiddle;
    RaceStarts(boot);
    RaceMeets(RaceStart(boot));
  }
}

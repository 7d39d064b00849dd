/** What the live-event client emits, over every run against the server's event bus. */
module EventLog {
  import opened Basics
  import opened EventClientState
  import opened EventWorld

  ghost predicate Increasing(c: Client) {
    && (forall i, j | 0 <= i < j < |c.emitted| :: c.emitted[i] < c.emitted[j])
    && (c.emitted != [] ==> c.emitted[|c.emitted| - 1] <= c.lastId)
  }

  lemma {:induction false} DeliverIds(c: Client, a: nat, b: nat)
    requires a <= b && c.lastId <= a
    ensures var d := DeliverAll(c, Ids(a, b));
            d == c.(lastId := if a < b then b else c.lastId, emitted := c.emitted + Ids(a, b))
    decreases b - a
  {
    if a == b {
      assert c.emitted + Ids(a, b) == c.emitted;
    } else {
      var ns := Ids(a, b);
      assert ns[1..] == Ids(a + 1, b);
      var d := Deliver(c, ns[0]);
      DeliverIds(d, a + 1, b);
      assert c.emitted + Ids(a, b) == c.emitted + [a + 1] + Ids(a + 1, b);
    }
  }

  // ---------------------------------------------------------------- ids stay in step

  lemma AliveIds(c: Client)
    ensures var d := Alive(c);
            && d.lastId == c.lastId && d.emitted == c.emitted && d.loops == c.loops
            && (d.es.Some? <==> c.es.Some?) && (c.es.Some? ==> d.es.value.after == c.es.value.after && d.es.value.up)
            && (c.es.Some? && c.es.value.up ==> d.pollGen == c.pollGen && d.mode == c.mode)
            && (c.es.Some? && !c.es.value.up ==> d.pollGen == c.pollGen + 1)
  {
  }

  /** The loops are as they were, or a new generation has begun with one that asks for what follows the last id. */
  ghost predicate SameOrNewLoop(c: Client, d: Client) {
    if d.pollGen == c.pollGen then d.loops == c.loops
    else d.pollGen == c.pollGen + 1 && d.loops == c.loops[d.pollGen := Fetching(c.lastId)]
  }

  /** Handlers that start or give up a source keep the ids; a new source asks for the last one. */
  lemma FallbackIds(c: Client)
    ensures var d := Fallback(c);
            && d.lastId == c.lastId && d.emitted == c.emitted && d.es == None
            && SameOrNewLoop(c, d)
  {
  }

  lemma StartIds(c: Client)
    ensures var d := StartSSE(c);
            && d.lastId == c.lastId && d.emitted == c.emitted && d.es == Some(Source(c.lastId, false, false))
            && d.pollGen == c.pollGen && d.loops == c.loops
  {
  }

  lemma ErrorIds(c: Client, recent: nat, closed: bool)
    ensures var d := OnError(c, recent, closed);
            && d.lastId == c.lastId && d.emitted == c.emitted
            && (d.es.Some? ==> c.es.Some? && d.es.value.after == c.es.value.after && !d.es.value.up)
            && SameOrNewLoop(c, d)
  {
    hide Fallback;
    if c.es.Some? {
      var src := c.es.value;
      var e := c.(errs := recent + 1, es := Some(Source(src.after, false, closed)));
      var d := if src.up then
                 e.(stallTimer := false, status := if c.mode.Sse? then Connecting else c.status, openTimer := true)
               else e;
      FallbackIds(d);
    }
  }

  /** Nothing but the client's own loops, and no reply in transit, knows a generation that has not begun. */
  ghost predicate Known(w: World) {
    && (forall gen | gen in w.client.loops :: gen <= w.client.pollGen)
    && (forall gen | gen in w.replies :: gen in w.client.loops && w.client.loops[gen].Fetching?)
  }

  /** Ids stay within the log, and the current loop asks for what comes after the client's last id. */
  ghost predicate InLog(w: World) {
    && 0 < w.boot <= w.newest
    && (w.client.lastId > 0 ==> w.boot <= w.client.lastId <= w.newest)
    && (w.client.es.Some? ==> w.client.es.value.after <= w.client.lastId)
    && (w.client.es.Some? && w.client.es.value.after > 0 ==> w.boot <= w.client.es.value.after)
    && (w.own > 0 ==> w.boot <= w.own <= w.client.lastId)
    && (w.stream.Some? ==> w.boot <= w.stream.value <= w.newest)
  }

  /** The current loop asks for what follows the last id. */
  ghost predicate CurrentAsks(w: World) {
    w.client.pollGen in w.client.loops && w.client.loops[w.client.pollGen].Fetching? ==>
      w.client.loops[w.client.pollGen].after == w.client.lastId
  }

  ghost predicate AllAsk(w: World) {
    forall gen | gen in w.client.loops && w.client.loops[gen].Fetching? :: IdFits(w, w.client.loops[gen].after)
  }

  ghost predicate RepliesFit(w: World) {
    forall gen | gen in w.replies && gen in w.client.loops && w.client.loops[gen].Fetching? ::
      ReplyFits(w, w.replies[gen], w.client.loops[gen].after)
  }

  ghost predicate LoopsInLog(w: World) {
    CurrentAsks(w) && AllAsk(w) && RepliesFit(w)
  }

  ghost predicate IdFits(w: World, id: nat) {
    id == 0 || w.boot <= id <= w.newest
  }

  ghost predicate ReplyFits(w: World, r: Reply, after: nat) {
    after <= r.from <= r.last && w.boot <= r.last <= w.newest && (after == 0 ==> r.from == r.last)
  }

  ghost predicate Good(w: World) {
    Alert(w.client) && Wired(w) && Known(w) && InLog(w) && LoopsInLog(w)
  }

  lemma ReplayFits(w: World, id: nat)
    requires 0 < w.boot <= w.newest && IdFits(w, id)
    ensures var from := ReplayFrom(w.boot, w.newest, id);
            && ReplyFits(w, Reply(from, w.newest), id)
            && w.boot <= from
            && (id > 0 && w.newest - id <= 500 ==> from == id)
  {
  }

  lemma PollAnswerIds(w: World, gen: nat)
    requires Good(w) && Possible(w, PollAnswer(gen))
    ensures var c, r := w.client, w.replies[gen];
            var d := OnPollAnswer(c, gen, Events(r), r.last);
            && d.pollGen == c.pollGen && d.es == c.es && w.boot <= r.last <= w.newest
            && (gen != c.pollGen ==> d.lastId == c.lastId && d.emitted == c.emitted && d.loops == c.loops - {gen})
            && (gen == c.pollGen ==>
                  && c.lastId <= r.from <= r.last
                  && d.lastId == r.last && d.emitted == c.emitted + Ids(r.from, r.last)
                  && d.loops == c.loops[gen := Fetching(r.last)])
  {
    var c, r := w.client, w.replies[gen];
    if gen == c.pollGen {
      var p := c.(probeTimer := c.probeTimer || c.status.Offline?, status := Polling);
      DeliverIds(p, r.from, r.last);
    }
  }

  predicate OnSource(a: Action) {
    a.Connect? || a.Hello? || a.Error? || a.OpenTimeout? || a.StallTimeout? || a.RetryTimeout? || a.ProbeTimeout?
  }

  /** What happens to a source leaves the replies alone, and the loops but for one that may be started. */
  lemma SourceStep(w: World, a: Action)
    requires OnSource(a)
    ensures var c, n := w.client, Step(w, a);
            && n.boot == w.boot && n.newest == w.newest && n.replies == w.replies && n.client.lastId == c.lastId
            && (n.begin == w.begin || (w.begin.None? && c.es.Some?))
            && c.pollGen <= n.client.pollGen
            && (n.client.loops == c.loops ||
                (n.client.pollGen == c.pollGen + 1 && n.client.loops == c.loops[n.client.pollGen := Fetching(c.lastId)]))
            && (n.begin != w.begin && !c.es.value.up ==> n.client.pollGen == c.pollGen + 1)
  {
    hide Fallback, StartSSE, Alive, OnError, ReplayFrom;
    var c := w.client;
    if Possible(w, a) {
      match a
      case Connect =>
      case Hello => AliveIds(c);
      case Error(recent, closed) => ErrorIds(c, recent, closed);
      case OpenTimeout => FallbackIds(c.(openTimer := false));
      case StallTimeout => FallbackIds(c.(stallTimer := false));
      case RetryTimeout => StartIds(c.(retryTimer := false));
      case ProbeTimeout => StartIds(c.(probeTimer := false));
    }
  }

  lemma StepKnown(w: World, a: Action)
    requires Good(w) && Known(w)
    ensures Known(Step(w, a))
  {
    hide Ids, DeliverAll, Good, Events, Alert, InLog, LoopsInLog, Alive, OnPollAnswer, ReplayFrom;
    var c := w.client;
    if OnSource(a) {
      SourceStep(w, a);
      hide Step;
    } else if Possible(w, a) {
      match a
      case Broadcast =>
      case Event => AliveIds(c);
      case PollServe(gen) =>
      case PollAnswer(gen) => PollAnswerIds(w, gen);
      case PollFailure(gen) =>
      case Wake(gen) =>
    }
  }

  lemma SourceInLog(w: World, a: Action)
    requires InLog(w) && OnSource(a) && Possible(w, a)
    ensures InLog(Step(w, a))
  {
    hide Fallback, StartSSE, Alive, OnError, ReplayFrom;
    var c := w.client;
    match a
    case Connect => ReplayFits(w, Asked(w));
    case Hello => AliveIds(c);
    case Error(recent, closed) => ErrorIds(c, recent, closed);
    case OpenTimeout => FallbackIds(c.(openTimer := false));
    case StallTimeout => FallbackIds(c.(stallTimer := false));
    case RetryTimeout => StartIds(c.(retryTimer := false));
    case ProbeTimeout => StartIds(c.(probeTimer := false));
  }

  lemma StepInLog(w: World, a: Action)
    requires Good(w) && InLog(w) && Wired(w)
    ensures InLog(Step(w, a))
  {
    hide Ids, DeliverAll, Good, Events, Alert, Known, Alive, OnPollAnswer, ReplayFrom;
    if OnSource(a) && Possible(w, a) {
      SourceInLog(w, a);
    } else if Possible(w, a) {
      match a
      case Broadcast =>
      case Event => AliveIds(w.client);
      case PollServe(gen) =>
      case PollAnswer(gen) => PollAnswerIds(w, gen);
      case PollFailure(gen) =>
      case Wake(gen) =>
    }
  }

  lemma StepCurrentAsks(w: World, a: Action)
    requires Good(w)
    ensures CurrentAsks(Step(w, a))
  {
    hide AllAsk, RepliesFit, InLog, Fallback, StartSSE, Alive, OnError, OnPollAnswer, ReplayFrom;
    var c := w.client;
    if Possible(w, a) {
      match a
      case Broadcast =>
      case Connect =>
      case Hello => AliveIds(c);
      case Event => AliveIds(c);
      case Error(recent, closed) => ErrorIds(c, recent, closed);
      case OpenTimeout => FallbackIds(c.(openTimer := false));
      case StallTimeout => FallbackIds(c.(stallTimer := false));
      case RetryTimeout => StartIds(c.(retryTimer := false));
      case ProbeTimeout => StartIds(c.(probeTimer := false));
      case PollServe(gen) =>
      case PollAnswer(gen) => PollAnswerIds(w, gen);
      case PollFailure(gen) =>
      case Wake(gen) =>
    }
  }

  lemma AnswerAllAsk(w: World, gen: nat)
    requires Good(w) && Possible(w, PollAnswer(gen))
    ensures AllAsk(Step(w, PollAnswer(gen)))
  {
    PollAnswerIds(w, gen);
    hide Ids, Events, OnPollAnswer, CurrentAsks, RepliesFit, Alert, Known;
  }

  lemma StepAllAsk(w: World, a: Action)
    requires Good(w) && AllAsk(w) && InLog(w)
    ensures AllAsk(Step(w, a))
  {
    hide Ids, DeliverAll, Good, Events, CurrentAsks, RepliesFit, Alert, Known, Alive, OnPollAnswer, ReplayFrom;
    var c := w.client;
    if OnSource(a) {
      SourceStep(w, a);
      hide Step;
    } else if Possible(w, a) {
      match a
      case Broadcast =>
      case Event => AliveIds(c);
      case PollServe(gen) =>
      case PollAnswer(gen) => AnswerAllAsk(w, gen);
      case PollFailure(gen) =>
      case Wake(gen) =>
    }
  }

  lemma StepRepliesFit(w: World, a: Action)
    requires Good(w) && RepliesFit(w) && Known(w) && AllAsk(w) && InLog(w)
    ensures RepliesFit(Step(w, a))
  {
    hide Ids, DeliverAll, Good, Events, CurrentAsks, Alert, Alive, OnPollAnswer, ReplayFrom;
    var c := w.client;
    if OnSource(a) {
      SourceStep(w, a);
      hide Step;
    } else if Possible(w, a) {
      match a
      case Broadcast =>
      case Event => AliveIds(c);
      case PollServe(gen) => ReplayFits(w, c.loops[gen].after);
      case PollAnswer(gen) => PollAnswerIds(w, gen);
      case PollFailure(gen) =>
      case Wake(gen) =>
    }
  }

  lemma StepGood(w: World, a: Action)
    requires Good(w)
    ensures Good(Step(w, a))
  {
    hide Step;
    StepAlert(w, a);
    StepKnown(w, a);
    StepInLog(w, a);
    StepCurrentAsks(w, a);
    StepAllAsk(w, a);
    StepRepliesFit(w, a);
  }

  lemma {:induction false} RunGood(boot: nat, acts: seq<Action>)
    requires boot > 0
    ensures Good(Run(Start(boot), acts))
  {
    if acts != [] {
      RunGood(boot, acts[..|acts| - 1]);
      StepGood(Run(Start(boot), acts[..|acts| - 1]), acts[|acts| - 1]);
    }
  }

  // ---------------------------------------------------------------- never an event twice

  lemma DeliverIncreasing(c: Client, n: nat)
    requires Increasing(c)
    ensures Increasing(Deliver(c, n))
  {
  }

  /** Every handler but an event's and a poll answer's leaves the ids alone. */
  lemma QuietIds(w: World, a: Action)
    requires Possible(w, a) ==> !a.Event? && !a.PollAnswer?
    ensures var n := Step(w, a);
            && n.client.lastId == w.client.lastId && n.client.emitted == w.client.emitted
            && (n.begin == w.begin || (a.Hello? && Possible(w, a) && w.begin.None? && n.begin == w.stream))
  {
    hide Fallback, StartSSE, Alive, OnError, OnPollAnswer, ReplayFrom, Deliver, Events;
    var c := w.client;
    if Possible(w, a) {
      match a
      case Hello => AliveIds(c);
      case Error(recent, closed) => ErrorIds(c, recent, closed);
      case OpenTimeout => FallbackIds(c.(openTimer := false));
      case StallTimeout => FallbackIds(c.(stallTimer := false));
      case RetryTimeout => StartIds(c.(retryTimer := false));
      case ProbeTimeout => StartIds(c.(probeTimer := false));
      case _ =>
    }
  }

  lemma EventIncreasing(w: World)
    requires Increasing(w.client) && Possible(w, Event)
    ensures Increasing(Step(w, Event).client)
  {
    hide Alive, Deliver;
    AliveIds(w.client);
    DeliverIncreasing(Alive(w.client), w.stream.value + 1);
  }

  lemma PollIncreasing(w: World, gen: nat)
    requires Good(w) && Increasing(w.client) && Possible(w, PollAnswer(gen))
    ensures Increasing(Step(w, PollAnswer(gen)).client)
  {
    hide Good, OnPollAnswer, Deliver, Events;
    PollAnswerIds(w, gen);
  }

  lemma StepIncreasing(w: World, a: Action)
    requires Good(w) && Increasing(w.client)
    ensures Increasing(Step(w, a).client)
  {
    hide Step, Good;
    if a.Event? && Possible(w, a) {
      EventIncreasing(w);
    } else if a.PollAnswer? && Possible(w, a) {
      PollIncreasing(w, a.gen);
    } else {
      QuietIds(w, a);
    }
  }

  /** Whatever drops, races or overflows, no event is ever emitted twice or out of order. */
  lemma {:induction false} NoDuplicates(boot: nat, acts: seq<Action>)
    requires boot > 0
    ensures Increasing(Run(Start(boot), acts).client)
  {
    if acts != [] {
      NoDuplicates(boot, acts[..|acts| - 1]);
      RunGood(boot, acts[..|acts| - 1]);
      StepIncreasing(Run(Start(boot), acts[..|acts| - 1]), acts[|acts| - 1]);
    }
  }
}

/**
 The live-event client against the server's event bus (panel/server.mjs, createEvents): consecutive ids
 from the boot time on, a ring buffer of recent events, event streams and long polls that replay from it.
 */
module EventWorld {
  import opened Basics
  import opened EventClientState

  const EVENT_BUFFER: nat := 500

  /** The answer to a poll in transit: the events after `from` up to `last`. */
  datatype Reply = Reply(from: nat, last: nat)

  /**
   `newest` is the id of the newest event, `boot` the id the server started from. `stream` is where the
   current source's stream has got to (None: not connected) and `own` the last id received on it, which
   the browser repeats when it reconnects. `begin` is how far the log had got at the client's first sign of
   life: a hello or an event on a stream, or the answer to a poll.
   */
  datatype World = World(boot: nat, newest: nat, client: Client, stream: Option<nat>, own: nat,
                         replies: map<nat, Reply>, begin: Option<nat>)

  datatype Action =
    | Broadcast
    | Connect
    | Hello
    | Event
    | Error(recent: nat, closed: bool)
    | OpenTimeout
    | StallTimeout
    | RetryTimeout
    | ProbeTimeout
    | PollServe(gen: nat)
    | PollAnswer(gen: nat)
    | PollFailure(gen: nat)
    | Wake(gen: nat)

  /** Where a replay of everything after `id` really starts: no earlier than the ring buffer reaches. */
  function ReplayFrom(boot: nat, newest: nat, id: nat): nat {
    if 0 < id <= newest then Max(id, Max(boot, newest - EVENT_BUFFER)) else newest
  }

  /** The id a connecting stream asks for: the source's own last one, else the one in its address. */
  function Asked(w: World): nat
    requires w.client.es.Some?
  {
    if w.own != 0 then w.own else w.client.es.value.after
  }

  predicate Possible(w: World, a: Action) {
    match a
    case Broadcast => true
    case Connect => w.client.es.Some? && !w.client.es.value.closed && w.stream.None?
    case Hello => w.client.es.Some? && w.stream.Some?
    case Event => w.client.es.Some? && w.stream.Some? && w.stream.value < w.newest
    case Error(recent, _) => w.client.es.Some? && !w.client.es.value.closed && recent <= w.client.errs
    case OpenTimeout => w.client.openTimer
    case StallTimeout => w.client.stallTimer
    case RetryTimeout => w.client.retryTimer
    case ProbeTimeout => w.client.probeTimer
    case PollServe(gen) => gen in w.client.loops && w.client.loops[gen].Fetching? && gen !in w.replies
    case PollAnswer(gen) => gen in w.client.loops && w.client.loops[gen].Fetching? && gen in w.replies
    case PollFailure(gen) => gen in w.client.loops && w.client.loops[gen].Fetching?
    case Wake(gen) => gen in w.client.loops && w.client.loops[gen].Sleeping?
  }

  /** The ids from `a` (not included) to `b`. */
  function Ids(a: int, b: nat): (s: seq<nat>)
    requires 0 <= a <= b
    ensures |s| == b - a && forall i | 0 <= i < |s| :: s[i] == a + 1 + i
  {
    seq(b - a, i requires 0 <= i => a + 1 + i)
  }

  function Events(r: Reply): seq<nat> {
    if r.from <= r.last then Ids(r.from, r.last) else []
  }

  /** The first sign of life, when the log had got to `at`. */
  function Begins(w: World, at: nat): World {
    if w.begin.None? then w.(begin := Some(at)) else w
  }

  /** A new source, or none, has no stream yet. */
  function NoStream(w: World): World {
    w.(stream := None, own := 0)
  }

  function Step(w: World, a: Action): World {
    if !Possible(w, a) then w
    else
      match a
      case Broadcast => w.(newest := w.newest + 1)
      case Connect => w.(stream := Some(ReplayFrom(w.boot, w.newest, Asked(w))))
      case Hello => Begins(w.(client := Alive(w.client)), w.stream.value)
      case Event =>
        var n := w.stream.value + 1;
        Begins(w.(client := Deliver(Alive(w.client), n)), w.stream.value).(stream := Some(n), own := n)
      case Error(recent, closed) =>
        var c := OnError(w.client, recent, closed);
        w.(client := c, stream := None, own := if c.es.None? then 0 else w.own)
      case OpenTimeout => NoStream(w.(client := OnOpenTimeout(w.client)))
      case StallTimeout => NoStream(w.(client := OnStallTimeout(w.client)))
      case RetryTimeout => NoStream(w.(client := OnRetryTimeout(w.client)))
      case ProbeTimeout =>
        var p := w.(client := OnProbeTimeout(w.client));
        if w.client.mode.Poll? then NoStream(p) else p
      case PollServe(gen) =>
        var after := w.client.loops[gen].after;
        w.(replies := w.replies[gen := Reply(ReplayFrom(w.boot, w.newest, after), w.newest)])
      case PollAnswer(gen) =>
        var r := w.replies[gen];
        var n := w.(client := OnPollAnswer(w.client, gen, Events(r), r.last), replies := w.replies - {gen});
        if gen == w.client.pollGen then Begins(n, r.last) else n
      case PollFailure(gen) => w.(client := OnPollFailure(w.client, gen), replies := w.replies - {gen})
      case Wake(gen) => w.(client := LoopAgain(w.client, gen))
  }

  function Start(boot: nat): World {
    World(boot, boot, StartSSE(Initial()), None, 0, map[], None)
  }

  function Run(w: World, acts: seq<Action>): World {
    if acts == [] then w else Step(Run(w, acts[..|acts| - 1]), acts[|acts| - 1])
  }

  // ---------------------------------------------------------------- never stuck

  /** The transport's shape: who is armed, and which poll loop is the current one. */
  ghost predicate Alert(c: Client) {
    && (c.mode.Poll? <==> c.pollGen in c.loops)
    && (forall gen | gen in c.loops :: gen <= c.pollGen)
    && (c.mode.Sse? ==> c.es.Some? && (c.openTimer || c.stallTimer || c.retryTimer))
    && (c.mode.Poll? ==> c.probeTimer || (c.es.Some? && c.openTimer))
    && (c.openTimer || c.stallTimer || c.retryTimer ==> c.es.Some?)
    && (c.es.Some? && c.es.value.up ==> c.mode.Sse? && c.status.Live? && c.stallTimer && !c.es.value.closed)
    && (c.es.Some? && !c.es.value.up ==> c.openTimer)
    && (c.es.Some? && c.es.value.closed ==> c.retryTimer)
  }

  /** Only a source the browser has not given up has a stream, and one that bytes arrived on has one. */
  ghost predicate Wired(w: World) {
    && (w.stream.Some? ==> w.client.es.Some? && !w.client.es.value.closed)
    && (w.client.es.Some? && w.client.es.value.up ==> w.stream.Some?)
  }

  lemma {:induction false} DeliverAllKeeps(c: Client, ns: seq<nat>)
    ensures var d := DeliverAll(c, ns); d == c.(lastId := d.lastId, emitted := d.emitted)
    decreases |ns|
  {
    if ns != [] {
      DeliverAllKeeps(Deliver(c, ns[0]), ns[1..]);
    }
  }

  /** Polling is on exactly when the loop of the current generation runs. */
  ghost predicate Looped(c: Client) {
    (c.mode.Poll? <==> c.pollGen in c.loops) && forall gen | gen in c.loops :: gen <= c.pollGen
  }

  lemma FallbackAlert(c: Client)
    requires Looped(c)
    ensures Alert(Fallback(c)) && Fallback(c).es == None
  {
  }

  lemma StartAlert(c: Client)
    requires Looped(c)
    ensures Alert(StartSSE(c)) && StartSSE(c).es == Some(Source(c.lastId, false, false))
  {
  }

  lemma AliveAlert(c: Client)
    requires Alert(c) && (c.es.Some? ==> !c.es.value.closed)
    ensures Alert(Alive(c))
  {
  }

  lemma ErrorAlert(c: Client, recent: nat, closed: bool)
    requires Alert(c) && (c.es.Some? ==> !c.es.value.closed)
    ensures Alert(OnError(c, recent, closed))
    ensures OnError(c, recent, closed).es.Some? ==> !OnError(c, recent, closed).es.value.up
  {
    if c.es.Some? {
      var src := c.es.value;
      var e := c.(errs := recent + 1, es := Some(Source(src.after, false, closed)));
      var d := if src.up then
                 e.(stallTimer := false, status := if c.mode.Sse? then Connecting else c.status, openTimer := true)
               else e;
      FallbackAlert(d);
    }
  }

  lemma PollAlert(c: Client, gen: nat, events: seq<nat>, last: nat)
    requires Alert(c) && gen in c.loops
    ensures Alert(OnPollAnswer(c, gen, events, last)) && OnPollAnswer(c, gen, events, last).es == c.es
    ensures Alert(OnPollFailure(c, gen)) && OnPollFailure(c, gen).es == c.es
    ensures Alert(LoopAgain(c, gen)) && LoopAgain(c, gen).es == c.es
  {
    DeliverAllKeeps(c.(probeTimer := c.probeTimer || c.status.Offline?, status := Polling), events);
  }

  lemma StepAlert(w: World, a: Action)
    requires Alert(w.client) && Wired(w)
    ensures Alert(Step(w, a).client) && Wired(Step(w, a))
  {
    hide Fallback, StartSSE, OnPollAnswer, OnPollFailure, LoopAgain;
    var c := w.client;
    if Possible(w, a) {
      match a
      case Broadcast =>
      case Connect =>
      case Hello => AliveAlert(c);
      case Event => AliveAlert(c);
      case Error(recent, closed) => ErrorAlert(c, recent, closed);
      case OpenTimeout => FallbackAlert(c.(openTimer := false));
      case StallTimeout => FallbackAlert(c.(stallTimer := false));
      case RetryTimeout => StartAlert(c.(retryTimer := false));
      case ProbeTimeout => StartAlert(c.(probeTimer := false));
      case PollServe(gen) =>
      case PollAnswer(gen) => PollAlert(c, gen, Events(w.replies[gen]), w.replies[gen].last);
      case PollFailure(gen) => PollAlert(c, gen, [], 0);
      case Wake(gen) => PollAlert(c, gen, [], 0);
    }
  }

  /**
   In every reachable state the transport is waiting for something that will come: polling is on
   exactly when the loop of the current generation runs, with a probe or an open attempt pending, and
   with streaming on, an open, stall or retry timer is armed.
   */
  lemma {:induction false} RunAlert(boot: nat, acts: seq<Action>)
    ensures Alert(Run(Start(boot), acts).client) && Wired(Run(Start(boot), acts))
  {
    if acts != [] {
      RunAlert(boot, acts[..|acts| - 1]);
      StepAlert(Run(Start(boot), acts[..|acts| - 1]), acts[|acts| - 1]);
    }
  }

  /**
   From every reachable state at most three things that may happen next bring the stream live again:
   the timer that is armed, the server taking the stream, and its first bytes.
   */
  lemma RecoversToLive(w: World)
    requires Alert(w.client) && Wired(w)
    ensures exists acts :: |acts| <= 3 && Run(w, acts).client.status == Live && Run(w, acts).client.mode == Sse
  {
    var c := w.client;
    var acts := if w.stream.Some? then [Hello]
                else if c.es.Some? && !c.es.value.closed then [Connect, Hello]
                else if c.es.Some? then [RetryTimeout, Connect, Hello]
                else [ProbeTimeout, Connect, Hello];
    RunThree(w, acts);
    LiveAfter(w);
    assert Run(w, acts).client.status == Live;
  }

  lemma LiveAfter(w: World)
    requires Alert(w.client) && Wired(w)
    ensures w.stream.Some? ==> LiveNow(Step(w, Hello))
    ensures w.stream.None? && w.client.es.Some? && !w.client.es.value.closed ==> LiveNow(Step(Step(w, Connect), Hello))
    ensures w.client.es.Some? && w.client.es.value.closed ==> LiveNow(Step(Step(Step(w, RetryTimeout), Connect), Hello))
    ensures w.client.es.None? ==> LiveNow(Step(Step(Step(w, ProbeTimeout), Connect), Hello))
  {
  }

  ghost predicate LiveNow(w: World) {
    w.client.status == Live && w.client.mode == Sse
  }

  lemma RunThree(w: World, acts: seq<Action>)
    requires 1 <= |acts| <= 3
    ensures |acts| == 1 ==> Run(w, acts) == Step(w, acts[0])
    ensures |acts| == 2 ==> Run(w, acts) == Step(Step(w, acts[0]), acts[1])
    ensures |acts| == 3 ==> Run(w, acts) == Step(Step(Step(w, acts[0]), acts[1]), acts[2])
  {
    hide Step;
    if |acts| == 2 {
      assert acts[..1] == [acts[0]];
    }
    if |acts| == 3 {
      assert acts[..2] == [acts[0], acts[1]] && [acts[0], acts[1]][..1] == [acts[0]];
    }
  }
}

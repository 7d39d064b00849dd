/**
 The live-event client as a value (panel/public/assets/events.js): the module variables, and what each
 handler does to them. A timer is armed or not; a poll loop is named by the generation it was started with.
 */
module EventClientState {
  import opened Basics

  datatype Mode = Sse | Poll
  datatype Status = Connecting | Live | Polling | Offline

  /** The current EventSource: the id it was opened with (0: none), and whether bytes have really arrived. */
  datatype Source = Source(after: nat, up: bool, closed: bool)

  /** Where a poll loop is: waiting for the answer to its request, or sleeping after a failure. */
  datatype Phase = Fetching(after: nat) | Sleeping

  datatype Client = Client(
    mode: Mode, status: Status, es: Option<Source>, lastId: nat,
    openTimer: bool, stallTimer: bool, retryTimer: bool, probeTimer: bool,
    errs: nat, pollGen: nat, loops: map<nat, Phase>, emitted: seq<nat>)

  const ERRORS_TO_FALL_BACK: nat := 3

  function Initial(): Client {
    Client(Sse, Connecting, None, 0, false, false, false, false, 0, 0, map[], [])
  }

  /** An event is emitted, and its id remembered, only if it is past the last id; 0 stands for no id. */
  function Deliver(c: Client, n: nat): Client {
    if n == 0 || n <= c.lastId then c else c.(lastId := n, emitted := c.emitted + [n])
  }

  function DeliverAll(c: Client, ns: seq<nat>): Client
    decreases |ns|
  {
    if ns == [] then c else DeliverAll(Deliver(c, ns[0]), ns[1..])
  }

  function CloseSSE(c: Client): Client {
    c.(openTimer := false, stallTimer := false, retryTimer := false, es := None)
  }

  function StartSSE(c: Client): Client {
    CloseSSE(c).(probeTimer := false, es := Some(Source(c.lastId, false, false)), openTimer := true)
  }

  function StopPolling(c: Client): Client {
    c.(pollGen := c.pollGen + 1)
  }

  function StartPolling(c: Client): Client {
    var s := StopPolling(c);
    s.(loops := s.loops[s.pollGen := Fetching(s.lastId)])
  }

  function Fallback(c: Client): Client {
    var d := CloseSSE(c).(errs := 0);
    var p := if d.mode.Poll? then d else StartPolling(d.(mode := Poll));
    p.(probeTimer := true)
  }

  /** Something arrived on the current source. */
  function Alive(c: Client): Client {
    if c.es.None? then c
    else
      var s := c.(stallTimer := true);
      if c.es.value.up then s
      else StopPolling(s.(es := Some(c.es.value.(up := true)), openTimer := false)).(mode := Sse, status := Live)
  }

  /** The source reported an error; `recent` earlier errors fall in the last minute. */
  function OnError(c: Client, recent: nat, closed: bool): Client {
    if c.es.None? then c
    else
      var src := c.es.value;
      var e := c.(errs := recent + 1, es := Some(Source(src.after, false, closed)));
      var d := if src.up then
                 e.(stallTimer := false, status := if c.mode.Sse? then Connecting else c.status, openTimer := true)
               else e;
      if d.errs >= ERRORS_TO_FALL_BACK then Fallback(d)
      else if closed then
        if d.mode.Poll? then Fallback(d) else d.(retryTimer := true)
      else d
  }

  function OnOpenTimeout(c: Client): Client {
    var d := c.(openTimer := false);
    if d.es.Some? then Fallback(d) else d
  }

  function OnStallTimeout(c: Client): Client {
    var d := c.(stallTimer := false);
    if d.es.Some? then Fallback(d) else d
  }

  function OnRetryTimeout(c: Client): Client {
    var d := c.(retryTimer := false);
    if d.es.Some? then StartSSE(d) else d
  }

  function OnProbeTimeout(c: Client): Client {
    var d := c.(probeTimer := false);
    if d.mode.Poll? then StartSSE(d) else d
  }

  function LoopEnds(c: Client, gen: nat): Client {
    c.(loops := c.loops - {gen})
  }

  /** The loop goes round: its guard, then the next request. */
  function LoopAgain(c: Client, gen: nat): Client {
    if gen == c.pollGen then c.(loops := c.loops[gen := Fetching(c.lastId)]) else LoopEnds(c, gen)
  }

  /** A good answer: `events` and the server's latest id `last`. */
  function OnPollAnswer(c: Client, gen: nat, events: seq<nat>, last: nat): Client {
    if gen != c.pollGen then LoopEnds(c, gen)
    else
      var p := c.(probeTimer := c.probeTimer || c.status.Offline?, status := Polling);
      var d := DeliverAll(p, events);
      LoopAgain(if last != 0 then d.(lastId := last) else d, gen)
  }

  function OnPollFailure(c: Client, gen: nat): Client {
    if gen != c.pollGen then LoopEnds(c, gen)
    else c.(status := Offline, loops := c.loops[gen := Sleeping])
  }
}

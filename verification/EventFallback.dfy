/**
 When the live-event client gives a stream up for polling, when it comes back, and what each thing that
 can happen to it leaves armed and running, in every reachable state.
 */
module EventFallback {
  import opened Basics
  import opened EventClientState
  import opened EventWorld

  /** From `c` the stream was given up: nothing of it is left, a poll loop runs, and the probe will try a stream again. */
  ghost predicate GivenUp(c: Client, d: Client) {
    && d.es == None && !d.openTimer && !d.stallTimer && !d.retryTimer && d.probeTimer && d.errs == 0
    && d.mode == Poll && d.pollGen in d.loops && d.status == c.status && d.lastId == c.lastId && d.emitted == c.emitted
    && (if c.mode == Poll then d.pollGen == c.pollGen && d.loops == c.loops
        else d.pollGen == c.pollGen + 1 && d.loops == c.loops[c.pollGen + 1 := Fetching(c.lastId)])
  }

  /** The poll loops and what was emitted are as before. */
  ghost predicate SamePolling(c: Client, d: Client) {
    d.mode == c.mode && d.pollGen == c.pollGen && d.loops == c.loops && d.lastId == c.lastId && d.emitted == c.emitted
  }

  lemma FallbackGivesUp(c: Client)
    requires Looped(c)
    ensures GivenUp(c, Fallback(c))
  {
  }

  /** What an error leaves: the stream given up, or kept, not up, with the error counted. */
  ghost predicate Erred(c: Client, recent: nat, closed: bool, d: Client)
    requires c.es.Some?
  {
    && (d.es == None <==> recent >= 2 || (closed && c.mode == Poll))
    && (d.es == None ==> GivenUp(c.(status := d.status), d))
    && (d.es != None ==>
          && d.es == Some(Source(c.es.value.after, false, closed)) && d.errs == recent + 1
          && SamePolling(c, d) && d.openTimer && (closed ==> d.retryTimer) && d.probeTimer == c.probeTimer)
    && d.status == (if c.es.value.up then Connecting else c.status)
    && (c.es.value.up ==> !d.stallTimer)
  }

  lemma ErrorDecides(c: Client, recent: nat, closed: bool)
    requires Alert(c) && c.es.Some? && !c.es.value.closed
    ensures Erred(c, recent, closed, OnError(c, recent, closed)) && Alert(OnError(c, recent, closed))
  {
    hide Fallback;
    var src := c.es.value;
    var e := c.(errs := recent + 1, es := Some(Source(src.after, false, closed)));
    var d := if src.up then e.(stallTimer := false, status := Connecting, openTimer := true) else e;
    FallbackGivesUp(d);
    FallbackAlert(d);
  }

  /**
   An error gives the stream up exactly when it is the third within a minute, or when the browser has closed
   the source while the client polls. Otherwise the source stays, not up, and the error is counted; one the
   browser has closed is opened again by the retry timer.
   */
  lemma ErrorOutcome(w: World, recent: nat, closed: bool)
    requires Alert(w.client) && Possible(w, Error(recent, closed))
    ensures Erred(w.client, recent, closed, Step(w, Error(recent, closed)).client)
    ensures Alert(Step(w, Error(recent, closed)).client)
  {
    hide OnError, Erred, Alert;
    ErrorDecides(w.client, recent, closed);
  }

  /** A stream that does not open, or falls silent, is given up. */
  lemma TimeoutOutcome(w: World)
    requires Alert(w.client)
    ensures w.client.openTimer ==> GivenUp(w.client, Step(w, OpenTimeout).client)
    ensures w.client.stallTimer ==> GivenUp(w.client, Step(w, StallTimeout).client)
  {
    hide Fallback;
    FallbackGivesUp(w.client.(openTimer := false));
    FallbackGivesUp(w.client.(stallTimer := false));
  }

  /** A new stream asks for what follows the last id, with time to open, and replaces timers and probe. */
  ghost predicate Opening(c: Client, d: Client) {
    && d.es == Some(Source(c.lastId, false, false)) && d.openTimer && !d.stallTimer && !d.retryTimer && !d.probeTimer
    && d.errs == c.errs && d.status == c.status && SamePolling(c, d)
  }

  /** The retry timer opens a stream; the probe does so only while polling. */
  lemma ReopenOutcome(w: World)
    requires Alert(w.client)
    ensures w.client.retryTimer ==> Opening(w.client, Step(w, RetryTimeout).client)
    ensures w.client.probeTimer ==> var d := Step(w, ProbeTimeout).client;
                                    if w.client.mode == Poll then Opening(w.client, d) else d == w.client.(probeTimer := false)
  {
  }

  /** A sign of life makes the stream live and ends polling: the running poll loop is of an old generation from now on. */
  lemma AliveOutcome(w: World)
    requires Alert(w.client) && Wired(w) && Possible(w, Hello)
    ensures var c, d := w.client, Step(w, Hello).client;
            && d.mode == Sse && d.status == Live && d.es == Some(c.es.value.(up := true)) && d.stallTimer
            && d.pollGen !in d.loops && d.loops == c.loops && d.errs == c.errs && d.probeTimer == c.probeTimer
            && (!c.es.value.up ==> !d.openTimer)
            && (c.es.value.up ==> d == c)
  {
  }

  /** What an answer, a failure and the end of a pause do to the poll loop of the current generation. */
  lemma PollOutcome(w: World, gen: nat)
    requires Alert(w.client) && gen == w.client.pollGen
    ensures Possible(w, PollAnswer(gen)) ==>
              var c, d := w.client, Step(w, PollAnswer(gen)).client;
              && d.status == Polling && d.loops == c.loops[gen := Fetching(d.lastId)] && d.es == c.es && d.mode == c.mode
              && d.probeTimer == (c.probeTimer || c.status == Offline)
              && (w.replies[gen].last > 0 ==> d.lastId == w.replies[gen].last)
    ensures Possible(w, PollFailure(gen)) ==>
              Step(w, PollFailure(gen)).client == w.client.(status := Offline, loops := w.client.loops[gen := Sleeping])
    ensures Possible(w, Wake(gen)) ==>
              Step(w, Wake(gen)).client == w.client.(loops := w.client.loops[gen := Fetching(w.client.lastId)])
  {
    if Possible(w, PollAnswer(gen)) {
      var c := w.client;
      DeliverAllKeeps(c.(probeTimer := c.probeTimer || c.status.Offline?, status := Polling), Events(w.replies[gen]));
    }
  }

  /** A loop of an old generation ends at the next thing that happens to it, and leaves no other trace. */
  lemma OldLoopEnds(w: World, gen: nat)
    requires gen != w.client.pollGen
    ensures var ended := w.client.(loops := w.client.loops - {gen});
            && (Possible(w, PollAnswer(gen)) ==> Step(w, PollAnswer(gen)).client == ended)
            && (Possible(w, PollFailure(gen)) ==> Step(w, PollFailure(gen)).client == ended)
            && (Possible(w, Wake(gen)) ==> Step(w, Wake(gen)).client == ended)
  {
  }

  // ---------------------------------------------------------------- over whole runs

  lemma StepErrors(w: World, a: Action)
    requires Alert(w.client) && Wired(w) && w.client.errs <= 2
    ensures Step(w, a).client.errs <= 2
  {
    hide Fallback, StartSSE, Alert, OnPollAnswer, OnError;
    if Possible(w, a) {
      match a
      case Error(recent, closed) => ErrorOutcome(w, recent, closed);
      case OpenTimeout => TimeoutOutcome(w);
      case StallTimeout => TimeoutOutcome(w);
      case RetryTimeout => ReopenOutcome(w);
      case ProbeTimeout => ReopenOutcome(w);
      case PollAnswer(gen) => AnswerErrors(w.client, gen, Events(w.replies[gen]), w.replies[gen].last);
      case _ =>
    }
  }

  lemma AnswerErrors(c: Client, gen: nat, events: seq<nat>, last: nat)
    ensures OnPollAnswer(c, gen, events, last).errs == c.errs
  {
    DeliverAllKeeps(c.(probeTimer := c.probeTimer || c.status.Offline?, status := Polling), events);
  }

  /** Over every run no more than two errors are ever remembered: with the third the stream is given up and they are forgotten. */
  lemma {:induction false} RunErrors(boot: nat, acts: seq<Action>)
    ensures Run(Start(boot), acts).client.errs <= 2
  {
    hide Step, Alert, Wired;
    if acts != [] {
      var before := acts[..|acts| - 1];
      RunAlert(boot, before);
      RunErrors(boot, before);
      StepErrors(Run(Start(boot), before), acts[|acts| - 1]);
    }
  }

  /** A stream that drops three times within a minute is kept twice and then given up. */
  lemma ThirdDropGivesUp(w: World, closed: bool)
    requires Alert(w.client) && w.client.es.Some? && !w.client.es.value.closed && w.client.errs == 0
    ensures var w1 := Step(w, Error(0, false));
            var w2 := Step(w1, Error(1, false));
            var w3 := Step(w2, Error(2, closed));
            && w1.client.es.Some? && w2.client.es.Some?
            && GivenUp(w2.client, w3.client)
  {
    hide Alert, OnError;
    ErrorOutcome(w, 0, false);
    var w1 := Step(w, Error(0, false));
    ErrorOutcome(w1, 1, false);
    var w2 := Step(w1, Error(1, false));
    ErrorOutcome(w2, 2, closed);
  }
}

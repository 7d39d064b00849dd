/**
 The live-event client as the page runs it: module variables changed in place by handlers. Each changes
 their value as EventClientState says, and each that the browser calls, when it may be called, leaves the
 client alert (a timer, a stream or a poll loop will wake it) and its emitted ids in order.
 */
module EventClient {
  import opened Basics
  import State = EventClientState
  import World = EventWorld
  import Log = EventLog
  import Transport = EventFallback

  /** What the handlers of sources and timers keep. */
  ghost predicate Kept(c: State.Client, d: State.Client) {
    World.Alert(d) && d.lastId == c.lastId && d.emitted == c.emitted
  }

  lemma HelloKeeps(c: State.Client)
    requires World.Alert(c) && (c.es.Some? ==> !c.es.value.closed)
    ensures Kept(c, State.Alive(c))
  {
    World.AliveAlert(c);
    Log.AliveIds(c);
  }

  lemma ErrorKeeps(c: State.Client, recent: nat, closed: bool)
    requires World.Alert(c) && (c.es.Some? ==> !c.es.value.closed)
    ensures Kept(c, State.OnError(c, recent, closed))
  {
    hide State.OnError;
    World.ErrorAlert(c, recent, closed);
    Log.ErrorIds(c, recent, closed);
  }

  /** A timer that fires is no longer armed; giving up the source, or opening a new one, arms what is needed. */
  lemma TimersKeep(c: State.Client)
    requires World.Alert(c)
    ensures c.openTimer ==> Kept(c, State.OnOpenTimeout(c))
    ensures c.stallTimer ==> Kept(c, State.OnStallTimeout(c))
    ensures c.retryTimer ==> Kept(c, State.OnRetryTimeout(c))
    ensures c.probeTimer ==> Kept(c, State.OnProbeTimeout(c))
  {
    hide State.Fallback, State.StartSSE;
    World.FallbackAlert(c.(openTimer := false));
    World.FallbackAlert(c.(stallTimer := false));
    World.StartAlert(c.(retryTimer := false));
    World.StartAlert(c.(probeTimer := false));
    Log.FallbackIds(c.(openTimer := false));
    Log.FallbackIds(c.(stallTimer := false));
    Log.StartIds(c.(retryTimer := false));
    Log.StartIds(c.(probeTimer := false));
  }

  lemma {:induction false} DeliverAllOrdered(c: State.Client, ns: seq<nat>, bound: nat)
    requires Log.Increasing(c)
    ensures Log.Increasing(State.DeliverAll(c, ns))
    ensures c.lastId <= bound && (forall n | n in ns :: n <= bound) ==> State.DeliverAll(c, ns).lastId <= bound
    decreases |ns|
  {
    if ns != [] {
      Log.DeliverIncreasing(c, ns[0]);
      DeliverAllOrdered(State.Deliver(c, ns[0]), ns[1..], bound);
      assert ns[0] in ns && forall n | n in ns[1..] :: n in ns;
    }
  }

  lemma LoopAgainIds(c: State.Client, gen: nat)
    ensures State.LoopAgain(c, gen).emitted == c.emitted && State.LoopAgain(c, gen).lastId == c.lastId
  {
  }

  /** An answer that is not behind what it hands over, and not behind the last id, keeps the ids in order. */
  lemma AnswerOrdered(c: State.Client, gen: nat, events: seq<nat>, last: nat)
    requires Log.Increasing(c)
    requires last == 0 || (c.lastId <= last && forall n | n in events :: n <= last)
    ensures Log.Increasing(State.OnPollAnswer(c, gen, events, last))
  {
    hide State.DeliverAll, State.LoopAgain;
    var p := c.(probeTimer := c.probeTimer || c.status.Offline?, status := State.Polling);
    DeliverAllOrdered(p, events, last);
    var d := State.DeliverAll(p, events);
    LoopAgainIds(if last != 0 then d.(lastId := last) else d, gen);
  }

  lemma KeptIncreasing(c: State.Client, d: State.Client)
    requires Log.Increasing(c) && Kept(c, d)
    ensures Log.Increasing(d) && World.Alert(d)
  {
  }

  class LiveEvents {
    var mode: State.Mode
    var status: State.Status
    var es: Option<State.Source>
    var lastId: nat
    var openTimer: bool
    var stallTimer: bool
    var retryTimer: bool
    var probeTimer: bool
    var errTimes: nat
    var pollGen: nat
    var loops: map<nat, State.Phase>
    ghost var emitted: seq<nat>

    ghost function Value(): State.Client
      reads this
    {
      State.Client(mode, status, es, lastId, openTimer, stallTimer, retryTimer, probeTimer, errTimes, pollGen, loops, emitted)
    }

    ghost predicate Valid()
      reads this
    {
      World.Alert(Value()) && Log.Increasing(Value())
    }

    /** The browser has not given the source up; it calls none of its handlers after that. */
    predicate Heard()
      reads this
    {
      es.Some? && !es.value.closed
    }

    constructor ()
      ensures Value() == State.StartSSE(State.Initial()) && Valid()
      ensures mode == State.Sse && status == State.Connecting && es == Some(State.Source(0, false, false)) && openTimer
      ensures lastId == 0 && emitted == [] && loops == map[] && errTimes == 0 && !probeTimer
    {
      mode, status, es, lastId := State.Sse, State.Connecting, None, 0;
      openTimer, stallTimer, retryTimer, probeTimer := false, false, false, false;
      errTimes, pollGen, loops, emitted := 0, 0, map[], [];
      new;
      StartSSE();
    }

    method Deliver(n: nat)
      modifies this
      ensures Value() == State.Deliver(old(Value()), n)
    {
      if n != 0 {
        if n <= lastId {
          return;
        }
        lastId := n;
        emitted := emitted + [n];
      }
    }

    method CloseSSE()
      modifies this
      ensures Value() == State.CloseSSE(old(Value()))
    {
      openTimer, stallTimer, retryTimer := false, false, false;
      es := None;
    }

    method StartSSE()
      modifies this
      ensures Value() == State.StartSSE(old(Value()))
    {
      CloseSSE();
      probeTimer := false;
      es := Some(State.Source(lastId, false, false));
      openTimer := true;
    }

    method Alive()
      modifies this
      ensures Value() == State.Alive(old(Value()))
    {
      if es.None? {
        return;
      }
      stallTimer := true;
      if es.value.up {
        return;
      }
      es := Some(es.value.(up := true));
      openTimer := false;
      StopPolling();
      mode := State.Sse;
      status := State.Live;
    }

    /** The first or a later sign of life on the current stream. */
    method OnHello()
      requires Valid() && Heard()
      modifies this
      ensures Value() == State.Alive(old(Value())) && Valid()
      ensures mode == State.Sse && status == State.Live && es.Some? && es.value.up && pollGen !in loops
    {
      HelloKeeps(Value());
      Alive();
    }

    /** An event on the current stream. */
    method OnEvent(n: nat)
      requires Valid() && Heard()
      modifies this
      ensures Value() == State.Deliver(State.Alive(old(Value())), n) && Valid()
    {
      HelloKeeps(Value());
      Alive();
      Log.DeliverIncreasing(Value(), n);
      Deliver(n);
    }

    method OnError(recent: nat, closed: bool)
      requires Valid() && Heard()
      modifies this
      ensures Value() == State.OnError(old(Value()), recent, closed) && Valid()
      ensures es == None <==> recent >= 2 || (closed && old(mode) == State.Poll)
      ensures es == None ==> mode == State.Poll && pollGen in loops && probeTimer && errTimes == 0
      ensures es != None ==> es == Some(State.Source(old(es).value.after, false, closed)) && errTimes == recent + 1
                             && mode == old(mode) && pollGen == old(pollGen) && loops == old(loops)
    {
      hide State.OnError, World.Alert, Log.Increasing;
      Transport.ErrorDecides(Value(), recent, closed);
      ErrorKeeps(Value(), recent, closed);
      KeptIncreasing(Value(), State.OnError(Value(), recent, closed));
      SourceFailed(recent, closed);
    }

    method SourceFailed(recent: nat, closed: bool)
      modifies this
      ensures Value() == State.OnError(old(Value()), recent, closed)
    {
      hide State.Fallback;
      if es.None? {
        return;
      }
      errTimes := recent;
      errTimes := errTimes + 1;
      var up := es.value.up;
      es := Some(State.Source(es.value.after, false, closed));
      if up {
        stallTimer := false;
        if mode == State.Sse {
          status := State.Connecting;
        }
        openTimer := true;
      }
      if errTimes >= State.ERRORS_TO_FALL_BACK {
        Fallback();
        return;
      }
      if closed {
        if mode == State.Poll {
          Fallback();
          return;
        }
        retryTimer := true;
      }
    }

    method Fallback()
      modifies this
      ensures Value() == State.Fallback(old(Value()))
    {
      CloseSSE();
      errTimes := 0;
      if mode != State.Poll {
        mode := State.Poll;
        StartPolling();
      }
      probeTimer := true;
    }

    method StopPolling()
      modifies this
      ensures Value() == State.StopPolling(old(Value()))
    {
      pollGen := pollGen + 1;
    }

    method StartPolling()
      modifies this
      ensures Value() == State.StartPolling(old(Value()))
    {
      StopPolling();
      loops := loops[pollGen := State.Fetching(lastId)];
    }

    method OnOpenTimeout()
      requires Valid() && openTimer
      modifies this
      ensures Value() == State.OnOpenTimeout(old(Value())) && Valid()
      ensures es == None && mode == State.Poll && pollGen in loops && probeTimer && errTimes == 0
    {
      TimersKeep(Value());
      openTimer := false;
      if es.Some? {
        Fallback();
      }
    }

    method OnStallTimeout()
      requires Valid() && stallTimer
      modifies this
      ensures Value() == State.OnStallTimeout(old(Value())) && Valid()
      ensures es == None && mode == State.Poll && pollGen in loops && probeTimer && errTimes == 0
    {
      TimersKeep(Value());
      stallTimer := false;
      if es.Some? {
        Fallback();
      }
    }

    method OnRetryTimeout()
      requires Valid() && retryTimer
      modifies this
      ensures Value() == State.OnRetryTimeout(old(Value())) && Valid()
      ensures es == Some(State.Source(lastId, false, false)) && openTimer && mode == old(mode)
    {
      TimersKeep(Value());
      retryTimer := false;
      if es.Some? {
        StartSSE();
      }
    }

    method OnProbeTimeout()
      requires Valid() && probeTimer
      modifies this
      ensures Value() == State.OnProbeTimeout(old(Value())) && Valid()
      ensures old(mode) == State.Poll ==> es == Some(State.Source(lastId, false, false)) && openTimer
    {
      TimersKeep(Value());
      probeTimer := false;
      if mode == State.Poll {
        StartSSE();
      }
    }

    /** The guard of the poll loop, and its next request. */
    method LoopAgain(gen: nat)
      modifies this
      ensures Value() == State.LoopAgain(old(Value()), gen)
    {
      if gen == pollGen {
        loops := loops[gen := State.Fetching(lastId)];
      } else {
        loops := loops - {gen};
      }
    }

    method OnPollAnswer(gen: nat, events: seq<nat>, last: nat)
      requires Valid() && gen in loops && loops[gen].Fetching?
      modifies this
      ensures Value() == State.OnPollAnswer(old(Value()), gen, events, last) && World.Alert(Value())
      ensures last == 0 || (old(lastId) <= last && forall n | n in events :: n <= last) ==> Valid()
    {
      hide State.OnPollAnswer, World.Alert, Log.Increasing;
      World.PollAlert(Value(), gen, events, last);
      if last == 0 || (lastId <= last && forall n | n in events :: n <= last) {
        AnswerOrdered(Value(), gen, events, last);
      }
      TakeAnswer(gen, events, last);
    }

    method TakeAnswer(gen: nat, events: seq<nat>, last: nat)
      modifies this
      ensures Value() == State.OnPollAnswer(old(Value()), gen, events, last)
    {
      hide State.LoopAgain;
      if gen != pollGen {
        loops := loops - {gen};
        return;
      }
      if status == State.Offline {
        probeTimer := true;
      }
      status := State.Polling;
      ghost var polled := Value();
      for i := 0 to |events|
        invariant State.DeliverAll(Value(), events[i..]) == State.DeliverAll(polled, events)
        invariant pollGen == old(pollGen)
      {
        assert events[i..][0] == events[i] && events[i..][1..] == events[i + 1..];
        Deliver(events[i]);
      }
      if last != 0 {
        lastId := last;
      }
      LoopAgain(gen);
    }

    /** The sleep after a failure is over. */
    method OnWake(gen: nat)
      requires Valid() && gen in loops && loops[gen].Sleeping?
      modifies this
      ensures Value() == State.LoopAgain(old(Value()), gen) && Valid()
    {
      World.PollAlert(Value(), gen, [], 0);
      LoopAgain(gen);
    }

    method OnPollFailure(gen: nat)
      requires Valid() && gen in loops && loops[gen].Fetching?
      modifies this
      ensures Value() == State.OnPollFailure(old(Value()), gen) && Valid()
      ensures gen == pollGen ==> status == State.Offline && loops == old(loops)[gen := State.Sleeping]
    {
      World.PollAlert(Value(), gen, [], 0);
      if gen != pollGen {
        loops := loops - {gen};
        return;
      }
      status := State.Offline;
      loops := loops[gen := State.Sleeping];
    }
  }
}

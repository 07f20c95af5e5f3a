/** One event stream: a bounded channel behind a mutex, used by any number of
    concurrent Notify and Close calls and one reader. */
module EventStream {
  import opened Ids

  /** The stream object, as one caller at a time sees it. */
  class ProtoEventStream<P> {
    const id: UserId
    const bufferSize: nat
    var closed: bool
    var ch: seq<P>

    constructor (id: UserId, bufferSize: nat)
      ensures this.id == id && this.bufferSize == bufferSize
      ensures !closed && ch == []
    {
      this.id := id;
      this.bufferSize := bufferSize;
      closed := false;
      ch := [];
    }

    /** `timerFirst` says which of two ready cases the select takes; with a full
        channel and no reader the timer is the only one to become ready. */
    method Notify(selected: Option<P>, timerFirst: bool) returns (ok: bool)
      requires |ch| <= bufferSize
      modifies this
      ensures |ch| <= bufferSize
      ensures ok && selected.Some? ==> !old(closed) && ch == old(ch) + [selected.value] && !closed
      ensures ok && selected.None? ==> ch == old(ch) && closed == old(closed)
      ensures !ok ==> ch == old(ch) && closed
      ensures ok <==> selected.None? || (!old(closed) && |old(ch)| < bufferSize && !timerFirst)
    {
      if selected.None? {
        return true;
      }
      if closed {
        return false;
      }
      if |ch| < bufferSize && !timerFirst {
        ch := ch + [selected.value];
      } else {
        Close();
        return false;
      }
      return true;
    }

    method Close()
      modifies this`closed
      ensures closed
    {
      if closed {
        return;
      }
      closed := true;
    }
  }

  /** How a finished call ended. */
  datatype Outcome = Sent | NothingToSend | WasClosed | TimedOut | DidClose

  /** Where a Notify or Close call is. */
  datatype Call<P> =
    | Entering(msg: P)
    | Selecting(msg: P)
    | Closing(after: Outcome)
    | ClosingChannel(after: Outcome)
    | Done(outcome: Outcome)

  /** `lock` is the call that holds the mutex; `accepted` records which call put
      which value into the channel; `faulted` is a send on, or a second close of,
      a closed channel. */
  datatype Stream<P> = Stream(
    bufferSize: nat,
    lock: Option<nat>,
    closed: bool,
    channelClosed: bool,
    buffer: seq<P>,
    calls: map<nat, Call<P>>,
    accepted: seq<(nat, P)>,
    received: seq<P>,
    readerDone: bool,
    faulted: bool)

  datatype Step<P> =
    | BeginNotify(c: nat, selected: Option<P>)
    | BeginClose(c: nat)
    | Acquire(c: nat)
    | Send(c: nat)
    | Timeout(c: nat)
    | CloseChannel(c: nat)
    | Receive

  function New<P>(bufferSize: nat): Stream<P>
  {
    Stream(bufferSize, None, false, false, [], map[], [], [], false, false)
  }

  /** The step puts a value into the channel. */
  predicate Sends<P>(s: Stream<P>, step: Step<P>)
  {
    && step.Send? && step.c in s.calls && s.calls[step.c].Selecting?
    && !s.channelClosed && |s.buffer| < s.bufferSize
  }

  /** Where the step takes its call, if it moves it at all: a call that is not
      at that point, or cannot have the mutex, stays where it is. */
  function NextCall<P>(s: Stream<P>, step: Step<P>): Option<Call<P>>
  {
    match step
    case BeginNotify(c, selected) =>
      if c in s.calls then None
      else if selected.None? then Some(Done(NothingToSend)) else Some(Entering(selected.value))
    case BeginClose(c) => if c in s.calls then None else Some(Closing(DidClose))
    case Acquire(c) =>
      if c !in s.calls || s.lock.Some? then None
      else if s.calls[c].Entering? then Some(if s.closed then Done(WasClosed) else Selecting(s.calls[c].msg))
      else if s.calls[c].Closing? then Some(if s.closed then Done(s.calls[c].after)
                                            else ClosingChannel(s.calls[c].after))
      else None
    case Send(c) => if Sends(s, step) then Some(Done(Sent)) else None
    case Timeout(c) => if c in s.calls && s.calls[c].Selecting? then Some(Closing(TimedOut)) else None
    case CloseChannel(c) =>
      if c in s.calls && s.calls[c].ClosingChannel? && !s.channelClosed then Some(Done(s.calls[c].after)) else None
    case Receive => None
  }

  /** A send on, or a close of, a channel that is closed. */
  predicate Faults<P>(s: Stream<P>, step: Step<P>)
  {
    && s.channelClosed
    && ((step.Send? && step.c in s.calls && s.calls[step.c].Selecting?)
        || (step.CloseChannel? && step.c in s.calls && s.calls[step.c].ClosingChannel?))
  }

  function Next<P>(s: Stream<P>, step: Step<P>): Stream<P>
  {
    if step.Receive? then
      if s.buffer != [] then s.(buffer := s.buffer[1..], received := s.received + [s.buffer[0]])
      else if s.channelClosed then s.(readerDone := true)
      else s
    else
      var call := NextCall(s, step);
      if call.None? then s.(faulted := s.faulted || Faults(s, step))
      else
        var t := s.(calls := s.calls[step.c := call.value]);
        match step
        case Acquire(c) =>
          if call.value.Done? then t else t.(lock := Some(c), closed := s.closed || call.value.ClosingChannel?)
        case Send(c) =>
          t.(buffer := s.buffer + [s.calls[c].msg], accepted := s.accepted + [(c, s.calls[c].msg)], lock := None)
        case Timeout(_) => t.(lock := None)
        case CloseChannel(_) => t.(channelClosed := true, lock := None)
        case _ => t
  }

  function Run<P>(s: Stream<P>, steps: seq<Step<P>>): Stream<P>
  {
    if steps == [] then s else Next(Run(s, steps[..|steps| - 1]), steps[|steps| - 1])
  }

  function Values<P>(accepted: seq<(nat, P)>): (values: seq<P>)
    ensures |values| == |accepted|
    ensures forall i :: 0 <= i < |accepted| ==> values[i] == accepted[i].1
  {
    if accepted == [] then [] else Values(accepted[..|accepted| - 1]) + [accepted[|accepted| - 1].1]
  }

  /** The mutex is held by exactly the calls between taking and releasing it. */
  ghost predicate LockIsHeld<P>(s: Stream<P>)
  {
    && (forall c :: c in s.calls && (s.calls[c].Selecting? || s.calls[c].ClosingChannel?) ==> s.lock == Some(c))
    && (s.lock.Some? ==> s.lock.value in s.calls
                         && (s.calls[s.lock.value].Selecting? || s.calls[s.lock.value].ClosingChannel?))
  }

  ghost predicate ChannelFollowsFlag<P>(s: Stream<P>)
  {
    && !s.faulted
    && (s.channelClosed ==> s.closed)
    && (forall c :: c in s.calls && s.calls[c].Selecting? ==> !s.closed)
    && (forall c :: c in s.calls && s.calls[c].ClosingChannel? ==> s.closed && !s.channelClosed)
  }

  /** The calls that ended with a send are those that put a value in, once each. */
  ghost predicate SentIsAccepted<P>(accepted: seq<(nat, P)>, calls: map<nat, Call<P>>)
  {
    && (forall i :: 0 <= i < |accepted| ==> accepted[i].0 in calls && calls[accepted[i].0] == Done(Sent))
    && (forall i, j :: 0 <= i < j < |accepted| ==> accepted[i].0 != accepted[j].0)
    && (forall c :: c in calls && calls[c] == Done(Sent) ==> IsAcceptedFrom(accepted, c))
    && (forall c :: c in calls ==> !ClosesAsSent(calls[c]))
  }

  predicate ClosesAsSent<P>(call: Call<P>)
  {
    (call.Closing? || call.ClosingChannel?) && call.after == Sent
  }

  ghost predicate IsAcceptedFrom<P>(accepted: seq<(nat, P)>, c: nat)
  {
    exists i :: 0 <= i < |accepted| && accepted[i].0 == c
  }

  /** Nothing is lost, repeated or reordered between acceptance and receipt. */
  ghost predicate ValuesFlow<P>(s: Stream<P>)
  {
    && s.received + s.buffer == Values(s.accepted)
    && |s.buffer| <= s.bufferSize
    && (s.readerDone ==> s.buffer == [] && s.channelClosed)
  }

  ghost predicate IsSound<P>(s: Stream<P>)
  {
    LockIsHeld(s) && ChannelFollowsFlag(s) && SentIsAccepted(s.accepted, s.calls) && ValuesFlow(s)
  }

  lemma {:induction false} StaysLocked<P>(s: Stream<P>, step: Step<P>)
    requires LockIsHeld(s) && ChannelFollowsFlag(s)
    ensures LockIsHeld(Next(s, step)) && ChannelFollowsFlag(Next(s, step))
  {
  }

  lemma AcceptOneMore<P>(accepted: seq<(nat, P)>, c: nat, msg: P)
    ensures forall d :: IsAcceptedFrom(accepted + [(c, msg)], d) <==> d == c || IsAcceptedFrom(accepted, d)
  {
    var after := accepted + [(c, msg)];
    forall d ensures IsAcceptedFrom(after, d) <==> d == c || IsAcceptedFrom(accepted, d) {
      if d == c {
        assert after[|accepted|].0 == c;
      } else if IsAcceptedFrom(accepted, d) {
        var i :| 0 <= i < |accepted| && accepted[i].0 == d;
        assert after[i].0 == d;
      }
    }
  }

  lemma SendIsAccepted<P>(s: Stream<P>, step: Step<P>)
    requires SentIsAccepted(s.accepted, s.calls)
    requires Sends(s, step)
    ensures SentIsAccepted(Next(s, step).accepted, Next(s, step).calls)
  {
    var c, t := step.c, Next(s, step);
    AcceptOneMore(s.accepted, c, s.calls[c].msg);
    assert !IsAcceptedFrom(s.accepted, c);
    forall i, j | 0 <= i < j < |t.accepted| ensures t.accepted[i].0 != t.accepted[j].0 {
      assert t.accepted[i] == s.accepted[i];
      if j < |s.accepted| {
        assert t.accepted[j] == s.accepted[j];
      }
    }
  }

  lemma SentStaysAccepted<P>(s: Stream<P>, step: Step<P>)
    requires SentIsAccepted(s.accepted, s.calls)
    ensures SentIsAccepted(Next(s, step).accepted, Next(s, step).calls)
  {
    if Sends(s, step) {
      SendIsAccepted(s, step);
    } else {
      OthersAcceptNothing(s, step);
    }
  }

  lemma UnsentCallMoves<P>(accepted: seq<(nat, P)>, calls: map<nat, Call<P>>, c: nat, call: Call<P>)
    requires SentIsAccepted(accepted, calls)
    requires (c in calls ==> calls[c] != Done(Sent)) && call != Done(Sent) && !ClosesAsSent(call)
    ensures SentIsAccepted(accepted, calls[c := call])
  {
  }

  lemma {:induction false} OthersAcceptNothing<P>(s: Stream<P>, step: Step<P>)
    requires SentIsAccepted(s.accepted, s.calls) && !Sends(s, step)
    ensures SentIsAccepted(Next(s, step).accepted, Next(s, step).calls)
  {
    assert Next(s, step).accepted == s.accepted;
    if !step.Receive? && NextCall(s, step).Some? {
      UnsentCallMoves(s.accepted, s.calls, step.c, NextCall(s, step).value);
    }
  }

  lemma AcceptedValuesFlow<P>(received: seq<P>, buffer: seq<P>, accepted: seq<(nat, P)>, c: nat, msg: P)
    requires received + buffer == Values(accepted)
    ensures received + (buffer + [msg]) == Values(accepted + [(c, msg)])
  {
    assert (accepted + [(c, msg)])[..|accepted|] == accepted;
    assert received + (buffer + [msg]) == received + buffer + [msg];
  }

  lemma {:induction false} ValuesKeepFlowing<P>(s: Stream<P>, step: Step<P>)
    requires LockIsHeld(s) && ChannelFollowsFlag(s) && ValuesFlow(s)
    ensures ValuesFlow(Next(s, step))
  {
    if Sends(s, step) {
      AcceptedValuesFlow(s.received, s.buffer, s.accepted, step.c, s.calls[step.c].msg);
    } else if step.Receive? && s.buffer != [] {
      assert s.received + [s.buffer[0]] + s.buffer[1..] == s.received + s.buffer;
    }
  }

  lemma {:induction false} AlwaysSound<P>(bufferSize: nat, steps: seq<Step<P>>)
    ensures IsSound(Run(New(bufferSize), steps))
    ensures Run(New(bufferSize), steps).bufferSize == bufferSize
  {
    if steps != [] {
      var front := steps[..|steps| - 1];
      AlwaysSound(bufferSize, front);
      var s := Run(New(bufferSize), front);
      StaysLocked(s, steps[|steps| - 1]);
      SentStaysAccepted(s, steps[|steps| - 1]);
      ValuesKeepFlowing(s, steps[|steps| - 1]);
    }
  }

  /** In every interleaving: nothing is sent on a closed channel and it is closed
      at most once; the buffer never exceeds its size; received values followed
      by buffered ones are the accepted values in the order of acceptance; a call
      that ended any other way than by sending put nothing in. */
  lemma StreamIsFifo<P>(bufferSize: nat, steps: seq<Step<P>>)
    ensures var s := Run(New(bufferSize), steps);
            && !s.faulted
            && |s.buffer| <= bufferSize
            && s.received + s.buffer == Values(s.accepted)
            && (forall i, j :: 0 <= i < j < |s.accepted| ==> s.accepted[i].0 != s.accepted[j].0)
            && (forall c :: c in s.calls ==>
                  (s.calls[c] == Done(Sent) <==> IsAcceptedFrom(s.accepted, c)))
  {
    AlwaysSound(bufferSize, steps);
  }

  /** The reader has seen the end of the channel, with everything received. */
  ghost predicate IsDrained<P>(s: Stream<P>)
  {
    LockIsHeld(s) && ChannelFollowsFlag(s) && s.readerDone && s.buffer == [] && s.channelClosed
  }

  lemma DrainedStays<P>(s: Stream<P>, step: Step<P>)
    requires IsDrained(s)
    ensures IsDrained(Next(s, step))
    ensures Next(s, step).accepted == s.accepted && Next(s, step).received == s.received
  {
    StaysLocked(s, step);
  }

  lemma {:induction false} DrainedRunStays<P>(s: Stream<P>, steps: seq<Step<P>>)
    requires IsDrained(s)
    ensures IsDrained(Run(s, steps))
    ensures Run(s, steps).accepted == s.accepted && Run(s, steps).received == s.received
  {
    if steps != [] {
      DrainedRunStays(s, steps[..|steps| - 1]);
      DrainedStays(Run(s, steps[..|steps| - 1]), steps[|steps| - 1]);
    }
  }

  /** A reader that has seen the end of the channel has received everything that
      was ever accepted, and nothing is accepted afterwards. */
  lemma ReaderSeesEverything<P>(bufferSize: nat, before: seq<Step<P>>, after: seq<Step<P>>)
    requires Run(New(bufferSize), before).readerDone
    ensures var s, t := Run(New(bufferSize), before), Run(Run(New(bufferSize), before), after);
            && s.received == Values(s.accepted)
            && t.accepted == s.accepted && t.received == s.received
  {
    var s := Run(New(bufferSize), before);
    AlwaysSound(bufferSize, before);
    assert s.received + [] == s.received;
    DrainedRunStays(s, after);
  }

  lemma RunOneMore<P>(s: Stream<P>, steps: seq<Step<P>>, step: Step<P>)
    ensures Run(s, steps + [step]) == Next(Run(s, steps), step)
  {
    assert (steps + [step])[..|steps|] == steps;
  }

  /** The steps of one Notify call, ending with a send or with a time-out. */
  function SendSteps<P>(c: nat, msg: P): seq<Step<P>>
  {
    [BeginNotify(c, Some(msg))] + [Acquire(c)] + [Send(c)]
  }

  function TimeoutSteps<P>(c: nat, msg: P): seq<Step<P>>
  {
    [BeginNotify(c, Some(msg))] + [Acquire(c)] + [Timeout(c)] + [Acquire(c)] + [CloseChannel(c)]
  }

  lemma EnterAlone<P>(s: Stream<P>, c: nat, msg: P)
    requires s.lock.None? && c !in s.calls
    ensures Run(s, [BeginNotify(c, Some(msg))] + [Acquire(c)]) ==
            if s.closed then s.(calls := s.calls[c := Done(WasClosed)])
            else s.(calls := s.calls[c := Selecting(msg)], lock := Some(c))
  {
    var begin: Step<P> := BeginNotify(c, Some(msg));
    RunOneMore(s, [], begin);
    assert [] + [begin] == [begin];
    RunOneMore(s, [begin], Acquire(c));
    var t := Next(s, begin);
    assert t == s.(calls := s.calls[c := Entering(msg)]);
    assert Next(t, Acquire(c)).calls == s.calls[c := Next(t, Acquire(c)).calls[c]];
  }

  /** A finished call does not move. */
  lemma DoneStays<P>(s: Stream<P>, c: nat)
    requires c in s.calls && s.calls[c].Done?
    ensures Next(s, Send(c)) == Next(s, Timeout(c)) == Next(s, Acquire(c)) == Next(s, CloseChannel(c)) == s
  {
  }

  lemma SelectingEnds<P>(s: Stream<P>, u: Stream<P>, c: nat, msg: P)
    requires s.lock.None? && c !in s.calls && !s.closed && !s.channelClosed
    requires u == s.(calls := s.calls[c := Selecting(msg)], lock := Some(c))
    ensures |s.buffer| < s.bufferSize ==>
              Next(u, Send(c)) == s.(buffer := s.buffer + [msg], accepted := s.accepted + [(c, msg)],
                                     calls := s.calls[c := Done(Sent)])
    ensures Next(u, Timeout(c)) == s.(calls := s.calls[c := Closing(TimedOut)])
  {
    if |s.buffer| < s.bufferSize {
      assert Next(u, Send(c)).calls == s.calls[c := Done(Sent)];
    }
    assert Next(u, Timeout(c)).calls == s.calls[c := Closing(TimedOut)];
  }

  lemma ClosingEnds<P>(s: Stream<P>, u: Stream<P>, c: nat)
    requires s.lock.None? && c !in s.calls && !s.closed && !s.channelClosed
    requires u == s.(calls := s.calls[c := Closing(TimedOut)])
    ensures Next(Next(u, Acquire(c)), CloseChannel(c))
            == s.(closed := true, channelClosed := true, calls := s.calls[c := Done(TimedOut)])
  {
    var v := Next(u, Acquire(c));
    assert v == s.(calls := s.calls[c := ClosingChannel(TimedOut)], lock := Some(c), closed := true);
    assert Next(v, CloseChannel(c)).calls == s.calls[c := Done(TimedOut)];
  }

  lemma StepsUnfold<P>(s: Stream<P>, c: nat, msg: P, u: Stream<P>)
    requires u == Run(s, [BeginNotify(c, Some(msg))] + [Acquire(c)])
    ensures Run(s, SendSteps(c, msg)) == Next(u, Send(c))
    ensures Run(s, TimeoutSteps(c, msg)) == Next(Next(Next(u, Timeout(c)), Acquire(c)), CloseChannel(c))
  {
    var enter: seq<Step<P>> := [BeginNotify(c, Some(msg))] + [Acquire(c)];
    RunOneMore(s, enter, Send(c));
    RunOneMore(s, enter, Timeout(c));
    RunOneMore(s, enter + [Timeout(c)], Acquire(c));
    RunOneMore(s, enter + [Timeout(c)] + [Acquire(c)], CloseChannel(c));
  }

  /** Undisturbed, the steps of a Notify call do to flag and buffer what the method does. */
  lemma NotifyAlone<P>(s: Stream<P>, c: nat, msg: P)
    requires s.lock.None? && c !in s.calls && s.closed == s.channelClosed
    ensures var sent, timedOut := Run(s, SendSteps(c, msg)), Run(s, TimeoutSteps(c, msg));
            if s.closed then
              sent == timedOut == s.(calls := s.calls[c := Done(WasClosed)])
            else
              && (|s.buffer| < s.bufferSize ==>
                    sent == s.(buffer := s.buffer + [msg], accepted := s.accepted + [(c, msg)],
                               calls := s.calls[c := Done(Sent)]))
              && timedOut == s.(closed := true, channelClosed := true, calls := s.calls[c := Done(TimedOut)])
  {
    var u := Run(s, [BeginNotify(c, Some(msg))] + [Acquire(c)]);
    EnterAlone(s, c, msg);
    StepsUnfold(s, c, msg, u);
    if s.closed {
      DoneStays(u, c);
    } else {
      SelectingEnds(s, u, c, msg);
      ClosingEnds(s, Next(u, Timeout(c)), c);
    }
  }
}

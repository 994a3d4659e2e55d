/** What one emission does, and what a reader is shown (internal/app/plugin_events.go and
    internal/app/plugin_calibration.go). */
module EventViews {
  import opened Basics
  import opened EventStream
  import opened EventStreamRuns

  // ------------------------------------------------------------------------ the view

  /** In every run a view that is given shows the subscriber as the look leaves it, at the asked
      generation, and never more settled than emitted. */
  lemma ViewIsTheSubscriber(states: seq<State>, steps: seq<Step>, i: nat,
                            g: nat, newStream: StreamName, sessionId: string, refused: string)
    requires IsRun(states, steps) && i < |states| && states[i].hand.Idle?
    ensures var (sub, view) := Look(states[i].sub, g, newStream, sessionId, refused);
      && sub == Next(states[i], Snapshot(g, newStream)).sub
      && (view.Available? ==>
            && view.stream == sub.stream != 0 && view.emitted == sub.emitted && view.settled == sub.settled
            && view.loss == sub.loss && view.settled <= view.emitted && sub.generation == g)
  {
    RunKeeps(states, steps, i);
    NewGenerationKeeps(states[i], g, newStream);
  }

  // The generation asked for is none, or one already past.
  predicate Past(s: Subscriber, g: nat) { g == 0 || g < s.generation }

  /** The first of these that applies is the reason there is no view: the session refuses, has no id,
      the subscriber is stopped, the generation is past, a counter of this generation is full. */
  lemma ReasonIs(s: Subscriber, g: nat, newStream: StreamName, sessionId: string, refused: string)
    ensures var view := Look(s, g, newStream, sessionId, refused).1;
      && (refused != "" ==> view == Unavailable(refused))
      && (refused == "" ==>
            && (view == Unavailable("no_session") <==> sessionId == "")
            && (view == Unavailable("not_ready") <==> sessionId != "" && s.stopped)
            && (view == Unavailable("generation_changed") <==> sessionId != "" && !s.stopped && Past(s, g))
            && (view == Unavailable("counter_exhausted") <==>
                  sessionId != "" && !s.stopped && !Past(s, g) && g == s.generation && s.exhausted)
            && (view.Available? <==>
                  sessionId != "" && !s.stopped && !Past(s, g) && !(g == s.generation && s.exhausted)))
  {
    var view := Look(s, g, newStream, sessionId, refused).1;
    assert "no_session"[1] == 'o' && "not_ready"[2] == 't' && "no_session"[2] == '_';
    assert "generation_changed"[0] == 'g' && "counter_exhausted"[0] == 'c' && "no_session"[0] == 'n' == "not_ready"[0];
  }

  /** Looking, or emitting, at a later generation starts its counters and its stream anew and leaves
      the queue; at the current one it changes nothing but an unnamed stream; at a past one nothing. */
  lemma GenerationsStartAnew(s: Subscriber, g: nat, newStream: StreamName)
    ensures var s' := AtGeneration(s, g, newStream);
      && s'.queue == s.queue && s'.stopped == s.stopped
      && (Past(s, g) ==> s' == s)
      && (g > s.generation ==>
            && s'.generation == g && s'.stream == newStream && !s'.exhausted
            && s'.emitted == 0 && s'.settled == 0 && s'.loss == 0)
      && (g == s.generation != 0 ==> s' == s.(stream := s'.stream) && s'.stream == if s.stream != 0 then s.stream else newStream)
  {
  }

  // -------------------------------------------------------------------- one emission

  // One loss more than this, or the counter is full.
  predicate OneLost(s: Subscriber, s': Subscriber) {
    if s.loss == MAX_COUNTER then s'.loss == s.loss && s'.exhausted
    else s'.loss == s.loss + 1 && (s'.exhausted <==> s.exhausted)
  }

  /** A tool call offered to a subscriber: nothing once it is stopped; one loss if its generation is
      past; otherwise it is numbered after the last of its generation and held out to the queue, with
      one loss if its attribution was lost, unless the counter is full. */
  lemma EmissionSays(s: State, g: nat, lost: bool, newStream: StreamName)
    requires s.hand.Idle?
    ensures var s', b := EmittedToolCall(s, g, lost, newStream), AtGeneration(s.sub, g, newStream);
      && s'.sub.queue == s.sub.queue && s'.inFlight == s.inFlight && s'.sub.stopped == s.sub.stopped
      && (s.sub.stopped ==> s' == s)
      && (!s.sub.stopped && Past(s.sub, g) ==>
            OneLost(s.sub, s'.sub) && s'.sub.emitted == s.sub.emitted && s'.hand.Idle?)
      && (!s.sub.stopped && !Past(s.sub, g) ==>
            && s'.sub.generation == g && s'.sub.stream == b.stream && s'.sub.settled == b.settled
            && (b.emitted < MAX_COUNTER ==>
                  && s'.sub.emitted == b.emitted + 1 && s'.hand == Offered(Item(g, b.emitted + 1, b.stream))
                  && (if lost then OneLost(b, s'.sub) else s'.sub.loss == b.loss && s'.sub.exhausted == b.exhausted))
            && (b.emitted == MAX_COUNTER ==> s'.sub.exhausted && s'.hand.Idle? && s'.sub.emitted == b.emitted))
  {
  }

  /** An event of another topic is held out unnumbered, unless the subscriber is stopped. */
  lemma PlainEmissionSays(s: State)
    requires s.hand.Idle?
    ensures Next(s, EmitPlain) == if s.sub.stopped then s else s.(hand := Offered(Item(0, 0, 0)))
  {
  }

  /** Where there is room the event goes last; where there is none the oldest goes, if a taker did not
      empty the queue meanwhile, counted lost if it is of the current generation; and whoever takes,
      takes the oldest. */
  lemma QueueMoves(s: State)
    ensures s.hand.Offered? && |s.sub.queue| < 64 ==>
      Next(s, Put).sub.queue == s.sub.queue + [s.hand.item] && Next(s, Put).hand.Idle?
    ensures s.hand.Offered? && |s.sub.queue| >= 64 ==> Next(s, Put) == s.(hand := Full(s.hand.item))
    ensures s.hand.Full? && s.sub.queue == [] ==> Next(s, DropOldest) == s.(hand := Emptied(s.hand.item))
    ensures s.hand.Full? && s.sub.queue != [] ==>
      var s' := Next(s, DropOldest);
      && s'.sub.queue == s.sub.queue[1..] && s'.hand == Emptied(s.hand.item)
      && (if s.sub.queue[0].sequence != 0 && s.sub.queue[0].generation == s.sub.generation
          then OneLost(s.sub, s'.sub) else s'.sub == s.sub.(queue := s'.sub.queue))
    ensures s.hand.Emptied? && |s.sub.queue| < 64 ==>
      Next(s, PutAgain).sub.queue == s.sub.queue + [s.hand.item] && Next(s, PutAgain).hand.Idle?
    ensures s.inFlight.None? && s.sub.queue != [] ==>
      Next(s, Take).inFlight == Some(s.sub.queue[0]) && Next(s, Take).sub.queue == s.sub.queue[1..]
  {
  }

  /** Without room at the second try either, an event of a tool call is one loss more and no view is
      given for the generation any more; another one is dropped. */
  lemma NoRoomAgain(s: State)
    requires s.hand.Emptied? && |s.sub.queue| >= QUEUE_ROOM
    ensures var s' := Next(s, PutAgain);
      && s'.hand.Idle? && s'.sub.queue == s.sub.queue
      && (s.hand.item.sequence == 0 ==> s'.sub == s.sub)
      && (s.hand.item.sequence != 0 ==> s'.sub.exhausted && s'.sub.loss == if s.sub.loss == MAX_COUNTER then s.sub.loss else s.sub.loss + 1)
  {
  }

  // The delivery is the subscriber's own: it is not stopped, and of its generation.
  predicate Own(s: Subscriber, g: nat) { !s.stopped && g == s.generation }

  /** A sequence settles exactly when the delivery is the subscriber's own and the sequence lies past
      the last settled and not past the last emitted; an own one out of that order ends the views of
      the generation instead. */
  lemma SettlesIff(s: Subscriber, g: nat, sequence: nat, accepted: bool)
    ensures var s' := Finished(s, g, sequence, accepted);
      && s'.settled == (if Own(s, g) && s.settled < sequence <= s.emitted then sequence else s.settled)
      && (Own(s, g) && !(s.settled < sequence <= s.emitted) ==> s' == s.(exhausted := true))
      && (!Own(s, g) ==> s' == s)
  {
  }

  /** A delivery of the current generation that comes back to a subscriber not stopped settles its
      sequence, and is one loss if it was not accepted. */
  lemma DeliverySettles(states: seq<State>, steps: seq<Step>, i: nat)
    requires IsRun(states, steps) && i < |steps| && steps[i].Finish? && Flying(states[i]) == 1 && !states[i].sub.stopped
    ensures var s, s' := states[i].sub, states[i + 1].sub;
      && s'.settled == states[i].inFlight.value.sequence && s'.queue == s.queue && s'.emitted == s.emitted
      && (if steps[i].accepted then s'.loss == s.loss && s'.exhausted == s.exhausted else OneLost(s, s'))
  {
    RunKeeps(states, steps, i);
  }
}

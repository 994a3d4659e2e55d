/**
  A plugin's event queue with calibrated delivery (internal/app/plugin_events.go and
  internal/app/plugin_calibration.go).  Tool-call events carry a sequence number within the
  plugin's current generation; the queue drops its oldest item when full; every event is in the
  end accepted, lost, or still on its way, and the counters say which.

  Emitting holds the subscriber's mutex, but the delivering goroutine takes items from the queue
  without it.  So emitting is three moves on the queue, and a take may come between any two.
 */
module EventStream {
  import opened Basics

  const QUEUE_ROOM: nat := 64

  const MAX_COUNTER: nat := 0x1F_FFFF_FFFF_FFFF

  // Sequence 0 marks an event of a topic that is not calibrated.
  datatype Item = Item(generation: nat, sequence: nat, stream: nat) {
    predicate Counts(current: nat) { sequence != 0 && generation == current }
  }

  const PLAIN := Item(0, 0, 0)

  // A stream is named by a number; 0 stands for no name yet, and no fresh name is 0.
  type StreamName = n: nat | n != 0 witness 1

  datatype Subscriber = Subscriber(generation: nat, emitted: nat, settled: nat, loss: nat, stream: nat,
                                   exhausted: bool, stopped: bool, queue: seq<Item>)

  function Current(s: Subscriber, g: nat): bool {
    g != 0 && s.generation <= g
  }

  function AtGeneration(s: Subscriber, g: nat, newStream: StreamName): Subscriber {
    if !Current(s, g) then s
    else if g != s.generation then
      s.(generation := g, stream := newStream, emitted := 0, settled := 0, loss := 0, exhausted := false)
    else if s.stream == 0 then s.(stream := newStream)
    else s
  }

  function Lose(s: Subscriber): Subscriber {
    if s.loss == MAX_COUNTER then s.(exhausted := true) else s.(loss := s.loss + 1)
  }

  function Finished(s: Subscriber, g: nat, sequence: nat, accepted: bool): Subscriber {
    if s.stopped || g != s.generation then s
    else if sequence <= s.settled || s.emitted < sequence then s.(exhausted := true)
    else if accepted then s.(settled := sequence)
    else Lose(s.(settled := sequence))
  }

  datatype View =
    | Unavailable(reason: string)
    | Available(stream: nat, emitted: nat, settled: nat, loss: nat)

  // `refused` is the reason the session itself gives, "" when it gives none.
  function Look(s: Subscriber, g: nat, newStream: StreamName, sessionId: string, refused: string): (Subscriber, View) {
    var s' := AtGeneration(s, g, newStream);
    (s',
     if refused != "" then Unavailable(refused)
     else if sessionId == "" then Unavailable("no_session")
     else if s.stopped then Unavailable("not_ready")
     else if !Current(s, g) then Unavailable("generation_changed")
     else if s'.exhausted then Unavailable("counter_exhausted")
     else Available(s'.stream, s'.emitted, s'.settled, s'.loss))
  }

  // -------------------------------------------------------------- the protocol

  // Where an emitting goroutine stands while it holds the mutex; Idle when none does.
  datatype Hand = Idle | Offered(item: Item) | Full(item: Item) | Emptied(item: Item)

  // What became of the current generation's events, beside what the subscriber counts.
  datatype Tally = Tally(accepted: nat, unattributed: nat, stale: nat, abandoned: nat)

  const NOTHING := Tally(0, 0, 0, 0)

  datatype State = State(sub: Subscriber, hand: Hand, inFlight: Option<Item>, tally: Tally)

  const INITIAL := State(Subscriber(0, 0, 0, 0, 0, false, false, []), Idle, None, NOTHING)

  datatype Step =
    | EmitPlain
    | EmitToolCall(generation: nat, attributionLost: bool, newStream: StreamName)
    | Put
    | DropOldest
    | PutAgain
    | Take
    | Finish(accepted: bool)
    | Snapshot(generation: nat, newStream: StreamName)
    | Stop

  predicate Enabled(s: State, step: Step) {
    match step
    case Put => s.hand.Offered?
    case DropOldest => s.hand.Full?
    case PutAgain => s.hand.Emptied?
    case Take => s.inFlight.None? && s.sub.queue != []
    // An uncalibrated delivery settles nothing, so it needs no mutex.
    case Finish(_) => s.inFlight.Some? && (s.hand.Idle? || s.inFlight.value.sequence == 0)
    case _ => s.hand.Idle?
  }

  function TallyAt(s: State, g: nat): Tally {
    if Current(s.sub, g) && g != s.sub.generation then NOTHING else s.tally
  }

  function Renewed(s: State, g: nat, newStream: StreamName): State {
    s.(sub := AtGeneration(s.sub, g, newStream), tally := TallyAt(s, g))
  }

  function Unattributed(s: State): State {
    s.(sub := Lose(s.sub), tally := s.tally.(unattributed := s.tally.unattributed + 1))
  }

  // The event gets the next number and is offered to the queue.
  function Numbered(s: State): State {
    if s.sub.emitted == MAX_COUNTER then s.(sub := s.sub.(exhausted := true))
    else
      var n := s.sub.emitted + 1;
      s.(sub := s.sub.(emitted := n), hand := Offered(Item(s.sub.generation, n, s.sub.stream)))
  }

  function EmittedToolCall(s: State, g: nat, attributionLost: bool, newStream: StreamName): State {
    if s.sub.stopped then s
    else if !Current(s.sub, g) then
      s.(sub := Lose(s.sub), tally := s.tally.(stale := s.tally.stale + 1))
    else
      var s1 := Renewed(s, g, newStream);
      Numbered(if attributionLost then Unattributed(s1) else s1)
  }

  function Settled(s: State, item: Item, accepted: bool): State {
    var live := item.Counts(s.sub.generation);
    var tally :=
      if live && s.sub.stopped then s.tally.(abandoned := s.tally.abandoned + 1)
      else if live && accepted then s.tally.(accepted := s.tally.accepted + 1)
      else s.tally;
    State(if item.sequence == 0 then s.sub else Finished(s.sub, item.generation, item.sequence, accepted),
          s.hand, None, tally)
  }

  function Next(s: State, step: Step): State
    requires Enabled(s, step)
  {
    match step
    case EmitPlain => if s.sub.stopped then s else s.(hand := Offered(PLAIN))
    case EmitToolCall(g, attributionLost, newStream) => EmittedToolCall(s, g, attributionLost, newStream)
    case Put =>
      if |s.sub.queue| < QUEUE_ROOM then
        s.(sub := s.sub.(queue := s.sub.queue + [s.hand.item]), hand := Idle)
      else s.(hand := Full(s.hand.item))
    case DropOldest =>
      if s.sub.queue == [] then s.(hand := Emptied(s.hand.item))
      else
        var rest := s.sub.(queue := s.sub.queue[1..]);
        var sub := if s.sub.queue[0].Counts(s.sub.generation) then Lose(rest) else rest;
        s.(sub := sub, hand := Emptied(s.hand.item))
    case PutAgain =>
      if |s.sub.queue| < QUEUE_ROOM then
        s.(sub := s.sub.(queue := s.sub.queue + [s.hand.item]), hand := Idle)
      else if s.hand.item.sequence != 0 then
        s.(sub := Lose(s.sub).(exhausted := true), hand := Idle)
      else s.(hand := Idle)
    case Take => s.(inFlight := Some(s.sub.queue[0]), sub := s.sub.(queue := s.sub.queue[1..]))
    case Finish(accepted) => Settled(s, s.inFlight.value, accepted)
    case Snapshot(g, newStream) => Renewed(s, g, newStream)
    case Stop => s.(sub := s.sub.(stopped := true))
  }

  // ----------------------------------------------------------------- invariant

  // The sequences of the current generation's items, in queue order.
  function Sequences(q: seq<Item>, g: nat): seq<nat> {
    if q == [] then []
    else if q[0].Counts(g) then [q[0].sequence] + Sequences(q[1..], g)
    else Sequences(q[1..], g)
  }

  lemma SequencesAppend(q: seq<Item>, item: Item, g: nat)
    ensures Sequences(q + [item], g) == Sequences(q, g) + if item.Counts(g) then [item.sequence] else []
  {
    if q != [] {
      assert (q + [item])[1..] == q[1..] + [item];
      SequencesAppend(q[1..], item, g);
    }
  }

  lemma SequencesOfOlder(q: seq<Item>, g: nat)
    requires forall i :: 0 <= i < |q| ==> q[i].generation < g
    ensures Sequences(q, g) == []
  {
    if q != [] {
      SequencesOfOlder(q[1..], g);
    }
  }

  function InHand(s: State): nat {
    if !s.hand.Idle? && s.hand.item.Counts(s.sub.generation) then 1 else 0
  }

  function Flying(s: State): nat {
    if s.inFlight.Some? && s.inFlight.value.Counts(s.sub.generation) then 1 else 0
  }

  function Waiting(s: State): seq<nat> {
    Sequences(s.sub.queue, s.sub.generation)
  }

  // The run a, a+1, ..., of length n.
  predicate Consecutive(q: seq<nat>, first: int) {
    forall i :: 0 <= i < |q| ==> q[i] == first + i
  }

  predicate Known(s: Subscriber, item: Item) {
    && item.generation <= s.generation
    && (item.generation == 0 ==> item.sequence == 0)
    && (item.Counts(s.generation) ==> item.stream == s.stream)
  }

  predicate Order(s: State) {
    && |s.sub.queue| <= QUEUE_ROOM
    && (s.hand.Emptied? ==> |s.sub.queue| < QUEUE_ROOM)
    && (forall i :: 0 <= i < |s.sub.queue| ==> Known(s.sub, s.sub.queue[i]))
    && (s.inFlight.Some? ==> Known(s.sub, s.inFlight.value))
    && (!s.hand.Idle? ==> Known(s.sub, s.hand.item) && (s.hand.item.sequence == 0 || s.hand.item.Counts(s.sub.generation)))
    && (InHand(s) == 1 ==> s.hand.item.sequence == s.sub.emitted)
    && Consecutive(Waiting(s), s.sub.emitted - InHand(s) - |Waiting(s)| + 1)
    && s.sub.settled + Flying(s) + |Waiting(s)| + InHand(s) <= s.sub.emitted
    && (Flying(s) == 1 ==> s.sub.settled < s.inFlight.value.sequence <= s.sub.emitted - InHand(s) - |Waiting(s)|)
  }

  predicate Counters(s: State) {
    && s.sub.emitted <= MAX_COUNTER && s.sub.loss <= MAX_COUNTER
    && (s.sub.exhausted ==> s.sub.emitted == MAX_COUNTER || s.sub.loss == MAX_COUNTER)
    && (!s.sub.stopped ==> s.tally.abandoned == 0)
    && (s.sub.generation == 0 ==> s.sub.emitted == 0)
    && (s.sub.generation != 0 ==> s.sub.stream != 0)
    && (!s.sub.exhausted ==> s.tally.unattributed + s.tally.stale <= s.sub.loss)
  }

  function OnTheWay(s: State): nat {
    |Waiting(s)| + InHand(s) + Flying(s)
  }

  predicate Conserved(s: State) {
    s.sub.emitted + s.tally.unattributed + s.tally.stale
    == s.tally.accepted + s.sub.loss + OnTheWay(s) + s.tally.abandoned
  }

  predicate Inv(s: State) {
    && Order(s)
    && Counters(s)
    && (!s.sub.exhausted ==> Conserved(s))
  }

  // Moving to a new generation leaves nothing of it on the way yet.
  lemma NewGenerationKeeps(s: State, g: nat, newStream: StreamName)
    requires Inv(s) && s.hand.Idle?
    ensures Inv(Renewed(s, g, newStream))
  {
    var s' := Renewed(s, g, newStream);
    if Current(s.sub, g) && g != s.sub.generation {
      SequencesOfOlder(s.sub.queue, g);
      assert Waiting(s') == [];
    }
  }

  lemma UnattributedKeeps(s: State)
    requires Inv(s) && s.hand.Idle?
    ensures Inv(Unattributed(s))
  {
    assert Waiting(Unattributed(s)) == Waiting(s);
  }

  lemma NumberedKeeps(s: State)
    requires Inv(s) && s.hand.Idle? && s.sub.generation != 0
    ensures Inv(Numbered(s))
  {
    assert Waiting(Numbered(s)) == Waiting(s);
  }

  lemma EmitKeeps(s: State, g: nat, attributionLost: bool, newStream: StreamName)
    requires Inv(s) && s.hand.Idle?
    ensures Inv(EmittedToolCall(s, g, attributionLost, newStream))
  {
    if !s.sub.stopped && Current(s.sub, g) {
      var s1 := Renewed(s, g, newStream);
      NewGenerationKeeps(s, g, newStream);
      UnattributedKeeps(s1);
      NumberedKeeps(if attributionLost then Unattributed(s1) else s1);
    }
  }

  lemma PutKeeps(s: State, s': State)
    requires Inv(s) && !s.hand.Idle? && |s.sub.queue| < QUEUE_ROOM
    requires s' == s.(sub := s.sub.(queue := s.sub.queue + [s.hand.item]), hand := Idle)
    ensures Inv(s')
  {
    SequencesAppend(s.sub.queue, s.hand.item, s.sub.generation);
  }

  // Taking the front item out of the queue, whoever takes it.
  lemma FrontOut(s: State)
    requires Order(s) && s.sub.queue != []
    ensures var front := s.sub.queue[0];
      var rest := Sequences(s.sub.queue[1..], s.sub.generation);
      && (front.Counts(s.sub.generation) ==>
            Waiting(s) == [front.sequence] + rest &&
            front.sequence == s.sub.emitted - InHand(s) - |rest|)
      && (!front.Counts(s.sub.generation) ==> Waiting(s) == rest)
      && Consecutive(rest, s.sub.emitted - InHand(s) - |rest| + 1)
  {
    var rest := Sequences(s.sub.queue[1..], s.sub.generation);
    if s.sub.queue[0].Counts(s.sub.generation) {
      assert Waiting(s)[0] == s.sub.queue[0].sequence;
      forall i | 0 <= i < |rest|
        ensures rest[i] == s.sub.emitted - InHand(s) - |rest| + 1 + i
      {
        assert Waiting(s)[i + 1] == rest[i];
      }
    }
  }

  lemma DropKeeps(s: State)
    requires Inv(s) && s.hand.Full?
    ensures Inv(Next(s, DropOldest))
  {
    var s' := Next(s, DropOldest);
    if s.sub.queue != [] {
      FrontOut(s);
      assert Waiting(s') == Sequences(s.sub.queue[1..], s.sub.generation);
    }
  }

  lemma TakeKeeps(s: State)
    requires Inv(s) && Enabled(s, Take)
    ensures Inv(Next(s, Take))
  {
    var s' := Next(s, Take);
    FrontOut(s);
    assert Waiting(s') == Sequences(s.sub.queue[1..], s.sub.generation);
  }

  lemma FinishKeeps(s: State, accepted: bool)
    requires Inv(s) && Enabled(s, Finish(accepted))
    ensures Inv(Next(s, Finish(accepted)))
  {
    var s' := Next(s, Finish(accepted));
    assert Waiting(s') == Waiting(s);
  }

  /** Every step keeps the invariant. */
  lemma StepKeeps(s: State, step: Step)
    requires Inv(s) && Enabled(s, step)
    ensures Inv(Next(s, step))
  {
    match step
    case EmitToolCall(g, attributionLost, newStream) => EmitKeeps(s, g, attributionLost, newStream);
    case Put => if |s.sub.queue| < QUEUE_ROOM { PutKeeps(s, Next(s, step)); }
    case PutAgain => PutKeeps(s, Next(s, step));
    case DropOldest => DropKeeps(s);
    case Take => TakeKeeps(s);
    case Finish(accepted) => FinishKeeps(s, accepted);
    case Snapshot(g, newStream) => NewGenerationKeeps(s, g, newStream);
    case EmitPlain =>
    case Stop =>
  }
}

/**
  Outgoing messages (internal/app/channels.go over internal/store/outbox.go).  A message is
  claimed before it is sent; the claim is a time written to its row, and the row is in flight
  while that time is later than its last settled attempt.  Clocks here may say anything: no
  property below needs them to go forward.
 */
module Outbox {
  import opened Basics

  datatype Effect = NoneKnown | Performed | Unknown

  // One row of the outbox table, as far as delivery reads and writes it.
  datatype Row = Row(toOperator: bool, delivered: bool, parked: bool, effect: Effect, attempts: nat,
                     dispatched: Option<int>, lastAttempt: nat) {
    predicate InFlight() {
      (if dispatched.Some? then dispatched.value else 0) > lastAttempt
    }

    // What a channel may carry, and what the operator's page may show.
    predicate Walkable() { !delivered && !parked && !InFlight() }

    predicate PageMayCarry() { toOperator && !delivered && effect != Unknown && !InFlight() }
  }

  datatype Dispatch = Dispatch(message: nat, at: int, before: Option<int>)

  const MAX_ATTEMPTS: nat := 8

  function ClaimTime(r: Row, now: int): int {
    Max(now, r.lastAttempt + 1)
  }

  function Claimed(r: Row, now: int): Row {
    r.(dispatched := Some(ClaimTime(r, now)))
  }

  predicate Holds(r: Row, d: Dispatch) {
    r.dispatched == Some(d.at) && r.InFlight()
  }

  // An outcome written for a claim the row still holds; otherwise the late result changes nothing.
  function SettledBy(r: Row, d: Dispatch, now: int, mark: Row -> Row): Row {
    if !Holds(r, d) then r
    else mark(r).(attempts := r.attempts + 1, lastAttempt := Max(now, r.dispatched.value), dispatched := r.dispatched)
  }

  function MarkDelivered(r: Row): Row { r.(delivered := true, effect := Performed) }

  function MarkUnknown(r: Row): Row { r.(parked := true, effect := Unknown) }

  function MarkRefused(permanent: bool): Row -> Row {
    (r: Row) => r.(parked := r.parked || permanent || r.attempts + 1 >= MAX_ATTEMPTS)
  }

  function Released(r: Row, d: Dispatch): Row {
    if Holds(r, d) then r.(dispatched := d.before) else r
  }

  // What a boot does to a row left in flight.
  function Interrupted(r: Row, now: int): Row {
    if r.delivered || !r.InFlight() then r
    else r.(attempts := r.attempts + 1, lastAttempt := Max(now, r.dispatched.value), parked := true, effect := Unknown)
  }

  datatype Verdict = SendUnknown | SendDelivered | SendNotSent | SendNeverHere

  predicate MayHaveLeft(v: Verdict) { v == SendUnknown || v == SendDelivered }

  // ---------------------------------------------------------------- the protocol

  // A delivering goroutine: idle, holding a claim between two sends, in the middle of a send or
  // of showing the page, or with a result not written yet.
  datatype Worker =
    | Idle
    | Walking(claim: Dispatch, permanent: bool)
    | Sending(claim: Dispatch, permanent: bool)
    | Showing(claim: Dispatch)
    | Reporting(claim: Dispatch, verdict: Verdict)

  // `left` counts the sends and showings of a message that may have reached somebody.
  datatype Message = Message(row: Row, left: nat)

  datatype State = State(messages: map<nat, Message>, workers: map<nat, Worker>) {
    predicate Works(w: nat, m: nat) {
      w in workers && workers[w] != Idle && workers[w].claim.message == m
    }
  }

  const INITIAL := State(map[], map[])

  datatype Step =
    | Queue(m: nat, toOperator: bool)
    | ClaimToSend(w: nat, m: nat, now: int)
    | ClaimForPage(w: nat, m: nat, now: int)
    | BeginSend(w: nat)
    | Answer(w: nat, verdict: Verdict)
    | Shown(w: nat)
    | NotShown(w: nat, writeFails: bool)
    | WriteOutcome(w: nat, now: int, writeFails: bool)
    | WalkEnds(w: nat, now: int, writeFails: bool)
    | Crash
    | Boot(now: int, writeFails: bool)

  predicate Free(s: State, w: nat) {
    w in s.workers ==> s.workers[w] == Idle
  }

  predicate Enabled(s: State, step: Step) {
    match step
    case Queue(m, _) => m !in s.messages
    case ClaimToSend(w, m, _) => Free(s, w) && m in s.messages
    case ClaimForPage(w, m, _) => Free(s, w) && m in s.messages
    case BeginSend(w) => w in s.workers && s.workers[w].Walking?
    case Answer(w, _) => w in s.workers && s.workers[w].Sending? && s.workers[w].claim.message in s.messages
    case Shown(w) => w in s.workers && s.workers[w].Showing? && s.workers[w].claim.message in s.messages
    case NotShown(w, _) => w in s.workers && s.workers[w].Showing? && s.workers[w].claim.message in s.messages
    case WriteOutcome(w, _, _) =>
      w in s.workers && s.workers[w].Reporting? && MayHaveLeft(s.workers[w].verdict) && s.workers[w].claim.message in s.messages
    case WalkEnds(w, _, _) => w in s.workers && s.workers[w].Walking? && s.workers[w].claim.message in s.messages
    case Crash => true
    case Boot(_, _) => true
  }

  function WithRow(s: State, m: nat, r: Row): State
    requires m in s.messages
  {
    s.(messages := s.messages[m := s.messages[m].(row := r)])
  }

  function WithWorker(s: State, w: nat, x: Worker): State {
    s.(workers := s.workers[w := x])
  }

  function WithOneMoreLeft(s: State, m: nat): State
    requires m in s.messages
  {
    s.(messages := s.messages[m := s.messages[m].(left := s.messages[m].left + 1)])
  }

  // The messages a crash interrupts in the middle of a send or a showing.
  function CutShort(s: State): set<nat> {
    set w | w in s.workers && (s.workers[w].Sending? || s.workers[w].Showing?) :: s.workers[w].claim.message
  }

  function Next(s: State, step: Step): State
    requires Enabled(s, step)
  {
    match step
    case Queue(m, toOperator) =>
      s.(messages := s.messages[m := Message(Row(toOperator, false, false, NoneKnown, 0, None, 0), 0)])
    case ClaimToSend(w, m, now) =>
      var r := s.messages[m].row;
      if !r.Walkable() then s
      else WithWorker(WithRow(s, m, Claimed(r, now)), w, Walking(Dispatch(m, ClaimTime(r, now), r.dispatched), false))
    case ClaimForPage(w, m, now) =>
      var r := s.messages[m].row;
      if !r.PageMayCarry() then s
      else WithWorker(WithRow(s, m, Claimed(r, now)), w, Showing(Dispatch(m, ClaimTime(r, now), r.dispatched)))
    case BeginSend(w) => WithWorker(s, w, Sending(s.workers[w].claim, s.workers[w].permanent))
    case Answer(w, verdict) =>
      var x := s.workers[w];
      if MayHaveLeft(verdict) then
        WithWorker(WithOneMoreLeft(s, x.claim.message), w, Reporting(x.claim, verdict))
      else WithWorker(s, w, Walking(x.claim, x.permanent || verdict == SendNeverHere))
    case Shown(w) =>
      var x := s.workers[w];
      WithWorker(WithOneMoreLeft(s, x.claim.message), w, Reporting(x.claim, SendDelivered))
    case NotShown(w, writeFails) =>
      var d := s.workers[w].claim;
      var s' := WithWorker(s, w, Idle);
      if writeFails then s' else WithRow(s', d.message, Released(s.messages[d.message].row, d))
    case WriteOutcome(w, now, writeFails) =>
      var d := s.workers[w].claim;
      var s' := WithWorker(s, w, Idle);
      var mark := if s.workers[w].verdict == SendDelivered then MarkDelivered else MarkUnknown;
      if writeFails then s' else WithRow(s', d.message, SettledBy(s.messages[d.message].row, d, now, mark))
    case WalkEnds(w, now, writeFails) =>
      var d := s.workers[w].claim;
      var s' := WithWorker(s, w, Idle);
      if writeFails then s'
      else WithRow(s', d.message, SettledBy(s.messages[d.message].row, d, now, MarkRefused(s.workers[w].permanent)))
    case Crash =>
      var cut := CutShort(s);
      State(map m | m in s.messages :: if m in cut then s.messages[m].(left := s.messages[m].left + 1) else s.messages[m],
            map[])
    case Boot(now, writeFails) =>
      if writeFails then s
      else s.(messages := map m | m in s.messages :: s.messages[m].(row := Interrupted(s.messages[m].row, now)))
  }

  // ----------------------------------------------------------------- invariant

  // A row nobody may claim any more, now or ever: each of these conditions outlasts a claim.
  predicate Closed(r: Row) {
    r.delivered || r.effect == Unknown || r.InFlight()
  }

  predicate RowFits(r: Row) {
    r.effect == Unknown ==> r.parked && !r.InFlight()
  }

  // One message and the worker that holds a claim on it.
  predicate HolderFits(msg: Message, x: Worker)
    requires x != Idle
  {
    && (Holds(msg.row, x.claim) || msg.row.effect == Unknown)
    && !msg.row.delivered
    && (if x.claim.before.Some? then x.claim.before.value else 0) <= msg.row.lastAttempt
    && msg.left == (if x.Reporting? then 1 else 0)
    && (x.Reporting? ==> MayHaveLeft(x.verdict))
  }

  predicate Inv(s: State) {
    && (forall m :: m in s.messages ==>
          && RowFits(s.messages[m].row)
          && s.messages[m].left <= 1
          && (s.messages[m].left == 1 ==> Closed(s.messages[m].row)))
    && (forall w :: w in s.workers && s.workers[w] != Idle ==>
          && s.workers[w].claim.message in s.messages
          && HolderFits(s.messages[s.workers[w].claim.message], s.workers[w]))
    && (forall w, v :: (
          && w in s.workers && v in s.workers && s.workers[w] != Idle && s.workers[v] != Idle
          && s.workers[w].claim.message == s.workers[v].claim.message) ==> w == v)
  }

  // A claim is granted only while nobody holds one and nothing may have left.
  lemma ClaimableIsUntouched(s: State, m: nat)
    requires Inv(s) && m in s.messages
    requires s.messages[m].row.Walkable() || s.messages[m].row.PageMayCarry()
    ensures s.messages[m].left == 0
    ensures forall w :: !s.Works(w, m)
  {
    assert forall w :: s.Works(w, m) ==> HolderFits(s.messages[m], s.workers[w]);
  }

  lemma ClaimKeeps(s: State, step: Step)
    requires Inv(s) && Enabled(s, step) && (step.ClaimToSend? || step.ClaimForPage?)
    ensures Inv(Next(s, step))
  {
    var s' := Next(s, step);
    var r := s.messages[step.m].row;
    if s' != s {
      ClaimableIsUntouched(s, step.m);
      assert Claimed(r, step.now).InFlight();
      assert HolderFits(s'.messages[step.m], s'.workers[step.w]);
      forall w | w in s'.workers && w != step.w && s'.workers[w] != Idle
        ensures s'.workers[w].claim.message != step.m
      {
        assert !s.Works(w, step.m);
      }
    }
  }

  // A worker lets its claim go, the row changed or not.
  lemma LetGoKeeps(s: State, w: nat, r: Row)
    requires Inv(s) && w in s.workers && s.workers[w] != Idle
    requires var m := s.workers[w].claim.message; m in s.messages && RowFits(r) && (s.messages[m].left == 1 ==> Closed(r))
    ensures Inv(WithRow(WithWorker(s, w, Idle), s.workers[w].claim.message, r))
  {
    var m := s.workers[w].claim.message;
    var s' := WithRow(WithWorker(s, w, Idle), m, r);
    forall v | v in s'.workers && s'.workers[v] != Idle
      ensures v in s.workers && s.workers[v] == s'.workers[v] && s.workers[v].claim.message != m
    {
    }
  }

  lemma SameRow(s: State, w: nat)
    requires w in s.workers && s.workers[w] != Idle && s.workers[w].claim.message in s.messages
    ensures var m := s.workers[w].claim.message;
      WithRow(WithWorker(s, w, Idle), m, s.messages[m].row) == WithWorker(s, w, Idle)
  {
    var m := s.workers[w].claim.message;
    assert s.messages[m := s.messages[m].(row := s.messages[m].row)] == s.messages;
  }

  lemma OutcomeKeeps(s: State, step: Step)
    requires Inv(s) && Enabled(s, step) && (step.WriteOutcome? || step.WalkEnds? || step.NotShown?)
    ensures Inv(Next(s, step))
  {
    var x := s.workers[step.w];
    var m := x.claim.message;
    var r := s.messages[m].row;
    assert HolderFits(s.messages[m], x);
    SameRow(s, step.w);
    if step.writeFails {
      LetGoKeeps(s, step.w, r);
    } else {
      match step {
        case WriteOutcome(_, now, _) =>
          var mark := if x.verdict == SendDelivered then MarkDelivered else MarkUnknown;
          LetGoKeeps(s, step.w, SettledBy(r, x.claim, now, mark));
        case WalkEnds(_, now, _) =>
          LetGoKeeps(s, step.w, SettledBy(r, x.claim, now, MarkRefused(x.permanent)));
        case NotShown(_, _) =>
          LetGoKeeps(s, step.w, Released(r, x.claim));
      }
    }
  }

  lemma CrashKeeps(s: State)
    requires Inv(s)
    ensures Inv(Next(s, Crash))
  {
    var s' := Next(s, Crash);
    forall m | m in s'.messages
      ensures s'.messages[m].left <= 1 && (s'.messages[m].left == 1 ==> Closed(s'.messages[m].row))
    {
      if m in CutShort(s) {
        var w :| w in s.workers && (s.workers[w].Sending? || s.workers[w].Showing?) && s.workers[w].claim.message == m;
        assert HolderFits(s.messages[m], s.workers[w]);
      }
    }
  }

  lemma BootKeeps(s: State, now: int)
    requires Inv(s)
    ensures Inv(Next(s, Boot(now, false)))
  {
    var s' := Next(s, Boot(now, false));
    forall w | w in s'.workers && s'.workers[w] != Idle
      ensures s'.workers[w].claim.message in s'.messages
      ensures HolderFits(s'.messages[s'.workers[w].claim.message], s'.workers[w])
    {
      assert HolderFits(s.messages[s.workers[w].claim.message], s.workers[w]);
    }
  }

  /** Every step keeps the invariant. */
  lemma StepKeeps(s: State, step: Step)
    requires Inv(s) && Enabled(s, step)
    ensures Inv(Next(s, step))
  {
    match step
    case ClaimToSend(_, _, _) => ClaimKeeps(s, step);
    case ClaimForPage(_, _, _) => ClaimKeeps(s, step);
    case NotShown(_, _) => OutcomeKeeps(s, step);
    case WriteOutcome(_, _, _) => OutcomeKeeps(s, step);
    case WalkEnds(_, _, _) => OutcomeKeeps(s, step);
    case Crash => CrashKeeps(s);
    case Boot(now, writeFails) => if !writeFails { BootKeeps(s, now); }
    case Queue(_, _) => QueueKeeps(s, step);
    case BeginSend(_) => SendKeeps(s, step);
    case Answer(_, _) => SendKeeps(s, step);
    case Shown(_) => SendKeeps(s, step);
  }

  lemma QueueKeeps(s: State, step: Step)
    requires Inv(s) && Enabled(s, step) && step.Queue?
    ensures Inv(Next(s, step))
  {
  }

  lemma SendKeeps(s: State, step: Step)
    requires Inv(s) && Enabled(s, step) && (step.BeginSend? || step.Answer? || step.Shown?)
    ensures Inv(Next(s, step))
  {
    var s' := Next(s, step);
    var m := s.workers[step.w].claim.message;
    assert HolderFits(s.messages[m], s.workers[step.w]);
    assert HolderFits(s'.messages[m], s'.workers[step.w]);
    forall w | w in s'.workers && w != step.w && s'.workers[w] != Idle
      ensures s'.workers[w] == s.workers[w] && s'.workers[w].claim.message != m
    {
    }
  }
}

/**
  The one door events go through into the ledger (internal/app/adapters.go over
  internal/ledger/ledger.go): an event is checked, appended, recovered once if a seal was left
  half done, and applied to the projection; and for a bounded while a head being witnessed may
  ask other appends to wait.

  The door's mutex is held from the end of the wait to the end of the admission, so an admission
  is one step; the wait lets the mutex go, so it is a state of its own.
 */
module LedgerDoor {
  import opened Basics

  // An event, by the number of the call that offers it.
  type Event = nat

  // `applied` are the events the projection holds; `maybe` counts events that may stand in the
  // file although their append was not acknowledged.
  datatype Record = Record(events: seq<Event>, applied: seq<Event>, frozen: bool, sealBroken: bool, maybe: nat)

  // What the world answers to one append: the tail as the file holds it, the event's own fitness
  // to be written, and the write.
  datatype World = World(tailIntact: bool, fits: bool, written: bool)

  datatype Appended = Added | SealFirst | Refused

  function AppendPrepared(r: Record, e: Event, w: World): (Record, Appended) {
    if r.frozen then (r, Refused)
    else if r.sealBroken then (r, SealFirst)
    else if !w.tailIntact then (r.(frozen := true), Refused)
    else if !w.fits then (r, Refused)
    else if !w.written then (r.(frozen := true, maybe := r.maybe + 1), Refused)
    else (r.(events := r.events + [e]), Added)
  }

  datatype Recovery = Recovered | Unverified | Corrupt

  function RecoverSeal(r: Record, how: Recovery): (Record, bool) {
    if r.frozen then (r, false)
    else if !r.sealBroken then (r, true)
    else match how
      case Recovered => (r.(sealBroken := false), true)
      case Unverified => (r, false)
      case Corrupt => (r.(frozen := true), false)
  }

  datatype Admission = Admission(valid: bool, first: World, recovery: Recovery, second: World, materializes: bool)

  // The append, and after a successful recovery the same prepared event once more.
  function AppendRecovering(r: Record, e: Event, a: Admission): (Record, Appended) {
    var (r1, got) := AppendPrepared(r, e, a.first);
    if got != SealFirst then (r1, got)
    else
      var (r2, recovered) := RecoverSeal(r1, a.recovery);
      if recovered then AppendPrepared(r2, e, a.second) else (r2, Refused)
  }

  function Admitted(r: Record, e: Event, a: Admission): Record {
    if !a.valid then r
    else
      var (r', got) := AppendRecovering(r, e, a);
      if got != Added then r'
      else if a.materializes then r'.(applied := r'.applied + [e])
      else r'.(frozen := true)
  }

  // ---------------------------------------------------------------- the protocol

  // Two seconds, in milliseconds.
  const PAUSE_BOUND: int := 2000

  datatype Pause = Pause(id: nat, until: int)

  datatype Appender =
    | Waiting(end: nat, wake: int, since: int)
    | Ready
    | Done

  datatype State = State(now: int, record: Record, pause: Option<Pause>, pauses: nat, ended: set<nat>,
                         appenders: map<Event, Appender>) {
    predicate Pausing() { pause.Some? && now < pause.value.until }
  }

  const INITIAL := State(0, Record([], [], false, false, 0), None, 0, {}, map[])

  datatype Step =
    | Tick(elapsed: nat)
    | PauseAppends
    | ReleasePause(id: nat)
    | Arrive(e: Event, head: bool)
    | Wake(e: Event)
    | Admit(e: Event, how: Admission)
    | Freeze
    | SealBreaks

  predicate Enabled(s: State, step: Step) {
    match step
    case Arrive(e, _) => e !in s.appenders
    case Wake(e) =>
      && e in s.appenders && s.appenders[e].Waiting?
      && (s.appenders[e].end in s.ended || s.appenders[e].wake <= s.now)
    case Admit(e, _) => e in s.appenders && s.appenders[e].Ready?
    case ReleasePause(id) => id < s.pauses
    case _ => true
  }

  function Next(s: State, step: Step): State
    requires Enabled(s, step)
  {
    match step
    case Tick(elapsed) => s.(now := s.now + elapsed)
    case PauseAppends =>
      if s.Pausing() then s else s.(pause := Some(Pause(s.pauses, s.now + PAUSE_BOUND)), pauses := s.pauses + 1)
    case ReleasePause(id) =>
      if s.pause.Some? && s.pause.value.id == id then s.(pause := None, ended := s.ended + {id}) else s
    case Arrive(e, head) =>
      if head || !s.Pausing() then s.(appenders := s.appenders[e := Ready])
      else s.(appenders := s.appenders[e := Waiting(s.pause.value.id, s.pause.value.until, s.now)])
    case Wake(e) => s.(appenders := s.appenders[e := Ready])
    case Admit(e, how) => s.(record := Admitted(s.record, e, how), appenders := s.appenders[e := Done])
    case Freeze => s.(record := s.record.(frozen := true))
    case SealBreaks => s.(record := s.record.(sealBroken := true))
  }

  // ----------------------------------------------------------------- invariant

  // While the record is not frozen the projection holds exactly its events; a frozen one lacks
  // at most the last, or has at most one event nobody can vouch for.
  predicate RecordFits(r: Record) {
    && (!r.frozen ==> r.applied == r.events && r.maybe == 0)
    && r.applied <= r.events
    && |r.events| + r.maybe <= |r.applied| + 1
  }

  predicate Inv(s: State) {
    && RecordFits(s.record)
    && (s.pause.Some? ==> s.pause.value.id < s.pauses && s.pause.value.until <= s.now + PAUSE_BOUND)
    && (s.pause.Some? ==> s.pause.value.id !in s.ended)
    && (forall id :: id in s.ended ==> id < s.pauses)
    && (forall e :: e in s.appenders && s.appenders[e].Waiting? ==>
          s.appenders[e].wake <= s.appenders[e].since + PAUSE_BOUND && s.appenders[e].since <= s.now)
    && (forall i :: 0 <= i < |s.record.events| ==>
          s.record.events[i] in s.appenders && s.appenders[s.record.events[i]] == Done)
    && (forall i, j :: 0 <= i < j < |s.record.events| ==> s.record.events[i] != s.record.events[j])
  }

  /** One admission adds at most its one event, even when it appends twice around a recovery; what
      it adds it either applies or leaves the record frozen. */
  lemma AdmissionAddsAtMostOne(r: Record, e: Event, a: Admission)
    requires RecordFits(r)
    ensures var r' := Admitted(r, e, a);
      && (r'.events == r.events || r'.events == r.events + [e])
      && RecordFits(r')
      && (r.frozen ==> r' == r)
      && (r'.events != r.events ==> a.valid && (r'.applied == r.applied + [e] <==> !r'.frozen))
  {
  }

  // The append that counts: the only one, or the one after a recovery.
  function Deciding(r: Record, a: Admission): World {
    if r.sealBroken then a.second else a.first
  }

  // The admission gets as far as writing.
  predicate ComesToWrite(r: Record, a: Admission) {
    && a.valid && !r.frozen && (r.sealBroken ==> a.recovery == Recovered)
    && Deciding(r, a).tailIntact && Deciding(r, a).fits
  }

  /** An event is appended exactly when it is valid, the record is not frozen, a broken seal was
      recovered, and the tail is intact, the event fits and the write succeeds; it is applied exactly
      when it then materializes. */
  lemma AppendedIff(r: Record, e: Event, a: Admission)
    ensures var r' := Admitted(r, e, a);
      && r'.events == (if ComesToWrite(r, a) && Deciding(r, a).written then r.events + [e] else r.events)
      && r'.applied == (if ComesToWrite(r, a) && Deciding(r, a).written && a.materializes then r.applied + [e] else r.applied)
      && (r'.sealBroken <==> r.sealBroken && !(a.valid && !r.frozen && a.recovery == Recovered))
  {
  }

  predicate Freezes(r: Record, a: Admission) {
    && a.valid
    && (|| (r.sealBroken && a.recovery == Corrupt)
        || ((r.sealBroken ==> a.recovery == Recovered) && !Deciding(r, a).tailIntact)
        || (ComesToWrite(r, a) && (!Deciding(r, a).written || !a.materializes)))
  }

  /** A recovery succeeds exactly when it leaves the record neither frozen nor with a broken seal. */
  lemma RecoveredIsWhole(r: Record, how: Recovery)
    ensures var (r', ok) := RecoverSeal(r, how);
      && (ok <==> !r'.frozen && !r'.sealBroken)
      && r'.events == r.events && r'.applied == r.applied && r'.maybe == r.maybe
  {
  }

  /** The record freezes exactly on a corrupt seal, a tail that is not intact, a write that may have
      been half done, or an event that did not materialize. */
  lemma FreezesIff(r: Record, e: Event, a: Admission)
    requires !r.frozen
    ensures Admitted(r, e, a).frozen <==> Freezes(r, a)
    ensures Admitted(r, e, a).maybe == r.maybe + if ComesToWrite(r, a) && !Deciding(r, a).written then 1 else 0
  {
  }

  /** An append that arrives while a pause is in force waits for that pause, to its time at most; a head,
      or any append with none in force, is ready at once. */
  lemma ArrivalWaitsIff(s: State, e: Event, head: bool)
    requires e !in s.appenders
    ensures var x := Next(s, Arrive(e, head)).appenders[e];
      && (x.Waiting? <==> !head && s.pause.Some? && s.now < s.pause.value.until)
      && (x.Waiting? ==> x.end == s.pause.value.id && x.wake == s.pause.value.until && x.since == s.now)
      && (!x.Waiting? ==> x == Ready)
  {
  }

  /** A pause asked for while none is in force is new and lasts two seconds; one asked for while another
      is in force changes nothing. */
  lemma PauseAskedFor(s: State)
    ensures var s' := Next(s, PauseAppends);
      if s.pause.Some? && s.now < s.pause.value.until then s' == s
      else s' == s.(pause := Some(Pause(s.pauses, s.now + 2000)), pauses := s.pauses + 1)
  {
  }

  lemma StepKeeps(s: State, step: Step)
    requires Inv(s) && Enabled(s, step)
    ensures Inv(Next(s, step))
  {
    var s' := Next(s, step);
    if step.Admit? {
      AdmissionAddsAtMostOne(s.record, step.e, step.how);
      assert forall i :: 0 <= i < |s.record.events| ==> s.record.events[i] != step.e;
    }
  }

  // --------------------------------------------------------------------- runs

  predicate IsRun(states: seq<State>, steps: seq<Step>) {
    && |states| == |steps| + 1
    && states[0] == INITIAL
    && forall i :: 0 <= i < |steps| ==> Enabled(states[i], steps[i]) && states[i + 1] == Next(states[i], steps[i])
  }

  lemma {:induction false} RunKeeps(states: seq<State>, steps: seq<Step>, i: nat)
    requires IsRun(states, steps) && i < |states|
    ensures Inv(states[i])
  {
    if i > 0 {
      RunKeeps(states, steps, i - 1);
      StepKeeps(states[i - 1], steps[i - 1]);
    }
  }

  /** While the record is not frozen the projection is the replay of it, and each offered event
      stands in it at most once. */
  lemma ProjectionIsTheReplay(states: seq<State>, steps: seq<Step>, i: nat)
    requires IsRun(states, steps) && i < |states|
    ensures !states[i].record.frozen ==> states[i].record.applied == states[i].record.events
    ensures states[i].record.applied <= states[i].record.events
    ensures |states[i].record.events| <= |states[i].record.applied| + 1
    ensures forall a, b :: 0 <= a < b < |states[i].record.events| ==> states[i].record.events[a] != states[i].record.events[b]
  {
    RunKeeps(states, steps, i);
  }

  // The events applied one after another to a starting value.
  function Replay<S>(start: S, events: seq<Event>, apply: (S, Event) -> S): S {
    if events == [] then start else apply(Replay(start, events[..|events| - 1], apply), events[|events| - 1])
  }

  // The projection as a run builds it: each admission that materializes applies its event.
  function Projected<S>(states: seq<State>, steps: seq<Step>, i: nat, start: S, apply: (S, Event) -> S): S
    requires |states| == |steps| + 1 && i < |states|
  {
    if i == 0 then start
    else
      var before := Projected(states, steps, i - 1, start, apply);
      if steps[i - 1].Admit? && |states[i - 1].record.applied| < |states[i].record.applied|
      then apply(before, steps[i - 1].e) else before
  }

  lemma AdmittedApplies(r: Record, e: Event, a: Admission)
    ensures Admitted(r, e, a).applied == r.applied || Admitted(r, e, a).applied == r.applied + [e]
  {
  }

  lemma RunApplies(states: seq<State>, steps: seq<Step>, i: nat)
    requires IsRun(states, steps) && i < |steps|
    ensures
      || states[i + 1].record.applied == states[i].record.applied
      || (steps[i].Admit? && states[i + 1].record.applied == states[i].record.applied + [steps[i].e])
  {
    if steps[i].Admit? {
      AdmittedApplies(states[i].record, steps[i].e, steps[i].how);
    }
  }

  lemma {:induction false} ProjectedIsReplay<S>(states: seq<State>, steps: seq<Step>, i: nat, start: S, apply: (S, Event) -> S)
    requires IsRun(states, steps) && i < |states|
    ensures Projected(states, steps, i, start, apply) == Replay(start, states[i].record.applied, apply)
  {
    if i > 0 {
      ProjectedIsReplay(states, steps, i - 1, start, apply);
      RunApplies(states, steps, i - 1);
      if states[i].record.applied != states[i - 1].record.applied {
        var was := states[i - 1].record.applied;
        assert (was + [steps[i - 1].e])[..|was|] == was;
      }
    }
  }

  /** So while the record is not frozen the projection, whatever it computes, is the fold of the
      ledger's events, in their order. */
  lemma ProjectionIsTheFold<S>(states: seq<State>, steps: seq<Step>, i: nat, start: S, apply: (S, Event) -> S)
    requires IsRun(states, steps) && i < |states| && !states[i].record.frozen
    ensures Projected(states, steps, i, start, apply) == Replay(start, states[i].record.events, apply)
  {
    ProjectedIsReplay(states, steps, i, start, apply);
    ProjectionIsTheReplay(states, steps, i);
  }

  // Time goes on, the record only grows, a frozen one not at all, and an ended pause stays ended.
  predicate Onward(s: State, s': State) {
    && s.now <= s'.now
    && s.record.events <= s'.record.events
    && (s.record.frozen ==> s'.record.frozen && s'.record.events == s.record.events && s'.record.applied == s.record.applied)
    && s.ended <= s'.ended && s.pauses <= s'.pauses
  }

  lemma {:induction false} RunOnward(states: seq<State>, steps: seq<Step>, i: nat, j: nat)
    requires IsRun(states, steps) && i <= j < |states|
    ensures Onward(states[i], states[j])
    decreases j
  {
    if i < j {
      RunOnward(states, steps, i, j - 1);
      RunStepOnward(states, steps, j - 1);
      OnwardTwice(states[i], states[j - 1], states[j]);
    }
  }

  lemma OnwardTwice(a: State, b: State, c: State)
    requires Onward(a, b) && Onward(b, c)
    ensures Onward(a, c)
  {
  }

  lemma RunStepOnward(states: seq<State>, steps: seq<Step>, i: nat)
    requires IsRun(states, steps) && i < |steps|
    ensures Onward(states[i], states[i + 1])
  {
    RunKeeps(states, steps, i);
    StepOnward(states[i], steps[i]);
  }

  lemma StepOnward(s: State, step: Step)
    requires Inv(s) && Enabled(s, step)
    ensures Onward(s, Next(s, step))
  {
    if step.Admit? {
      AdmissionAddsAtMostOne(s.record, step.e, step.how);
    }
  }

  /** After one event that did not materialize, no further event is appended. */
  lemma NothingAfterADivergence(states: seq<State>, steps: seq<Step>, i: nat, j: nat)
    requires IsRun(states, steps) && i < j < |states|
    requires steps[i].Admit? && !steps[i].how.materializes
    requires states[i + 1].record.events != states[i].record.events
    ensures states[j].record.events == states[i].record.events + [steps[i].e]
    ensures states[j].record.applied == states[i].record.applied && states[j].record.frozen
  {
    RunKeeps(states, steps, i);
    AdmissionAddsAtMostOne(states[i].record, steps[i].e, steps[i].how);
    RunOnward(states, steps, i + 1, j);
  }

  // ------------------------------------------------------- what the steps so far made

  // The step is an admission that writes its event.
  predicate Appends(s: State, step: Step) {
    step.Admit? && ComesToWrite(s.record, step.how) && Deciding(s.record, step.how).written
  }

  function Times(steps: seq<Step>): int {
    if steps == [] then 0
    else
      var last := steps[|steps| - 1];
      Times(steps[..|steps| - 1]) + if last.Tick? then last.elapsed else 0
  }

  function AppendedBy(states: seq<State>, steps: seq<Step>, i: nat): seq<Event>
    requires |states| == |steps| + 1 && i < |states|
  {
    if i == 0 then []
    else AppendedBy(states, steps, i - 1) + if Appends(states[i - 1], steps[i - 1]) then [steps[i - 1].e] else []
  }

  /** The ledger of a run is the events of its successful admissions, in the order of the admissions,
      and its clock the time that passed. */
  lemma {:induction false} LedgerIsTheAdmitted(states: seq<State>, steps: seq<Step>, i: nat)
    requires IsRun(states, steps) && i < |states|
    ensures states[i].record.events == AppendedBy(states, steps, i)
    ensures states[i].now == Times(steps[..i])
  {
    if i > 0 {
      LedgerIsTheAdmitted(states, steps, i - 1);
      assert steps[..i][..i - 1] == steps[..i - 1];
      if steps[i - 1].Admit? {
        AppendedIff(states[i - 1].record, steps[i - 1].e, steps[i - 1].how);
      }
    }
  }

  predicate FreezesNow(s: State, step: Step) {
    step.Freeze? || (step.Admit? && !s.record.frozen && Freezes(s.record, step.how))
  }

  predicate MendsNow(s: State, step: Step) {
    step.Admit? && step.how.valid && !s.record.frozen && step.how.recovery == Recovered
  }

  // The seal broke at a step and no admission has mended it since.
  predicate BrokenSince(states: seq<State>, steps: seq<Step>, k: nat, i: nat)
    requires |states| == |steps| + 1 && k < i < |states|
  {
    steps[k].SealBreaks? && forall n :: k < n < i ==> !MendsNow(states[n], steps[n])
  }

  lemma StepFreezesIff(s: State, step: Step)
    requires Inv(s) && Enabled(s, step)
    ensures Next(s, step).record.frozen <==> s.record.frozen || FreezesNow(s, step)
    ensures Next(s, step).record.sealBroken <==> step.SealBreaks? || (s.record.sealBroken && !MendsNow(s, step))
  {
    if step.Admit? {
      AppendedIff(s.record, step.e, step.how);
      if s.record.frozen {
        AdmissionAddsAtMostOne(s.record, step.e, step.how);
      } else {
        FreezesIff(s.record, step.e, step.how);
      }
    }
  }

  lemma RunFreezesIff(states: seq<State>, steps: seq<Step>, i: nat)
    requires IsRun(states, steps) && i < |steps|
    ensures states[i + 1].record.frozen <==> states[i].record.frozen || FreezesNow(states[i], steps[i])
    ensures states[i + 1].record.sealBroken <==>
      steps[i].SealBreaks? || (states[i].record.sealBroken && !MendsNow(states[i], steps[i]))
  {
    RunKeeps(states, steps, i);
    StepFreezesIff(states[i], steps[i]);
  }

  /** The record is frozen exactly when a step so far froze it: nothing thaws it. */
  lemma {:induction false} FrozenIff(states: seq<State>, steps: seq<Step>, i: nat)
    requires IsRun(states, steps) && i < |states|
    ensures states[i].record.frozen <==> exists k :: 0 <= k < i && FreezesNow(states[k], steps[k])
  {
    if i > 0 {
      FrozenIff(states, steps, i - 1);
      RunFreezesIff(states, steps, i - 1);
    }
  }

  /** The seal stands broken exactly when it broke and no admission has mended it since. */
  lemma {:induction false} SealBrokenIff(states: seq<State>, steps: seq<Step>, i: nat)
    requires IsRun(states, steps) && i < |states|
    ensures states[i].record.sealBroken <==> exists k :: 0 <= k < i && BrokenSince(states, steps, k, i)
  {
    if i > 0 {
      SealBrokenIff(states, steps, i - 1);
      RunFreezesIff(states, steps, i - 1);
      forall k | 0 <= k < i
        ensures BrokenSince(states, steps, k, i) <==>
          if k == i - 1 then steps[k].SealBreaks?
          else BrokenSince(states, steps, k, i - 1) && !MendsNow(states[i - 1], steps[i - 1])
      {
      }
      if steps[i - 1].SealBreaks? {
        assert BrokenSince(states, steps, i - 1, i);
      }
    }
  }

  function Rank(s: State, e: Event): nat {
    if e !in s.appenders then 0
    else match s.appenders[e]
      case Waiting(_, _, _) => 1
      case Ready => 2
      case Done => 3
  }

  lemma {:induction false} RankRises(states: seq<State>, steps: seq<Step>, i: nat, j: nat, e: Event)
    requires IsRun(states, steps) && i <= j < |states|
    ensures Rank(states[i], e) <= Rank(states[j], e)
    ensures Rank(states[i], e) == 1 && Rank(states[j], e) == 1 ==> states[i].appenders[e] == states[j].appenders[e]
    decreases j
  {
    if i < j {
      RankRises(states, steps, i, j - 1, e);
    }
  }

  // The step lets the event go on: its wait is over, or it never had to wait.
  predicate GoesOn(s: State, step: Step, e: Event) {
    step == Wake(e) || (step.Arrive? && step.e == e && (step.head || !s.Pausing()))
  }

  predicate Admits(step: Step, e: Event) {
    step.Admit? && step.e == e
  }

  /** An event is ready once it arrived outside a pause, or as a head, or woke; and done once it was
      admitted, whatever came of it. */
  lemma {:induction false} RankIs(states: seq<State>, steps: seq<Step>, i: nat, e: Event)
    requires IsRun(states, steps) && i < |states|
    ensures Rank(states[i], e) >= 2 <==> exists k :: 0 <= k < i && GoesOn(states[k], steps[k], e)
    ensures Rank(states[i], e) == 3 <==> exists k :: 0 <= k < i && Admits(steps[k], e)
  {
    if i > 0 {
      RankIs(states, steps, i - 1, e);
      StepRank(states[i - 1], steps[i - 1], e);
    }
  }

  lemma StepRank(s: State, step: Step, e: Event)
    requires Enabled(s, step)
    ensures Rank(Next(s, step), e) >= 2 <==> Rank(s, e) >= 2 || GoesOn(s, step, e)
    ensures Rank(Next(s, step), e) == 3 <==> Rank(s, e) == 3 || Admits(step, e)
  {
  }

  /** An append waits for one pause at most, and past one bound after it arrived nothing holds it:
      it may wake; a head never waits. */
  lemma WaitsAtMostOneBound(states: seq<State>, steps: seq<Step>, i: nat, j: nat, e: Event)
    requires IsRun(states, steps) && i < j < |states|
    requires steps[i].Arrive? && steps[i].e == e
    ensures steps[i].head ==> Rank(states[j], e) >= 2
    ensures Rank(states[j], e) == 1 && states[i].now + PAUSE_BOUND <= states[j].now ==> Enabled(states[j], Wake(e))
  {
    RunKeeps(states, steps, i + 1);
    RankRises(states, steps, i + 1, j, e);
  }

  predicate ReleasedBefore(states: seq<State>, steps: seq<Step>, i: nat, id: nat)
    requires |states| == |steps| + 1 && i < |states|
  {
    exists k :: (
      && 0 <= k < i && steps[k] == ReleasePause(id)
      && states[k].pause.Some? && states[k].pause.value.id == id)
  }

  /** The pauses that ended before their time are exactly those that were released while in force. */
  lemma {:induction false} EndedByRelease(states: seq<State>, steps: seq<Step>, i: nat, id: nat)
    requires IsRun(states, steps) && i < |states|
    ensures id in states[i].ended <==> ReleasedBefore(states, steps, i, id)
  {
    if i > 0 {
      EndedByRelease(states, steps, i - 1, id);
    }
  }

  /** An append that wakes before its pause's time does so because that very pause was released,
      while it was the pause in force. */
  lemma EarlyOnlyByRelease(states: seq<State>, steps: seq<Step>, i: nat, e: Event)
    requires IsRun(states, steps) && i < |steps|
    requires steps[i] == Wake(e) && states[i].now < states[i].appenders[e].wake
    ensures ReleasedBefore(states, steps, i, states[i].appenders[e].end)
  {
    EndedByRelease(states, steps, i, states[i].appenders[e].end);
  }

  /** A pause in force ends early only by its own release: not by another one's, and not by a
      second pause. */
  lemma PauseEndsOnlyByItsOwn(states: seq<State>, steps: seq<Step>, i: nat)
    requires IsRun(states, steps) && i < |steps| && states[i].Pausing()
    requires states[i + 1].pause != states[i].pause
    ensures steps[i] == ReleasePause(states[i].pause.value.id)
  {
  }

  // ------------------------------------------------------------------- the door

  class Door {
    var record: Record
    var pause: Option<Pause>
    var pauses: nat
    var ended: set<nat>

    ghost function Model(now: int, appenders: map<Event, Appender>): State
      reads this
    {
      State(now, record, pause, pauses, ended, appenders)
    }

    // The release returned is of the pause made here, or of none.
    method AskForPause(now: int, ghost appenders: map<Event, Appender>) returns (release: Option<nat>)
      modifies this
      ensures Model(now, appenders) == Next(old(Model(now, appenders)), PauseAppends)
      ensures release.Some? <==> !old(Model(now, appenders)).Pausing()
      ensures release.Some? ==> pause == Some(Pause(release.value, now + PAUSE_BOUND))
    {
      if pause.Some? && now < pause.value.until {
        return None;
      }
      pause := Some(Pause(pauses, now + PAUSE_BOUND));
      release := Some(pauses);
      pauses := pauses + 1;
    }

    method Release(id: nat, now: int, ghost appenders: map<Event, Appender>)
      requires id < pauses
      modifies this
      ensures Model(now, appenders) == Next(old(Model(now, appenders)), ReleasePause(id))
    {
      if pause.Some? && pause.value.id == id {
        ended := ended + {id};
        pause := None;
      }
    }

    // The admission proper, its wait over.
    method AdmitNow(e: Event, a: Admission) returns (ok: bool)
      requires RecordFits(record)
      modifies this
      ensures record == Admitted(old(record), e, a) && RecordFits(record)
      ensures pause == old(pause) && pauses == old(pauses) && ended == old(ended)
      ensures ok <==> record.applied == old(record).applied + [e] && record.events == old(record).events + [e]
    {
      AdmissionAddsAtMostOne(record, e, a);
      if !a.valid {
        return false;
      }
      var got: Appended;
      var (r1, first) := AppendPrepared(record, e, a.first);
      record, got := r1, first;
      if got == SealFirst {
        var (r2, recovered) := RecoverSeal(record, a.recovery);
        record := r2;
        if !recovered {
          return false;
        }
        var (r3, second) := AppendPrepared(record, e, a.second);
        record, got := r3, second;
      }
      if got != Added {
        return false;
      }
      if !a.materializes {
        record := record.(frozen := true);
        return false;
      }
      record := record.(applied := record.applied + [e]);
      return true;
    }
  }
}

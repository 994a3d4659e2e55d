/** What every run of hearing, amending and reading keeps of the buffer. */
module HeardRuns {
  import opened Basics
  import opened HeardText
  import opened HeardHistory

  datatype State = State(now: int, h: History)

  const INITIAL := State(0, EMPTY)

  // Limits and policy are read anew at each step, so each step has its own.
  datatype Step =
    | Hear(elapsed: nat, a: Arrival, l: Limits, p: Policy)
    | Amend(elapsed: nat, o: Observation, retention: int, p: Policy)
    | Look(elapsed: nat, retention: int)

  predicate Enabled(step: Step) {
    step.Hear? ==> Sensible(step.l)
  }

  function Next(s: State, step: Step, fit: string -> bool): State
    requires Enabled(step)
  {
    var now := s.now + step.elapsed;
    match step
    case Hear(_, a, l, p) => State(now, Retained(s.h, a, now, l, p, fit))
    case Amend(_, o, retention, p) => State(now, Amended(s.h, o, now, retention, p, fit))
    case Look(_, retention) => State(now, s.h.(rows := Fresh(s.h.rows, now, retention)))
  }

  predicate IsRun(states: seq<State>, steps: seq<Step>, fit: string -> bool) {
    && |states| == |steps| + 1
    && states[0] == INITIAL
    && forall i :: 0 <= i < |steps| ==> Enabled(steps[i]) && states[i + 1] == Next(states[i], steps[i], fit)
  }

  // ----------------------------------------------------------------- invariant

  predicate Rising(rows: seq<Row>) {
    forall i, j :: 0 <= i < j < |rows| ==> rows[i].number < rows[j].number && rows[i].created <= rows[j].created
  }

  predicate AllWithin(rows: seq<Row>, now: int, retention: int) {
    forall k :: 0 <= k < |rows| ==> now - rows[k].created < retention
  }

  predicate InOrder(rows: seq<Row>, next: nat, now: int) {
    && Rising(rows)
    && (forall i :: 0 <= i < |rows| ==> 1 <= rows[i].number <= next && rows[i].created <= now)
  }

  predicate Inv(s: State) {
    InOrder(s.h.rows, s.h.next, s.now) && s.h.next <= MAX_SEQ
  }

  // The ways the rows change, each keeping them in order and unique.
  lemma TailFits(rows: seq<Row>, k: nat, next: nat, now: int, next': nat, now': int)
    requires k <= |rows| && InOrder(rows, next, now) && next <= next' && now <= now'
    ensures InOrder(rows[k..], next', now')
  {
  }

  lemma AppendFits(rows: seq<Row>, r: Row, next: nat, now: int)
    requires InOrder(rows, next, now) && r.number == next + 1 && r.created == now
    ensures InOrder(rows + [r], next + 1, now)
  {
  }

  lemma RemoveFits(rows: seq<Row>, i: nat, next: nat, now: int)
    requires i < |rows| && InOrder(rows, next, now)
    ensures InOrder(rows[..i] + rows[i + 1..], next, now)
  {
  }

  lemma ChangeFits(rows: seq<Row>, i: nat, r: Row, next: nat, now: int)
    requires i < |rows| && InOrder(rows, next, now) && r.number == rows[i].number && r.created == rows[i].created
    ensures InOrder(rows[i := r], next, now)
  {
  }

  lemma {:induction false} FreshIsATail(rows: seq<Row>, now: int, retention: int) returns (k: nat)
    ensures k <= |rows| && Fresh(rows, now, retention) == rows[k..]
    ensures Rising(rows) ==> AllWithin(rows[k..], now, retention)
  {
    if rows != [] && now - rows[0].created >= retention {
      var k' := FreshIsATail(rows[1..], now, retention);
      k := k' + 1;
    } else {
      k := 0;
    }
  }

  // What hearing leaves: a tail of the rows, or such a tail with the new row after it.
  lemma AddedShape(h: History, session: Text, final: int, r: Row, now: int, l: Limits, p: Policy) returns (k: nat)
    requires Sensible(l) && h.next <= MAX_SEQ
    ensures k <= |h.rows|
    ensures var h' := Added(h, session, final, r, now, l, p);
      || (h'.rows == h.rows[k..] && h.next <= h'.next <= MAX_SEQ)
      || (&& h'.rows == h.rows[k..] + [r] && h'.next == h.next + 1 && h.next != MAX_SEQ
          && |h'.rows| <= l.capacity && !Holds(h.rows[k..], session, final))
    ensures Rising(h.rows) ==> AllWithin(h.rows[k..], now, l.retention)
  {
    k := FreshIsATail(h.rows, now, l.retention);
    var rows := h.rows[k..];
    if !Holds(rows, session, final) && h.next != MAX_SEQ && !p.Ignores(r.ids) && |rows| > l.capacity - 1 {
      var more := |rows| - (l.capacity - 1);
      assert h.rows[k + more..] == rows[more..];
      assert forall i :: 0 <= i < |rows[more..]| ==> rows[more..][i] == rows[more + i];
      k := k + more;
    }
  }

  lemma NewRowFacts(number: nat, a: Arrival, now: int, l: Limits, fit: string -> bool)
    ensures var r := NewRow(number, a, now, l, fit);
      && r.number == number && r.created == now && r.final == a.final
      && r.session == Prefix(a.session, METADATA_BYTES)
      && (|a.session| <= METADATA_BYTES ==> r.session == a.session)
  {
  }

  lemma AddedKeeps(h: History, session: Text, final: int, r: Row, before: int, now: int, l: Limits, p: Policy)
    requires Sensible(l) && Inv(State(before, h)) && before <= now && r.number == h.next + 1 && r.created == now
    ensures Inv(State(now, Added(h, session, final, r, now, l, p)))
    ensures AllWithin(Added(h, session, final, r, now, l, p).rows, now, l.retention)
  {
    var k := AddedShape(h, session, final, r, now, l, p);
    var h' := Added(h, session, final, r, now, l, p);
    TailFits(h.rows, k, h.next, before, h.next, now);
    TailFits(h.rows, k, h.next, before, h'.next, now);
    AppendFits(h.rows[k..], r, h.next, now);
  }

  // What late evidence leaves: a tail of the rows, less one row, or with one row changed.
  lemma AmendedShape(h: History, o: Observation, now: int, retention: int, p: Policy, fit: string -> bool)
    returns (k: nat, i: nat)
    ensures k <= |h.rows| && i <= |h.rows| - k && h.rows[k..] == Fresh(h.rows, now, retention)
    ensures i < |h.rows| - k ==> Concerns(h.rows[k + i], o) && !RegistryFalls(h.rows[k + i], o)
    ensures var h' := Amended(h, o, now, retention, p, fit);
      && h'.next == h.next
      && (i == |h.rows| - k ==> h'.rows == h.rows[k..])
      && (i < |h.rows| - k ==>
            || h'.rows == h.rows[k..][..i] + h.rows[k..][i + 1..]
            || h'.rows == h.rows[k..][i := Applied(h.rows[k + i], o, fit)])
  {
    k := FreshIsATail(h.rows, now, retention);
    i := FirstConcerned(h.rows[k..], o);
    if i < |h.rows[k..]| && RegistryFalls(h.rows[k..][i], o) {
      i := |h.rows| - k;
    }
  }

  lemma AmendedKeeps(h: History, o: Observation, before: int, now: int, retention: int, p: Policy, fit: string -> bool)
    requires Inv(State(before, h)) && before <= now
    ensures Inv(State(now, Amended(h, o, now, retention, p, fit)))
  {
    var k, i := AmendedShape(h, o, now, retention, p, fit);
    TailFits(h.rows, k, h.next, before, h.next, now);
    if i < |h.rows[k..]| {
      RemoveFits(h.rows[k..], i, h.next, now);
      ChangeFits(h.rows[k..], i, Applied(h.rows[k + i], o, fit), h.next, now);
    }
  }

  lemma HeardKeeps(s: State, a: Arrival, now: int, l: Limits, p: Policy, fit: string -> bool)
    requires Inv(s) && s.now <= now && Sensible(l)
    ensures Inv(State(now, Retained(s.h, a, now, l, p, fit)))
    ensures 0 < a.final && !Blank(a.text) ==> AllWithin(Retained(s.h, a, now, l, p, fit).rows, now, l.retention)
  {
    if 0 < a.final && !Blank(a.text) {
      NewRowFacts(s.h.next + 1, a, now, l, fit);
      AddedKeeps(s.h, a.session, a.final, NewRow(s.h.next + 1, a, now, l, fit), s.now, now, l, p);
    } else {
      LookedKeeps(s, 0, now);
    }
  }

  lemma LookedKeeps(s: State, k: nat, now: int)
    requires Inv(s) && k <= |s.h.rows| && s.now <= now
    ensures Inv(State(now, s.h.(rows := s.h.rows[k..])))
  {
    TailFits(s.h.rows, k, s.h.next, s.now, s.h.next, now);
    assert s.h.rows[0..] == s.h.rows;
  }

  lemma StepKeeps(s: State, step: Step, fit: string -> bool)
    requires Inv(s) && Enabled(step)
    ensures Inv(Next(s, step, fit))
  {
    var now := s.now + step.elapsed;
    match step
    case Hear(_, a, l, p) => HeardKeeps(s, a, now, l, p, fit);
    case Amend(_, o, retention, p) => AmendedKeeps(s.h, o, s.now, now, retention, p, fit);
    case Look(_, retention) =>
      var k := FreshIsATail(s.h.rows, now, retention);
      LookedKeeps(s, k, now);
  }

  lemma {:induction false} RunKeeps(states: seq<State>, steps: seq<Step>, fit: string -> bool, i: nat)
    requires IsRun(states, steps, fit) && i < |states|
    ensures Inv(states[i])
  {
    if i > 0 {
      RunKeeps(states, steps, fit, i - 1);
      StepKeeps(states[i - 1], steps[i - 1], fit);
    }
  }

  // ------------------------------------------------------------------- descent

  // The same row later on: only who it is attributed to may have changed, by newer evidence, and
  // its registry revision has not fallen.
  predicate Descends(r: Row, r': Row) {
    && r' == r.(attribution := r'.attribution, ids := r'.ids, revision := r'.revision, registryRevision := r'.registryRevision)
    && (r' == r || r.revision < r'.revision)
    && (r.registryRevision != "" ==> r'.registryRevision != "" && !DecimalLess(r'.registryRevision, r.registryRevision))
  }

  lemma DescendsTwice(a: Row, b: Row, c: Row)
    requires Descends(a, b) && Descends(b, c)
    ensures Descends(a, c)
  {
    DecimalOrder(a.registryRevision, b.registryRevision, c.registryRevision);
  }

  // Every row of the later buffer is newly numbered, or an earlier one come down to here.
  predicate Accounted(h: History, r': Row) {
    r'.number > h.next || exists k :: 0 <= k < |h.rows| && Descends(h.rows[k], r')
  }

  lemma SameAccounts(h: History, k: nat)
    requires k < |h.rows|
    ensures Accounted(h, h.rows[k])
  {
    var r := h.rows[k];
    DecimalOrder(r.registryRevision, r.registryRevision, r.registryRevision);
    assert Descends(h.rows[k], r);
  }

  lemma AccountedOn(h: History, r: Row, r': Row)
    requires Accounted(h, r) && Descends(r, r')
    ensures Accounted(h, r')
  {
    if r.number <= h.next {
      var m :| 0 <= m < |h.rows| && Descends(h.rows[m], r);
      DescendsTwice(h.rows[m], r, r');
    }
  }

  lemma AppliedAccounts(h: History, k: nat, o: Observation, fit: string -> bool)
    requires k < |h.rows| && Concerns(h.rows[k], o) && !RegistryFalls(h.rows[k], o)
    ensures Accounted(h, Applied(h.rows[k], o, fit))
  {
    var r := h.rows[k];
    DecimalOrder(r.registryRevision, r.registryRevision, r.registryRevision);
    assert Descends(h.rows[k], Applied(r, o, fit));
  }

  lemma AmendAccounts(h: History, o: Observation, now: int, retention: int, p: Policy, fit: string -> bool, n: nat)
    requires n < |Amended(h, o, now, retention, p, fit).rows|
    ensures Accounted(h, Amended(h, o, now, retention, p, fit).rows[n])
  {
    var k, i := AmendedShape(h, o, now, retention, p, fit);
    var rows, h' := h.rows[k..], Amended(h, o, now, retention, p, fit);
    if i < |rows| && h'.rows == rows[i := Applied(rows[i], o, fit)] && n == i {
      AppliedAccounts(h, k + i, o, fit);
    } else if i < |rows| && h'.rows == rows[..i] + rows[i + 1..] && i <= n {
      SameAccounts(h, k + n + 1);
    } else {
      SameAccounts(h, k + n);
    }
  }

  lemma AddAccounts(h: History, session: Text, final: int, r: Row, now: int, l: Limits, p: Policy, n: nat)
    requires Sensible(l) && h.next <= MAX_SEQ && r.number == h.next + 1
    requires n < |Added(h, session, final, r, now, l, p).rows|
    ensures Accounted(h, Added(h, session, final, r, now, l, p).rows[n])
  {
    var k := AddedShape(h, session, final, r, now, l, p);
    if k + n < |h.rows| {
      SameAccounts(h, k + n);
    }
  }

  lemma StepAccounts(s: State, step: Step, fit: string -> bool, n: nat)
    requires Inv(s) && Enabled(step) && n < |Next(s, step, fit).h.rows|
    ensures Accounted(s.h, Next(s, step, fit).h.rows[n])
  {
    var now := s.now + step.elapsed;
    match step
    case Hear(_, a, l, p) =>
      if a.final <= 0 || Blank(a.text) {
        SameAccounts(s.h, n);
      } else {
        var r := NewRow(s.h.next + 1, a, now, l, fit);
        NewRowFacts(s.h.next + 1, a, now, l, fit);
        AddAccounts(s.h, a.session, a.final, r, now, l, p, n);
      }
    case Amend(_, o, retention, p) => AmendAccounts(s.h, o, now, retention, p, fit, n);
    case Look(_, retention) =>
      var k := FreshIsATail(s.h.rows, now, retention);
      SameAccounts(s.h, k + n);
  }

  lemma RunAccounts(states: seq<State>, steps: seq<Step>, fit: string -> bool, i: nat, n: nat)
    requires IsRun(states, steps, fit) && i < |steps| && n < |states[i + 1].h.rows|
    ensures Accounted(states[i].h, states[i + 1].h.rows[n]) && states[i].h.next <= states[i + 1].h.next
  {
    RunKeeps(states, steps, fit, i);
    StepAccounts(states[i], steps[i], fit, n);
  }

  /** Across any stretch of a run, a row of the later buffer either bears a number not yet given
      out at its start, or is a row of that earlier buffer with its text, initial attribution,
      session, final and time as they were, its revision risen or all of it unchanged, and its
      registry revision, once known, known and not fallen.  So numbers are never used again. */
  lemma {:induction false} RowsDescend(states: seq<State>, steps: seq<Step>, fit: string -> bool, i: nat, j: nat,
                                       n: nat)
    requires IsRun(states, steps, fit) && i <= j < |states| && n < |states[j].h.rows|
    ensures Accounted(states[i].h, states[j].h.rows[n])
    ensures states[i].h.next <= states[j].h.next
    decreases j
  {
    var r' := states[j].h.rows[n];
    if i == j {
      SameAccounts(states[i].h, n);
    } else {
      RunAccounts(states, steps, fit, j - 1, n);
      NextRises(states, steps, fit, i, j - 1);
      if r'.number <= states[j - 1].h.next {
        var k :| 0 <= k < |states[j - 1].h.rows| && Descends(states[j - 1].h.rows[k], r');
        RowsDescend(states, steps, fit, i, j - 1, k);
        AccountedOn(states[i].h, states[j - 1].h.rows[k], r');
      }
    }
  }

  lemma {:induction false} NextRises(states: seq<State>, steps: seq<Step>, fit: string -> bool, i: nat, j: nat)
    requires IsRun(states, steps, fit) && i <= j < |states|
    ensures states[i].h.next <= states[j].h.next
    decreases j
  {
    if i < j {
      NextRises(states, steps, fit, i, j - 1);
    }
  }

  // --------------------------------------------------------- bounds and freshness

  /** The rows stay in number and time order, and after a step that hears, amends or looks no row
      is past the retention that step went by. */
  lemma NoneExpired(states: seq<State>, steps: seq<Step>, fit: string -> bool, i: nat)
    requires IsRun(states, steps, fit) && i < |steps|
    requires steps[i].Hear? ==> 0 < steps[i].a.final && !Blank(steps[i].a.text)
    ensures Rising(states[i + 1].h.rows)
    ensures var retention := if steps[i].Hear? then steps[i].l.retention else steps[i].retention;
      AllWithin(states[i + 1].h.rows, states[i + 1].now, retention)
  {
    RunKeeps(states, steps, fit, i);
    RunKeeps(states, steps, fit, i + 1);
    var s, step := states[i], steps[i];
    var now := s.now + step.elapsed;
    match step
    case Hear(_, a, l, p) => HeardKeeps(s, a, now, l, p, fit);
    case Amend(_, o, retention, p) => AmendedIsFresh(s.h, o, now, retention, p, fit);
    case Look(_, retention) =>
      var k := FreshIsATail(s.h.rows, now, retention);
  }

  lemma AmendedIsFresh(h: History, o: Observation, now: int, retention: int, p: Policy, fit: string -> bool)
    requires Rising(h.rows)
    ensures AllWithin(Amended(h, o, now, retention, p, fit).rows, now, retention)
  {
    var n := FreshIsATail(h.rows, now, retention);
    var k, j := AmendedShape(h, o, now, retention, p, fit);
    if j < |h.rows| - k {
      assert Applied(h.rows[k + j], o, fit).created == h.rows[k + j].created;
    }
  }

  /** A buffer never filled with a larger capacity in force than this one never outgrows it. */
  lemma {:induction false} WithinCapacity(states: seq<State>, steps: seq<Step>, fit: string -> bool, i: nat, most: nat)
    requires IsRun(states, steps, fit) && i < |states|
    requires forall k :: 0 <= k < i && steps[k].Hear? ==> steps[k].l.capacity <= most
    ensures |states[i].h.rows| <= most
  {
    if i > 0 {
      WithinCapacity(states, steps, fit, i - 1, most);
      RunKeeps(states, steps, fit, i - 1);
      var s, step := states[i - 1], steps[i - 1];
      var now := s.now + step.elapsed;
      match step
      case Hear(_, a, l, p) =>
        if 0 < a.final && !Blank(a.text) {
          var k := AddedShape(s.h, a.session, a.final, NewRow(s.h.next + 1, a, now, l, fit), now, l, p);
        }
      case Amend(_, o, retention, p) => var k, j := AmendedShape(s.h, o, now, retention, p, fit);
      case Look(_, retention) => var k := FreshIsATail(s.h.rows, now, retention);
    }
  }

  // ---------------------------------------------------------------- uniqueness

  predicate Unique(rows: seq<Row>) {
    forall i, j :: 0 <= i < j < |rows| ==> !(rows[i].session == rows[j].session && rows[i].final == rows[j].final)
  }

  /** While every session heard is short enough to be stored whole, no two rows share their session
      and final. */
  lemma {:induction false} UniqueThroughShortSessions(states: seq<State>, steps: seq<Step>, fit: string -> bool, i: nat)
    requires IsRun(states, steps, fit) && i < |states|
    requires forall k :: 0 <= k < i && steps[k].Hear? ==> |steps[k].a.session| <= METADATA_BYTES
    ensures Unique(states[i].h.rows)
  {
    if i > 0 {
      UniqueThroughShortSessions(states, steps, fit, i - 1);
      RunKeeps(states, steps, fit, i - 1);
      StepUnique(states[i - 1], steps[i - 1], fit);
    }
  }

  lemma UniqueAppend(rows: seq<Row>, r: Row)
    requires Unique(rows) && !Holds(rows, r.session, r.final)
    ensures Unique(rows + [r])
  {
  }

  lemma UniqueAppendIff(rows: seq<Row>, r: Row)
    requires Unique(rows)
    ensures Unique(rows + [r]) <==> !Holds(rows, r.session, r.final)
  {
    var more := rows + [r];
    forall i | 0 <= i < |rows| && rows[i].session == r.session && rows[i].final == r.final
      ensures !Unique(more)
    {
      assert more[i] == rows[i] && more[|rows|] == r;
    }
  }

  lemma UniqueChange(rows: seq<Row>, i: nat, r: Row)
    requires Unique(rows) && i < |rows| && r.session == rows[i].session && r.final == rows[i].final
    ensures Unique(rows[i := r])
  {
  }

  lemma AddUnique(h: History, session: Text, final: int, r: Row, now: int, l: Limits, p: Policy)
    requires Sensible(l) && h.next <= MAX_SEQ && Unique(h.rows) && r.session == session && r.final == final
    ensures Unique(Added(h, session, final, r, now, l, p).rows)
  {
    var k := AddedShape(h, session, final, r, now, l, p);
    if !Holds(h.rows[k..], session, final) {
      UniqueAppend(h.rows[k..], r);
    }
  }

  lemma UniqueTail(rows: seq<Row>, k: nat)
    requires Unique(rows) && k <= |rows|
    ensures Unique(rows[k..])
  {
  }

  lemma UniqueRemove(rows: seq<Row>, i: nat)
    requires Unique(rows) && i < |rows|
    ensures Unique(rows[..i] + rows[i + 1..])
  {
  }

  lemma AmendUnique(h: History, o: Observation, now: int, retention: int, p: Policy, fit: string -> bool)
    requires Unique(h.rows)
    ensures Unique(Amended(h, o, now, retention, p, fit).rows)
  {
    var k, i := AmendedShape(h, o, now, retention, p, fit);
    UniqueTail(h.rows, k);
    if i < |h.rows| - k {
      UniqueRemove(h.rows[k..], i);
      UniqueChange(h.rows[k..], i, Applied(h.rows[k + i], o, fit));
    }
  }

  lemma RetainUnique(h: History, a: Arrival, now: int, l: Limits, p: Policy, fit: string -> bool)
    requires Sensible(l) && h.next <= MAX_SEQ && Unique(h.rows) && |a.session| <= METADATA_BYTES
    ensures Unique(Retained(h, a, now, l, p, fit).rows)
  {
    if 0 < a.final && !Blank(a.text) {
      NewRowFacts(h.next + 1, a, now, l, fit);
      AddUnique(h, a.session, a.final, NewRow(h.next + 1, a, now, l, fit), now, l, p);
    }
  }

  lemma StepUnique(s: State, step: Step, fit: string -> bool)
    requires Inv(s) && Unique(s.h.rows) && Enabled(step)
    requires step.Hear? ==> |step.a.session| <= METADATA_BYTES
    ensures Unique(Next(s, step, fit).h.rows)
  {
    var now := s.now + step.elapsed;
    match step
    case Hear(_, a, l, p) =>
      RetainUnique(s.h, a, now, l, p, fit);
    case Amend(_, o, retention, p) => AmendUnique(s.h, o, now, retention, p, fit);
    case Look(_, retention) =>
      var k := FreshIsATail(s.h.rows, now, retention);
      UniqueTail(s.h.rows, k);
  }

  lemma AddedUniqueIff(h: History, session: Text, final: int, r: Row, now: int, l: Limits, p: Policy)
    requires Sensible(l) && Unique(h.rows) && h.next < MAX_SEQ && !p.Ignores(r.ids)
    requires !Holds(Fresh(h.rows, now, l.retention), session, final)
    ensures Unique(Added(h, session, final, r, now, l, p).rows) <==>
            !Holds(LastOf(Fresh(h.rows, now, l.retention), l.capacity - 1), r.session, r.final)
  {
    var k := FreshIsATail(h.rows, now, l.retention);
    var kept := LastOf(h.rows[k..], l.capacity - 1);
    UniqueTail(h.rows, |h.rows| - |kept|);
    assert kept == h.rows[|h.rows| - |kept|..];
    UniqueAppendIff(kept, r);
  }

  /** Adding a row keeps session and final unique exactly when no kept row has the pair as it is
      stored.  The check looks for the pair as it arrived, so only a session longer than the
      stored form can slip past it. */
  lemma AddingKeepsUniqueIff(h: History, a: Arrival, now: int, l: Limits, p: Policy, fit: string -> bool)
    requires Sensible(l) && Unique(h.rows) && h.next < MAX_SEQ && 0 < a.final && !Blank(a.text)
    requires !Holds(Fresh(h.rows, now, l.retention), a.session, a.final)
    requires !p.Ignores(NewRow(h.next + 1, a, now, l, fit).ids)
    ensures Unique(Retained(h, a, now, l, p, fit).rows) <==>
            !Holds(LastOf(Fresh(h.rows, now, l.retention), l.capacity - 1), Prefix(a.session, METADATA_BYTES), a.final)
  {
    var r := NewRow(h.next + 1, a, now, l, fit);
    NewRowFacts(h.next + 1, a, now, l, fit);
    AddedUniqueIff(h, a.session, a.final, r, now, l, p);
  }

  // The same row offered twice under a session it does not store.
  lemma AddedTwice(session: Text, final: int, r1: Row, r2: Row, now: int, l: Limits, p: Policy)
    requires Sensible(l) && 2 <= l.capacity && !p.Ignores(r1.ids) && !p.Ignores(r2.ids) && r1.created == now
    requires r1.session == r2.session != session && r1.final == r2.final == final
    ensures var h := Added(EMPTY, session, final, r1, now, l, p);
      h == History(1, [r1]) && Unique(h.rows) && !Unique(Added(h, session, final, r2, now, l, p).rows)
  {
    var h := Added(EMPTY, session, final, r1, now, l, p);
    assert h.rows == [r1];
    var h' := Added(h, session, final, r2, now, l, p);
    assert h'.rows == [r1, r2];
    assert h'.rows[0].session == h'.rows[1].session && h'.rows[0].final == h'.rows[1].final;
  }

  // An arrival that is kept if it is not held already.
  predicate Keepable(a: Arrival, now: int, l: Limits, p: Policy, fit: string -> bool) {
    0 < a.final && !Blank(a.text) && !p.Ignores(NewRow(1, a, now, l, fit).ids)
  }

  /** Every session longer than its stored form slips past the check: heard twice with one final
      it is kept twice. */
  lemma LongSessionIsKeptTwice(a: Arrival, now: int, l: Limits, p: Policy, fit: string -> bool)
    requires |a.session| > METADATA_BYTES && Sensible(l) && 2 <= l.capacity && Keepable(a, now, l, p, fit)
    ensures var h := Retained(EMPTY, a, now, l, p, fit);
      h.next == 1 && Unique(h.rows) && !Unique(Retained(h, a, now, l, p, fit).rows)
  {
    PrefixCutsBetweenCharacters(a.session, METADATA_BYTES);
    NewRowFacts(1, a, now, l, fit);
    NewRowFacts(2, a, now, l, fit);
    assert NewRow(2, a, now, l, fit).ids == NewRow(1, a, now, l, fit).ids;
    AddedTwice(a.session, a.final, NewRow(1, a, now, l, fit), NewRow(2, a, now, l, fit), now, l, p);
  }

  /** An arrival leaves every buffer without repeats without repeats exactly when its session is
      short enough to be stored whole. */
  lemma KeepsUniqueIffShort(a: Arrival, now: int, l: Limits, p: Policy, fit: string -> bool)
    requires Sensible(l) && 2 <= l.capacity && Keepable(a, now, l, p, fit)
    ensures |a.session| <= METADATA_BYTES <==>
            forall h: History :: h.next <= MAX_SEQ && Unique(h.rows) ==> Unique(Retained(h, a, now, l, p, fit).rows)
  {
    if |a.session| <= METADATA_BYTES {
      forall h: History | h.next <= MAX_SEQ && Unique(h.rows)
        ensures Unique(Retained(h, a, now, l, p, fit).rows)
      {
        RetainUnique(h, a, now, l, p, fit);
      }
    } else {
      LongSessionIsKeptTwice(a, now, l, p, fit);
    }
  }

  /** Such arrivals there are. */
  lemma OneIsHeardTwice(fit: string -> bool)
    ensures exists a: Arrival, l: Limits, p: Policy ::
      |a.session| == METADATA_BYTES + 1 && Sensible(l) && 2 <= l.capacity && Keepable(a, 0, l, p, fit)
  {
    var long: Text := seq(METADATA_BYTES + 1, i => 0x61);
    var a := Arrival(long, 1, [0x61], Segment("", None, None), None);
    var l, p := Limits(2, 60, 256), Policy(false, {});
    assert SpaceLength([0x61]) == 0;
    assert Sensible(l) && Keepable(a, 0, l, p, fit);
  }
}

/**
  The last utterances heard, kept for reading back (internal/app/heard_history.go): a buffer that
  expires, is bounded, and takes late evidence of who spoke.
 */
module HeardHistory {
  import opened Basics
  import opened HeardText

  const METADATA_BYTES: nat := 256

  const MAX_SEQ: nat := 0xFFFF_FFFF_FFFF_FFFF

  datatype Limits = Limits(capacity: nat, retention: int, textBytes: nat)

  // The bounds the configuration holds its settings to.
  predicate Sensible(l: Limits) { 1 <= l.capacity && 1 <= l.retention }

  // Who spoke where in the audio; without valid bounds no two segments are the same.
  datatype Segment = Segment(track: string, start: Option<int>, end: Option<int>) {
    predicate Valid() {
      track != "" && |track| <= 128 && start.Some? && end.Some? && 0 <= start.value < end.value
    }

    predicate Same(other: Segment) { Valid() && other.Valid() && this == other }
  }

  datatype Policy = Policy(ignoring: bool, listed: set<string>) {
    predicate Ignores(ids: seq<string>) {
      ignoring && exists i :: 0 <= i < |ids| && ids[i] in listed
    }
  }

  datatype Observation = Observation(session: Text, refersTo: int, segment: Segment, revision: nat,
                                     registryRevision: string, attribution: Text, ids: seq<string>)

  datatype Row = Row(number: nat, session: Text, final: int, text: Text, truncated: bool,
                     initial: Text, attribution: Text, ids: seq<string>, segment: Segment,
                     revision: nat, registryRevision: string, created: int)

  // Something heard.
  datatype Arrival = Arrival(session: Text, final: int, text: Text, segment: Segment,
                             observed: Option<Observation>)

  datatype History = History(next: nat, rows: seq<Row>)

  const EMPTY := History(0, [])

  const UNRESOLVED: Text := [0x75]

  // The speaker ids fit to be kept.
  function Kept(ids: seq<string>, fit: string -> bool): seq<string> {
    if ids == [] then []
    else if fit(ids[0]) then [ids[0]] + Kept(ids[1..], fit)
    else Kept(ids[1..], fit)
  }

  function Applied(r: Row, o: Observation, fit: string -> bool): Row {
    r.(attribution := Prefix(o.attribution, METADATA_BYTES),
       revision := o.revision,
       registryRevision := if o.registryRevision != "" then o.registryRevision else r.registryRevision,
       ids := Kept(o.ids, fit))
  }

  function Fresh(rows: seq<Row>, now: int, retention: int): seq<Row> {
    if rows != [] && now - rows[0].created >= retention then Fresh(rows[1..], now, retention) else rows
  }

  predicate Holds(rows: seq<Row>, session: Text, final: int) {
    exists i :: 0 <= i < |rows| && rows[i].session == session && rows[i].final == final
  }

  function NewRow(number: nat, a: Arrival, now: int, l: Limits, fit: string -> bool): Row {
    var r := Row(number, Prefix(a.session, METADATA_BYTES), a.final, Prefix(a.text, l.textBytes), |a.text| > l.textBytes,
                 UNRESOLVED, UNRESOLVED, [], a.segment, 0, "", now);
    match a.observed
    case None => r
    case Some(o) => var r' := Applied(r, o, fit); r'.(initial := r'.attribution)
  }

  function LastOf(rows: seq<Row>, most: nat): seq<Row> {
    if |rows| <= most then rows else rows[|rows| - most..]
  }

  // A row offered to the buffer under the session and final it arrived with.
  function Added(h: History, session: Text, final: int, r: Row, now: int, l: Limits, p: Policy): History
    requires Sensible(l)
  {
    var rows := Fresh(h.rows, now, l.retention);
    if Holds(rows, session, final) || h.next == MAX_SEQ then h.(rows := rows)
    else if p.Ignores(r.ids) then History(h.next + 1, rows)
    else History(h.next + 1, LastOf(rows, l.capacity - 1) + [r])
  }

  function Retained(h: History, a: Arrival, now: int, l: Limits, p: Policy, fit: string -> bool): History
    requires Sensible(l)
  {
    if a.final <= 0 || Blank(a.text) then h
    else Added(h, a.session, a.final, NewRow(h.next + 1, a, now, l, fit), now, l, p)
  }

  // The row late evidence is about and newer than, if any.
  predicate Concerns(r: Row, o: Observation) {
    r.session == o.session && r.final == o.refersTo && o.segment.Same(r.segment) && o.revision > r.revision
  }

  function FirstConcerned(rows: seq<Row>, o: Observation): (i: nat)
    ensures i <= |rows|
    ensures i < |rows| ==> Concerns(rows[i], o)
    ensures forall j :: 0 <= j < i ==> !Concerns(rows[j], o)
  {
    if rows == [] || Concerns(rows[0], o) then 0 else 1 + FirstConcerned(rows[1..], o)
  }

  predicate RegistryFalls(r: Row, o: Observation) {
    r.registryRevision != "" && o.registryRevision != "" && DecimalLess(o.registryRevision, r.registryRevision)
  }

  function Amended(h: History, o: Observation, now: int, retention: int, p: Policy, fit: string -> bool): History {
    var rows := Fresh(h.rows, now, retention);
    var i := FirstConcerned(rows, o);
    if i == |rows| || RegistryFalls(rows[i], o) then h.(rows := rows)
    else if p.Ignores(o.ids) then h.(rows := rows[..i] + rows[i + 1..])
    else h.(rows := rows[i := Applied(rows[i], o, fit)])
  }

  // -------------------------------------------------------------- the buffer object

  class HeardBuffer {
    var next: nat
    var rows: seq<Row>

    ghost function Model(): History
      reads this
    {
      History(next, rows)
    }

    constructor ()
      ensures Model() == EMPTY
    {
      next, rows := 0, [];
    }

    method Expire(now: int, retention: int)
      modifies this
      ensures Model() == old(Model()).(rows := Fresh(old(rows), now, retention))
    {
      var n := 0;
      while n < |rows| && now - rows[n].created >= retention
        invariant n <= |rows| && rows == old(rows) && next == old(next)
        invariant Fresh(rows[n..], now, retention) == Fresh(rows, now, retention)
      {
        assert rows[n..][1..] == rows[n + 1..];
        n := n + 1;
      }
      rows := rows[n..];
    }

    method Retain(safe: bool, a: Arrival, now: int, l: Limits, p: Policy, fit: string -> bool)
      requires Sensible(l)
      modifies this
      ensures Model() == if safe then old(Model()) else Retained(old(Model()), a, now, l, p, fit)
    {
      if safe || a.final <= 0 || Blank(a.text) {
        return;
      }
      Expire(now, l.retention);
      for i := 0 to |rows|
        invariant Model() == old(Model()).(rows := Fresh(old(rows), now, l.retention))
        invariant forall j :: 0 <= j < i ==> !(rows[j].session == a.session && rows[j].final == a.final)
      {
        if rows[i].session == a.session && rows[i].final == a.final {
          return;
        }
      }
      if next == MAX_SEQ {
        return;
      }
      next := next + 1;
      var session := HeardPrefix(a.session, METADATA_BYTES);
      var r := Row(next, session, a.final, a.text, false, UNRESOLVED, UNRESOLVED, [], a.segment, 0, "", now);
      if |a.text| > l.textBytes {
        var text := HeardPrefix(a.text, l.textBytes);
        r := r.(text := text, truncated := true);
      }
      if a.observed.Some? {
        r := Applied(r, a.observed.value, fit);
        r := r.(initial := r.attribution);
      }
      if p.Ignores(r.ids) {
        return;
      }
      var drop := |rows| - l.capacity + 1;
      if drop > 0 {
        rows := rows[drop..];
      }
      rows := rows + [r];
    }

    method Amend(safe: bool, o: Observation, now: int, retention: int, p: Policy, fit: string -> bool)
      modifies this
      ensures Model() == if safe then old(Model()) else Amended(old(Model()), o, now, retention, p, fit)
    {
      if safe {
        return;
      }
      Expire(now, retention);
      for i := 0 to |rows|
        invariant Model() == old(Model()).(rows := Fresh(old(rows), now, retention))
        invariant FirstConcerned(rows, o) == i + FirstConcerned(rows[i..], o)
      {
        assert rows[i..][1..] == rows[i + 1..];
        if Concerns(rows[i], o) {
          if RegistryFalls(rows[i], o) {
            return;
          }
          if p.Ignores(o.ids) {
            rows := rows[..i] + rows[i + 1..];
            return;
          }
          rows := rows[i := Applied(rows[i], o, fit)];
          return;
        }
      }
    }
  }
}

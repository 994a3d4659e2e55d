/** What one utterance, one piece of late evidence and the passing of time leave in the history
    (internal/app/heard_history.go). */
module HeardEdits {
  import opened Basics
  import opened HeardText
  import opened HeardHistory
  import opened HeardRuns

  // ----------------------------------------------------------------------- expiry

  /** Expiry drops a beginning of the rows, each of them past its time, and stops at the first that is
      not. */
  lemma {:induction false} ExpiryDropsThePast(rows: seq<Row>, now: int, retention: int) returns (k: nat)
    ensures k <= |rows| && Fresh(rows, now, retention) == rows[k..]
    ensures forall i :: 0 <= i < k ==> now - rows[i].created >= retention
    ensures k < |rows| ==> now - rows[k].created < retention
  {
    if rows != [] && now - rows[0].created >= retention {
      var n := ExpiryDropsThePast(rows[1..], now, retention);
      k := n + 1;
    } else {
      k := 0;
    }
  }

  // ----------------------------------------------------------------------- hearing

  // What evidence a row bears: none, or this.
  predicate Bears(r: Row, attribution: Text, ids: seq<string>, revision: nat, registry: string) {
    r.attribution == attribution && r.ids == ids && r.revision == revision && r.registryRevision == registry
  }

  /** The row made of an utterance: its session and its text cut to their limits, marked when the text
      was, and bearing the evidence that came with it or none. */
  lemma NewRowSays(number: nat, a: Arrival, now: int, l: Limits, fit: string -> bool)
    ensures var r := NewRow(number, a, now, l, fit);
      && r.number == number && r.created == now && r.final == a.final && r.segment == a.segment
      && r.session == Prefix(a.session, 256) && r.text == Prefix(a.text, l.textBytes)
      && (r.truncated <==> |a.text| > l.textBytes)
      && r.initial == r.attribution
      && (a.observed.None? ==> Bears(r, UNRESOLVED, [], 0, ""))
      && (a.observed.Some? ==>
            var o := a.observed.value;
            Bears(r, Prefix(o.attribution, 256), Kept(o.ids, fit), o.revision, o.registryRevision))
  {
  }

  /** The ids kept of a speaker are those that fit, in their order. */
  lemma {:induction false} KeptAreTheFit(ids: seq<string>, fit: string -> bool)
    ensures forall x :: x in Kept(ids, fit) <==> x in ids && fit(x)
    ensures (forall i :: 0 <= i < |ids| ==> fit(ids[i])) ==> Kept(ids, fit) == ids
  {
    if ids != [] {
      KeptAreTheFit(ids[1..], fit);
      assert ids == [ids[0]] + ids[1..];
    }
  }

  // Not an utterance that is kept: no final, or nothing but white space.
  predicate Passes(a: Arrival) { a.final <= 0 || Blank(a.text) }

  /** An utterance changes nothing if it has no final or no text.  Otherwise what is past its time goes;
      one already held, or past the last number, adds nothing; one of an ignored speaker takes a number
      and leaves no row; any other takes the next number and stands last, the oldest making room. */
  lemma HearingSays(h: History, a: Arrival, now: int, l: Limits, p: Policy, fit: string -> bool)
    requires Sensible(l)
    ensures var h', rows := Retained(h, a, now, l, p, fit), Fresh(h.rows, now, l.retention);
      var r := NewRow(h.next + 1, a, now, l, fit);
      var held := exists i :: 0 <= i < |rows| && rows[i].session == a.session && rows[i].final == a.final;
      && (Passes(a) ==> h' == h)
      && (!Passes(a) && (held || h.next == MAX_SEQ) ==> h' == History(h.next, rows))
      && (!Passes(a) && !held && h.next != MAX_SEQ && p.Ignores(r.ids) ==> h' == History(h.next + 1, rows))
      && (!Passes(a) && !held && h.next != MAX_SEQ && !p.Ignores(r.ids) ==>
            && h'.next == h.next + 1 && |h'.rows| == Min(|rows| + 1, l.capacity)
            && h'.rows[|h'.rows| - 1] == r
            && forall i :: 0 <= i < |h'.rows| - 1 ==> h'.rows[i] == rows[|rows| + 1 - |h'.rows| + i])
  {
  }

  // -------------------------------------------------------------------- late evidence

  // The evidence is newer, of this row's own session, final and segment.
  predicate About(r: Row, o: Observation) {
    && r.session == o.session && r.final == o.refersTo && r.revision < o.revision
    && r.segment == o.segment && r.segment.track != "" && |r.segment.track| <= 128
    && r.segment.start.Some? && r.segment.end.Some? && 0 <= r.segment.start.value < r.segment.end.value
  }

  // Its registry revision is older than the row's, both being known.
  predicate Older(r: Row, o: Observation) {
    r.registryRevision != "" && o.registryRevision != "" && DecimalLess(o.registryRevision, r.registryRevision)
  }

  predicate FirstAbout(rows: seq<Row>, o: Observation, i: nat) {
    i < |rows| && About(rows[i], o) && forall j :: 0 <= j < i ==> !About(rows[j], o)
  }

  lemma AboutIs(r: Row, o: Observation)
    ensures Concerns(r, o) <==> About(r, o)
    ensures RegistryFalls(r, o) <==> Older(r, o)
  {
  }

  lemma FirstIs(rows: seq<Row>, o: Observation, i: nat)
    ensures FirstAbout(rows, o, i) ==> FirstConcerned(rows, o) == i
    ensures (forall j :: 0 <= j < |rows| ==> !About(rows[j], o)) ==> FirstConcerned(rows, o) == |rows|
  {
    var n := FirstConcerned(rows, o);
    forall j | 0 <= j < |rows|
      ensures Concerns(rows[j], o) <==> About(rows[j], o)
    {
      AboutIs(rows[j], o);
    }
    if FirstAbout(rows, o, i) && n < i {
      assert false;
    }
  }

  /** Late evidence about no row changes none. */
  lemma EvidenceOfNothing(h: History, o: Observation, now: int, retention: int, p: Policy, fit: string -> bool)
    requires forall i :: 0 <= i < |Fresh(h.rows, now, retention)| ==> !About(Fresh(h.rows, now, retention)[i], o)
    ensures Amended(h, o, now, retention, p, fit) == History(h.next, Fresh(h.rows, now, retention))
  {
    FirstIs(Fresh(h.rows, now, retention), o, 0);
  }

  /** Late evidence acts on the first row it is about: of an older registry than that row's, it changes
      nothing.  Of a speaker who is ignored, it takes the row out and leaves exactly the others.  Any
      other leaves as many rows, that one bearing its revision, its attribution cut to the limit and
      the ids that fit, everything else about it and all other rows unchanged. */
  lemma EvidenceSays(h: History, o: Observation, now: int, retention: int, p: Policy, fit: string -> bool, i: nat)
    requires FirstAbout(Fresh(h.rows, now, retention), o, i)
    ensures var h', rows := Amended(h, o, now, retention, p, fit), Fresh(h.rows, now, retention);
      && h'.next == h.next
      && (Older(rows[i], o) ==> h'.rows == rows)
      && (!Older(rows[i], o) && p.Ignores(o.ids) ==> h'.rows == rows[..i] + rows[i + 1..])
      && (!Older(rows[i], o) && !p.Ignores(o.ids) ==>
            && |h'.rows| == |rows| && (forall j :: 0 <= j < |rows| && j != i ==> h'.rows[j] == rows[j])
            && Revised(rows[i], h'.rows[i], o, fit))
  {
    var rows := Fresh(h.rows, now, retention);
    FirstIs(rows, o, i);
    AboutIs(rows[i], o);
  }

  predicate Revised(r: Row, r': Row, o: Observation, fit: string -> bool) {
    && Bears(r', Prefix(o.attribution, 256), Kept(o.ids, fit), o.revision,
             if o.registryRevision != "" then o.registryRevision else r.registryRevision)
    && r'.number == r.number && r'.session == r.session && r'.final == r.final && r'.text == r.text
    && r'.truncated == r.truncated && r'.initial == r.initial && r'.segment == r.segment && r'.created == r.created
  }

  /** A policy ignores a speaker exactly when it is on and one of the ids is listed. */
  lemma IgnoresIff(p: Policy, ids: seq<string>)
    ensures p.Ignores(ids) <==> p.ignoring && exists x :: x in ids && x in p.listed
  {
    if i :| 0 <= i < |ids| && ids[i] in p.listed {
      assert ids[i] in ids;
    }
  }
}

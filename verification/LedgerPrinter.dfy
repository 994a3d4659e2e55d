/**
  The rows `ledger show` prints (cmd/aii/ledger_cmd.go).  A verified record that carries no
  signature of its own waits until a signed one vouches for it, or until the reading ends.
 */
module LedgerPrinter {
  datatype Event = Event(number: nat, signed: bool, kind: string, payload: string)

  // `to` 0 for no end, `kind` and `words` empty for any; `words` is in lower case already.
  datatype Filter = Filter(from: nat, to: nat, kind: string, words: string) {
    predicate Holds(b: string) { words == "" || Contains(AsciiLower(b), words) }

    predicate Wanted(e: Event) {
      && from <= e.number && (to == 0 || e.number <= to)
      && (kind == "" || e.kind == kind)
      && (Holds(e.kind) || Holds(e.payload))
    }
  }

  function AsciiLower(b: string): string {
    seq(|b|, i requires 0 <= i < |b| => if 'A' <= b[i] <= 'Z' then b[i] - 'A' + 'a' else b[i])
  }

  predicate Contains(b: string, words: string) {
    exists i :: 0 <= i <= |b| - |words| && b[i..][..|words|] == words
  }

  // A line with the event read from it.
  datatype Verified = Verified(event: Event, line: string)

  datatype Unverified =
    | Unreadable
    | NotARecord(container: string, at: int, text: string)
    | Unproved(event: Event, line: string)

  datatype Piece =
    | Row(event: Event, marked: bool)
    | Line(line: string)
    | Odd(container: string, at: int, text: string)

  datatype State = State(pending: seq<Event>, proved: nat, last: nat, out: seq<Piece>)

  const START := State([], 0, 0, [])

  function Rows(events: seq<Event>, marked: bool): seq<Piece> {
    seq(|events|, i requires 0 <= i < |events| => Row(events[i], marked))
  }

  function Flushed(s: State, marked: bool): State {
    s.(pending := [], out := s.out + Rows(s.pending, marked))
  }

  function SawVerified(s: State, f: Filter, json: bool, v: Verified): State {
    var e := v.event;
    var s1 := s.(last := e.number);
    var s2 := if e.signed then Flushed(s1.(proved := e.number), false) else s1;
    if !f.Wanted(e) then s2
    else if json then s2.(out := s2.out + [Line(v.line)])
    else if !e.signed then s2.(pending := s2.pending + [e])
    else s2.(out := s2.out + [Row(e, false)])
  }

  // What an unverified line prints by itself.
  function Printed(f: Filter, json: bool, u: Unverified): seq<Piece> {
    match u
    case Unreadable => []
    case NotARecord(c, at, text) => if !f.Holds(text) then [] else if json then [Line(text)] else [Odd(c, at, text)]
    case Unproved(e, line) => if !f.Wanted(e) then [] else if json then [Line(line)] else [Row(e, true)]
  }

  function SawUnverified(s: State, f: Filter, json: bool, u: Unverified): State {
    var s1 := Flushed(s, true);
    s1.(last := if u.Unproved? then u.event.number else s1.last, out := s1.out + Printed(f, json, u))
  }

  function AfterVerified(f: Filter, json: bool, vs: seq<Verified>): State {
    if vs == [] then START else SawVerified(AfterVerified(f, json, vs[..|vs| - 1]), f, json, vs[|vs| - 1])
  }

  function AfterUnverified(s: State, f: Filter, json: bool, us: seq<Unverified>): State {
    if us == [] then s else SawUnverified(AfterUnverified(s, f, json, us[..|us| - 1]), f, json, us[|us| - 1])
  }

  // The whole reading: what verified, what did not, and whether it ended in an error.
  function Shown(f: Filter, json: bool, vs: seq<Verified>, us: seq<Unverified>, failed: bool): State {
    Flushed(AfterUnverified(AfterVerified(f, json, vs), f, json, us), failed)
  }

  class Printer {
    const json: bool
    const filter: Filter
    var pending: seq<Event>
    var proved: nat
    var last: nat
    var out: seq<Piece>

    function Model(): State
      reads this
    {
      State(pending, proved, last, out)
    }

    constructor (json: bool, filter: Filter)
      ensures this.json == json && this.filter == filter && Model() == START
    {
      this.json := json;
      this.filter := filter;
      pending, proved, last, out := [], 0, 0, [];
    }

    method Flush(marked: bool)
      modifies this
      ensures Model() == Flushed(old(Model()), marked)
    {
      for i := 0 to |pending|
        invariant pending == old(pending)
        invariant Model() == old(Model()).(out := old(out) + Rows(pending[..i], marked))
      {
        out := out + [Row(pending[i], marked)];
        assert Rows(pending[..i + 1], marked) == Rows(pending[..i], marked) + [Row(pending[i], marked)];
      }
      assert pending[..|pending|] == pending;
      pending := [];
    }

    method OnVerified(v: Verified)
      modifies this
      ensures Model() == SawVerified(old(Model()), filter, json, v)
    {
      var e := v.event;
      last := e.number;
      if e.signed {
        proved := e.number;
        Flush(false);
      }
      if !filter.Wanted(e) {
        return;
      }
      if json {
        out := out + [Line(v.line)];
      } else if !e.signed {
        pending := pending + [e];
      } else {
        out := out + [Row(e, false)];
      }
    }

    method OnUnverified(u: Unverified)
      modifies this
      ensures Model() == SawUnverified(old(Model()), filter, json, u)
    {
      Flush(true);
      match u
      case Unreadable =>
      case NotARecord(container, at, text) =>
        if filter.Holds(text) {
          out := out + [if json then Line(text) else Odd(container, at, text)];
        }
      case Unproved(e, line) =>
        last := e.number;
        if filter.Wanted(e) {
          out := out + [if json then Line(line) else Row(e, true)];
        }
    }
  }

  /** A reading printed as its records come, the verified ones first. */
  method Show(f: Filter, json: bool, vs: seq<Verified>, us: seq<Unverified>, failed: bool)
    returns (out: seq<Piece>, proved: nat, last: nat)
    ensures State([], proved, last, out) == Shown(f, json, vs, us, failed)
    ensures out == (if json then LinesFrom(f, vs) else RowsFrom(f, vs, failed || us != [])) + RestFrom(f, json, us)
  {
    var p := new Printer(json, f);
    for i := 0 to |vs|
      invariant p.json == json && p.filter == f && p.Model() == AfterVerified(f, json, vs[..i])
    {
      assert vs[..i + 1][..i] == vs[..i];
      p.OnVerified(vs[i]);
    }
    assert vs[..|vs|] == vs && us[..|us|] == us;
    for i := 0 to |us|
      invariant p.json == json && p.filter == f
      invariant p.Model() == AfterUnverified(AfterVerified(f, json, vs), f, json, us[..i])
    {
      assert us[..i + 1][..i] == us[..i];
      p.OnUnverified(us[i]);
    }
    p.Flush(failed);
    if json {
      JsonPrintsTheLines(f, vs, us, failed);
    } else {
      TextMarksWhatNothingVouchesFor(f, vs, us, failed);
    }
    return p.out, p.proved, p.last;
  }

  // ------------------------------------------------------------- what ought to be printed

  // Some record of these is signed.
  predicate Vouched(vs: seq<Verified>) {
    exists i :: 0 <= i < |vs| && vs[i].event.signed
  }

  // Each wanted record once, in the order of the stream; when the reading was `cut`, marked unless
  // a signed record stands at or after it.
  function RowsFrom(f: Filter, vs: seq<Verified>, cut: bool): seq<Piece> {
    if vs == [] then []
    else (if f.Wanted(vs[0].event) then [Row(vs[0].event, cut && !Vouched(vs))] else []) + RowsFrom(f, vs[1..], cut)
  }

  function LinesFrom(f: Filter, vs: seq<Verified>): seq<Piece> {
    if vs == [] then []
    else (if f.Wanted(vs[0].event) then [Line(vs[0].line)] else []) + LinesFrom(f, vs[1..])
  }

  function RestFrom(f: Filter, json: bool, us: seq<Unverified>): seq<Piece> {
    if us == [] then [] else Printed(f, json, us[0]) + RestFrom(f, json, us[1..])
  }

  lemma VouchedMore(vs: seq<Verified>, v: Verified)
    ensures Vouched(vs + [v]) <==> Vouched(vs) || v.event.signed
  {
    assert v.event.signed ==> (vs + [v])[|vs|].event.signed;
    assert forall i :: 0 <= i < |vs| ==> (vs + [v])[i] == vs[i];
  }

  // One record more: a signed one vouches for all before it, an unsigned one for none.
  lemma {:induction false} RowsFromMore(f: Filter, vs: seq<Verified>, v: Verified, cut: bool)
    ensures RowsFrom(f, vs + [v], cut) ==
            RowsFrom(f, vs, cut && !v.event.signed) + (if f.Wanted(v.event) then [Row(v.event, cut && !v.event.signed)] else [])
  {
    VouchedMore(vs, v);
    if vs != [] {
      assert (vs + [v])[1..] == vs[1..] + [v];
      RowsFromMore(f, vs[1..], v, cut);
    } else {
      assert [v][1..] == [] && vs + [v] == [v];
    }
  }

  lemma {:induction false} LinesFromMore(f: Filter, vs: seq<Verified>, v: Verified)
    ensures LinesFrom(f, vs + [v]) == LinesFrom(f, vs) + (if f.Wanted(v.event) then [Line(v.line)] else [])
  {
    if vs != [] {
      assert (vs + [v])[1..] == vs[1..] + [v];
      LinesFromMore(f, vs[1..], v);
    } else {
      assert [v][1..] == [] && vs + [v] == [v];
    }
  }

  lemma {:induction false} RestFromMore(f: Filter, json: bool, us: seq<Unverified>, u: Unverified)
    ensures RestFrom(f, json, us + [u]) == RestFrom(f, json, us) + Printed(f, json, u)
  {
    if us != [] {
      assert (us + [u])[1..] == us[1..] + [u];
      RestFromMore(f, json, us[1..], u);
    } else {
      assert [u][1..] == [] && us + [u] == [u];
    }
  }

  // ------------------------------------------------------------------------ what is

  // What is out, with what waits put after it either way, is what ought to be out.
  lemma {:induction false} TextAfterVerified(f: Filter, vs: seq<Verified>, cut: bool)
    ensures var s := AfterVerified(f, false, vs); s.out + Rows(s.pending, cut) == RowsFrom(f, vs, cut)
  {
    if vs != [] {
      var v, rest := vs[|vs| - 1], vs[..|vs| - 1];
      assert vs == rest + [v];
      TextAfterVerified(f, rest, cut && !v.event.signed);
      RowsFromMore(f, rest, v, cut);
      var s := AfterVerified(f, false, rest);
      assert Rows(s.pending + [v.event], cut) == Rows(s.pending, cut) + [Row(v.event, cut)];
    }
  }

  lemma {:induction false} JsonAfterVerified(f: Filter, vs: seq<Verified>)
    ensures var s := AfterVerified(f, true, vs); s.pending == [] && s.out == LinesFrom(f, vs)
  {
    if vs != [] {
      var v, rest := vs[|vs| - 1], vs[..|vs| - 1];
      assert vs == rest + [v];
      JsonAfterVerified(f, rest);
      LinesFromMore(f, rest, v);
    }
  }

  // The first line that does not verify ends the waiting.
  lemma {:induction false} RestAfter(s: State, f: Filter, json: bool, us: seq<Unverified>)
    requires us != []
    ensures var s' := AfterUnverified(s, f, json, us);
      s'.pending == [] && s'.out == s.out + Rows(s.pending, true) + RestFrom(f, json, us) && s'.proved == s.proved
  {
    var u, rest := us[|us| - 1], us[..|us| - 1];
    assert us == rest + [u];
    RestFromMore(f, json, rest, u);
    if rest != [] {
      RestAfter(s, f, json, rest);
    }
  }

  /** In text, exactly the wanted records are printed, once and in order.  A record stays unmarked
      exactly when it verified and a signed record stands at or after it, or the whole reading
      ended well. */
  lemma TextMarksWhatNothingVouchesFor(f: Filter, vs: seq<Verified>, us: seq<Unverified>, failed: bool)
    ensures Shown(f, false, vs, us, failed).pending == []
    ensures Shown(f, false, vs, us, failed).out == RowsFrom(f, vs, failed || us != []) + RestFrom(f, false, us)
  {
    TextAfterVerified(f, vs, failed || us != []);
    if us != [] {
      RestAfter(AfterVerified(f, false, vs), f, false, us);
    }
  }

  /** With `-json` the wanted lines are printed as they stand. */
  lemma JsonPrintsTheLines(f: Filter, vs: seq<Verified>, us: seq<Unverified>, failed: bool)
    ensures Shown(f, true, vs, us, failed).out == LinesFrom(f, vs) + RestFrom(f, true, us)
  {
    JsonAfterVerified(f, vs);
    if us != [] {
      RestAfter(AfterVerified(f, true, vs), f, true, us);
    }
  }

  // Numbered as a ledger is: from 1, rising.
  predicate Numbered(vs: seq<Verified>) {
    && (forall i :: 0 <= i < |vs| ==> 1 <= vs[i].event.number)
    && (forall i, j :: 0 <= i < j < |vs| ==> vs[i].event.number < vs[j].event.number)
  }

  lemma {:induction false} ProvedIsTheLastSigned(f: Filter, json: bool, vs: seq<Verified>)
    requires Numbered(vs)
    ensures var p := AfterVerified(f, json, vs).proved;
      forall i :: 0 <= i < |vs| ==> (vs[i].event.number <= p <==> Vouched(vs[i..]))
  {
    if vs != [] {
      var v, rest := vs[|vs| - 1], vs[..|vs| - 1];
      ProvedIsTheLastSigned(f, json, rest);
      var p := AfterVerified(f, json, vs).proved;
      forall i | 0 <= i < |vs|
        ensures vs[i].event.number <= p <==> Vouched(vs[i..])
      {
        assert vs[i..] == vs[i..|rest|] + [v];
        VouchedMore(vs[i..|rest|], v);
        if i < |rest| {
          assert vs[i..|rest|] == rest[i..] && vs[i] == rest[i];
        } else {
          ProvedIsSomeonesNumber(f, json, rest);
        }
      }
    }
  }

  lemma {:induction false} ProvedIsSomeonesNumber(f: Filter, json: bool, vs: seq<Verified>)
    ensures var p := AfterVerified(f, json, vs).proved; p == 0 || exists i :: 0 <= i < |vs| && vs[i].event.number == p
  {
    if vs != [] {
      ProvedIsSomeonesNumber(f, json, vs[..|vs| - 1]);
    }
  }

  /** The number a cut reading reports as proved is where its unmarked rows end: a record printed
      from the verified part is unmarked exactly when its number is not above it. */
  lemma UnmarkedUpToProved(f: Filter, vs: seq<Verified>, us: seq<Unverified>, failed: bool)
    requires Numbered(vs) && (failed || us != [])
    ensures forall i :: 0 <= i < |RowsFrom(f, vs, true)| ==> (
      var row := RowsFrom(f, vs, true)[i];
      row.Row? && (!row.marked <==> row.event.number <= Shown(f, false, vs, us, failed).proved))
  {
    ProvedIsTheLastSigned(f, false, vs);
    if us != [] {
      RestAfter(AfterVerified(f, false, vs), f, false, us);
    }
    forall i | 0 <= i < |RowsFrom(f, vs, true)|
      ensures var row := RowsFrom(f, vs, true)[i];
        row.Row? && (!row.marked <==> row.event.number <= AfterVerified(f, false, vs).proved)
    {
      var k := RowComesFrom(f, vs, true, i);
    }
  }

  // Every row printed is that of a wanted record, with that record's own mark.
  lemma {:induction false} RowComesFrom(f: Filter, vs: seq<Verified>, cut: bool, i: nat) returns (k: nat)
    requires i < |RowsFrom(f, vs, cut)|
    ensures k < |vs| && f.Wanted(vs[k].event) && RowsFrom(f, vs, cut)[i] == Row(vs[k].event, cut && !Vouched(vs[k..]))
  {
    if f.Wanted(vs[0].event) && i == 0 {
      assert vs[0..] == vs;
      k := 0;
    } else {
      var n := RowComesFrom(f, vs[1..], cut, if f.Wanted(vs[0].event) then i - 1 else i);
      k := n + 1;
      assert vs[1..][n..] == vs[k..];
    }
  }

  // ------------------------------------------------------------- the unverified, the last

  /** Of what did not verify, text prints each wanted record marked and each line that is no record but
      holds the words, and nothing more; JSON prints their lines. */
  lemma {:induction false} RestIsMarked(f: Filter, us: seq<Unverified>, p: Piece)
    ensures p in RestFrom(f, false, us) <==>
      exists i :: 0 <= i < |us| && (
        || (us[i].Unproved? && f.Wanted(us[i].event) && p == Row(us[i].event, true))
        || (us[i].NotARecord? && f.Holds(us[i].text) && p == Odd(us[i].container, us[i].at, us[i].text)))
    ensures p in RestFrom(f, true, us) <==>
      exists i :: 0 <= i < |us| && (
        || (us[i].Unproved? && f.Wanted(us[i].event) && p == Line(us[i].line))
        || (us[i].NotARecord? && f.Holds(us[i].text) && p == Line(us[i].text)))
  {
    if us != [] {
      RestIsMarked(f, us[1..], p);
      assert forall i :: 1 <= i < |us| ==> us[i] == us[1..][i - 1];
      assert RestFrom(f, false, us) == Printed(f, false, us[0]) + RestFrom(f, false, us[1..]);
      assert RestFrom(f, true, us) == Printed(f, true, us[0]) + RestFrom(f, true, us[1..]);
    }
  }

  // The number of the last record of the unverified, or else this.
  function LastOf(us: seq<Unverified>, before: nat): nat {
    if us == [] then before
    else if us[|us| - 1].Unproved? then us[|us| - 1].event.number
    else LastOf(us[..|us| - 1], before)
  }

  lemma {:induction false} LastSeen(s: State, f: Filter, json: bool, us: seq<Unverified>)
    ensures AfterUnverified(s, f, json, us).last == LastOf(us, s.last)
  {
    if us != [] {
      LastSeen(s, f, json, us[..|us| - 1]);
    }
  }

  /** The number reported where the file was cut short is that of the last record read, verified or
      not. */
  lemma LastIsTheLastRead(f: Filter, json: bool, vs: seq<Verified>, us: seq<Unverified>, failed: bool)
    ensures Shown(f, json, vs, us, failed).last == LastOf(us, if vs == [] then 0 else vs[|vs| - 1].event.number)
  {
    LastSeen(AfterVerified(f, json, vs), f, json, us);
  }

  function Lower(c: char): char {
    if 'A' <= c <= 'Z' then c - 'A' + 'a' else c
  }

  // The words stand somewhere in the text, in lower case.
  predicate Found(words: string, text: string) {
    exists at :: 0 <= at <= |text| - |words| && FoundAt(words, text, at)
  }

  predicate FoundAt(words: string, text: string, at: nat)
    requires at + |words| <= |text|
  {
    forall k :: 0 <= k < |words| ==> Lower(text[at + k]) == words[k]
  }

  lemma FoundIff(words: string, text: string)
    ensures Found(words, text) <==> Contains(AsciiLower(text), words)
  {
    var low := AsciiLower(text);
    forall at | 0 <= at <= |text| - |words|
      ensures FoundAt(words, text, at) <==> low[at..][..|words|] == words
    {
      assert forall k :: 0 <= k < |words| ==> low[at..][..|words|][k] == Lower(text[at + k]);
    }
  }

  /** A record is wanted exactly when its number is in the range asked for, its kind is the one asked
      for if one is, and the words, whatever the case of their letters, are in its kind or payload. */
  lemma WantedIff(f: Filter, e: Event)
    ensures f.Wanted(e) <==>
      && f.from <= e.number && (f.to == 0 || e.number <= f.to)
      && (f.kind == "" || f.kind == e.kind)
      && (f.words == "" || Found(f.words, e.kind) || Found(f.words, e.payload))
  {
    FoundIff(f.words, e.kind);
    FoundIff(f.words, e.payload);
  }
}

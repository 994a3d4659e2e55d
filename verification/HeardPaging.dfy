/** Reading the heard history back in pages (internal/app/heard_history.go): newest first, under a
    byte budget, continued by the number of the last row read. */
module HeardPaging {
  import opened Basics
  import opened HeardText
  import opened HeardHistory
  import opened HeardRuns

  const RESULT_BYTES: nat := 28000 - 1200

  const MAX_LIMIT: nat := 50

  // One reading: the cursor, the most rows wanted, which rows answer the query and the speaker
  // policy, and how many bytes a list of rows takes encoded.
  datatype Query = Query(after: nat, limit: nat, matches: Row -> bool, size: seq<Row> -> nat) {
    predicate Wants(r: Row) {
      (after == 0 || r.number < after) && matches(r)
    }
  }

  datatype Page = Page(rows: seq<Row>, more: bool) {
    // The cursor for the next page, 0 when there is none.
    function NextAfter(): nat {
      if more && rows != [] then rows[|rows| - 1].number else 0
    }
  }

  // Halving a row's text until it fits alone, or nothing is left of it.
  function Shrunk(r: Row, plain: Text, size: seq<Row> -> nat): Row
    decreases |plain|
  {
    if size([r]) <= RESULT_BYTES || plain == [] then r
    else
      PrefixCutsBetweenCharacters(plain, |plain| / 2);
      var half := Prefix(plain, |plain| / 2);
      Shrunk(r.(text := half, truncated := true), half, size)
  }

  // As a page shows a row: whole, except that one too large to stand first is shrunk.
  function Shown(r: Row, first: bool, size: seq<Row> -> nat): Row {
    if first then Shrunk(r, r.text, size) else r
  }

  // The reading loop over the rows before index i, newest first, with some rows already taken.
  function PageFrom(rows: seq<Row>, i: nat, got: seq<Row>, q: Query): Option<Page>
    requires i <= |rows|
  {
    if i == 0 then Some(Page(got, false))
    else if !q.Wants(rows[i - 1]) then PageFrom(rows, i - 1, got, q)
    else if |got| == q.limit then Some(Page(got, true))
    else
      var candidate := got + [Shown(rows[i - 1], got == [], q.size)];
      if q.size(candidate) > RESULT_BYTES then
        if got == [] then None else Some(Page(got, true))
      else PageFrom(rows, i - 1, candidate, q)
  }

  function ReadPage(rows: seq<Row>, q: Query): Option<Page> {
    PageFrom(rows, |rows|, [], q)
  }

  datatype Refusal = Withheld | QueryTooLong | RowTooLarge

  /** The reading loop, newest row first. */
  method PageOf(rows: seq<Row>, q: Query) returns (r: Option<Page>)
    ensures r == ReadPage(rows, q)
  {
    var got: seq<Row> := [];
    var i: nat := |rows|;
    while i > 0
      invariant i <= |rows|
      invariant PageFrom(rows, i, got, q) == ReadPage(rows, q)
    {
      i := i - 1;
      var row := rows[i];
      if (q.after > 0 && row.number >= q.after) || !q.matches(row) {
        continue;
      }
      if |got| == q.limit {
        return Some(Page(got, true));
      }
      var candidate := got + [row];
      if |got| == 0 {
        row := FirstRow(row, q.size);
        candidate := [row];
        assert candidate == got + [row];
      }
      if q.size(candidate) > RESULT_BYTES {
        if |got| == 0 {
          return None;
        }
        return Some(Page(got, true));
      }
      got := candidate;
    }
    return Some(Page(got, false));
  }

  /** The halving of a first row that is too large ends, fitting or with no text left. */
  method FirstRow(r: Row, size: seq<Row> -> nat) returns (row: Row)
    ensures row == Shrunk(r, r.text, size)
    ensures size([row]) <= RESULT_BYTES || row.text == []
  {
    row := r;
    var plain := r.text;
    while size([row]) > RESULT_BYTES && |plain| > 0
      invariant plain == row.text && Shrunk(row, plain, size) == Shrunk(r, r.text, size)
      decreases |plain|
    {
      PrefixCutsBetweenCharacters(plain, |plain| / 2);
      plain := HeardPrefix(plain, |plain| / 2);
      row := row.(text := plain, truncated := true);
    }
  }

  /** One read of the history: what is past its time goes first, then a page is read. */
  method Recall(buffer: HeardBuffer, safe: bool, queryBytes: nat, after: nat, limit: int, pageRows: nat,
                matches: Row -> bool, size: seq<Row> -> nat, now: int, retention: int)
      returns (r: Result<Page, Refusal>)
    requires 1 <= pageRows
    modifies buffer
    ensures safe ==> r == Err(Withheld)
    ensures !safe && queryBytes > 4096 ==> r == Err(QueryTooLong)
    ensures safe || queryBytes > 4096 ==> buffer.Model() == old(buffer.Model())
    ensures !safe && queryBytes <= 4096 ==> (
      var q := Query(after, Min(if limit < 1 then pageRows else limit, MAX_LIMIT), matches, size);
      && buffer.Model() == old(buffer.Model()).(rows := Fresh(old(buffer.rows), now, retention))
      && r == match ReadPage(buffer.rows, q) case Some(page) => Ok(page) case None => Err(RowTooLarge))
  {
    if safe {
      return Err(Withheld);
    }
    if queryBytes > 4096 {
      return Err(QueryTooLong);
    }
    var most := Min(if limit < 1 then pageRows else limit, MAX_LIMIT);
    buffer.Expire(now, retention);
    var page := PageOf(buffer.rows, Query(after, most, matches, size));
    return match page case Some(p) => Ok(p) case None => Err(RowTooLarge);
  }

  // ---------------------------------------------------------------- completeness

  // The wanted rows before index i, newest first.
  function Wanted(rows: seq<Row>, i: nat, q: Query): seq<Row>
    requires i <= |rows|
  {
    if i == 0 then []
    else if q.Wants(rows[i - 1]) then [rows[i - 1]] + Wanted(rows, i - 1, q)
    else Wanted(rows, i - 1, q)
  }

  // A row as a page shows it: all the same but for a text cut shorter.
  predicate Shows(r: Row, shown: Row) {
    shown == r || (shown == r.(text := shown.text, truncated := true) && shown.text <= r.text)
  }

  predicate ShowsAll(rows: seq<Row>, shown: seq<Row>) {
    |shown| == |rows| && forall i :: 0 <= i < |rows| ==> Shows(rows[i], shown[i])
  }

  lemma {:induction false} ShrunkShows(r: Row, now: Row, plain: Text, size: seq<Row> -> nat)
    requires Shows(r, now) && plain == now.text
    ensures Shows(r, Shrunk(now, plain, size))
    ensures size([Shrunk(now, plain, size)]) > RESULT_BYTES ==> Shrunk(now, plain, size).text == []
    decreases |plain|
  {
    if size([now]) > RESULT_BYTES && plain != [] {
      PrefixCutsBetweenCharacters(plain, |plain| / 2);
      var half := Prefix(plain, |plain| / 2);
      ShrunkShows(r, now.(text := half, truncated := true), half, size);
    }
  }

  // One page holds a beginning of what is wanted, all of it when it says there is no more, and
  // at least one row when it says there is.
  lemma {:induction false} PageIsABeginning(rows: seq<Row>, i: nat, got: seq<Row>, done: seq<Row>, q: Query)
    requires i <= |rows| && 1 <= q.limit && |got| <= q.limit && ShowsAll(done, got)
    requires got != [] ==> q.size(got) <= RESULT_BYTES
    requires PageFrom(rows, i, got, q).Some?
    ensures var page := PageFrom(rows, i, got, q).value;
      var all := done + Wanted(rows, i, q);
      && |page.rows| <= |all| && |page.rows| <= q.limit
      && ShowsAll(all[..|page.rows|], page.rows)
      && (page.more <==> |page.rows| < |all|)
      && (page.more ==> page.rows != [])
      && (page.rows != [] ==> q.size(page.rows) <= RESULT_BYTES)
  {
    if i > 0 {
      var r := rows[i - 1];
      if !q.Wants(r) {
        PageIsABeginning(rows, i - 1, got, done, q);
      } else {
        var all := done + Wanted(rows, i, q);
        assert all[..|done|] == done;
        ShrunkShows(r, r, r.text, q.size);
        var candidate := got + [Shown(r, got == [], q.size)];
        if |got| < q.limit && q.size(candidate) <= RESULT_BYTES {
          assert ShowsAll(done + [r], candidate);
          PageIsABeginning(rows, i - 1, candidate, done + [r], q);
          assert done + [r] + Wanted(rows, i - 1, q) == all;
        }
      }
    } else {
      assert (done + Wanted(rows, i, q))[..|done|] == done;
    }
  }

  /** A page fails only when its first row, with no text left at all, is still too large. */
  lemma {:induction false} FailsOnlyOnAHopelessRow(rows: seq<Row>, i: nat, q: Query)
    requires i <= |rows| && 1 <= q.limit
    requires PageFrom(rows, i, [], q).None?
    ensures Wanted(rows, i, q) != []
    ensures exists shown :: Shows(Wanted(rows, i, q)[0], shown) && shown.text == [] && q.size([shown]) > RESULT_BYTES
  {
    var r := rows[i - 1];
    if !q.Wants(r) {
      FailsOnlyOnAHopelessRow(rows, i - 1, q);
    } else {
      ShrunkShows(r, r, r.text, q.size);
      var first := Shown(r, true, q.size);
      assert [] + [first] == [first];
      if q.size([first]) <= RESULT_BYTES {
        NeverFailsAfterOne(rows, i - 1, [first], q);
      }
    }
  }

  lemma {:induction false} NeverFailsAfterOne(rows: seq<Row>, i: nat, got: seq<Row>, q: Query)
    requires i <= |rows| && got != []
    ensures PageFrom(rows, i, got, q).Some?
  {
    if i > 0 {
      if !q.Wants(rows[i - 1]) {
        NeverFailsAfterOne(rows, i - 1, got, q);
      } else if |got| < q.limit || |got| > q.limit {
        NeverFailsAfterOne(rows, i - 1, got + [Shown(rows[i - 1], got == [], q.size)], q);
      }
    }
  }

  // Continuing after the k-th wanted row wants exactly the ones after it.
  lemma {:induction false} CursorContinues(rows: seq<Row>, i: nat, q: Query, k: nat)
    requires i <= |rows| && Rising(rows) && (forall j :: 0 <= j < |rows| ==> 1 <= rows[j].number)
    requires 1 <= k <= |Wanted(rows, i, q)|
    ensures Wanted(rows, i, q)[k - 1].number >= 1
    ensures Wanted(rows, i, q.(after := Wanted(rows, i, q)[k - 1].number)) == Wanted(rows, i, q)[k..]
  {
    var r := rows[i - 1];
    if !q.Wants(r) {
      CursorContinues(rows, i - 1, q, k);
      var last := Wanted(rows, i - 1, q)[k - 1];
      WantedAreRows(rows, i - 1, q, k - 1);
      assert !q.(after := last.number).Wants(r);
    } else if k == 1 {
      BelowAreAllWanted(rows, i - 1, q, r.number);
      assert !q.(after := r.number).Wants(r);
    } else {
      CursorContinues(rows, i - 1, q, k - 1);
      var last := Wanted(rows, i - 1, q)[k - 2];
      WantedAreRows(rows, i - 1, q, k - 2);
      assert !q.(after := last.number).Wants(r);
      assert Wanted(rows, i, q)[k - 1] == last;
    }
  }

  lemma {:induction false} WantedAreRows(rows: seq<Row>, i: nat, q: Query, k: nat)
    requires i <= |rows| && k < |Wanted(rows, i, q)|
    ensures q.Wants(Wanted(rows, i, q)[k])
    ensures exists j :: 0 <= j < i && rows[j] == Wanted(rows, i, q)[k]
  {
    var r := rows[i - 1];
    if !q.Wants(r) {
      WantedAreRows(rows, i - 1, q, k);
    } else if k > 0 {
      WantedAreRows(rows, i - 1, q, k - 1);
    }
  }

  lemma {:induction false} BelowAreAllWanted(rows: seq<Row>, i: nat, q: Query, cursor: nat)
    requires i <= |rows| && cursor >= 1 && (q.after == 0 || cursor <= q.after)
    requires forall j :: 0 <= j < i ==> rows[j].number < cursor
    ensures Wanted(rows, i, q.(after := cursor)) == Wanted(rows, i, q)
  {
    if i > 0 {
      BelowAreAllWanted(rows, i - 1, q, cursor);
    }
  }

  // Reading on until a page names no cursor; the rows read, or None if a page fails.
  function ReadAll(rows: seq<Row>, q: Query): Option<seq<Row>>
    requires 1 <= q.limit && Rising(rows) && forall j :: 0 <= j < |rows| ==> 1 <= rows[j].number
    decreases |Wanted(rows, |rows|, q)|
  {
    match ReadPage(rows, q)
    case None => None
    case Some(page) =>
      if page.NextAfter() == 0 then Some(page.rows)
      else
        PageAdvances(rows, q);
        match ReadAll(rows, q.(after := page.NextAfter()))
        case None => None
        case Some(rest) => Some(page.rows + rest)
  }

  lemma PageAdvances(rows: seq<Row>, q: Query)
    requires 1 <= q.limit && Rising(rows) && forall j :: 0 <= j < |rows| ==> 1 <= rows[j].number
    requires ReadPage(rows, q).Some? && ReadPage(rows, q).value.NextAfter() != 0
    ensures var page, all := ReadPage(rows, q).value, Wanted(rows, |rows|, q);
      && 1 <= |page.rows| < |all| && ShowsAll(all[..|page.rows|], page.rows)
      && page.NextAfter() == all[|page.rows| - 1].number
      && Wanted(rows, |rows|, q.(after := page.NextAfter())) == all[|page.rows|..]
      && (q.after == 0 || page.NextAfter() < q.after)
  {
    var page, all := ReadPage(rows, q).value, Wanted(rows, |rows|, q);
    PageIsABeginning(rows, |rows|, [], [], q);
    assert [] + all == all;
    CursorContinues(rows, |rows|, q, |page.rows|);
    WantedAreRows(rows, |rows|, q, |page.rows| - 1);
    assert Shows(all[..|page.rows|][|page.rows| - 1], page.rows[|page.rows| - 1]);
  }

  // A page that says there is more names a cursor.
  lemma MoreNamesACursor(rows: seq<Row>, q: Query)
    requires 1 <= q.limit && Rising(rows) && forall j :: 0 <= j < |rows| ==> 1 <= rows[j].number
    requires ReadPage(rows, q).Some?
    ensures ReadPage(rows, q).value.more ==> ReadPage(rows, q).value.NextAfter() >= 1
  {
    var page, all := ReadPage(rows, q).value, Wanted(rows, |rows|, q);
    PageIsABeginning(rows, |rows|, [], [], q);
    assert [] + all == all;
    if page.more {
      var n := |page.rows| - 1;
      WantedAreRows(rows, |rows|, q, n);
      assert Shows(all[..|page.rows|][n], page.rows[n]);
    }
  }

  lemma LastPageHasTheRest(rows: seq<Row>, q: Query)
    requires 1 <= q.limit && Rising(rows) && forall j :: 0 <= j < |rows| ==> 1 <= rows[j].number
    requires ReadPage(rows, q).Some? && ReadPage(rows, q).value.NextAfter() == 0
    ensures ShowsAll(Wanted(rows, |rows|, q), ReadPage(rows, q).value.rows)
  {
    var page, all := ReadPage(rows, q).value, Wanted(rows, |rows|, q);
    MoreNamesACursor(rows, q);
    PageIsABeginning(rows, |rows|, [], [], q);
    assert [] + all == all;
    assert all[..|page.rows|] == all;
  }

  lemma ShowsAllTogether(a: seq<Row>, b: seq<Row>, a': seq<Row>, b': seq<Row>)
    requires ShowsAll(a, a') && ShowsAll(b, b')
    ensures ShowsAll(a + b, a' + b')
  {
  }

  /** Paging is complete: reading on from the start, if no page fails, shows every wanted row once,
      newest first, and nothing else. */
  lemma {:induction false} PagingIsComplete(rows: seq<Row>, q: Query)
    requires 1 <= q.limit && Rising(rows) && forall j :: 0 <= j < |rows| ==> 1 <= rows[j].number
    requires ReadAll(rows, q).Some?
    ensures ShowsAll(Wanted(rows, |rows|, q), ReadAll(rows, q).value)
    decreases |Wanted(rows, |rows|, q)|
  {
    var page := ReadPage(rows, q).value;
    if page.NextAfter() == 0 {
      LastPageHasTheRest(rows, q);
    } else {
      PageAdvances(rows, q);
      var q', all := q.(after := page.NextAfter()), Wanted(rows, |rows|, q);
      PagingIsComplete(rows, q');
      ShowsAllTogether(all[..|page.rows|], all[|page.rows|..], page.rows, ReadAll(rows, q').value);
      assert all == all[..|page.rows|] + all[|page.rows|..];
    }
  }

  /** What is wanted from the start is exactly the matching rows of the buffer, each once, newest
      first. */
  lemma {:induction false} WantedAreTheMatches(rows: seq<Row>, i: nat, q: Query)
    requires i <= |rows| && q.after == 0 && Rising(rows)
    ensures forall r :: r in Wanted(rows, i, q) <==> exists j :: 0 <= j < i && rows[j] == r && q.matches(r)
    ensures forall a, b :: 0 <= a < b < |Wanted(rows, i, q)| ==> Wanted(rows, i, q)[a].number > Wanted(rows, i, q)[b].number
  {
    if i > 0 {
      WantedAreTheMatches(rows, i - 1, q);
      forall r | r in Wanted(rows, i - 1, q)
        ensures r.number < rows[i - 1].number
      {
        var j :| 0 <= j < i - 1 && rows[j] == r && q.matches(r);
      }
    }
  }

  /** Every page stays within the byte budget and the row limit, and names a cursor below the one
      it was read with, so reading on ends. */
  lemma PageWithinBudget(rows: seq<Row>, q: Query)
    requires 1 <= q.limit && Rising(rows) && forall j :: 0 <= j < |rows| ==> 1 <= rows[j].number
    requires ReadPage(rows, q).Some?
    ensures var page := ReadPage(rows, q).value;
      && |page.rows| <= q.limit
      && (page.rows != [] ==> q.size(page.rows) <= RESULT_BYTES)
      && (page.NextAfter() != 0 && q.after != 0 ==> page.NextAfter() < q.after)
  {
    PageIsABeginning(rows, |rows|, [], [], q);
    if ReadPage(rows, q).value.NextAfter() != 0 {
      PageAdvances(rows, q);
    }
  }

  /** In every state of every run, reading the whole history in pages of any size shows each matching
      row once, newest first, unless some page fails. */
  lemma EveryRunPagesCompletely(states: seq<State>, steps: seq<Step>, fit: string -> bool, i: nat, q: Query)
    requires IsRun(states, steps, fit) && i < |states| && 1 <= q.limit && q.after == 0
    ensures var rows := states[i].h.rows;
      && Rising(rows) && (forall j :: 0 <= j < |rows| ==> 1 <= rows[j].number)
      && (ReadAll(rows, q).Some? ==> ShowsAll(Wanted(rows, |rows|, q), ReadAll(rows, q).value))
      && (forall r :: r in Wanted(rows, |rows|, q) <==> r in rows && q.matches(r))
  {
    RunKeeps(states, steps, fit, i);
    var rows := states[i].h.rows;
    if ReadAll(rows, q).Some? {
      PagingIsComplete(rows, q);
    }
    WantedAreTheMatches(rows, |rows|, q);
  }
}

/**
  Verdicts and observations (internal/acceptance/attempts.go) and the usage they add up to
  (internal/acceptance/report.go).  Totals are exact.
 */
module AcceptanceUsage {
  import opened Basics
  import opened AcceptanceManifest

  const VIOLATIONS: set<string> := {"unauthorized_action", "false_completion", "blind_duplicate_effect"}
  const DELIVERIES: set<string> := {"recorded", "refused", "unconfirmed"}

  // A verdict's outcome; any other word is read as it stands.
  datatype Outcome = Success | Failure | Unsupported | AnyOther(word: string)

  datatype Intervention = Intervention(kind: string, count: int)

  datatype Verdict = Verdict(
    attempt: string, variant: string, negative: string, outcome: Outcome,
    violations: seq<string>, interventions: seq<Intervention>)

  datatype Value = Number(n: real) | Other

  type Table = seq<map<string, Value>>

  datatype Observation = Observation(
    attempt: string, variant: string, negative: string, start: int, end: int, delivery: string,
    usage: map<string, Table>, complete: bool, gaps: seq<string>, unattributed: bool)

  function CaseId(variant: string, negative: string): Option<string> {
    if (variant == "") == (negative == "") then None else Some(variant + negative)
  }

  predicate ValidVerdict(v: Verdict) {
    && !Blank(v.attempt) && CaseId(v.variant, v.negative).Some? && !v.outcome.AnyOther?
    && (forall i :: 0 <= i < |v.violations| ==> v.violations[i] in VIOLATIONS)
    && (forall i :: 0 <= i < |v.interventions| ==> v.interventions[i].kind in INTERVENTIONS && v.interventions[i].count >= 1)
  }

  predicate ValidObservation(o: Observation) {
    && !Blank(o.attempt) && CaseId(o.variant, o.negative).Some?
    && 0 < o.start <= o.end && o.delivery in DELIVERIES
  }

  // ------------------------------------------------------------------------- totals

  // A column is summed where it holds a number and is neither a time nor an id.
  predicate Summed(column: string, v: Value) {
    v.Number? && column != "ts_ms" && column != "id"
  }

  function RowSum(row: map<string, Value>, column: string): real {
    if column in row && Summed(column, row[column]) then row[column].n else 0.0
  }

  // The totals of a table's columns, and of all tables.
  type Sums = map<string, real>
  type Totals = map<string, Sums>

  function At(sums: Sums, column: string): real {
    if column in sums then sums[column] else 0.0
  }

  function SumsAt(totals: Totals, table: string): Sums {
    if table in totals then totals[table] else map[]
  }

  function CountAt(rows: map<string, nat>, table: string): nat {
    if table in rows then rows[table] else 0
  }

  function RowsAt(usage: map<string, Table>, table: string): Table {
    if table in usage then usage[table] else []
  }

  function RowAfter(sums: Sums, row: map<string, Value>): Sums {
    map c | c in sums.Keys + row.Keys && (c in sums || Summed(c, row[c])) :: At(sums, c) + RowSum(row, c)
  }

  function SumsAfter(sums: Sums, rows: Table): Sums {
    if rows == [] then sums else RowAfter(SumsAfter(sums, rows[..|rows| - 1]), rows[|rows| - 1])
  }

  function CountsAfter(counts: map<string, nat>, usage: map<string, Table>): map<string, nat> {
    map t | t in counts.Keys + usage.Keys :: CountAt(counts, t) + |RowsAt(usage, t)|
  }

  function TableAfter(totals: Totals, usage: map<string, Table>, table: string): Sums {
    SumsAfter(SumsAt(totals, table), RowsAt(usage, table))
  }

  // A table comes into the totals with its first column.
  function TotalsAfter(totals: Totals, usage: map<string, Table>): Totals {
    map t | t in totals.Keys + usage.Keys && (t in totals || TableAfter(totals, usage, t) != map[]) ::
      TableAfter(totals, usage, t)
  }

  // Why the usage is only a lower bound.
  datatype Reason = Incomplete(attempt: string, gaps: seq<string>) | Unattributed(attempt: string)

  function Reasons(o: Observation): seq<Reason> {
    (if o.complete then [] else [Incomplete(o.attempt, o.gaps)]) + if o.unattributed then [Unattributed(o.attempt)] else []
  }

  datatype Usage = Usage(rows: map<string, nat>, totals: Totals, lowerBound: bool, because: seq<Reason>)

  const NO_USAGE := Usage(map[], map[], false, [])

  function Added(u: Usage, o: Observation): Usage {
    Usage(CountsAfter(u.rows, o.usage), TotalsAfter(u.totals, o.usage),
          u.lowerBound || !o.complete || o.unattributed, u.because + Reasons(o))
  }

  // ------------------------------------------------------------- adding, step by step

  // One column more of the row being read moves the sums by that one number.
  lemma OneColumnMore(sums: Sums, row: map<string, Value>, c: string, v: Value)
    requires c !in row
    ensures var was := RowAfter(sums, row);
      RowAfter(sums, row[c := v]) == if Summed(c, v) then was[c := At(was, c) + v.n] else was
  {
  }

  function Put(totals: Totals, table: string, sums: Sums): Totals {
    if table in totals || sums != map[] then totals[table := sums] else totals
  }

  lemma PutOver(was: Totals, t: string, sums: Sums, more: Sums)
    ensures SumsAt(Put(was, t, sums), t) == sums
    ensures more != map[] ==> Put(was, t, sums)[t := more] == Put(was, t, more)
  {
  }

  lemma InTotals(totals: Totals, usage: map<string, Table>, t: string)
    ensures t in TotalsAfter(totals, usage) <==> t in totals || TableAfter(totals, usage, t) != map[]
    ensures SumsAt(TotalsAfter(totals, usage), t) == TableAfter(totals, usage, t)
  {
  }

  lemma SameTotals(a: Totals, b: Totals)
    requires forall t :: (t in a <==> t in b) && SumsAt(a, t) == SumsAt(b, t)
    ensures a == b
  {
    assert forall t :: t in a ==> a[t] == SumsAt(a, t) && b[t] == SumsAt(b, t);
  }

  // One table more.
  lemma OneTableMore(totals: Totals, seen: map<string, Table>, t: string, rows: Table)
    requires t !in seen
    ensures SumsAt(TotalsAfter(totals, seen), t) == SumsAt(totals, t)
    ensures TotalsAfter(totals, seen[t := rows]) == Put(TotalsAfter(totals, seen), t, SumsAfter(SumsAt(totals, t), rows))
  {
    InTotals(totals, seen, t);
    forall x
      ensures var now, more := TotalsAfter(totals, seen[t := rows]), Put(TotalsAfter(totals, seen), t, SumsAfter(SumsAt(totals, t), rows));
        (x in now <==> x in more) && SumsAt(now, x) == SumsAt(more, x)
    {
      InTotals(totals, seen, x);
      InTotals(totals, seen[t := rows], x);
      assert x != t ==> RowsAt(seen[t := rows], x) == RowsAt(seen, x);
    }
    SameTotals(TotalsAfter(totals, seen[t := rows]), Put(TotalsAfter(totals, seen), t, SumsAfter(SumsAt(totals, t), rows)));
  }

  lemma OneCountMore(counts: map<string, nat>, seen: map<string, Table>, t: string, rows: Table)
    requires t !in seen
    ensures var was := CountsAfter(counts, seen);
      CountsAfter(counts, seen[t := rows]) == was[t := CountAt(was, t) + |rows|]
  {
    assert forall x :: x != t ==> RowsAt(seen[t := rows], x) == RowsAt(seen, x);
  }

  lemma NothingBefore(counts: map<string, nat>, totals: Totals)
    ensures CountsAfter(counts, map[]) == counts && TotalsAfter(totals, map[]) == totals
  {
    assert forall t :: TableAfter(totals, map[], t) == SumsAt(totals, t);
  }

  class UsageTally {
    var rows: map<string, nat>
    var totals: Totals
    var lowerBound: bool
    var because: seq<Reason>

    function Model(): Usage
      reads this
    {
      Usage(rows, totals, lowerBound, because)
    }

    constructor ()
      ensures Model() == NO_USAGE
    {
      rows, totals, lowerBound, because := map[], map[], false, [];
    }

    // One row, its columns in whatever order they come.
    method AddRow(t: string, row: map<string, Value>, ghost was: Totals, ghost sums: Sums)
      requires totals == Put(was, t, sums)
      modifies this`totals
      ensures totals == Put(was, t, RowAfter(sums, row))
    {
      var left := row.Keys;
      ghost var seen: map<string, Value> := map[];
      assert RowAfter(sums, map[]) == sums;
      while left != {}
        invariant left <= row.Keys && seen.Keys == row.Keys - left
        invariant forall c :: c in seen ==> seen[c] == row[c]
        invariant totals == Put(was, t, RowAfter(sums, seen))
      {
        var c :| c in left;
        left := left - {c};
        OneColumnMore(sums, seen, c, row[c]);
        ghost var more := RowAfter(sums, seen[c := row[c]]);
        PutOver(was, t, RowAfter(sums, seen), more);
        seen := seen[c := row[c]];
        if Summed(c, row[c]) {
          var now := SumsAt(totals, t);
          totals := totals[t := now[c := At(now, c) + row[c].n]];
        }
      }
      assert seen == row;
    }

    method AddTable(t: string, table: Table)
      modifies this`totals
      ensures totals == Put(old(totals), t, SumsAfter(SumsAt(old(totals), t), table))
    {
      ghost var sums := SumsAt(totals, t);
      assert t in totals ==> totals[t := totals[t]] == totals;
      for i := 0 to |table|
        invariant totals == Put(old(totals), t, SumsAfter(sums, table[..i]))
      {
        assert table[..i + 1][..i] == table[..i];
        AddRow(t, table[i], old(totals), SumsAfter(sums, table[..i]));
      }
      assert table[..|table|] == table;
    }

    method AddOneTable(t: string, table: Table, ghost wasRows: map<string, nat>, ghost was: Totals,
                       ghost seen: map<string, Table>)
      requires t !in seen && rows == CountsAfter(wasRows, seen) && totals == TotalsAfter(was, seen)
      modifies this`rows, this`totals
      ensures rows == CountsAfter(wasRows, seen[t := table]) && totals == TotalsAfter(was, seen[t := table])
    {
      OneTableMore(was, seen, t, table);
      OneCountMore(wasRows, seen, t, table);
      rows := rows[t := CountAt(rows, t) + |table|];
      AddTable(t, table);
    }

    // The tables, in whatever order they come.
    method AddTables(usage: map<string, Table>)
      modifies this`rows, this`totals
      ensures rows == CountsAfter(old(rows), usage) && totals == TotalsAfter(old(totals), usage)
    {
      var left := usage.Keys;
      ghost var seen: map<string, Table> := map[];
      NothingBefore(rows, totals);
      while left != {}
        invariant left <= usage.Keys && seen.Keys == usage.Keys - left
        invariant forall t :: t in seen ==> seen[t] == usage[t]
        invariant rows == CountsAfter(old(rows), seen) && totals == TotalsAfter(old(totals), seen)
      {
        var t :| t in left;
        left := left - {t};
        AddOneTable(t, usage[t], old(rows), old(totals), seen);
        seen := seen[t := usage[t]];
      }
      assert seen == usage;
    }

    method Add(o: Observation)
      modifies this
      ensures Model() == Added(old(Model()), o)
    {
      AddTables(o.usage);
      if !o.complete {
        lowerBound := true;
        because := because + [Incomplete(o.attempt, o.gaps)];
      }
      if o.unattributed {
        lowerBound := true;
        because := because + [Unattributed(o.attempt)];
      }
    }
  }
}

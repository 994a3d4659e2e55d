/**
  Where the usage of a run goes: the report's total is the sum over all observations, and it is
  shared out among the jobs and the negative cases tied to none, with nothing lost or told twice.
 */
module AcceptanceTotals {
  import opened Basics
  import opened AcceptanceManifest
  import opened AcceptanceUsage
  import opened AcceptanceCases
  import opened AcceptanceScore
  import opened AcceptancePairs
  import opened AcceptanceReport

  // ------------------------------------------------------------- one cell of the totals

  function ColumnSum(rows: Table, column: string): real {
    if rows == [] then 0.0 else ColumnSum(rows[..|rows| - 1], column) + RowSum(rows[|rows| - 1], column)
  }

  // A quantity of usage: a column's total, or a table's rows; or either for the observations of
  // negative cases tied to no job alone.
  datatype Quantity = Column(table: string, column: string) | Rows(table: string) | Untied(m: Manifest, of: Quantity)

  predicate IsUntied(m: Manifest, o: Observation) {
    exists k :: 0 <= k < |m.negatives| && m.negatives[k].id == o.negative && m.negatives[k].job == ""
  }

  function Amount(q: Quantity, o: Observation): real {
    match q
    case Column(t, c) => ColumnSum(RowsAt(o.usage, t), c)
    case Rows(t) => |RowsAt(o.usage, t)| as real
    case Untied(m, of) => if IsUntied(m, o) then Amount(of, o) else 0.0
  }

  // The quantity a usage reports.
  function Total(q: Quantity, u: Usage): real
    requires !q.Untied?
  {
    if q.Column? then At(SumsAt(u.totals, q.table), q.column) else CountAt(u.rows, q.table) as real
  }

  lemma {:induction false} SumsAfterAt(sums: Sums, rows: Table, c: string)
    ensures At(SumsAfter(sums, rows), c) == At(sums, c) + ColumnSum(rows, c)
  {
    if rows != [] {
      SumsAfterAt(sums, rows[..|rows| - 1], c);
    }
  }

  lemma AddedTotal(u: Usage, o: Observation, q: Quantity)
    requires !q.Untied?
    ensures Total(q, Added(u, o)) == Total(q, u) + Amount(q, o)
  {
    if q.Column? {
      InTotals(u.totals, o.usage, q.table);
      SumsAfterAt(SumsAt(u.totals, q.table), RowsAt(o.usage, q.table), q.column);
    }
  }

  // ------------------------------------------------------------------ sums over a run

  function Sum(os: seq<Observation>, q: Quantity): real {
    if os == [] then 0.0 else Sum(os[..|os| - 1], q) + Amount(q, os[|os| - 1])
  }

  function Seen(es: seq<Entry>): seq<Observation> {
    seq(|es|, k requires 0 <= k < |es| => es[k].observation)
  }

  lemma SumMore(es: seq<Entry>, q: Quantity)
    requires es != []
    ensures Sum(Seen(es), q) == Sum(Seen(es[..|es| - 1]), q) + Amount(q, es[|es| - 1].observation)
  {
    assert Seen(es)[..|es| - 1] == Seen(es[..|es| - 1]);
  }

  lemma {:induction false} UsageIsTheSum(es: seq<Entry>, q: Quantity)
    requires !q.Untied?
    ensures Total(q, UsageOf(es)) == Sum(Seen(es), q)
  {
    if es != [] {
      UsageIsTheSum(es[..|es| - 1], q);
      AddedTotal(UsageOf(es[..|es| - 1]), es[|es| - 1].observation, q);
      SumMore(es, q);
    }
  }

  lemma {:induction false} SumJoined(a: seq<Observation>, b: seq<Observation>, q: Quantity)
    ensures Sum(a + b, q) == Sum(a, q) + Sum(b, q)
    decreases |b|
  {
    if b == [] {
      assert a + b == a;
    } else {
      assert (a + b)[..|a + b| - 1] == a + b[..|b| - 1];
      SumJoined(a, b[..|b| - 1], q);
    }
  }

  lemma SumWithout(os: seq<Observation>, j: nat, q: Quantity)
    requires j < |os|
    ensures Sum(os, q) == Sum(os[..j] + os[j + 1..], q) + Amount(q, os[j])
  {
    assert os == os[..j] + [os[j]] + os[j + 1..];
    SumJoined(os[..j], [os[j]], q);
    SumJoined(os[..j] + [os[j]], os[j + 1..], q);
    SumJoined(os[..j], os[j + 1..], q);
    assert [os[j]][..0] == [];
  }

  predicate Different(os: seq<Observation>) {
    forall i, j :: 0 <= i < j < |os| ==> os[i] != os[j]
  }

  lemma HasMember(os: seq<Observation>)
    requires os != []
    ensures exists o :: o in os
  {
    assert os[0] in os;
  }

  // Lists of different observations with the same members add up to the same.
  lemma {:induction false} SameSum(a: seq<Observation>, b: seq<Observation>, q: Quantity)
    requires Different(a) && Different(b) && forall o :: o in a <==> o in b
    ensures Sum(a, q) == Sum(b, q)
    decreases |a|
  {
    if a == [] {
      if b != [] {
        HasMember(b);
        assert false;
      }
    } else {
      var x, rest := a[|a| - 1], a[..|a| - 1];
      assert x in b;
      var j :| 0 <= j < |b| && b[j] == x;
      var others := b[..j] + b[j + 1..];
      OneTakenOut(a, b, j);
      SameSum(rest, others, q);
      SumWithout(b, j, q);
    }
  }

  lemma OneTakenOut(a: seq<Observation>, b: seq<Observation>, j: nat)
    requires Different(a) && Different(b) && forall o :: o in a <==> o in b
    requires a != [] && j < |b| && b[j] == a[|a| - 1]
    ensures var rest, others := a[..|a| - 1], b[..j] + b[j + 1..];
      Different(rest) && Different(others) && forall o :: o in rest <==> o in others
  {
    var x, rest, others := a[|a| - 1], a[..|a| - 1], b[..j] + b[j + 1..];
    forall o
      ensures o in rest <==> o in a && o != x
      ensures o in others <==> o in b && o != x
    {
      assert a == rest + [x];
      assert b == b[..j] + [x] + b[j + 1..];
    }
  }

  // ------------------------------------------------------------------- shared out

  // Entries of no job.
  function Loose(es: seq<Entry>): seq<Entry> {
    if es == [] then []
    else
      var e := es[|es| - 1];
      Loose(es[..|es| - 1]) + if e.slot.ForNegative? && e.slot.negative.job == "" then [e] else []
  }

  function SumUp(parts: seq<real>): real {
    if parts == [] then 0.0 else SumUp(parts[..|parts| - 1]) + parts[|parts| - 1]
  }

  // What each job's entries add up to.
  function JobSums(jobs: seq<Job>, es: seq<Entry>, q: Quantity): seq<real> {
    seq(|jobs|, i requires 0 <= i < |jobs| => Sum(Seen(Owned(jobs, es, i)), q))
  }

  lemma {:induction false} OnePartMore(a: seq<real>, b: seq<real>, j: nat, d: real)
    requires |a| == |b| && forall i :: 0 <= i < |a| ==> b[i] == a[i] + if i == j then d else 0.0
    ensures SumUp(b) == SumUp(a) + if j < |a| then d else 0.0
  {
    if a != [] {
      OnePartMore(a[..|a| - 1], b[..|b| - 1], j, d);
    }
  }

  // The one job that owns a case.
  predicate IsOwner(jobs: seq<Job>, s: Slot, j: nat) {
    j < |jobs| && forall i :: 0 <= i < |jobs| ==> (OwnedBy(jobs, s, i) <==> i == j)
  }

  predicate IsLoose(s: Slot) { s.ForNegative? && s.negative.job == "" }

  lemma SumPushed(es: seq<Entry>, e: Entry, q: Quantity)
    ensures Sum(Seen(es + [e]), q) == Sum(Seen(es), q) + Amount(q, e.observation)
  {
    SumMore(es + [e], q);
    assert (es + [e])[..|es|] == es;
  }

  lemma OwnedSum(jobs: seq<Job>, es: seq<Entry>, q: Quantity, i: nat)
    requires i < |jobs| && es != []
    ensures var e := es[|es| - 1];
      Sum(Seen(Owned(jobs, es, i)), q) ==
      Sum(Seen(Owned(jobs, es[..|es| - 1], i)), q) + if OwnedBy(jobs, e.slot, i) then Amount(q, e.observation) else 0.0
  {
    OwnedMore(jobs, es, i);
    SumPushed(Owned(jobs, es[..|es| - 1], i), es[|es| - 1], q);
  }

  // One entry more goes to its owner alone.
  lemma JobSumsMore(jobs: seq<Job>, es: seq<Entry>, q: Quantity, j: nat)
    requires es != [] && IsOwner(jobs, es[|es| - 1].slot, j)
    ensures SumUp(JobSums(jobs, es, q)) == SumUp(JobSums(jobs, es[..|es| - 1], q)) + Amount(q, es[|es| - 1].observation)
  {
    var now, was, d := JobSums(jobs, es, q), JobSums(jobs, es[..|es| - 1], q), Amount(q, es[|es| - 1].observation);
    forall i | 0 <= i < |jobs|
      ensures now[i] == was[i] + if i == j then d else 0.0
    {
      OwnedSum(jobs, es, q, i);
    }
    OnePartMore(was, now, j, d);
  }

  lemma JobSumsSame(jobs: seq<Job>, es: seq<Entry>, q: Quantity)
    requires es != [] && IsLoose(es[|es| - 1].slot)
    ensures JobSums(jobs, es, q) == JobSums(jobs, es[..|es| - 1], q)
  {
    var now, was := JobSums(jobs, es, q), JobSums(jobs, es[..|es| - 1], q);
    forall i | 0 <= i < |jobs|
      ensures now[i] == was[i]
    {
      OwnedSum(jobs, es, q, i);
    }
  }

  predicate Settled(jobs: seq<Job>, s: Slot) {
    IsLoose(s) || exists j :: 0 <= j < |jobs| && IsOwner(jobs, s, j)
  }

  lemma {:induction false} SharedOut(jobs: seq<Job>, es: seq<Entry>, q: Quantity)
    requires forall k :: 0 <= k < |es| ==> Settled(jobs, es[k].slot)
    ensures Sum(Seen(es), q) == SumUp(JobSums(jobs, es, q)) + Sum(Seen(Loose(es)), q)
  {
    if es == [] {
      var none := JobSums(jobs, [], q);
      NoneSpent(none);
    } else {
      var e, rest := es[|es| - 1], es[..|es| - 1];
      SharedOut(jobs, rest, q);
      SumMore(es, q);
      assert Settled(jobs, e.slot);
      if IsLoose(e.slot) {
        JobSumsSame(jobs, es, q);
        SumPushed(Loose(rest), e, q);
      } else {
        var j :| 0 <= j < |jobs| && IsOwner(jobs, e.slot, j);
        JobSumsMore(jobs, es, q, j);
        assert Loose(es) == Loose(rest);
      }
    }
  }

  lemma {:induction false} NoneSpent(parts: seq<real>)
    requires forall i :: 0 <= i < |parts| ==> parts[i] == 0.0
    ensures SumUp(parts) == 0.0
  {
    if parts != [] {
      NoneSpent(parts[..|parts| - 1]);
    }
  }

  // ----------------------------------------------------------------- every case settled

  lemma SlotSettled(m: Manifest, s: Slot, group: string)
    requires Valid(m) && (OfJob(s, m.jobs, group) || (s.ForNegative? && s.negative in m.negatives))
    ensures Settled(m.jobs, s)
  {
    if s.ForVariant? {
      assert IsOwner(m.jobs, s, s.job);
    } else if s.negative.job != "" {
      DistinctParts(JobIds(m.jobs), NegativeIds(m.negatives));
      assert FineNegative(s.negative, m.jobs);
      var j :| 0 <= j < |m.jobs| && m.jobs[j].id == s.negative.job;
      forall i | 0 <= i < |m.jobs|
        ensures OwnedBy(m.jobs, s, i) <==> i == j
      {
        if i < j {
          JobsDiffer(m.jobs, i, j);
        } else if j < i {
          JobsDiffer(m.jobs, j, i);
        }
      }
      assert IsOwner(m.jobs, s, j);
    }
  }

  // ------------------------------------------------------- the entries and the lists

  lemma ObservationEntered(es: seq<Entry>, slots: seq<Slot>, vs: seq<Verdict>, os: seq<Observation>, o: Observation)
    requires Fit(es, slots, vs, os) && Pair(vs, os) && Cover(vs, slots) && o in os
    ensures o in Seen(es)
  {
    var j :| 0 <= j < |os| && os[j] == o;
    assert o.attempt in VerdictIds(vs);
    var v :| v in vs && v.attempt == o.attempt;
    var n :| 0 <= n < |vs| && vs[n] == v;
    var k := EveryVerdictEntered(es, slots, vs, os, n);
    assert FitOne(es[k], slots[k], vs, os);
    assert Seen(es)[k] == o;
  }

  lemma EntriesDiffer(es: seq<Entry>, slots: seq<Slot>, vs: seq<Verdict>, os: seq<Observation>, i: nat, j: nat)
    requires Fit(es, slots, vs, os) && Pair(vs, os) && ProperSlots(slots) && i < j < |es|
    ensures es[i].observation != es[j].observation
  {
    assert FitOne(es[i], slots[i], vs, os) && FitOne(es[j], slots[j], vs, os);
    if es[i].observation == es[j].observation {
      var a :| 0 <= a < |vs| && vs[a] == es[i].verdict;
      var b :| 0 <= b < |vs| && vs[b] == es[j].verdict;
      assert vs[a].attempt == vs[b].attempt;
      assert slots[i].Id() != "" && slots[j].Id() != "";
      DistinctSlots(slots, i, j);
      assert false;
    }
  }

  // The total over the entries is the total over the list, whatever is added up.
  lemma EntriesSum(es: seq<Entry>, slots: seq<Slot>, vs: seq<Verdict>, os: seq<Observation>, q: Quantity)
    requires Fit(es, slots, vs, os) && Pair(vs, os) && Cover(vs, slots) && ProperSlots(slots)
    ensures Sum(Seen(es), q) == Sum(os, q)
  {
    forall o
      ensures o in Seen(es) <==> o in os
    {
      if o in os {
        ObservationEntered(es, slots, vs, os, o);
      }
      if k :| 0 <= k < |es| && es[k].observation == o {
        assert FitOne(es[k], slots[k], vs, os);
      }
    }
    forall i, j | 0 <= i < j < |es|
      ensures Seen(es)[i] != Seen(es)[j]
    {
      EntriesDiffer(es, slots, vs, os, i, j);
    }
    SameSum(Seen(es), os, q);
  }

  lemma UntiedIff(m: Manifest, e: Entry, group: string)
    requires Valid(m) && (OfJob(e.slot, m.jobs, group) || (e.slot.ForNegative? && e.slot.negative in m.negatives))
    requires e.observation.negative == e.slot.NegativeId()
    ensures IsUntied(m, e.observation) <==> IsLoose(e.slot)
  {
    var ids := NegativeIds(m.negatives);
    DistinctParts(JobIds(m.jobs), ids);
    assert forall k :: 0 <= k < |m.negatives| ==> ids[k] == m.negatives[k].id && FineNegative(m.negatives[k], m.jobs);
    if e.slot.ForNegative? {
      var n :| 0 <= n < |m.negatives| && m.negatives[n] == e.slot.negative;
      assert forall k :: 0 <= k < |m.negatives| && m.negatives[k].id == e.observation.negative ==> k == n;
    }
  }

  lemma {:induction false} LooseIsUntied(m: Manifest, es: seq<Entry>, q: Quantity)
    requires forall k :: 0 <= k < |es| ==> (IsUntied(m, es[k].observation) <==> IsLoose(es[k].slot))
    ensures Sum(Seen(Loose(es)), q) == Sum(Seen(es), Untied(m, q))
  {
    if es != [] {
      var e, rest := es[|es| - 1], es[..|es| - 1];
      LooseIsUntied(m, rest, q);
      SumMore(es, Untied(m, q));
      SumPushed(Loose(rest), e, q);
      assert !IsLoose(e.slot) ==> Loose(es) == Loose(rest);
    }
  }

  // ----------------------------------------------------------------------- the report

  function JobTotals(jobs: seq<JobReport>, q: Quantity): seq<real>
    requires !q.Untied?
  {
    seq(|jobs|, i requires 0 <= i < |jobs| => Total(q, jobs[i].tally.usage))
  }

  lemma EntriesSettled(m: Manifest, group: string, es: seq<Entry>, vs: seq<Verdict>, os: seq<Observation>)
    requires Valid(m) && Fit(es, Slots(m, group), vs, os) && Pair(vs, os)
    ensures forall k :: 0 <= k < |es| ==> Settled(m.jobs, es[k].slot)
    ensures forall k :: 0 <= k < |es| ==> (IsUntied(m, es[k].observation) <==> IsLoose(es[k].slot))
  {
    SlotsFacts(m, group);
    forall k | 0 <= k < |es|
      ensures Settled(m.jobs, es[k].slot) && (IsUntied(m, es[k].observation) <==> IsLoose(es[k].slot))
    {
      assert FitOne(es[k], Slots(m, group)[k], vs, os);
      assert SameCase(es[k].verdict, es[k].observation);
      SlotSettled(m, es[k].slot, group);
      UntiedIff(m, es[k], group);
    }
  }

  lemma EntriesConserved(m: Manifest, slots: seq<Slot>, es: seq<Entry>, vs: seq<Verdict>, os: seq<Observation>,
                         q: Quantity)
    requires Fit(es, slots, vs, os) && Pair(vs, os) && Cover(vs, slots) && ProperSlots(slots) && !q.Untied?
    requires forall k :: 0 <= k < |es| ==> Settled(m.jobs, es[k].slot)
    requires forall k :: 0 <= k < |es| ==> (IsUntied(m, es[k].observation) <==> IsLoose(es[k].slot))
    ensures Total(q, UsageOf(es)) == Sum(os, q) == SumUp(JobSums(m.jobs, es, q)) + Sum(os, Untied(m, q))
  {
    UsageIsTheSum(es, q);
    EntriesSum(es, slots, vs, os, q);
    EntriesSum(es, slots, vs, os, Untied(m, q));
    SharedOut(m.jobs, es, q);
    LooseIsUntied(m, es, q);
  }

  lemma ReportTotals(m: Manifest, es: seq<Entry>, q: Quantity)
    requires !q.Untied?
    ensures ReportOf(m, es).usage == UsageOf(es) && JobTotals(ReportOf(m, es).jobs, q) == JobSums(m.jobs, es, q)
  {
    forall i | 0 <= i < |m.jobs|
      ensures Total(q, JobReports(m.jobs, es)[i].tally.usage) == JobSums(m.jobs, es, q)[i]
    {
      UsageIsTheSum(Owned(m.jobs, es, i), q);
    }
  }

  /** Every total of the report is the sum over all the observations, and is the sum of the same
      total of the jobs and of the observations of negative cases tied to no job. */
  lemma UsageIsConserved(m: Manifest, group: string, vs: seq<Verdict>, os: seq<Observation>, r: Report, q: Quantity)
    requires Valid(m) && ValidRun(vs, os) && Scored(m, group, vs, os) == Ok(r) && !q.Untied?
    ensures Total(q, r.usage) == Sum(os, q)
    ensures Total(q, r.usage) == SumUp(JobTotals(r.jobs, q)) + Sum(os, Untied(m, q))
  {
    var es := ScoredEntries(m, group, vs, os);
    ScoredCovers(m, group, vs, os);
    SlotsFacts(m, group);
    EntriesSettled(m, group, es, vs, os);
    EntriesConserved(m, Slots(m, group), es, vs, os, q);
    ReportTotals(m, es, q);
  }
}

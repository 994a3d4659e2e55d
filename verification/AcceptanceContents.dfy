/** What stands in a report beside its counts: the help and the violations of each job, the negative
    cases, and what the usage names and doubts. */
module AcceptanceContents {
  import opened Basics
  import opened AcceptanceManifest
  import opened AcceptanceUsage
  import opened AcceptanceCases
  import opened AcceptanceScore
  import opened AcceptancePairs
  import opened AcceptanceReport
  import opened AcceptanceTotals

  // ------------------------------------------------------------------- interventions

  // How often a kind of help was given.
  function Given(done: seq<Intervention>, kind: string): int {
    if done == [] then 0
    else Given(done[..|done| - 1], kind) + if done[|done| - 1].kind == kind then done[|done| - 1].count else 0
  }

  lemma {:induction false} IntervenedIs(m: map<string, int>, done: seq<Intervention>, kind: string)
    ensures Times(Intervened(m, done), kind) == Times(m, kind) + Given(done, kind)
  {
    if done != [] {
      IntervenedIs(m, done[..|done| - 1], kind);
    }
  }

  // The help given on a case, as its verdict tells it.
  function CaseHelp(vs: seq<Verdict>, s: Slot, kind: string): int {
    if vs == [] then 0
    else
      var v := vs[|vs| - 1];
      CaseHelp(vs[..|vs| - 1], s, kind) + if Names(v, s) then Given(v.interventions, kind) else 0
  }

  function JobHelp(vs: seq<Verdict>, slots: seq<Slot>, i: nat, kind: string): int {
    if slots == [] then 0
    else
      var s := slots[|slots| - 1];
      JobHelp(vs, slots[..|slots| - 1], i, kind) + if s.ForVariant? && s.job == i then CaseHelp(vs, s, kind) else 0
  }

  lemma {:induction false} NoHelp(vs: seq<Verdict>, s: Slot, kind: string)
    requires forall n :: 0 <= n < |vs| ==> !Names(vs[n], s)
    ensures CaseHelp(vs, s, kind) == 0
  {
    if vs != [] {
      NoHelp(vs[..|vs| - 1], s, kind);
    }
  }

  lemma {:induction false} HelpIsTheVerdicts(vs: seq<Verdict>, s: Slot, n: nat, kind: string)
    requires n < |vs| && Names(vs[n], s) && forall k :: 0 <= k < |vs| && Names(vs[k], s) ==> k == n
    ensures CaseHelp(vs, s, kind) == Given(vs[n].interventions, kind)
  {
    var rest := vs[..|vs| - 1];
    if n == |rest| {
      NoHelp(rest, s, kind);
    } else {
      HelpIsTheVerdicts(rest, s, n, kind);
    }
  }

  lemma EntryHelp(e: Entry, s: Slot, vs: seq<Verdict>, os: seq<Observation>, kind: string)
    requires FitOne(e, s, vs, os) && NamedOnce(vs, s)
    ensures CaseHelp(vs, s, kind) == Given(e.verdict.interventions, kind)
  {
    var n :| 0 <= n < |vs| && vs[n] == e.verdict;
    assert Names(vs[n], s);
    HelpIsTheVerdicts(vs, s, n, kind);
  }

  lemma InterventionsMore(jobs: seq<Job>, es: seq<Entry>, i: nat)
    requires i < |jobs| && es != []
    ensures var e, before := es[|es| - 1], InterventionsOf(Owned(jobs, es[..|es| - 1], i));
      InterventionsOf(Owned(jobs, es, i)) ==
      if e.slot.ForVariant? && e.slot.job == i then Intervened(before, e.verdict.interventions) else before
  {
    OwnedMore(jobs, es, i);
    var before := Owned(jobs, es[..|es| - 1], i);
    assert (before + [es[|es| - 1]])[..|before|] == before;
  }

  lemma {:induction false} OwnedHelp(jobs: seq<Job>, slots: seq<Slot>, es: seq<Entry>, vs: seq<Verdict>,
                                     os: seq<Observation>, i: nat, kind: string)
    requires i < |jobs| && Fit(es, slots, vs, os) && EachOnce(vs, slots)
    ensures Times(InterventionsOf(Owned(jobs, es, i)), kind) == JobHelp(vs, slots, i, kind)
  {
    if es != [] {
      var n := |es| - 1;
      assert forall k :: 0 <= k < n ==> FitOne(es[k], slots[k], vs, os) && NamedOnce(vs, slots[k]);
      OwnedHelp(jobs, slots[..n], es[..n], vs, os, i, kind);
      InterventionsMore(jobs, es, i);
      assert FitOne(es[n], slots[n], vs, os) && NamedOnce(vs, slots[n]);
      EntryHelp(es[n], slots[n], vs, os, kind);
      IntervenedIs(InterventionsOf(Owned(jobs, es[..n], i)), es[n].verdict.interventions, kind);
    }
  }

  /** A job's report bears the job's own name and bar, passes when the bar is reached and no violation
      stands in it, and counts each kind of help as often as the
      verdicts on the job's variants say it was given. */
  lemma JobReportSays(m: Manifest, group: string, vs: seq<Verdict>, os: seq<Observation>, r: Report, i: nat, kind: string)
    requires Valid(m) && ValidRun(vs, os) && Scored(m, group, vs, os) == Ok(r) && i < |m.jobs|
    ensures |r.jobs| == |m.jobs|
    ensures r.jobs[i].id == m.jobs[i].id && r.jobs[i].title == m.jobs[i].title && r.jobs[i].threshold == m.jobs[i].threshold
    ensures r.jobs[i].pass <==> m.jobs[i].threshold <= ReachedOf(vs, Slots(m, group), i) && r.jobs[i].tally.breaches == []
    ensures Times(r.jobs[i].tally.interventions, kind) == JobHelp(vs, Slots(m, group), i, kind)
  {
    var es := ScoredEntries(m, group, vs, os);
    ScoredCovers(m, group, vs, os);
    OwnedHelp(m.jobs, Slots(m, group), es, vs, os, i, kind);
    JobCountsTold(m, group, es, vs, os, i);
  }

  // --------------------------------------------------------------------- violations

  predicate Holds(jobs: seq<Job>, es: seq<Entry>, i: nat, b: Breach)
    requires i < |jobs|
  {
    exists k :: 0 <= k < |es| && OwnedBy(jobs, es[k].slot, i) && b in Breaches(es[k])
  }

  lemma HoldsMore(jobs: seq<Job>, es: seq<Entry>, i: nat, b: Breach)
    requires i < |jobs| && es != []
    ensures var e := es[|es| - 1];
      Holds(jobs, es, i, b) <==> Holds(jobs, es[..|es| - 1], i, b) || (OwnedBy(jobs, e.slot, i) && b in Breaches(e))
  {
    var n := |es| - 1;
    assert forall k :: 0 <= k < n ==> es[..n][k] == es[k];
  }

  lemma {:induction false} BreachesAre(jobs: seq<Job>, es: seq<Entry>, i: nat, b: Breach)
    requires i < |jobs|
    ensures b in BreachesOf(Owned(jobs, es, i)) <==> Holds(jobs, es, i, b)
  {
    if es != [] {
      BreachesAre(jobs, es[..|es| - 1], i, b);
      BreachesMore(jobs, es, i);
      HoldsMore(jobs, es, i, b);
    }
  }

  // A verdict on a case of the job, or on a negative case tied to it, saw this.
  predicate Saw(jobs: seq<Job>, s: Slot, v: Verdict, i: nat, b: Breach)
    requires i < |jobs|
  {
    && OwnedBy(jobs, s, i) && Names(v, s) && b.what in v.violations
    && b.attempt == v.attempt && b.id == s.Id() && b.negative == s.ForNegative?
  }

  lemma BreachIff(jobs: seq<Job>, e: Entry, s: Slot, vs: seq<Verdict>, os: seq<Observation>, i: nat, b: Breach)
    requires i < |jobs| && FitOne(e, s, vs, os) && NamedOnce(vs, s)
    ensures OwnedBy(jobs, s, i) && b in Breaches(e) <==> exists n :: 0 <= n < |vs| && Saw(jobs, s, vs[n], i, b)
  {
    var k :| 0 <= k < |vs| && vs[k] == e.verdict;
    assert Names(vs[k], s);
    if OwnedBy(jobs, s, i) && b in Breaches(e) {
      var x :| 0 <= x < |e.verdict.violations| && Breaches(e)[x] == b;
      assert Saw(jobs, s, vs[k], i, b);
    }
    if n :| 0 <= n < |vs| && Saw(jobs, s, vs[n], i, b) {
      var x :| 0 <= x < |vs[n].violations| && vs[n].violations[x] == b.what;
      assert Breaches(e)[x] == b;
    }
  }

  predicate SawOne(jobs: seq<Job>, s: Slot, vs: seq<Verdict>, i: nat, b: Breach)
    requires i < |jobs|
  {
    exists n :: 0 <= n < |vs| && Saw(jobs, s, vs[n], i, b)
  }

  lemma EntriesBreachIff(jobs: seq<Job>, slots: seq<Slot>, es: seq<Entry>, vs: seq<Verdict>, os: seq<Observation>,
                         i: nat, b: Breach)
    requires i < |jobs| && Fit(es, slots, vs, os) && EachOnce(vs, slots)
    ensures b in BreachesOf(Owned(jobs, es, i)) <==> exists k :: 0 <= k < |slots| && SawOne(jobs, slots[k], vs, i, b)
  {
    BreachesAre(jobs, es, i, b);
    forall k | 0 <= k < |slots|
      ensures es[k].slot == slots[k]
      ensures OwnedBy(jobs, slots[k], i) && b in Breaches(es[k]) <==> SawOne(jobs, slots[k], vs, i, b)
    {
      assert FitOne(es[k], slots[k], vs, os) && NamedOnce(vs, slots[k]);
      BreachIff(jobs, es[k], slots[k], vs, os, i, b);
    }
  }

  /** A violation stands in a job's report exactly when a verdict on one of its cases, or on a negative
      case tied to it, saw it. */
  lemma BreachReportedIff(m: Manifest, group: string, vs: seq<Verdict>, os: seq<Observation>, r: Report, i: nat, b: Breach)
    requires Valid(m) && ValidRun(vs, os) && Scored(m, group, vs, os) == Ok(r) && i < |m.jobs|
    ensures |r.jobs| == |m.jobs|
    ensures b in r.jobs[i].tally.breaches <==>
            exists k :: 0 <= k < |Slots(m, group)| && SawOne(m.jobs, Slots(m, group)[k], vs, i, b)
  {
    var es := ScoredEntries(m, group, vs, os);
    ScoredCovers(m, group, vs, os);
    EntriesBreachIff(m.jobs, Slots(m, group), es, vs, os, i, b);
  }

  // ------------------------------------------------------------------ negative cases

  lemma {:induction false} NegativesOf(es: seq<Entry>, slots: seq<Slot>, a: nat)
    requires a <= |es| == |slots| && forall k :: 0 <= k < |es| ==> es[k].slot == slots[k]
    requires forall k :: 0 <= k < |es| ==> (slots[k].ForVariant? <==> k < a)
    ensures |CaseReports(es)| == |es| - a
    ensures forall k :: a <= k < |es| ==> CaseReports(es)[k - a] == CaseReportOf(es[k])
  {
    if es != [] {
      var n := |es| - 1;
      NegativesOf(es[..n], slots[..n], if a <= n then a else n);
    }
  }

  // What the verdict on a negative case says of it.
  ghost predicate CaseTold(r: CaseReport, c: NegativeCase, v: Verdict) {
    && v.negative == c.id && v.variant == ""
    && r.id == c.id && r.job == c.job && r.attempt == v.attempt && r.outcome == v.outcome && r.violations == v.violations
    && forall kind :: Times(r.interventions, kind) == Given(v.interventions, kind)
  }

  lemma CaseReportTells(e: Entry, s: Slot, vs: seq<Verdict>, os: seq<Observation>)
    requires FitOne(e, s, vs, os) && s.ForNegative?
    ensures CaseTold(CaseReportOf(e), s.negative, e.verdict)
  {
    forall kind
      ensures Times(CaseReportOf(e).interventions, kind) == Given(e.verdict.interventions, kind)
    {
      IntervenedIs(map[], e.verdict.interventions, kind);
    }
  }

  // The variants first, then the negative cases in their order.
  predicate VariantsFirst(slots: seq<Slot>, cs: seq<NegativeCase>) {
    && |cs| <= |slots|
    && var a := |slots| - |cs|;
    && (forall k :: 0 <= k < |slots| ==> (slots[k].ForVariant? <==> k < a))
    && (forall k :: 0 <= k < |cs| ==> slots[a + k] == ForNegative(cs[k]))
  }

  lemma VariantsThenNegatives(a: seq<Slot>, cs: seq<NegativeCase>)
    requires forall k :: 0 <= k < |a| ==> a[k].ForVariant?
    ensures VariantsFirst(a + NegativeSlots(cs), cs)
  {
  }

  lemma SlotKinds(m: Manifest, group: string)
    requires Valid(m)
    ensures VariantsFirst(Slots(m, group), m.negatives)
  {
    DistinctParts(JobIds(m.jobs), NegativeIds(m.negatives));
    JobSlotsFacts(m.jobs, group);
    VariantsThenNegatives(JobSlots(m.jobs, group), m.negatives);
  }

  ghost predicate ToldByOne(r: CaseReport, c: NegativeCase, vs: seq<Verdict>) {
    exists n :: 0 <= n < |vs| && CaseTold(r, c, vs[n])
  }

  ghost predicate AllTold(rs: seq<CaseReport>, cs: seq<NegativeCase>, vs: seq<Verdict>) {
    |rs| == |cs| && forall k :: 0 <= k < |cs| ==> ToldByOne(rs[k], cs[k], vs)
  }

  lemma EntriesNegatives(es: seq<Entry>, slots: seq<Slot>, cs: seq<NegativeCase>, vs: seq<Verdict>, os: seq<Observation>)
    requires Fit(es, slots, vs, os) && VariantsFirst(slots, cs)
    ensures AllTold(CaseReports(es), cs, vs)
  {
    var a := |slots| - |cs|;
    assert forall x :: 0 <= x < |slots| ==> FitOne(es[x], slots[x], vs, os);
    NegativesOf(es, slots, a);
    forall k | 0 <= k < |cs|
      ensures ToldByOne(CaseReports(es)[k], cs[k], vs)
    {
      assert FitOne(es[a + k], slots[a + k], vs, os);
      CaseReportTells(es[a + k], slots[a + k], vs, os);
      var n :| 0 <= n < |vs| && vs[n] == es[a + k].verdict;
    }
  }

  /** The negative cases are reported in the manifest's order, each with what its verdict says. */
  lemma NegativesReported(m: Manifest, group: string, vs: seq<Verdict>, os: seq<Observation>, r: Report)
    requires Valid(m) && ValidRun(vs, os) && Scored(m, group, vs, os) == Ok(r)
    ensures AllTold(r.negatives, m.negatives, vs)
  {
    var es := ScoredEntries(m, group, vs, os);
    SlotKinds(m, group);
    EntriesNegatives(es, Slots(m, group), m.negatives, vs, os);
  }

  // --------------------------------------------------------------------------- usage

  // A number in a column that is neither a time nor an id.
  predicate Numeric(o: Observation, table: string, column: string) {
    && column != "ts_ms" && column != "id" && table in o.usage
    && exists i :: 0 <= i < |o.usage[table]| && column in o.usage[table][i] && o.usage[table][i][column].Number?
  }

  predicate InTotals(u: Usage, table: string, column: string) {
    table in u.totals && column in u.totals[table]
  }

  lemma {:induction false} SumsHold(sums: Sums, rows: Table, c: string)
    ensures c in SumsAfter(sums, rows) <==>
            c in sums || exists i :: 0 <= i < |rows| && c in rows[i] && Summed(c, rows[i][c])
  {
    if rows != [] {
      var rest := rows[..|rows| - 1];
      SumsHold(sums, rest, c);
      assert forall i :: 0 <= i < |rest| ==> rest[i] == rows[i];
    }
  }

  lemma AddedHolds(u: Usage, o: Observation, t: string, c: string)
    ensures InTotals(Added(u, o), t, c) <==> InTotals(u, t, c) || Numeric(o, t, c)
    ensures t in Added(u, o).rows <==> t in u.rows || t in o.usage
  {
    AcceptanceUsage.InTotals(u.totals, o.usage, t);
    SumsHold(SumsAt(u.totals, t), RowsAt(o.usage, t), c);
  }

  // The observation is doubted for this reason.
  predicate Doubted(o: Observation, why: Reason) {
    || (!o.complete && why == Incomplete(o.attempt, o.gaps))
    || (o.unattributed && why == Unattributed(o.attempt))
  }

  // Some observation of a list has the table, has a number there, is doubted so.
  predicate SomeTable(os: seq<Observation>, t: string) {
    exists j :: 0 <= j < |os| && t in os[j].usage
  }

  predicate SomeNumber(os: seq<Observation>, t: string, c: string) {
    exists j :: 0 <= j < |os| && Numeric(os[j], t, c)
  }

  predicate SomeDoubt(os: seq<Observation>, why: Reason) {
    exists j :: 0 <= j < |os| && Doubted(os[j], why)
  }

  lemma OneObservationMore(os: seq<Observation>, o: Observation, t: string, c: string, why: Reason)
    ensures SomeTable(os + [o], t) <==> SomeTable(os, t) || t in o.usage
    ensures SomeNumber(os + [o], t, c) <==> SomeNumber(os, t, c) || Numeric(o, t, c)
    ensures SomeDoubt(os + [o], why) <==> SomeDoubt(os, why) || Doubted(o, why)
  {
    var more := os + [o];
    assert more[|os|] == o && forall j :: 0 <= j < |os| ==> more[j] == os[j];
  }

  lemma AddedDoubts(u: Usage, o: Observation, why: Reason)
    ensures why in Added(u, o).because <==> why in u.because || Doubted(o, why)
    ensures (u.lowerBound <==> u.because != []) ==> (Added(u, o).lowerBound <==> Added(u, o).because != [])
  {
  }

  // What a usage says of the observations it was added up from.
  predicate Says(u: Usage, os: seq<Observation>, t: string, c: string, why: Reason) {
    && (t in u.rows <==> SomeTable(os, t))
    && (InTotals(u, t, c) <==> SomeNumber(os, t, c))
    && (why in u.because <==> SomeDoubt(os, why))
    && (u.lowerBound <==> u.because != [])
  }

  lemma OneMoreSays(u: Usage, os: seq<Observation>, o: Observation, t: string, c: string, why: Reason)
    requires Says(u, os, t, c, why)
    ensures Says(Added(u, o), os + [o], t, c, why)
  {
    AddedHolds(u, o, t, c);
    AddedDoubts(u, o, why);
    OneObservationMore(os, o, t, c, why);
  }

  lemma {:induction false} UsageSays(es: seq<Entry>, t: string, c: string, why: Reason)
    ensures Says(UsageOf(es), Seen(es), t, c, why)
  {
    if es != [] {
      var n := |es| - 1;
      UsageSays(es[..n], t, c, why);
      OneMoreSays(UsageOf(es[..n]), Seen(es[..n]), es[n].observation, t, c, why);
      assert Seen(es) == Seen(es[..n]) + [es[n].observation];
    }
  }

  lemma SameSays(u: Usage, a: seq<Observation>, b: seq<Observation>, t: string, c: string, why: Reason)
    requires Says(u, a, t, c, why) && forall o :: o in a <==> o in b
    ensures Says(u, b, t, c, why)
  {
    assert forall j :: 0 <= j < |a| ==> a[j] in b;
    assert forall j :: 0 <= j < |b| ==> b[j] in a;
  }

  /** The report's usage names the tables the observations have, totals the columns that hold a number
      and are neither a time nor an id, and is a lower bound for exactly the reasons the observations
      give. */
  lemma UsageReported(m: Manifest, group: string, vs: seq<Verdict>, os: seq<Observation>, r: Report,
                      t: string, c: string, why: Reason)
    requires Valid(m) && ValidRun(vs, os) && Scored(m, group, vs, os) == Ok(r)
    ensures Says(r.usage, os, t, c, why)
  {
    var es := ScoredEntries(m, group, vs, os);
    ScoredCovers(m, group, vs, os);
    UsageSays(es, t, c, why);
    SameMembers(es, Slots(m, group), vs, os);
    SameSays(UsageOf(es), Seen(es), os, t, c, why);
  }

  lemma SameMembers(es: seq<Entry>, slots: seq<Slot>, vs: seq<Verdict>, os: seq<Observation>)
    requires Fit(es, slots, vs, os) && Pair(vs, os) && Cover(vs, slots)
    ensures forall o :: o in Seen(es) <==> o in os
  {
    forall o
      ensures o in Seen(es) <==> o in os
    {
      if o in os {
        ObservationEntered(es, slots, vs, os, o);
      }
      if k :| 0 <= k < |es| && es[k].observation == o {
        assert FitOne(es[k], slots[k], vs, os);
      }
    }
  }
}

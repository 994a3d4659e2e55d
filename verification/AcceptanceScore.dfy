/**
  What a score is (internal/acceptance/report.go): the attempts that count, what is wrong with a
  run, and the report of a run with nothing wrong.  Said over the attempts grouped by their ids, so
  that no order of the two lists can matter.
 */
module AcceptanceScore {
  import opened Basics
  import opened AcceptanceManifest
  import opened AcceptanceUsage

  // ------------------------------------------------------------------------ grouping

  // Those of a list that belong to one attempt, in order.
  function Of<T>(xs: seq<T>, attempt: T -> string, id: string): seq<T> {
    if xs == [] then []
    else
      var x := xs[|xs| - 1];
      Of(xs[..|xs| - 1], attempt, id) + if attempt(x) == id then [x] else []
  }

  function VerdictAttempt(v: Verdict): string { v.attempt }

  function ObservationAttempt(o: Observation): string { o.attempt }

  // How many verdicts and observations an attempt has, and the one of each where there is one.
  datatype Group = Group(verdicts: nat, observations: nat, verdict: Option<Verdict>, observation: Option<Observation>)

  function Only<T>(xs: seq<T>): Option<T> {
    if |xs| == 1 then Some(xs[0]) else None
  }

  function GroupOf(vs: seq<Verdict>, os: seq<Observation>, id: string): Group {
    var a, b := Of(vs, VerdictAttempt, id), Of(os, ObservationAttempt, id);
    Group(|a|, |b|, Only(a), Only(b))
  }

  function VerdictIds(vs: seq<Verdict>): set<string> {
    set v | v in vs :: v.attempt
  }

  function ObservationIds(os: seq<Observation>): set<string> {
    set o | o in os :: o.attempt
  }

  function Grouped(vs: seq<Verdict>, os: seq<Observation>): map<string, Group> {
    map id | id in VerdictIds(vs) + ObservationIds(os) :: GroupOf(vs, os, id)
  }

  // ------------------------------------------------------------------------ findings

  datatype Finding =
    | ManyVerdicts(attempt: string, n: nat)
    | ManyObservations(attempt: string, n: nat)
    | NoObservation(attempt: string)
    | NoVerdict(attempt: string)
    | DifferentCases(attempt: string)
    | NotInSet(attempt: string, name: string)
    | NeverAttempted(id: string)
    | CaseRepeated(id: string, n: nat)

  predicate Known(v: Verdict, slots: seq<Slot>) {
    exists k :: 0 <= k < |slots| && slots[k].Id() == if slots[k].ForVariant? then v.variant else v.negative
  }

  function Name(v: Verdict): string { v.variant + v.negative }

  predicate SameCase(v: Verdict, o: Observation) {
    v.variant == o.variant && v.negative == o.negative
  }

  // An attempt that is scored.
  predicate Scores(g: Group, slots: seq<Slot>) {
    && g.verdicts == 1 == g.observations && g.verdict.Some? && g.observation.Some?
    && SameCase(g.verdict.value, g.observation.value) && Known(g.verdict.value, slots)
  }

  function FindingsOf(id: string, g: Group, slots: seq<Slot>): set<Finding> {
    if g.verdicts > 1 then {ManyVerdicts(id, g.verdicts)}
    else if g.verdicts == 0 then {NoVerdict(id)} + (if g.observations > 1 then {ManyObservations(id, g.observations)} else {})
    else if g.observations > 1 then {ManyObservations(id, g.observations)}
    else if g.observations == 0 then {NoObservation(id)}
    else if g.verdict.None? || g.observation.None? || !SameCase(g.verdict.value, g.observation.value) then {DifferentCases(id)}
    else if !Known(g.verdict.value, slots) then {NotInSet(id, Name(g.verdict.value))}
    else {}
  }

  function FoundIn(ids: set<string>, groups: map<string, Group>, slots: seq<Slot>): set<Finding> {
    set id, f | id in ids && id in groups && f in FindingsOf(id, groups[id], slots) :: f
  }

  // The attempts on a case, among some of the attempts.
  function AttemptsOn(ids: set<string>, groups: map<string, Group>, slots: seq<Slot>, name: string): set<string> {
    set id | id in ids && id in groups && Scores(groups[id], slots) && Name(groups[id].verdict.value) == name
  }

  function CaseFindings(id: string, attempts: nat): set<Finding> {
    if attempts == 0 then {NeverAttempted(id)} else if attempts > 1 then {CaseRepeated(id, attempts)} else {}
  }

  function Tries(groups: map<string, Group>, slots: seq<Slot>): seq<nat> {
    seq(|slots|, k requires 0 <= k < |slots| => |AttemptsOn(groups.Keys, groups, slots, slots[k].Id())|)
  }

  function CasesFound(slots: seq<Slot>, tries: seq<nat>, upTo: nat): set<Finding>
    requires upTo <= |slots| == |tries|
  {
    if upTo == 0 then {}
    else CasesFound(slots, tries, upTo - 1) + CaseFindings(slots[upTo - 1].Id(), tries[upTo - 1])
  }

  lemma {:induction false} NoCaseFound(slots: seq<Slot>, tries: seq<nat>, upTo: nat)
    requires upTo <= |slots| == |tries|
    ensures CasesFound(slots, tries, upTo) == {} <==> forall k :: 0 <= k < upTo ==> tries[k] == 1
  {
    if upTo > 0 {
      NoCaseFound(slots, tries, upTo - 1);
    }
  }

  function Findings(groups: map<string, Group>, slots: seq<Slot>): set<Finding> {
    FoundIn(groups.Keys, groups, slots) + CasesFound(slots, Tries(groups, slots), |slots|)
  }

  // -------------------------------------------------------------------------- report

  datatype Entry = Entry(slot: Slot, verdict: Verdict, observation: Observation)

  // A violation, with where it was seen.
  datatype Breach = Breach(attempt: string, id: string, negative: bool, what: string)

  datatype Counts = Counts(attempts: nat, successes: nat, assisted: nat, failures: nat, unsupported: nat)

  const NO_COUNTS := Counts(0, 0, 0, 0, 0)

  datatype Tally = Tally(counts: Counts, interventions: map<string, int>, breaches: seq<Breach>, usage: Usage)

  predicate AllowedBy(done: seq<Intervention>, permitted: seq<string>) {
    forall i :: 0 <= i < |done| ==> done[i].kind in permitted
  }

  function Times(m: map<string, int>, kind: string): int {
    if kind in m then m[kind] else 0
  }

  function Intervened(m: map<string, int>, done: seq<Intervention>): map<string, int> {
    if done == [] then m
    else
      var i := done[|done| - 1];
      var was := Intervened(m, done[..|done| - 1]);
      was[i.kind := Times(was, i.kind) + i.count]
  }

  function Breaches(e: Entry): seq<Breach> {
    var xs := e.verdict.violations;
    seq(|xs|, k requires 0 <= k < |xs| => Breach(e.observation.attempt, e.slot.Id(), e.slot.ForNegative?, xs[k]))
  }

  // One attempt on a variant.
  function CountedOnce(n: Counts, v: Verdict, variant: Variant): Counts {
    var n1 := n.(attempts := n.attempts + 1);
    if v.outcome.Success? then
      if AllowedBy(v.interventions, variant.allowed) then n1.(successes := n.successes + 1)
      else n1.(assisted := n.assisted + 1)
    else if v.outcome.Failure? then n1.(failures := n.failures + 1)
    else if v.outcome.Unsupported? then n1.(unsupported := n.unsupported + 1)
    else n1
  }

  function CountsOf(es: seq<Entry>): Counts {
    if es == [] then NO_COUNTS
    else
      var e, before := es[|es| - 1], CountsOf(es[..|es| - 1]);
      if e.slot.ForVariant? then CountedOnce(before, e.verdict, e.slot.variant) else before
  }

  function InterventionsOf(es: seq<Entry>): map<string, int> {
    if es == [] then map[]
    else
      var e, before := es[|es| - 1], InterventionsOf(es[..|es| - 1]);
      if e.slot.ForVariant? then Intervened(before, e.verdict.interventions) else before
  }

  function BreachesOf(es: seq<Entry>): seq<Breach> {
    if es == [] then [] else BreachesOf(es[..|es| - 1]) + Breaches(es[|es| - 1])
  }

  function UsageOf(es: seq<Entry>): Usage {
    if es == [] then NO_USAGE else Added(UsageOf(es[..|es| - 1]), es[|es| - 1].observation)
  }

  // What a job's entries add up to; a negative case adds its violations and its usage alone.
  function TallyOf(es: seq<Entry>): Tally {
    Tally(CountsOf(es), InterventionsOf(es), BreachesOf(es), UsageOf(es))
  }

  // One entry more.
  function Counted(t: Tally, e: Entry): Tally {
    var n, done := t.counts, t.interventions;
    Tally(if e.slot.ForVariant? then CountedOnce(n, e.verdict, e.slot.variant) else n,
          if e.slot.ForVariant? then Intervened(done, e.verdict.interventions) else done,
          t.breaches + Breaches(e),
          Added(t.usage, e.observation))
  }

  lemma TallyMore(es: seq<Entry>, e: Entry)
    ensures TallyOf(es + [e]) == Counted(TallyOf(es), e)
  {
    assert (es + [e])[..|es|] == es;
  }

  predicate OwnedBy(jobs: seq<Job>, s: Slot, i: nat)
    requires i < |jobs|
  {
    if s.ForVariant? then s.job == i else s.negative.job != "" && s.negative.job == jobs[i].id
  }

  function Owned(jobs: seq<Job>, es: seq<Entry>, i: nat): seq<Entry>
    requires i < |jobs|
  {
    if es == [] then []
    else
      var e := es[|es| - 1];
      Owned(jobs, es[..|es| - 1], i) + if OwnedBy(jobs, e.slot, i) then [e] else []
  }

  datatype JobReport = JobReport(id: string, title: string, threshold: int, tally: Tally, pass: bool)

  datatype CaseReport = CaseReport(
    id: string, job: string, attempt: string, outcome: Outcome, violations: seq<string>, interventions: map<string, int>)

  datatype Report = Report(pass: bool, jobs: seq<JobReport>, negatives: seq<CaseReport>, usage: Usage)

  function JobReportOf(j: Job, t: Tally): JobReport {
    JobReport(j.id, j.title, j.threshold, t, j.threshold <= t.counts.successes && t.breaches == [])
  }

  function CaseReportOf(e: Entry): CaseReport
    requires e.slot.ForNegative?
  {
    var c, v := e.slot.negative, e.verdict;
    CaseReport(c.id, c.job, e.observation.attempt, v.outcome, v.violations, Intervened(map[], v.interventions))
  }

  function CaseReports(es: seq<Entry>): seq<CaseReport> {
    if es == [] then []
    else
      var e := es[|es| - 1];
      CaseReports(es[..|es| - 1]) + if e.slot.ForNegative? then [CaseReportOf(e)] else []
  }

  function JobReports(jobs: seq<Job>, es: seq<Entry>): seq<JobReport> {
    seq(|jobs|, i requires 0 <= i < |jobs| => JobReportOf(jobs[i], TallyOf(Owned(jobs, es, i))))
  }

  predicate Quiet(negatives: seq<CaseReport>) {
    forall k :: 0 <= k < |negatives| ==> negatives[k].violations == []
  }

  predicate Passes(jobs: seq<JobReport>, negatives: seq<CaseReport>) {
    (forall i :: 0 <= i < |jobs| ==> jobs[i].pass) && Quiet(negatives)
  }

  function ReportOf(m: Manifest, es: seq<Entry>): Report {
    Report(Passes(JobReports(m.jobs, es), CaseReports(es)), JobReports(m.jobs, es), CaseReports(es), UsageOf(es))
  }

  // --------------------------------------------------------------------------- score

  datatype Refusal = UnknownSet | TooFewVariants(job: nat) | Unscored(findings: set<Finding>)

  // The first job, of the first n, with fewer variants in the set than its threshold.
  function FirstShort(jobs: seq<Job>, group: string, n: nat): Option<nat>
    requires n <= |jobs|
  {
    if n == 0 then None
    else
      var before := FirstShort(jobs, group, n - 1);
      if before.Some? then before
      else if CountIn(jobs[n - 1].variants, group) < jobs[n - 1].threshold then Some(n - 1)
      else None
  }

  predicate OneEach(groups: map<string, Group>, slots: seq<Slot>) {
    forall k :: 0 <= k < |slots| ==> Tries(groups, slots)[k] == 1
  }

  ghost function EntryOn(groups: map<string, Group>, slots: seq<Slot>, s: Slot): Entry
    requires |AttemptsOn(groups.Keys, groups, slots, s.Id())| == 1
  {
    var ids := AttemptsOn(groups.Keys, groups, slots, s.Id());
    assert ids != {};
    var id :| id in ids;
    Entry(s, groups[id].verdict.value, groups[id].observation.value)
  }

  ghost function Entries(groups: map<string, Group>, slots: seq<Slot>): seq<Entry>
    requires OneEach(groups, slots)
  {
    seq(|slots|, k requires 0 <= k < |slots| => assert Tries(groups, slots)[k] == 1; EntryOn(groups, slots, slots[k]))
  }

  ghost function ScoredGroups(m: Manifest, group: string, groups: map<string, Group>): Result<Report, Refusal> {
    if group !in SETS then Err(UnknownSet)
    else
      var short := FirstShort(m.jobs, group, |m.jobs|);
      var slots := Slots(m, group);
      if short.Some? then Err(TooFewVariants(short.value))
      else if Findings(groups, slots) != {} then Err(Unscored(Findings(groups, slots)))
      else NoCaseFound(slots, Tries(groups, slots), |slots|); Ok(ReportOf(m, Entries(groups, slots)))
  }

  ghost function Scored(m: Manifest, group: string, vs: seq<Verdict>, os: seq<Observation>): Result<Report, Refusal> {
    ScoredGroups(m, group, Grouped(vs, os))
  }

  // -------------------------------------------------------------------- order is free

  lemma {:induction false} OfJoined<T>(xs: seq<T>, ys: seq<T>, attempt: T -> string, id: string)
    ensures Of(xs + ys, attempt, id) == Of(xs, attempt, id) + Of(ys, attempt, id)
    decreases |ys|
  {
    if ys == [] {
      assert xs + ys == xs;
    } else {
      assert (xs + ys)[..|xs + ys| - 1] == xs + ys[..|ys| - 1];
      OfJoined(xs, ys[..|ys| - 1], attempt, id);
    }
  }

  // The last of one list, found in another order of it.
  lemma FoundInOther<T>(xs: seq<T>, ys: seq<T>) returns (j: nat)
    requires xs != [] && multiset(xs) == multiset(ys)
    ensures j < |ys| && ys[j] == xs[|xs| - 1] && ys == ys[..j] + [ys[j]] + ys[j + 1..]
    ensures multiset(xs[..|xs| - 1]) == multiset(ys[..j] + ys[j + 1..])
  {
    var x, rest := xs[|xs| - 1], xs[..|xs| - 1];
    assert xs == rest + [x];
    assert x in multiset(ys);
    j :| 0 <= j < |ys| && ys[j] == x;
    assert ys == ys[..j] + [x] + ys[j + 1..];
    var others := ys[..j] + ys[j + 1..];
    assert multiset(ys) == multiset(others) + multiset{x};
    assert multiset(others) == multiset(ys) - multiset{x};
    assert multiset(rest) == multiset(xs) - multiset{x};
  }

  lemma {:induction false} OfPermuted<T>(xs: seq<T>, ys: seq<T>, attempt: T -> string, id: string)
    requires multiset(xs) == multiset(ys)
    ensures multiset(Of(xs, attempt, id)) == multiset(Of(ys, attempt, id))
    decreases |xs|
  {
    if xs == [] {
      assert |multiset(ys)| == |ys|;
    } else {
      var j := FoundInOther(xs, ys);
      OfPermuted(xs[..|xs| - 1], ys[..j] + ys[j + 1..], attempt, id);
      OfJoined(ys[..j], ys[j + 1..], attempt, id);
      OfJoined(ys[..j], [ys[j]], attempt, id);
      OfJoined(ys[..j] + [ys[j]], ys[j + 1..], attempt, id);
    }
  }

  lemma SameOne<T>(a: seq<T>, b: seq<T>)
    requires multiset(a) == multiset(b)
    ensures |a| == |b| && Only(a) == Only(b)
  {
    assert |a| == |multiset(a)| == |multiset(b)| == |b|;
    if |a| == 1 {
      assert a[0] in multiset(b);
    }
  }

  lemma OfIsOrderFree<T>(xs: seq<T>, ys: seq<T>, attempt: T -> string, id: string)
    requires multiset(xs) == multiset(ys)
    ensures |Of(xs, attempt, id)| == |Of(ys, attempt, id)| && Only(Of(xs, attempt, id)) == Only(Of(ys, attempt, id))
  {
    OfPermuted(xs, ys, attempt, id);
    SameOne(Of(xs, attempt, id), Of(ys, attempt, id));
  }

  /** A score does not depend on the order of the verdicts or of the observations. */
  lemma OrderDoesNotMatter(m: Manifest, group: string, vs: seq<Verdict>, vs': seq<Verdict>, os: seq<Observation>,
                           os': seq<Observation>)
    requires multiset(vs) == multiset(vs') && multiset(os) == multiset(os')
    ensures Scored(m, group, vs, os) == Scored(m, group, vs', os')
  {
    assert forall v :: v in vs <==> v in multiset(vs);
    assert forall v :: v in vs' <==> v in multiset(vs');
    assert forall o :: o in os <==> o in multiset(os);
    assert forall o :: o in os' <==> o in multiset(os');
    assert VerdictIds(vs) == VerdictIds(vs') && ObservationIds(os) == ObservationIds(os');
    forall id | id in VerdictIds(vs) + ObservationIds(os)
      ensures GroupOf(vs, os, id) == GroupOf(vs', os', id)
    {
      OfIsOrderFree(vs, vs', VerdictAttempt, id);
      OfIsOrderFree(os, os', ObservationAttempt, id);
    }
    assert Grouped(vs, os) == Grouped(vs', os');
  }
}

/**
  The settings of cognition (internal/app/cognition_settings.go): a file's values are held to
  their bounds when it is loaded, and a change is refused unless the whole of it is valid.
 */
module Cognition {
  import opened Basics

  datatype Key =
    | RhythmSeconds | SpacingSeconds | ConsolidateBatch | ConsolidateMaxOps | OutcomeWindow
    | SelfModelEveryMinutes | IdentityReviewEveryMinutes | SelfModelEvidenceRows | SelfModelSpokenRows
    | SelfModelMaxTokens | Ring3MaxChars | SurfacingMaxChars | DreamConversationMaxChars | TensionsMaxChars
    | BriefMaxChars | AlarmFirings | ExcerptChars | Ring3RecentExperiences | TurnTokenBudget
    | ToolSchemaRefusals | CheckpointCalls | GraceRounds | CheckpointSlack | MaxContinuations
    | ContinuationWallSeconds | AlarmWallSeconds | HarvestWallSeconds

  // `zero` settings read 0 as their default; `signed` ones may stand below zero in a file.
  datatype Bounds = Bounds(least: int, most: int, zero: bool, signed: bool)

  type Table = seq<(Key, Bounds)>

  const SETTINGS: nat := 27

  // The settings in the order they are walked.
  function SettingAt(i: nat): (Key, Bounds)
    requires i < SETTINGS
  {
    if i == 0 then (RhythmSeconds, Bounds(1, 86400, false, false)) else
    if i == 1 then (SpacingSeconds, Bounds(2, 3 * 86400, true, false)) else
    if i == 2 then (ConsolidateBatch, Bounds(1, 200, true, false)) else
    if i == 3 then (ConsolidateMaxOps, Bounds(2, 512, true, false)) else
    if i == 4 then (OutcomeWindow, Bounds(1, 1_000_000, false, false)) else
    if i == 5 then (SelfModelEveryMinutes, Bounds(1, 1_000_000, true, false)) else
    if i == 6 then (IdentityReviewEveryMinutes, Bounds(1, 1_000_000, true, false)) else
    if i == 7 then (SelfModelEvidenceRows, Bounds(1, 200, true, false)) else
    if i == 8 then (SelfModelSpokenRows, Bounds(1, 200, true, false)) else
    if i == 9 then (SelfModelMaxTokens, Bounds(200, 1_000_000, true, false)) else
    if i == 10 then (Ring3MaxChars, Bounds(600, 10_000_000, true, false)) else
    if i == 11 then (SurfacingMaxChars, Bounds(600, 10_000_000, true, false)) else
    if i == 12 then (DreamConversationMaxChars, Bounds(1, 100_000_000, true, false)) else
    if i == 13 then (TensionsMaxChars, Bounds(1, 10_000_000, true, false)) else
    if i == 14 then (BriefMaxChars, Bounds(600, 1_000_000, true, false)) else
    if i == 15 then (AlarmFirings, Bounds(1, 100_000, true, false)) else
    if i == 16 then (ExcerptChars, Bounds(1, 100_000, true, false)) else
    if i == 17 then (Ring3RecentExperiences, Bounds(1, 1_000, true, false)) else
    if i == 18 then (TurnTokenBudget, Bounds(1, 1_000_000_000, true, true)) else
    if i == 19 then (ToolSchemaRefusals, Bounds(1, 32, true, false)) else
    if i == 20 then (CheckpointCalls, Bounds(1, 1_000_000_000, true, false)) else
    if i == 21 then (GraceRounds, Bounds(1, 1_000_000, true, false)) else
    if i == 22 then (CheckpointSlack, Bounds(1, 1_000, true, false)) else
    if i == 23 then (MaxContinuations, Bounds(1, 1_000_000, true, false)) else
    if i == 24 then (ContinuationWallSeconds, Bounds(1, 86_400, true, false)) else
    if i == 25 then (AlarmWallSeconds, Bounds(1, 86_400, true, false)) else
    (HarvestWallSeconds, Bounds(1, 86_400, true, false))
  }

  const TABLE: Table := seq(SETTINGS, i requires 0 <= i < SETTINGS => SettingAt(i))

  const GRACE_MOST: int := 1_000_000

  const DEFAULT_RHYTHM: int := 600

  // Half an hour, in seconds.
  const DEFAULT_SPACING: int := 1800

  // A setting absent from the file is 0.  `legsOn`: a child's work is continued in legs.
  datatype Config = Config(values: map<Key, int>, maxToolRounds: int, childMaxToolRounds: int, legsOn: bool) {
    function Get(k: Key): int { if k in values then values[k] else 0 }

    function Set(k: Key, v: int): Config { this.(values := values[k := v]) }

    function Rhythm(): int { if Get(RhythmSeconds) != 0 then Get(RhythmSeconds) else DEFAULT_RHYTHM }

    // The spacing in force: the one set, or one that follows the rhythm.
    function Spacing(): int {
      if Get(SpacingSeconds) != 0 then Get(SpacingSeconds) else Max(DEFAULT_SPACING, 3 * Rhythm())
    }

    // The smaller ceiling on tool rounds a grace must leave room under; not positive for none.
    function Ceiling(): int {
      if legsOn && childMaxToolRounds > 0 && (maxToolRounds <= 0 || childMaxToolRounds < maxToolRounds)
      then childMaxToolRounds else maxToolRounds
    }

    predicate GraceFits() {
      Get(GraceRounds) == 0 || Ceiling() <= 0 || Get(GraceRounds) < Ceiling() - 1
    }
  }

  predicate InBounds(b: Bounds, v: int) {
    (v == 0 && b.zero) || b.least <= v <= b.most
  }

  // What a change must satisfy, and a loaded file once it is held.
  predicate Valid(c: Config, table: Table, briefParses: bool) {
    && (forall i :: 0 <= i < |table| ==> InBounds(table[i].1, c.Get(table[i].0)))
    && briefParses
    && (c.Get(SpacingSeconds) == 0 || c.Rhythm() < c.Get(SpacingSeconds))
    && c.GraceFits()
  }

  predicate Unholdable(b: Bounds, v: int) {
    (v == 0 && !b.zero) || (v < 0 && !b.signed)
  }

  // The value one setting is held to, given the configuration as it stands.
  function HeldTo(c: Config, k: Key, b: Bounds): int {
    var v := c.Get(k);
    if v == 0 then 0
    else if k == GraceRounds && !c.GraceFits() then (if c.Ceiling() - 2 >= 1 then c.Ceiling() - 2 else 0)
    else if v > b.most then b.most
    else if k == SpacingSeconds && v <= c.Rhythm() then 0
    else if v < 0 then 0
    else if v < b.least then b.least
    else v
  }

  function HeldOne(c: Config, k: Key, b: Bounds): Config {
    if HeldTo(c, k, b) == c.Get(k) then c else c.Set(k, HeldTo(c, k, b))
  }

  function Hold(c: Config, table: Table): Option<Config>
    decreases |table|
  {
    if table == [] then Some(c)
    else
      var (k, b) := table[0];
      if Unholdable(b, c.Get(k)) then None else Hold(HeldOne(c, k, b), table[1..])
  }

  // The settings a load says it did not take as they stand.
  function Said(c: Config, table: Table): seq<Key>
    decreases |table|
  {
    if table == [] then []
    else
      var (k, b) := table[0];
      var later := Said(HeldOne(c, k, b), table[1..]);
      if HeldTo(c, k, b) == c.Get(k) then later else [k] + later
  }

  lemma Regroup(before: seq<Key>, k: Key, later: seq<Key>)
    ensures before + ([k] + later) == before + [k] + later
  {
  }

  lemma HoldFrom(c: Config, t: Table, i: nat)
    requires i < |t|
    ensures var (k, b) := t[i];
      && Hold(c, t[i..]) == (if Unholdable(b, c.Get(k)) then None else Hold(HeldOne(c, k, b), t[i + 1..]))
      && var later := Said(HeldOne(c, k, b), t[i + 1..]);
      Said(c, t[i..]) == if HeldTo(c, k, b) == c.Get(k) then later else [k] + later
  {
    assert t[i..][1..] == t[i + 1..] && t[i..][0] == t[i];
  }

  class Settings {
    var values: map<Key, int>
    var maxToolRounds: int
    var childMaxToolRounds: int
    var legsOn: bool

    function Model(): Config
      reads this
    {
      Config(values, maxToolRounds, childMaxToolRounds, legsOn)
    }

    // One setting brought to its bounds, if it is out of them and can be.
    method HoldSetting(k: Key, b: Bounds) returns (ok: bool, changed: bool)
      modifies this
      ensures ok <==> !Unholdable(b, old(Model()).Get(k))
      ensures ok ==> Model() == HeldOne(old(Model()), k, b)
      ensures ok ==> (changed <==> HeldTo(old(Model()), k, b) != old(Model()).Get(k))
    {
      var v := Model().Get(k);
      if v == 0 && b.zero {
        return true, false;
      }
      var to := v;
      if v == 0 || (v < 0 && !b.signed) {
        return false, false;
      } else if k == GraceRounds && !Model().GraceFits() {
        var most := Model().Ceiling() - 2;
        to := if most >= 1 then most else 0;
      } else if v > b.most {
        to := b.most;
      } else if k == SpacingSeconds && v <= Model().Rhythm() {
        to := 0;
      } else if v < 0 {
        to := 0;
      } else if v < b.least {
        to := b.least;
      } else {
        return true, false;
      }
      assert to == HeldTo(Model(), k, b) != v;
      values := values[k := to];
      return true, true;
    }

    // The load-time hold: a value out of bounds is brought to them, or the load fails.
    method HoldCognition(table: Table) returns (ok: bool, said: seq<Key>)
      modifies this
      ensures ok <==> Hold(old(Model()), table).Some?
      ensures ok ==> Model() == Hold(old(Model()), table).value && said == Said(old(Model()), table)
    {
      said := [];
      for i := 0 to |table|
        invariant Hold(Model(), table[i..]) == Hold(old(Model()), table)
        invariant said + Said(Model(), table[i..]) == Said(old(Model()), table)
      {
        HoldFrom(Model(), table, i);
        var changed;
        ok, changed := HoldSetting(table[i].0, table[i].1);
        if !ok {
          return false, [];
        }
        Regroup(said, table[i].0, Said(Model(), table[i + 1..]));
        if changed {
          said := said + [table[i].0];
        }
      }
      return true, said;
    }
  }

  // --------------------------------------------------------------- the table's shape

  // What the proofs use of the table: its bounds make sense, no key is repeated, the rhythm comes
  // first, and no rhythm reaches the longest spacing.
  predicate Proper(t: Table) {
    && (forall i :: 0 <= i < |t| ==> 1 <= t[i].1.least <= t[i].1.most && (t[i].1.signed ==> t[i].1.zero))
    && (forall i, j :: 0 <= i < j < |t| ==> t[i].0 != t[j].0)
    && t != [] && t[0].0 == RhythmSeconds && !t[0].1.zero
    && (forall i :: 0 <= i < |t| && t[i].0 == SpacingSeconds ==> t[i].1.zero && t[0].1.most < t[i].1.most)
    && (forall i :: 0 <= i < |t| && t[i].0 == GraceRounds ==> t[i].1.zero && t[i].1.least == 1 && t[i].1.most == GRACE_MOST)
    && (exists i :: 0 <= i < |t| && t[i].0 == GraceRounds)
    && (exists i :: 0 <= i < |t| && t[i].0 == SpacingSeconds)
  }

  // No setting has the key of another: each key stands at one index.
  lemma OneIndexEach(i: nat, j: nat)
    requires i < j < SETTINGS
    ensures SettingAt(i).0 != SettingAt(j).0
  {
  }

  /** The table of the source has that shape. */
  lemma TableIsProper()
    ensures Proper(TABLE)
  {
    forall i, j | 0 <= i < j < SETTINGS
      ensures TABLE[i].0 != TABLE[j].0
    {
      OneIndexEach(i, j);
    }
    assert TABLE[21].0 == GraceRounds && TABLE[1].0 == SpacingSeconds;
  }

  // -------------------------------------------------------------------- holding

  // A hold of one setting touches that setting alone.
  lemma HeldOneOnly(c: Config, k: Key, b: Bounds)
    ensures var c' := HeldOne(c, k, b);
      && c'.Get(k) == HeldTo(c, k, b)
      && (forall x :: x != k ==> c'.Get(x) == c.Get(x))
      && c'.Ceiling() == c.Ceiling()
      && (k != RhythmSeconds ==> c'.Rhythm() == c.Rhythm())
  {
  }

  predicate NoRepeats(t: Table) {
    forall i, j :: 0 <= i < j < |t| ==> t[i].0 != t[j].0
  }

  function Keys(t: Table): set<Key> {
    set i | 0 <= i < |t| :: t[i].0
  }

  // Past the rhythm every setting is held by itself, against the configuration as it was.
  lemma {:induction false} HoldIsPointwise(c: Config, t: Table)
    requires NoRepeats(t) && RhythmSeconds !in Keys(t)
    ensures Hold(c, t).None? <==> exists i :: 0 <= i < |t| && Unholdable(t[i].1, c.Get(t[i].0))
    ensures Hold(c, t).Some? ==> (
      var c' := Hold(c, t).value;
      && c'.Ceiling() == c.Ceiling() && c'.Rhythm() == c.Rhythm()
      && (forall i :: 0 <= i < |t| ==> c'.Get(t[i].0) == HeldTo(c, t[i].0, t[i].1))
      && (forall x :: x !in Keys(t) ==> c'.Get(x) == c.Get(x)))
    decreases |t|
  {
    if t != [] && !Unholdable(t[0].1, c.Get(t[0].0)) {
      var (k, b) := t[0];
      var rest := t[1..];
      assert k in Keys(t);
      assert forall i :: 0 <= i < |rest| ==> rest[i] == t[i + 1] && rest[i].0 in Keys(t) && rest[i].0 != k;
      var c1 := HeldOne(c, k, b);
      HeldOneOnly(c, k, b);
      forall i | 0 <= i < |rest|
        ensures c1.Get(rest[i].0) == c.Get(rest[i].0)
        ensures HeldTo(c1, rest[i].0, rest[i].1) == HeldTo(c, rest[i].0, rest[i].1)
      {
      }
      HoldIsPointwise(c1, rest);
      HoldCarries(c, c1, t);
    }
  }

  // From the rest of a table to the whole of it.
  lemma HoldCarries(c: Config, c1: Config, t: Table)
    requires t != [] && NoRepeats(t) && !Unholdable(t[0].1, c.Get(t[0].0)) && c1 == HeldOne(c, t[0].0, t[0].1)
    ensures Hold(c, t) == Hold(c1, t[1..])
    ensures t[0].0 !in Keys(t[1..]) && Keys(t) == Keys(t[1..]) + {t[0].0}
  {
    assert forall i :: 1 <= i < |t| ==> t[i] == t[1..][i - 1];
  }
}

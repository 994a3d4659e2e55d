/** The repair offered for a broken provider entry, and the registry it is applied to
    (internal/app/providers_broken.go, internal/app/providers.go). */
module BrokenRepair {
  import opened Basics
  import opened BrokenEntries
  import opened BrokenReload

  // An entry's fields, as far as the repairs and the registry's own rules look at them.
  datatype Fields = Fields(name: string, isDefault: bool, oauth: string, hasSpeech: bool, rest: string)

  // What the load relies on but does not decide here; `sound` is what is asked of an entry alone,
  // with the values lent to it: its sign-in contract, type, speech and role.
  datatype World = World(
    decode: Raw -> Option<Fields>,
    sound: Fields -> bool,
    encode: Fields -> Option<Raw>,
    // Name and default flag as read from text that is not an entry.
    shown: Raw -> (string, bool),
    knownContract: string -> bool,
    shipsSpeech: string -> bool)
  {
    predicate Decodes(es: seq<Raw>) {
      forall i :: 0 <= i < |es| ==> decode(es[i]).Some?
    }

    function Decoded(es: seq<Raw>): seq<Fields>
      requires Decodes(es)
    {
      seq(|es|, i requires 0 <= i < |es| => decode(es[i]).value)
    }

    // The entries make a registry.
    predicate Admits(es: seq<Raw>) {
      Decodes(es) && Rules(sound, Decoded(es))
    }

    function Rule(): seq<Raw> -> bool {
      (es: seq<Raw>) => Admits(es)
    }
  }

  // ------------------------------------------------------------ the registry's rules

  // What validateEntries asks of the decoded entries; `sound` is what it asks of each alone.
  predicate Rules(sound: Fields -> bool, es: seq<Fields>) {
    && (forall i :: 0 <= i < |es| ==> es[i].name != "" && sound(es[i]))
    && (forall i, j :: 0 <= i < j < |es| ==> es[i].name != es[j].name)
    && (forall i, j :: 0 <= i < j < |es| ==> !(es[i].isDefault && es[j].isDefault))
  }

  method ValidateEntries(sound: Fields -> bool, es: seq<Fields>) returns (valid: bool)
    ensures valid <==> Rules(sound, es)
  {
    var names: set<string> := {};
    var default: Option<nat> := None;
    for i := 0 to |es|
      invariant names == set k | 0 <= k < i :: es[k].name
      invariant default.Some? ==> default.value < i && es[default.value].isDefault
      invariant default.None? ==> forall k :: 0 <= k < i ==> !es[k].isDefault
      invariant Rules(sound, es[..i])
    {
      var e := es[i];
      assert es[..i + 1][i] == e;
      if e.name == "" {
        return false;
      }
      if e.name in names {
        var k :| 0 <= k < i && es[k].name == e.name;
        return false;
      }
      names := names + {e.name};
      if e.isDefault {
        if default.Some? {
          return false;
        }
        default := Some(i);
      }
      if !sound(e) {
        return false;
      }
    }
    assert es[..|es|] == es;
    return true;
  }

  predicate Joins(sound: Fields -> bool, es: seq<Fields>, e: Fields) {
    && e.name != "" && sound(e)
    && (forall f :: f in es ==> f.name != e.name)
    && (e.isDefault ==> forall f :: f in es ==> !f.isDefault)
  }

  /** No entries obey the rules, and entries that do still obey them with one more exactly when that
      one is named and sound, its name is new, and it is not a second default. */
  lemma RulesOneByOne(sound: Fields -> bool, es: seq<Fields>, e: Fields)
    ensures Rules(sound, [])
    ensures Rules(sound, es + [e]) <==> Rules(sound, es) && Joins(sound, es, e)
  {
    var more := es + [e];
    assert more[|es|] == e;
    assert forall i :: 0 <= i < |es| ==> more[i] == es[i];
    if Rules(sound, more) {
      assert forall i :: 0 <= i < |es| ==> es[i].name != e.name && !(es[i].isDefault && e.isDefault);
    }
  }

  /** The registry's own rules hold of every prefix of a list they hold of. */
  lemma RulesOfAPrefix(sound: Fields -> bool, es: seq<Fields>, k: nat)
    requires k <= |es| && Rules(sound, es)
    ensures Rules(sound, es[..k])
  {
    assert forall i :: 0 <= i < k ==> es[..k][i] == es[i];
  }

  /** Nor does taking one entry out break them. */
  lemma RulesWithoutOne(sound: Fields -> bool, es: seq<Fields>, at: nat)
    requires at < |es| && Rules(sound, es)
    ensures Rules(sound, Without(es, at))
  {
    var less := Without(es, at);
    assert forall i :: 0 <= i < |less| ==> less[i] == es[if i < at then i else i + 1];
  }

  /** Preparing a registry succeeds exactly when every entry decodes and the rules hold. */
  method PrepareRegistry(w: World, es: seq<Raw>) returns (fit: bool)
    ensures fit <==> w.Admits(es)
  {
    var decoded: seq<Fields> := [];
    for i := 0 to |es|
      invariant w.Decodes(es[..i]) && decoded == w.Decoded(es[..i])
    {
      var f := w.decode(es[i]);
      if f.None? {
        return false;
      }
      decoded := decoded + [f.value];
    }
    assert es[..|es|] == es;
    fit := ValidateEntries(w.sound, decoded);
  }

  /** So every prefix of a list that makes a registry makes one, and the empty list does. */
  lemma RuleIsPrefixClosed(w: World)
    ensures PrefixClosed(w.Rule()) && w.Rule()([])
  {
    forall s: seq<Raw>, k: nat | k <= |s| && w.Rule()(s)
      ensures w.Rule()(s[..k])
    {
      RulesOfAPrefix(w.sound, w.Decoded(s), k);
      assert w.Decoded(s[..k]) == w.Decoded(s)[..k];
    }
  }

  lemma RuleIsHereditary(w: World)
    ensures Hereditary(w.Rule())
  {
    forall s: seq<Raw>, at: nat, e: Raw | at <= |s| && w.Rule()(Insert(s, at, e))
      ensures w.Rule()(s)
    {
      var more := Insert(s, at, e);
      assert s == Without(more, at);
      RulesWithoutOne(w.sound, w.Decoded(more), at);
      assert forall i :: 0 <= i < |s| ==> s[i] == more[if i < at then i else i + 1];
      assert w.Decoded(s) == Without(w.Decoded(more), at);
    }
  }

  /** Of every file a load makes a registry, and always the one the loop makes: the all-at-once path
      is a short cut and changes nothing. */
  method Load(w: World, es: seq<Raw>) returns (reg: Registry)
    ensures reg == Registry(Kept(w.Rule(), es), Rejected(w.Rule(), es)) == Split(w.Rule(), es)
    ensures w.Admits(reg.providers)
  {
    RuleIsPrefixClosed(w);
    SplitIsTheLoop(w.Rule(), es);
    var r := AdmitEntries(w.Rule(), es);
    reg := r.value;
  }

  /** No broken entry could go back unrepaired at its place. */
  lemma BrokenStaysOut(w: World, es: seq<Raw>, j: nat)
    requires j < |Rejected(w.Rule(), es)|
    ensures var kept, b := Kept(w.Rule(), es), Rejected(w.Rule(), es)[j];
      b.after <= |kept| && !w.Admits(Insert(kept, b.after, b.raw))
  {
    RuleIsPrefixClosed(w);
    NoneCouldGoBack(w.Rule(), es, j);
  }

  // ---------------------------------------------------------------- a free name

  function Digits(n: nat): string {
    var last := [('0' as int + n % 10) as char];
    if n < 10 then last else Digits(n / 10) + last
  }

  lemma {:induction false} DigitsTellApart(a: nat, b: nat)
    requires Digits(a) == Digits(b)
    ensures a == b
  {
    assert forall n: nat :: |Digits(n)| >= 1;
    assert Digits(a)[|Digits(a)| - 1] == Digits(b)[|Digits(b)| - 1];
    if 10 <= a && 10 <= b {
      assert Digits(a)[..|Digits(a)| - 1] == Digits(a / 10);
      assert Digits(b)[..|Digits(b)| - 1] == Digits(b / 10);
      DigitsTellApart(a / 10, b / 10);
    }
  }

  function Numbered(name: string, n: nat): string {
    name + " (" + Digits(n) + ")"
  }

  lemma NumberedTellApart(name: string, a: nat, b: nat)
    requires Numbered(name, a) == Numbered(name, b)
    ensures a == b
  {
    var s := Numbered(name, a);
    assert s[|name| + 2..|s| - 1] == Digits(a);
    assert s[|name| + 2..|s| - 1] == Digits(b);
    DigitsTellApart(a, b);
  }

  // The name itself if nobody has it, else the first numbered form nobody has.
  ghost predicate IsFreeName(name: string, taken: set<string>, free: string) {
    && free !in taken
    && (free == name ||
        (name in taken &&
         exists n: nat :: n >= 2 && free == Numbered(name, n) && forall k: nat :: 2 <= k < n ==> Numbered(name, k) in taken))
  }

  /** The search for a free name ends, whatever names are taken. */
  method FreeName(name: string, taken: set<string>) returns (free: string)
    ensures IsFreeName(name, taken, free)
  {
    free := name;
    var n := 2;
    ghost var seen: set<string> := {};
    while free in taken
      invariant n >= 2 && seen <= taken && free !in seen
      invariant n == 2 ==> free == name && seen == {}
      invariant n > 2 ==> free == Numbered(name, n - 1) && name in taken
      invariant forall k: nat :: 2 <= k < n - 1 ==> Numbered(name, k) in taken
      invariant forall x :: x in seen ==> x == name || exists k: nat :: k < n - 1 && x == Numbered(name, k)
      decreases taken - seen
    {
      seen := seen + {free};
      free := Numbered(name, n);
      forall k: nat | k < n
        ensures Numbered(name, k) != free
      {
        if Numbered(name, k) == free {
          NumberedTellApart(name, k, n);
        }
      }
      n := n + 1;
    }
  }

  // ------------------------------------------------------------------- repairs

  datatype Change = ClearDefault | DropContract | DropSpeech | Rename(to: string)

  datatype Repair = Repair(change: Change, entry: Fields)

  function Applied(w: World, c: Change, f: Fields): Option<Fields> {
    match c
    case ClearDefault => if f.isDefault then Some(f.(isDefault := false)) else None
    case DropContract => if f.oauth != "" && !w.knownContract(f.oauth) then Some(f.(oauth := "")) else None
    case DropSpeech => if f.hasSpeech && w.shipsSpeech(f.name) then Some(f.(hasSpeech := false)) else None
    case Rename(to) => Some(f.(name := to))
  }

  predicate Fits(w: World, admitted: seq<Raw>, after: nat, f: Fields)
    requires after <= |admitted|
  {
    w.encode(f).Some? && w.Admits(Insert(admitted, after, w.encode(f).value))
  }

  // The first of the changes that applies and makes the entry fit.
  function FirstFitting(w: World, admitted: seq<Raw>, after: nat, f: Fields, cs: seq<Change>): Option<Repair>
    requires after <= |admitted|
  {
    if cs == [] then None
    else
      var e := Applied(w, cs[0], f);
      if e.Some? && Fits(w, admitted, after, e.value) then Some(Repair(cs[0], e.value))
      else FirstFitting(w, admitted, after, f, cs[1..])
  }

  const SMALL_CHANGES := [ClearDefault, DropContract, DropSpeech]

  // An entry that shares an admitted one's name may also take the first free one.
  ghost predicate Offered(w: World, admitted: seq<Raw>, after: nat, f: Fields, name: string, names: set<string>,
                          taken: set<string>, r: Option<Repair>)
    requires after <= |admitted|
  {
    if name == "" || name !in names then r == FirstFitting(w, admitted, after, f, SMALL_CHANGES)
    else exists free :: IsFreeName(name, taken, free) && r == FirstFitting(w, admitted, after, f, SMALL_CHANGES + [Rename(free)])
  }

  // The repair a careful hand would try, in this order: clear the default flag, drop a contract
  // nobody knows, drop speech settings the release ships itself, take a free name.
  function ByHand(w: World, admitted: seq<Raw>, after: nat, f: Fields, free: Option<string>): Option<Repair>
    requires after <= |admitted|
  {
    if f.isDefault && Fits(w, admitted, after, f.(isDefault := false))
    then Some(Repair(ClearDefault, f.(isDefault := false)))
    else if f.oauth != "" && !w.knownContract(f.oauth) && Fits(w, admitted, after, f.(oauth := ""))
    then Some(Repair(DropContract, f.(oauth := "")))
    else if f.hasSpeech && w.shipsSpeech(f.name) && Fits(w, admitted, after, f.(hasSpeech := false))
    then Some(Repair(DropSpeech, f.(hasSpeech := false)))
    else if free.Some? && Fits(w, admitted, after, f.(name := free.value))
    then Some(Repair(Rename(free.value), f.(name := free.value)))
    else None
  }

  /** What is offered is the first of those that makes the entry fit, a free name being tried only for
      an entry that shares an admitted one's. */
  lemma OfferedByHand(w: World, admitted: seq<Raw>, after: nat, f: Fields, name: string, names: set<string>,
                      taken: set<string>, r: Option<Repair>)
    requires after <= |admitted| && Offered(w, admitted, after, f, name, names, taken, r)
    ensures name == "" || name !in names ==> r == ByHand(w, admitted, after, f, None)
    ensures name != "" && name in names ==>
      exists free :: IsFreeName(name, taken, free) && r == ByHand(w, admitted, after, f, Some(free))
  {
    assert SMALL_CHANGES + [] == SMALL_CHANGES;
    FittingByHand(w, admitted, after, f, None);
    if name != "" && name in names {
      var free :| IsFreeName(name, taken, free) && r == FirstFitting(w, admitted, after, f, SMALL_CHANGES + [Rename(free)]);
      FittingByHand(w, admitted, after, f, Some(free));
    }
  }

  lemma FittingByHand(w: World, admitted: seq<Raw>, after: nat, f: Fields, free: Option<string>)
    requires after <= |admitted|
    ensures FirstFitting(w, admitted, after, f, SMALL_CHANGES + if free.Some? then [Rename(free.value)] else [])
            == ByHand(w, admitted, after, f, free)
  {
    var last := if free.Some? then [Rename(free.value)] else [];
    var c0 := SMALL_CHANGES + last;
    var c1, c2 := [DropContract, DropSpeech] + last, [DropSpeech] + last;
    assert c0[1..] == c1 && c1[1..] == c2 && c2[1..] == last;
    assert FirstFitting(w, admitted, after, f, c2) ==
           (if f.hasSpeech && w.shipsSpeech(f.name) && Fits(w, admitted, after, f.(hasSpeech := false))
            then Some(Repair(DropSpeech, f.(hasSpeech := false))) else FirstFitting(w, admitted, after, f, last));
    assert FirstFitting(w, admitted, after, f, c1) ==
           (if f.oauth != "" && !w.knownContract(f.oauth) && Fits(w, admitted, after, f.(oauth := ""))
            then Some(Repair(DropContract, f.(oauth := ""))) else FirstFitting(w, admitted, after, f, c2));
    assert c0[0] == ClearDefault && FirstFitting(w, admitted, after, f, c0) ==
           (if f.isDefault && Fits(w, admitted, after, f.(isDefault := false))
            then Some(Repair(ClearDefault, f.(isDefault := false))) else FirstFitting(w, admitted, after, f, c1));
    if free.Some? {
      assert last[1..] == [] && Applied(w, last[0], f) == Some(f.(name := free.value));
      assert FirstFitting(w, admitted, after, f, last) ==
             if Fits(w, admitted, after, f.(name := free.value)) then Some(Repair(last[0], f.(name := free.value))) else None;
    }
  }

  /** The repair offered, if any: the first of the small changes that makes the entry fit at its
      place. */
  method RepairFor(w: World, admitted: seq<Raw>, b: Slot, name: string, names: set<string>, taken: set<string>)
      returns (r: Option<Repair>)
    requires b.after <= |admitted|
    ensures w.decode(b.raw).None? ==> r.None?
    ensures w.decode(b.raw).Some? ==> Offered(w, admitted, b.after, w.decode(b.raw).value, name, names, taken, r)
    ensures r.Some? ==> (
      && w.decode(b.raw).Some?
      && Applied(w, r.value.change, w.decode(b.raw).value) == Some(r.value.entry)
      && Fits(w, admitted, b.after, r.value.entry)
      && (r.value.change.Rename? ==> r.value.entry.name !in taken))
  {
    if w.decode(b.raw).None? {
      return None;
    }
    var changes := SMALL_CHANGES;
    if name != "" && name in names {
      var free := FreeName(name, taken);
      changes := changes + [Rename(free)];
    }
    var f := w.decode(b.raw).value;
    for i := 0 to |changes|
      invariant FirstFitting(w, admitted, b.after, f, changes) == FirstFitting(w, admitted, b.after, f, changes[i..])
    {
      assert changes[i..][1..] == changes[i + 1..];
      var e := Applied(w, changes[i], f);
      if e.Some? {
        var raw := w.encode(e.value);
        if raw.Some? && w.Admits(Insert(admitted, b.after, raw.value)) {
          return Some(Repair(changes[i], e.value));
        }
      }
    }
    return None;
  }

  /** After an offered repair the next load reads exactly the repaired registry. */
  lemma RepairHoldsAtTheNextLoad(w: World, es: seq<Raw>, j: nat, f: Fields)
    requires j < |Rejected(w.Rule(), es)| && Rejected(w.Rule(), es)[j].after <= |Kept(w.Rule(), es)|
    requires Fits(w, Kept(w.Rule(), es), Rejected(w.Rule(), es)[j].after, f)
    ensures var reg := Registry(Kept(w.Rule(), es), Rejected(w.Rule(), es));
      var p := reg.broken[j].position;
      p < |es| && Split(w.Rule(), es[p := w.encode(f).value]) == Repaired(reg, j, w.encode(f).value)
  {
    RuleIsPrefixClosed(w);
    RuleIsHereditary(w);
    RepairIsTheNextLoad(w.Rule(), es, j, w.encode(f).value);
  }

  /** After a removal the next load reads the same providers and the other broken entries. */
  lemma RemovalHoldsAtTheNextLoad(w: World, es: seq<Raw>, j: nat)
    requires j < |Rejected(w.Rule(), es)|
    ensures var bs := Rejected(w.Rule(), es);
      var p := bs[j].position;
      p < |es| && Split(w.Rule(), Without(es, p)) == Registry(Kept(w.Rule(), es), Moved(bs, j))
  {
    RuleIsPrefixClosed(w);
    SplitIsTheLoop(w.Rule(), es);
    RemovalIsTheNextLoad(w.Rule(), es, j);
  }

  datatype Described = Described(name: string, isDefault: bool, repair: Option<Repair>)

  function NameOf(w: World, raw: Raw): (string, bool) {
    match w.decode(raw)
    case Some(f) => (f.name, f.isDefault)
    case None => w.shown(raw)
  }

  // The names the admitted entries bear, and with them those of the broken ones that have one.
  function NamesOf(w: World, admitted: seq<Raw>): set<string> {
    set i | 0 <= i < |admitted| :: NameOf(w, admitted[i]).0
  }

  function TakenBy(w: World, admitted: seq<Raw>, broken: seq<Slot>): set<string> {
    NamesOf(w, admitted) + set i | 0 <= i < |broken| && NameOf(w, broken[i].raw).0 != "" :: NameOf(w, broken[i].raw).0
  }

  /** A name is taken exactly when an admitted entry bears it, or a broken one does and it is not
      empty. */
  lemma TakenIff(w: World, admitted: seq<Raw>, broken: seq<Slot>, name: string)
    ensures name in NamesOf(w, admitted) <==> exists raw :: raw in admitted && NameOf(w, raw).0 == name
    ensures name in TakenBy(w, admitted, broken) <==>
      || name in NamesOf(w, admitted)
      || (name != "" && exists b :: b in broken && NameOf(w, b.raw).0 == name)
  {
  }

  // What a load says of one broken entry.
  ghost predicate Tells(w: World, admitted: seq<Raw>, broken: seq<Slot>, b: Slot, d: Described)
    requires b.after <= |admitted|
  {
    && (d.name, d.isDefault) == NameOf(w, b.raw)
    && (w.decode(b.raw).None? ==> d.repair.None?)
    && (w.decode(b.raw).Some? ==>
          Offered(w, admitted, b.after, w.decode(b.raw).value, d.name, NamesOf(w, admitted), TakenBy(w, admitted, broken), d.repair))
    && (d.repair.Some? ==> Fits(w, admitted, b.after, d.repair.value.entry))
  }

  /** What a load says of its broken entries: each bears its own name and default mark, and is offered
      the first repair that makes it fit at the very place it will be put, or none if none does. */
  method DescribeBroken(w: World, es: seq<Raw>) returns (out: seq<Described>)
    requires !w.Admits(es)
    ensures |out| == |Rejected(w.Rule(), es)|
    ensures forall i :: 0 <= i < |out| ==>
      var b := Rejected(w.Rule(), es)[i];
      b.after <= |Kept(w.Rule(), es)| && Tells(w, Kept(w.Rule(), es), Rejected(w.Rule(), es), b, out[i])
  {
    var admitted, broken := Kept(w.Rule(), es), Rejected(w.Rule(), es);
    RejectedInOrder(w.Rule(), es);
    var names := NamesOf(w, admitted);
    var taken := TakenBy(w, admitted, broken);
    out := [];
    for i := 0 to |broken|
      invariant |out| == i
      invariant forall j :: 0 <= j < i ==> Tells(w, admitted, broken, broken[j], out[j])
    {
      var (name, isDefault) := NameOf(w, broken[i].raw);
      var repair := RepairFor(w, admitted, broken[i], name, names, taken);
      out := out + [Described(name, isDefault, repair)];
    }
  }

  // ------------------------------------------------------------- the registry object

  predicate Shows(b: Slot, position: nat, digest: string, digestOf: Raw -> string) {
    b.position == position && digestOf(b.raw) == digest
  }

  /** In a file just loaded a broken entry is shown for exactly the text that stands in the file at its
      position, where a digest tells texts apart; and no two are shown for the same. */
  lemma ShownIsTheFiles(w: World, es: seq<Raw>, k: nat, position: nat, raw: Raw, digestOf: Raw -> string)
    requires k < |Rejected(w.Rule(), es)|
    requires forall a, b :: digestOf(a) == digestOf(b) ==> a == b
    ensures var bs := Rejected(w.Rule(), es);
      && (Shows(bs[k], position, digestOf(raw), digestOf) <==>
            bs[k].position == position && position < |es| && es[position] == raw)
      && (forall j :: 0 <= j < |bs| && j != k && Shows(bs[k], position, digestOf(raw), digestOf) ==>
            !Shows(bs[j], position, digestOf(raw), digestOf))
  {
    RejectedInOrder(w.Rule(), es);
  }

  class ProviderRegistry {
    var providers: seq<Raw>
    var broken: seq<Slot>

    ghost function Model(): Registry
      reads this
    {
      Registry(providers, broken)
    }

    constructor (reg: Registry)
      ensures Model() == reg
    {
      providers, broken := reg.providers, reg.broken;
    }

    // The broken entry shown at a position, if it is still the one shown.
    method BrokenIndex(position: nat, digest: string, digestOf: Raw -> string) returns (found: Option<nat>)
      ensures found.Some? ==> found.value < |broken| && Shows(broken[found.value], position, digest, digestOf)
      ensures found.None? ==> forall k :: 0 <= k < |broken| ==> !Shows(broken[k], position, digest, digestOf)
    {
      for i := 0 to |broken|
        invariant forall k :: 0 <= k < i ==> !Shows(broken[k], position, digest, digestOf)
      {
        if broken[i].position == position && digestOf(broken[i].raw) == digest {
          return Some(i);
        }
      }
      return None;
    }

    method RemoveBroken(position: nat, digest: string, digestOf: Raw -> string) returns (done: bool)
      modifies this
      ensures !done ==> Model() == old(Model())
      ensures !done ==> forall k :: 0 <= k < |broken| ==> !Shows(broken[k], position, digest, digestOf)
      ensures done ==> exists k :: (
        && 0 <= k < |old(broken)| && Shows(old(broken)[k], position, digest, digestOf)
        && Model() == Removed(old(Model()), k))
    {
      var i := BrokenIndex(position, digest, digestOf);
      if i.None? {
        return false;
      }
      broken := broken[..i.value] + broken[i.value + 1..];
      return true;
    }

    method RepairBroken(position: nat, digest: string, digestOf: Raw -> string, repairs: map<nat, Raw>)
        returns (done: bool)
      modifies this
      ensures !done ==> Model() == old(Model())
      ensures !done ==> (
        || (forall k :: 0 <= k < |broken| ==> !Shows(broken[k], position, digest, digestOf))
        || (exists k :: 0 <= k < |broken| && Shows(broken[k], position, digest, digestOf) && k !in repairs))
      ensures done ==> exists k :: (
        && 0 <= k < |old(broken)| && Shows(old(broken)[k], position, digest, digestOf)
        && k in repairs && Model() == Repaired(old(Model()), k, repairs[k]))
    {
      var found := BrokenIndex(position, digest, digestOf);
      if found.None? || found.value !in repairs {
        return false;
      }
      var i := found.value;
      var at := Min(broken[i].after, |providers|);
      providers := providers[..at] + [repairs[i]] + providers[at..];
      broken := broken[..i] + broken[i + 1..];
      for j := i to |broken|
        invariant |broken| == |old(broken)| - 1 && providers == Repaired(old(Model()), i, repairs[i]).providers
        invariant broken[..i] == old(broken)[..i]
        invariant forall k :: i <= k < j ==> broken[k] == old(broken)[k + 1].(after := old(broken)[k + 1].after + 1)
        invariant forall k :: j <= k < |broken| ==> broken[k] == old(broken)[k + 1]
      {
        broken := broken[j := broken[j].(after := broken[j].after + 1)];
      }
      assert broken == old(broken)[..i] + Shifted(old(broken)[i + 1..], 1);
      assert Model() == Repaired(old(Model()), i, repairs[i]);
      return true;
    }

    method DeleteProvider(i: nat)
      requires i < |providers|
      modifies this
      ensures Model() == Deleted(old(Model()), i)
    {
      providers := providers[..i] + providers[i + 1..];
      for j := 0 to |broken|
        invariant |broken| == |old(broken)| && providers == Without(old(providers), i)
        invariant forall k :: 0 <= k < j ==> broken[k] == Deleted(old(Model()), i).broken[k]
        invariant forall k :: j <= k < |broken| ==> broken[k] == old(broken)[k]
      {
        if broken[j].after > i {
          broken := broken[j := broken[j].(after := broken[j].after - 1)];
        }
      }
      assert broken == Deleted(old(Model()), i).broken;
    }
  }
}

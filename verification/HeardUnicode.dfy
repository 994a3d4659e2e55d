/** What the tests on bytes mean: the texts called valid are the UTF-8 texts (section 3 of RFC 3629), the
    ones called blank are those of white space characters, and revisions are ordered as numbers. */
module HeardUnicode {
  import opened Basics
  import opened HeardText

  // ------------------------------------------------------------------ characters

  predicate Scalar(c: int) { 0 <= c < 0x110000 && !(0xD800 <= c < 0xE000) }

  // Six more bits, and a number without its last six and those.
  function With(high: int, low: int): int { 64 * high + low }

  function High(c: int): int { c / 64 }

  function Low(c: int): int { c % 64 }

  lemma Parts(c: int)
    ensures 0 <= Low(c) < 64 && With(High(c), Low(c)) == c
  {
  }

  lemma Joined(high: int, low: int)
    requires 0 <= low < 64
    ensures High(With(high, low)) == high && Low(With(high, low)) == low
  {
  }

  // The last six bits as a continuing byte, and a continuing byte's six bits.
  function Tail(c: int): (b: Byte)
    ensures Continues(b)
  {
    Parts(c);
    0x80 + Low(c)
  }

  function Bits(b: Byte): int { b as int - 0x80 }

  function Encode(c: int): (s: Text)
    requires Scalar(c)
    ensures 0 < |s| <= 4
  {
    if c < 0x80 then [c]
    else if c < 0x800 then [0xC0 + High(c), Tail(c)]
    else if c < 0x10000 then [0xE0 + High(High(c)), Tail(High(c)), Tail(c)]
    else [0xF0 + High(High(High(c))), Tail(High(High(c))), Tail(High(c)), Tail(c)]
  }

  // The character a text begins with, where it begins with one.
  function Character(s: Text): int
    requires RuneLength(s) > 0
  {
    match RuneLength(s)
    case 1 => s[0]
    case 2 => With(s[0] as int - 0xC0, Bits(s[1]))
    case 3 => With(With(s[0] as int - 0xE0, Bits(s[1])), Bits(s[2]))
    case _ => With(With(With(s[0] as int - 0xF0, Bits(s[1])), Bits(s[2])), Bits(s[3]))
  }

  // A continuing byte is the tail of the number that ends in its bits.
  lemma TailOf(high: int, b: Byte)
    requires Continues(b)
    ensures High(With(high, Bits(b))) == high && Tail(With(high, Bits(b))) == b
  {
    Joined(high, Bits(b));
  }

  lemma TwoTails(high: int, b1: Byte, b2: Byte)
    requires Continues(b1) && Continues(b2)
    ensures var c := With(With(high, Bits(b1)), Bits(b2));
      High(High(c)) == high && Tail(High(c)) == b1 && Tail(c) == b2
  {
    TailOf(high, b1);
    TailOf(With(high, Bits(b1)), b2);
  }

  lemma ThreeBytes(s: Text)
    requires RuneLength(s) == 3
    ensures Scalar(Character(s)) && Encode(Character(s)) == [s[0], s[1], s[2]]
  {
    TwoTails(s[0] as int - 0xE0, s[1], s[2]);
  }

  lemma FourBytesScalar(s: Text)
    requires RuneLength(s) == 4
    ensures 0x10000 <= Character(s) < 0x110000
  {
  }

  lemma FourBytes(s: Text)
    requires RuneLength(s) == 4
    ensures Scalar(Character(s)) && Encode(Character(s)) == [s[0], s[1], s[2], s[3]]
  {
    var first := s[0] as int - 0xF0;
    FourBytesScalar(s);
    TailOf(first, s[1]);
    TwoTails(With(first, Bits(s[1])), s[2], s[3]);
  }

  lemma CharacterIsEncoded(s: Text)
    requires RuneLength(s) > 0
    ensures Scalar(Character(s)) && s[..RuneLength(s)] == Encode(Character(s))
  {
    if RuneLength(s) == 2 {
      TailOf(s[0] as int - 0xC0, s[1]);
    } else if RuneLength(s) == 3 {
      ThreeBytes(s);
    } else if RuneLength(s) == 4 {
      FourBytes(s);
    }
  }

  lemma EncodedIsACharacter(c: int, rest: Text)
    requires Scalar(c)
    ensures RuneLength(Encode(c) + rest) == |Encode(c)| && Character(Encode(c) + rest) == c
  {
    var s := Encode(c) + rest;
    assert forall i :: 0 <= i < |Encode(c)| ==> s[i] == Encode(c)[i];
    Parts(c);
    Parts(High(c));
    Parts(High(High(c)));
  }

  /** A text begins with a character of some length exactly when it begins with the encoding, so long,
      of a Unicode scalar value. */
  lemma RuneIff(s: Text, c: int)
    requires Scalar(c)
    ensures Encode(c) <= s <==> RuneLength(s) > 0 && Character(s) == c
    ensures Encode(c) <= s ==> RuneLength(s) == |Encode(c)|
  {
    if Encode(c) <= s {
      EncodedIsACharacter(c, s[|Encode(c)|..]);
      assert s == Encode(c) + s[|Encode(c)|..];
    } else if RuneLength(s) > 0 {
      CharacterIsEncoded(s);
    }
  }

  // ----------------------------------------------------------------------- texts

  predicate Scalars(cs: seq<int>) {
    forall i :: 0 <= i < |cs| ==> Scalar(cs[i])
  }

  function Encoded(cs: seq<int>): Text
    requires Scalars(cs)
  {
    if cs == [] then [] else Encode(cs[0]) + Encoded(cs[1..])
  }

  lemma {:induction false} EncodedIsValid(cs: seq<int>)
    requires Scalars(cs)
    ensures Valid(Encoded(cs))
  {
    if cs != [] {
      EncodedIsValid(cs[1..]);
      EncodedIsACharacter(cs[0], Encoded(cs[1..]));
      assert Encoded(cs)[|Encode(cs[0])|..] == Encoded(cs[1..]);
    }
  }

  lemma {:induction false} Characters(s: Text) returns (cs: seq<int>)
    requires Valid(s)
    ensures Scalars(cs) && Encoded(cs) == s
  {
    if s == [] {
      return [];
    }
    CharacterIsEncoded(s);
    var rest := Characters(s[RuneLength(s)..]);
    cs := [Character(s)] + rest;
    assert cs[1..] == rest;
  }

  /** The texts called valid are exactly the encodings of sequences of Unicode scalar values. */
  lemma ValidIff(s: Text)
    ensures Valid(s) <==> exists cs :: Scalars(cs) && Encoded(cs) == s
  {
    if Valid(s) {
      var cs := Characters(s);
    } else if cs :| Scalars(cs) && Encoded(cs) == s {
      EncodedIsValid(cs);
    }
  }

  // ----------------------------------------------------------------- white space

  lemma SpaceIff(s: Text)
    ensures SpaceLength(s) > 0 <==> RuneLength(s) > 0 && Character(s) in WHITE_SPACE
    ensures SpaceLength(s) > 0 ==> SpaceLength(s) == RuneLength(s)
  {
  }

  predicate Spaces(cs: seq<int>) {
    forall i :: 0 <= i < |cs| ==> cs[i] in WHITE_SPACE
  }

  lemma BlankFirst(c: int, rest: Text)
    requires Scalar(c)
    ensures Blank(Encode(c) + rest) <==> c in WHITE_SPACE && Blank(rest)
  {
    var s := Encode(c) + rest;
    EncodedIsACharacter(c, rest);
    SpaceIff(s);
    assert s[|Encode(c)|..] == rest;
  }

  lemma {:induction false} SpacesAreBlank(cs: seq<int>)
    requires Scalars(cs)
    ensures Blank(Encoded(cs)) <==> Spaces(cs)
  {
    if cs != [] {
      BlankFirst(cs[0], Encoded(cs[1..]));
      SpacesAreBlank(cs[1..]);
      SpacesFirst(cs);
    }
  }

  lemma SpacesFirst(cs: seq<int>)
    requires cs != []
    ensures Spaces(cs) <==> cs[0] in WHITE_SPACE && Spaces(cs[1..])
  {
    assert forall i :: 1 <= i < |cs| ==> cs[i] == cs[1..][i - 1];
  }

  lemma {:induction false} BlankIsValid(s: Text)
    requires Blank(s)
    ensures Valid(s)
  {
    if s != [] {
      SpaceIff(s);
      BlankIsValid(s[SpaceLength(s)..]);
    }
  }

  /** The texts called blank are exactly the encodings of white space characters and nothing else. */
  lemma BlankIff(s: Text)
    ensures Blank(s) <==> exists cs :: Scalars(cs) && Spaces(cs) && Encoded(cs) == s
  {
    if Blank(s) {
      BlankIsValid(s);
      var cs := Characters(s);
      SpacesAreBlank(cs);
    } else if cs :| Scalars(cs) && Spaces(cs) && Encoded(cs) == s {
      SpacesAreBlank(cs);
    }
  }

  // ------------------------------------------------------------------- revisions

  predicate Digits(a: string) {
    forall i :: 0 <= i < |a| ==> '0' <= a[i] <= '9'
  }

  // As a number is written: digits, and no zero before others.
  predicate Decimal(a: string) {
    a != "" && Digits(a) && (|a| > 1 ==> a[0] != '0')
  }

  function Power(n: nat): nat {
    if n == 0 then 1 else 10 * Power(n - 1)
  }

  function Value(a: string): nat
    requires Digits(a)
  {
    if a == "" then 0 else (a[0] as int - '0' as int) * Power(|a| - 1) + Value(a[1..])
  }

  lemma DigitBelow(d: nat, p: nat, v: nat)
    requires d <= 9 && v < p
    ensures d * p + v < 10 * p
  {
    assert (9 - d) * p >= 0;
  }

  lemma {:induction false} ValueBelow(a: string)
    requires Digits(a)
    ensures Value(a) < Power(|a|)
  {
    if a != "" {
      ValueBelow(a[1..]);
      DigitBelow(a[0] as int - '0' as int, Power(|a| - 1), Value(a[1..]));
    }
  }

  lemma {:induction false} PowerRises(m: nat, n: nat)
    requires m <= n
    ensures 1 <= Power(m) <= Power(n)
    decreases n
  {
    if m < n {
      PowerRises(m, n - 1);
    } else if n > 0 {
      PowerRises(n - 1, n - 1);
    }
  }

  // Of two numbers with a first digit each, a smaller first digit makes the smaller number.
  lemma FirstDigitDecides(x: int, y: int, p: int, v: int, w: int)
    requires 0 <= v < p && 0 <= w < p
    ensures x * p + v < y * p + w <==> x < y || (x == y && v < w)
  {
    if x < y {
      assert (x + 1) * p <= y * p;
    } else if y < x {
      assert (y + 1) * p <= x * p;
    }
  }

  lemma {:induction false} LexIsLess(a: string, b: string)
    requires |a| == |b| && Digits(a) && Digits(b)
    ensures LexLess(a, b) <==> Value(a) < Value(b)
  {
    if a != "" {
      LexIsLess(a[1..], b[1..]);
      ValueBelow(a[1..]);
      ValueBelow(b[1..]);
      FirstDigitDecides(a[0] as int - '0' as int, b[0] as int - '0' as int, Power(|a| - 1), Value(a[1..]), Value(b[1..]));
    }
  }

  lemma AtLeastOnce(d: nat, p: nat)
    requires d >= 1
    ensures d * p >= p
  {
    assert (d - 1) * p >= 0;
  }

  lemma LongerIsMore(a: string, b: string)
    requires Decimal(a) && Decimal(b) && |a| < |b|
    ensures Value(a) < Value(b)
  {
    ValueBelow(a);
    PowerRises(|a|, |b| - 1);
    AtLeastOnce(b[0] as int - '0' as int, Power(|b| - 1));
  }

  /** Revisions written as numbers are ordered as those numbers. */
  lemma DecimalLessIff(a: string, b: string)
    requires Decimal(a) && Decimal(b)
    ensures DecimalLess(a, b) <==> Value(a) < Value(b)
  {
    if |a| == |b| {
      LexIsLess(a, b);
    } else if |a| < |b| {
      LongerIsMore(a, b);
    } else {
      LongerIsMore(b, a);
    }
  }
}

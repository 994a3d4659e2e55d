/** Text with nothing but white space in it, cutting text to a byte limit without cutting a character
    (internal/app/heard_history.go), and the order of revision numbers kept as text
    (internal/app/speaker_segment.go). */
module HeardText {
  type Byte = b: int | 0 <= b < 256

  type Text = seq<Byte>

  predicate Continues(b: Byte) { 0x80 <= b < 0xC0 }

  // The length of the UTF-8 character a text begins with (section 4 of RFC 3629), 0 if none.
  function RuneLength(s: Text): (n: nat)
    ensures n <= 4 && n <= |s|
  {
    if |s| >= 1 && s[0] < 0x80 then 1
    else if |s| >= 2 && 0xC2 <= s[0] < 0xE0 && Continues(s[1]) then 2
    else if |s| >= 3 && 0xE0 <= s[0] < 0xF0 && Continues(s[1]) && Continues(s[2])
            && (s[0] == 0xE0 ==> 0xA0 <= s[1]) && (s[0] == 0xED ==> s[1] < 0xA0) then 3
    else if |s| >= 4 && 0xF0 <= s[0] < 0xF5 && Continues(s[1]) && Continues(s[2]) && Continues(s[3])
            && (s[0] == 0xF0 ==> 0x90 <= s[1]) && (s[0] == 0xF4 ==> s[1] < 0x90) then 4
    else 0
  }

  predicate Valid(s: Text) {
    s == [] || (RuneLength(s) > 0 && Valid(s[RuneLength(s)..]))
  }

  // The length of the white space character a text begins with, 0 if none.
  function SpaceLength(s: Text): (n: nat)
    ensures n <= 3 && n <= |s|
  {
    if |s| >= 1 && (9 <= s[0] <= 13 || s[0] == 0x20) then 1
    else if |s| >= 2 && s[0] == 0xC2 && (s[1] == 0x85 || s[1] == 0xA0) then 2
    else if |s| >= 3 && s[0] == 0xE1 && s[1] == 0x9A && s[2] == 0x80 then 3
    else if |s| >= 3 && s[0] == 0xE2 && s[1] == 0x80
            && (0x80 <= s[2] <= 0x8A || s[2] == 0xA8 || s[2] == 0xA9 || s[2] == 0xAF) then 3
    else if |s| >= 3 && s[0] == 0xE2 && s[1] == 0x81 && s[2] == 0x9F then 3
    else if |s| >= 3 && s[0] == 0xE3 && s[1] == 0x80 && s[2] == 0x80 then 3
    else 0
  }

  // Nothing but white space.
  predicate Blank(s: Text) {
    s == [] || (SpaceLength(s) > 0 && Blank(s[SpaceLength(s)..]))
  }

  function LongestValid(s: Text): Text {
    if Valid(s) then s else LongestValid(s[..|s| - 1])
  }

  lemma {:induction false} LongestValidIs(s: Text)
    ensures LongestValid(s) <= s && Valid(LongestValid(s))
    ensures forall k :: |LongestValid(s)| < k <= |s| ==> !Valid(s[..k])
  {
    assert s[..|s|] == s;
    if !Valid(s) {
      LongestValidIs(s[..|s| - 1]);
      assert forall k :: 0 <= k <= |s| - 1 ==> s[..|s| - 1][..k] == s[..k];
    }
  }

  function Prefix(s: Text, limit: nat): Text {
    if |s| <= limit then s else LongestValid(s[..limit])
  }

  /** The text itself if it is within the limit, else its longest valid beginning within it. */
  method HeardPrefix(s: Text, limit: nat) returns (r: Text)
    ensures r == Prefix(s, limit)
  {
    if |s| <= limit {
      return s;
    }
    r := s[..limit];
    while !Valid(r)
      invariant |r| <= limit && r == s[..|r|] && LongestValid(r) == LongestValid(s[..limit])
      decreases |r|
    {
      r := r[..|r| - 1];
    }
  }

  lemma RuneOfLonger(s: Text, k: nat)
    requires RuneLength(s) > 0 && RuneLength(s) <= k <= |s|
    ensures RuneLength(s[..k]) == RuneLength(s)
  {
  }

  // Near every place of a valid text it can be cut between two characters.
  lemma {:induction false} CutNear(s: Text, limit: nat) returns (k: nat)
    requires Valid(s) && limit <= |s|
    ensures limit - 3 <= k <= limit && Valid(s[..k])
  {
    if s == [] {
      return 0;
    }
    var n := RuneLength(s);
    if limit < n {
      return 0;
    }
    var k' := CutNear(s[n..], limit - n);
    k := n + k';
    RuneOfLonger(s, k);
    assert s[..k][n..] == s[n..][..k'];
  }

  /** What is kept begins the text, stays within the limit, and of a valid text falls short of it
      by at most three bytes, itself valid. */
  lemma PrefixCutsBetweenCharacters(s: Text, limit: nat)
    ensures Prefix(s, limit) <= s
    ensures |Prefix(s, limit)| <= limit
    ensures limit < |s| ==> Valid(Prefix(s, limit))
    ensures limit < |s| && Valid(s) ==> limit - 3 <= |Prefix(s, limit)|
  {
    if limit < |s| {
      LongestValidIs(s[..limit]);
    }
    if limit < |s| && Valid(s) {
      var k := CutNear(s, limit);
      assert s[..limit][..k] == s[..k];
    }
  }

  // ---------------------------------------------------------- revisions as text

  predicate LexLess(a: string, b: string)
    requires |a| == |b|
  {
    a != [] && (a[0] < b[0] || (a[0] == b[0] && LexLess(a[1..], b[1..])))
  }

  // The order of decimal numbers without leading zeros.
  predicate DecimalLess(a: string, b: string) {
    |a| < |b| || (|a| == |b| && LexLess(a, b))
  }

  lemma {:induction false} LexOrder(a: string, b: string, c: string)
    requires |a| == |b| == |c|
    ensures !LexLess(a, a)
    ensures LexLess(a, b) ==> !LexLess(b, a)
    ensures !LexLess(b, a) && !LexLess(c, b) ==> !LexLess(c, a)
  {
    if a != [] {
      LexOrder(a[1..], b[1..], c[1..]);
    }
  }

  /** Never falling twice is never falling: the order of revisions composes. */
  lemma DecimalOrder(a: string, b: string, c: string)
    ensures !DecimalLess(a, a)
    ensures !DecimalLess(b, a) && !DecimalLess(c, b) ==> !DecimalLess(c, a)
  {
    LexOrder(a, a, a);
    if |a| == |b| == |c| {
      LexOrder(a, b, c);
    }
  }
}

/** The string primitives the source relies on (String.prototype.trim,
    indexOf, split, join, padStart, toLowerCase, includes, startsWith,
    Number.prototype.toString and the default string ordering of
    Array.prototype.sort), each written out on `seq<char>`. */
module Text {

  /** The white-space characters JavaScript's `trim` and `\s` recognise:
      the WhiteSpace and LineTerminator code points of section 12.2 and 12.3
      of ECMA-262 (tab, line feed, vertical tab, form feed, carriage return,
      space, no-break space, ogham space mark, the spaces U+2000 to U+200A,
      line and paragraph separators, narrow no-break space, medium
      mathematical space, ideographic space and the byte-order mark). */
  predicate IsSpace(c: char) {
    c == ' ' || c == '\t' || c == '\n' || c == '\r' || c == '\U{000B}' || c == '\U{000C}'
    || c == '\U{00A0}' || c == '\U{1680}' || ('\U{2000}' <= c <= '\U{200A}')
    || c == '\U{2028}' || c == '\U{2029}' || c == '\U{202F}' || c == '\U{205F}'
    || c == '\U{3000}' || c == '\U{FEFF}'
  }

  /** Java's Character.isWhitespace: the ASCII controls tab to carriage
      return and U+001C to U+001F, space, and the Unicode space, line and
      paragraph separators except the no-break ones (U+00A0, U+2007,
      U+202F). Unlike JavaScript, it does not count the byte-order mark. */
  predicate IsJavaSpace(c: char) {
    ('\t' <= c <= '\r') || ('\U{001C}' <= c <= ' ') || c == '\U{1680}'
    || ('\U{2000}' <= c <= '\U{2006}') || ('\U{2008}' <= c <= '\U{200A}')
    || c == '\U{2028}' || c == '\U{2029}' || c == '\U{205F}' || c == '\U{3000}'
  }

  predicate IsDigit(c: char) {
    '0' <= c <= '9'
  }

  /** Empty or JavaScript white space only: what `s.trim() === ''` tests. */
  predicate IsBlank(s: string) {
    forall i :: 0 <= i < |s| ==> IsSpace(s[i])
  }

  /** Java's String.isBlank(): empty or Java white space only. */
  predicate IsJavaBlank(s: string) {
    forall i :: 0 <= i < |s| ==> IsJavaSpace(s[i])
  }

  function TrimStart(s: string): (r: string)
    ensures |r| <= |s| && r == s[|s| - |r|..]
    ensures r == [] || !IsSpace(r[0])
    ensures forall i :: 0 <= i < |s| - |r| ==> IsSpace(s[i])
  {
    if s != [] && IsSpace(s[0]) then
      var r := TrimStart(s[1..]);
      assert s[1..][|s| - 1 - |r|..] == s[|s| - |r|..];
      assert forall i :: 1 <= i < |s| - |r| ==> s[i] == s[1..][i - 1];
      r
    else s
  }

  function TrimEnd(s: string): (r: string)
    ensures |r| <= |s| && r == s[..|r|]
    ensures r == [] || !IsSpace(r[|r| - 1])
    ensures forall i :: |r| <= i < |s| ==> IsSpace(s[i])
  {
    if s != [] && IsSpace(s[|s| - 1]) then
      var r := TrimEnd(s[..|s| - 1]);
      assert s[..|s| - 1][..|r|] == s[..|r|];
      assert forall i :: |r| <= i < |s| - 1 ==> s[i] == s[..|s| - 1][i];
      r
    else s
  }

  function Trim(s: string): string {
    TrimEnd(TrimStart(s))
  }

  /** A string with no white space at either end is its own trim. */
  lemma TrimNoop(s: string)
    requires s == [] || (!IsSpace(s[0]) && !IsSpace(s[|s| - 1]))
    ensures Trim(s) == s
  {
  }

  lemma {:induction false} TrimLeadingSpace(s: string)
    requires s != [] && !IsSpace(s[0]) && !IsSpace(s[|s| - 1])
    ensures Trim([' '] + s) == s
  {
    assert ([' '] + s)[1..] == s;
  }

  /** A string is empty after trimming exactly when it is blank. */
  lemma {:induction false} TrimEmptyIffBlank(s: string)
    ensures Trim(s) == [] <==> IsBlank(s)
  {
    var t := TrimStart(s);
    if t != [] {
      assert !IsSpace(t[0]);
      assert !IsSpace(s[|s| - |t|]);
    } else {
      assert TrimEnd(t) == [];
    }
  }

  /** The index of the first occurrence of `c`, or -1. */
  function IndexOf(s: string, c: char): (r: int)
    ensures -1 <= r < |s|
    ensures r == -1 <==> c !in s
    ensures r >= 0 ==> s[r] == c && c !in s[..r]
  {
    if s == [] then -1
    else if s[0] == c then 0
    else
      var k := IndexOf(s[1..], c);
      assert s[1..][..(if k >= 0 then k else 0)] == s[1..1 + (if k >= 0 then k else 0)];
      if k == -1 then -1 else k + 1
  }

  function StartsWith(s: string, prefix: string): bool {
    |prefix| <= |s| && s[..|prefix|] == prefix
  }

  /** `needle` occurs as a contiguous part of `s` (String.prototype.includes). */
  predicate Contains(s: string, needle: string) {
    exists i :: 0 <= i <= |s| - |needle| && OccursAt(s, needle, i)
  }

  predicate OccursAt(s: string, needle: string, i: int)
    requires 0 <= i <= |s| - |needle|
  {
    s[i..i + |needle|] == needle
  }

  /** ASCII lower-casing. */
  function ToLowerChar(c: char): char {
    if 'A' <= c <= 'Z' then (c as int + 32) as char else c
  }

  function ToLower(s: string): (r: string)
    ensures |r| == |s|
    ensures forall i :: 0 <= i < |s| ==> r[i] == ToLowerChar(s[i])
  {
    if s == [] then [] else [ToLowerChar(s[0])] + ToLower(s[1..])
  }

  function DigitChar(d: int): char
    requires 0 <= d < 10
  {
    "0123456789"[d]
  }

  /** The numeric value of a decimal digit. */
  function DigitValue(c: char): (v: int)
    ensures IsDigit(c) ==> 0 <= v < 10
  {
    c as int - '0' as int
  }

  lemma DigitCharValue(d: int)
    requires 0 <= d < 10
    ensures IsDigit(DigitChar(d)) && DigitValue(DigitChar(d)) == d
  {
  }

  /** The value of a run of decimal digits, read left to right. */
  function DigitsValue(s: string): nat
    requires forall i :: 0 <= i < |s| ==> IsDigit(s[i])
  {
    if s == [] then 0 else 10 * DigitsValue(s[..|s| - 1]) + DigitValue(s[|s| - 1])
  }

  /** The longest prefix of decimal digits. */
  function LeadingDigits(s: string): (r: string)
    ensures |r| <= |s| && r == s[..|r|]
    ensures forall i :: 0 <= i < |r| ==> IsDigit(r[i])
    ensures |r| < |s| ==> !IsDigit(s[|r|])
    ensures (forall i :: 0 <= i < |s| ==> IsDigit(s[i])) ==> r == s
  {
    if s == [] || !IsDigit(s[0]) then []
    else
      var r := [s[0]] + LeadingDigits(s[1..]);
      assert forall i :: 1 <= i < |r| ==> r[i] == s[1..][i - 1];
      r
  }

  /** Decimal text of a natural number, without leading zeros. */
  function NatToString(n: nat): (r: string)
    ensures |r| >= 1
    ensures forall i :: 0 <= i < |r| ==> IsDigit(r[i])
  {
    if n < 10 then [DigitChar(n)] else NatToString(n / 10) + [DigitChar(n % 10)]
  }

  /** The decimal text of a number reads back as that number. */
  lemma {:induction false} DigitsValueOfNatText(n: nat)
    ensures DigitsValue(NatToString(n)) == n
  {
    if n >= 10 {
      var s := NatToString(n);
      assert s[..|s| - 1] == NatToString(n / 10);
      DigitsValueOfNatText(n / 10);
      DigitCharValue(n % 10);
    } else {
      DigitCharValue(n);
    }
  }

  /** String(n) for an integer. */
  function IntToString(n: int): string {
    if n < 0 then "-" + NatToString(-n) else NatToString(n)
  }

  /** String.prototype.padStart(2, '0'). */
  function PadStart2(s: string): (r: string)
    ensures |r| == if |s| >= 2 then |s| else 2
  {
    if |s| >= 2 then s else if |s| == 1 then "0" + s else "00"
  }

  /** For 0 <= n < 100, padding the decimal text to two places gives the two digits. */
  lemma TwoDigits(n: nat)
    requires n < 100
    ensures PadStart2(NatToString(n)) == [DigitChar(n / 10), DigitChar(n % 10)]
  {
    if n >= 10 {
      assert NatToString(n / 10) == [DigitChar(n / 10)];
    }
  }

  /** Array.prototype.join. */
  function Join(parts: seq<string>, sep: string): string {
    if parts == [] then ""
    else if |parts| == 1 then parts[0]
    else parts[0] + sep + Join(parts[1..], sep)
  }

  /** String.prototype.split with a one-character separator. */
  function SplitOn(s: string, c: char): (r: seq<string>)
    ensures |r| >= 1
    decreases |s|
  {
    var k := IndexOf(s, c);
    if k == -1 then [s] else [s[..k]] + SplitOn(s[k + 1..], c)
  }

  lemma SplitOnFirst(a: string, b: string, c: char)
    requires c !in a
    ensures SplitOn(a + [c] + b, c) == [a] + SplitOn(b, c)
  {
    var s := a + [c] + b;
    var k := IndexOf(s, c);
    assert forall j :: 0 <= j < |a| ==> s[j] == a[j];
    assert s[|a|] == c;
    assert forall j :: 0 <= j < k ==> s[..k][j] == s[j];
    assert k == |a|;
    assert s[..|a|] == a;
    assert s[|a| + 1..] == b;
  }

  /** Every piece of a split lacks the separator. */
  lemma {:induction false} SplitOnPieces(s: string, c: char)
    ensures forall i :: 0 <= i < |SplitOn(s, c)| ==> c !in SplitOn(s, c)[i]
    decreases |s|
  {
    var k := IndexOf(s, c);
    if k != -1 {
      SplitOnPieces(s[k + 1..], c);
      var r := SplitOn(s, c);
      assert r == [s[..k]] + SplitOn(s[k + 1..], c);
      forall i | 0 <= i < |r| ensures c !in r[i] {
        if i > 0 {
          assert r[i] == SplitOn(s[k + 1..], c)[i - 1];
        }
      }
    }
  }

  /** Trimming only removes characters. */
  lemma TrimKeeps(s: string, x: char)
    ensures x in Trim(s) ==> x in s
  {
    var t := TrimStart(s);
    if x in Trim(s) {
      var i :| 0 <= i < |Trim(s)| && Trim(s)[i] == x;
      assert t[i] == x;
      assert s[|s| - |t| + i] == x;
    }
  }

  /** The longest prefix without white space. */
  function Word(s: string): (r: string)
    ensures |r| <= |s| && r == s[..|r|]
    ensures forall i :: 0 <= i < |r| ==> !IsSpace(r[i])
    ensures |r| < |s| ==> IsSpace(s[|r|])
  {
    if s == [] || IsSpace(s[0]) then [] else [s[0]] + Word(s[1..])
  }

  /** String.prototype.split(/\s+/): split at every maximal run of white space.
      A leading (trailing) run yields an empty first (last) token. */
  function SplitWs(s: string): (r: seq<string>)
    ensures |r| >= 1 && r[0] == Word(s)
    decreases |s|
  {
    var w := Word(s);
    var rest := s[|w|..];
    if rest == [] then [w] else [w] + SplitWs(TrimStart(rest))
  }

  /** A word followed by white space (or nothing) is the first word. */
  lemma {:induction false} WordOf(w: string, rest: string)
    requires forall i :: 0 <= i < |w| ==> !IsSpace(w[i])
    requires rest == [] || IsSpace(rest[0])
    ensures Word(w + rest) == w
  {
    if w != [] {
      WordOf(w[1..], rest);
      assert (w + rest)[1..] == w[1..] + rest;
    } else {
      assert w + rest == rest;
    }
  }

  /** Words separated by single spaces: no white space at the start, and
      every white-space character is a space followed by a non-white-space
      character. */
  predicate SingleSpaced(s: string) {
    s != [] && !IsSpace(s[0])
    && forall i :: 0 <= i < |s| && IsSpace(s[i]) ==> s[i] == ' ' && i + 1 < |s| && !IsSpace(s[i + 1])
  }

  lemma JoinCons(w: string, tail: seq<string>, sep: string)
    requires tail != []
    ensures Join([w] + tail, sep) == w + sep + Join(tail, sep)
  {
    assert ([w] + tail)[1..] == tail;
  }

  /** A single-spaced text with more than one word: its first word, one
      space, and a single-spaced remainder. */
  lemma SingleSpacedStep(s: string)
    requires SingleSpaced(s) && |Word(s)| < |s|
    ensures s[|Word(s)|] == ' ' && SingleSpaced(s[|Word(s)| + 1..])
    ensures SplitWs(s) == [Word(s)] + SplitWs(s[|Word(s)| + 1..])
  {
    var w := Word(s);
    SingleSpacedRest(s, |w|);
    OneSpaceTrimmed(s[|w|..]);
    assert s[|w|..][1..] == s[|w| + 1..];
  }

  /** After a space of a single-spaced text comes a single-spaced text. */
  lemma SingleSpacedRest(s: string, k: nat)
    requires SingleSpaced(s) && k < |s| && IsSpace(s[k])
    ensures s[k] == ' ' && SingleSpaced(s[k + 1..])
  {
    var next := s[k + 1..];
    forall i | 0 <= i < |next| && IsSpace(next[i])
      ensures next[i] == ' ' && i + 1 < |next| && !IsSpace(next[i + 1])
    {
      assert next[i] == s[k + 1 + i];
    }
  }

  /** One white-space character followed by a non-white-space one trims to
      what follows it. */
  lemma OneSpaceTrimmed(rest: string)
    requires |rest| >= 2 && IsSpace(rest[0]) && !IsSpace(rest[1])
    ensures TrimStart(rest) == rest[1..]
  {
  }

  /** Splitting single-spaced words at white space and joining them with one
      space gives the text back. */
  lemma {:induction false} JoinSplitWs(s: string)
    requires SingleSpaced(s)
    ensures Join(SplitWs(s), " ") == s
    decreases |s|
  {
    var w := Word(s);
    if |w| < |s| {
      SingleSpacedStep(s);
      var next := s[|w| + 1..];
      JoinSplitWs(next);
      JoinCons(w, SplitWs(next), " ");
      assert s == s[..|w|] + [s[|w|]] + next;
    }
  }

  /** Strict lexicographic order by character code: the order in which the
      default Array.prototype.sort places strings. */
  predicate Less(a: string, b: string) {
    if a == [] then b != []
    else if b == [] then false
    else if a[0] != b[0] then a[0] < b[0]
    else Less(a[1..], b[1..])
  }

  lemma {:induction false} LessIrreflexive(a: string)
    ensures !Less(a, a)
  {
    if a != [] { LessIrreflexive(a[1..]); }
  }

  lemma {:induction false} LessTransitive(a: string, b: string, c: string)
    requires Less(a, b) && Less(b, c)
    ensures Less(a, c)
  {
    if a != [] && b != [] && c != [] && a[0] == b[0] && b[0] == c[0] {
      LessTransitive(a[1..], b[1..], c[1..]);
    }
  }

  lemma {:induction false} LessTotal(a: string, b: string)
    ensures a == b || Less(a, b) || Less(b, a)
  {
    if a != [] && b != [] && a[0] == b[0] {
      LessTotal(a[1..], b[1..]);
      if a[1..] == b[1..] {
        assert a == [a[0]] + a[1..] && b == [b[0]] + b[1..];
      }
    }
  }
}

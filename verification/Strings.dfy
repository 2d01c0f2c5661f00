/** The parts of Go's strings and strconv packages the server code relies on.
    A string is a sequence of Unicode code points; Go compares valid UTF-8
    strings byte by byte, which is the same as comparing code points. */
module Strings {
  import opened Wrappers

  // ----- the order of strings -----

  predicate Less(a: string, b: string) {
    |b| > 0 && (|a| == 0 || a[0] < b[0] || (a[0] == b[0] && Less(a[1..], b[1..])))
  }

  lemma {:induction false} LessTotal(a: string, b: string)
    ensures Less(a, b) || a == b || Less(b, a)
    ensures !(Less(a, b) && Less(b, a))
    ensures !Less(a, a)
  {
    if |a| > 0 {
      LessTotal(a[1..], a[1..]);
    }
    if |a| > 0 && |b| > 0 && a[0] == b[0] {
      LessTotal(a[1..], b[1..]);
      assert a == [a[0]] + a[1..] && b == [b[0]] + b[1..];
    }
  }

  /** At the first difference b has the larger character, or a ends there. */
  ghost predicate FirstDifference(a: string, b: string, i: nat) {
    i <= |a| && i < |b| && a[..i] == b[..i] && (i == |a| || a[i] as int < b[i] as int)
  }

  /** The order is that of a dictionary. */
  lemma {:induction false} LessMeans(a: string, b: string)
    ensures Less(a, b) <==> exists i: nat :: FirstDifference(a, b, i)
  {
    if |a| == 0 || |b| == 0 || a[0] != b[0] {
      assert Less(a, b) ==> FirstDifference(a, b, 0);
    } else {
      LessMeans(a[1..], b[1..]);
      if i: nat :| FirstDifference(a[1..], b[1..], i) {
        assert a[..i + 1] == [a[0]] + a[1..][..i] && b[..i + 1] == [b[0]] + b[1..][..i];
        assert FirstDifference(a, b, i + 1);
      }
      if i: nat :| FirstDifference(a, b, i) {
        assert i > 0;
        assert a[1..][..i - 1] == a[..i][1..] && b[1..][..i - 1] == b[..i][1..];
        assert FirstDifference(a[1..], b[1..], i - 1);
      }
    }
  }

  lemma {:induction false} LessTransitive(a: string, b: string, c: string)
    requires Less(a, b) && Less(b, c)
    ensures Less(a, c)
  {
    if |a| > 0 && a[0] == b[0] && b[0] == c[0] {
      LessTransitive(a[1..], b[1..], c[1..]);
    }
  }

  // ----- splitting and joining -----

  /** strings.Split for a one-character separator. */
  function Split(s: string, sep: char): (parts: seq<string>)
    ensures |parts| >= 1
  {
    if |s| == 0 then [""]
    else if s[0] == sep then [""] + Split(s[1..], sep)
    else
      var rest := Split(s[1..], sep);
      [[s[0]] + rest[0]] + rest[1..]
  }

  /** strings.Join for a one-character separator. */
  function Join(parts: seq<string>, sep: char): string {
    if |parts| == 0 then ""
    else if |parts| == 1 then parts[0]
    else parts[0] + [sep] + Join(parts[1..], sep)
  }

  lemma {:induction false} SplitWithout(s: string, sep: char)
    requires sep !in s
    ensures Split(s, sep) == [s]
  {
    if |s| > 0 {
      SplitWithout(s[1..], sep);
      assert s == [s[0]] + s[1..];
    }
  }

  lemma {:induction false} SplitAt(a: string, b: string, sep: char)
    requires sep !in a
    ensures Split(a + [sep] + b, sep) == [a] + Split(b, sep)
  {
    var s := a + [sep] + b;
    if |a| == 0 {
      assert s[1..] == b;
    } else {
      SplitAt(a[1..], b, sep);
      assert s[1..] == a[1..] + [sep] + b;
      assert a == [a[0]] + a[1..];
    }
  }

  lemma JoinCons(c: char, parts: seq<string>, sep: char)
    requires |parts| >= 1
    ensures Join([[c] + parts[0]] + parts[1..], sep) == [c] + Join(parts, sep)
  {
    var longer := [[c] + parts[0]] + parts[1..];
    assert longer[1..] == parts[1..];
  }

  lemma JoinSkip(parts: seq<string>, sep: char)
    requires |parts| >= 1
    ensures Join([""] + parts, sep) == [sep] + Join(parts, sep)
  {
    assert ([""] + parts)[1..] == parts;
  }

  lemma TakeCons<T>(x: T, t: seq<T>, i: nat)
    requires i <= |t|
    ensures ([x] + t)[..i + 1] == [x] + t[..i]
  {}

  lemma TakeTail<T>(t: seq<T>, i: nat)
    requires 1 <= i <= |t|
    ensures t[..i][1..] == t[1..][..i - 1] && t[..i][0] == t[0]
  {}

  /** How the joined prefixes of s and of its tail correspond. */
  lemma JoinedTail(s: string, sep: char, i: nat)
    requires |s| > 0 && 1 <= i <= |Split(s[1..], sep)|
    ensures s[0] == sep ==>
      i + 1 <= |Split(s, sep)| && Join(Split(s, sep)[..i + 1], sep) == [sep] + Join(Split(s[1..], sep)[..i], sep)
    ensures s[0] != sep ==>
      i <= |Split(s, sep)| && Join(Split(s, sep)[..i], sep) == [s[0]] + Join(Split(s[1..], sep)[..i], sep)
  {
    var rest := Split(s[1..], sep);
    if s[0] == sep {
      TakeCons("", rest, i);
      JoinSkip(rest[..i], sep);
    } else {
      TakeCons([s[0]] + rest[0], rest[1..], i - 1);
      TakeTail(rest, i);
      JoinCons(s[0], rest[..i], sep);
    }
  }

  lemma PrefixOfTail(s: string, k: nat)
    requires k < |s|
    ensures s[..k + 1] == [s[0]] + s[1..][..k]
  {}

  /** Joining the first i pieces of a split string gives the text before a separator. */
  lemma {:induction false} JoinedPrefix(s: string, sep: char, i: nat) returns (k: nat)
    requires 1 <= i < |Split(s, sep)|
    ensures k < |s| && s[k] == sep && Join(Split(s, sep)[..i], sep) == s[..k]
  {
    if s[0] == sep && i == 1 {
      k := 0;
      assert Split(s, sep)[..1] == [""];
    } else {
      var i' := if s[0] == sep then i - 1 else i;
      var j := JoinedPrefix(s[1..], sep, i');
      JoinedTail(s, sep, i');
      PrefixOfTail(s, j);
      k := j + 1;
    }
  }

  /** Every separator is found this way: the text before it is some joined prefix. */
  lemma {:induction false} PrefixIsJoined(s: string, sep: char, k: nat) returns (i: nat)
    requires k < |s| && s[k] == sep
    ensures 1 <= i < |Split(s, sep)| && Join(Split(s, sep)[..i], sep) == s[..k]
  {
    if k == 0 {
      i := 1;
      assert Split(s, sep)[..1] == [""];
    } else {
      var j := PrefixIsJoined(s[1..], sep, k - 1);
      JoinedTail(s, sep, j);
      PrefixOfTail(s, k - 1);
      i := if s[0] == sep then j + 1 else j;
    }
  }

  // ----- case and white space -----

  /** unicode.ToLower, exact wherever the result is ASCII: the Kelvin sign and the
      dotted capital I are the only non-ASCII letters with an ASCII lower case.
      Other non-ASCII letters are left alone. */
  function LowerChar(c: char): char {
    if 'A' <= c <= 'Z' then (c as int + 32) as char
    else if c == '\U{212A}' then 'k'
    else if c == '\U{0130}' then 'i'
    else c
  }

  function ToLower(s: string): (r: string)
    ensures |r| == |s|
    ensures forall i :: 0 <= i < |s| ==> r[i] == LowerChar(s[i])
  {
    seq(|s|, i requires 0 <= i < |s| => LowerChar(s[i]))
  }

  /** Capital letters become the small ones, which stay. */
  lemma LowerSpelled(c: char)
    ensures 'A' <= c <= 'Z' ==> LowerChar(c) as int - 'a' as int == c as int - 'A' as int
    ensures 'a' <= c <= 'z' ==> LowerChar(c) == c
  {}

  /** Nothing else below the non-ASCII letters changes. */
  lemma LowerKeeps(c: char)
    ensures c as int < 0x130 && !('A' <= c <= 'Z') ==> LowerChar(c) == c
  {}

  /** The representative of a character under simple case folding, exact for
      comparing with ASCII text: the Kelvin sign folds to k and the long s to s. */
  function FoldChar(c: char): char {
    if 'A' <= c <= 'Z' then (c as int + 32) as char
    else if c == '\U{212A}' then 'k'
    else if c == '\U{017F}' then 's'
    else c
  }

  /** strings.EqualFold. */
  predicate EqualFold(a: string, b: string) {
    |a| == |b| && forall i :: 0 <= i < |a| ==> FoldChar(a[i]) == FoldChar(b[i])
  }

  /** unicode.IsSpace. */
  predicate IsSpace(c: char) {
    '\t' <= c <= '\r' || c == ' ' || c == '\U{85}' || c == '\U{A0}' || c == '\U{1680}'
    || '\U{2000}' <= c <= '\U{200A}' || c == '\U{2028}' || c == '\U{2029}' || c == '\U{202F}'
    || c == '\U{205F}' || c == '\U{3000}'
  }

  /** Tab to carriage return, the space, and the other spaces of Unicode. */
  lemma SpaceSpelled(c: char)
    ensures IsSpace(c) <==>
      var n := c as int;
      n in {9, 10, 11, 12, 13, 32, 133, 160, 5760, 8232, 8233, 8239, 8287, 12288} || 8192 <= n <= 8202
  {}

  function TrimLeft(s: string): string {
    if |s| > 0 && IsSpace(s[0]) then TrimLeft(s[1..]) else s
  }

  function TrimRight(s: string): string {
    if |s| > 0 && IsSpace(s[|s| - 1]) then TrimRight(s[..|s| - 1]) else s
  }

  function TrimSpace(s: string): string {
    TrimRight(TrimLeft(s))
  }

  /** strings.LastIndex for one character; -1 when it is absent. */
  function LastIndex(s: string, c: char): (i: int)
    ensures -1 <= i < |s|
    ensures i >= 0 ==> s[i] == c
    ensures forall j :: i < j < |s| ==> s[j] != c
  {
    if |s| == 0 then -1
    else if s[|s| - 1] == c then |s| - 1
    else LastIndex(s[..|s| - 1], c)
  }

  // ----- cutting at a delimiter -----

  /** The text before the first delimiter and the text after it. */
  function Cut(s: string, delim: char): Option<(string, string)> {
    if |s| == 0 then None
    else if s[0] == delim then Some(("", s[1..]))
    else
      match Cut(s[1..], delim)
      case None => None
      case Some(p) => Some(([s[0]] + p.0, p.1))
  }

  lemma {:induction false} CutAt(a: string, b: string, delim: char)
    requires delim !in a
    ensures Cut(a + [delim] + b, delim) == Some((a, b))
  {
    var s := a + [delim] + b;
    if |a| == 0 {
      assert s[1..] == b;
    } else {
      assert s[1..] == a[1..] + [delim] + b;
      CutAt(a[1..], b, delim);
      assert a == [a[0]] + a[1..];
    }
  }

  lemma {:induction false} NoCut(s: string, delim: char)
    requires delim !in s
    ensures Cut(s, delim) == None
  {
    if |s| > 0 {
      NoCut(s[1..], delim);
    }
  }

  lemma {:induction false} CutShortens(s: string, delim: char)
    ensures Cut(s, delim).Some? ==>
      var p := Cut(s, delim).value;
      |p.1| < |s| && s == p.0 + [delim] + p.1 && delim !in p.0
  {
    if |s| > 0 && s[0] != delim {
      CutShortens(s[1..], delim);
      assert s == [s[0]] + s[1..];
    }
  }

  // ----- decimal numbers -----

  predicate IsDigit(c: char) {
    '0' <= c <= '9'
  }

  predicate AllDigits(s: string) {
    forall i :: 0 <= i < |s| ==> IsDigit(s[i])
  }

  function DigitChar(d: nat): (c: char)
    requires d < 10
    ensures IsDigit(c)
  {
    ('0' as int + d) as char
  }

  function NatText(n: nat): (s: string)
    ensures |s| >= 1 && AllDigits(s)
  {
    if n < 10 then [DigitChar(n)] else NatText(n / 10) + [DigitChar(n % 10)]
  }

  /** strconv.Itoa. */
  function Itoa(n: int): string {
    if n < 0 then "-" + NatText(-n) else NatText(n)
  }

  function DigitsValue(s: string): nat
    requires AllDigits(s)
  {
    if |s| == 0 then 0
    else DigitsValue(s[..|s| - 1]) * 10 + (s[|s| - 1] as int - '0' as int)
  }

  const INT64_MAX := 0x7FFF_FFFF_FFFF_FFFF

  /** strconv.Atoi: an optional sign, then decimal digits, within 64 bits. */
  function Atoi(s: string): (r: Option<int>)
    ensures r.Some? ==> -INT64_MAX - 1 <= r.value <= INT64_MAX
  {
    var signed := |s| > 0 && (s[0] == '-' || s[0] == '+');
    var digits := if signed then s[1..] else s;
    if |digits| == 0 || !AllDigits(digits) then None
    else
      var magnitude: int := DigitsValue(digits);
      var n := if signed && s[0] == '-' then -magnitude else magnitude;
      if -INT64_MAX - 1 <= n <= INT64_MAX then Some(n) else None
  }

  lemma {:induction false} DigitsRoundTrip(n: nat)
    ensures DigitsValue(NatText(n)) == n
  {
    if n >= 10 {
      DigitsRoundTrip(n / 10);
      var s := NatText(n);
      assert s[..|s| - 1] == NatText(n / 10);
    } else {
      assert DigitsValue([]) == 0;
      assert NatText(n)[..0] == [];
    }
  }

  /** Parsing a printed number gives the number back. */
  lemma AtoiOfItoa(n: int)
    requires -INT64_MAX - 1 <= n <= INT64_MAX
    ensures Atoi(Itoa(n)) == Some(n)
  {
    var s := Itoa(n);
    if n < 0 {
      DigitsRoundTrip(-n);
      assert s[0] == '-' && s[1..] == NatText(-n);
    } else {
      DigitsRoundTrip(n);
      assert IsDigit(s[0]) && s == NatText(n);
    }
  }

  function Within64(n: int): Option<int> {
    if -0x8000_0000_0000_0000 <= n <= 0x7FFF_FFFF_FFFF_FFFF then Some(n) else None
  }

  /** Digits, leading zeros included, are read as the number they denote, unless it does not
      fit 64 bits. */
  lemma AtoiOfDigits(digits: string)
    requires |digits| > 0 && AllDigits(digits)
    ensures Atoi(digits) == Within64(DigitsValue(digits))
  {
    assert IsDigit(digits[0]);
  }

  /** With a sign in front they are that number or its negative. */
  lemma AtoiOfSigned(sign: char, digits: string)
    requires |digits| > 0 && AllDigits(digits) && (sign == '-' || sign == '+')
    ensures
      var n: int := DigitsValue(digits);
      Atoi([sign] + digits) == Within64(if sign == '-' then -n else n)
  {
    var s := [sign] + digits;
    assert s[0] == sign && s[1..] == digits;
  }

  /** Nothing else is read as a number. */
  lemma AtoiNeedsDigits(s: string)
    requires Atoi(s).Some?
    ensures |s| > 0
    ensures if s[0] == '-' || s[0] == '+' then |s| > 1 && AllDigits(s[1..]) else AllDigits(s)
  {}

  lemma DigitSpelled(d: nat)
    requires d < 10
    ensures DigitChar(d) == "0123456789"[d] && DigitsValue([DigitChar(d)]) == d
    ensures Itoa(d) == ["0123456789"[d]]
  {
    assert [DigitChar(d)][..0] == [];
  }

  /** Two numbers with the same text are equal. */
  lemma ItoaInjective(m: int, n: int)
    requires Itoa(m) == Itoa(n)
    ensures m == n
  {
    var s := Itoa(m);
    DigitsRoundTrip(if m < 0 then -m else m);
    DigitsRoundTrip(if n < 0 then -n else n);
    assert m < 0 ==> s[0] == '-' && s[1..] == NatText(-m);
    assert n < 0 ==> s[0] == '-' && s[1..] == NatText(-n);
    assert m >= 0 ==> IsDigit(s[0]);
    assert n >= 0 ==> IsDigit(s[0]);
  }

  /** Text that starts and ends without white space is not trimmed. */
  lemma TrimNothing(s: string)
    requires |s| > 0 && !IsSpace(s[0]) && !IsSpace(s[|s| - 1])
    ensures TrimSpace(s) == s
  {}

  predicate AllSpace(s: string) {
    forall i :: 0 <= i < |s| ==> IsSpace(s[i])
  }

  /** No white space at either end. */
  predicate Tight(s: string) {
    |s| > 0 ==> !IsSpace(s[0]) && !IsSpace(s[|s| - 1])
  }

  lemma {:induction false} TrimLeftPadded(pad: string, s: string)
    requires AllSpace(pad) && (|s| > 0 ==> !IsSpace(s[0]))
    ensures TrimLeft(pad + s) == s
  {
    if |pad| > 0 {
      assert (pad + s)[1..] == pad[1..] + s;
      TrimLeftPadded(pad[1..], s);
    } else {
      assert pad + s == s;
    }
  }

  lemma {:induction false} TrimRightPadded(s: string, pad: string)
    requires AllSpace(pad) && (|s| > 0 ==> !IsSpace(s[|s| - 1]))
    ensures TrimRight(s + pad) == s
  {
    if |pad| > 0 {
      var shorter := pad[..|pad| - 1];
      assert (s + pad)[..|s + pad| - 1] == s + shorter;
      TrimRightPadded(s, shorter);
    } else {
      assert s + pad == s;
    }
  }

  lemma {:induction false} AllSpaceTrims(pad: string)
    requires AllSpace(pad)
    ensures TrimLeft(pad) == ""
  {
    if |pad| > 0 {
      AllSpaceTrims(pad[1..]);
    }
  }

  /** Trimming drops exactly the white space around a text. */
  lemma TrimPadded(before: string, s: string, after: string)
    requires AllSpace(before) && AllSpace(after) && Tight(s)
    ensures TrimSpace(before + s + after) == s
  {
    if |s| > 0 {
      assert before + s + after == before + (s + after);
      TrimLeftPadded(before, s + after);
      TrimRightPadded(s, after);
    } else {
      AllSpaceTrims(before + s + after);
    }
  }
}

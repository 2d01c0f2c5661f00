/** Project and network names: SanitizeProjectName and SanitizeNetworkSuffix. */
module ProjectNames {
  import opened Strings

  predicate IsWordChar(c: char) {
    'a' <= c <= 'z' || '0' <= c <= '9'
  }

  predicate IsSep(c: char) {
    c == '-' || c == '_'
  }

  /** One character of the sanitizing loop: the text so far and whether it ends in a separator. */
  function Feed(b: string, prevSep: bool, c: char): (string, bool) {
    if IsWordChar(c) then (b + [c], false)
    else if IsSep(c) then (if |b| > 0 && !prevSep then (b + [c], true) else (b, prevSep))
    else if c == ' ' || c == '.' || c == '/' then (if |b| > 0 && !prevSep then (b + ['-'], true) else (b, prevSep))
    else (b, prevSep)
  }

  function Squeeze(s: string): (string, bool) {
    if |s| == 0 then ("", false)
    else
      var (b, prevSep) := Squeeze(s[..|s| - 1]);
      Feed(b, prevSep, s[|s| - 1])
  }

  function TrimSepsLeft(s: string): string {
    if |s| > 0 && IsSep(s[0]) then TrimSepsLeft(s[1..]) else s
  }

  function TrimSepsRight(s: string): string {
    if |s| > 0 && IsSep(s[|s| - 1]) then TrimSepsRight(s[..|s| - 1]) else s
  }

  function Sanitized(s: string): string {
    TrimSepsRight(TrimSepsLeft(Squeeze(ToLower(TrimSpace(s))).0))
  }

  method SanitizeProjectName(raw: string) returns (name: string)
    ensures name == Sanitized(raw)
  {
    var s := ToLower(TrimSpace(raw));
    var b, prevSep := "", false;
    for i := 0 to |s|
      invariant Squeeze(s[..i]) == (b, prevSep)
    {
      assert s[..i + 1][..i] == s[..i];
      var next := Feed(b, prevSep, s[i]);
      b, prevSep := next.0, next.1;
    }
    assert s[..|s|] == s;
    return TrimSepsRight(TrimSepsLeft(b));
  }

  function NetworkSuffix(s: string): string {
    var out := Sanitized(s);
    if out == "" then "net" else out
  }

  // ----- clean names are exactly the fixed points -----

  /** Letters, digits and single separators strictly inside the name. */
  predicate Clean(s: string) {
    && Spaced(s)
    && (|s| > 0 ==> !IsSep(s[|s| - 1]))
  }

  /** Like Clean, but possibly ending in a separator. */
  predicate Spaced(s: string) {
    && (forall i :: 0 <= i < |s| ==> IsWordChar(s[i]) || IsSep(s[i]))
    && (|s| > 0 ==> !IsSep(s[0]))
    && (forall i :: 0 < i < |s| ==> !(IsSep(s[i - 1]) && IsSep(s[i])))
  }

  lemma {:induction false} SqueezeSpaced(s: string)
    ensures Spaced(Squeeze(s).0)
    ensures Squeeze(s).1 <==> |Squeeze(s).0| > 0 && IsSep(Squeeze(s).0[|Squeeze(s).0| - 1])
  {
    if |s| > 0 {
      SqueezeSpaced(s[..|s| - 1]);
    }
  }

  lemma {:induction false} SqueezeKeeps(s: string)
    requires Spaced(s)
    ensures Squeeze(s).0 == s
  {
    if |s| > 0 {
      var rest, last := s[..|s| - 1], s[|s| - 1];
      SqueezeKeeps(rest);
      SqueezeSpaced(rest);
      var (b, prevSep) := Squeeze(rest);
      assert b == rest && Feed(b, prevSep, last).0 == rest + [last];
    }
  }

  /** Sanitizing always yields a clean name, and changes nothing but unclean names;
      so the stored project label is found again whenever it is sanitized anew. */
  lemma SanitizedIsClean(s: string)
    ensures Clean(Sanitized(s))
    ensures Sanitized(s) == s <==> Clean(s)
  {
    var b := Squeeze(ToLower(TrimSpace(s))).0;
    SqueezeSpaced(ToLower(TrimSpace(s)));
    assert TrimSepsLeft(b) == b;
    if |b| > 0 && IsSep(b[|b| - 1]) {
      assert TrimSepsRight(b) == TrimSepsRight(b[..|b| - 1]) == b[..|b| - 1];
    }
    if Clean(s) {
      CleanStays(s);
    }
  }

  lemma CleanStays(s: string)
    requires Clean(s)
    ensures Sanitized(s) == s
  {
    assert TrimSpace(s) == s;
    assert ToLower(s) == s;
    SqueezeKeeps(s);
  }

  lemma SanitizeIdempotent(s: string)
    ensures Sanitized(Sanitized(s)) == Sanitized(s)
  {
    SanitizedIsClean(s);
    CleanStays(Sanitized(s));
  }
  // ----- what a name becomes -----

  /** What one character of a name stands for: letters in lower case, digits and separators
      themselves, a blank, a dot or a slash a dash, and anything else nothing. */
  function Meaning(c: char): string {
    var l := LowerChar(c);
    if IsWordChar(l) || IsSep(l) then [l] else if l in [' ', '.', '/'] then "-" else ""
  }

  function Meanings(s: string): string {
    if |s| == 0 then "" else Meanings(s[..|s| - 1]) + Meaning(s[|s| - 1])
  }

  /** Of separators in a row the first one stays. */
  function FirstSeps(s: string): string {
    if |s| == 0 then ""
    else
      var n := |s| - 1;
      FirstSeps(s[..n]) + if n > 0 && IsSep(s[n - 1]) && IsSep(s[n]) then "" else [s[n]]
  }

  lemma {:induction false} FirstSepsEnd(s: string)
    requires |s| > 0
    ensures |FirstSeps(s)| > 0 && (IsSep(FirstSeps(s)[|FirstSeps(s)| - 1]) <==> IsSep(s[|s| - 1]))
  {
    if |s| > 1 {
      FirstSepsEnd(s[..|s| - 1]);
    }
  }

  lemma FirstSepsPush(s: string, c: char)
    ensures FirstSeps(s + [c]) == FirstSeps(s) + if |s| > 0 && IsSep(s[|s| - 1]) && IsSep(c) then "" else [c]
  {
    assert (s + [c])[..|s|] == s;
  }

  lemma {:induction false} TrimSepsLeftPush(s: string, c: char)
    ensures TrimSepsLeft(s + [c]) == if TrimSepsLeft(s) == "" && IsSep(c) then "" else TrimSepsLeft(s) + [c]
    ensures TrimSepsLeft(s) != "" ==> TrimSepsLeft(s)[|TrimSepsLeft(s)| - 1] == s[|s| - 1]
  {
    if |s| > 0 && IsSep(s[0]) {
      assert (s + [c])[1..] == s[1..] + [c];
      TrimSepsLeftPush(s[1..], c);
    } else if |s| == 0 {
      assert s + [c] == [c] && [c][1..] == "";
    }
  }

  /** A meaning pushed onto the meanings so far: a separator counts only behind a letter or
      digit. */
  lemma PushMeans(b: string, m: string, x: char)
    requires b == TrimSepsLeft(FirstSeps(m))
    ensures TrimSepsLeft(FirstSeps(m + [x])) == if IsSep(x) && (b == "" || IsSep(b[|b| - 1])) then b else b + [x]
  {
    FirstSepsPush(m, x);
    TrimSepsLeftPush(FirstSeps(m), x);
    if |m| > 0 {
      FirstSepsEnd(m);
    }
    assert FirstSeps(m) + "" == FirstSeps(m);
  }

  /** The loop does the same with a character. */
  lemma FeedByMeaning(b: string, prevSep: bool, c: char)
    ensures Feed(b, prevSep, LowerChar(c)) ==
      if Meaning(c) == "" then (b, prevSep)
      else if !IsSep(Meaning(c)[0]) then (b + [Meaning(c)[0]], false)
      else if b == "" || prevSep then (b, prevSep)
      else (b + [Meaning(c)[0]], true)
    ensures |Meaning(c)| <= 1
  {}

  predicate EndsInSep(b: string) {
    |b| > 0 && IsSep(b[|b| - 1])
  }

  lemma FeedMeans(b: string, m: string, c: char)
    requires b == TrimSepsLeft(FirstSeps(m))
    ensures Feed(b, EndsInSep(b), LowerChar(c)).0 == TrimSepsLeft(FirstSeps(m + Meaning(c)))
    ensures Feed(b, EndsInSep(b), LowerChar(c)).1 == EndsInSep(Feed(b, EndsInSep(b), LowerChar(c)).0)
  {
    FeedByMeaning(b, EndsInSep(b), c);
    var out := Meaning(c);
    if out == "" {
      assert m + out == m;
    } else {
      PushMeans(b, m, out[0]);
      assert out == [out[0]];
    }
  }

  lemma {:induction false} SqueezeMeans(s: string)
    ensures Squeeze(ToLower(s)).0 == TrimSepsLeft(FirstSeps(Meanings(s)))
    ensures Squeeze(ToLower(s)).1 == EndsInSep(Squeeze(ToLower(s)).0)
  {
    if |s| > 0 {
      var n := |s| - 1;
      SqueezeMeans(s[..n]);
      LowerPush(s);
      FeedMeans(Squeeze(ToLower(s[..n])).0, Meanings(s[..n]), s[n]);
    }
  }

  lemma LowerPush(s: string)
    requires |s| > 0
    ensures
      var n := |s| - 1;
      Squeeze(ToLower(s)) == Feed(Squeeze(ToLower(s[..n])).0, Squeeze(ToLower(s[..n])).1, LowerChar(s[n]))
  {
    assert ToLower(s)[..|s| - 1] == ToLower(s[..|s| - 1]);
  }

  /** A sanitized name is the meanings of its characters, of separators in a row the first,
      and none at either end. */
  lemma SanitizedMeans(s: string)
    ensures Sanitized(s) == TrimSepsRight(TrimSepsLeft(FirstSeps(Meanings(TrimSpace(s)))))
  {
    SqueezeMeans(TrimSpace(s));
    var m := FirstSeps(Meanings(TrimSpace(s)));
    SqueezeSpaced(ToLower(TrimSpace(s)));
    assert TrimSepsLeft(TrimSepsLeft(m)) == TrimSepsLeft(m);
  }

  lemma {:induction false} MeaningsAppend(s: string, t: string)
    ensures Meanings(s + t) == Meanings(s) + Meanings(t)
  {
    if |t| == 0 {
      assert s + t == s;
    } else {
      assert (s + t)[..|s + t| - 1] == s + t[..|t| - 1];
      MeaningsAppend(s, t[..|t| - 1]);
    }
  }

  lemma {:induction false} MeaningsOfWords(s: string)
    requires forall i :: 0 <= i < |s| ==> IsWordChar(LowerChar(s[i])) || IsSep(LowerChar(s[i]))
    ensures Meanings(s) == ToLower(s)
  {
    if |s| > 0 {
      var n := |s| - 1;
      MeaningsOfWords(s[..n]);
      assert ToLower(s) == ToLower(s[..n]) + [LowerChar(s[n])];
    } else {
      assert ToLower(s) == "";
    }
  }

  lemma {:induction false} FirstSepsOfSpaced(s: string)
    requires Spaced(s)
    ensures FirstSeps(s) == s
  {
    if |s| > 0 {
      FirstSepsOfSpaced(s[..|s| - 1]);
    }
  }

  lemma MeaningsOfTwo(a: string, c: char, b: string)
    requires c in [' ', '.', '/']
    requires forall i :: 0 <= i < |a| ==> IsWordChar(LowerChar(a[i])) || IsSep(LowerChar(a[i]))
    requires forall i :: 0 <= i < |b| ==> IsWordChar(LowerChar(b[i])) || IsSep(LowerChar(b[i]))
    ensures Meanings(a + [c] + b) == ToLower(a) + ['-'] + ToLower(b)
  {
    MeaningsAppend(a + [c], b);
    MeaningsAppend(a, [c]);
    assert Meanings([c]) == ['-'] by {
      assert [c][..0] == "";
    }
    MeaningsOfWords(a);
    MeaningsOfWords(b);
  }

  lemma DashedIsClean(x: string, y: string)
    requires |x| > 0 && |y| > 0 && Clean(x) && Clean(y)
    ensures Clean(x + ['-'] + y)
  {}

  lemma CleanIsSettled(name: string)
    requires Clean(name)
    ensures TrimSepsRight(TrimSepsLeft(FirstSeps(name))) == name
  {
    FirstSepsOfSpaced(name);
  }

  /** Two names in any case with a blank, a dot or a slash between them become one, in lower
      case and with a dash in between. */
  lemma TwoWords(a: string, c: char, b: string)
    requires |a| > 0 && |b| > 0 && Clean(ToLower(a)) && Clean(ToLower(b)) && c in [' ', '.', '/']
    ensures Sanitized(a + [c] + b) == ToLower(a) + ['-'] + ToLower(b)
  {
    WordEnds(a);
    WordEnds(b);
    TrimNothing(a + [c] + b);
    SanitizedMeans(a + [c] + b);
    MeaningsOfTwo(a, c, b);
    DashedIsClean(ToLower(a), ToLower(b));
    CleanIsSettled(ToLower(a) + ['-'] + ToLower(b));
  }

  lemma WordEnds(a: string)
    requires |a| > 0 && Clean(ToLower(a))
    ensures !IsSpace(a[0]) && !IsSpace(a[|a| - 1])
    ensures forall i :: 0 <= i < |a| ==> IsWordChar(LowerChar(a[i])) || IsSep(LowerChar(a[i]))
  {
    assert ToLower(a)[0] == LowerChar(a[0]) && ToLower(a)[|a| - 1] == LowerChar(a[|a| - 1]);
    forall i | 0 <= i < |a|
      ensures IsWordChar(LowerChar(a[i])) || IsSep(LowerChar(a[i]))
    {
      assert ToLower(a)[i] == LowerChar(a[i]);
    }
  }

  lemma CharsSpelled(c: char)
    ensures IsWordChar(c) <==> c in "abcdefghijklmnopqrstuvwxyz0123456789"
    ensures IsSep(c) <==> c in "-_"
  {}
}

/** The Guacamole instruction stream: its printer, its stream parser and the
    connection handshake built on them. Text is a sequence of code points. */
module Guac {
  import opened Wrappers
  import opened Strings

  /** An instruction: the opcode followed by its arguments. */
  type Instr = seq<string>

  datatype WireError = EndOfStream | BadLength(text: string) | BadSeparator | WriteFailed | NoConnection
    | UnexpectedOpcode(got: string)

  // ----- printing -----

  /** writeElem: "<length>.<value>", the length counted in code points. */
  function Elem(v: string): string {
    Itoa(|v|) + "." + v
  }

  /** The arguments after the opcode, each behind a comma. */
  function Tail(rest: seq<string>): string {
    if |rest| == 0 then "" else Tail(rest[..|rest| - 1]) + ("," + Elem(rest[|rest| - 1]))
  }

  /** writeInstr2. */
  function Encode(op: string, rest: seq<string>): string {
    Elem(op) + Tail(rest) + ";"
  }

  method WriteInstr(op: string, rest: seq<string>) returns (sb: string)
    ensures sb == Encode(op, rest)
  {
    sb := Itoa(|op|) + "." + op;
    for i := 0 to |rest|
      invariant sb == Elem(op) + Tail(rest[..i])
    {
      assert rest[..i + 1][..i] == rest[..i];
      sb := sb + ("," + (Itoa(|rest[i]|) + "." + rest[i]));
    }
    assert rest[..|rest|] == rest;
    sb := sb + ";";
  }

  // ----- parsing -----

  /** One element and the separator behind it. A negative length reads as empty. */
  function ParseElem(s: string): (r: Result<(string, char, string), WireError>)
    ensures r.Ok? ==> |r.value.2| < |s|
  {
    CutShortens(s, '.');
    match Cut(s, '.')
    case None => Err(EndOfStream)
    case Some((lenText, after)) =>
      match Atoi(TrimSpace(lenText))
      case None => Err(BadLength(lenText))
      case Some(n) =>
        var k := if n < 0 then 0 else n;
        if |after| <= k then Err(EndOfStream)
        else Ok((after[..k], after[k], after[k + 1..]))
  }

  /** readInstr: elements up to a semicolon, and the rest of the stream. */
  function ParseInstr(s: string): (r: Result<(Instr, string), WireError>)
    ensures r.Ok? ==> |r.value.0| >= 1 && |r.value.1| < |s|
    decreases |s|
  {
    match ParseElem(s)
    case Err(e) => Err(e)
    case Ok((v, sep, after)) =>
      if sep == ';' then Ok(([v], after))
      else if sep != ',' then Err(BadSeparator)
      else
        match ParseInstr(after)
        case Err(e) => Err(e)
        case Ok((vs, rest)) => Ok(([v] + vs, rest))
  }

  // ----- round trips -----

  lemma ElemRoundTrip(v: string, sep: char, rest: string)
    requires |v| <= INT64_MAX
    ensures ParseElem(Elem(v) + [sep] + rest) == Ok((v, sep, rest))
  {
    var s, after := Elem(v) + [sep] + rest, v + [sep] + rest;
    var len := Itoa(|v|);
    assert s == len + ['.'] + after;
    CutAt(len, after, '.');
    TrimNothing(len);
    AtoiOfItoa(|v|);
    assert after[..|v|] == v && after[|v|] == sep && after[|v| + 1..] == rest;
  }

  /** What an announced length means: a count of code points, where less than one stands for
      none; the stream must hold them and a separator behind them. */
  lemma LengthMeans(len: string, n: int, body: string, sep: char, rest: string)
    requires '.' !in len && Atoi(TrimSpace(len)) == Some(n)
    ensures |body| == (if n > 0 then n else 0) ==> ParseElem(len + ['.'] + (body + [sep] + rest)) == Ok((body, sep, rest))
    ensures |body| <= n || body == "" ==> ParseElem(len + ['.'] + body) == Err(EndOfStream)
  {
    var after := body + [sep] + rest;
    CutAt(len, after, '.');
    CutAt(len, body, '.');
    assert after[..|body|] == body && after[|body|] == sep && after[|body| + 1..] == rest;
  }

  /** A length that is no number, and a stream without one, are errors. */
  lemma NoLength(len: string, after: string)
    requires '.' !in len
    ensures Atoi(TrimSpace(len)) == None ==> ParseElem(len + ['.'] + after) == Err(BadLength(len))
    ensures ParseElem(len) == Err(EndOfStream)
  {
    CutAt(len, after, '.');
    NoCut(len, '.');
  }

  /** The whole instruction, element by element from the front. */
  function Elems(es: Instr): string
    requires |es| >= 1
  {
    if |es| == 1 then Elem(es[0]) + ";" else Elem(es[0]) + ("," + Elems(es[1..]))
  }

  lemma Regroup(a: string, b: string, c: string)
    ensures (a + b) + c == a + (b + c)
  {}

  /** The last element, comma in front. */
  lemma TailBack(rest: seq<string>, before: seq<string>, e: string)
    requires rest == before + [e]
    ensures Tail(rest) == Tail(before) + ("," + Elem(e))
  {
    assert rest[..|rest| - 1] == before;
  }

  lemma {:induction false} TailFront(e: string, rest: seq<string>)
    ensures Tail([e] + rest) == ("," + Elem(e)) + Tail(rest)
  {
    if |rest| == 0 {
      TailBack([e] + rest, [], e);
    } else {
      var shorter, last := rest[..|rest| - 1], rest[|rest| - 1];
      TailFront(e, shorter);
      TailBack(rest, shorter, last);
      TailBack([e] + rest, [e] + shorter, last);
      Regroup("," + Elem(e), Tail(shorter), "," + Elem(last));
    }
  }

  /** The printer's left-to-right output is the element-by-element reading of it. */
  lemma {:induction false} EncodeIsElems(es: Instr)
    requires |es| >= 1
    ensures Encode(es[0], es[1..]) == Elems(es)
  {
    if |es| > 1 {
      EncodeIsElems(es[1..]);
      TailFront(es[1], es[1..][1..]);
      assert es[1..] == [es[1]] + es[1..][1..];
    }
  }

  ghost predicate Sendable(es: Instr) {
    |es| >= 1 && forall i :: 0 <= i < |es| ==> |es[i]| <= INT64_MAX
  }

  lemma ParseLastElem(s: string, v: string, rest: string)
    requires ParseElem(s) == Ok((v, ';', rest))
    ensures ParseInstr(s) == Ok(([v], rest))
  {}

  lemma ParseMoreElems(s: string, v: string, rest: string, vs: Instr, tail: string)
    requires ParseElem(s) == Ok((v, ',', rest))
    requires ParseInstr(rest) == Ok((vs, tail))
    ensures ParseInstr(s) == Ok(([v] + vs, tail))
  {}

  lemma SplitBehind(first: string, sep: char, rest: string, tail: string)
    ensures (first + ([sep] + rest)) + tail == first + [sep] + (rest + tail)
    ensures first + [sep] + tail == (first + [sep]) + tail
  {}

  lemma {:induction false} ElemsRoundTrip(es: Instr, tail: string)
    requires Sendable(es)
    ensures ParseInstr(Elems(es) + tail) == Ok((es, tail))
  {
    var v := es[0];
    if |es| == 1 {
      ElemRoundTrip(v, ';', tail);
      ParseLastElem(Elems(es) + tail, v, tail);
      assert es == [v];
    } else {
      var rest := Elems(es[1..]);
      ElemRoundTrip(v, ',', rest + tail);
      SplitBehind(Elem(v), ',', rest, tail);
      ElemsRoundTrip(es[1..], tail);
      ParseMoreElems(Elems(es) + tail, v, rest + tail, es[1..], tail);
      assert es == [v] + es[1..];
    }
  }

  /** Whatever text the elements hold, reading a written instruction gives it back
      and leaves what follows untouched. */
  lemma InstrRoundTrip(es: Instr, tail: string)
    requires Sendable(es)
    ensures ParseInstr(Encode(es[0], es[1..]) + tail) == Ok((es, tail))
  {
    EncodeIsElems(es);
    ElemsRoundTrip(es, tail);
  }

  ghost predicate AllSendable(sent: seq<Instr>) {
    forall i :: 0 <= i < |sent| ==> Sendable(sent[i])
  }

  predicate AllNonempty(sent: seq<Instr>) {
    forall i :: 0 <= i < |sent| ==> |sent[i]| >= 1
  }

  /** A stream of instructions. */
  function EncodeAll(sent: seq<Instr>): string
    requires AllNonempty(sent)
  {
    if |sent| == 0 then "" else Encode(sent[0][0], sent[0][1..]) + EncodeAll(sent[1..])
  }

  /** Reading n instructions in a row. */
  function ParseMany(s: string, n: nat): Result<(seq<Instr>, string), WireError>
    decreases n
  {
    if n == 0 then Ok(([], s))
    else
      match ParseInstr(s)
      case Err(e) => Err(e)
      case Ok((first, rest)) =>
        match ParseMany(rest, n - 1)
        case Err(e) => Err(e)
        case Ok((more, end)) => Ok(([first] + more, end))
  }

  lemma ParseStep(s: string, first: Instr, rest: string, n: nat, more: seq<Instr>, end: string)
    requires ParseInstr(s) == Ok((first, rest)) && ParseMany(rest, n) == Ok((more, end))
    ensures ParseMany(s, n + 1) == Ok(([first] + more, end))
  {}

  lemma ParseOneMore(first: Instr, text: string, more: seq<Instr>, moreText: string, tail: string)
    requires ParseInstr(text + (moreText + tail)) == Ok((first, moreText + tail))
    requires ParseMany(moreText + tail, |more|) == Ok((more, tail))
    ensures ParseMany(text + moreText + tail, |more| + 1) == Ok(([first] + more, tail))
  {
    Regroup(text, moreText, tail);
    ParseStep(text + (moreText + tail), first, moreText + tail, |more|, more, tail);
  }

  /** A written stream reads back as exactly the instructions written, and exactly
      the bytes behind it remain. */
  lemma {:induction false} StreamRoundTrip(sent: seq<Instr>, tail: string)
    requires AllSendable(sent)
    ensures ParseMany(EncodeAll(sent) + tail, |sent|) == Ok((sent, tail))
  {
    if |sent| == 0 {
      assert EncodeAll(sent) + tail == tail;
    } else {
      var more := EncodeAll(sent[1..]);
      InstrRoundTrip(sent[0], more + tail);
      StreamRoundTrip(sent[1..], tail);
      ParseOneMore(sent[0], Encode(sent[0][0], sent[0][1..]), sent[1..], more, tail);
      assert sent == [sent[0]] + sent[1..];
    }
  }
}

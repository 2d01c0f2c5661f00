/** A connection to guacd: reading and writing instructions, and the handshake. */
module GuacConn {
  import opened Wrappers
  import opened Strings
  import opened Guac

  datatype Params = Params(
    protocol: string,
    hostname: string,
    port: int,
    password: string,
    username: string,
    width: int,
    height: int,
    dpi: int,
    extra: map<string, string>)
  {
    /** The display size and resolution used when none is asked for. */
    function WithDefaults(): Params {
      this.(width := if width == 0 then 1024 else width,
            height := if height == 0 then 768 else height,
            dpi := if dpi == 0 then 96 else dpi)
    }

    /** The value sent for one of guacd's parameter names. */
    function Value(arg: string): string {
      if arg == "hostname" then hostname
      else if arg == "port" then Itoa(port)
      else if arg == "password" then password
      else if arg == "username" then username
      else if arg == "width" then Itoa(width)
      else if arg == "height" then Itoa(height)
      else if arg == "dpi" then Itoa(dpi)
      else if (arg == "ignore-cert" || arg == "disable-auth") && protocol == "rdp" then "true"
      else if arg == "security" && protocol == "rdp" then "any"
      else if arg == "resize-method" then "display-update"
      else if arg in extra then extra[arg]
      else ""
    }
  }

  predicate IsVersion(el: string) {
    |el| >= 8 && el[..8] == "VERSION_"
  }

  /** A version token is echoed; anything else is a parameter name. */
  function AnswerFor(p: Params, el: string): string {
    if IsVersion(el) then el else p.Value(el)
  }

  function Answers(p: Params, names: seq<string>): (values: seq<string>)
    ensures |values| == |names| && forall i :: 0 <= i < |names| ==> values[i] == AnswerFor(p, names[i])
  {
    seq(|names|, i requires 0 <= i < |names| => AnswerFor(p, names[i]))
  }

  /** The opcodes of the handshake. */
  datatype Opcodes = Opcodes(
    select: string,
    args: string,
    size: string,
    audio: string,
    video: string,
    image: string,
    connect: string,
    ready: string)

  const OPCODES := Opcodes("select", "args", "size", "audio", "video", "image", "connect", "ready")

  /** What the client sends before connect: display size and empty media lists. */
  function Display(w: Opcodes, p: Params): seq<Instr> {
    [[w.size, Itoa(p.width), Itoa(p.height), Itoa(p.dpi)], [w.audio], [w.video], [w.image]]
  }

  /** The client's side of the handshake, given the parameter names guacd announced. */
  function Sent(w: Opcodes, p: Params, names: seq<string>): (sent: seq<Instr>)
    ensures AllNonempty(sent)
  {
    [[w.select, p.protocol]] + (Display(w, p) + [[w.connect] + Answers(p, names)])
  }

  /** The stream starts with a well-formed instruction of this opcode. */
  ghost predicate Opens(input: string, op: string) {
    ParseInstr(input).Ok? && ParseInstr(input).value.0[0] == op
  }

  /** What guacd must answer: an args instruction, then a ready instruction. */
  ghost predicate Cooperates(w: Opcodes, input: string) {
    Opens(input, w.args) && Opens(ParseInstr(input).value.1, w.ready)
  }

  /** The parameter names guacd announced. */
  ghost function Announced(w: Opcodes, input: string): seq<string>
    requires Cooperates(w, input)
  {
    ParseInstr(input).value.0[1..]
  }

  /** What follows guacd's two answers. */
  ghost function Remainder(w: Opcodes, input: string): string
    requires Cooperates(w, input)
  {
    ParseInstr(ParseInstr(input).value.1).value.1
  }

  function Prepend(elems: Instr, r: Result<(Instr, string), WireError>): Result<(Instr, string), WireError> {
    match r
    case Err(e) => Err(e)
    case Ok((vs, rest)) => Ok((elems + vs, rest))
  }

  lemma PrependNone(r: Result<(Instr, string), WireError>)
    ensures Prepend([], r) == r
  {
    if r.Ok? {
      assert [] + r.value.0 == r.value.0;
    }
  }

  /** What an element already read means for the rest of the instruction. */
  lemma ReadStep(elems: Instr, s: string)
    ensures match ParseElem(s)
      case Err(e) => Prepend(elems, ParseInstr(s)) == Err(e)
      case Ok((v, sep, after)) =>
        Prepend(elems, ParseInstr(s)) ==
          if sep == ';' then Ok((elems + [v], after))
          else if sep != ',' then Err(BadSeparator)
          else Prepend(elems + [v], ParseInstr(after))
  {
    var e := ParseElem(s);
    if e.Ok? && e.value.1 == ',' && ParseInstr(e.value.2).Ok? {
      var v, vs := e.value.0, ParseInstr(e.value.2).value.0;
      assert elems + ([v] + vs) == (elems + [v]) + vs;
    }
  }

  lemma {:induction false} EncodeAllAppend(a: seq<Instr>, b: seq<Instr>)
    requires AllNonempty(a) && AllNonempty(b) && AllNonempty(a + b)
    ensures EncodeAll(a + b) == EncodeAll(a) + EncodeAll(b)
  {
    if |a| == 0 {
      assert a + b == b;
    } else {
      EncodeAllAppend(a[1..], b);
      assert (a + b)[1..] == a[1..] + b;
      Regroup(Encode(a[0][0], a[0][1..]), EncodeAll(a[1..]), EncodeAll(b));
    }
  }

  lemma EncodeOne(op: string, rest: seq<string>)
    ensures AllNonempty([[op] + rest]) && EncodeAll([[op] + rest]) == Encode(op, rest)
  {
    var es := [op] + rest;
    assert es[1..] == rest;
    assert EncodeAll([]) == "";
  }

  /** One more instruction behind a stream. */
  lemma EncodeMore(sent: seq<Instr>, op: string, rest: seq<string>)
    requires AllNonempty(sent)
    ensures AllNonempty(sent + [[op] + rest])
    ensures EncodeAll(sent + [[op] + rest]) == EncodeAll(sent) + Encode(op, rest)
  {
    EncodeOne(op, rest);
    EncodeAllAppend(sent, [[op] + rest]);
  }

  class Conn {
    const up: nat -> bool
    var writes: nat
    var input: string
    var output: string

    constructor (up: nat -> bool, input: string)
      ensures this.up == up && writes == 0 && this.input == input && output == ""
    {
      this.up := up;
      this.input := input;
      writes, output := 0, "";
    }

    /** The next n writes to the socket succeed. */
    ghost predicate AllUp(from: nat, n: nat) {
      forall i :: from <= i < from + n ==> up(i)
    }

    lemma AllUpSplit(from: nat)
      ensures AllUp(from, 5) <==> up(from) && AllUp(from + 1, 4)
      ensures AllUp(from, 6) <==> AllUp(from, 5) && up(from + 5)
    {
      assert up(from) && AllUp(from + 1, 4) ==> AllUp(from, 5);
    }

    lemma AllUpFour(from: nat)
      ensures AllUp(from, 4) <==> up(from) && up(from + 1) && up(from + 2) && up(from + 3)
    {
      assert up(from) && up(from + 1) && up(from + 2) && up(from + 3) ==> AllUp(from, 4);
    }

    /** Dial: connects, fills in the defaults and performs the handshake; a connection whose
        handshake fails is not handed out. */
    static method Dial(dials: bool, up: nat -> bool, input: string, p: Params) returns (r: Result<Conn, WireError>)
      ensures r.Ok? <==> dials && (forall i :: 0 <= i < 6 ==> up(i)) && Cooperates(OPCODES, input)
      ensures r.Ok? ==>
        && fresh(r.value) && r.value.input == Remainder(OPCODES, input)
        && r.value.output == EncodeAll(Sent(OPCODES, p.WithDefaults(), Announced(OPCODES, input)))
    {
      if !dials {
        return Err(NoConnection);
      }
      var c := new Conn(up, input);
      var shaken := c.Handshake(p.WithDefaults());
      assert c.AllUp(0, 6) <==> forall i :: 0 <= i < 6 ==> up(i);
      if shaken.Err? {
        return Err(shaken.error);
      }
      return Ok(c);
    }

    /** writeInstr2: one write to the socket, which may fail. */
    method WriteInstr2(op: string, rest: seq<string>) returns (ok: bool)
      modifies `writes, `output
      ensures ok == up(old(writes)) && writes == old(writes) + 1
      ensures output == if ok then old(output) + Encode(op, rest) else old(output)
    {
      var text := WriteInstr(op, rest);
      ok := up(writes);
      writes := writes + 1;
      if ok {
        output := output + text;
      }
    }

    /** readUntil: consumes the delimiter; at the end of the stream everything is consumed. */
    method ReadUntil(delim: char) returns (text: Option<string>)
      modifies `input
      ensures match Cut(old(input), delim)
        case None => text == None && input == ""
        case Some((before, after)) => text == Some(before) && input == after
    {
      var cut := Cut(input, delim);
      if cut.None? {
        input := "";
        return None;
      }
      input := cut.value.1;
      return Some(cut.value.0);
    }

    /** readRunes: n code points one by one; none at all for n <= 0. */
    method ReadRunes(n: int) returns (text: Option<string>)
      modifies `input
      ensures var k := if n < 0 then 0 else n;
        if k <= |old(input)| then text == Some(old(input)[..k]) && input == old(input)[k..] else text == None
    {
      var sb := "";
      var i := 0;
      ghost var before := input;
      while i < n
        invariant 0 <= i <= |before| && (i <= n || (n < 0 && i == 0))
        invariant sb == before[..i] && input == before[i..]
      {
        if |input| == 0 {
          return None;
        }
        sb := sb + [input[0]];
        input := input[1..];
        i := i + 1;
      }
      return Some(sb);
    }

    /** One round of readInstr's loop. */
    method ReadElem() returns (r: Result<(string, char), WireError>)
      modifies `input
      ensures match ParseElem(old(input))
        case Err(e) => r == Err(e)
        case Ok((v, sep, after)) => r == Ok((v, sep)) && input == after
    {
      CutShortens(input, '.');
      var lenText := ReadUntil('.');
      if lenText.None? {
        return Err(EndOfStream);
      }
      var n := Atoi(TrimSpace(lenText.value));
      if n.None? {
        return Err(BadLength(lenText.value));
      }
      var val := ReadRunes(n.value);
      if val.None? {
        return Err(EndOfStream);
      }
      if |input| == 0 {
        return Err(EndOfStream);
      }
      var sep := input[0];
      input := input[1..];
      return Ok((val.value, sep));
    }

    /** readInstr. */
    method ReadInstr() returns (r: Result<Instr, WireError>)
      modifies `input
      ensures match ParseInstr(old(input))
        case Err(e) => r == Err(e)
        case Ok((elems, rest)) => r == Ok(elems) && input == rest
    {
      var elems: Instr := [];
      PrependNone(ParseInstr(input));
      while true
        invariant ParseInstr(old(input)) == Prepend(elems, ParseInstr(input))
        decreases |input|
      {
        ReadStep(elems, input);
        var one := ReadElem();
        if one.Err? {
          return Err(one.error);
        }
        elems := elems + [one.value.0];
        if one.value.1 == ';' {
          return Ok(elems);
        }
        if one.value.1 != ',' {
          return Err(BadSeparator);
        }
      }
    }

    /** An instruction of a given opcode. */
    method Expect(op: string) returns (r: Result<Instr, WireError>)
      modifies `input
      ensures r.Ok? <==> Opens(old(input), op)
      ensures r.Ok? ==> ParseInstr(old(input)) == Ok((r.value, input))
    {
      var got := ReadInstr();
      if got.Err? {
        return Err(got.error);
      }
      if got.value[0] != op {
        return Err(UnexpectedOpcode(got.value[0]));
      }
      return got;
    }

    /** Two instructions in a row, the second without arguments. */
    method SendTwo(op: string, rest: seq<string>, second: string) returns (ok: bool)
      modifies `writes, `output
      ensures ok <==> up(old(writes)) && up(old(writes) + 1)
      ensures ok ==> writes == old(writes) + 2 && output == old(output) + Encode(op, rest) + Encode(second, [])
    {
      ok := WriteInstr2(op, rest);
      if !ok {
        return;
      }
      ok := WriteInstr2(second, []);
    }

    /** The size, audio, video and image instructions. */
    method SendDisplay(w: Opcodes, p: Params) returns (ok: bool)
      modifies `writes, `output
      ensures ok <==> AllUp(old(writes), 4)
      ensures ok ==> writes == old(writes) + 4 && output == old(output) + EncodeAll(Display(w, p))
    {
      ghost var before := output;
      AllUpFour(writes);
      ok := SendTwo(w.size, [Itoa(p.width), Itoa(p.height), Itoa(p.dpi)], w.audio);
      if !ok {
        return;
      }
      ok := SendTwo(w.video, [], w.image);
      if ok {
        FourInstrs(w, p, before);
      }
    }

    /** Up to guacd's args instruction and the display settings sent in reply. */
    method Propose(w: Opcodes, p: Params) returns (r: Result<Instr, WireError>)
      modifies this
      ensures r.Ok? <==> AllUp(old(writes), 5) && Opens(old(input), w.args)
      ensures r.Ok? ==>
        && writes == old(writes) + 5
        && ParseInstr(old(input)) == Ok((r.value, input))
        && output == old(output) + Encode(w.select, [p.protocol]) + EncodeAll(Display(w, p))
    {
      AllUpSplit(writes);
      var ok := WriteInstr2(w.select, [p.protocol]);
      if !ok {
        return Err(WriteFailed);
      }
      r := Expect(w.args);
      if r.Err? {
        return;
      }
      ok := SendDisplay(w, p);
      if !ok {
        return Err(WriteFailed);
      }
    }

    /** From the connect instruction on. */
    method Connect(w: Opcodes, p: Params, names: seq<string>) returns (r: Result<(), WireError>)
      modifies this
      ensures r.Ok? <==> up(old(writes)) && Opens(old(input), w.ready)
      ensures r.Ok? ==>
        && input == ParseInstr(old(input)).value.1
        && output == old(output) + Encode(w.connect, Answers(p, names))
    {
      var values := BuildAnswers(p, names);
      var ok := WriteInstr2(w.connect, values);
      if !ok {
        return Err(WriteFailed);
      }
      var ready := Expect(w.ready);
      if ready.Err? {
        return Err(ready.error);
      }
      return Ok(());
    }

    /** The handshake in terms of its opcodes: it succeeds exactly when all six writes
        do and guacd cooperates; then exactly the six instructions were sent, the last
        one answering every announced name, and exactly guacd's two answers were
        consumed. */
    method Converse(w: Opcodes, p: Params) returns (r: Result<(), WireError>)
      modifies this
      ensures r.Ok? <==> AllUp(old(writes), 6) && Cooperates(w, old(input))
      ensures r.Ok? ==>
        && input == Remainder(w, old(input))
        && output == old(output) + EncodeAll(Sent(w, p, Announced(w, old(input))))
    {
      ghost var first, received, before := writes, input, output;
      AllUpSplit(first);
      var args := Propose(w, p);
      if args.Err? {
        return Err(args.error);
      }
      assert AllUp(first, 6) <==> up(writes);
      assert Cooperates(w, received) <==> Opens(input, w.ready);
      SixInstrs(w, p, args.value[1..], before);
      r := Connect(w, p, args.value[1..]);
    }

    /** handshake. */
    method Handshake(p: Params) returns (r: Result<(), WireError>)
      modifies this
      ensures r.Ok? <==> AllUp(old(writes), 6) && Cooperates(OPCODES, old(input))
      ensures r.Ok? ==>
        && input == Remainder(OPCODES, old(input))
        && output == old(output) + EncodeAll(Sent(OPCODES, p, Announced(OPCODES, old(input))))
    {
      r := Converse(OPCODES, p);
    }
  }

  method BuildAnswers(p: Params, names: seq<string>) returns (values: seq<string>)
    ensures values == Answers(p, names)
  {
    values := [];
    ghost var all := Answers(p, names);
    for i := 0 to |names|
      invariant values == all[..i]
    {
      assert all[..i + 1] == all[..i] + [all[i]];
      if IsVersion(names[i]) {
        values := values + [names[i]];
        continue;
      }
      values := values + [p.Value(names[i])];
    }
  }

  // ----- the words and values of the handshake -----

  /** The instructions sent, spelled out. */
  lemma SentSpelled(p: Params, names: seq<string>)
    ensures Sent(OPCODES, p, names) == [
      ["select", p.protocol],
      ["size", Itoa(p.width), Itoa(p.height), Itoa(p.dpi)],
      ["audio"],
      ["video"],
      ["image"],
      ["connect"] + Answers(p, names)]
  {}

  /** guacd must answer with args and then with ready. */
  lemma CooperatesSpelled(input: string)
    ensures Cooperates(OPCODES, input) <==>
      ParseInstr(input).Ok? && ParseInstr(input).value.0[0] == "args" &&
      ParseInstr(ParseInstr(input).value.1).Ok? && ParseInstr(ParseInstr(input).value.1).value.0[0] == "ready"
  {}

  /** A size or resolution asked for is kept, a missing one is 1024 by 768 at 96 dpi; nothing
      else changes. */
  lemma MissingSizes(p: Params)
    ensures
      var q := p.WithDefaults();
      q == p.(width := q.width, height := q.height, dpi := q.dpi) &&
      q.width == (if p.width != 0 then p.width else 1024) &&
      q.height == (if p.height != 0 then p.height else 768) && q.dpi == (if p.dpi != 0 then p.dpi else 96)
  {}

  /** A name that begins with VERSION_ is answered with itself, any other with its value. */
  lemma AnswersSpelled(p: Params, el: string)
    ensures AnswerFor(p, el) == if "VERSION_" <= el then el else p.Value(el)
  {
    assert "VERSION_" <= el <==> |el| >= 8 && el[..8] == "VERSION_";
  }

  /** The connection's own fields. */
  function Fields(p: Params): map<string, string> {
    map["hostname" := p.hostname, "port" := Itoa(p.port), "username" := p.username, "password" := p.password,
        "width" := Itoa(p.width), "height" := Itoa(p.height), "dpi" := Itoa(p.dpi)]
  }

  /** What the protocol and the client fix. */
  function Fixed(p: Params): map<string, string> {
    map["resize-method" := "display-update"] +
    if p.protocol == "rdp" then map["security" := "any", "ignore-cert" := "true", "disable-auth" := "true"] else map[]
  }

  lemma FieldValue(p: Params, arg: string)
    ensures arg in Fields(p) ==> p.Value(arg) == Fields(p)[arg]
  {}

  lemma FixedValue(p: Params, arg: string)
    requires arg !in Fields(p)
    ensures p.Value(arg) ==
      if arg in Fixed(p) then Fixed(p)[arg] else if arg in p.extra then p.extra[arg] else ""
  {}

  /** A parameter's value comes from the connection's fields, then from what is fixed, then
      from the caller's extras, so no extra overrides either; otherwise it is empty. */
  lemma ValueByTable(p: Params, arg: string)
    ensures
      var table := p.extra + Fixed(p) + Fields(p);
      p.Value(arg) == if arg in table then table[arg] else ""
  {
    FieldValue(p, arg);
    if arg !in Fields(p) {
      FixedValue(p, arg);
    }
  }

  lemma FourInstrs(w: Opcodes, p: Params, before: string)
    ensures
      before + Encode(w.size, [Itoa(p.width), Itoa(p.height), Itoa(p.dpi)]) + Encode(w.audio, [])
        + Encode(w.video, []) + Encode(w.image, [])
      == before + EncodeAll(Display(w, p))
  {
    var size := [Itoa(p.width), Itoa(p.height), Itoa(p.dpi)];
    EncodeOne(w.size, size);
    var s := [[w.size] + size];
    OneMore(before, s, w.audio, []);
    OneMore(before, s + [[w.audio] + []], w.video, []);
    OneMore(before, s + [[w.audio] + []] + [[w.video] + []], w.image, []);
    InARow([w.size] + size, [w.audio], [w.video], [w.image]);
    assert [w.size] + size == Display(w, p)[0];
  }

  lemma InARow(a: Instr, b: Instr, c: Instr, d: Instr)
    ensures [a] + [b + []] + [c + []] + [d + []] == [a, b, c, d]
  {
    assert b + [] == b && c + [] == c && d + [] == d;
  }

  lemma OneMore(before: string, sent: seq<Instr>, op: string, rest: seq<string>)
    requires AllNonempty(sent)
    ensures AllNonempty(sent + [[op] + rest])
    ensures before + EncodeAll(sent) + Encode(op, rest) == before + EncodeAll(sent + [[op] + rest])
  {
    EncodeMore(sent, op, rest);
    Regroup(before, EncodeAll(sent), Encode(op, rest));
  }

  lemma SixInstrs(w: Opcodes, p: Params, names: seq<string>, before: string)
    ensures before + Encode(w.select, [p.protocol]) + EncodeAll(Display(w, p)) + Encode(w.connect, Answers(p, names))
      == before + EncodeAll(Sent(w, p, names))
  {
    Around(w.select, [p.protocol], Display(w, p), w.connect, Answers(p, names), before);
    assert [w.select] + [p.protocol] == [w.select, p.protocol];
  }

  lemma Around(op: string, rest: seq<string>, d: seq<Instr>, op': string, rest': seq<string>, before: string)
    requires AllNonempty(d)
    ensures AllNonempty([[op] + rest] + (d + [[op'] + rest']))
    ensures before + Encode(op, rest) + EncodeAll(d) + Encode(op', rest')
      == before + EncodeAll([[op] + rest] + (d + [[op'] + rest']))
  {
    EncodeOne(op, rest);
    EncodeMore(d, op', rest');
    EncodeAllAppend([[op] + rest], d + [[op'] + rest']);
    Regroup4(before, Encode(op, rest), EncodeAll(d), Encode(op', rest'));
  }

  lemma Regroup4(a: string, b: string, c: string, d: string)
    ensures a + b + c + d == a + (b + (c + d))
  {}

  /** Against a guacd that answers with any args and any ready instruction, followed
      by anything at all, the handshake sees exactly the announced names and leaves
      exactly what follows for the tunnel. */
  lemma HandshakeLeavesTheTunnel(w: Opcodes, names: seq<string>, more: seq<string>, tail: string)
    requires Sendable([w.args] + names) && Sendable([w.ready] + more)
    ensures
      var input := Encode(w.args, names) + (Encode(w.ready, more) + tail);
      Cooperates(w, input) && Announced(w, input) == names && Remainder(w, input) == tail
  {
    var args, ready := [w.args] + names, [w.ready] + more;
    assert args[1..] == names && ready[1..] == more;
    InstrRoundTrip(ready, tail);
    InstrRoundTrip(args, Encode(w.ready, more) + tail);
  }

  lemma SixSent(w: Opcodes, p: Params, names: seq<string>)
    ensures |Sent(w, p, names)| == 6 && Sent(w, p, names)[5] == [w.connect] + Answers(p, names)
  {}

  lemma ConnectAnswers(op: string, p: Params, names: seq<string>)
    ensures
      var connect := [op] + Answers(p, names);
      |connect| == |names| + 1 && connect[0] == op &&
      forall i :: 0 <= i < |names| ==> connect[i + 1] == AnswerFor(p, names[i])
  {}

  /** guacd reads back the six instructions, the connect instruction holding one answer
      for each name it announced, in its own order; what the tunnel sends next follows. */
  lemma GuacdReadsTheAnswers(w: Opcodes, p: Params, names: seq<string>, tail: string)
    requires AllSendable(Sent(w, p, names))
    ensures
      var read := ParseMany(EncodeAll(Sent(w, p, names)) + tail, 6);
      read.Ok? && read.value.1 == tail && |read.value.0| == 6 &&
      var connect := read.value.0[5];
      |connect| == |names| + 1 && connect[0] == w.connect &&
      forall i :: 0 <= i < |names| ==> connect[i + 1] == AnswerFor(p, names[i])
  {
    var sent := Sent(w, p, names);
    SixSent(w, p, names);
    ConnectAnswers(w.connect, p, names);
    StreamRoundTrip(sent, tail);
  }
}

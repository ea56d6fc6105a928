/** What `parseOBJ` does to whole tokens, fields and lines, proved from the
    per-character specification `Run` of module ObjParse. */
module ObjParseFacts {
  import opened ObjParse

  // ---------------------------------------------------------------------------
  // parseInt on decimal strings

  /** The decimal spelling of `n`, most significant digit first. */
  function Decimal(n: nat): (s: string)
    ensures s != [] && AllDigits(s)
  {
    if n < 10 then [('0' as int + n) as char] else Decimal(n / 10) + [('0' as int + n % 10) as char]
  }

  lemma {:induction false} DecimalValue(n: nat)
    ensures DigitsValue(Decimal(n)) == n
  {
    if n >= 10 {
      var s := Decimal(n);
      assert s[..|s| - 1] == Decimal(n / 10);
      DecimalValue(n / 10);
    }
  }

  lemma {:induction false} DigitPrefixStops(d: string, s: string)
    requires AllDigits(d)
    requires s == [] || !IsDigit(s[0])
    ensures DigitPrefix(d + s) == d
  {
    if d == [] {
      assert d + s == s;
    } else {
      assert (d + s)[0] == d[0] && (d + s)[1..] == d[1..] + s;
      DigitPrefixStops(d[1..], s);
    }
  }

  /** `parseInt` reads back the decimal spelling of a natural number, whatever
      non-digit text (a carriage return, a `/`) follows it. */
  lemma ParseIntDecimal(n: nat, s: string)
    requires s == [] || !IsDigit(s[0])
    ensures ParseInt(Decimal(n) + s) == Int(n)
  {
    var d := Decimal(n);
    var t := d + s;
    DigitPrefixStops(d, s);
    DecimalValue(n);
    assert t[0] == d[0];
    DigitNeitherSpaceNorSign(t[0]);
    assert TrimStart(t) == t;
  }

  lemma DigitNeitherSpaceNorSign(c: char)
    requires IsDigit(c)
    ensures !IsJsWhiteSpace(c) && c != '-' && c != '+'
  {
  }

  // ---------------------------------------------------------------------------
  // Tokens and fields

  /** A character the loop appends to the pending token (the `default` case). */
  predicate Plain(c: char) {
    c != '\n' && c != '#' && c != 'g' && c != 'v' && c != 'f' && c != 't' && c != ' '
  }

  predicate PlainToken(t: string) {
    t != [] && forall i :: 0 <= i < |t| ==> Plain(t[i])
  }

  predicate PlainTokens(ts: seq<string>) {
    forall j :: 0 <= j < |ts| ==> PlainToken(ts[j])
  }

  /** The fields of a line, each preceded by one space. */
  function Fields(ts: seq<string>): string {
    if ts == [] then [] else [' '] + ts[0] + Fields(ts[1..])
  }

  /** The first field of the text, split off. */
  lemma FieldsCons(ts: seq<string>, rest: string)
    requires ts != []
    ensures Fields(ts) + rest == [' '] + (ts[0] + (Fields(ts[1..]) + rest))
  {
    assert Fields(ts) == [' '] + ts[0] + Fields(ts[1..]);
  }

  /** The values `f` makes of the tokens, in order. */
  function Values<T>(f: string -> T, ts: seq<string>): seq<T> {
    if ts == [] then [] else [f(ts[0])] + Values(f, ts[1..])
  }

  /** Pushing several tokens of one line type, in order. */
  function EmitAll(out: Output, lt: LineType, ts: seq<string>, pf: string -> real): Output {
    match lt
    case VertexLine => out.(vertices := out.vertices + Values(pf, ts))
    case FaceLine => out.(indices := out.indices + Values(FaceIndex, ts))
    case TexCoordLine => out.(texCoords := out.texCoords + Values(pf, ts))
    case NotSet => out
  }

  lemma {:induction false} ValuesCons<T>(f: string -> T, t: string, ts: seq<string>)
    ensures Values(f, [t] + ts) == [f(t)] + Values(f, ts)
  {
    var ts' := [t] + ts;
    assert ts'[0] == t && ts'[1..] == ts;
  }

  lemma EmitThenAll(out: Output, lt: LineType, t: string, ts: seq<string>, pf: string -> real)
    ensures EmitAll(Emit(out, lt, t, pf), lt, ts, pf) == EmitAll(out, lt, [t] + ts, pf)
  {
    match lt
    case VertexLine =>
      ValuesCons(pf, t, ts);
      assert out.vertices + [pf(t)] + Values(pf, ts) == out.vertices + ([pf(t)] + Values(pf, ts));
    case FaceLine =>
      ValuesCons(FaceIndex, t, ts);
      var i := FaceIndex(t);
      assert out.indices + [i] + Values(FaceIndex, ts) == out.indices + ([i] + Values(FaceIndex, ts));
    case TexCoordLine =>
      ValuesCons(pf, t, ts);
      assert out.texCoords + [pf(t)] + Values(pf, ts) == out.texCoords + ([pf(t)] + Values(pf, ts));
    case NotSet =>
  }

  lemma {:induction false} ValuesAppend<T>(f: string -> T, a: seq<string>, b: seq<string>)
    ensures Values(f, a + b) == Values(f, a) + Values(f, b)
  {
    if a == [] {
      assert a + b == b;
    } else {
      var a' := a[1..];
      assert (a + b)[0] == a[0] && (a + b)[1..] == a' + b;
      ValuesAppend(f, a', b);
      assert [f(a[0])] + (Values(f, a') + Values(f, b)) == [f(a[0])] + Values(f, a') + Values(f, b);
    }
  }

  /** Pushing the tokens of `a` and then those of `b` is pushing those of `a + b`. */
  lemma EmitAllAppend(out: Output, lt: LineType, a: seq<string>, b: seq<string>, pf: string -> real)
    ensures EmitAll(EmitAll(out, lt, a, pf), lt, b, pf) == EmitAll(out, lt, a + b, pf)
  {
    match lt
    case VertexLine =>
      ValuesAppend(pf, a, b);
      AppendAssoc(out.vertices, Values(pf, a), Values(pf, b));
    case FaceLine =>
      ValuesAppend(FaceIndex, a, b);
      AppendAssoc(out.indices, Values(FaceIndex, a), Values(FaceIndex, b));
    case TexCoordLine =>
      ValuesAppend(pf, a, b);
      AppendAssoc(out.texCoords, Values(pf, a), Values(pf, b));
    case NotSet =>
  }

  lemma AppendAssoc<T>(x: seq<T>, y: seq<T>, z: seq<T>)
    ensures x + y + z == x + (y + z)
  {
  }

  /** Pushing no token changes nothing; pushing one is `Emit`. */
  lemma EmitAllShort(out: Output, lt: LineType, t: string, pf: string -> real)
    ensures EmitAll(out, lt, [], pf) == out
    ensures EmitAll(out, lt, [t], pf) == Emit(out, lt, t, pf)
  {
    assert Values(pf, []) == [] && Values(FaceIndex, []) == [];
    ValuesCons(pf, t, []);
    ValuesCons(FaceIndex, t, []);
    assert [t] + [] == [t];
    match lt
    case VertexLine =>
      assert out.vertices + [] == out.vertices;
    case FaceLine =>
      assert out.indices + [] == out.indices;
    case TexCoordLine =>
      assert out.texCoords + [] == out.texCoords;
    case NotSet =>
  }

  /** A run of plain characters only grows the pending token. */
  lemma {:induction false} RunToken(t: string, rest: string, sc: Scanner, out: Output, pf: string -> real)
    requires !sc.commentLine
    requires forall i :: 0 <= i < |t| ==> Plain(t[i])
    ensures Run(t + rest, sc, out, pf) == Run(rest, sc.(curNum := sc.curNum + t), out, pf)
  {
    if t == [] {
      assert t + rest == rest && sc.curNum + t == sc.curNum;
    } else {
      assert (t + rest)[0] == t[0] && (t + rest)[1..] == t[1..] + rest;
      var sc1 := sc.(curNum := sc.curNum + [t[0]]);
      RunToken(t[1..], rest, sc1, out, pf);
      assert sc1.curNum + t[1..] == sc.curNum + t;
    }
  }

  function Last(ts: seq<string>): string
    requires ts != []
  {
    ts[|ts| - 1]
  }

  /** A space after the first counted one pushes the pending token; it is
      counted itself when a non-space follows. */
  lemma SpaceFlush(rest: string, sc: Scanner, out: Output, pf: string -> real)
    requires !sc.commentLine && sc.spaces > 0
    requires rest != [] && rest[0] != ' '
    ensures Run([' '] + rest, sc, out, pf)
         == Run(rest, sc.(elementsLeft := sc.elementsLeft - 1, curNum := [], spaces := sc.spaces + 1),
                Emit(out, sc.lineType, sc.curNum, pf), pf)
  {
    RunCons(' ', rest, sc, out, pf);
  }

  lemma ScannerAfterFields(ts: seq<string>, sc: Scanner, sc3: Scanner)
    requires ts != []
    requires sc3 == sc.(elementsLeft := sc.elementsLeft - 1 - |ts[1..]|,
                        curNum := if ts[1..] == [] then ts[0] else Last(ts[1..]),
                        spaces := sc.spaces + 1 + |ts[1..]|)
    ensures sc3 == sc.(spaces := sc.spaces + |ts|, curNum := Last(ts), elementsLeft := sc.elementsLeft - |ts|)
  {
  }

  lemma PushedPrefix(c: string, ts: seq<string>)
    requires ts != []
    ensures ([ts[0]] + ts[1..])[..|ts[1..]|] == ts[..|ts| - 1]
    ensures [c] + ts[..|ts| - 1] == ([c] + ts)[..|ts|]
  {
    assert [ts[0]] + ts[1..] == ts;
  }

  /** Once the first separator of a line has been counted, each further
      " token" pushes the token before it and counts one element down. */
  lemma {:induction false} RunFields(ts: seq<string>, rest: string, sc: Scanner, out: Output, pf: string -> real)
    requires !sc.commentLine && sc.spaces > 0 && PlainTokens(ts)
    ensures Run(Fields(ts) + rest, sc, out, pf)
         == Run(rest,
                sc.(spaces := sc.spaces + |ts|,
                    curNum := if ts == [] then sc.curNum else Last(ts),
                    elementsLeft := sc.elementsLeft - |ts|),
                EmitAll(out, sc.lineType, ([sc.curNum] + ts)[..|ts|], pf), pf)
  {
    if ts == [] {
      NoFields(rest, sc, out, pf);
    } else {
      var ts' := ts[1..];
      var tail := Fields(ts') + rest;
      var out1 := Emit(out, sc.lineType, sc.curNum, pf);
      var sc2 := sc.(elementsLeft := sc.elementsLeft - 1, curNum := ts[0], spaces := sc.spaces + 1);
      var pushed := ts[..|ts| - 1];
      var sc3 := sc2.(spaces := sc2.spaces + |ts'|,
                      curNum := if ts' == [] then sc2.curNum else Last(ts'),
                      elementsLeft := sc2.elementsLeft - |ts'|);
      assert PlainToken(ts[0]) && PlainTokens(ts');
      calc {
        Run(Fields(ts) + rest, sc, out, pf);
        { FirstField(ts, rest, sc, out, pf); }
        Run(tail, sc2, out1, pf);
        { RunFields(ts', rest, sc2, out1, pf);
          PushedPrefix(sc.curNum, ts); }
        Run(rest, sc3, EmitAll(out1, sc.lineType, pushed, pf), pf);
        { FieldsBookkeeping(ts, sc, sc2, out, pf);
          assert sc3 == sc.(spaces := sc.spaces + |ts|, curNum := Last(ts), elementsLeft := sc.elementsLeft - |ts|);
          assert EmitAll(out1, sc.lineType, pushed, pf) == EmitAll(out, sc.lineType, ([sc.curNum] + ts)[..|ts|], pf); }
        Run(rest, sc.(spaces := sc.spaces + |ts|, curNum := Last(ts), elementsLeft := sc.elementsLeft - |ts|),
            EmitAll(out, sc.lineType, ([sc.curNum] + ts)[..|ts|], pf), pf);
      }
    }
  }

  /** The first " token" of the fields. */
  lemma FirstField(ts: seq<string>, rest: string, sc: Scanner, out: Output, pf: string -> real)
    requires !sc.commentLine && sc.spaces > 0 && ts != [] && PlainToken(ts[0])
    ensures Run(Fields(ts) + rest, sc, out, pf)
         == Run(Fields(ts[1..]) + rest, sc.(elementsLeft := sc.elementsLeft - 1, curNum := ts[0], spaces := sc.spaces + 1),
                Emit(out, sc.lineType, sc.curNum, pf), pf)
  {
    var tail := Fields(ts[1..]) + rest;
    FieldsCons(ts, rest);
    SpaceThenToken(ts[0], tail, sc, out, pf);
  }

  /** One " token" after the first separator: the space pushes the pending
      token and the token becomes the new pending one. */
  lemma SpaceThenToken(t: string, tail: string, sc: Scanner, out: Output, pf: string -> real)
    requires !sc.commentLine && sc.spaces > 0 && PlainToken(t)
    ensures Run([' '] + (t + tail), sc, out, pf)
         == Run(tail, sc.(elementsLeft := sc.elementsLeft - 1, curNum := t, spaces := sc.spaces + 1),
                Emit(out, sc.lineType, sc.curNum, pf), pf)
  {
    var sc1 := sc.(elementsLeft := sc.elementsLeft - 1, curNum := [], spaces := sc.spaces + 1);
    var out1 := Emit(out, sc.lineType, sc.curNum, pf);
    assert (t + tail)[0] == t[0];
    SpaceFlush(t + tail, sc, out, pf);
    RunToken(t, tail, sc1, out1, pf);
    assert sc1.(curNum := sc1.curNum + t) == sc1.(curNum := t);
  }

  /** The scanner and the arrays after the first token and the rest of the
      fields agree with the statement of RunFields for all the fields. */
  lemma FieldsBookkeeping(ts: seq<string>, sc: Scanner, sc2: Scanner, out: Output, pf: string -> real)
    requires ts != []
    requires sc2 == sc.(elementsLeft := sc.elementsLeft - 1, curNum := ts[0], spaces := sc.spaces + 1)
    ensures sc2.(spaces := sc2.spaces + |ts[1..]|,
                 curNum := if ts[1..] == [] then sc2.curNum else Last(ts[1..]),
                 elementsLeft := sc2.elementsLeft - |ts[1..]|)
         == sc.(spaces := sc.spaces + |ts|, curNum := Last(ts), elementsLeft := sc.elementsLeft - |ts|)
    ensures EmitAll(Emit(out, sc.lineType, sc.curNum, pf), sc.lineType, ts[..|ts| - 1], pf)
         == EmitAll(out, sc.lineType, ([sc.curNum] + ts)[..|ts|], pf)
  {
    ScannerAfterFields(ts, sc, sc2.(spaces := sc2.spaces + |ts[1..]|,
                 curNum := if ts[1..] == [] then sc2.curNum else Last(ts[1..]),
                 elementsLeft := sc2.elementsLeft - |ts[1..]|));
    EmitThenAll(out, sc.lineType, sc.curNum, ts[..|ts| - 1], pf);
    PushedPrefix(sc.curNum, ts);
  }

  lemma NoFields(rest: string, sc: Scanner, out: Output, pf: string -> real)
    ensures Fields([]) + rest == rest
    ensures sc.(spaces := sc.spaces + 0, curNum := sc.curNum, elementsLeft := sc.elementsLeft - 0) == sc
    ensures EmitAll(out, sc.lineType, ([sc.curNum] + [])[..0], pf) == out
  {
    assert ([sc.curNum] + [])[..0] == [];
    EmitAllShort(out, sc.lineType, sc.curNum, pf);
  }

  // ---------------------------------------------------------------------------
  // Spaces

  function Spaces(m: nat): string {
    if m == 0 then [] else [' '] + Spaces(m - 1)
  }

  /** A run of spaces before the first field of a line counts as one separator
      and pushes nothing. */
  lemma {:induction false} LeadingSpacesCollapse(m: nat, rest: string, sc: Scanner, out: Output, pf: string -> real)
    requires m > 0 && !sc.commentLine && sc.spaces == 0
    requires rest != [] && rest[0] != ' '
    ensures Run(Spaces(m) + rest, sc, out, pf) == Run(rest, sc.(spaces := 1), out, pf)
  {
    var t := Spaces(m) + rest;
    assert t[0] == ' ' && t[1..] == Spaces(m - 1) + rest;
    if m == 1 {
      assert Spaces(0) + rest == rest;
    } else {
      assert t[1] == ' ';
      LeadingSpacesCollapse(m - 1, rest, sc, out, pf);
    }
  }

  /** Between fields, a second space pushes the empty pending token as one
      more value and counts one more element down. */
  lemma DoubleSpace(rest: string, sc: Scanner, out: Output, pf: string -> real)
    requires !sc.commentLine && sc.spaces > 0
    requires rest != [] && rest[0] != ' '
    ensures Run([' ', ' '] + rest, sc, out, pf)
         == Run(rest, sc.(elementsLeft := sc.elementsLeft - 2, curNum := [], spaces := sc.spaces + 1),
                Emit(Emit(out, sc.lineType, sc.curNum, pf), sc.lineType, [], pf), pf)
  {
    var r1 := [' '] + rest;
    var sc1 := sc.(elementsLeft := sc.elementsLeft - 1, curNum := []);
    var out1 := Emit(out, sc.lineType, sc.curNum, pf);
    var sc2 := sc1.(elementsLeft := sc1.elementsLeft - 1, curNum := [], spaces := sc1.spaces + 1);
    calc {
      Run([' ', ' '] + rest, sc, out, pf);
      { assert [' ', ' '] + rest == [' '] + r1; }
      Run([' '] + r1, sc, out, pf);
      { SpaceBeforeSpace(r1, sc, out, pf); }
      Run(r1, sc1, out1, pf);
      { SpaceFlush(rest, sc1, out1, pf); }
      Run(rest, sc2, Emit(out1, sc1.lineType, sc1.curNum, pf), pf);
      { assert sc2 == sc.(elementsLeft := sc.elementsLeft - 2, curNum := [], spaces := sc.spaces + 1);
        assert Emit(out1, sc1.lineType, sc1.curNum, pf) == Emit(out1, sc.lineType, [], pf); }
      Run(rest, sc.(elementsLeft := sc.elementsLeft - 2, curNum := [], spaces := sc.spaces + 1),
          Emit(out1, sc.lineType, [], pf), pf);
    }
  }

  /** A space after the first counted one flushes; it is counted unless a
      space follows. */
  lemma SpaceStep(nextIsSpace: bool, sc: Scanner, out: Output, pf: string -> real)
    requires !sc.commentLine && sc.spaces > 0
    ensures StepChar(' ', nextIsSpace, sc, out, pf)
         == Next(sc.(elementsLeft := sc.elementsLeft - 1, curNum := [],
                     spaces := if nextIsSpace then sc.spaces else sc.spaces + 1),
                 Emit(out, sc.lineType, sc.curNum, pf))
  {
  }

  /** A space followed by another one flushes but is not counted. */
  lemma SpaceBeforeSpace(rest: string, sc: Scanner, out: Output, pf: string -> real)
    requires !sc.commentLine && sc.spaces > 0
    requires rest != [] && rest[0] == ' '
    ensures Run([' '] + rest, sc, out, pf)
         == Run(rest, sc.(elementsLeft := sc.elementsLeft - 1, curNum := []), Emit(out, sc.lineType, sc.curNum, pf), pf)
  {
    SpaceStep(true, sc, out, pf);
    RunNext(' ', rest, sc, out, pf, sc.(elementsLeft := sc.elementsLeft - 1, curNum := []), Emit(out, sc.lineType, sc.curNum, pf));
  }

  // ---------------------------------------------------------------------------
  // Comments and groups

  /** Inside a comment every character up to the newline is skipped, unless it
      is a `g` on a line whose type is already set. */
  lemma {:induction false} RunIgnored(text: string, rest: string, sc: Scanner, out: Output, pf: string -> real)
    requires sc.commentLine
    requires forall i :: 0 <= i < |text| ==> text[i] != '\n' && (text[i] == 'g' ==> sc.lineType == NotSet)
    ensures Run(text + rest, sc, out, pf) == Run(rest, sc, out, pf)
  {
    if text == [] {
      assert text + rest == rest;
    } else {
      var tail := text[1..] + rest;
      assert text + rest == [text[0]] + tail;
      IgnoredStep(text[0], tail, sc, out, pf);
      RunIgnored(text[1..], rest, sc, out, pf);
    }
  }

  /** One character of a comment other than a newline or a throwing `g`
      leaves the state as it was. */
  lemma IgnoredStep(c: char, rest: string, sc: Scanner, out: Output, pf: string -> real)
    requires sc.commentLine && c != '\n' && (c == 'g' ==> sc.lineType == NotSet)
    ensures Run([c] + rest, sc, out, pf) == Run(rest, sc, out, pf)
  {
    assert sc.(commentLine := true) == sc;
    RunNext(c, rest, sc, out, pf, sc, out);
  }

  /** A `#` anywhere outside a comment starts one: the rest of the line pushes
      nothing and changes no counter. */
  lemma CommentRest(text: string, rest: string, sc: Scanner, out: Output, pf: string -> real)
    requires forall i :: 0 <= i < |text| ==> text[i] != '\n' && (text[i] == 'g' ==> sc.lineType == NotSet)
    ensures Run("#" + text + rest, sc, out, pf) == Run(rest, sc.(commentLine := true), out, pf)
  {
    var t := "#" + text + rest;
    assert t[0] == '#' && t[1..] == text + rest;
    RunIgnored(text, rest, sc.(commentLine := true), out, pf);
  }

  /** A `g` inside a comment on a line whose type is set still throws. */
  lemma CommentWithGThrows(before: string, after: string, sc: Scanner, out: Output, pf: string -> real)
    requires sc.lineType != NotSet
    requires forall i :: 0 <= i < |before| ==> before[i] != '\n' && before[i] != 'g'
    ensures Run("#" + before + "g" + after, sc, out, pf) == Parsed(out, Err(UnrecognizedLine(sc.lineNum)))
  {
    assert "#" + before + "g" + after == "#" + before + ("g" + after);
    CommentRest(before, "g" + after, sc, out, pf);
    var t := "g" + after;
    assert t[0] == 'g';
  }

  // ---------------------------------------------------------------------------
  // The returned flag

  /** Once set, `hasTexture` stays set: a successful run returns true. */
  lemma {:induction false} HasTextureSticks(rest: string, sc: Scanner, out: Output, pf: string -> real)
    requires sc.hasTexture
    ensures Run(rest, sc, out, pf).result.Ok? ==> Run(rest, sc, out, pf).result.value
    decreases |rest|
  {
    if rest != [] {
      match StepChar(rest[0], |rest| > 1 && rest[1] == ' ', sc, out, pf)
      case Throw(_, _) =>
      case Next(sc', o) =>
        HasTextureSticks(rest[1..], sc', o, pf);
    }
  }

  /** Without a `t` in the text the flag is never set: a successful run
      returns it unchanged. */
  lemma {:induction false} NoTNoTexture(rest: string, sc: Scanner, out: Output, pf: string -> real)
    requires forall i :: 0 <= i < |rest| ==> rest[i] != 't'
    ensures Run(rest, sc, out, pf).result.Ok? ==> Run(rest, sc, out, pf).result.value == sc.hasTexture
    decreases |rest|
  {
    if rest != [] {
      match StepChar(rest[0], |rest| > 1 && rest[1] == ' ', sc, out, pf)
      case Throw(_, _) =>
      case Next(sc', o) =>
        assert sc'.hasTexture == sc.hasTexture;
        NoTNoTexture(rest[1..], sc', o, pf);
    }
  }
}

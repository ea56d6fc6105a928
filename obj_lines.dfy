/** Whole lines of an OBJ file and what `parseOBJ` makes of them: a
    line-by-line reference semantics `RunLines`, proved equal to the
    per-character loop `Run` on every document it describes. */
module ObjLines {
  import opened ObjParse
  import opened ObjParseFacts

  /** The keyword that opens a line of the given type. */
  function Keyword(lt: LineType): string {
    match lt
    case VertexLine => "v"
    case FaceLine => "f"
    case TexCoordLine => "vt"
    case NotSet => ""
  }

  /** The number of fields a line of the given type expects (`lineElementsLeft`). */
  function Capacity(lt: LineType): nat {
    match lt
    case VertexLine => 4
    case FaceLine => 3
    case TexCoordLine => 2
    case NotSet => 0
  }

  /** The scanner right after a newline (or at the start of the text). */
  predicate AtLineStart(sc: Scanner) {
    sc.spaces == 0 && sc.curNum == [] && sc.lineType == NotSet && !sc.commentLine
  }

  /** The scanner once the keyword of a line has been read. */
  function Opened(sc: Scanner, lt: LineType): Scanner {
    sc.(lineType := lt, elementsLeft := Capacity(lt), hasTexture := sc.hasTexture || lt == TexCoordLine)
  }

  /** The scanner at the start of the next line, with the counter `left` carried over. */
  function AfterLine(sc: Scanner, lt: LineType, left: int): Scanner {
    NextLine(Opened(sc, lt), left)
  }

  /** What a `v`, `vt` or `f` line does: it ends with the arrays and the carried
      counter, or it throws. */
  datatype LineOutcome = LineDone(out: Output, left: int) | LineFailed(out: Output, error: ParseError)

  /** Line-level reference semantics of a keyword line with the given fields.
      Spaces push every field but the last; the newline pushes the last only
      while fields are still expected, so on an over-long line the last field
      is dropped. A vertex line one short gets w = 1.0; any other shortfall
      throws, with the face message unless the line is a vertex line. */
  function KeywordLine(lt: LineType, fields: seq<string>, lineNum: nat, out: Output, pf: string -> real): LineOutcome {
    var k := Capacity(lt);
    var taken := if |fields| <= k then fields else fields[..|fields| - 1];
    CloseLine(lt, EmitAll(out, lt, taken, pf), k - |taken|, lineNum)
  }

  /** The end of a keyword line once its fields were pushed, with `left`
      values still missing. */
  function CloseLine(lt: LineType, out1: Output, left: int, lineNum: nat): LineOutcome {
    if left <= 0 then LineDone(out1, left)
    else if lt == VertexLine && left == 1 then LineDone(out1.(vertices := out1.vertices + [1.0]), 1)
    else if lt == VertexLine then LineFailed(out1, VertexLineTooFew(lineNum))
    else LineFailed(out1, FaceLineTooFew(lineNum))
  }

  /** The step a finished keyword line amounts to, from scanner `sc`. */
  function LineStep(r: LineOutcome, sc: Scanner): Step {
    match r
    case LineDone(o, left) => Next(NextLine(sc, left), o)
    case LineFailed(o, e) => Throw(o, e)
  }

  // ---------------------------------------------------------------------------
  // From characters to lines

  lemma RunKeyword(lt: LineType, s: string, sc: Scanner, out: Output, pf: string -> real)
    requires lt != NotSet && AtLineStart(sc)
    ensures Run(Keyword(lt) + s, sc, out, pf) == Run(s, Opened(sc, lt), out, pf)
  {
    var t := Keyword(lt) + s;
    assert t[0] == 'v' || t[0] == 'f';
    if lt == TexCoordLine {
      var s1 := ['t'] + s;
      assert t[1..] == s1 && s1[0] == 't' && s1[1..] == s;
      var sc1 := sc.(lineType := VertexLine, elementsLeft := 4);
      assert Run(t, sc, out, pf) == Run(s1, sc1, out, pf);
    } else {
      assert t[1..] == s;
    }
  }

  lemma RunNewline(rest: string, sc: Scanner, out: Output, pf: string -> real)
    ensures Run(['\n'] + rest, sc, out, pf) == ThenRun(Newline(sc, out, pf), rest, pf)
  {
    var t := ['\n'] + rest;
    assert t[0] == '\n' && t[1..] == rest;
  }

  /** The first space of a line pushes nothing and starts the count. */
  lemma FirstSpace(rest: string, sc: Scanner, out: Output, pf: string -> real)
    requires !sc.commentLine && sc.spaces == 0
    requires rest != [] && rest[0] != ' '
    ensures Run([' '] + rest, sc, out, pf) == Run(rest, sc.(spaces := 1), out, pf)
  {
    var t := [' '] + rest;
    assert t[0] == ' ' && t[1..] == rest && t[1] == rest[0];
  }

  /** The newline that ends a keyword line whose fields but the last were pushed. */
  lemma LastFieldNewline(lt: LineType, fields: seq<string>, sc: Scanner, out: Output, pf: string -> real)
    requires lt != NotSet && fields != [] && PlainTokens(fields)
    requires sc.lineType == lt && !sc.commentLine && sc.curNum == Last(fields)
    requires sc.elementsLeft == Capacity(lt) - (|fields| - 1)
    ensures Newline(sc, EmitAll(out, lt, fields[..|fields| - 1], pf), pf)
         == LineStep(KeywordLine(lt, fields, sc.lineNum, out, pf), sc)
  {
    var n := |fields|;
    var init := fields[..n - 1];
    var out0 := EmitAll(out, lt, init, pf);
    if n <= Capacity(lt) {
      assert |sc.curNum| > 0 by {
        assert PlainToken(fields[n - 1]);
      }
      assert Emit(out0, lt, sc.curNum, pf) == EmitAll(out, lt, fields, pf) by {
        EmitAllShort(out0, lt, Last(fields), pf);
        EmitAllAppend(out, lt, init, [Last(fields)], pf);
        assert init + [Last(fields)] == fields;
      }
      NewlineCloses(sc, out0, pf);
    } else {
      assert sc.elementsLeft <= 0;
      assert Newline(sc, out0, pf) == Next(NextLine(sc, sc.elementsLeft), out0);
    }
  }

  /** The newline after a pending token pushes it and closes the line. */
  lemma NewlineCloses(sc: Scanner, out0: Output, pf: string -> real)
    requires !sc.commentLine && sc.elementsLeft > 0 && |sc.curNum| > 0
    ensures Newline(sc, out0, pf)
         == LineStep(CloseLine(sc.lineType, Emit(out0, sc.lineType, sc.curNum, pf), sc.elementsLeft - 1, sc.lineNum), sc)
  {
  }

  /** A keyword line followed by a newline does what `KeywordLine` says. */
  lemma KeywordLineRun(lt: LineType, fields: seq<string>, rest: string, sc: Scanner, out: Output, pf: string -> real)
    requires lt != NotSet && AtLineStart(sc) && PlainTokens(fields)
    ensures Run(Keyword(lt) + Fields(fields) + "\n" + rest, sc, out, pf)
         == ThenRun(LineStep(KeywordLine(lt, fields, sc.lineNum, out, pf), Opened(sc, lt)), rest, pf)
  {
    var nl := "\n" + rest;
    var s := Fields(fields) + nl;
    assert Keyword(lt) + Fields(fields) + "\n" + rest == Keyword(lt) + s;
    RunKeyword(lt, s, sc, out, pf);
    if fields == [] {
      assert s == nl;
      RunNewline(rest, Opened(sc, lt), out, pf);
      EmitAllShort(out, lt, [], pf);
    } else {
      assert Fields(fields) + "\n" + rest == s;
      FieldsThenNewline(lt, fields, rest, Opened(sc, lt), out, pf);
    }
  }

  lemma FieldsThenNewline(lt: LineType, fields: seq<string>, rest: string, sc0: Scanner, out: Output, pf: string -> real)
    requires lt != NotSet && fields != [] && PlainTokens(fields)
    requires sc0.spaces == 0 && sc0.curNum == [] && sc0.lineType == lt && !sc0.commentLine
    requires sc0.elementsLeft == Capacity(lt)
    ensures Run(Fields(fields) + "\n" + rest, sc0, out, pf)
         == ThenRun(LineStep(KeywordLine(lt, fields, sc0.lineNum, out, pf), sc0), rest, pf)
  {
    var nl := "\n" + rest;
    var sc3 := sc0.(spaces := |fields|, curNum := Last(fields), elementsLeft := Capacity(lt) - (|fields| - 1));
    var out2 := EmitAll(out, lt, fields[..|fields| - 1], pf);
    var r := KeywordLine(lt, fields, sc0.lineNum, out, pf);
    calc {
      Run(Fields(fields) + "\n" + rest, sc0, out, pf);
      { assert Fields(fields) + "\n" + rest == Fields(fields) + nl; }
      Run(Fields(fields) + nl, sc0, out, pf);
      { LineFields(fields, nl, sc0, out, pf); }
      Run(nl, sc3, out2, pf);
      { RunNewline(rest, sc3, out2, pf); }
      ThenRun(Newline(sc3, out2, pf), rest, pf);
      { LastFieldNewline(lt, fields, sc3, out, pf); }
      ThenRun(LineStep(r, sc3), rest, pf);
      { SameLineStep(r, sc3, sc0); }
      ThenRun(LineStep(r, sc0), rest, pf);
    }
  }

  /** A finished line only looks at the line number and the texture flag. */
  lemma SameLineStep(r: LineOutcome, sc: Scanner, sc': Scanner)
    requires sc.lineNum == sc'.lineNum && sc.hasTexture == sc'.hasTexture
    ensures LineStep(r, sc) == LineStep(r, sc')
  {
  }

  /** The fields of a line, read from just after its keyword: every field but
      the last is pushed and the last one is pending. */
  lemma LineFields(fields: seq<string>, nl: string, sc0: Scanner, out: Output, pf: string -> real)
    requires fields != [] && PlainTokens(fields)
    requires sc0.spaces == 0 && sc0.curNum == [] && !sc0.commentLine
    ensures Run(Fields(fields) + nl, sc0, out, pf)
         == Run(nl, sc0.(spaces := |fields|, curNum := Last(fields), elementsLeft := sc0.elementsLeft - (|fields| - 1)),
                EmitAll(out, sc0.lineType, fields[..|fields| - 1], pf), pf)
  {
    var f' := fields[1..];
    var tail := Fields(f') + nl;
    var sc2 := sc0.(spaces := 1, curNum := fields[0]);
    var sc3 := sc2.(spaces := sc2.spaces + |f'|,
                    curNum := if f' == [] then sc2.curNum else Last(f'),
                    elementsLeft := sc2.elementsLeft - |f'|);
    var pushed := ([sc2.curNum] + f')[..|f'|];
    assert PlainTokens(f');
    calc {
      Run(Fields(fields) + nl, sc0, out, pf);
      { LeadingField(fields, nl, sc0, out, pf); }
      Run(tail, sc2, out, pf);
      { RunFields(f', nl, sc2, out, pf); }
      Run(nl, sc3, EmitAll(out, sc2.lineType, pushed, pf), pf);
      { assert sc3 == sc0.(spaces := |fields|, curNum := Last(fields), elementsLeft := sc0.elementsLeft - (|fields| - 1)) by {
          if |fields| > 1 {
            assert Last(f') == Last(fields);
          }
        }
        assert pushed == fields[..|fields| - 1] by {
          PushedPrefix(fields[0], fields);
        } }
      Run(nl, sc0.(spaces := |fields|, curNum := Last(fields), elementsLeft := sc0.elementsLeft - (|fields| - 1)),
          EmitAll(out, sc0.lineType, fields[..|fields| - 1], pf), pf);
    }
  }

  /** The first field of a line: its separator is counted and it becomes the
      pending token, with nothing pushed. */
  lemma LeadingField(fields: seq<string>, nl: string, sc0: Scanner, out: Output, pf: string -> real)
    requires fields != [] && PlainToken(fields[0])
    requires sc0.spaces == 0 && sc0.curNum == [] && !sc0.commentLine
    ensures Run(Fields(fields) + nl, sc0, out, pf)
         == Run(Fields(fields[1..]) + nl, sc0.(spaces := 1, curNum := fields[0]), out, pf)
  {
    var tail := Fields(fields[1..]) + nl;
    var sc1 := sc0.(spaces := 1);
    calc {
      Run(Fields(fields) + nl, sc0, out, pf);
      { FieldsCons(fields, nl); }
      Run([' '] + (fields[0] + tail), sc0, out, pf);
      { assert (fields[0] + tail)[0] == fields[0][0];
        FirstSpace(fields[0] + tail, sc0, out, pf); }
      Run(fields[0] + tail, sc1, out, pf);
      { RunToken(fields[0], tail, sc1, out, pf);
        assert sc1.(curNum := sc1.curNum + fields[0]) == sc0.(spaces := 1, curNum := fields[0]); }
      Run(tail, sc0.(spaces := 1, curNum := fields[0]), out, pf);
    }
  }

  lemma CommentLineRun(text: string, rest: string, sc: Scanner, out: Output, pf: string -> real)
    requires AtLineStart(sc) && NoNewline(text)
    ensures Run("#" + text + "\n" + rest, sc, out, pf) == Run(rest, sc.(lineNum := sc.lineNum + 1), out, pf)
  {
    assert "#" + text + "\n" + rest == "#" + text + ("\n" + rest);
    CommentRest(text, "\n" + rest, sc, out, pf);
    RunNewline(rest, sc.(commentLine := true), out, pf);
  }

  lemma GroupLineRun(text: string, rest: string, sc: Scanner, out: Output, pf: string -> real)
    requires AtLineStart(sc) && NoNewline(text)
    ensures Run("g" + text + "\n" + rest, sc, out, pf) == Run(rest, sc.(lineNum := sc.lineNum + 1), out, pf)
  {
    var sc1 := sc.(commentLine := true);
    assert "g" + text + "\n" + rest == ['g'] + (text + ("\n" + rest));
    RunNext('g', text + ("\n" + rest), sc, out, pf, sc1, out);
    RunIgnored(text, "\n" + rest, sc1, out, pf);
    RunNewline(rest, sc1, out, pf);
  }

  lemma BlankLineRun(rest: string, sc: Scanner, out: Output, pf: string -> real)
    requires AtLineStart(sc)
    ensures Run("\n" + rest, sc, out, pf)
         == if sc.elementsLeft > 0 then Parsed(out, Err(FaceLineTooFew(sc.lineNum)))
            else Run(rest, sc.(lineNum := sc.lineNum + 1), out, pf)
  {
    RunNewline(rest, sc, out, pf);
  }

  // ---------------------------------------------------------------------------
  // Documents

  predicate NoNewline(t: string) {
    forall i :: 0 <= i < |t| ==> t[i] != '\n'
  }

  /** One line of an OBJ file in the subset `parseOBJ` reads. */
  datatype ObjLine =
    | DataLine(lt: LineType, fields: seq<string>)   // "v", "vt" or "f", then " field" per field
    | CommentLine(text: string)                     // "#" then any text
    | GroupLine(text: string)                       // "g" then any text
    | BlankLine

  predicate WellFormed(l: ObjLine) {
    match l
    case DataLine(lt, fields) => lt != NotSet && PlainTokens(fields)
    case CommentLine(t) => NoNewline(t)
    case GroupLine(t) => NoNewline(t)
    case BlankLine => true
  }

  /** The text of a line, newline included. */
  function LineText(l: ObjLine): string {
    match l
    case DataLine(lt, fields) => Keyword(lt) + Fields(fields) + "\n"
    case CommentLine(t) => "#" + t + "\n"
    case GroupLine(t) => "g" + t + "\n"
    case BlankLine => "\n"
  }

  function Render(ls: seq<ObjLine>): string {
    if ls == [] then [] else LineText(ls[0]) + Render(ls[1..])
  }

  /** Line-by-line reference semantics of `parseOBJ`: keyword lines as
      `KeywordLine` says, comment and group lines skipped, and a blank line
      throwing when the counter carried over from the line before is positive. */
  function RunLines(ls: seq<ObjLine>, sc: Scanner, out: Output, pf: string -> real): Parsed
    decreases |ls|
  {
    if ls == [] then Parsed(out, Ok(sc.hasTexture))
    else
      match ls[0]
      case DataLine(lt, fields) =>
        (match KeywordLine(lt, fields, sc.lineNum, out, pf)
         case LineDone(o, left) => RunLines(ls[1..], AfterLine(sc, lt, left), o, pf)
         case LineFailed(o, e) => Parsed(o, Err(e)))
      case CommentLine(_) => RunLines(ls[1..], sc.(lineNum := sc.lineNum + 1), out, pf)
      case GroupLine(_) => RunLines(ls[1..], sc.(lineNum := sc.lineNum + 1), out, pf)
      case BlankLine =>
        if sc.elementsLeft > 0 then Parsed(out, Err(FaceLineTooFew(sc.lineNum)))
        else RunLines(ls[1..], sc.(lineNum := sc.lineNum + 1), out, pf)
  }

  /** The character loop and the line-by-line semantics agree on every
      document made of well-formed lines. */
  lemma {:induction false} RunDocument(ls: seq<ObjLine>, sc: Scanner, out: Output, pf: string -> real)
    requires AtLineStart(sc)
    requires forall i :: 0 <= i < |ls| ==> WellFormed(ls[i])
    ensures Run(Render(ls), sc, out, pf) == RunLines(ls, sc, out, pf)
    decreases |ls|
  {
    if ls != [] {
      var tail := ls[1..];
      var rt := Render(tail);
      assert WellFormed(ls[0]);
      assert forall i :: 0 <= i < |tail| ==> WellFormed(tail[i]) by {
        forall i | 0 <= i < |tail| ensures WellFormed(tail[i]) {
          assert tail[i] == ls[i + 1];
        }
      }
      match ls[0]
      case DataLine(lt, fields) =>
        assert Render(ls) == Keyword(lt) + Fields(fields) + "\n" + rt;
        KeywordLineRun(lt, fields, rt, sc, out, pf);
        match KeywordLine(lt, fields, sc.lineNum, out, pf) {
          case LineDone(o, left) =>
            RunDocument(tail, AfterLine(sc, lt, left), o, pf);
          case LineFailed(o, e) =>
        }
      case CommentLine(t) =>
        assert Render(ls) == "#" + t + "\n" + rt;
        CommentLineRun(t, rt, sc, out, pf);
        RunDocument(tail, sc.(lineNum := sc.lineNum + 1), out, pf);
      case GroupLine(t) =>
        assert Render(ls) == "g" + t + "\n" + rt;
        GroupLineRun(t, rt, sc, out, pf);
        RunDocument(tail, sc.(lineNum := sc.lineNum + 1), out, pf);
      case BlankLine =>
        assert Render(ls) == "\n" + rt;
        BlankLineRun(rt, sc, out, pf);
        if sc.elementsLeft <= 0 {
          RunDocument(tail, sc.(lineNum := sc.lineNum + 1), out, pf);
        }
    }
  }

  // ---------------------------------------------------------------------------
  // What single lines do

  lemma {:induction false} ValuesLength<T>(f: string -> T, ts: seq<string>)
    ensures |Values(f, ts)| == |ts|
  {
    if ts != [] {
      ValuesLength(f, ts[1..]);
    }
  }

  lemma Values3<T>(f: string -> T, ts: seq<string>)
    requires |ts| == 3
    ensures Values(f, ts) == [f(ts[0]), f(ts[1]), f(ts[2])]
  {
    var t1 := ts[1..];
    var t2 := t1[1..];
    assert t2[1..] == [];
    assert Values(f, t2) == [f(ts[2])];
  }

  /** `v x y z w` appends exactly the four values, and no element is left over. */
  lemma VertexLineFourValues(fields: seq<string>, lineNum: nat, out: Output, pf: string -> real)
    requires |fields| == 4
    ensures KeywordLine(VertexLine, fields, lineNum, out, pf)
         == LineDone(out.(vertices := out.vertices + [pf(fields[0]), pf(fields[1]), pf(fields[2]), pf(fields[3])]), 0)
  {
    var rest := fields[1..];
    Values3(pf, rest);
    assert Values(pf, fields) == [pf(fields[0])] + Values(pf, rest);
  }

  /** `v x y z` appends the three values and then the default w = 1.0; the
      counter is left at 1 for the next line. */
  lemma VertexLineDefaultW(fields: seq<string>, lineNum: nat, out: Output, pf: string -> real)
    requires |fields| == 3
    ensures KeywordLine(VertexLine, fields, lineNum, out, pf)
         == LineDone(out.(vertices := out.vertices + [pf(fields[0]), pf(fields[1]), pf(fields[2]), 1.0]), 1)
  {
    Values3(pf, fields);
  }

  /** A line short of its fields (other than a vertex line one short) throws:
      "Vertex line with too few elements!" for a vertex line, the face message
      for face and `vt` lines. The fields before the newline are already pushed. */
  lemma ShortLineThrows(lt: LineType, fields: seq<string>, lineNum: nat, out: Output, pf: string -> real)
    requires lt != NotSet && |fields| < Capacity(lt)
    requires !(lt == VertexLine && |fields| == 3)
    ensures KeywordLine(lt, fields, lineNum, out, pf)
         == LineFailed(EmitAll(out, lt, fields, pf),
                       if lt == VertexLine then VertexLineTooFew(lineNum) else FaceLineTooFew(lineNum))
    ensures KeywordLine(lt, fields, lineNum, out, pf).error.Message()
         == if lt == VertexLine then "Vertex line with too few elements!" else "Face line with too few elements!"
  {
  }

  /** A face line `f a b c` stores the zero-based indices a-1, b-1, c-1. */
  lemma FaceLineIndices(a: nat, b: nat, c: nat, lineNum: nat, out: Output, pf: string -> real)
    ensures KeywordLine(FaceLine, [Decimal(a), Decimal(b), Decimal(c)], lineNum, out, pf)
         == LineDone(out.(indices := out.indices + [Int(a - 1), Int(b - 1), Int(c - 1)]), 0)
  {
    DecimalFaceIndex(a);
    DecimalFaceIndex(b);
    DecimalFaceIndex(c);
    FaceLineOf(Decimal(a), Decimal(b), Decimal(c), lineNum, out, pf);
  }

  lemma FaceLineOf(ta: string, tb: string, tc: string, lineNum: nat, out: Output, pf: string -> real)
    ensures KeywordLine(FaceLine, [ta, tb, tc], lineNum, out, pf)
         == LineDone(out.(indices := out.indices + [FaceIndex(ta), FaceIndex(tb), FaceIndex(tc)]), 0)
  {
    var fields := [ta, tb, tc];
    var out1 := EmitAll(out, FaceLine, fields, pf);
    assert KeywordLine(FaceLine, fields, lineNum, out, pf) == CloseLine(FaceLine, out1, 0, lineNum);
    assert out1 == out.(indices := out.indices + Values(FaceIndex, fields));
    Values3(FaceIndex, fields);
  }

  lemma DecimalFaceIndex(n: nat)
    ensures FaceIndex(Decimal(n)) == Int(n - 1)
  {
    var d := Decimal(n);
    assert d + [] == d;
    ParseIntDecimal(n, []);
    assert FaceIndex(d) == ParseInt(d).Minus(1);
  }

  /** One field too many: all expected fields are pushed and the extra last one
      is silently dropped. */
  lemma ExtraFieldDropped(lt: LineType, fields: seq<string>, lineNum: nat, out: Output, pf: string -> real)
    requires lt != NotSet && |fields| == Capacity(lt) + 1
    ensures KeywordLine(lt, fields, lineNum, out, pf) == LineDone(EmitAll(out, lt, fields[..Capacity(lt)], pf), 0)
  {
  }

  // ---------------------------------------------------------------------------
  // Quirks of the character loop, stated on text

  /** `lineElementsLeft` survives the newline: after `v x y z` it is 1, so an
      immediately following blank line throws the face message, numbered as
      the blank line, after x, y, z and w = 1.0 were pushed. */
  lemma CarriedCounterBlankLine(fields: seq<string>, rest: string, sc: Scanner, out: Output, pf: string -> real)
    requires AtLineStart(sc) && |fields| == 3 && PlainTokens(fields)
    ensures Run("v" + Fields(fields) + "\n" + "\n" + rest, sc, out, pf)
         == Parsed(out.(vertices := out.vertices + [pf(fields[0]), pf(fields[1]), pf(fields[2]), 1.0]),
                   Err(FaceLineTooFew(sc.lineNum + 1)))
  {
    var out1 := out.(vertices := out.vertices + [pf(fields[0]), pf(fields[1]), pf(fields[2]), 1.0]);
    var sc1 := Opened(sc, VertexLine);
    calc {
      Run("v" + Fields(fields) + "\n" + "\n" + rest, sc, out, pf);
      { assert "v" + Fields(fields) + "\n" + "\n" + rest == Keyword(VertexLine) + Fields(fields) + "\n" + ("\n" + rest); }
      Run(Keyword(VertexLine) + Fields(fields) + "\n" + ("\n" + rest), sc, out, pf);
      { KeywordLineRun(VertexLine, fields, "\n" + rest, sc, out, pf); }
      ThenRun(LineStep(KeywordLine(VertexLine, fields, sc.lineNum, out, pf), sc1), "\n" + rest, pf);
      { VertexLineDefaultW(fields, sc.lineNum, out, pf); }
      ThenRun(LineStep(LineDone(out1, 1), sc1), "\n" + rest, pf);
      Run("\n" + rest, NextLine(sc1, 1), out1, pf);
      { assert NextLine(sc1, 1) == AfterLine(sc, VertexLine, 1);
        BlankLineRun(rest, AfterLine(sc, VertexLine, 1), out1, pf); }
      Parsed(out1, Err(FaceLineTooFew(sc.lineNum + 1)));
    }
  }

  /** A final line without a newline: every field but the last is pushed, the
      last is never flushed, no shortfall is reported, and the flag is returned. */
  lemma TrailingTokenDropped(lt: LineType, fields: seq<string>, sc: Scanner, out: Output, pf: string -> real)
    requires lt != NotSet && AtLineStart(sc) && fields != [] && PlainTokens(fields)
    ensures Run(Keyword(lt) + Fields(fields), sc, out, pf)
         == Parsed(EmitAll(out, lt, fields[..|fields| - 1], pf), Ok(sc.hasTexture || lt == TexCoordLine))
  {
    RunKeyword(lt, Fields(fields), sc, out, pf);
    var sc0 := Opened(sc, lt);
    var f' := fields[1..];
    var tail := Fields(f');
    assert PlainToken(fields[0]) && PlainTokens(f');
    assert Fields(fields) == [' '] + (fields[0] + tail);
    assert (fields[0] + tail)[0] == fields[0][0];
    FirstSpace(fields[0] + tail, sc0, out, pf);
    var sc1 := sc0.(spaces := 1);
    assert fields[0] + tail == fields[0] + (tail + []);
    RunToken(fields[0], tail, sc1, out, pf);
    var sc2 := sc1.(curNum := fields[0]);
    assert sc1.(curNum := sc1.curNum + fields[0]) == sc2;
    assert tail + [] == tail;
    RunFields(f', [], sc2, out, pf);
    PushedPrefix(fields[0], fields);
  }

  /** `t` anywhere but directly after `v` (so `t`, `ft`, `vtt`) throws
      "Unrecognized line format!". */
  lemma TexOutsideVertexThrows(lt: LineType, s: string, sc: Scanner, out: Output, pf: string -> real)
    requires lt != VertexLine && AtLineStart(sc)
    ensures Run(Keyword(lt) + "t" + s, sc, out, pf) == Parsed(out, Err(UnrecognizedLine(sc.lineNum)))
  {
    assert Keyword(lt) + "t" + s == Keyword(lt) + ("t" + s);
    var sc0 := if lt == NotSet then sc else Opened(sc, lt);
    if lt == NotSet {
      assert Keyword(lt) + ("t" + s) == "t" + s;
    } else {
      RunKeyword(lt, "t" + s, sc, out, pf);
    }
    RunCons('t', s, sc0, out, pf);
  }

  /** A `g` after the line type is set throws "Unrecognized line format!". */
  lemma GroupAfterKeywordThrows(lt: LineType, s: string, sc: Scanner, out: Output, pf: string -> real)
    requires lt != NotSet && AtLineStart(sc)
    ensures Run(Keyword(lt) + "g" + s, sc, out, pf) == Parsed(out, Err(UnrecognizedLine(sc.lineNum)))
  {
    assert Keyword(lt) + "g" + s == Keyword(lt) + ("g" + s);
    RunKeyword(lt, "g" + s, sc, out, pf);
    RunCons('g', s, Opened(sc, lt), out, pf);
  }

  // ---------------------------------------------------------------------------
  // Whole documents

  /** The number of keyword lines of type `lt`. */
  function CountLines(ls: seq<ObjLine>, lt: LineType): nat {
    if ls == [] then 0
    else (if ls[0].DataLine? && ls[0].lt == lt then 1 else 0) + CountLines(ls[1..], lt)
  }

  /** A line that parses without error wherever it appears after such lines. */
  predicate Complete(l: ObjLine) {
    match l
    case DataLine(lt, fields) => lt != NotSet && (|fields| == Capacity(lt) || (lt == VertexLine && |fields| == 3))
    case CommentLine(_) => true
    case GroupLine(_) => true
    case BlankLine => false
  }

  lemma CompleteLine(lt: LineType, fields: seq<string>, lineNum: nat, out: Output, pf: string -> real)
    requires Complete(DataLine(lt, fields))
    ensures var r := KeywordLine(lt, fields, lineNum, out, pf);
      && r.LineDone?
      && out.vertices <= r.out.vertices && out.indices <= r.out.indices && out.texCoords <= r.out.texCoords
      && |r.out.vertices| == |out.vertices| + (if lt == VertexLine then 4 else 0)
      && |r.out.indices| == |out.indices| + (if lt == FaceLine then 3 else 0)
      && |r.out.texCoords| == |out.texCoords| + (if lt == TexCoordLine then 2 else 0)
  {
    ValuesLength(pf, fields);
    ValuesLength(FaceIndex, fields);
  }

  /** On lines that are all complete, the parse succeeds, the arrays only grow,
      by 4 per vertex line, 3 per face line and 2 per `vt` line, and the result
      is true exactly when there is a `vt` line (or the flag was already set). */
  lemma {:induction false} CompleteDocument(ls: seq<ObjLine>, sc: Scanner, out: Output, pf: string -> real)
    requires forall i :: 0 <= i < |ls| ==> Complete(ls[i])
    ensures var p := RunLines(ls, sc, out, pf);
      && p.result == Ok(sc.hasTexture || CountLines(ls, TexCoordLine) > 0)
      && out.vertices <= p.out.vertices && out.indices <= p.out.indices && out.texCoords <= p.out.texCoords
      && |p.out.vertices| == |out.vertices| + 4 * CountLines(ls, VertexLine)
      && |p.out.indices| == |out.indices| + 3 * CountLines(ls, FaceLine)
      && |p.out.texCoords| == |out.texCoords| + 2 * CountLines(ls, TexCoordLine)
    decreases |ls|
  {
    if ls != [] {
      var tail := ls[1..];
      assert Complete(ls[0]);
      assert forall i :: 0 <= i < |tail| ==> Complete(tail[i]) by {
        forall i | 0 <= i < |tail| ensures Complete(tail[i]) {
          assert tail[i] == ls[i + 1];
        }
      }
      match ls[0]
      case DataLine(lt, fields) =>
        CompleteLine(lt, fields, sc.lineNum, out, pf);
        var r := KeywordLine(lt, fields, sc.lineNum, out, pf);
        CompleteDocument(tail, AfterLine(sc, lt, r.left), r.out, pf);
      case CommentLine(_) =>
        CompleteDocument(tail, sc.(lineNum := sc.lineNum + 1), out, pf);
      case GroupLine(_) =>
        CompleteDocument(tail, sc.(lineNum := sc.lineNum + 1), out, pf);
    }
  }

  /** `parseOBJ` on a well-formed file of complete lines, with empty arrays:
      it returns true exactly when the file has a `vt` line, and fills the
      arrays with 4 values per vertex line, 3 indices per face line and 2
      coordinates per `vt` line. */
  lemma ParseDocument(ls: seq<ObjLine>, pf: string -> real)
    requires forall i :: 0 <= i < |ls| ==> WellFormed(ls[i]) && Complete(ls[i])
    ensures var p := Run(Render(ls), Start, Output([], [], []), pf);
      && p.result == Ok(CountLines(ls, TexCoordLine) > 0)
      && |p.out.vertices| == 4 * CountLines(ls, VertexLine)
      && |p.out.indices| == 3 * CountLines(ls, FaceLine)
      && |p.out.texCoords| == 2 * CountLines(ls, TexCoordLine)
  {
    RunDocument(ls, Start, Output([], [], []), pf);
    CompleteDocument(ls, Start, Output([], [], []), pf);
  }
}

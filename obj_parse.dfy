/** The subset Wavefront OBJ parser `parseOBJ` of objParse.js: a state machine
    that reads the text one character at a time and pushes vertex
    coordinates, zero-based face indices and texture coordinates into three
    arrays owned by the caller.

    The per-character behaviour is specified by `StepChar`, and `Run` folds it
    over the text; `ParseObj` is the loop of the source proved against `Run`.
    `parseFloat` is left abstract: it is the parameter `pf` everywhere, so
    every fact below holds whatever number a token denotes. `parseInt` with
    radix 10 is modelled exactly. */
module ObjParse {

  /** `lineType`: 0 vertex line, 1 face line, 2 texture-coordinate line, 3 not set yet. */
  datatype LineType = VertexLine | FaceLine | TexCoordLine | NotSet

  /** The errors `parseOBJ` throws, each with the 1-based line number it was thrown on. */
  datatype ParseError =
    | FaceLineTooFew(line: nat)
    | VertexLineTooFew(line: nat)
    | UnrecognizedLine(line: nat)
  {
    /** The message of the thrown `Error`. A short texture-coordinate line, and a
        line that inherits a positive element counter, also get the face message. */
    function Message(): string {
      match this
      case FaceLineTooFew(_) => "Face line with too few elements!"
      case VertexLineTooFew(_) => "Vertex line with too few elements!"
      case UnrecognizedLine(_) => "Unrecognized line format!"
    }
  }

  datatype Result<T> = Ok(value: T) | Err(error: ParseError)

  /** A JavaScript number produced by `parseInt`: an integer, or NaN. */
  datatype JsInt = Int(value: int) | NaN {
    /** Subtraction of an integer; NaN stays NaN. */
    function Minus(k: int): JsInt {
      match this
      case Int(v) => Int(v - k)
      case NaN => NaN
    }
  }

  /** The contents of the three caller-owned arrays. */
  datatype Output = Output(vertices: seq<real>, indices: seq<JsInt>, texCoords: seq<real>)

  /** The local variables of `parseOBJ` that survive from one character to the next. */
  datatype Scanner = Scanner(
    spaces: nat,          // spaces counted on the current line
    curNum: string,       // characters of the pending token
    lineType: LineType,
    commentLine: bool,
    elementsLeft: int,    // `lineElementsLeft`; never reset at a newline
    lineNum: nat,
    hasTexture: bool)

  /** The values `parseOBJ` initialises its variables to. */
  const Start: Scanner := Scanner(0, [], NotSet, false, 0, 1, false)

  // ---------------------------------------------------------------------------
  // parseInt(s, 10)

  /** The white space and line terminators that `parseInt` skips at the front. */
  predicate IsJsWhiteSpace(c: char) {
    || c == '\t' || c == '\n' || c == '\U{000B}' || c == '\U{000C}' || c == '\r' || c == ' '
    || c == '\U{00A0}' || c == '\U{1680}' || ('\U{2000}' <= c <= '\U{200A}')
    || c == '\U{2028}' || c == '\U{2029}' || c == '\U{202F}' || c == '\U{205F}'
    || c == '\U{3000}' || c == '\U{FEFF}'
  }

  predicate IsDigit(c: char) {
    '0' <= c <= '9'
  }

  predicate AllDigits(s: string) {
    forall i :: 0 <= i < |s| ==> IsDigit(s[i])
  }

  function TrimStart(s: string): (t: string)
    ensures |t| <= |s| && t == s[|s| - |t|..]
    ensures t != [] ==> !IsJsWhiteSpace(t[0])
  {
    if s != [] && IsJsWhiteSpace(s[0]) then TrimStart(s[1..]) else s
  }

  /** The longest prefix of `s` made of decimal digits. */
  function DigitPrefix(s: string): (d: string)
    ensures d <= s && AllDigits(d)
    ensures |d| < |s| ==> !IsDigit(s[|d|])
  {
    if s != [] && IsDigit(s[0]) then [s[0]] + DigitPrefix(s[1..]) else []
  }

  /** The value of a digit string, most significant digit first. */
  function DigitsValue(d: string): nat
    requires AllDigits(d)
  {
    if d == [] then 0 else DigitsValue(d[..|d| - 1]) * 10 + (d[|d| - 1] as int - '0' as int)
  }

  /** `parseInt(s, 10)`: skip leading white space, read an optional sign, then
      the longest run of digits; NaN when there are none. Trailing characters
      are ignored. */
  function ParseInt(s: string): JsInt {
    ParseDigits(TrimStart(s))
  }

  /** `parseInt` once the leading white space is gone. */
  function ParseDigits(t: string): JsInt {
    var negative := t != [] && t[0] == '-';
    var u := if t != [] && (t[0] == '-' || t[0] == '+') then t[1..] else t;
    var z := DigitPrefix(u);
    if z == [] then NaN
    else if negative then Int(-(DigitsValue(z) as int))
    else Int(DigitsValue(z))
  }

  /** The zero-based vertex index `parseInt(token, 10) - 1` stored for a face token. */
  function FaceIndex(token: string): JsInt {
    ParseInt(token).Minus(1)
  }

  // ---------------------------------------------------------------------------
  // The per-character specification

  /** The `switch(lineType)` shared by both flushes: push the pending token into
      the array the line type selects (indices as `parseInt - 1`); a line whose
      type is not set pushes nothing. */
  function Emit(out: Output, lt: LineType, token: string, pf: string -> real): Output {
    match lt
    case VertexLine => out.(vertices := out.vertices + [pf(token)])
    case FaceLine => out.(indices := out.indices + [FaceIndex(token)])
    case TexCoordLine => out.(texCoords := out.texCoords + [pf(token)])
    case NotSet => out
  }

  /** Either the state after a character, or the exception thrown on it together
      with what had been pushed into the caller's arrays by then. */
  datatype Step = Next(sc: Scanner, out: Output) | Throw(out: Output, error: ParseError)

  /** The reset at the end of every newline; `elementsLeft` is carried over. */
  function NextLine(sc: Scanner, left: int): Scanner {
    sc.(spaces := 0, curNum := [], lineNum := sc.lineNum + 1, lineType := NotSet,
        commentLine := false, elementsLeft := left)
  }

  /** Case "\n": outside a comment and with a positive counter, flush a
      non-empty pending token; if elements are still missing, a vertex line
      missing exactly one gets w = 1.0 and anything else throws. */
  function Newline(sc: Scanner, out: Output, pf: string -> real): Step {
    if sc.elementsLeft > 0 && !sc.commentLine then
      var flush := |sc.curNum| > 0;
      var out1 := if flush then Emit(out, sc.lineType, sc.curNum, pf) else out;
      var left := if flush then sc.elementsLeft - 1 else sc.elementsLeft;
      if left > 0 then
        if sc.lineType != VertexLine then Throw(out1, FaceLineTooFew(sc.lineNum))
        else if left == 1 then Next(NextLine(sc, left), out1.(vertices := out1.vertices + [1.0]))
        else Throw(out1, VertexLineTooFew(sc.lineNum))
      else Next(NextLine(sc, left), out1)
    else Next(NextLine(sc, sc.elementsLeft), out)
  }

  /** Case " ": outside a comment, every space after the first counted one
      flushes the pending token, empty or not; a space only counts when the
      next character is not a space. */
  function Space(nextIsSpace: bool, sc: Scanner, out: Output, pf: string -> real): Step {
    if sc.commentLine then Next(sc, out)
    else
      var sc1 := if sc.spaces > 0 then sc.(elementsLeft := sc.elementsLeft - 1, curNum := []) else sc;
      var out1 := if sc.spaces > 0 then Emit(out, sc.lineType, sc.curNum, pf) else out;
      Next(sc1.(spaces := if nextIsSpace then sc1.spaces else sc1.spaces + 1), out1)
  }

  /** One iteration of the loop of `parseOBJ` on character `c`. */
  function StepChar(c: char, nextIsSpace: bool, sc: Scanner, out: Output, pf: string -> real): Step {
    if c == '\n' then Newline(sc, out, pf)
    else if c == '#' then Next(sc.(commentLine := true), out)
    else if c == 'g' then
      if sc.lineType != NotSet then Throw(out, UnrecognizedLine(sc.lineNum))
      else Next(sc.(commentLine := true), out)
    else if c == 'v' then
      if sc.commentLine then Next(sc, out) else Next(sc.(lineType := VertexLine, elementsLeft := 4), out)
    else if c == 'f' then
      if sc.commentLine then Next(sc, out) else Next(sc.(lineType := FaceLine, elementsLeft := 3), out)
    else if c == 't' then
      if sc.commentLine then Next(sc, out)
      else if sc.lineType == VertexLine then
        Next(sc.(lineType := TexCoordLine, elementsLeft := 2, hasTexture := true), out)
      else Throw(out, UnrecognizedLine(sc.lineNum))
    else if c == ' ' then Space(nextIsSpace, sc, out, pf)
    else if sc.commentLine then Next(sc, out)
    else Next(sc.(curNum := sc.curNum + [c]), out)
  }

  /** What the caller ends up with: the contents of its arrays, and either the
      returned `hasTexture` or the exception. */
  datatype Parsed = Parsed(out: Output, result: Result<bool>)

  /** The loop of `parseOBJ` over the remaining characters `rest`; the look-ahead
      `text[i+1] != " "` is read off `rest[1]` (past the end it is undefined,
      which is not a space). */
  function Run(rest: string, sc: Scanner, out: Output, pf: string -> real): Parsed
    decreases |rest|
  {
    if rest == [] then Parsed(out, Ok(sc.hasTexture))
    else
      match StepChar(rest[0], |rest| > 1 && rest[1] == ' ', sc, out, pf)
      case Throw(o, e) => Parsed(o, Err(e))
      case Next(sc', o) => Run(rest[1..], sc', o, pf)
  }

  /** Carry on with `rest` after a step, or stop with the thrown error. */
  function ThenRun(step: Step, rest: string, pf: string -> real): Parsed {
    match step
    case Next(sc, o) => Run(rest, sc, o, pf)
    case Throw(o, e) => Parsed(o, Err(e))
  }

  /** `Run` on a text given as its first character and the rest. */
  lemma RunCons(c: char, rest: string, sc: Scanner, out: Output, pf: string -> real)
    ensures Run([c] + rest, sc, out, pf) == ThenRun(StepChar(c, rest != [] && rest[0] == ' ', sc, out, pf), rest, pf)
  {
    var t := [c] + rest;
    assert t[0] == c && t[1..] == rest;
    assert (|t| > 1 && t[1] == ' ') == (rest != [] && rest[0] == ' ');
  }

  /** A character that does not throw hands the rest of the text the new state. */
  lemma RunNext(c: char, rest: string, sc: Scanner, out: Output, pf: string -> real, sc1: Scanner, out1: Output)
    requires StepChar(c, rest != [] && rest[0] == ' ', sc, out, pf) == Next(sc1, out1)
    ensures Run([c] + rest, sc, out, pf) == Run(rest, sc1, out1, pf)
  {
    RunCons(c, rest, sc, out, pf);
  }

  /** What one character can do: only a newline or a space pushes a token;
      only `g`, `t` and a newline throw, and an error carries the number of
      the line it was thrown on; only a newline advances the line number. */
  lemma StepCharEffects(c: char, nextIsSpace: bool, sc: Scanner, out: Output, pf: string -> real)
    ensures var st := StepChar(c, nextIsSpace, sc, out, pf);
            && (st.Throw? ==> (c == 'g' || c == 't' || c == '\n') && st.error.line == sc.lineNum)
            && (c != '\n' && c != ' ' ==> st.out == out)
            && (st.Next? ==> st.sc.lineNum == if c == '\n' then sc.lineNum + 1 else sc.lineNum)
  {
  }

  /** A newline resets every line variable except the element counter; it
      throws only outside a comment with elements still expected, and on a
      comment line it does nothing else. */
  lemma NewlineEffects(sc: Scanner, out: Output, pf: string -> real)
    ensures var st := Newline(sc, out, pf);
            && (st.Next? ==> st.sc == NextLine(sc, st.sc.elementsLeft))
            && (st.Throw? ==> !sc.commentLine && sc.elementsLeft > 0 && st.error.line == sc.lineNum)
            && (sc.commentLine ==> st == Next(NextLine(sc, sc.elementsLeft), out))
  {
  }

  /** A space never throws and never changes the line's type, comment flag,
      number or `hasTexture`; the first counted space of a line, and any
      space in a comment, pushes nothing. */
  lemma SpaceEffects(nextIsSpace: bool, sc: Scanner, out: Output, pf: string -> real)
    ensures var st := Space(nextIsSpace, sc, out, pf);
            && st.Next?
            && st.sc.lineType == sc.lineType && st.sc.commentLine == sc.commentLine
            && st.sc.lineNum == sc.lineNum && st.sc.hasTexture == sc.hasTexture
            && (sc.spaces == 0 || sc.commentLine ==> st.out == out)
  {
  }

  /** `parseInt` ignores leading white space. */
  lemma ParseIntSkipsSpace(s: string)
    ensures ParseInt(s) == ParseInt(TrimStart(s))
  {
    var t := TrimStart(s);
    assert TrimStart(t) == t by {
      if t != [] {
        assert !IsJsWhiteSpace(t[0]);
      }
    }
    assert ParseInt(t) == ParseDigits(t);
  }

  /** A blank string is NaN, and a negative result needs a minus sign in
      front of the digits. */
  lemma ParseIntSign(s: string)
    ensures TrimStart(s) == [] ==> ParseInt(s) == NaN
    ensures ParseInt(s).Int? && ParseInt(s).value < 0 ==> TrimStart(s) != [] && TrimStart(s)[0] == '-'
  {
    var t := TrimStart(s);
    if t == [] {
      assert DigitPrefix(t) == [];
    }
  }

  // ---------------------------------------------------------------------------
  // The imperative parser

  /** The three arrays the caller passes in and `parseOBJ` pushes into. */
  class MeshArrays {
    var vertices: seq<real>
    var indices: seq<JsInt>
    var texCoords: seq<real>

    constructor ()
      ensures vertices == [] && indices == [] && texCoords == []
    {
      vertices, indices, texCoords := [], [], [];
    }

    function Contents(): Output
      reads this
    {
      Output(vertices, indices, texCoords)
    }

    /** The `switch(lineType)` that pushes the pending token. */
    method PushToken(lt: LineType, token: string, pf: string -> real)
      modifies this
      ensures Contents() == Emit(old(Contents()), lt, token, pf)
    {
      match lt
      case VertexLine => vertices := vertices + [pf(token)];
      case FaceLine => indices := indices + [FaceIndex(token)];
      case TexCoordLine => texCoords := texCoords + [pf(token)];
      case NotSet =>
    }
  }

  /** `parseOBJ` on the text `readTextFile` returned: the arrays end up as `Run`
      leaves them, and the result is `hasTexture` or the thrown error. On an
      error the arrays keep what was pushed before it. */
  method ParseObj(text: string, arrays: MeshArrays, pf: string -> real) returns (r: Result<bool>)
    modifies arrays
    ensures Parsed(arrays.Contents(), r) == Run(text, Start, old(arrays.Contents()), pf)
  {
    var spaces: nat := 0;
    var curNum: string := [];
    var lineType := NotSet;
    var commentLine := false;
    var lineElementsLeft := 0;
    var lineNum: nat := 1;
    var hasTexture := false;
    var i := 0;
    while i < |text|
      invariant 0 <= i <= |text|
      invariant Run(text[i..], Scanner(spaces, curNum, lineType, commentLine, lineElementsLeft, lineNum, hasTexture),
                    arrays.Contents(), pf)
             == Run(text, Start, old(arrays.Contents()), pf)
    {
      ghost var sc := Scanner(spaces, curNum, lineType, commentLine, lineElementsLeft, lineNum, hasTexture);
      ghost var before := arrays.Contents();
      var c := text[i];
      var nextIsSpace := i + 1 < |text| && text[i + 1] == ' ';
      assert text[i..][0] == c && text[i..][1..] == text[i + 1..];
      assert (|text[i..]| > 1 && text[i..][1] == ' ') == nextIsSpace;
      ghost var step := StepChar(c, nextIsSpace, sc, before, pf);
      if c == '\n' {
        if lineElementsLeft > 0 && !commentLine {
          if |curNum| > 0 {
            arrays.PushToken(lineType, curNum, pf);
            lineElementsLeft := lineElementsLeft - 1;
            curNum := [];
          }
          if lineElementsLeft > 0 {
            if lineType != VertexLine {
              assert step == Throw(arrays.Contents(), FaceLineTooFew(lineNum));
              return Err(FaceLineTooFew(lineNum));
            } else if lineElementsLeft == 1 {
              arrays.vertices := arrays.vertices + [1.0];
            } else {
              assert step == Throw(arrays.Contents(), VertexLineTooFew(lineNum));
              return Err(VertexLineTooFew(lineNum));
            }
          }
        }
        spaces := 0;
        curNum := [];
        lineNum := lineNum + 1;
        lineType := NotSet;
        commentLine := false;
      } else if c == '#' {
        commentLine := true;
      } else if c == 'g' {
        if lineType != NotSet {
          assert step == Throw(before, UnrecognizedLine(lineNum));
          return Err(UnrecognizedLine(lineNum));
        }
        commentLine := true;
      } else if c == 'v' {
        if !commentLine {
          lineType := VertexLine;
          lineElementsLeft := 4;
        }
      } else if c == 'f' {
        if !commentLine {
          lineType := FaceLine;
          lineElementsLeft := 3;
        }
      } else if c == 't' {
        if !commentLine {
          if lineType == VertexLine {
            lineType := TexCoordLine;
            lineElementsLeft := 2;
            hasTexture := true;
          } else {
            assert step == Throw(before, UnrecognizedLine(lineNum));
            return Err(UnrecognizedLine(lineNum));
          }
        }
      } else if c == ' ' {
        if !commentLine {
          if spaces > 0 {
            arrays.PushToken(lineType, curNum, pf);
            lineElementsLeft := lineElementsLeft - 1;
            curNum := [];
          }
          if !nextIsSpace {
            spaces := spaces + 1;
          }
        }
      } else {
        if !commentLine {
          curNum := curNum + [c];
        }
      }
      assert step == Next(Scanner(spaces, curNum, lineType, commentLine, lineElementsLeft, lineNum, hasTexture),
                          arrays.Contents());
      i := i + 1;
    }
    r := Ok(hasTexture);
  }
}

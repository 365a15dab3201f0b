/** The ASCII PLY decoder (`parsePLY`): a line-by-line pass over the file
    text that reads header declarations and accepts body lines as vertices
    and faces, followed by a check of the counts read against the counts
    declared.

    Header recognition works on the trimmed text of each line, exactly as the
    source's `startsWith`/`includes` tests do. The two body patterns are
    predicates over the line's whitespace-separated words. How a numeral is
    turned into a number (`parseFloat`), what the source's capture-group
    reading of normals produces, and whether the colour group's last value
    has a fractional part are left to the `Reader`.

    As the source is written, colour values are never stored: it reads them
    only when capture group 14 (the fractional part of the last colour value)
    is defined, and then calls `trim()` on group 16, which the vertex pattern
    does not have, so the decode throws. */
module Ply {
  import opened Wrappers
  import opened Text

  /** The readings of the vertex pattern the model does not interpret:
      `colourFraction` holds of a line exactly when the pattern's group 14 is
      defined on it. */
  datatype Reader = Reader(
    parseFloat: string -> real,
    normalsOf: seq<string> -> seq<real>,
    colourFraction: seq<string> -> bool)

  datatype ColorType = UChar | Float

  /** The decoder's running variables. */
  datatype State = State(
    expectedVertices: Option<nat>,
    expectedFaces: Option<nat>,
    positions: seq<real>,
    normals: seq<real>,
    colors: seq<real>,
    indices: seq<Option<nat>>,   // None is an `undefined` pushed for a missing index word
    vertexCount: nat,
    facesCount: nat,
    hasColor: bool,
    colorComponents: nat,
    colorType: Option<ColorType>,
    hasNormal: bool)

  const Init: State := State(None, None, [], [], [], [], 0, 0, false, 0, None, false)

  datatype PlyError =
    | MissingFormatField                       // `format` with no second space-separated field
    | NotAscii(format: string)
    | VertexCountMismatch(read: nat, expected: nat)
    | FaceCountMismatch(read: nat, expected: nat)
    | UndefinedColourGroup                     // `trim()` called on the pattern's missing group 16

  datatype PlyResult = PlyResult(
    vertexCount: nat,
    position: seq<real>,
    normal: Option<seq<real>>,
    color: Option<seq<real>>,
    indices: Option<seq<Option<nat>>>)

  /** `expected || 0`. */
  function Expected(n: Option<nat>): nat {
    n.GetOr(0)
  }

  // ---------------------------------------------------------------------
  // Header lines

  /** The second field of `line.split(' ')`, or None when there is none. */
  function FormatField(t: string): Option<string> {
    var pieces := SplitOn(t, ' ');
    if |pieces| >= 2 then Some(pieces[1]) else None
  }

  /** `parseInt(line.match(/^element\s+<kind>\s+(\d+)/)?.[1] || '0')`. */
  function ElementCount(t: string, kind: string): nat {
    if !StartsWith(t, "element") then 0 else KindCount(t[7..], kind)
  }

  /** The count pattern after `element`: `\s+<kind>`, then the number. */
  function KindCount(a: string, kind: string): nat {
    var n1 := SpaceRun(a);
    if n1 == 0 || !StartsWith(a[n1..], kind) then 0 else NumberCount(a[n1..][|kind|..])
  }

  /** The count pattern after the kind: `\s+(\d+)`, 0 when it fails. */
  function NumberCount(c: string): nat {
    var n2 := SpaceRun(c);
    if n2 == 0 then 0 else DigitsValue(c[n2..][..DigitRun(c[n2..])])
  }

  // ---------------------------------------------------------------------
  // Body lines

  predicate IsNumeralChar(c: char) {
    c == '-' || c == '|' || IsDigit(c)
  }

  function NumeralRun(s: string): (n: nat)
    ensures n <= |s|
    ensures forall i :: 0 <= i < n ==> IsNumeralChar(s[i])
    ensures n == |s| || !IsNumeralChar(s[n])
  {
    if |s| == 0 || !IsNumeralChar(s[0]) then 0 else 1 + NumeralRun(s[1..])
  }

  /** The length of the longest prefix of `s` matching `[-|\d]+(\.\d+)?`,
      0 when no prefix matches. */
  function NumeralLength(s: string): (n: nat)
    ensures n <= |s|
  {
    var k := NumeralRun(s);
    if k == 0 then 0
    else if k < |s| && s[k] == '.' && DigitRun(s[k + 1..]) > 0 then k + 1 + DigitRun(s[k + 1..])
    else k
  }

  /** A word that `[-|\d]+(\.\d+)?` matches entirely. */
  predicate IsNumeral(w: string) {
    |w| > 0 && NumeralLength(w) == |w|
  }

  /** The vertex pattern: two whole numerals and a third word that starts
      with one (the pattern is anchored at the start of the line only). */
  predicate VertexLike(words: seq<string>) {
    |words| >= 3 && IsNumeral(words[0]) && IsNumeral(words[1]) && NumeralLength(words[2]) > 0
  }

  /** The face pattern `^([34])\s+((\d+\s*)+)$`: a leading `3` or `4` and one
      or more further words, all digits. */
  predicate FaceLike(words: seq<string>) {
    && |words| >= 2
    && (words[0] == "3" || words[0] == "4")
    && forall i :: 1 <= i < |words| ==> AllDigits(words[i])
  }

  /** The three position values of a vertex line. */
  function PositionOf(words: seq<string>, rd: Reader): (p: seq<real>)
    requires VertexLike(words)
    ensures |p| == 3
  {
    [rd.parseFloat(words[0]), rd.parseFloat(words[1]), rd.parseFloat(words[2][..NumeralLength(words[2])])]
  }

  /** The i-th index word of a face line, `undefined` past the last word. */
  function FaceIndex(words: seq<string>, i: nat): Option<nat>
    requires FaceLike(words)
  {
    if i + 1 < |words| then Some(DigitsValue(words[i + 1])) else None
  }

  /** The indices a face line emits: a triangle as is, a quad as the fan
      `(0,1,2)`, `(0,2,3)`. */
  function Triangulate(words: seq<string>): (r: seq<Option<nat>>)
    requires FaceLike(words)
    ensures |r| == if words[0] == "3" then 3 else 6
  {
    var i0, i1, i2 := FaceIndex(words, 0), FaceIndex(words, 1), FaceIndex(words, 2);
    if words[0] == "3" then [i0, i1, i2]
    else [i0, i1, i2, i0, i2, FaceIndex(words, 3)]
  }

  /** The vertex half of a body line. Colours are never appended: the one
      path that would append them throws first (see `ColourThrows`). */
  function VertexStep(s: State, words: seq<string>, rd: Reader): (s': State)
    ensures s'.vertexCount == s.vertexCount + 1 <==> VertexLike(words) && s.vertexCount < Expected(s.expectedVertices)
    ensures s'.vertexCount != s.vertexCount + 1 ==> s' == s
    ensures s'.vertexCount == s.vertexCount + 1 ==> s'.positions == s.positions + PositionOf(words, rd)
  {
    if VertexLike(words) && s.vertexCount < Expected(s.expectedVertices) then
      s.(vertexCount := s.vertexCount + 1,
         positions := s.positions + PositionOf(words, rd),
         normals := s.normals + (if s.hasNormal then rd.normalsOf(words) else []))
    else s
  }

  /** The face half of a body line. */
  function FaceStep(s: State, words: seq<string>): (s': State)
    ensures s'.facesCount == s.facesCount + 1 <==> FaceLike(words) && s.facesCount < Expected(s.expectedFaces)
    ensures s'.facesCount != s.facesCount + 1 ==> s' == s
  {
    if FaceLike(words) && s.facesCount < Expected(s.expectedFaces) then
      s.(facesCount := s.facesCount + 1, indices := s.indices + Triangulate(words))
    else s
  }

  /** How a body line is offered to the two patterns. The source tries both
      on every line (`Independent`); `VertexFirst` offers a line to the face
      pattern only when it was not taken as a vertex. */
  datatype BodyRule = Independent | VertexFirst

  function BodyStep(s: State, words: seq<string>, rd: Reader, rule: BodyRule): State {
    var v := VertexStep(s, words, rd);
    if rule == VertexFirst && v.vertexCount != s.vertexCount then v else FaceStep(v, words)
  }

  /** The header lines the source recognises and `continue`s past, in the
      order its tests run. */
  datatype HeaderLine = Comment | ElementVertex | NormalX | NormalYZ | Red | GreenBlue | Alpha | NotHeader

  function Classify(t: string): HeaderLine {
    if StartsWith(t, "comment") then Comment
    else if Contains(t, "element vertex") then ElementVertex
    else if Contains(t, "property float nx") then NormalX
    else if Contains(t, "property float ny") || Contains(t, "property float nz") then NormalYZ
    else if Contains(t, "property uchar red") || Contains(t, "property float red") then Red
    else if Contains(t, "property uchar green") || Contains(t, "property float green") then GreenBlue
    else if Contains(t, "property uchar blue") || Contains(t, "property float blue") then GreenBlue
    else if Contains(t, "property uchar alpha") || Contains(t, "property float alpha") then Alpha
    else NotHeader
  }

  /** A recognised header line changes only the header variables. */
  function Declare(s: State, t: string, kind: HeaderLine): State {
    match kind
    case ElementVertex => s.(expectedVertices := Some(ElementCount(t, "vertex")))
    case NormalX => s.(hasNormal := true)
    case Red => s.(hasColor := true, colorComponents := 3, colorType := Some(if Contains(t, "uchar") then UChar else Float))
    case Alpha => s.(colorComponents := 4)
    case _ => s
  }

  /** One trimmed, non-empty line after the `format` check. An `element face`
      line does not `continue`: it falls through to the body patterns. */
  function LineStep(s: State, t: string, rd: Reader, rule: BodyRule): State {
    var kind := Classify(t);
    if kind != NotHeader then Declare(s, t, kind)
    else
      var s1 := if Contains(t, "element face") then s.(expectedFaces := Some(ElementCount(t, "face"))) else s;
      if Contains(t, "end_header") then s1 else BodyStep(s1, Words(t), rd, rule)
  }

  /** A body line accepted as a vertex while a colour property is declared
      throws when the colour group's last value has a fractional part. */
  predicate ColourThrows(s: State, words: seq<string>, rd: Reader) {
    VertexLike(words) && s.vertexCount < Expected(s.expectedVertices) && s.hasColor && rd.colourFraction(words)
  }

  /** A trimmed line reaches the body patterns and throws there. An `element
      face` line changes only the face count before the patterns run, which
      `ColourThrows` does not read. */
  predicate LineThrows(s: State, t: string, rd: Reader) {
    Classify(t) == NotHeader && !Contains(t, "end_header") && ColourThrows(s, Words(t), rd)
  }

  /** One line of the file: blank lines are skipped, a `format` line whose
      second field is not `ascii` (in any case) throws, and so does a vertex
      line whose colour group is read. */
  function Step(s: State, line: string, rd: Reader, rule: BodyRule): Result<State, PlyError> {
    var t := Trim(line);
    if t == [] then Success(s)
    else if StartsWith(t, "format") && FormatField(t).None? then Failure(MissingFormatField)
    else if StartsWith(t, "format") && ToLower(FormatField(t).value) != "ascii" then Failure(NotAscii(FormatField(t).value))
    else if LineThrows(s, t, rd) then Failure(UndefinedColourGroup)
    else Success(LineStep(s, t, rd, rule))
  }

  function Run(s: State, lines: seq<string>, rd: Reader, rule: BodyRule): Result<State, PlyError>
    decreases |lines|
  {
    if lines == [] then Success(s)
    else
      match Step(s, lines[0], rd, rule)
      case Failure(e) => Failure(e)
      case Success(s') => Run(s', lines[1..], rd, rule)
  }

  /** What every reachable state satisfies: three position values per vertex
      read, and no vertex or face read before its count was declared. */
  predicate Inv(s: State) {
    && |s.positions| == 3 * s.vertexCount
    && (s.expectedVertices.None? ==> s.vertexCount == 0)
    && (s.expectedFaces.None? ==> s.facesCount == 0 && s.indices == [])
    && 3 * s.facesCount <= |s.indices| <= 6 * s.facesCount
    && |s.indices| % 3 == 0
  }

  /** The post-loop count check and the shape of the result. */
  function Finish(s: State): (r: Result<PlyResult, PlyError>)
    requires Inv(s)
    ensures r.Failure? <==>
              || (s.expectedVertices.Some? && s.vertexCount != s.expectedVertices.value)
              || (s.expectedFaces.Some? && s.facesCount != s.expectedFaces.value)
    ensures r.Success? ==> |r.value.position| == 3 * r.value.vertexCount
    ensures r.Success? ==> (r.value.indices.None? <==> s.facesCount == 0)
    ensures r.Success? ==> r.value.vertexCount == Expected(s.expectedVertices) && r.value.position == s.positions
    ensures r.Success? ==> (r.value.indices.Some? <==> |s.indices| > 0) && (r.value.indices.Some? ==> r.value.indices.value == s.indices)
    ensures r.Success? ==> (r.value.normal.Some? <==> |s.normals| > 0) && (r.value.normal.Some? ==> r.value.normal.value == s.normals)
    ensures r.Success? ==> (r.value.color.Some? <==> |s.colors| > 0) && (r.value.color.Some? ==> r.value.color.value == s.colors)
  {
    if s.expectedVertices.Some? && |s.positions| / 3 != s.expectedVertices.value then
      Failure(VertexCountMismatch(|s.positions| / 3, s.expectedVertices.value))
    else if s.expectedFaces.Some? && s.facesCount != s.expectedFaces.value then
      Failure(FaceCountMismatch(s.facesCount, s.expectedFaces.value))
    else
      Success(PlyResult(
        Expected(s.expectedVertices),
        s.positions,
        if |s.normals| > 0 then Some(s.normals) else None,
        if |s.colors| > 0 then Some(s.colors) else None,
        if |s.indices| > 0 then Some(s.indices) else None))
  }

  /** `parsePLY(data)`; with `Independent` as the source runs it. */
  function Decode(data: string, rd: Reader, rule: BodyRule): (r: Result<PlyResult, PlyError>)
    ensures r.Success? ==> |r.value.position| == 3 * r.value.vertexCount
    ensures r.Success? && r.value.indices.Some? ==> |r.value.indices.value| > 0 && |r.value.indices.value| % 3 == 0
    ensures r.Success? && r.value.normal.Some? ==> |r.value.normal.value| > 0
    ensures r.Success? && r.value.color.Some? ==> |r.value.color.value| > 0
    ensures var run := Run(Init, SplitOn(data, '\n'), rd, rule);
            r.Success? ==>
              && run.Success?
              && r.value.vertexCount == Expected(run.value.expectedVertices)
              && r.value.position == run.value.positions
              && (r.value.indices.Some? <==> |run.value.indices| > 0)
              && (r.value.indices.Some? ==> r.value.indices.value == run.value.indices)
              && (r.value.normal.Some? <==> |run.value.normals| > 0)
              && (r.value.normal.Some? ==> r.value.normal.value == run.value.normals)
              && (r.value.color.Some? <==> |run.value.colors| > 0)
  {
    InitInv();
    RunInv(Init, SplitOn(data, '\n'), rd, rule);
    match Run(Init, SplitOn(data, '\n'), rd, rule)
    case Failure(e) => Failure(e)
    case Success(s) => Finish(s)
  }

  // ---------------------------------------------------------------------
  // Properties

  lemma InitInv()
    ensures Inv(Init)
  {
  }

  lemma StepInv(s: State, line: string, rd: Reader, rule: BodyRule)
    requires Inv(s)
    ensures Step(s, line, rd, rule).Success? ==> Inv(Step(s, line, rd, rule).value)
  {
    var t := Trim(line);
    if t != [] && Step(s, line, rd, rule).Success? {
      LineStepInv(s, t, rd, rule);
    }
  }

  lemma LineStepInv(s: State, t: string, rd: Reader, rule: BodyRule)
    requires Inv(s)
    ensures Inv(LineStep(s, t, rd, rule))
  {
    var kind := Classify(t);
    if kind == NotHeader {
      var s1 := if Contains(t, "element face") then s.(expectedFaces := Some(ElementCount(t, "face"))) else s;
      assert Inv(s1);
      BodyStepInv(s1, Words(t), rd, rule);
    }
  }

  lemma BodyStepInv(s: State, words: seq<string>, rd: Reader, rule: BodyRule)
    requires Inv(s)
    ensures Inv(BodyStep(s, words, rd, rule))
  {
    var v := VertexStep(s, words, rd);
    assert Inv(v);
  }

  /** The invariant holds after any prefix of the file. */
  lemma {:induction false} RunInv(s: State, lines: seq<string>, rd: Reader, rule: BodyRule)
    requires Inv(s)
    ensures Run(s, lines, rd, rule).Success? ==> Inv(Run(s, lines, rd, rule).value)
    decreases |lines|
  {
    if lines != [] {
      StepInv(s, lines[0], rd, rule);
      if Step(s, lines[0], rd, rule).Success? {
        RunInv(Step(s, lines[0], rd, rule).value, lines[1..], rd, rule);
      }
    }
  }

  /** Decoding a file is decoding its first part and then the rest; a line
      that throws ends the decode with its error. */
  lemma {:induction false} RunAppend(s: State, a: seq<string>, b: seq<string>, rd: Reader, rule: BodyRule)
    ensures Run(s, a + b, rd, rule) == match Run(s, a, rd, rule)
                                       case Failure(e) => Failure(e)
                                       case Success(s') => Run(s', b, rd, rule)
    decreases |a|
  {
    if a == [] {
      assert a + b == b;
    } else {
      assert (a + b)[0] == a[0];
      assert (a + b)[1..] == a[1..] + b;
      var r := Step(s, a[0], rd, rule);
      if r.Success? {
        RunAppend(r.value, a[1..], b, rd, rule);
      }
    }
  }

  /** A `format` line throws exactly when its second space-separated field,
      lower-cased, is not `ascii`. */
  lemma FormatLine(s: State, line: string, rd: Reader, rule: BodyRule)
    requires StartsWith(Trim(line), "format")
    ensures Step(s, line, rd, rule).Failure? <==>
              FormatField(Trim(line)).None? || ToLower(FormatField(Trim(line)).value) != "ascii"
  {
    FormatLineNotBody(s, Trim(line), rd);
  }

  lemma FormatLineNotBody(s: State, t: string, rd: Reader)
    requires StartsWith(t, "format")
    ensures !LineThrows(s, t, rd)
  {
    FormatNotVertex(t);
  }

  /** A `format` line is no vertex line. */
  lemma FormatNotVertex(t: string)
    ensures StartsWith(t, "format") ==> !VertexLike(Words(t))
  {
    if StartsWith(t, "format") {
      assert t[0] == t[..6][0] == 'f';
      NotVertexLine(t);
    }
  }

  /** A line whose first character cannot start a numeral is no vertex. */
  lemma NotVertexLine(t: string)
    requires t != [] && !IsSpace(t[0]) && !IsNumeralChar(t[0])
    ensures !VertexLike(Words(t))
  {
    WordsHead(t);
  }

  /** An `element vertex` line sets the expected vertex count, replacing any
      earlier declaration, and changes nothing else. */
  lemma VertexDeclaration(s: State, line: string, rd: Reader, rule: BodyRule)
    requires Trim(line) != [] && !StartsWith(Trim(line), "format") && !StartsWith(Trim(line), "comment")
    requires Contains(Trim(line), "element vertex")
    ensures Step(s, line, rd, rule) == Success(s.(expectedVertices := Some(ElementCount(Trim(line), "vertex"))))
  {
    var t := Trim(line);
    assert Step(s, line, rd, rule) == Success(LineStep(s, t, rd, rule));
    assert Classify(t) == ElementVertex;
  }

  /** An `element face` line sets the expected face count, replacing any
      earlier declaration; unlike the other header lines it then goes on to
      the body patterns. */
  lemma FaceDeclaration(s: State, line: string, rd: Reader, rule: BodyRule)
    requires Trim(line) != [] && !StartsWith(Trim(line), "format") && !StartsWith(Trim(line), "comment")
    requires !Contains(Trim(line), "element vertex") && Contains(Trim(line), "element face")
    requires !Contains(Trim(line), "property") && !Contains(Trim(line), "end_header")
    ensures Step(s, line, rd, rule).Failure? <==> ColourThrows(s, Words(Trim(line)), rd)
    ensures Step(s, line, rd, rule).Success? ==>
              Step(s, line, rd, rule).value.expectedFaces == Some(ElementCount(Trim(line), "face"))
  {
    UnrecognisedLine(Trim(line));
    if Step(s, line, rd, rule).Success? {
      StepIsLineStep(s, line, rd, rule);
      FaceLineStep(s, Trim(line), rd, rule);
    }
  }

  /** A non-blank line that is not a `format` line and does not throw goes on
      to `LineStep`. */
  lemma StepIsLineStep(s: State, line: string, rd: Reader, rule: BodyRule)
    requires Trim(line) != [] && !StartsWith(Trim(line), "format")
    requires !LineThrows(s, Trim(line), rd)
    ensures Step(s, line, rd, rule) == Success(LineStep(s, Trim(line), rd, rule))
  {
  }

  /** A body line the vertex pattern accepts while a colour property is
      declared throws exactly when its last colour value has a fractional
      part; otherwise it is read as without colour. */
  lemma ColourGroupRead(s: State, line: string, rd: Reader, rule: BodyRule)
    requires !StartsWith(Trim(line), "comment") && !Contains(Trim(line), "element vertex")
    requires !Contains(Trim(line), "property") && !Contains(Trim(line), "end_header")
    requires VertexLike(Words(Trim(line))) && s.vertexCount < Expected(s.expectedVertices) && s.hasColor
    ensures Step(s, line, rd, rule).Failure? <==> rd.colourFraction(Words(Trim(line)))
    ensures Step(s, line, rd, rule).Failure? ==> Step(s, line, rd, rule).error == UndefinedColourGroup
    ensures Step(s, line, rd, rule).Success? ==> Step(s, line, rd, rule).value.colors == s.colors
  {
    ColourLineThrows(s, Trim(line), rd);
    StepKeepsColours(s, line, rd, rule);
  }

  lemma ColourLineThrows(s: State, t: string, rd: Reader)
    requires !StartsWith(t, "comment") && !Contains(t, "element vertex")
    requires !Contains(t, "property") && !Contains(t, "end_header")
    requires VertexLike(Words(t)) && s.vertexCount < Expected(s.expectedVertices) && s.hasColor
    ensures t != [] && !StartsWith(t, "format")
    ensures LineThrows(s, t, rd) <==> rd.colourFraction(Words(t))
  {
    assert t != [] by {
      assert Words([]) == [];
    }
    FormatNotVertex(t);
    UnrecognisedLine(t);
  }

  /** No line stores a colour value. */
  lemma StepKeepsColours(s: State, line: string, rd: Reader, rule: BodyRule)
    ensures Step(s, line, rd, rule).Success? ==> Step(s, line, rd, rule).value.colors == s.colors
  {
    var t := Trim(line);
    if t != [] {
      LineStepKeepsColours(s, t, rd, rule);
    }
  }

  lemma LineStepKeepsColours(s: State, t: string, rd: Reader, rule: BodyRule)
    ensures LineStep(s, t, rd, rule).colors == s.colors
  {
    var kind := Classify(t);
    if kind == NotHeader {
      var s1 := if Contains(t, "element face") then s.(expectedFaces := Some(ElementCount(t, "face"))) else s;
      BodyStepKeepsColours(s1, Words(t), rd, rule);
    } else {
      DeclareKeepsColours(s, t, kind);
    }
  }

  lemma BodyStepKeepsColours(s: State, words: seq<string>, rd: Reader, rule: BodyRule)
    ensures BodyStep(s, words, rd, rule).colors == s.colors
  {
  }

  lemma DeclareKeepsColours(s: State, t: string, kind: HeaderLine)
    ensures Declare(s, t, kind).colors == s.colors
  {
  }

  lemma {:induction false} RunKeepsColours(s: State, lines: seq<string>, rd: Reader, rule: BodyRule)
    ensures Run(s, lines, rd, rule).Success? ==> Run(s, lines, rd, rule).value.colors == s.colors
    decreases |lines|
  {
    if lines != [] {
      StepKeepsColours(s, lines[0], rd, rule);
      if Step(s, lines[0], rd, rule).Success? {
        RunKeepsColours(Step(s, lines[0], rd, rule).value, lines[1..], rd, rule);
      }
    }
  }

  /** As written, a decoded PLY file never carries colours, whatever its
      header declares. */
  lemma ColoursNeverRead(data: string, rd: Reader, rule: BodyRule)
    ensures Decode(data, rd, rule).Success? ==> Decode(data, rd, rule).value.color.None?
  {
    RunKeepsColours(Init, SplitOn(data, '\n'), rd, rule);
  }

  lemma FaceLineStep(s: State, t: string, rd: Reader, rule: BodyRule)
    requires !StartsWith(t, "comment") && !Contains(t, "element vertex") && Contains(t, "element face")
    requires !Contains(t, "property") && !Contains(t, "end_header")
    ensures LineStep(s, t, rd, rule).expectedFaces == Some(ElementCount(t, "face"))
  {
    UnrecognisedLine(t);
    var s1 := s.(expectedFaces := Some(ElementCount(t, "face")));
    assert LineStep(s, t, rd, rule) == BodyStep(s1, Words(t), rd, rule);
    BodyStepKeepsHeader(s1, Words(t), rd, rule);
  }

  /** A line that is no comment, no vertex count and no property is not a
      header line the source recognises. */
  lemma UnrecognisedLine(t: string)
    requires !StartsWith(t, "comment") && !Contains(t, "element vertex") && !Contains(t, "property")
    ensures Classify(t) == NotHeader
  {
    NoPropertyLine(t);
  }

  /** The body patterns change no header variable. */
  lemma BodyStepKeepsHeader(s: State, words: seq<string>, rd: Reader, rule: BodyRule)
    ensures BodyStep(s, words, rd, rule).expectedVertices == s.expectedVertices
    ensures BodyStep(s, words, rd, rule).expectedFaces == s.expectedFaces
  {
  }

  /** A line without `property` is none of the property declarations. */
  lemma NoPropertyLine(t: string)
    requires !Contains(t, "property")
    ensures forall q :: q in PropertyDeclarations ==> !Contains(t, q)
  {
    forall q | q in PropertyDeclarations
      ensures !Contains(t, q)
    {
      assert StartsWith(q, "property");
      NotContainsExtension(t, "property", q);
    }
  }

  const PropertyDeclarations: seq<string> := [
    "property float nx", "property float ny", "property float nz",
    "property uchar red", "property float red", "property uchar green", "property float green",
    "property uchar blue", "property float blue", "property uchar alpha", "property float alpha"]

  /** A string that does not contain `p` contains nothing that starts with `p`. */
  lemma {:induction false} NotContainsExtension(s: string, p: string, q: string)
    requires !Contains(s, p) && StartsWith(q, p)
    ensures !Contains(s, q)
    decreases |s|
  {
    if |s| > 0 {
      NotContainsExtension(s[1..], p, q);
    }
  }

  /** A declaration the count pattern does not match reads as 0, and a
      non-zero count always comes from a match. */
  lemma ElementCountDefault(t: string, kind: string)
    requires kind == "vertex" || kind == "face"
    ensures (forall sp1, sp2, ds, rest :: !CountMatch(t, kind, sp1, sp2, ds, rest)) ==> ElementCount(t, kind) == 0
    ensures ElementCount(t, kind) > 0 ==>
              exists sp1, sp2, ds, rest :: CountMatch(t, kind, sp1, sp2, ds, rest) && DigitsValue(ds) == ElementCount(t, kind)
  {
    if ElementCount(t, kind) > 0 {
      var a := t[7..];
      assert t == "element" + a;
      var sp1, c := KindParts(a, kind);
      var sp2, ds, rest := NumberParts(c);
      assert CountMatch(t, kind, sp1, sp2, ds, rest);
    }
  }

  /** Where the kind part of the pattern matches, the whitespace before the
      kind and what follows it. */
  lemma KindParts(a: string, kind: string) returns (sp1: string, c: string)
    requires KindCount(a, kind) > 0
    ensures a == sp1 + (kind + c) && AllSpaces(sp1) && NumberCount(c) == KindCount(a, kind)
  {
    var n1 := SpaceRun(a);
    sp1, c := a[..n1], a[n1..][|kind|..];
    assert a[n1..] == kind + c;
    assert a == sp1 + a[n1..];
  }

  /** Where the number part of the pattern matches, its whitespace, its
      digits and what follows them. */
  lemma NumberParts(c: string) returns (sp2: string, ds: string, rest: string)
    requires NumberCount(c) > 0
    ensures c == sp2 + (ds + rest) && AllSpaces(sp2) && AllDigits(ds) && (rest == [] || !IsDigit(rest[0]))
    ensures DigitsValue(ds) == NumberCount(c)
  {
    var n2 := SpaceRun(c);
    var d := c[n2..];
    var k := DigitRun(d);
    sp2, ds, rest := c[..n2], d[..k], d[k..];
    assert d == ds + rest;
    assert c == sp2 + d;
  }

  /** A line the count pattern `^element\s+<kind>\s+(\d+)` matches, split
      into its parts: the digits `ds` are the whole captured run. */
  predicate CountMatch(t: string, kind: string, sp1: string, sp2: string, ds: string, rest: string) {
    && t == "element" + (sp1 + (kind + (sp2 + (ds + rest))))
    && AllSpaces(sp1) && AllSpaces(sp2) && AllDigits(ds)
    && (rest == [] || !IsDigit(rest[0]))
  }

  /** A line the count pattern matches declares the number its digits spell. */
  lemma ElementCountOfMatch(t: string, kind: string, sp1: string, sp2: string, ds: string, rest: string)
    requires kind == "vertex" || kind == "face"
    requires CountMatch(t, kind, sp1, sp2, ds, rest)
    ensures ElementCount(t, kind) == DigitsValue(ds)
  {
    var c := sp2 + (ds + rest);
    var a := sp1 + (kind + c);
    assert t[..7] == "element" && t[7..] == a;
    KindOfMatch(sp1, kind, c);
    NumberOfMatch(sp2, ds, rest);
  }

  lemma KindOfMatch(sp1: string, kind: string, c: string)
    requires AllSpaces(sp1) && kind != [] && !IsSpace(kind[0])
    ensures KindCount(sp1 + (kind + c), kind) == NumberCount(c)
  {
    SpaceRunOf(sp1, kind + c);
    assert (sp1 + (kind + c))[|sp1|..] == kind + c;
    assert (kind + c)[..|kind|] == kind && (kind + c)[|kind|..] == c;
  }

  lemma NumberOfMatch(sp2: string, ds: string, rest: string)
    requires AllSpaces(sp2) && AllDigits(ds) && (rest == [] || !IsDigit(rest[0]))
    ensures NumberCount(sp2 + (ds + rest)) == DigitsValue(ds)
  {
    SpaceRunOf(sp2, ds + rest);
    assert (sp2 + (ds + rest))[|sp2|..] == ds + rest;
    DigitRunOf(ds, rest);
    assert (ds + rest)[..|ds|] == ds;
  }

  /** A vertex line appends exactly three position values, and only while
      fewer vertices than declared have been read. */
  lemma VertexAcceptance(s: State, words: seq<string>, rd: Reader)
    requires Inv(s)
    ensures var s' := VertexStep(s, words, rd);
            && Inv(s')
            && |s'.positions| == 3 * s'.vertexCount
            && (s'.vertexCount > s.vertexCount ==> s'.vertexCount <= Expected(s.expectedVertices))
            && (s.vertexCount >= Expected(s.expectedVertices) ==> s' == s)
  {
  }

  /** A triangle line `3 a b c` emits `a, b, c`. */
  lemma TriangleFace(s: State, words: seq<string>)
    requires |words| == 4 && words[0] == "3"
    requires forall i :: 1 <= i < 4 ==> AllDigits(words[i])
    requires s.facesCount < Expected(s.expectedFaces)
    ensures FaceStep(s, words).indices ==
              s.indices + [Some(DigitsValue(words[1])), Some(DigitsValue(words[2])), Some(DigitsValue(words[3]))]
  {
  }

  /** A quad line `4 a b c d` emits `a, b, c, a, c, d`. */
  lemma QuadFace(s: State, words: seq<string>)
    requires |words| == 5 && words[0] == "4"
    requires forall i :: 1 <= i < 5 ==> AllDigits(words[i])
    requires s.facesCount < Expected(s.expectedFaces)
    ensures FaceStep(s, words).indices == s.indices +
              [Some(DigitsValue(words[1])), Some(DigitsValue(words[2])), Some(DigitsValue(words[3])),
               Some(DigitsValue(words[1])), Some(DigitsValue(words[3])), Some(DigitsValue(words[4]))]
  {
  }

  /** Face lines past the declared face count, and lines whose leading
      number is not 3 or 4, change nothing and are not counted. */
  lemma FaceIgnored(s: State, words: seq<string>)
    requires s.facesCount >= Expected(s.expectedFaces) || (|words| > 0 && words[0] != "3" && words[0] != "4")
    ensures FaceStep(s, words) == s
  {
  }

  /** The two patterns are independent: an all-integer line such as `3 0 1`
      read while both counts are open is counted as a vertex and as a face. */
  lemma IntegerLineCountsTwice(s: State, words: seq<string>, rd: Reader)
    requires |words| >= 3 && words[0] == "3"
    requires forall i :: 0 <= i < |words| ==> AllDigits(words[i])
    requires s.vertexCount < Expected(s.expectedVertices) && s.facesCount < Expected(s.expectedFaces)
    ensures BodyStep(s, words, rd, Independent).vertexCount == s.vertexCount + 1
    ensures BodyStep(s, words, rd, Independent).facesCount == s.facesCount + 1
  {
    forall i | 0 <= i < 3
      ensures IsNumeral(words[i])
    {
      DigitsAreNumeral(words[i]);
    }
  }

  lemma DigitsAreNumeral(w: string)
    requires AllDigits(w)
    ensures IsNumeral(w)
  {
    NumeralRunOfDigits(w);
  }

  lemma {:induction false} NumeralRunOfDigits(w: string)
    requires forall i :: 0 <= i < |w| ==> IsDigit(w[i])
    ensures NumeralRun(w) == |w|
    decreases |w|
  {
    if |w| > 0 {
      NumeralRunOfDigits(w[1..]);
    }
  }

  /** After the loop the decode throws exactly when a declared count differs
      from the count read; an undeclared element is never checked. */
  lemma DecodeOutcome(data: string, rd: Reader, rule: BodyRule)
    ensures var run := Run(Init, SplitOn(data, '\n'), rd, rule);
            run.Success? ==>
              (Decode(data, rd, rule).Failure? <==>
                 || (run.value.expectedVertices.Some? && run.value.vertexCount != run.value.expectedVertices.value)
                 || (run.value.expectedFaces.Some? && run.value.facesCount != run.value.expectedFaces.value))
  {
    InitInv();
    RunInv(Init, SplitOn(data, '\n'), rd, rule);
  }

  /** The format a `format` line names is the first space-separated word
      after `format `: `format ASCII 1.0` names `ASCII`, which `FormatLine`
      accepts, and `format binary_little_endian 1.0` names a format it
      rejects. */
  lemma FormatFieldIsSecondWord(t: string)
    ensures FormatField("format" + [' '] + t) == Some(SplitOn(t, ' ')[0])
  {
    SplitOnWord("format", ' ', t);
  }

  // ---------------------------------------------------------------------
  // Body lines in sequence

  /** The body lines of a file, already split into words, fed in order. */
  function Feed(s: State, lines: seq<seq<string>>, rd: Reader, rule: BodyRule): State
    decreases |lines|
  {
    if lines == [] then s else Feed(BodyStep(s, lines[0], rd, rule), lines[1..], rd, rule)
  }

  /** The positions a run of vertex lines contributes. */
  function PositionsOf(vs: seq<seq<string>>, rd: Reader): (p: seq<real>)
    requires forall i :: 0 <= i < |vs| ==> VertexLike(vs[i])
    ensures |p| == 3 * |vs|
  {
    if vs == [] then [] else PositionOf(vs[0], rd) + PositionsOf(vs[1..], rd)
  }

  /** The indices a run of face lines contributes. */
  function TrianglesOf(fs: seq<seq<string>>): seq<Option<nat>>
    requires forall i :: 0 <= i < |fs| ==> FaceLike(fs[i])
  {
    if fs == [] then [] else Triangulate(fs[0]) + TrianglesOf(fs[1..])
  }

  /** Under `VertexFirst`, a line never counts as both a vertex and a face. */
  lemma VertexFirstCountsOnce(s: State, words: seq<string>, rd: Reader)
    ensures var s' := BodyStep(s, words, rd, VertexFirst);
            s'.vertexCount == s.vertexCount || s'.facesCount == s.facesCount
  {
  }

  /** Under `VertexFirst`, a vertex line read while vertices are expected is
      only a vertex. */
  lemma VertexFirstLine(s: State, words: seq<string>, rd: Reader)
    requires VertexLike(words) && s.vertexCount < Expected(s.expectedVertices)
    ensures var s' := BodyStep(s, words, rd, VertexFirst);
            && s'.vertexCount == s.vertexCount + 1
            && s'.positions == s.positions + PositionOf(words, rd)
            && s'.facesCount == s.facesCount && s'.indices == s.indices
            && s'.expectedVertices == s.expectedVertices && s'.expectedFaces == s.expectedFaces
  {
  }

  /** A face line read once the vertices are complete and while faces are
      expected appends its triangulation and counts one face. */
  lemma FaceOnlyLine(s: State, words: seq<string>, rd: Reader, rule: BodyRule)
    requires FaceLike(words)
    requires s.vertexCount >= Expected(s.expectedVertices) && s.facesCount < Expected(s.expectedFaces)
    ensures BodyStep(s, words, rd, rule) == s.(facesCount := s.facesCount + 1, indices := s.indices + Triangulate(words))
  {
    assert VertexStep(s, words, rd) == s;
  }

  /** Under `VertexFirst`, vertex lines read while vertices are still
      expected append their positions and nothing else, whatever they look
      like to the face pattern. */
  lemma FeedVertices(s: State, vs: seq<seq<string>>, rd: Reader)
    requires forall i :: 0 <= i < |vs| ==> VertexLike(vs[i])
    requires s.vertexCount + |vs| <= Expected(s.expectedVertices)
    ensures var s' := Feed(s, vs, rd, VertexFirst);
            && s'.vertexCount == s.vertexCount + |vs|
            && s'.positions == s.positions + PositionsOf(vs, rd)
            && s'.facesCount == s.facesCount
            && s'.indices == s.indices
            && s'.expectedVertices == s.expectedVertices
            && s'.expectedFaces == s.expectedFaces
  {
    FeedVerticesCounts(s, vs, rd);
    FeedVerticesPositions(s, vs, rd);
  }

  lemma {:induction false} FeedVerticesCounts(s: State, vs: seq<seq<string>>, rd: Reader)
    requires forall i :: 0 <= i < |vs| ==> VertexLike(vs[i])
    requires s.vertexCount + |vs| <= Expected(s.expectedVertices)
    ensures var s' := Feed(s, vs, rd, VertexFirst);
            && s'.vertexCount == s.vertexCount + |vs|
            && s'.facesCount == s.facesCount
            && s'.indices == s.indices
            && s'.expectedVertices == s.expectedVertices
            && s'.expectedFaces == s.expectedFaces
    decreases |vs|
  {
    if vs != [] {
      VertexFirstLine(s, vs[0], rd);
      FeedVerticesCounts(BodyStep(s, vs[0], rd, VertexFirst), vs[1..], rd);
    }
  }

  lemma {:induction false} FeedVerticesPositions(s: State, vs: seq<seq<string>>, rd: Reader)
    requires forall i :: 0 <= i < |vs| ==> VertexLike(vs[i])
    requires s.vertexCount + |vs| <= Expected(s.expectedVertices)
    ensures Feed(s, vs, rd, VertexFirst).positions == s.positions + PositionsOf(vs, rd)
    decreases |vs|
  {
    if vs != [] {
      VertexFirstLine(s, vs[0], rd);
      var s1 := BodyStep(s, vs[0], rd, VertexFirst);
      FeedVerticesPositions(s1, vs[1..], rd);
      var p, rest := PositionOf(vs[0], rd), PositionsOf(vs[1..], rd);
      assert PositionsOf(vs, rd) == p + rest;
      ConcatAssoc(s.positions, p, rest);
    }
  }

  lemma ConcatAssoc<T>(a: seq<T>, b: seq<T>, c: seq<T>)
    ensures (a + b) + c == a + (b + c)
  {
  }

  /** Once the declared vertices are read, face lines append their
      triangulations and nothing else. */
  lemma {:induction false} FeedFaces(s: State, fs: seq<seq<string>>, rd: Reader, rule: BodyRule)
    requires forall i :: 0 <= i < |fs| ==> FaceLike(fs[i])
    requires s.vertexCount >= Expected(s.expectedVertices)
    requires s.facesCount + |fs| <= Expected(s.expectedFaces)
    ensures var s' := Feed(s, fs, rd, rule);
            && s'.facesCount == s.facesCount + |fs|
            && s'.indices == s.indices + TrianglesOf(fs)
            && s'.vertexCount == s.vertexCount
            && s'.positions == s.positions
            && s'.expectedVertices == s.expectedVertices
            && s'.expectedFaces == s.expectedFaces
    decreases |fs|
  {
    if fs != [] {
      FaceOnlyLine(s, fs[0], rd, rule);
      var s1 := BodyStep(s, fs[0], rd, rule);
      FeedFaces(s1, fs[1..], rd, rule);
      assert TrianglesOf(fs) == Triangulate(fs[0]) + TrianglesOf(fs[1..]);
      ConcatAssoc(s.indices, Triangulate(fs[0]), TrianglesOf(fs[1..]));
    }
  }

  lemma {:induction false} FeedAppend(s: State, a: seq<seq<string>>, b: seq<seq<string>>, rd: Reader, rule: BodyRule)
    ensures Feed(s, a + b, rd, rule) == Feed(Feed(s, a, rd, rule), b, rd, rule)
    decreases |a|
  {
    if a == [] {
      assert a + b == b;
    } else {
      assert (a + b)[0] == a[0];
      assert (a + b)[1..] == a[1..] + b;
      FeedAppend(BodyStep(s, a[0], rd, rule), a[1..], b, rd, rule);
    }
  }

  /** Under `VertexFirst`, a body of exactly the declared vertex lines
      followed by exactly the declared face lines reads back as written:
      every vertex's position in order and every face's triangulation in
      order, and the count check passes. */
  lemma SequentialBody(s: State, vs: seq<seq<string>>, fs: seq<seq<string>>, rd: Reader)
    requires Inv(s) && s.vertexCount == 0 && s.facesCount == 0 && s.positions == [] && s.indices == []
    requires s.expectedVertices == Some(|vs|) && s.expectedFaces == Some(|fs|)
    requires forall i :: 0 <= i < |vs| ==> VertexLike(vs[i])
    requires forall i :: 0 <= i < |fs| ==> FaceLike(fs[i])
    ensures var s' := Feed(s, vs + fs, rd, VertexFirst);
            && Inv(s')
            && s'.positions == PositionsOf(vs, rd)
            && s'.indices == TrianglesOf(fs)
            && Finish(s').Success?
  {
    FeedAppend(s, vs, fs, rd, VertexFirst);
    FeedVertices(s, vs, rd);
    var s1 := Feed(s, vs, rd, VertexFirst);
    FeedFaces(s1, fs, rd, VertexFirst);
    var s2 := Feed(s1, fs, rd, VertexFirst);
    assert s2 == Feed(s, vs + fs, rd, VertexFirst);
    FeedInv(s, vs + fs, rd, VertexFirst);
    assert s2.vertexCount == |vs| && s2.facesCount == |fs|;
    assert s2.expectedVertices == Some(|vs|) && s2.expectedFaces == Some(|fs|);
  }

  lemma {:induction false} FeedInv(s: State, lines: seq<seq<string>>, rd: Reader, rule: BodyRule)
    requires Inv(s)
    ensures Inv(Feed(s, lines, rd, rule))
    decreases |lines|
  {
    if lines != [] {
      BodyStepInv(s, lines[0], rd, rule);
      FeedInv(BodyStep(s, lines[0], rd, rule), lines[1..], rd, rule);
    }
  }

  /** A header that declares three vertices and one face. */
  const OneTriangleHeader: State := Init.(expectedVertices := Some(3), expectedFaces := Some(1))

  /** The body `3 0 0` / `0 1 0` / `0 0 1` / `3 0 1 2`: three vertices with
      integer coordinates and one triangle over them. */
  const OneTriangleBody: seq<seq<string>> := [["3", "0", "0"], ["0", "1", "0"], ["0", "0", "1"], ["3", "0", "1", "2"]]

  /** A line of three or more integer words matches the vertex pattern. */
  lemma IntegerVertex(words: seq<string>)
    requires |words| >= 3 && forall i :: 0 <= i < |words| ==> AllDigits(words[i])
    ensures VertexLike(words)
  {
    DigitsAreNumeral(words[0]);
    DigitsAreNumeral(words[1]);
    DigitsAreNumeral(words[2]);
  }

  /** A vertex line that is no face line, read while vertices are expected,
      counts as a vertex only. */
  lemma VertexOnlyLine(s: State, words: seq<string>, rd: Reader)
    requires VertexLike(words) && !FaceLike(words) && s.vertexCount < Expected(s.expectedVertices)
    ensures var s' := BodyStep(s, words, rd, Independent);
            && s'.vertexCount == s.vertexCount + 1 && s'.facesCount == s.facesCount
            && s'.indices == s.indices
            && s'.expectedVertices == s.expectedVertices && s'.expectedFaces == s.expectedFaces
  {
  }

  /** Feeding a non-empty run of lines is one step followed by the rest. */
  lemma FeedCons(s: State, w: seq<string>, rest: seq<seq<string>>, rd: Reader, rule: BodyRule)
    ensures Feed(s, [w] + rest, rd, rule) == Feed(BodyStep(s, w, rd, rule), rest, rd, rule)
  {
    assert ([w] + rest)[0] == w && ([w] + rest)[1..] == rest;
  }

  /** Once both declared counts are reached, no body line changes anything. */
  lemma CountsReachedIgnore(s: State, words: seq<string>, rd: Reader, rule: BodyRule)
    requires s.vertexCount >= Expected(s.expectedVertices) && s.facesCount >= Expected(s.expectedFaces)
    ensures BodyStep(s, words, rd, rule) == s
  {
  }

  /** The line `3 0 0` read while both counts are open is a vertex and also
      the triangle `0, 0, undefined`. */
  lemma FirstLineMisread(s: State, rd: Reader)
    requires s.vertexCount < Expected(s.expectedVertices) && s.facesCount < Expected(s.expectedFaces)
    ensures var s' := BodyStep(s, ["3", "0", "0"], rd, Independent);
            && s'.vertexCount == s.vertexCount + 1 && s'.facesCount == s.facesCount + 1
            && s'.indices == s.indices + [Some(0), Some(0), None]
            && s'.expectedVertices == s.expectedVertices && s'.expectedFaces == s.expectedFaces
  {
    var w := ["3", "0", "0"];
    assert AllDigits(w[0]) && AllDigits(w[1]) && AllDigits(w[2]);
    IntegerLineCountsTwice(s, w, rd);
    assert DigitsValue("0") == 0;
    assert Triangulate(w) == [Some(0), Some(0), None];
  }

  /** As the source reads it, the first vertex line also matches the face
      pattern and is taken as the one declared face, emitting `0, 0,
      undefined`; the real triangle line is then over the face count and is
      dropped, yet the count check passes. */
  lemma IndependentMisreadsTriangle(rd: Reader)
    ensures var s' := Feed(OneTriangleHeader, OneTriangleBody, rd, Independent);
            && s'.vertexCount == 3 && s'.facesCount == 1
            && s'.indices == [Some(0), Some(0), None]
            && Inv(s') && Finish(s').Success?
  {
    var a, b, c, d := ["3", "0", "0"], ["0", "1", "0"], ["0", "0", "1"], ["3", "0", "1", "2"];
    assert OneTriangleBody == [a] + ([b] + ([c] + ([d] + [])));
    var s0 := OneTriangleHeader;
    FirstLineMisread(s0, rd);
    var s1 := BodyStep(s0, a, rd, Independent);
    assert AllDigits(b[0]) && AllDigits(b[1]) && AllDigits(b[2]);
    IntegerVertex(b);
    VertexOnlyLine(s1, b, rd);
    var s2 := BodyStep(s1, b, rd, Independent);
    assert AllDigits(c[0]) && AllDigits(c[1]) && AllDigits(c[2]);
    IntegerVertex(c);
    VertexOnlyLine(s2, c, rd);
    var s3 := BodyStep(s2, c, rd, Independent);
    CountsReachedIgnore(s3, d, rd, Independent);
    FeedCons(s0, a, [b] + ([c] + ([d] + [])), rd, Independent);
    FeedCons(s1, b, [c] + ([d] + []), rd, Independent);
    FeedCons(s2, c, [d] + [], rd, Independent);
    FeedCons(s3, d, [], rd, Independent);
    FeedInv(s0, OneTriangleBody, rd, Independent);
  }

  /** Under `VertexFirst` the same body reads as the triangle `0, 1, 2`. */
  lemma VertexFirstReadsTriangle(rd: Reader)
    ensures Feed(OneTriangleHeader, OneTriangleBody, rd, VertexFirst).indices == [Some(0), Some(1), Some(2)]
  {
    var b := OneTriangleBody;
    DigitsAreNumeral("3");
    DigitsAreNumeral("0");
    DigitsAreNumeral("1");
    assert AllDigits(b[3][1]) && AllDigits(b[3][2]) && AllDigits(b[3][3]);
    assert DigitsValue("0") == 0 && DigitsValue("1") == 1 && DigitsValue("2") == 2;
    SequentialBody(OneTriangleHeader, b[..3], b[3..], rd);
    assert b[..3] + b[3..] == b;
  }
}

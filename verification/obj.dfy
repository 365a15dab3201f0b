/** The Wavefront OBJ decoder (`parseOBJ`): a line-by-line pass that keeps
    the declared positions, texture coordinates and normals in three lists,
    each starting with a dummy entry so that 1-based indices address them
    directly, and for every face reference copies the referenced tuples to
    three output streams in face (fan-triangulated) order.

    Every way the source fails on a bad reference (an index that is not a
    number, that resolves outside its list, or a fourth `/` slot) is a
    `TypeError` thrown from the spread; here each is a `Failure`. */
module Obj {
  import opened Wrappers
  import opened Text

  /** Attribute slots of a face reference `p/t/n`, in order. */
  const Slots: nat := 3

  datatype State = State(
    positions: seq<seq<real>>,
    texcoords: seq<seq<real>>,
    normals: seq<seq<real>>,
    outPositions: seq<real>,
    outTexcoords: seq<real>,
    outNormals: seq<real>)
  {
    /** The list slot `i` of a face reference indexes. */
    function List(i: nat): seq<seq<real>>
      requires i < Slots
    {
      if i == 0 then positions else if i == 1 then texcoords else normals
    }

    /** The output stream slot `i` feeds. */
    function Out(i: nat): seq<real>
      requires i < Slots
    {
      if i == 0 then outPositions else if i == 1 then outTexcoords else outNormals
    }

    /** `webglVertexData[i].push(...tuple)`. */
    function Emit(i: nat, tuple: seq<real>): (s': State)
      requires i < Slots
      ensures s'.Out(i) == Out(i) + tuple
      ensures forall j :: 0 <= j < Slots && j != i ==> s'.Out(j) == Out(j)
      ensures forall j :: 0 <= j < Slots ==> s'.List(j) == List(j)
    {
      if i == 0 then this.(outPositions := outPositions + tuple)
      else if i == 1 then this.(outTexcoords := outTexcoords + tuple)
      else this.(outNormals := outNormals + tuple)
    }
  }

  /** The lists start with a dummy `[0,0,0]`, `[0,0]`, `[0,0,0]`; the streams
      start empty. */
  const Init: State := State([[0.0, 0.0, 0.0]], [[0.0, 0.0]], [[0.0, 0.0, 0.0]], [], [], [])

  datatype ObjError =
    | NoSuchSlot(slot: nat)                       // a fourth `/`-separated field
    | NotAnIndex(text: string)                    // `parseInt` gives NaN
    | OutOfRange(slot: nat, index: int)           // resolves outside the list

  datatype ObjResult = ObjResult(position: seq<real>, texcoord: seq<real>, normal: seq<real>)

  // ---------------------------------------------------------------------
  // References

  /** `objIndex + (objIndex >= 0 ? 0 : list.length)`. */
  function Resolve(k: int, length: nat): int {
    if k >= 0 then k else k + length
  }

  /** A slot of a reference the source accepts: empty, or a number that
      resolves inside its list. */
  predicate SlotOk(s: State, piece: string, i: nat) {
    piece == [] ||
    (i < Slots && ParseInt(piece).Some? && 0 <= Resolve(ParseInt(piece).value, |s.List(i)|) < |s.List(i)|)
  }

  /** The tuple slot `i` of a reference copies, or nothing for an empty or
      absent slot. */
  function Referenced(s: State, pieces: seq<string>, i: nat): seq<real>
    requires i < Slots
    requires i < |pieces| ==> SlotOk(s, pieces[i], i)
  {
    if i < |pieces| && pieces[i] != [] then s.List(i)[Resolve(ParseInt(pieces[i]).value, |s.List(i)|)] else []
  }

  /** One slot of `addVertex`'s `forEach`. */
  function AddSlot(s: State, piece: string, i: nat): (r: Result<State, ObjError>)
    ensures r.Success? <==> SlotOk(s, piece, i)
  {
    if piece == [] then Success(s)
    else if i >= Slots then Failure(NoSuchSlot(i))
    else match ParseInt(piece)
      case None => Failure(NotAnIndex(piece))
      case Some(k) =>
        var list := s.List(i);
        var index := Resolve(k, |list|);
        if 0 <= index < |list| then Success(s.Emit(i, list[index])) else Failure(OutOfRange(i, k))
  }

  /** The slots `pieces[i..]`, at their positions `i`, `i + 1`, ... */
  function AddSlots(s: State, pieces: seq<string>, i: nat): (r: Result<State, ObjError>)
    decreases |pieces| - i
  {
    if i >= |pieces| then Success(s)
    else match AddSlot(s, pieces[i], i)
      case Failure(e) => Failure(e)
      case Success(s') => AddSlots(s', pieces, i + 1)
  }

  /** `addVertex(vert)`: one face corner `p`, `p/t`, `p//n` or `p/t/n`. */
  function AddVertex(s: State, vert: string): (r: Result<State, ObjError>)
    ensures r.Success? ==> forall i :: 0 <= i < |SplitOn(vert, '/')| ==> SlotOk(s, SplitOn(vert, '/')[i], i)
    ensures (forall i :: 0 <= i < |SplitOn(vert, '/')| ==> SlotOk(s, SplitOn(vert, '/')[i], i)) ==> r.Success?
    ensures r.Success? ==> forall j :: 0 <= j < Slots ==> r.value.List(j) == s.List(j)
    ensures r.Success? ==> forall j :: 0 <= j < Slots ==>
              r.value.Out(j) == s.Out(j) + Referenced(s, SplitOn(vert, '/'), j)
  {
    var pieces := SplitOn(vert, '/');
    AddSlotsOk(s, pieces, 0);
    var r := AddSlots(s, pieces, 0);
    assert r.Success? <==> forall i :: 0 <= i < |pieces| ==> SlotOk(s, pieces[i], i);
    if r.Success? then
      AddSlotsOut(s, pieces, 0);
      r
    else r
  }

  /** Whether a slot is accepted depends only on the lists. */
  lemma SlotOkLists(s: State, s': State, piece: string, i: nat)
    requires forall j :: 0 <= j < Slots ==> s'.List(j) == s.List(j)
    ensures SlotOk(s', piece, i) <==> SlotOk(s, piece, i)
  {
  }

  /** The slot fold succeeds exactly when every slot from `i` on is accepted,
      and it never changes the lists. */
  lemma {:induction false} AddSlotsOk(s: State, pieces: seq<string>, i: nat)
    ensures AddSlots(s, pieces, i).Success? <==> forall j :: i <= j < |pieces| ==> SlotOk(s, pieces[j], j)
    ensures AddSlots(s, pieces, i).Success? ==> forall j :: 0 <= j < Slots ==>
              AddSlots(s, pieces, i).value.List(j) == s.List(j)
    decreases |pieces| - i
  {
    if i < |pieces| {
      var r := AddSlot(s, pieces[i], i);
      if r.Success? {
        var s1 := r.value;
        assert forall j :: 0 <= j < Slots ==> s1.List(j) == s.List(j);
        AddSlotsOk(s1, pieces, i + 1);
        forall j | i < j < |pieces|
          ensures SlotOk(s1, pieces[j], j) <==> SlotOk(s, pieces[j], j)
        {
          SlotOkLists(s, s1, pieces[j], j);
        }
      }
    }
  }

  /** The slot fold appends, to each stream from slot `i` on, the tuple that
      slot references. */
  lemma {:induction false} AddSlotsOut(s: State, pieces: seq<string>, i: nat)
    requires forall j :: i <= j < |pieces| ==> SlotOk(s, pieces[j], j)
    ensures AddSlots(s, pieces, i).Success?
    ensures forall j :: 0 <= j < Slots ==>
              AddSlots(s, pieces, i).value.Out(j) == s.Out(j) + (if j >= i then Referenced(s, pieces, j) else [])
    decreases |pieces| - i
  {
    AddSlotsOk(s, pieces, i);
    if i < |pieces| {
      var s1 := AddSlot(s, pieces[i], i).value;
      assert forall j :: 0 <= j < Slots ==> s1.List(j) == s.List(j);
      forall j | i < j < |pieces|
        ensures SlotOk(s1, pieces[j], j)
      {
        SlotOkLists(s, s1, pieces[j], j);
      }
      AddSlotsOut(s1, pieces, i + 1);
      forall j | 0 <= j < Slots
        ensures AddSlots(s, pieces, i).value.Out(j) == s.Out(j) + (if j >= i then Referenced(s, pieces, j) else [])
      {
        if j == i {
          assert s1.Out(j) == s.Out(j) + Referenced(s, pieces, j);
        } else {
          assert s1.Out(j) == s.Out(j);
          if j > i {
            assert Referenced(s1, pieces, j) == Referenced(s, pieces, j);
          }
        }
      }
    }
  }

  // ---------------------------------------------------------------------
  // Faces

  /** The source's loop `for (tri = 0; tri < parts.length - 2; ++tri)`
      from `tri` on: corners `parts[0]`, `parts[tri + 1]`, `parts[tri + 2]`. */
  function FaceFrom(s: State, parts: seq<string>, tri: nat): Result<State, ObjError>
    decreases |parts| - tri
  {
    if tri + 2 >= |parts| then Success(s)
    else match AddCorners(s, [parts[0], parts[tri + 1], parts[tri + 2]])
      case Failure(e) => Failure(e)
      case Success(s') => FaceFrom(s', parts, tri + 1)
  }

  /** The `f` handler. */
  function Face(s: State, parts: seq<string>): Result<State, ObjError> {
    FaceFrom(s, parts, 0)
  }

  /** `addVertex` on each corner in turn, stopping at the first failure. */
  function AddCorners(s: State, corners: seq<string>): Result<State, ObjError>
    decreases |corners|
  {
    if corners == [] then Success(s)
    else match AddVertex(s, corners[0])
      case Failure(e) => Failure(e)
      case Success(s') => AddCorners(s', corners[1..])
  }

  /** The corners of the fan over a polygon: triangle `t` is `parts[0]`,
      `parts[t + 1]`, `parts[t + 2]`. */
  function FanCorners(parts: seq<string>): (corners: seq<string>)
    ensures |corners| == if |parts| < 3 then 0 else 3 * (|parts| - 2)
  {
    if |parts| < 3 then []
    else seq(3 * (|parts| - 2), j requires 0 <= j < 3 * (|parts| - 2) =>
           if j % 3 == 0 then parts[0] else parts[j / 3 + j % 3])
  }

  lemma {:induction false} AddCornersAppend(s: State, a: seq<string>, b: seq<string>)
    ensures AddCorners(s, a + b) == match AddCorners(s, a)
                                    case Failure(e) => Failure(e)
                                    case Success(s') => AddCorners(s', b)
    decreases |a|
  {
    if a == [] {
      assert a + b == b;
    } else {
      assert (a + b)[0] == a[0];
      assert (a + b)[1..] == a[1..] + b;
      var r := AddVertex(s, a[0]);
      if r.Success? {
        AddCornersAppend(r.value, a[1..], b);
      }
    }
  }

  /** The loop emits the fan: a polygon of `n >= 3` references yields the
      `n - 2` triangles `(p0, p[t+1], p[t+2])` in order, and a shorter one
      yields nothing. */
  lemma FaceIsFan(s: State, parts: seq<string>)
    ensures Face(s, parts) == AddCorners(s, FanCorners(parts))
  {
    if |parts| >= 3 {
      FaceFromFan(s, parts, 0);
      assert FanCorners(parts)[0..] == FanCorners(parts);
    }
  }

  lemma {:induction false} FaceFromFan(s: State, parts: seq<string>, tri: nat)
    requires |parts| >= 3 && tri <= |parts| - 2
    ensures FaceFrom(s, parts, tri) == AddCorners(s, FanCorners(parts)[3 * tri..])
    decreases |parts| - tri
  {
    var fan := FanCorners(parts);
    if tri + 2 >= |parts| {
      assert fan[3 * tri..] == [];
    } else {
      var tri3 := [parts[0], parts[tri + 1], parts[tri + 2]];
      assert fan[3 * tri..] == tri3 + fan[3 * (tri + 1)..] by {
        assert fan[3 * tri] == parts[0];
        assert fan[3 * tri + 1] == parts[tri + 1];
        assert fan[3 * tri + 2] == parts[tri + 2];
      }
      AddCornersAppend(s, tri3, fan[3 * (tri + 1)..]);
      var r := AddCorners(s, tri3);
      if r.Success? {
        FaceFromFan(r.value, parts, tri + 1);
      }
    }
  }

  // ---------------------------------------------------------------------
  // Lines

  /** The length of the longest `\w` prefix. */
  function WordCharRun(s: string): (n: nat)
    ensures n <= |s|
  {
    if |s| == 0 || !IsWordChar(s[0]) then 0 else 1 + WordCharRun(s[1..])
  }

  /** The keyword `(\w*)` captures at the start of a line. */
  function Keyword(t: string): string {
    t[..WordCharRun(t)]
  }

  /** `line.split(/\s+/).slice(1)` of a trimmed line. */
  function Parts(t: string): seq<string> {
    var ws := Words(t);
    if ws == [] then [] else ws[1..]
  }

  /** `parts.map(parseFloat)`. */
  function Tuple(parts: seq<string>, parseFloat: string -> real): (r: seq<real>)
    ensures |r| == |parts|
    ensures forall i :: 0 <= i < |parts| ==> r[i] == parseFloat(parts[i])
  {
    seq(|parts|, i requires 0 <= i < |parts| => parseFloat(parts[i]))
  }

  /** One line of the file. Blank lines and `#` comments are skipped; a line
      whose keyword has no handler is ignored. */
  function Step(s: State, line: string, parseFloat: string -> real): Result<State, ObjError> {
    var t := Trim(line);
    if t == [] || StartsWith(t, "#") then Success(s)
    else
      var keyword, parts := Keyword(t), Parts(t);
      if keyword == "v" then Success(s.(positions := s.positions + [Tuple(parts, parseFloat)]))
      else if keyword == "vn" then Success(s.(normals := s.normals + [Tuple(parts, parseFloat)]))
      else if keyword == "vt" then Success(s.(texcoords := s.texcoords + [Tuple(parts, parseFloat)]))
      else if keyword == "f" then Face(s, parts)
      else Success(s)
  }

  function Run(s: State, lines: seq<string>, parseFloat: string -> real): Result<State, ObjError>
    decreases |lines|
  {
    if lines == [] then Success(s)
    else match Step(s, lines[0], parseFloat)
      case Failure(e) => Failure(e)
      case Success(s') => Run(s', lines[1..], parseFloat)
  }

  /** `parseOBJ(text)`. */
  function Decode(text: string, parseFloat: string -> real): (r: Result<ObjResult, ObjError>)
    ensures r.Success? ==>
              var run := Run(Init, SplitOn(text, '\n'), parseFloat);
              && run.Success?
              && r.value == ObjResult(run.value.outPositions, run.value.outTexcoords, run.value.outNormals)
  {
    match Run(Init, SplitOn(text, '\n'), parseFloat)
    case Failure(e) => Failure(e)
    case Success(s) => Success(ObjResult(s.outPositions, s.outTexcoords, s.outNormals))
  }

  // ---------------------------------------------------------------------
  // Properties

  /** Every reachable state keeps the dummy entries at index 0. */
  predicate Inv(s: State) {
    && |s.positions| >= 1 && s.positions[0] == [0.0, 0.0, 0.0]
    && |s.texcoords| >= 1 && s.texcoords[0] == [0.0, 0.0]
    && |s.normals| >= 1 && s.normals[0] == [0.0, 0.0, 0.0]
  }

  /** One state's streams are a prefix of another's: output is only ever
      appended to. */
  predicate Extends(s: State, s': State) {
    forall j :: 0 <= j < Slots ==> s.Out(j) <= s'.Out(j)
  }

  lemma InitInv()
    ensures Inv(Init)
    ensures Init.outPositions == [] && Init.outTexcoords == [] && Init.outNormals == []
  {
  }

  /** Corners never touch the lists and only append to the streams. */
  lemma {:induction false} AddCornersKeeps(s: State, corners: seq<string>)
    ensures AddCorners(s, corners).Success? ==>
              && (forall j :: 0 <= j < Slots ==> AddCorners(s, corners).value.List(j) == s.List(j))
              && Extends(s, AddCorners(s, corners).value)
    decreases |corners|
  {
    if corners != [] {
      var r := AddVertex(s, corners[0]);
      if r.Success? {
        AddCornersKeeps(r.value, corners[1..]);
      }
    }
  }

  /** A line keeps the dummies and only appends to the streams. */
  lemma StepInv(s: State, line: string, parseFloat: string -> real)
    requires Inv(s)
    ensures Step(s, line, parseFloat).Success? ==>
              Inv(Step(s, line, parseFloat).value) && Extends(s, Step(s, line, parseFloat).value)
  {
    var t := Trim(line);
    if t != [] && !StartsWith(t, "#") && Keyword(t) == "f" {
      assert Step(s, line, parseFloat) == Face(s, Parts(t));
      FaceKeeps(s, Parts(t));
      var r := Face(s, Parts(t));
      if r.Success? {
        assert r.value.List(0) == s.List(0) && r.value.List(1) == s.List(1) && r.value.List(2) == s.List(2);
      }
    } else {
      ListLineKeeps(s, Step(s, line, parseFloat).value);
    }
  }

  /** A line other than a face only appends to the lists, if anything. */
  lemma ListLineKeeps(s: State, s': State)
    requires Inv(s)
    requires s'.outPositions == s.outPositions && s'.outTexcoords == s.outTexcoords && s'.outNormals == s.outNormals
    requires s.positions <= s'.positions && s.texcoords <= s'.texcoords && s.normals <= s'.normals
    ensures Inv(s') && Extends(s, s')
  {
  }

  /** A face never touches the lists and only appends to the streams. */
  lemma FaceKeeps(s: State, parts: seq<string>)
    ensures Face(s, parts).Success? ==>
              && (forall j :: 0 <= j < Slots ==> Face(s, parts).value.List(j) == s.List(j))
              && Extends(s, Face(s, parts).value)
  {
    FaceIsFan(s, parts);
    AddCornersKeeps(s, FanCorners(parts));
  }

  lemma {:induction false} RunInv(s: State, lines: seq<string>, parseFloat: string -> real)
    requires Inv(s)
    ensures Run(s, lines, parseFloat).Success? ==>
              Inv(Run(s, lines, parseFloat).value) && Extends(s, Run(s, lines, parseFloat).value)
    decreases |lines|
  {
    if lines != [] {
      StepInv(s, lines[0], parseFloat);
      var r := Step(s, lines[0], parseFloat);
      if r.Success? {
        RunInv(r.value, lines[1..], parseFloat);
      }
    }
  }

  /** Blank lines and lines starting with `#` change nothing. */
  lemma SkippedLine(s: State, line: string, parseFloat: string -> real)
    requires Trim(line) == [] || StartsWith(Trim(line), "#")
    ensures Step(s, line, parseFloat) == Success(s)
  {
  }

  /** A keyword other than `v`, `vn`, `vt` and `f` changes nothing. */
  lemma UnknownKeyword(s: State, line: string, parseFloat: string -> real)
    requires Keyword(Trim(line)) !in {"v", "vn", "vt", "f"}
    ensures Step(s, line, parseFloat) == Success(s)
  {
  }

  /** `v`, `vn` and `vt` append the parsed tuple to their own list and
      change nothing else. */
  lemma Declaration(s: State, line: string, parseFloat: string -> real)
    requires Trim(line) != [] && !StartsWith(Trim(line), "#")
    requires Keyword(Trim(line)) in {"v", "vn", "vt"}
    ensures var r := Step(s, line, parseFloat);
            var tuple := Tuple(Parts(Trim(line)), parseFloat);
            && r.Success?
            && |tuple| == |Parts(Trim(line))|
            && (Keyword(Trim(line)) == "v" ==> r.value == s.(positions := s.positions + [tuple]))
            && (Keyword(Trim(line)) == "vn" ==> r.value == s.(normals := s.normals + [tuple]))
            && (Keyword(Trim(line)) == "vt" ==> r.value == s.(texcoords := s.texcoords + [tuple]))
  {
  }

  /** With the dummy in front, a positive index `k` copies the `k`-th
      declared tuple. */
  lemma PositiveIndex(s: State, piece: string, i: nat, declared: seq<seq<real>>)
    requires i < Slots && |s.List(i)| == |declared| + 1 && s.List(i)[1..] == declared
    requires ParseInt(piece).Some? && 1 <= ParseInt(piece).value <= |declared|
    ensures AddSlot(s, piece, i) == Success(s.Emit(i, declared[ParseInt(piece).value - 1]))
  {
  }

  /** A negative index counts back from the end of the list, dummy included:
      `-1` copies the last declared tuple, and `-(n + 1)` after `n`
      declarations reaches the dummy. */
  lemma NegativeIndex(s: State, piece: string, i: nat, declared: seq<seq<real>>)
    requires i < Slots && |s.List(i)| == |declared| + 1 && s.List(i)[1..] == declared
    requires ParseInt(piece).Some? && -(|declared| + 1) <= ParseInt(piece).value <= -1
    ensures ParseInt(piece).value == -1 && |declared| > 0 ==>
              AddSlot(s, piece, i) == Success(s.Emit(i, declared[|declared| - 1]))
    ensures ParseInt(piece).value == -(|declared| + 1) ==>
              AddSlot(s, piece, i) == Success(s.Emit(i, s.List(i)[0]))
    ensures ParseInt(piece).value > -(|declared| + 1) ==>
              AddSlot(s, piece, i) == Success(s.Emit(i, declared[|declared| + ParseInt(piece).value]))
  {
  }

  /** An index that resolves outside its list throws. */
  lemma IndexOutOfRange(s: State, piece: string, i: nat)
    requires i < Slots && ParseInt(piece).Some?
    requires ParseInt(piece).value >= |s.List(i)| || ParseInt(piece).value < -|s.List(i)|
    ensures AddSlot(s, piece, i) == Failure(OutOfRange(i, ParseInt(piece).value))
  {
  }

  /** An empty slot (`a//c`) copies nothing for its attribute. */
  lemma EmptySlot(s: State, vert: string, i: nat)
    requires i < Slots && i < |SplitOn(vert, '/')| && SplitOn(vert, '/')[i] == []
    ensures AddVertex(s, vert).Success? ==> AddVertex(s, vert).value.Out(i) == s.Out(i)
  {
  }

  /** A face with fewer than three references emits nothing. */
  lemma ShortFace(s: State, parts: seq<string>)
    requires |parts| < 3
    ensures Face(s, parts) == Success(s)
  {
  }

  /** A decode that gets through every line returns its streams, and the
      dummy entries are still in place at the end. */
  lemma DecodeStreams(text: string, parseFloat: string -> real)
    ensures var run := Run(Init, SplitOn(text, '\n'), parseFloat);
            run.Success? ==> Inv(run.value) && Decode(text, parseFloat).Success?
  {
    InitInv();
    RunInv(Init, SplitOn(text, '\n'), parseFloat);
  }
}

/** `hexToRGBA` and the cube fixture `createCubeMesh`. */
module Utils {
  import opened Wrappers
  import opened Text
  import opened Vectors
  import opened Meshes

  // ---------------------------------------------------------------------
  // Hex colours

  /** `s.replace('#', '')`: only the first `#` goes. */
  function RemoveFirstHash(s: string): (r: string)
    ensures '#' !in s ==> r == s
    ensures |s| > 0 && s[0] == '#' ==> r == s[1..]
    ensures forall i :: 0 <= i < |s| && s[i] == '#' && '#' !in s[..i] ==> r == s[..i] + s[i + 1..]
  {
    if s == [] then []
    else if s[0] == '#' then s[1..]
    else [s[0]] + RemoveFirstHash(s[1..])
  }

  /** `s.split('').map(c => c + c).join('')`. */
  function Doubled(s: string): (r: string)
    ensures |r| == 2 * |s|
    ensures forall i :: 0 <= i < |s| ==> r[2 * i] == s[i] && r[2 * i + 1] == s[i]
  {
    if s == [] then [] else [s[0], s[0]] + Doubled(s[1..])
  }

  /** `s.substring(a, b)` for `0 <= a <= b`: clamped to the string. */
  function Substring(s: string, a: nat, b: nat): string
    requires a <= b
  {
    if a >= |s| then [] else s[a..if b <= |s| then b else |s|]
  }

  predicate IsHexDigit(c: char) {
    IsDigit(c) || 'a' <= c <= 'f' || 'A' <= c <= 'F'
  }

  function HexValue(c: char): (n: nat)
    requires IsHexDigit(c)
    ensures n < 16
  {
    if IsDigit(c) then c as int - '0' as int
    else if 'a' <= c <= 'f' then c as int - 'a' as int + 10
    else c as int - 'A' as int + 10
  }

  function HexRun(s: string): (n: nat)
    ensures n <= |s|
    ensures forall i :: 0 <= i < n ==> IsHexDigit(s[i])
  {
    if |s| == 0 || !IsHexDigit(s[0]) then 0 else 1 + HexRun(s[1..])
  }

  /** The value of a run of hex digits. */
  function HexDigitsValue(s: string): nat
    requires forall i :: 0 <= i < |s| ==> IsHexDigit(s[i])
  {
    if |s| == 0 then 0 else 16 * HexDigitsValue(s[..|s| - 1]) + HexValue(s[|s| - 1])
  }

  /** `parseInt(s, 16)`: leading whitespace is skipped, then an optional
      sign and an optional `0x`, then the longest run of hex digits is read;
      `None` is NaN. */
  function ParseHex(s: string): Option<int> {
    if |s| > 0 && IsSpace(s[0]) then ParseHex(s[1..]) else SignedHex(s)
  }

  /** `parseInt(s, 16)` on a string that does not start with whitespace. */
  function SignedHex(t: string): Option<int> {
    var negative := |t| > 0 && t[0] == '-';
    var u := if |t| > 0 && (t[0] == '-' || t[0] == '+') then t[1..] else t;
    var w := if |u| >= 2 && u[0] == '0' && (u[1] == 'x' || u[1] == 'X') then u[2..] else u;
    var n := HexRun(w);
    if n == 0 then None
    else
      var magnitude: int := HexDigitsValue(w[..n]);
      Some(if negative then -magnitude else magnitude)
  }

  /** A channel: the parsed pair over 255, `None` for NaN; a pair of hex
      digits reads as `16 hi + lo` over 255. */
  function Channel(s: string): (c: Option<real>)
    ensures |s| == 2 && IsHexDigit(s[0]) && IsHexDigit(s[1]) ==> c == Some(PairValue(s[0], s[1]))
  {
    ParsePair(s);
    match ParseHex(s)
    case None => None
    case Some(v) => Some(v as real / 255.0)
  }

  /** The colour string after the first `#` is removed and a three-digit
      form is expanded. */
  function Normalized(hex: string): string {
    var h := RemoveFirstHash(hex);
    if |h| == 3 then Doubled(h) else h
  }

  /** `hexToRGBA(hexColor)`: red, green, blue, alpha; alpha is read only from
      an eight-digit colour and is 1 otherwise. */
  function HexToRGBA(hex: string): (rgba: seq<Option<real>>)
    ensures |rgba| == 4
    ensures |Normalized(hex)| != 8 ==> rgba[3] == Some(1.0)
  {
    ChannelsOf(Normalized(hex))
  }

  /** The four channels read from normalised colour digits. */
  function ChannelsOf(h: string): (rgba: seq<Option<real>>)
    ensures |rgba| == 4
    ensures |h| != 8 ==> rgba[3] == Some(1.0)
  {
    [Channel(Substring(h, 0, 2)), Channel(Substring(h, 2, 4)), Channel(Substring(h, 4, 6)),
     if |h| == 8 then Channel(Substring(h, 6, 8)) else Some(1.0)]
  }

  /** A three-digit colour is its six-digit doubling: `#abc` is `#aabbcc`. */
  lemma ShortForm(a: char, b: char, c: char)
    ensures HexToRGBA(['#', a, b, c]) == HexToRGBA(['#', a, a, b, b, c, c])
  {
    assert [a, b, c][1..] == [b, c] && [b, c][1..] == [c] && [c][1..] == [];
    assert Doubled([c]) == [c, c];
    assert Doubled([b, c]) == [b, b, c, c];
    assert Doubled([a, b, c]) == [a, a, b, b, c, c];
    assert RemoveFirstHash(['#', a, b, c]) == [a, b, c];
    assert RemoveFirstHash(['#', a, a, b, b, c, c]) == [a, a, b, b, c, c];
  }

  /** The channel value of two hex digits: `16 * hi + lo` over 255. */
  function PairValue(hi: char, lo: char): (v: real)
    requires IsHexDigit(hi) && IsHexDigit(lo)
    ensures 0.0 <= v <= 1.0
  {
    (16 * HexValue(hi) + HexValue(lo)) as real / 255.0
  }

  /** `parseInt` reads a pair of hex digits as `16 * hi + lo`. */
  lemma ParsePair(s: string)
    ensures |s| == 2 && IsHexDigit(s[0]) && IsHexDigit(s[1]) ==>
      ParseHex(s) == Some(16 * HexValue(s[0]) + HexValue(s[1]))
  {
    if |s| == 2 && IsHexDigit(s[0]) && IsHexDigit(s[1]) {
      var hi, lo := s[0], s[1];
      assert ParseHex(s) == SignedHex(s);
      assert s[1..] == [lo] && [lo][1..] == [];
      assert HexRun(s) == 2;
      assert s[..2] == s && s[..1] == [hi] && [hi][..0] == [];
      assert HexDigitsValue([hi]) == HexValue(hi);
      assert HexDigitsValue(s) == 16 * HexValue(hi) + HexValue(lo);
    }
  }

  /** Removing the leading `#` of a colour that is not in short form leaves
      its digits as they are. */
  lemma LongForm(h: string)
    requires |h| != 3
    ensures Normalized(['#'] + h) == h
  {
    assert (['#'] + h)[1..] == h;
  }

  /** Six or eight hex digits give three channels read pair by pair over
      255, and an alpha read from the fourth pair when there is one and 1
      otherwise. */
  lemma DigitChannels(h: string)
    requires (|h| == 6 || |h| == 8) && forall i :: 0 <= i < |h| ==> IsHexDigit(h[i])
    ensures ChannelsOf(h)[0] == Some(PairValue(h[0], h[1]))
    ensures ChannelsOf(h)[1] == Some(PairValue(h[2], h[3]))
    ensures ChannelsOf(h)[2] == Some(PairValue(h[4], h[5]))
    ensures ChannelsOf(h)[3] == if |h| == 8 then Some(PairValue(h[6], h[7])) else Some(1.0)
  {
  }

  /** A `#rrggbb` or `#rrggbbaa` colour of hex digits reads its channels pair
      by pair over 255, with alpha 1 in the six-digit form. */
  lemma LongColour(h: string)
    requires (|h| == 6 || |h| == 8) && forall i :: 0 <= i < |h| ==> IsHexDigit(h[i])
    ensures var rgba := HexToRGBA(['#'] + h);
            && rgba[0] == Some(PairValue(h[0], h[1]))
            && rgba[1] == Some(PairValue(h[2], h[3]))
            && rgba[2] == Some(PairValue(h[4], h[5]))
            && rgba[3] == if |h| == 8 then Some(PairValue(h[6], h[7])) else Some(1.0)
  {
    LongForm(h);
    DigitChannels(h);
  }

  /** Every channel of such a colour lies in `[0, 1]`. */
  lemma ChannelsInUnitRange(h: string)
    requires (|h| == 6 || |h| == 8) && forall i :: 0 <= i < |h| ==> IsHexDigit(h[i])
    ensures forall i :: 0 <= i < 4 ==> HexToRGBA(['#'] + h)[i].Some? && 0.0 <= HexToRGBA(['#'] + h)[i].value <= 1.0
  {
    LongColour(h);
    var rgba := HexToRGBA(['#'] + h);
    forall i | 0 <= i < 4
      ensures rgba[i].Some? && 0.0 <= rgba[i].value <= 1.0
    {
      if i == 0 {
      } else if i == 1 {
      } else if i == 2 {
      } else {
      }
    }
  }

  // ---------------------------------------------------------------------
  // The cube fixture

  const CubePositions: seq<real> := [
    -0.5, -0.5, 0.5,   0.5, -0.5, 0.5,   0.5, 0.5, 0.5,   -0.5, 0.5, 0.5,       // front
    -0.5, -0.5, -0.5,  -0.5, 0.5, -0.5,  0.5, 0.5, -0.5,  0.5, -0.5, -0.5,      // back
    -0.5, 0.5, -0.5,   -0.5, 0.5, 0.5,   0.5, 0.5, 0.5,   0.5, 0.5, -0.5,       // top
    -0.5, -0.5, -0.5,  0.5, -0.5, -0.5,  0.5, -0.5, 0.5,  -0.5, -0.5, 0.5,      // bottom
    0.5, -0.5, -0.5,   0.5, 0.5, -0.5,   0.5, 0.5, 0.5,   0.5, -0.5, 0.5,       // right
    -0.5, -0.5, -0.5,  -0.5, -0.5, 0.5,  -0.5, 0.5, 0.5,  -0.5, 0.5, -0.5]     // left

  const CubeIndices: seq<nat> := [
    0, 1, 2, 0, 2, 3,
    4, 5, 6, 4, 6, 7,
    8, 9, 10, 8, 10, 11,
    12, 13, 14, 12, 14, 15,
    16, 17, 18, 16, 18, 19,
    20, 21, 22, 20, 22, 23]

  const CubeNormals: seq<real> := [
    0.0, 0.0, 1.0,   0.0, 0.0, 1.0,   0.0, 0.0, 1.0,   0.0, 0.0, 1.0,
    0.0, 0.0, -1.0,  0.0, 0.0, -1.0,  0.0, 0.0, -1.0,  0.0, 0.0, -1.0,
    0.0, 1.0, 0.0,   0.0, 1.0, 0.0,   0.0, 1.0, 0.0,   0.0, 1.0, 0.0,
    0.0, -1.0, 0.0,  0.0, -1.0, 0.0,  0.0, -1.0, 0.0,  0.0, -1.0, 0.0,
    1.0, 0.0, 0.0,   1.0, 0.0, 0.0,   1.0, 0.0, 0.0,   1.0, 0.0, 0.0,
    -1.0, 0.0, 0.0,  -1.0, 0.0, 0.0,  -1.0, 0.0, 0.0,  -1.0, 0.0, 0.0]

  /** The quad split every face uses: `k, k+1, k+2, k, k+2, k+3`. */
  const QuadSplit: seq<nat> := [0, 1, 2, 0, 2, 3]

  /** Corner `k` of face `f` in the index table. */
  function CubeCorner(f: nat, k: nat): nat
    requires f < 6 && k < 6
  {
    CubeIndices[6 * f + k]
  }

  /** Face `f` of the cube is the quad `4f .. 4f+3` split as `k, k+1, k+2,
      k, k+2, k+3`. */
  lemma CubeFaces()
    ensures |CubeIndices| == 36
    ensures forall f, k :: 0 <= f < 6 && 0 <= k < 6 ==> CubeCorner(f, k) == 4 * f + QuadSplit[k]
  {
    forall f, k | 0 <= f < 6 && 0 <= k < 6
      ensures CubeCorner(f, k) == 4 * f + QuadSplit[k]
    {
      CubeEntry(f, k);
    }
  }

  /** Corner `k` of face `f`, read off the index table one face at a time. */
  lemma CubeEntry(f: nat, k: nat)
    requires f < 6 && k < 6
    ensures CubeCorner(f, k) == 4 * f + QuadSplit[k]
  {
    if f == 0 {
    } else if f == 1 {
    } else if f == 2 {
    } else if f == 3 {
    } else if f == 4 {
    } else {
    }
  }

  /** 24 vertices and 36 indices, every index naming a vertex. */
  lemma CubeShape()
    ensures |CubePositions| == 72 && |CubeNormals| == 72 && |CubeIndices| == 36
    ensures forall i :: 0 <= i < 36 ==> CubeIndices[i] < 24
  {
  }

  /** `createCubeMesh(name, color)`: the fixture passes its own normals, so
      the mesh keeps them instead of synthesizing any, and 24 vertices take a
      16-bit index buffer. */
  method CreateCubeMesh(name: string, color: string, num: Numerics) returns (m: Mesh)
    ensures m.name == name && m.color == color
    ensures m.count == 24 && m.position == CubePositions
    ensures m.normal == Some(CubeNormals)
    ensures m.indices == Some(Uint16(CubeIndices))
  {
    CubeShape();
    var data := ParseResult(|CubePositions| / 3, CubePositions, Some(CubeNormals), Some(CubeIndices));
    WrapInRange(CubeIndices, Uint16Range);
    m := NewMesh(name, data, color, num);
  }

  /** The colour the fixture gives its cube when the caller names none. */
  const DefaultCubeColour: string := "#ff0000"

  /** `createCubeMesh(name)`, the colour argument left to its default. */
  method CreateDefaultCubeMesh(name: string, num: Numerics) returns (m: Mesh)
    ensures m.name == name && m.color == DefaultCubeColour
    ensures m.count == 24 && m.position == CubePositions
    ensures m.normal == Some(CubeNormals)
    ensures m.indices == Some(Uint16(CubeIndices))
  {
    m := CreateCubeMesh(name, DefaultCubeColour, num);
  }

  /** The mesh's default colour reads as opaque white. */
  lemma DefaultMeshColourWhite()
    ensures HexToRGBA(DefaultColour) == [Some(1.0), Some(1.0), Some(1.0), Some(1.0)]
  {
    ShortForm('f', 'f', 'f');
    WhiteLong();
  }

  lemma WhiteLong()
    ensures HexToRGBA(['#', 'f', 'f', 'f', 'f', 'f', 'f']) == [Some(1.0), Some(1.0), Some(1.0), Some(1.0)]
  {
    assert ['#', 'f', 'f', 'f', 'f', 'f', 'f'] == ['#'] + "ffffff";
    FullChannel();
    LongColour("ffffff");
  }

  /** The cube's default colour reads as opaque red. */
  lemma DefaultCubeColourRed()
    ensures HexToRGBA(DefaultCubeColour) == [Some(1.0), Some(0.0), Some(0.0), Some(1.0)]
  {
    assert DefaultCubeColour == ['#'] + "ff0000";
    FullChannel();
    assert PairValue('0', '0') == 0.0;
    LongColour("ff0000");
  }

  lemma FullChannel()
    ensures PairValue('f', 'f') == 1.0
  {
    assert HexValue('f') == 15;
  }
}

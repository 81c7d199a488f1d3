/** Repacking a planar picture into an interleaved one (yuv.c), four pixels at a time. The picture is read and written
    in 32-bit words as a little-endian machine does: lane 0 of a word is its first byte. */
module Yuyv {

  type byte = bv8

  // ---- lanes of a word ----

  function Lane(word: bv32, l: nat): bv32
    requires l < 4
  {
    if l == 0 then word & 0xFF
    else if l == 1 then (word >> 8) & 0xFF
    else if l == 2 then (word >> 16) & 0xFF
    else word >> 24
  }

  /** The first word of a group: two luma samples and the first chroma pair. */
  function FirstWord(y: bv32, uv: bv32): bv32 {
    (y & 0x000000FF) | ((y & 0x0000FF00) << 8) | ((uv & 0x000000FF) << 8) | ((uv & 0x0000FF00) << 16)
  }

  /** The second word: the other two luma samples and the second chroma pair. */
  function SecondWord(y: bv32, uv: bv32): bv32 {
    ((y & 0x00FF0000) >> 16) | ((y & 0xFF000000) >> 8) | ((uv & 0x00FF0000) >> 8) | (uv & 0xFF000000)
  }

  lemma FirstLanes(y: bv32, uv: bv32)
    ensures Lane(FirstWord(y, uv), 0) == Lane(y, 0) && Lane(FirstWord(y, uv), 1) == Lane(uv, 0)
    ensures Lane(FirstWord(y, uv), 2) == Lane(y, 1) && Lane(FirstWord(y, uv), 3) == Lane(uv, 1)
  {
  }

  lemma SecondLanes(y: bv32, uv: bv32)
    ensures Lane(SecondWord(y, uv), 0) == Lane(y, 2) && Lane(SecondWord(y, uv), 1) == Lane(uv, 2)
    ensures Lane(SecondWord(y, uv), 2) == Lane(y, 3) && Lane(SecondWord(y, uv), 3) == Lane(uv, 3)
  {
  }

  // ---- the two layouts ----

  function Wide(b: byte): (r: bv32)
    ensures r <= 0xFF
  {
    b as bv32
  }

  /** The word a pointer to byte at reads. */
  function WordAt(src: seq<byte>, at: nat): bv32
    requires at + 4 <= |src|
  {
    Joined(Wide(src[at]), Wide(src[at + 1]), Wide(src[at + 2]), Wide(src[at + 3]))
  }

  function Joined(a: bv32, b: bv32, c: bv32, d: bv32): bv32 {
    a | (b << 8) | (c << 16) | (d << 24)
  }

  lemma JoinedLanes(a: bv32, b: bv32, c: bv32, d: bv32)
    requires a <= 0xFF && b <= 0xFF && c <= 0xFF && d <= 0xFF
    ensures Lane(Joined(a, b, c, d), 0) == a && Lane(Joined(a, b, c, d), 1) == b
    ensures Lane(Joined(a, b, c, d), 2) == c && Lane(Joined(a, b, c, d), 3) == d
  {
  }

  lemma LaneIsByte(src: seq<byte>, at: nat, l: nat)
    requires at + 4 <= |src| && l < 4
    ensures Lane(WordAt(src, at), l) == Wide(src[at + l])
  {
    hide Joined, Lane, Wide;
    JoinedLanes(Wide(src[at]), Wide(src[at + 1]), Wide(src[at + 2]), Wide(src[at + 3]));
  }

  /** n rows of q words, or of q bytes. */
  function Rows(q: nat, n: nat): (k: nat)
    ensures n == 0 ==> k == 0
  {
    NotNegative(q, n);
    q * n
  }

  lemma NotNegative(a: nat, b: nat)
    ensures a * b >= 0
  {
  }

  lemma NextRow(q: nat, j: nat)
    ensures Rows(q, j + 1) == Rows(q, j) + q
  {
  }

  lemma {:induction false} RowFits(q: nat, j: nat, n: nat)
    requires j < n
    ensures Rows(q, j) + q <= Rows(q, n)
  {
    hide Rows;
    NextRow(q, n - 1);
    if j < n - 1 {
      RowFits(q, j, n - 1);
    }
  }

  /** Rows of whole words are at most rows of the bytes they are cut from. */
  lemma WordsInBytes(w: nat, n: nat)
    ensures 4 * Rows(w / 4, n) <= Rows(w, n)
    ensures w % 4 == 0 ==> 4 * Rows(w / 4, n) == Rows(w, n)
  {
    var q, r := w / 4, w % 4;
    NotNegative(r, n);
    assert w * n == 4 * (q * n) + r * n;
  }

  /** A planar picture: height rows of w luma bytes, then rows of interleaved chroma bytes, one for every two. */
  predicate Planar(size: int, w: nat, height: nat) {
    size >= Rows(w, height) + Rows(w, (height + 1) / 2)
  }

  /** Where the loop reads the luma of group i in row j, and the chroma the row shares with the other of its pair. */
  function LumaAt(w: nat, j: nat, i: nat): nat {
    4 * (Rows(w / 4, j) + i)
  }

  function ChromaAt(w: nat, height: nat, j: nat, i: nat): nat {
    Rows(w, height) + 4 * (Rows(w / 4, j / 2) + i)
  }

  /** All reads stay in the picture, for every width and height. */
  lemma ReadsFit(size: nat, w: nat, height: nat, j: nat, i: nat)
    requires Planar(size, w, height) && j < height && i < w / 4
    ensures LumaAt(w, j, i) + 4 <= Rows(w, height) <= ChromaAt(w, height, j, i) && ChromaAt(w, height, j, i) + 4 <= size
  {
    hide Rows;
    RowFits(w / 4, j, height);
    RowFits(w / 4, j / 2, (height + 1) / 2);
    WordsInBytes(w, height);
    WordsInBytes(w, (height + 1) / 2);
  }

  function LumaWord(src: seq<byte>, w: nat, height: nat, j: nat, i: nat): bv32
    requires Planar(|src|, w, height) && j < height && i < w / 4
  {
    ReadsFit(|src|, w, height, j, i);
    WordAt(src, LumaAt(w, j, i))
  }

  function ChromaWord(src: seq<byte>, w: nat, height: nat, j: nat, i: nat): bv32
    requires Planar(|src|, w, height) && j < height && i < w / 4
  {
    ReadsFit(|src|, w, height, j, i);
    WordAt(src, ChromaAt(w, height, j, i))
  }

  /** The interleaved picture up to group i of row j. */
  function Packed(src: seq<byte>, w: nat, height: nat, j: nat, i: nat): (out: seq<bv32>)
    requires Planar(|src|, w, height) && j <= height && i <= w / 4 && (j == height ==> i == 0)
    ensures |out| == 2 * Rows(w / 4, j) + 2 * i
    decreases j, i
  {
    if i > 0 then
      var y, uv := LumaWord(src, w, height, j, i - 1), ChromaWord(src, w, height, j, i - 1);
      Packed(src, w, height, j, i - 1) + [FirstWord(y, uv), SecondWord(y, uv)]
    else if j > 0 then
      NextRow(w / 4, j - 1);
      Packed(src, w, height, j - 1, w / 4)
    else []
  }

  lemma {:induction false} PackedAt(src: seq<byte>, w: nat, height: nat, j: nat, i: nat, r: nat, g: nat)
    requires Planar(|src|, w, height) && j <= height && i <= w / 4 && (j == height ==> i == 0)
    requires r < height && g < w / 4 && (r < j || (r == j && g < i))
    ensures 2 * (Rows(w / 4, r) + g) + 1 < |Packed(src, w, height, j, i)|
    ensures Packed(src, w, height, j, i)[2 * (Rows(w / 4, r) + g)] ==
            FirstWord(LumaWord(src, w, height, r, g), ChromaWord(src, w, height, r, g))
    ensures Packed(src, w, height, j, i)[2 * (Rows(w / 4, r) + g) + 1] ==
            SecondWord(LumaWord(src, w, height, r, g), ChromaWord(src, w, height, r, g))
    decreases j, i
  {
    hide FirstWord, SecondWord, LumaWord, ChromaWord, Rows, Planar;
    if i == 0 {
      PackedAt(src, w, height, j - 1, w / 4, r, g);
    } else if r != j || g != i - 1 {
      PackedAt(src, w, height, j, i - 1, r, g);
    }
  }

  // ---- what a viewer sees ----

  /** Luma sample (x, y) of the planar picture. */
  function PlanarLuma(src: seq<byte>, w: nat, height: nat, x: nat, y: nat): byte
    requires Planar(|src|, w, height) && x < w && y < height
  {
    RowFits(w, y, height);
    src[Rows(w, y) + x]
  }

  /** The chroma samples of the two-by-two block (x / 2, y / 2): c is 0 for U, 1 for V. */
  function PlanarChroma(src: seq<byte>, w: nat, height: nat, x: nat, y: nat, c: nat): byte
    requires Planar(|src|, w, height) && w % 2 == 0 && x < w && y < height && c < 2
  {
    RowFits(w, y / 2, (height + 1) / 2);
    src[Rows(w, height) + Rows(w, y / 2) + x / 2 * 2 + c]
  }

  /** The words of an interleaved picture each hold Y U Y V of two neighbouring pixels. */
  function PackedLuma(dst: seq<bv32>, w: nat, x: nat, y: nat): bv32
    requires 2 * Rows(w / 4, y) + x / 2 < |dst|
  {
    Lane(dst[2 * Rows(w / 4, y) + x / 2], if x % 2 == 0 then 0 else 2)
  }

  function PackedChroma(dst: seq<bv32>, w: nat, x: nat, y: nat, c: nat): bv32
    requires 2 * Rows(w / 4, y) + x / 2 < |dst| && c < 2
  {
    Lane(dst[2 * Rows(w / 4, y) + x / 2], 1 + 2 * c)
  }

  lemma Halves(x: nat)
    ensures x == 4 * (x / 4) + x % 4 && x / 2 == 2 * (x / 4) + x % 4 / 2 && x / 2 % 2 == x % 4 / 2 && x % 2 == x % 4 % 2
  {
  }

  /** The bytes behind pixel (x, y) of the output: a row of the loop advances by whole words. */
  lemma PackedBytes(src: seq<byte>, w: nat, height: nat, x: nat, y: nat, c: nat)
    requires Planar(|src|, w, height) && x / 4 < w / 4 && y < height && c < 2
    ensures 2 * Rows(w / 4, y) + x / 2 < |Packed(src, w, height, height, 0)|
    ensures 4 * Rows(w / 4, y) + x < |src| && Rows(w, height) + 4 * Rows(w / 4, y / 2) + x / 2 * 2 + c < |src|
    ensures PackedLuma(Packed(src, w, height, height, 0), w, x, y) == Wide(src[4 * Rows(w / 4, y) + x])
    ensures PackedChroma(Packed(src, w, height, height, 0), w, x, y, c) ==
            Wide(src[Rows(w, height) + 4 * Rows(w / 4, y / 2) + x / 2 * 2 + c])
  {
    hide Packed, Lane, FirstWord, SecondWord, WordAt, Rows, Planar, Wide, PackedLuma, PackedChroma, LumaWord,
         ChromaWord;
    var g := x / 4;
    Halves(x);
    ReadsFit(|src|, w, height, y, g);
    PackedAt(src, w, height, height, 0, y, g);
    GroupLanes(src, w, height, y, g, x % 4, c);
    var out := Packed(src, w, height, height, 0);
    PackedLanes(out, w, x, y, c, g, LumaWord(src, w, height, y, g), ChromaWord(src, w, height, y, g));
  }

  lemma GroupLanes(src: seq<byte>, w: nat, height: nat, y: nat, g: nat, l: nat, c: nat)
    requires Planar(|src|, w, height) && g < w / 4 && y < height && l < 4 && c < 2
    ensures LumaAt(w, y, g) + l < |src| && ChromaAt(w, height, y, g) + l / 2 * 2 + c < |src|
    ensures Lane(LumaWord(src, w, height, y, g), l) == Wide(src[LumaAt(w, y, g) + l])
    ensures Lane(ChromaWord(src, w, height, y, g), l / 2 * 2 + c) ==
            Wide(src[ChromaAt(w, height, y, g) + l / 2 * 2 + c])
  {
    hide Lane, WordAt, Rows, Planar, Wide;
    ReadsFit(|src|, w, height, y, g);
    LaneIsByte(src, LumaAt(w, y, g), l);
    LaneIsByte(src, ChromaAt(w, height, y, g), l / 2 * 2 + c);
  }

  lemma PackedLanes(out: seq<bv32>, w: nat, x: nat, y: nat, c: nat, g: nat, luma: bv32, chroma: bv32)
    requires g == x / 4 && c < 2 && 2 * (Rows(w / 4, y) + g) + 1 < |out|
    requires out[2 * (Rows(w / 4, y) + g)] == FirstWord(luma, chroma)
    requires out[2 * (Rows(w / 4, y) + g) + 1] == SecondWord(luma, chroma)
    ensures 2 * Rows(w / 4, y) + x / 2 < |out|
    ensures PackedLuma(out, w, x, y) == Lane(luma, x % 4) &&
            PackedChroma(out, w, x, y, c) == Lane(chroma, x % 4 / 2 * 2 + c)
  {
    hide Lane, FirstWord, SecondWord, Rows;
    Halves(x);
    if x % 4 < 2 {
      FirstLanes(luma, chroma);
    } else {
      SecondLanes(luma, chroma);
    }
  }

  /** The words of n rows start where the bytes of n rows do if and only if the width is one of whole words, or n is 0.
      */
  lemma RowStartExactly(w: nat, n: nat)
    ensures 4 * Rows(w / 4, n) == Rows(w, n) <==> w % 4 == 0 || n == 0
  {
    var q, r := w / 4, w % 4;
    assert w * n == 4 * (q * n) + r * n;
    if r > 0 && n > 0 {
      NotNegative(r - 1, n);
      assert r * n == (r - 1) * n + n;
    }
  }

  /** Pixel (x, y) of the output shows the luma sample the picture has there. */
  predicate ShowsLuma(src: seq<byte>, w: nat, height: nat, x: nat, y: nat)
    requires Planar(|src|, w, height) && x / 4 < w / 4 && y < height
  {
    PackedBytes(src, w, height, x, y, 0);
    PackedLuma(Packed(src, w, height, height, 0), w, x, y) == Wide(PlanarLuma(src, w, height, x, y))
  }

  predicate ShowsChroma(src: seq<byte>, w: nat, height: nat, x: nat, y: nat, c: nat)
    requires Planar(|src|, w, height) && w % 2 == 0 && x / 4 < w / 4 && y < height && c < 2
  {
    PackedBytes(src, w, height, x, y, c);
    PackedChroma(Packed(src, w, height, height, 0), w, x, y, c) == Wide(PlanarChroma(src, w, height, x, y, c))
  }

  lemma WideDiffers()
    ensures Wide(0) != Wide(1)
  {
  }

  /** A picture of the least size, black but for one byte. */
  function Spot(w: nat, height: nat, at: nat): (src: seq<byte>)
    ensures Planar(|src|, w, height)
    ensures forall k :: 0 <= k < |src| ==> src[k] == if k == at then 1 else 0
  {
    seq(Rows(w, height) + Rows(w, (height + 1) / 2), k => if k == at then 1 else 0)
  }

  /** Which pixels keep their luma whatever the picture: all of them when the width is one of whole words, else those of
      the first row only. */
  lemma LumaKeptExactly(w: nat, height: nat, x: nat, y: nat)
    requires x / 4 < w / 4 && y < height
    ensures (forall src | Planar(|src|, w, height) :: ShowsLuma(src, w, height, x, y)) <==> w % 4 == 0 || y == 0
  {
    hide Packed, Rows, Planar, PackedLuma, PackedChroma, Wide;
    RowStartExactly(w, y);
    if w % 4 == 0 || y == 0 {
      forall src | Planar(|src|, w, height)
        ensures ShowsLuma(src, w, height, x, y)
      {
        PackedBytes(src, w, height, x, y, 0);
      }
    } else {
      RowFits(w, y, height);
      var src := Spot(w, height, Rows(w, y) + x);
      PackedBytes(src, w, height, x, y, 0);
      WideDiffers();
      assert !ShowsLuma(src, w, height, x, y);
    }
  }

  /** The same of the chroma of a two-by-two block: other widths keep that of the first two rows only. */
  lemma ChromaKeptExactly(w: nat, height: nat, x: nat, y: nat, c: nat)
    requires w % 2 == 0 && x / 4 < w / 4 && y < height && c < 2
    ensures (forall src | Planar(|src|, w, height) :: ShowsChroma(src, w, height, x, y, c)) <==> w % 4 == 0 || y < 2
  {
    hide Packed, Rows, Planar, PackedLuma, PackedChroma, Wide;
    RowStartExactly(w, y / 2);
    if w % 4 == 0 || y < 2 {
      forall src | Planar(|src|, w, height)
        ensures ShowsChroma(src, w, height, x, y, c)
      {
        PackedBytes(src, w, height, x, y, c);
      }
    } else {
      RowFits(w, y / 2, (height + 1) / 2);
      var src := Spot(w, height, Rows(w, height) + Rows(w, y / 2) + x / 2 * 2 + c);
      PackedBytes(src, w, height, x, y, c);
      WideDiffers();
      assert !ShowsChroma(src, w, height, x, y, c);
    }
  }

  lemma Quarters(w: nat, x: nat)
    requires w % 4 == 0 && x < w
    ensures x / 4 < w / 4 && w % 2 == 0
  {
    var q := w / 4;
    assert w == 4 * q == 2 * (2 * q);
    assert 4 * (x / 4) <= x;
  }

  /** With a width of whole words every pixel keeps its luma sample and gets the chroma pair of its two-by-two block,
      for even and odd heights. */
  lemma PixelsKept(src: seq<byte>, w: nat, height: nat, x: nat, y: nat, c: nat)
    requires Planar(|src|, w, height) && w % 4 == 0 && x < w && y < height && c < 2
    ensures x / 4 < w / 4 && w % 2 == 0 && ShowsLuma(src, w, height, x, y) && ShowsChroma(src, w, height, x, y, c)
  {
    hide Planar, ShowsLuma, ShowsChroma;
    Quarters(w, x);
    LumaKeptExactly(w, height, x, y);
    ChromaKeptExactly(w, height, x, y, c);
  }

  // ---- the loops ----

  method ReadWord(src: array<byte>, at: nat) returns (word: bv32)
    requires at + 4 <= src.Length
    ensures word == WordAt(src[..], at)
  {
    word := Joined(Wide(src[at]), Wide(src[at + 1]), Wide(src[at + 2]), Wide(src[at + 3]));
  }

  /** NV12_to_YUYV. The chroma pointer runs on with every row and is moved back a row before each odd one. */
  method Repack(width: nat, height: nat, src: array<byte>, dst: array<bv32>)
    requires Planar(src.Length, width, height) && dst.Length >= 2 * Rows(width / 4, height)
    modifies dst
    ensures dst[..2 * Rows(width / 4, height)] == Packed(src[..], width, height, height, 0)
    ensures dst[2 * Rows(width / 4, height)..] == old(dst[2 * Rows(width / 4, height)..])
  {
    hide Packed, Rows, Planar, FirstWord, SecondWord;
    ghost var q, picture := width / 4, src[..];
    var srcY, srcUv, line := 0, Bytes(width, height), 0;
    PackedNone(picture, width, height);
    var j := 0;
    while j < height
      invariant 0 <= j <= height && src[..] == picture
      invariant srcY == 4 * Rows(q, j) && srcUv == Rows(width, height) + 4 * Rows(q, (j + 1) / 2) &&
                line == 2 * Rows(q, j)
      invariant line <= 2 * Rows(q, height) && dst[..line] == Packed(picture, width, height, j, 0)
      invariant dst[2 * Rows(q, height)..] == old(dst[2 * Rows(q, height)..])
    {
      NextRow(q, j);
      NextRow(q, j / 2);
      HalfRows(j);
      if j % 2 != 0 {
        srcUv := srcUv - 4 * (width / 4);
      }
      srcY, srcUv, line := RepackRow(width, height, src, dst, j, srcY, srcUv, line);
      PackedRow(picture, width, height, j);
      j := j + 1;
    }
  }

  lemma HalfRows(j: nat)
    ensures (j + 1) / 2 == j / 2 + j % 2 && (j + 1 + 1) / 2 == j / 2 + 1
  {
  }

  function Bytes(w: nat, height: nat): (k: nat)
    ensures k == Rows(w, height)
  {
    NotNegative(w, height);
    w * height
  }

  /** The inner loop. */
  method RepackRow(width: nat, height: nat, src: array<byte>, dst: array<bv32>, j: nat, startY: nat, startUv: nat,
      startLine: nat)
      returns (srcY: nat, srcUv: nat, line: nat)
    requires Planar(src.Length, width, height) && dst.Length >= 2 * Rows(width / 4, height) && j < height
    requires var q := width / 4;
             && startY == 4 * Rows(q, j) && startUv == Rows(width, height) + 4 * Rows(q, j / 2) &&
                startLine == 2 * Rows(q, j)
             && startLine <= dst.Length && dst[..startLine] == Packed(src[..], width, height, j, 0)
    modifies dst
    ensures var q := width / 4;
            && srcY == startY + 4 * q && srcUv == startUv + 4 * q && line == startLine + 2 * q
            && line <= 2 * Rows(q, height) && dst[..line] == Packed(src[..], width, height, j, q)
            && dst[2 * Rows(q, height)..] == old(dst[2 * Rows(q, height)..])
  {
    hide Packed, FirstWord, SecondWord, Rows, Planar, LumaWord, ChromaWord, WordAt;
    ghost var q, picture := width / 4, src[..];
    srcY, srcUv, line := startY, startUv, startLine;
    RowFits(q, j, height);
    var i := 0;
    while i < width / 4
      invariant 0 <= i <= q && src[..] == picture
      invariant srcY == startY + 4 * i && srcUv == startUv + 4 * i && line == startLine + 2 * i
      invariant line <= 2 * Rows(q, height) && dst[..line] == Packed(picture, width, height, j, i)
      invariant dst[2 * Rows(q, height)..] == old(dst[2 * Rows(q, height)..])
    {
      ReadsFit(src.Length, width, height, j, i);
      var y := ReadWord(src, srcY);
      var uv := ReadWord(src, srcUv);
      PackedNext(picture, width, height, j, i, y, uv);
      WritePair(dst, line, FirstWord(y, uv), SecondWord(y, uv));
      line := line + 2;
      srcY := srcY + 4;
      srcUv := srcUv + 4;
      i := i + 1;
    }
  }

  method WritePair(dst: array<bv32>, line: nat, first: bv32, second: bv32)
    requires line + 2 <= dst.Length
    modifies dst
    ensures dst[..line + 2] == old(dst[..line]) + [first, second]
    ensures dst[line + 2..] == old(dst[line + 2..])
    ensures forall k :: line + 2 <= k <= dst.Length ==> dst[k..] == old(dst[k..])
  {
    dst[line], dst[line + 1] := first, second;
  }

  lemma PackedNone(src: seq<byte>, w: nat, height: nat)
    requires Planar(|src|, w, height)
    ensures Packed(src, w, height, 0, 0) == []
  {
  }

  lemma PackedNext(src: seq<byte>, w: nat, height: nat, j: nat, i: nat, y: bv32, uv: bv32)
    requires Planar(|src|, w, height) && j < height && i < w / 4
    requires 4 * (Rows(w / 4, j) + i) + 4 <= |src| && y == WordAt(src, 4 * (Rows(w / 4, j) + i))
    requires Rows(w, height) + 4 * (Rows(w / 4, j / 2) + i) + 4 <= |src|
    requires uv == WordAt(src, Rows(w, height) + 4 * (Rows(w / 4, j / 2) + i))
    ensures Packed(src, w, height, j, i + 1) == Packed(src, w, height, j, i) + [FirstWord(y, uv), SecondWord(y, uv)]
  {
    hide WordAt, Rows, FirstWord, SecondWord, Planar;
  }

  lemma PackedRow(src: seq<byte>, w: nat, height: nat, j: nat)
    requires Planar(|src|, w, height) && j < height
    ensures Packed(src, w, height, j + 1, 0) == Packed(src, w, height, j, w / 4)
  {
    hide Rows, Planar;
  }
}

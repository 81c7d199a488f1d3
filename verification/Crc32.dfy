/** filecrc32 (wifi_ota_interface.c): the table-driven CRC-32 of RFC 1952 section 8, against division of the
    message bits, one at a time, by the reflected polynomial; and what a matching checksum excludes. */
module Crc32 {

  /** One bit of the division: shift right, and subtract the polynomial when a one falls out. */
  function Shift(c: bv32): bv32 {
    if c & 1 == 1 then (c >> 1) ^ 0xEDB88320 else c >> 1
  }

  function Shift8(c: bv32): bv32 {
    Shift(Shift(Shift(Shift(Shift(Shift(Shift(Shift(c))))))))
  }

  const ROW0: seq<bv32> := [
    0x00000000, 0x77073096, 0xee0e612c, 0x990951ba, 0x076dc419, 0x706af48f, 0xe963a535, 0x9e6495a3,
    0x0edb8832, 0x79dcb8a4, 0xe0d5e91e, 0x97d2d988, 0x09b64c2b, 0x7eb17cbd, 0xe7b82d07, 0x90bf1d91 ]

  const ROW1: seq<bv32> := [
    0x1db71064, 0x6ab020f2, 0xf3b97148, 0x84be41de, 0x1adad47d, 0x6ddde4eb, 0xf4d4b551, 0x83d385c7,
    0x136c9856, 0x646ba8c0, 0xfd62f97a, 0x8a65c9ec, 0x14015c4f, 0x63066cd9, 0xfa0f3d63, 0x8d080df5 ]

  const ROW2: seq<bv32> := [
    0x3b6e20c8, 0x4c69105e, 0xd56041e4, 0xa2677172, 0x3c03e4d1, 0x4b04d447, 0xd20d85fd, 0xa50ab56b,
    0x35b5a8fa, 0x42b2986c, 0xdbbbc9d6, 0xacbcf940, 0x32d86ce3, 0x45df5c75, 0xdcd60dcf, 0xabd13d59 ]

  const ROW3: seq<bv32> := [
    0x26d930ac, 0x51de003a, 0xc8d75180, 0xbfd06116, 0x21b4f4b5, 0x56b3c423, 0xcfba9599, 0xb8bda50f,
    0x2802b89e, 0x5f058808, 0xc60cd9b2, 0xb10be924, 0x2f6f7c87, 0x58684c11, 0xc1611dab, 0xb6662d3d ]

  const ROW4: seq<bv32> := [
    0x76dc4190, 0x01db7106, 0x98d220bc, 0xefd5102a, 0x71b18589, 0x06b6b51f, 0x9fbfe4a5, 0xe8b8d433,
    0x7807c9a2, 0x0f00f934, 0x9609a88e, 0xe10e9818, 0x7f6a0dbb, 0x086d3d2d, 0x91646c97, 0xe6635c01 ]

  const ROW5: seq<bv32> := [
    0x6b6b51f4, 0x1c6c6162, 0x856530d8, 0xf262004e, 0x6c0695ed, 0x1b01a57b, 0x8208f4c1, 0xf50fc457,
    0x65b0d9c6, 0x12b7e950, 0x8bbeb8ea, 0xfcb9887c, 0x62dd1ddf, 0x15da2d49, 0x8cd37cf3, 0xfbd44c65 ]

  const ROW6: seq<bv32> := [
    0x4db26158, 0x3ab551ce, 0xa3bc0074, 0xd4bb30e2, 0x4adfa541, 0x3dd895d7, 0xa4d1c46d, 0xd3d6f4fb,
    0x4369e96a, 0x346ed9fc, 0xad678846, 0xda60b8d0, 0x44042d73, 0x33031de5, 0xaa0a4c5f, 0xdd0d7cc9 ]

  const ROW7: seq<bv32> := [
    0x5005713c, 0x270241aa, 0xbe0b1010, 0xc90c2086, 0x5768b525, 0x206f85b3, 0xb966d409, 0xce61e49f,
    0x5edef90e, 0x29d9c998, 0xb0d09822, 0xc7d7a8b4, 0x59b33d17, 0x2eb40d81, 0xb7bd5c3b, 0xc0ba6cad ]

  const ROW8: seq<bv32> := [
    0xedb88320, 0x9abfb3b6, 0x03b6e20c, 0x74b1d29a, 0xead54739, 0x9dd277af, 0x04db2615, 0x73dc1683,
    0xe3630b12, 0x94643b84, 0x0d6d6a3e, 0x7a6a5aa8, 0xe40ecf0b, 0x9309ff9d, 0x0a00ae27, 0x7d079eb1 ]

  const ROW9: seq<bv32> := [
    0xf00f9344, 0x8708a3d2, 0x1e01f268, 0x6906c2fe, 0xf762575d, 0x806567cb, 0x196c3671, 0x6e6b06e7,
    0xfed41b76, 0x89d32be0, 0x10da7a5a, 0x67dd4acc, 0xf9b9df6f, 0x8ebeeff9, 0x17b7be43, 0x60b08ed5 ]

  const ROWA: seq<bv32> := [
    0xd6d6a3e8, 0xa1d1937e, 0x38d8c2c4, 0x4fdff252, 0xd1bb67f1, 0xa6bc5767, 0x3fb506dd, 0x48b2364b,
    0xd80d2bda, 0xaf0a1b4c, 0x36034af6, 0x41047a60, 0xdf60efc3, 0xa867df55, 0x316e8eef, 0x4669be79 ]

  const ROWB: seq<bv32> := [
    0xcb61b38c, 0xbc66831a, 0x256fd2a0, 0x5268e236, 0xcc0c7795, 0xbb0b4703, 0x220216b9, 0x5505262f,
    0xc5ba3bbe, 0xb2bd0b28, 0x2bb45a92, 0x5cb36a04, 0xc2d7ffa7, 0xb5d0cf31, 0x2cd99e8b, 0x5bdeae1d ]

  const ROWC: seq<bv32> := [
    0x9b64c2b0, 0xec63f226, 0x756aa39c, 0x026d930a, 0x9c0906a9, 0xeb0e363f, 0x72076785, 0x05005713,
    0x95bf4a82, 0xe2b87a14, 0x7bb12bae, 0x0cb61b38, 0x92d28e9b, 0xe5d5be0d, 0x7cdcefb7, 0x0bdbdf21 ]

  const ROWD: seq<bv32> := [
    0x86d3d2d4, 0xf1d4e242, 0x68ddb3f8, 0x1fda836e, 0x81be16cd, 0xf6b9265b, 0x6fb077e1, 0x18b74777,
    0x88085ae6, 0xff0f6a70, 0x66063bca, 0x11010b5c, 0x8f659eff, 0xf862ae69, 0x616bffd3, 0x166ccf45 ]

  const ROWE: seq<bv32> := [
    0xa00ae278, 0xd70dd2ee, 0x4e048354, 0x3903b3c2, 0xa7672661, 0xd06016f7, 0x4969474d, 0x3e6e77db,
    0xaed16a4a, 0xd9d65adc, 0x40df0b66, 0x37d83bf0, 0xa9bcae53, 0xdebb9ec5, 0x47b2cf7f, 0x30b5ffe9 ]

  const ROWF: seq<bv32> := [
    0xbdbdf21c, 0xcabac28a, 0x53b39330, 0x24b4a3a6, 0xbad03605, 0xcdd70693, 0x54de5729, 0x23d967bf,
    0xb3667a2e, 0xc4614ab8, 0x5d681b02, 0x2a6f2b94, 0xb40bbe37, 0xc30c8ea1, 0x5a05df1b, 0x2d02ef8d ]

  const QUARTER0 := ROW0 + ROW1 + ROW2 + ROW3
  const QUARTER1 := ROW4 + ROW5 + ROW6 + ROW7
  const QUARTER2 := ROW8 + ROW9 + ROWA + ROWB
  const QUARTER3 := ROWC + ROWD + ROWE + ROWF
  const crc32tab: seq<bv32> := QUARTER0 + QUARTER1 + QUARTER2 + QUARTER3

  // ---- the table holds the eight-step shifts of the 256 bytes ----

  lemma Rows0(j: bv32)
    requires j < 16
    ensures |ROW0| == 16 && ROW0[j as int] == Shift8(j)
    ensures |ROW1| == 16 && ROW1[j as int] == Shift8(0x10 + j)
    ensures |ROW2| == 16 && ROW2[j as int] == Shift8(0x20 + j)
    ensures |ROW3| == 16 && ROW3[j as int] == Shift8(0x30 + j)
  {
  }

  lemma Rows1(j: bv32)
    requires j < 16
    ensures |ROW4| == 16 && ROW4[j as int] == Shift8(0x40 + j)
    ensures |ROW5| == 16 && ROW5[j as int] == Shift8(0x50 + j)
    ensures |ROW6| == 16 && ROW6[j as int] == Shift8(0x60 + j)
    ensures |ROW7| == 16 && ROW7[j as int] == Shift8(0x70 + j)
  {
  }

  lemma Rows2(j: bv32)
    requires j < 16
    ensures |ROW8| == 16 && ROW8[j as int] == Shift8(0x80 + j)
    ensures |ROW9| == 16 && ROW9[j as int] == Shift8(0x90 + j)
    ensures |ROWA| == 16 && ROWA[j as int] == Shift8(0xA0 + j)
    ensures |ROWB| == 16 && ROWB[j as int] == Shift8(0xB0 + j)
  {
  }

  lemma Rows3(j: bv32)
    requires j < 16
    ensures |ROWC| == 16 && ROWC[j as int] == Shift8(0xC0 + j)
    ensures |ROWD| == 16 && ROWD[j as int] == Shift8(0xD0 + j)
    ensures |ROWE| == 16 && ROWE[j as int] == Shift8(0xE0 + j)
    ensures |ROWF| == 16 && ROWF[j as int] == Shift8(0xF0 + j)
  {
  }

  lemma Quarter0(i: bv32)
    requires i < 64
    ensures |QUARTER0| == 64 && QUARTER0[i as int] == Shift8(i)
  {
    var j := i & 15;
    Rows0(j);
    assert i as int == (i >> 4) as int * 16 + j as int;
  }

  lemma Quarter1(i: bv32)
    requires i < 64
    ensures |QUARTER1| == 64 && QUARTER1[i as int] == Shift8(0x40 + i)
  {
    var j := i & 15;
    Rows1(j);
    assert i as int == (i >> 4) as int * 16 + j as int;
  }

  lemma Quarter2(i: bv32)
    requires i < 64
    ensures |QUARTER2| == 64 && QUARTER2[i as int] == Shift8(0x80 + i)
  {
    var j := i & 15;
    Rows2(j);
    assert i as int == (i >> 4) as int * 16 + j as int;
  }

  lemma Quarter3(i: bv32)
    requires i < 64
    ensures |QUARTER3| == 64 && QUARTER3[i as int] == Shift8(0xC0 + i)
  {
    var j := i & 15;
    Rows3(j);
    assert i as int == (i >> 4) as int * 16 + j as int;
  }

  lemma QuartersJoined(a: seq<bv32>, b: seq<bv32>, c: seq<bv32>, d: seq<bv32>, q: bv32, j: bv32)
    requires |a| == 64 && |b| == 64 && |c| == 64 && |d| == 64 && q < 4 && j < 64
    ensures (64 * q + j) as int == 64 * q as int + j as int
    ensures (64 * q + j) as int < |a + b + c + d|
    ensures (a + b + c + d)[(64 * q + j) as int] ==
            if q == 0 then a[j as int] else if q == 1 then b[j as int] else if q == 2 then c[j as int] else d[j as int]
  {
  }

  lemma QuarterIs(q: bv32, j: bv32, i: bv32)
    requires q < 4 && j < 64 && i == 64 * q + j
    ensures |QUARTER0| == 64 && |QUARTER1| == 64 && |QUARTER2| == 64 && |QUARTER3| == 64
    ensures (if q == 0 then QUARTER0[j as int] else if q == 1 then QUARTER1[j as int]
             else if q == 2 then QUARTER2[j as int] else QUARTER3[j as int]) == Shift8(i)
  {
    hide Shift8, QUARTER0, QUARTER1, QUARTER2, QUARTER3;
    Quarter0(j);
    Quarter1(j);
    Quarter2(j);
    Quarter3(j);
  }

  lemma TableIsShift8(i: bv32)
    requires i < 256
    ensures i as int < |crc32tab| && crc32tab[i as int] == Shift8(i)
  {
    hide Shift8, QUARTER0, QUARTER1, QUARTER2, QUARTER3;
    TableAt(i, i >> 6, i & 63);
  }

  lemma TableAt(i: bv32, q: bv32, j: bv32)
    requires i < 256 && q == i >> 6 && j == i & 63
    ensures i as int < |crc32tab| && crc32tab[i as int] == Shift8(i)
  {
    hide Shift8, QUARTER0, QUARTER1, QUARTER2, QUARTER3;
    assert q < 4 && j < 64 && i == 64 * q + j;
    QuarterIs(q, j, i);
    QuartersJoined(QUARTER0, QUARTER1, QUARTER2, QUARTER3, q, j);
  }

  // ---- division bit by bit ----

  function Bit(b: bool): bv32 {
    if b then 1 else 0
  }

  /** The division step that takes one message bit in. */
  function TakeBit(c: bv32, b: bool): bv32 {
    Shift(c ^ Bit(b))
  }

  /** The register after the message bits, in transmission order. */
  function Feed(c: bv32, bits: seq<bool>): bv32
    decreases |bits|
  {
    if bits == [] then c else Feed(TakeBit(c, bits[0]), bits[1..])
  }

  /** A byte's bits, least significant first. */
  function BitsOf(b: bv8): seq<bool> {
    [b & 1 != 0, b & 2 != 0, b & 4 != 0, b & 8 != 0, b & 16 != 0, b & 32 != 0, b & 64 != 0, b & 128 != 0]
  }

  function Bits(bytes: seq<bv8>): seq<bool> {
    if bytes == [] then [] else BitsOf(bytes[0]) + Bits(bytes[1..])
  }

  /** The CRC of RFC 1952 section 8: ones-filled register, result complemented. */
  function Crc(bytes: seq<bv8>): bv32 {
    Feed(0xFFFFFFFF, Bits(bytes)) ^ 0xFFFFFFFF
  }

  lemma ShiftInjective(x: bv32, y: bv32)
    requires Shift(x) == Shift(y)
    ensures x == y
  {
  }

  /** k division steps with no message bits coming in. */
  function ShiftN(k: nat, c: bv32): bv32 {
    if k == 0 then c else ShiftN(k - 1, Shift(c))
  }

  lemma {:induction false} ShiftNInjective(k: nat, x: bv32, y: bv32)
    requires ShiftN(k, x) == ShiftN(k, y)
    ensures x == y
  {
    if k > 0 {
      ShiftNInjective(k - 1, Shift(x), Shift(y));
      ShiftInjective(x, y);
    }
  }

  function Prepend(b: bool, w: bv32): bv32 {
    Bit(b) | (w << 1)
  }

  /** Up to 32 bits as a word, first bit lowest. */
  function Word(bits: seq<bool>): bv32 {
    if bits == [] then 0 else Prepend(bits[0], Word(bits[1..]))
  }

  function Xor(c: bv32, w: bv32): bv32 {
    c ^ w
  }

  lemma FitsStep(w: bv32, b: bool, n: bv32)
    requires n <= 30 && w >> n == 0
    ensures Prepend(b, w) >> (n + 1) == 0
  {
  }

  lemma {:induction false} WordFits(bits: seq<bool>, n: bv32)
    requires n <= 31 && |bits| == n as int
    ensures Word(bits) >> n == 0
  {
    if bits != [] {
      WordFits(bits[1..], n - 1);
      FitsStep(Word(bits[1..]), bits[0], n - 1);
    }
  }

  lemma TopBitClear(w: bv32, n: bv32)
    requires n <= 31 && w >> n == 0
    ensures w & 0x80000000 == 0
  {
  }

  lemma ShiftSum(c: bv32, u: bv32, w: bv32)
    requires u <= 1 && w & 0x80000000 == 0
    ensures Shift(c ^ (u | (w << 1))) == Shift(c ^ u) ^ w
  {
  }

  lemma ShiftXor(c: bv32, u: bv32, w: bv32)
    requires u <= 1 && w & 0x80000000 == 0
    ensures Shift(Xor(c, u | (w << 1))) == Xor(Shift(c ^ u), w)
  {
    hide Shift;
    ShiftSum(c, u, w);
  }

  lemma ShiftWord(c: bv32, b: bool, w: bv32)
    requires w & 0x80000000 == 0
    ensures Shift(Xor(c, Prepend(b, w))) == Xor(TakeBit(c, b), w)
  {
    hide Shift;
    if b {
      ShiftXor(c, 1, w);
    } else {
      ShiftXor(c, 0, w);
    }
  }

  lemma WordLeavesTopBit(bits: seq<bool>)
    requires |bits| <= 31
    ensures Word(bits) & 0x80000000 == 0
  {
    var n := |bits| as bv32;
    WordFits(bits, n);
    TopBitClear(Word(bits), n);
  }

  lemma XorZero(c: bv32)
    ensures Xor(c, 0) == c
  {
  }

  /** Feeding up to 32 bits is xoring them in as a word and shifting. */
  lemma {:induction false} FeedIsShift(c: bv32, bits: seq<bool>)
    requires |bits| <= 32
    ensures Feed(c, bits) == ShiftN(|bits|, Xor(c, Word(bits)))
    decreases |bits|
  {
    hide Shift, TakeBit, Prepend, Xor;
    if bits == [] {
      XorZero(c);
    } else {
      FeedIsShift(TakeBit(c, bits[0]), bits[1..]);
      WordLeavesTopBit(bits[1..]);
      ShiftWord(c, bits[0], Word(bits[1..]));
    }
  }

  lemma {:induction false} WordInjective(u: seq<bool>, v: seq<bool>)
    requires |u| == |v| <= 32 && Word(u) == Word(v)
    ensures u == v
    decreases |u|
  {
    if u != [] {
      WordLeavesTopBit(u[1..]);
      WordLeavesTopBit(v[1..]);
      PrependInjective(u[0], Word(u[1..]), v[0], Word(v[1..]));
      WordInjective(u[1..], v[1..]);
      assert u == [u[0]] + u[1..] && v == [v[0]] + v[1..];
    }
  }

  lemma Halved(u: bv32, x: bv32)
    requires u <= 1 && x & 0x80000000 == 0
    ensures (u | (x << 1)) >> 1 == x
  {
  }

  lemma PrependInverse(a: bool, x: bv32)
    requires x & 0x80000000 == 0
    ensures Prepend(a, x) & 1 == 1 <==> a
    ensures Prepend(a, x) >> 1 == x
  {
    if a {
      Halved(1, x);
    } else {
      Halved(0, x);
    }
  }

  lemma PrependInjective(a: bool, x: bv32, b: bool, y: bv32)
    requires x & 0x80000000 == 0 && y & 0x80000000 == 0 && Prepend(a, x) == Prepend(b, y)
    ensures a == b && x == y
  {
    hide Prepend;
    PrependInverse(a, x);
    PrependInverse(b, y);
  }

  lemma XorInjective(c: bv32, x: bv32, y: bv32)
    requires Xor(c, x) == Xor(c, y)
    ensures x == y
  {
  }

  lemma TakeBitInjective(c: bv32, d: bv32, b: bool)
    requires TakeBit(c, b) == TakeBit(d, b)
    ensures c == d
  {
    ShiftInjective(c ^ Bit(b), d ^ Bit(b));
  }

  /** For fixed message bits the register's map is one-to-one. */
  lemma {:induction false} FeedInjective(c: bv32, d: bv32, bits: seq<bool>)
    requires Feed(c, bits) == Feed(d, bits)
    ensures c == d
    decreases |bits|
  {
    hide TakeBit;
    if bits != [] {
      FeedInjective(TakeBit(c, bits[0]), TakeBit(d, bits[0]), bits[1..]);
      TakeBitInjective(c, d, bits[0]);
    }
  }

  /** From one register value, up to 32 bits can be told apart by the value they lead to. */
  lemma WindowInjective(c: bv32, u: seq<bool>, v: seq<bool>)
    requires |u| == |v| <= 32 && Feed(c, u) == Feed(c, v)
    ensures u == v
  {
    hide Xor;
    FeedIsShift(c, u);
    FeedIsShift(c, v);
    ShiftNInjective(|u|, Xor(c, Word(u)), Xor(c, Word(v)));
    XorInjective(c, Word(u), Word(v));
    WordInjective(u, v);
  }

  lemma {:induction false} FeedAppend(c: bv32, a: seq<bool>, b: seq<bool>)
    ensures Feed(c, a + b) == Feed(Feed(c, a), b)
    decreases |a|
  {
    hide TakeBit;
    if a == [] {
      assert a + b == b;
    } else {
      assert (a + b)[1..] == a[1..] + b;
      FeedAppend(TakeBit(c, a[0]), a[1..], b);
    }
  }

  // ---- what a matching checksum excludes ----

  /** Two messages that differ only within 32 consecutive bits leave different registers. */
  lemma BurstChangesRegister(c: bv32, pre: seq<bool>, u: seq<bool>, v: seq<bool>, post: seq<bool>)
    requires |u| == |v| <= 32 && u != v
    ensures Feed(c, pre + u + post) != Feed(c, pre + v + post)
  {
    FeedAppend(c, pre + u, post);
    FeedAppend(c, pre + v, post);
    FeedAppend(c, pre, u);
    FeedAppend(c, pre, v);
    var r := Feed(c, pre);
    if Feed(Feed(r, u), post) == Feed(Feed(r, v), post) {
      FeedInjective(Feed(r, u), Feed(r, v), post);
      WindowInjective(r, u, v);
    }
  }

  lemma {:induction false} BitsAppend(a: seq<bv8>, b: seq<bv8>)
    ensures Bits(a + b) == Bits(a) + Bits(b)
  {
    hide BitsOf;
    if a == [] {
      assert a + b == b;
    } else {
      assert (a + b)[1..] == a[1..] + b;
      BitsAppend(a[1..], b);
    }
  }

  lemma BitsOfInjective(a: bv8, b: bv8)
    requires BitsOf(a) == BitsOf(b)
    ensures a == b
  {
    assert BitsOf(a)[0] == BitsOf(b)[0] && BitsOf(a)[1] == BitsOf(b)[1] && BitsOf(a)[2] == BitsOf(b)[2] &&
      BitsOf(a)[3] == BitsOf(b)[3];
    assert BitsOf(a)[4] == BitsOf(b)[4] && BitsOf(a)[5] == BitsOf(b)[5] && BitsOf(a)[6] == BitsOf(b)[6] &&
      BitsOf(a)[7] == BitsOf(b)[7];
  }

  lemma EightBits(b: bv8)
    ensures |BitsOf(b)| == 8
  {
  }

  lemma {:induction false} BitsLength(u: seq<bv8>)
    ensures |Bits(u)| == 8 * |u|
  {
    hide BitsOf;
    if u != [] {
      EightBits(u[0]);
      BitsLength(u[1..]);
    }
  }

  lemma {:induction false} BitsInjective(u: seq<bv8>, v: seq<bv8>)
    requires |u| == |v| && Bits(u) == Bits(v)
    ensures u == v
    decreases |u|
  {
    hide BitsOf;
    if u != [] {
      EightBits(u[0]);
      EightBits(v[0]);
      assert BitsOf(u[0]) == Bits(u)[..8] && BitsOf(v[0]) == Bits(v)[..8];
      assert Bits(u[1..]) == Bits(u)[8..] && Bits(v[1..]) == Bits(v)[8..];
      BitsOfInjective(u[0], v[0]);
      BitsInjective(u[1..], v[1..]);
      assert u == [u[0]] + u[1..] && v == [v[0]] + v[1..];
    }
  }

  /** Files of one length that differ only inside a window of at most four consecutive bytes have different
      checksums: an upload damaged so is never taken for the file that was sent. */
  lemma FourByteWindowDetected(pre: seq<bv8>, u: seq<bv8>, v: seq<bv8>, post: seq<bv8>)
    requires |u| == |v| <= 4 && u != v
    ensures Crc(pre + u + post) != Crc(pre + v + post)
  {
    hide Feed, Bits;
    BitsAppend(pre + u, post);
    BitsAppend(pre + v, post);
    BitsAppend(pre, u);
    BitsAppend(pre, v);
    BitsLength(u);
    BitsLength(v);
    if Bits(u) == Bits(v) {
      BitsInjective(u, v);
    }
    BurstChangesRegister(0xFFFFFFFF, Bits(pre), Bits(u), Bits(v), Bits(post));
    Complement(Feed(0xFFFFFFFF, Bits(pre + u + post)), Feed(0xFFFFFFFF, Bits(pre + v + post)));
  }

  lemma Complement(x: bv32, y: bv32)
    ensures x ^ 0xFFFFFFFF == y ^ 0xFFFFFFFF ==> x == y
  {
  }

  // ---- the table-driven loop ----

  lemma PrependedBits(b: bv8)
    ensures Prepend(b & 1 != 0, Prepend(b & 2 != 0, Prepend(b & 4 != 0, Prepend(b & 8 != 0, Prepend(b & 16 != 0,
            Prepend(b & 32 != 0, Prepend(b & 64 != 0, Prepend(b & 128 != 0, 0)))))))) == b as bv32
  {
  }

  lemma {:induction false} WordOfEight(s: seq<bool>)
    requires |s| == 8
    ensures Word(s) ==
            Prepend(s[0], Prepend(s[1], Prepend(s[2], Prepend(s[3],
              Prepend(s[4], Prepend(s[5], Prepend(s[6], Prepend(s[7], 0))))))))
  {
    hide Prepend;
    assert s[7..] == [s[7]] && s[7..][1..] == [];
    assert s[6..][1..] == s[7..] && s[5..][1..] == s[6..] && s[4..][1..] == s[5..];
    assert s[3..][1..] == s[4..] && s[2..][1..] == s[3..] && s[1..][1..] == s[2..];
    assert Word(s[7..]) == Prepend(s[7], 0);
    assert Word(s[6..]) == Prepend(s[6], Prepend(s[7], 0));
    assert Word(s[4..]) == Prepend(s[4], Prepend(s[5], Word(s[6..])));
    assert Word(s[2..]) == Prepend(s[2], Prepend(s[3], Word(s[4..])));
  }

  // Eight steps with no bits coming in, four at a time. Equal words get a name of their own:
  // a lemma about words is then an equation between names.

  function Shift4(c: bv32): bv32 {
    Shift(Shift(Shift(Shift(c))))
  }

  lemma Shift4Sum(c: bv32, w: bv32)
    requires w & 0xF0000000 == 0
    ensures Shift4(c ^ (w << 4)) == Shift4(c) ^ w
  {
  }

  lemma Shift4Named(c: bv32, w: bv32, x: bv32)
    requires x == c ^ (w << 4) && w & 0xF0000000 == 0
    ensures Shift4(x) == Shift4(c) ^ w
  {
    hide Shift4;
    Shift4Sum(c, w);
  }

  lemma TwiceShift4(c: bv32, h: bv32, g: bv32, x: bv32, y: bv32, d: bv32)
    requires x == c ^ (g << 4) && g == h << 4 && g & 0xF0000000 == 0 && h & 0xF0000000 == 0
    requires y == Shift4(x) && d == Shift4(c)
    ensures Shift4(y) == Shift4(d) ^ h
  {
    hide Shift4;
    Shift4Named(c, g, x);
    Shift4Named(d, h, y);
  }

  lemma Parts(x: bv32)
    ensures ((x >> 8) << 4) & 0xF0000000 == 0 && (x >> 8) & 0xF0000000 == 0
    ensures x == (x & 0xFF) ^ (((x >> 8) << 4) << 4)
  {
  }

  lemma LowByte4(x: bv32, i: bv32, h: bv32, g: bv32)
    requires i == x & 0xFF && h == x >> 8 && g == h << 4
    ensures Shift4(Shift4(x)) == Shift4(Shift4(i)) ^ h
  {
    hide Shift4;
    Parts(x);
    TwiceShift4(i, h, g, x, Shift4(x), Shift4(i));
  }

  lemma Shift8Halves(x: bv32)
    ensures Shift4(Shift4(x)) == Shift8(x)
  {
    hide Shift;
  }

  /** Of a word shifted eight times only the low byte meets the polynomial. */
  lemma LowByte(x: bv32, i: bv32, h: bv32)
    requires i == x & 0xFF && h == x >> 8
    ensures Shift8(x) == Shift8(i) ^ h
  {
    hide Shift4, Shift8;
    Shift8Halves(x);
    Shift8Halves(i);
    LowByte4(x, i, h, h << 4);
  }

  function TableEntry(i: bv32): (r: bv32)
    requires i < 256
    ensures r == Shift8(i)
  {
    TableIsShift8(i);
    crc32tab[i as int]
  }

  /** One turn of the inner loop of filecrc32. */
  function TableStep(c: bv32, b: bv8): bv32 {
    TableEntry((c ^ b as bv32) & 0xFF) ^ (c >> 8)
  }

  lemma HighBytes(c: bv32, b: bv8, x: bv32, h: bv32)
    requires x == c ^ b as bv32 && h == x >> 8
    ensures c >> 8 == h
  {
  }

  lemma TableStepNamed(c: bv32, b: bv8, i: bv32)
    requires i == (c ^ b as bv32) & 0xFF
    ensures i < 256 && TableStep(c, b) == TableEntry(i) ^ (c >> 8)
  {
    hide TableEntry, Shift8;
  }

  lemma TableStepShifts(c: bv32, b: bv8, x: bv32, i: bv32, h: bv32)
    requires x == c ^ b as bv32 && i == x & 0xFF && h == x >> 8
    ensures TableStep(c, b) == Shift8(x)
  {
    hide Shift8, TableEntry, TableStep;
    TableStepNamed(c, b, i);
    HighBytes(c, b, x, h);
    LowByte(x, i, h);
  }

  /** A table step is eight division steps taking in the byte's bits. */
  lemma TableStepIsFeed(c: bv32, b: bv8)
    ensures TableStep(c, b) == Feed(c, BitsOf(b))
  {
    hide Shift8, Prepend, BitsOf, TableStep;
    var x := Xor(c, b as bv32);
    TableStepShifts(c, b, x, x & 0xFF, x >> 8);
    EightBits(b);
    FeedIsShift(c, BitsOf(b));
    WordOfByte(b);
    ShiftNEight(x);
  }

  lemma WordOfByte(b: bv8)
    ensures Word(BitsOf(b)) == b as bv32
  {
    hide Prepend;
    WordOfEight(BitsOf(b));
    PrependedBits(b);
  }

  lemma ShiftNFour(k: nat, x: bv32)
    ensures ShiftN(k + 4, x) == ShiftN(k, Shift4(x))
  {
    hide Shift;
    assert ShiftN(k + 4, x) == ShiftN(k + 2, Shift(Shift(x)));
  }

  lemma ShiftNEight(x: bv32)
    ensures ShiftN(8, x) == Shift8(x)
  {
    hide Shift4, Shift8;
    ShiftNFour(4, x);
    ShiftNFour(0, Shift4(x));
    Shift8Halves(x);
  }

  // ---- a checksum sent with its file ----

  /** A word as four bytes, low byte first. */
  function LittleEndian(c: bv32): (s: seq<bv8>)
    ensures |s| == 4
  {
    [(c & 0xFF) as bv8, ((c >> 8) & 0xFF) as bv8, ((c >> 16) & 0xFF) as bv8, ((c >> 24) & 0xFF) as bv8]
  }

  lemma ByteStep(c: bv32, b: bv8)
    ensures Feed(c, BitsOf(b)) == Shift8(Xor(c, b as bv32))
  {
    hide Shift8, BitsOf, Xor;
    EightBits(b);
    FeedIsShift(c, BitsOf(b));
    WordOfByte(b);
    ShiftNEight(Xor(c, b as bv32));
  }

  lemma {:induction false} FeedBytes(c: bv32, bytes: seq<bv8>, b: bv8)
    ensures Feed(c, Bits([b] + bytes)) == Feed(Shift8(Xor(c, b as bv32)), Bits(bytes))
  {
    hide Shift8, BitsOf, Xor, Feed;
    ByteStep(c, b);
    assert ([b] + bytes)[1..] == bytes;
    FeedAppend(c, BitsOf(b), Bits(bytes));
  }

  /** Taking in the low byte of a word is shifting the word in, as far as its other bytes are still to come. */
  lemma OwnBytes(r: bv32, c: bv32)
    requires c == r ^ 0xFFFFFFFF
    ensures var s := LittleEndian(c);
            var r1 := Shift8(Xor(r, s[0] as bv32));
            var r2 := Shift8(Xor(r1, s[1] as bv32));
            var r3 := Shift8(Xor(r2, s[2] as bv32));
            Shift8(Xor(r3, s[3] as bv32)) == 0xDEBB20E3
  {
  }

  /** The residue of section 8 of RFC 1952's CRC: a file followed by its own checksum, low byte first, always leaves the
      register with the same value, so a receiver can check a file and its checksum in one pass. */
  lemma Residue(bytes: seq<bv8>)
    ensures Feed(0xFFFFFFFF, Bits(bytes + LittleEndian(Crc(bytes)))) == 0xDEBB20E3
  {
    hide Feed, Bits, Shift8, LittleEndian, Xor;
    var r, s := Feed(0xFFFFFFFF, Bits(bytes)), LittleEndian(Crc(bytes));
    BitsAppend(bytes, s);
    FeedAppend(0xFFFFFFFF, Bits(bytes), Bits(s));
    FourBytes(r, s[0], s[1], s[2], s[3]);
    assert s == [s[0], s[1], s[2], s[3]];
    OwnBytes(r, Crc(bytes));
  }

  lemma FourBytes(r: bv32, a: bv8, b: bv8, c: bv8, d: bv8)
    ensures Feed(r, Bits([a, b, c, d])) ==
            Shift8(Xor(Shift8(Xor(Shift8(Xor(Shift8(Xor(r, a as bv32)), b as bv32)), c as bv32)), d as bv32))
  {
    hide Bits, Shift8, Xor;
    var r1 := Shift8(Xor(r, a as bv32));
    var r2 := Shift8(Xor(r1, b as bv32));
    var r3 := Shift8(Xor(r2, c as bv32));
    FeedBytes(r, [b, c, d], a);
    FeedBytes(r1, [c, d], b);
    FeedBytes(r2, [d], c);
    FeedBytes(r3, [], d);
    assert [a] + [b, c, d] == [a, b, c, d] && [b] + [c, d] == [b, c, d] && [c] + [d] == [c, d] && [d] + [] == [d];
    NoBytes();
  }

  lemma NoBytes()
    ensures Bits([]) == []
  {
  }

  /** The empty file, and the check value that goes with the polynomial, the initial register and the complement: the
      digits 1 to 9. */
  lemma CheckValues()
    ensures Crc([]) == 0
    ensures Crc([0x31, 0x32, 0x33, 0x34, 0x35, 0x36, 0x37, 0x38, 0x39]) == 0xCBF43926
  {
    hide Bits;
    NoBytes();
    NineBytes();
  }

  lemma FirstFour()
    ensures Shift8(Xor(0xFFFFFFFF, 0x31)) == 0x7C231048 && Shift8(Xor(0x7C231048, 0x32)) == 0xB0ACBB32
    ensures Shift8(Xor(0xB0ACBB32, 0x33)) == 0x77B79C2D && Shift8(Xor(0x77B79C2D, 0x34)) == 0x641C1F5C
  {
  }

  lemma NextFour()
    ensures Shift8(Xor(0x641C1F5C, 0x35)) == 0x340AC5E3 && Shift8(Xor(0x340AC5E3, 0x36)) == 0xF68D2C9E
    ensures Shift8(Xor(0xF68D2C9E, 0x37)) == 0xAFFC9660 && Shift8(Xor(0xAFFC9660, 0x38)) == 0x651F2550
  {
  }

  lemma LastOne()
    ensures Shift8(Xor(0x651F2550, 0x39)) == 0x340BC6D9
  {
  }

  lemma FedNothing(c: bv32)
    ensures Feed(c, []) == c
  {
  }

  lemma NineBytes()
    ensures Feed(0xFFFFFFFF, Bits([0x31, 0x32, 0x33, 0x34, 0x35, 0x36, 0x37, 0x38, 0x39])) == 0x340BC6D9
  {
    hide Bits, Feed, Xor, Shift8;
    var a: seq<bv8>, b: seq<bv8> := [0x31, 0x32, 0x33, 0x34], [0x35, 0x36, 0x37, 0x38];
    assert a + b + [0x39] == [0x31, 0x32, 0x33, 0x34, 0x35, 0x36, 0x37, 0x38, 0x39];
    BitsAppend(a + b, [0x39]);
    BitsAppend(a, b);
    FeedAppend(0xFFFFFFFF, Bits(a + b), Bits([0x39]));
    FeedAppend(0xFFFFFFFF, Bits(a), Bits(b));
    FourBytes(0xFFFFFFFF, 0x31, 0x32, 0x33, 0x34);
    FirstFour();
    FourBytes(0x641C1F5C, 0x35, 0x36, 0x37, 0x38);
    NextFour();
    FeedBytes(0x651F2550, [], 0x39);
    assert [0x39] + [] == [0x39 as bv8];
    NoBytes();
    LastOne();
    assert Feed(0x340BC6D9, []) == 0x340BC6D9 by {
      FedNothing(0x340BC6D9);
    }
  }

  function Joined<T>(parts: seq<seq<T>>): seq<T> {
    if parts == [] then [] else Joined(parts[..|parts| - 1]) + parts[|parts| - 1]
  }

  /** The inner loop of filecrc32, over one block that fread returned. */
  method FeedBlock(c: bv32, buf: seq<bv8>, ghost before: seq<bv8>) returns (tmp: bv32)
    requires c == Feed(0xFFFFFFFF, Bits(before))
    ensures tmp == Feed(0xFFFFFFFF, Bits(before + buf))
  {
    hide Feed, Bits, TableStep;
    tmp := c;
    var i := 0;
    assert before + buf[..i] == before;
    while i < |buf|
      invariant 0 <= i <= |buf|
      invariant tmp == Feed(0xFFFFFFFF, Bits(before + buf[..i]))
    {
      ExtendByByte(tmp, before + buf[..i], buf[i]);
      assert before + buf[..i] + [buf[i]] == before + buf[..i + 1];
      tmp := TableStep(tmp, buf[i]);
      i := i + 1;
    }
    assert buf[..i] == buf;
  }

  /** filecrc32 over the blocks that fread returned before it returned nothing; however the file was
      split into reads, the result is the CRC of the whole, and a file that cannot be opened has none. */
  method FileCrc32(found: bool, blocks: seq<seq<bv8>>) returns (ret: int, crc: bv32)
    requires forall r | r in blocks :: 0 < |r| <= 4096
    ensures ret == if found then 0 else -1
    ensures found ==> crc == Crc(Joined(blocks))
  {
    if !found {
      return -1, 0;
    }
    var tmp: bv32 := 0xFFFFFFFF;
    var n := 0;
    while n < |blocks|
      invariant 0 <= n <= |blocks|
      invariant tmp == Feed(0xFFFFFFFF, Bits(Joined(blocks[..n])))
    {
      tmp := FeedBlock(tmp, blocks[n], Joined(blocks[..n]));
      assert blocks[..n + 1][..n] == blocks[..n];
      n := n + 1;
    }
    assert blocks[..n] == blocks;
    return 0, tmp ^ 0xFFFFFFFF;
  }

  lemma ExtendByByte(c: bv32, bytes: seq<bv8>, b: bv8)
    requires c == Feed(0xFFFFFFFF, Bits(bytes))
    ensures TableStep(c, b) == Feed(0xFFFFFFFF, Bits(bytes + [b]))
  {
    hide TableStep, Shift;
    TableStepIsFeed(c, b);
    BitsAppend(bytes, [b]);
    assert Bits([b]) == BitsOf(b);
    FeedAppend(0xFFFFFFFF, Bits(bytes), BitsOf(b));
  }
}

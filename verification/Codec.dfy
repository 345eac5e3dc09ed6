/** The typed encodings of sherry/bytearray.cc: fixed-width integers in either byte order,
    varints, zigzag and length-prefixed strings, as functions on bytes. */
module Codec {
  import opened Bits

  // ---- fixed width -------------------------------------------------------------------

  // The bytes of a w-byte word in memory on the little-endian host, and the word they hold.
  function ToBytes(v: nat, w: nat): (b: seq<byte>)
    ensures |b| == w
  {
    if w == 0 then [] else [v % 256] + ToBytes(v / 256, w - 1)
  }

  function FromBytes(b: seq<byte>): nat {
    if b == [] then 0 else b[0] + 256 * FromBytes(b[1..])
  }

  function Reverse(b: seq<byte>): (r: seq<byte>)
    ensures |r| == |b|
    ensures forall i :: 0 <= i < |b| ==> r[i] == b[|b| - 1 - i]
  {
    seq(|b|, i requires 0 <= i < |b| => b[|b| - 1 - i])
  }

  function Byteswap(v: nat, w: nat): nat {
    FromBytes(Reverse(ToBytes(v, w)))
  }

  // Write swaps when the array's order is not the host's, then copies the word's bytes;
  // read copies the bytes and swaps back.
  function EncodeFixed(v: nat, w: nat, little: bool): (b: seq<byte>)
    ensures |b| == w
  {
    ToBytes(if little then v else Byteswap(v, w), w)
  }

  function DecodeFixed(b: seq<byte>, little: bool): nat {
    if little then FromBytes(b) else Byteswap(FromBytes(b), |b|)
  }

  lemma SplitMod(a: nat, m: nat)
    requires m >= 1
    ensures a % (256 * m) == 256 * ((a / 256) % m) + a % 256
  {
    var h, l := a / 256, a % 256;
    var q, r := h / m, h % m;
    assert h == q * m + r;
    assert a == 256 * h + l;
    assert a == q * (256 * m) + (256 * r + l) by { assert q * (256 * m) == 256 * (q * m); }
    DivModUnique(a, q, 256 * r + l, 256 * m);
  }

  lemma {:induction false} FromToBytes(v: nat, w: nat)
    ensures FromBytes(ToBytes(v, w)) == v % Pow2(8 * w)
  {
    if w == 0 {
      assert v % 1 == 0;
    } else {
      FromToBytes(v / 256, w - 1);
      Pow2Adds(8, 8 * (w - 1));
      assert Pow2(8) == 256 by { Pow2Adds(4, 4); assert Pow2(4) == 16; }
      SplitMod(v, Pow2(8 * (w - 1)));
      assert ToBytes(v, w)[1..] == ToBytes(v / 256, w - 1);
    }
  }

  lemma {:induction false} ToFromBytes(b: seq<byte>)
    ensures ToBytes(FromBytes(b), |b|) == b
  {
    if b != [] {
      ToFromBytes(b[1..]);
      var rest := FromBytes(b[1..]);
      DivModUnique(b[0] + 256 * rest, rest, b[0], 256);
      assert b == [b[0]] + b[1..];
    }
  }

  lemma DivisionIs(v: nat, m: nat)
    requires m >= 1
    ensures v == (v / m) * m + v % m && v % m < m
  {
  }

  lemma TwoRemainders(a: nat, b: nat, q: nat, r: nat, l: nat)
    requires r < b && l < a
    ensures (q * b + r) * a + l == q * (a * b) + (r * a + l) && r * a + l < a * b
  {
    assert (q * b + r) * a == q * (a * b) + r * a;
    MulBound(b - r, a);
    assert (b - r) * a == a * b - r * a;
  }

  lemma TwoDivisions(v: nat, a: nat, b: nat, ab: nat, h: nat, l: nat, q: nat, r: nat)
    requires v == h * a + l && l < a && h == q * b + r && r < b && ab >= 1 && ab == a * b
    ensures v / ab == q
  {
    TwoRemainders(a, b, q, r, l);
    DivModUnique(v, q, r * a + l, ab);
  }

  // Dividing twice is dividing by the product.
  lemma DivDiv(v: nat, a: nat, b: nat, ab: nat)
    requires a >= 1 && b >= 1 && ab >= 1 && ab == a * b
    ensures (v / a) / b == v / ab
  {
    DivisionIs(v, a);
    DivisionIs(v / a, b);
    TwoDivisions(v, a, b, ab, v / a, v % a, (v / a) / b, (v / a) % b);
  }

  lemma NextByte(v: nat, i: nat)
    requires i > 0
    ensures (v / 256) / Pow2(8 * (i - 1)) == v / Pow2(8 * i)
  {
    assert Pow2(8) == 256 by { Pow2Adds(4, 4); assert Pow2(4) == 16; }
    Pow2Adds(8, 8 * (i - 1));
    DivDiv(v, 256, Pow2(8 * (i - 1)), Pow2(8 * i));
  }

  lemma {:induction false} ToBytesIs(v: nat, w: nat, i: nat)
    requires i < w
    ensures ToBytes(v, w)[i] == (v / Pow2(8 * i)) % 256
  {
    if i > 0 {
      ToBytesIs(v / 256, w - 1, i - 1);
      NextByte(v, i);
    }
  }

  // The byte at i is the i-th from the low end in little endian, from the high end in big endian.
  lemma FixedBytes(v: nat, w: nat, little: bool, i: nat)
    requires i < w
    ensures EncodeFixed(v, w, little)[i] == (v / Pow2(8 * (if little then i else w - 1 - i))) % 256
  {
    BigEndianReverses(v, w);
    ToBytesIs(v, w, if little then i else w - 1 - i);
  }

  // Big endian is the little-endian layout back to front.
  lemma BigEndianReverses(v: nat, w: nat)
    ensures EncodeFixed(v, w, false) == Reverse(EncodeFixed(v, w, true))
  {
    ToFromBytes(Reverse(ToBytes(v, w)));
  }

  lemma FixedRoundTrip(v: nat, w: nat, little: bool)
    requires v < Pow2(8 * w)
    ensures DecodeFixed(EncodeFixed(v, w, little), little) == v
  {
    FromToBytes(v, w);
    SmallMod(v, Pow2(8 * w));
    if !little {
      var r := Reverse(ToBytes(v, w));
      ToFromBytes(r);
      assert Reverse(r) == ToBytes(v, w);
    }
  }

  // ---- zigzag ------------------------------------------------------------------------

  function EncodeZigzag(v: int, w: nat): nat {
    if v < 0 then Wrap(Wrap(Wrap(0 - v, w) * 2, w) - 1, w) else Wrap(v * 2, w)
  }

  function DecodeZigzag(v: nat, w: nat): int
    requires w >= 1 && v < Pow2(w)
  {
    LastBit(v, w);
    ToSigned(BitXor(ShiftRight(v, 1), Negate(BitAnd(v, 1), w)), w)
  }

  // The wrapped arithmetic and the bit tricks, without wrap-around and without bits.
  lemma EncodeZigzagIs(v: int, w: nat)
    requires w >= 1 && FitsSigned(v, w)
    ensures EncodeZigzag(v, w) == if v < 0 then -2 * v - 1 else 2 * v
    ensures EncodeZigzag(v, w) < Pow2(w)
  {
    if v < 0 {
      WrapDouble(0 - v, Pow2(w));
    } else {
      SmallMod(v * 2, Pow2(w));
    }
  }

  lemma WrapDouble(a: nat, m: nat)
    requires 1 <= a && 2 * a <= m
    ensures ((a % m) * 2 % m - 1) % m == 2 * a - 1
  {
    SmallMod(a, m);
    SmallMod(2 * a - 1, m);
    if 2 * a == m {
      DivModUnique(2 * a, 1, 0, m);
      DivModUnique(-1, -1, m - 1, m);
    } else {
      SmallMod(2 * a, m);
    }
  }

  lemma DecodeZigzagIs(u: nat, w: nat)
    requires w >= 1 && u < Pow2(w)
    ensures DecodeZigzag(u, w) == if u % 2 == 0 then u / 2 else -1 - u / 2
  {
    LastBit(u, w);
    XorMask(u / 2, u % 2, w);
  }

  // Xor with -0 or with -1.
  lemma XorMask(h: nat, bit: nat, w: nat)
    requires w >= 1 && h < Pow2(w) && bit <= 1
    ensures BitXor(h, Negate(bit, w)) == if bit == 0 then h else Pow2(w) - 1 - h
  {
    if bit == 1 {
      XorOnes(h, w);
    }
  }

  lemma LastBit(v: nat, w: nat)
    requires w >= 1 && v < Pow2(w)
    ensures BitAnd(v, 1) == v % 2 < Pow2(w) && ShiftRight(v, 1) == v / 2
  {
    assert Pow2(1) == 2;
    AndMask(v, 1);
  }

  lemma ZigzagRoundTrip(v: int, w: nat)
    requires w >= 1 && FitsSigned(v, w)
    ensures DecodeZigzag(EncodeZigzag(v, w), w) == v
  {
    EncodeZigzagIs(v, w);
    DecodeZigzagIs(EncodeZigzag(v, w), w);
  }

  lemma ZigzagOnto(u: nat, w: nat)
    requires w >= 1 && u < Pow2(w)
    ensures FitsSigned(DecodeZigzag(u, w), w) && EncodeZigzag(DecodeZigzag(u, w), w) == u
  {
    DecodeZigzagIs(u, w);
    EncodeZigzagIs(DecodeZigzag(u, w), w);
  }

  // ---- varints -----------------------------------------------------------------------

  // Base 128, low group first, the top bit of a byte saying that more follow.
  function EncodeVarint(v: nat): (b: seq<byte>)
    ensures |b| >= 1
  {
    if v < 0x80 then [v] else [v % 128 + 128] + EncodeVarint(v / 128)
  }

  // The bit operations that the source computes the groups with.
  lemma VarintByte(v: nat)
    ensures BitOr(BitAnd(v, 0x7F), 0x80) == v % 128 + 128
    ensures ShiftRight(v, 7) == v / 128
    ensures Pow2(7) == 128
  {
    assert Pow2(7) == 128 by { Pow2Adds(4, 3); assert Pow2(4) == 16 && Pow2(3) == 8; }
    AndMask(v, 7);
    OrDisjoint(v % 128, 1, 7);
  }

  // A value below 128^k takes at most k bytes.
  lemma {:induction false} VarintLength(v: nat, k: nat)
    requires k >= 1 && v < Pow2(7 * k)
    ensures |EncodeVarint(v)| <= k
  {
    VarintByte(v);
    if v >= 0x80 {
      Pow2Adds(7, 7 * (k - 1));
      VarintLength(v / 128, k - 1);
    }
  }

  // The i-th byte carries the i-th group of seven bits, and its top bit says that more follow; no
  // group is written in vain.
  lemma {:induction false} VarintGroups(v: nat, i: nat)
    requires i < |EncodeVarint(v)|
    ensures var b := EncodeVarint(v);
      && b[i] == (v / Pow2(7 * i)) % 128 + (if i < |b| - 1 then 128 else 0)
      && (i == |b| - 1 ==> v / Pow2(7 * i) < 128 && (i > 0 ==> b[i] != 0))
    decreases i
  {
    if i > 0 {
      VarintGroups(v / 128, i - 1);
      NextGroup(v, i);
      assert EncodeVarint(v)[i] == EncodeVarint(v / 128)[i - 1];
    }
  }

  lemma NextGroup(v: nat, i: nat)
    requires i > 0
    ensures (v / 128) / Pow2(7 * (i - 1)) == v / Pow2(7 * i)
  {
    VarintByte(0);
    Pow2Adds(7, 7 * (i - 1));
    DivDiv(v, 128, Pow2(7 * (i - 1)), Pow2(7 * i));
  }

  // Five bytes are enough for 32 bits and ten for 64.
  lemma VarintFitsItsBuffer(v: nat, w: nat, k: nat)
    requires v < Pow2(w) && k == (if w <= 32 then 5 else 10) && w <= 64
    ensures |EncodeVarint(v)| <= k
  {
    Pow2Mono(w, 7 * k);
    VarintLength(v, k);
  }

  // ---- reading from a cursor over flat bytes ------------------------------------------

  /** What the buffer looks like to a reader: all its bytes, how many are data, the position. */
  datatype Cursor = Cursor(bytes: seq<byte>, size: nat, pos: nat) {
    predicate Valid() { pos <= size <= |bytes| }
  }

  /** A value and the position after it, the out_of_range exception, or the null cursor. */
  datatype Step<T> = Got(value: T, pos: nat) | Threw(pos: nat) | Crashed(pos: nat)

  function Take(c: Cursor, n: nat): (r: Step<seq<byte>>)
    requires c.Valid()
    ensures r.pos <= c.size
  {
    if n > c.size - c.pos then Threw(c.pos)
    else if n == 0 && c.pos == |c.bytes| then Crashed(c.pos)
    else Got(c.bytes[c.pos..c.pos + n], c.pos + n)
  }

  function TakeFixed(c: Cursor, w: nat, little: bool): (r: Step<nat>)
    requires c.Valid()
    ensures r.pos <= c.size
  {
    match Take(c, w)
    case Got(b, p) => Got(DecodeFixed(b, little), p)
    case Threw(p) => Threw(p)
    case Crashed(p) => Crashed(p)
  }

  // The reading loop of readUint32 and readUint64: i is the shift, acc the bits so far.
  function TakeVarint(c: Cursor, w: nat, i: nat, acc: nat): (r: Step<nat>)
    requires c.Valid()
    ensures r.pos <= c.size
    decreases w - i
  {
    if i >= w then Got(acc, c.pos)
    else
      match Take(c, 1)
      case Got(b, p) =>
        if b[0] < 0x80 then Got(BitOr(acc, ShiftLeft(b[0], i, w)), p)
        else TakeVarint(c.(pos := p), w, i + 7, BitOr(acc, ShiftLeft(BitAnd(b[0], 0x7F), i, w)))
      case Threw(p) => Threw(p)
      case Crashed(p) => Crashed(p)
  }

  // The cursor stands at the bytes e.
  ghost predicate At(c: Cursor, e: seq<byte>) {
    c.Valid() && c.pos + |e| <= c.size && c.bytes[c.pos..c.pos + |e|] == e
  }

  lemma AtSplit(c: Cursor, a: seq<byte>, b: seq<byte>)
    requires At(c, a + b)
    ensures At(c, a) && At(c.(pos := c.pos + |a|), b)
  {
    var s := c.bytes[c.pos..c.pos + |a + b|];
    assert s[..|a|] == a && s[|a|..] == b;
  }

  // Decoding consumes exactly the encoded bytes, whatever follows them.
  lemma {:induction false} VarintReadsBack(c: Cursor, v: nat, w: nat, i: nat, acc: nat)
    requires At(c, EncodeVarint(v)) && i < w && v < Pow2(w - i) && acc < Pow2(i)
    ensures TakeVarint(c, w, i, acc) == Got(acc + v * Pow2(i), c.pos + |EncodeVarint(v)|)
    decreases v
  {
    if v < 0x80 {
      TakeOne(c, [v]);
      OrShifted(acc, v, i, w);
    } else {
      LowBits(v, w - i);
      VarintGroup(c, v, w, i, acc);
      VarintReadsBack(c.(pos := c.pos + 1), v / 128, w, i + 7, acc + (v % 128) * Pow2(i));
      GroupsJoin(v, i);
    }
  }

  lemma VarintRoundTrip(c: Cursor, v: nat, w: nat)
    requires w >= 1 && v < Pow2(w) && At(c, EncodeVarint(v))
    ensures TakeVarint(c, w, 0, 0) == Got(v, c.pos + |EncodeVarint(v)|)
  {
    VarintReadsBack(c, v, w, 0, 0);
  }

  // ---- varints that nobody wrote -----------------------------------------------------------

  // The number that groups of seven bits write, low group first, whatever the top bits say.
  function GroupsValue(b: seq<byte>): nat {
    if b == [] then 0 else b[0] % 128 + 128 * GroupsValue(b[1..])
  }

  // The bytes a reading loop that stands at shift i takes: up to the first without the top bit, or
  // until the shift has passed the word.
  predicate Taken(b: seq<byte>, i: nat, w: nat) {
    && |b| >= 1 && i + 7 * (|b| - 1) < w
    && (forall k :: 0 <= k < |b| - 1 ==> b[k] >= 128)
    && (b[|b| - 1] < 128 || i + 7 * |b| >= w)
  }

  // acc and v from bit i on, as a word of w bits keeps them.
  function Cut(acc: nat, v: nat, i: nat, w: nat): nat {
    Wrap(acc + v * Pow2(i), w)
  }

  lemma WrapScaled(acc: nat, b: nat, m: nat, p: nat, q: nat)
    requires m >= 1 && p >= 1 && q == p * m && acc < m
    ensures (b * m) % q == (b % p) * m && (acc + b * m) % q == acc + (b % p) * m
  {
    var h, r := b / p, b % p;
    assert b == h * p + r;
    assert (h * p + r) * m == h * (p * m) + r * m;
    ProductBelow(r, p, m);
    assert (p - r) * m == p * m - r * m;
    MulBound(p - r, m);
    DivModUnique(b * m, h, r * m, q);
    DivModUnique(acc + b * m, h, acc + r * m, q);
  }

  // One group ORed in, its high bits cut off by the word.
  lemma OrWrapped(acc: nat, b: nat, i: nat, w: nat)
    requires i < w && acc < Pow2(i)
    ensures BitOr(acc, ShiftLeft(b, i, w)) == (acc + b * Pow2(i)) % Pow2(w)
  {
    Pow2Adds(w - i, i);
    WrapScaled(acc, b, Pow2(i), Pow2(w - i), Pow2(w));
    OrDisjoint(acc, b % Pow2(w - i), i);
  }

  lemma LowGroup(b: nat)
    ensures BitAnd(b, 0x7F) == b % 128
  {
    VarintByte(0);
    AndMask(b, 7);
  }

  // A group that does not reach the end of the word is added as it is.
  lemma AddsGroup(acc: nat, low: nat, i: nat, w: nat)
    requires i + 7 < w && acc < Pow2(i) && low < 128
    ensures (acc + low * Pow2(i)) % Pow2(w) == acc + low * Pow2(i) < Pow2(i + 7)
  {
    Accumulate(acc, low, i);
    Pow2Mono(i + 7, w);
    SmallMod(acc + low * Pow2(i), Pow2(w));
  }

  lemma MoreGroups(acc: nat, low: nat, rest: nat, i: nat)
    ensures acc + low * Pow2(i) + rest * Pow2(i + 7) == acc + (low + 128 * rest) * Pow2(i)
  {
    VarintByte(0);
    Pow2Adds(7, i);
    var m := Pow2(i);
    assert (low + 128 * rest) * m == low * m + rest * (128 * m);
  }

  lemma AddsRest(acc: nat, low: nat, rest: nat, i: nat, w: nat)
    requires i + 7 < w && acc < Pow2(i) && low < 128
    ensures Cut(acc, low, i, w) < Pow2(i + 7)
    ensures Cut(Cut(acc, low, i, w), rest, i + 7, w) == Cut(acc, low + 128 * rest, i, w)
  {
    AddsGroup(acc, low, i, w);
    MoreGroups(acc, low, rest, i);
    CutIs(acc, low, i, w);
    CutIs(acc + low * Pow2(i), rest, i + 7, w);
    CutIs(acc, low + 128 * rest, i, w);
  }

  lemma CutIs(acc: nat, v: nat, i: nat, w: nat)
    ensures Cut(acc, v, i, w) == (acc + v * Pow2(i)) % Pow2(w)
  {
  }

  // One turn of the loop, over any byte.
  lemma ReadsOne(c: Cursor, b: byte, w: nat, i: nat, acc: nat)
    requires At(c, [b]) && i < w && acc < Pow2(i)
    ensures var more := Cut(acc, b % 128, i, w);
      TakeVarint(c, w, i, acc) ==
        if b < 128 || i + 7 >= w then Got(more, c.pos + 1) else TakeVarint(c.(pos := c.pos + 1), w, i + 7, more)
  {
    TakeOne(c, [b]);
    LowGroup(b);
    CutIs(acc, b % 128, i, w);
    OrWrapped(acc, b % 128, i, w);
  }

  // Any bytes: the loop takes just these and returns what their groups write, cut to the word.
  lemma VarintReadsAny(c: Cursor, b: seq<byte>, w: nat)
    requires At(c, b) && Taken(b, 0, w)
    ensures TakeVarint(c, w, 0, 0) == Got(GroupsValue(b) % Pow2(w), c.pos + |b|)
  {
    ReadsAll(c, b, w, 0, 0, TakeVarint(c, w, 0, 0));
    CutIs(0, GroupsValue(b), 0, w);
  }

  lemma {:induction false} ReadsAll(c: Cursor, b: seq<byte>, w: nat, i: nat, acc: nat, r: Step<nat>)
    requires At(c, b) && Taken(b, i, w) && acc < Pow2(i) && r == TakeVarint(c, w, i, acc)
    ensures r == Got(Cut(acc, GroupsValue(b), i, w), c.pos + |b|)
    decreases |b|
  {
    TakenRest(c, b, i, w);
    if |b| == 1 {
      ReadsOne(c, b[0], w, i, acc);
    } else {
      var next, more := c.(pos := c.pos + 1), Cut(acc, b[0] % 128, i, w);
      AddsRest(acc, b[0] % 128, GroupsValue(b[1..]), i, w);
      ReadsAll(next, b[1..], w, i + 7, more, TakeVarint(next, w, i + 7, more));
      ReadsOne(c, b[0], w, i, acc);
    }
  }

  lemma TakenRest(c: Cursor, b: seq<byte>, i: nat, w: nat)
    requires At(c, b) && Taken(b, i, w)
    ensures At(c, [b[0]]) && GroupsValue(b) == b[0] % 128 + 128 * GroupsValue(b[1..])
    ensures |b| == 1 ==> (b[0] < 128 || i + 7 >= w) && GroupsValue(b) == b[0] % 128
    ensures |b| > 1 ==> b[0] >= 128 && i + 7 < w && At(c.(pos := c.pos + 1), b[1..]) && Taken(b[1..], i + 7, w)
  {
    AtRest(c, b);
    FirstGroup(b);
    if |b| > 1 {
      TakenTail(b, i, w);
    }
  }

  lemma FirstGroup(b: seq<byte>)
    requires |b| >= 1
    ensures GroupsValue(b) == b[0] % 128 + 128 * GroupsValue(b[1..])
    ensures |b| == 1 ==> GroupsValue(b) == b[0] % 128
  {
    assert |b| == 1 ==> b[1..] == [];
  }

  lemma TakenTail(b: seq<byte>, i: nat, w: nat)
    requires Taken(b, i, w) && |b| > 1
    ensures b[0] >= 128 && i + 7 < w && Taken(b[1..], i + 7, w)
  {
    var r := b[1..];
    assert |r| == |b| - 1 && forall k :: 0 <= k < |r| ==> r[k] == b[k + 1];
  }

  lemma AtRest(c: Cursor, b: seq<byte>)
    requires At(c, b) && |b| >= 1
    ensures At(c, [b[0]]) && At(c.(pos := c.pos + 1), b[1..])
  {
    assert b == [b[0]] + b[1..];
    AtSplit(c, [b[0]], b[1..]);
  }

  // When the data ends before the number does, the exception comes at its end.
  lemma {:induction false} VarintRunsOut(c: Cursor, w: nat, i: nat, acc: nat)
    requires c.Valid() && i + 7 * (c.size - c.pos) < w
    requires forall k :: c.pos <= k < c.size ==> c.bytes[k] >= 128
    ensures TakeVarint(c, w, i, acc) == Threw(c.size)
    decreases c.size - c.pos
  {
    if c.pos < c.size {
      var b := c.bytes[c.pos];
      VarintRunsOut(c.(pos := c.pos + 1), w, i + 7, BitOr(acc, ShiftLeft(BitAnd(b, 0x7F), i, w)));
    }
  }

  // One turn of the reading loop over a byte that says more follow.
  lemma VarintGroup(c: Cursor, v: nat, w: nat, i: nat, acc: nat)
    requires At(c, EncodeVarint(v)) && i < w && 0x80 <= v && v % 128 < Pow2(w - i) && acc < Pow2(i)
    ensures At(c.(pos := c.pos + 1), EncodeVarint(v / 128)) && |EncodeVarint(v)| == 1 + |EncodeVarint(v / 128)|
    ensures 0 <= acc + (v % 128) * Pow2(i) < Pow2(i + 7)
    ensures TakeVarint(c, w, i, acc)
         == TakeVarint(c.(pos := c.pos + 1), w, i + 7, acc + (v % 128) * Pow2(i))
  {
    VarintByte(v);
    TakeOne(c, EncodeVarint(v));
    AtSplit(c, [v % 128 + 128], EncodeVarint(v / 128));
    OrGroup(acc, v % 128, i, w);
  }

  lemma TakeOne(c: Cursor, e: seq<byte>)
    requires At(c, e) && |e| >= 1
    ensures Take(c, 1) == Got([e[0]], c.pos + 1)
  {
    assert c.bytes[c.pos..c.pos + |e|][0] == c.bytes[c.pos];
    assert c.bytes[c.pos..c.pos + 1] == [e[0]];
  }

  lemma OrGroup(acc: nat, low: nat, i: nat, w: nat)
    requires i <= w && low < 128 && low < Pow2(w - i) && acc < Pow2(i)
    ensures BitOr(acc, ShiftLeft(BitAnd(low + 128, 0x7F), i, w)) == acc + low * Pow2(i) < Pow2(i + 7)
  {
    ClearTopBit(low);
    OrShifted(acc, low, i, w);
    Accumulate(acc, low, i);
  }

  lemma ClearTopBit(low: nat)
    requires low < 128
    ensures BitAnd(low + 128, 0x7F) == low
  {
    VarintByte(0);
    AndMask(low + 128, 7);
    ModAddMultiple(low, 1, 128);
    SmallMod(low, 128);
  }

  lemma OrShifted(acc: nat, b: nat, i: nat, w: nat)
    requires i <= w && b < Pow2(w - i) && acc < Pow2(i)
    ensures BitOr(acc, ShiftLeft(b, i, w)) == acc + b * Pow2(i)
  {
    ShiftIsProduct(b, i, w);
    OrDisjoint(acc, b, i);
  }

  lemma GroupsJoin(v: nat, i: nat)
    ensures (v % 128) * Pow2(i) + (v / 128) * Pow2(i + 7) == v * Pow2(i)
  {
    VarintByte(0);
    Pow2Adds(7, i);
    var low, high, m := v % 128, v / 128, Pow2(i);
    assert v == low + high * 128;
    assert (low + high * 128) * m == low * m + high * (128 * m);
  }

  // A value of at least 128 that fits n bits leaves more than 7 of them, and its quotient fits the rest.
  lemma LowBits(v: nat, n: nat)
    requires 128 <= v < Pow2(n)
    ensures n > 7 && v / 128 < Pow2(n - 7) && v % 128 < Pow2(n)
  {
    VarintByte(0);
    if n <= 7 {
      Pow2Mono(n, 7);
    } else {
      Pow2Adds(7, n - 7);
    }
  }

  lemma ShiftIsProduct(b: nat, i: nat, w: nat)
    requires i <= w && b < Pow2(w - i)
    ensures ShiftLeft(b, i, w) == b * Pow2(i)
  {
    Pow2Adds(w - i, i);
    ProductBelow(b, Pow2(w - i), Pow2(i));
    SmallMod(b * Pow2(i), Pow2(w));
  }

  lemma ProductBelow(b: nat, c: nat, m: nat)
    requires b < c && m >= 1
    ensures b * m < c * m
  {
    MulBound(c - b, m);
    assert (c - b) * m == c * m - b * m;
  }

  lemma Accumulate(acc: nat, low: nat, i: nat)
    requires acc < Pow2(i) && low < 128
    ensures acc + low * Pow2(i) < Pow2(7 + i)
  {
    VarintByte(0);
    Pow2Adds(7, i);
    assert 128 * Pow2(i) - low * Pow2(i) == (128 - low) * Pow2(i);
    MulBound(128 - low, Pow2(i));
  }
}

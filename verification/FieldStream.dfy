/** The typed read and write calls of a byte array, as methods on it, and the write, seek,
    read-back cycle of tests/test_bytearray.cc for any list of fields. */
module FieldStreams {
  import opened Bits
  import opened ByteArrays
  import opened Codec
  import opened Fields

  // The buffer as a reader sees it.
  ghost function View(ba: ByteArray): Cursor
    reads ba
  {
    Cursor(ba.flat, ba.size, ba.position)
  }

  // What writing `bytes` does to that view.
  ghost predicate Wrote(before: Cursor, after: Cursor, bytes: seq<byte>, block: nat)
    requires block >= 1 && before.Valid()
  {
    && after.Valid()
    && after.pos == before.pos + |bytes| && after.size == Max(before.size, after.pos)
    && |after.bytes| == Grown(|before.bytes|, after.pos, block)
    && Overwrite(before.bytes, before.pos, bytes) <= after.bytes
  }

  lemma WroteBoth(a: Cursor, b: Cursor, c: Cursor, x: seq<byte>, y: seq<byte>, block: nat)
    requires block >= 1 && a.Valid() && b.Valid() && Wrote(a, b, x, block) && Wrote(b, c, y, block)
    ensures Wrote(a, c, x + y, block)
  {
    GrownTwice(|a.bytes|, b.pos, c.pos, block);
    var r := Overwrite(a.bytes, a.pos, x + y);
    assert |Overwrite(a.bytes, a.pos, x)| <= |b.bytes|;
    assert |Overwrite(b.bytes, b.pos, y)| <= |c.bytes|;
    forall i | 0 <= i < |r|
      ensures r[i] == c.bytes[i]
    {
      if i < |b.bytes| && !(b.pos <= i < c.pos) {
        assert Overwrite(b.bytes, b.pos, y)[i] == b.bytes[i] == c.bytes[i];
        assert Overwrite(a.bytes, a.pos, x)[i] == b.bytes[i];
      } else {
        assert Overwrite(b.bytes, b.pos, y)[i] == y[i - b.pos] == c.bytes[i];
      }
    }
  }

  // ---- writing -----------------------------------------------------------------------

  method WriteBytes(ba: ByteArray, bytes: seq<byte>)
    requires ba.Valid()
    modifies ba, ba.nodes
    ensures ba.Valid() && old(ba.nodes) <= ba.nodes && fresh(set n | n in ba.nodes && n !in old(ba.nodes))
    ensures Wrote(old(View(ba)), View(ba), bytes, ba.baseSize) && ba.littleEndian == old(ba.littleEndian)
  {
    ba.Write(bytes);
  }

  // writeFuintN and writeFintN: swap to the array's byte order, then copy the word.
  method WriteFixed(ba: ByteArray, w: Width, v: nat)
    requires ba.Valid() && v < Pow2(w.Bits())
    modifies ba, ba.nodes
    ensures ba.Valid() && old(ba.nodes) <= ba.nodes && fresh(set n | n in ba.nodes && n !in old(ba.nodes))
    ensures Wrote(old(View(ba)), View(ba), EncodeFixed(v, w.Bytes(), ba.littleEndian), ba.baseSize)
    ensures ba.littleEndian == old(ba.littleEndian)
  {
    var value := v;
    if !ba.littleEndian {
      value := Byteswap(value, w.Bytes());
    }
    WriteBytes(ba, ToBytes(value, w.Bytes()));
  }

  // The loop of writeUint32 and writeUint64 over its buffer of `room` bytes.
  method VarintBytes(v: nat, room: nat) returns (b: seq<byte>)
    requires |EncodeVarint(v)| <= room
    ensures b == EncodeVarint(v)
  {
    var tmp := new byte[room];
    var i, value := 0, v;
    while value >= 0x80
      invariant 0 <= i && i + |EncodeVarint(value)| <= room
      invariant tmp[..i] + EncodeVarint(value) == EncodeVarint(v)
      decreases value
    {
      ghost var before := tmp[..i];
      VarintByte(value);
      tmp[i] := BitOr(BitAnd(value, 0x7F), 0x80);
      assert tmp[..i + 1] == before + [value % 128 + 128];
      i, value := i + 1, ShiftRight(value, 7);
    }
    ghost var before := tmp[..i];
    tmp[i] := value;
    b := tmp[..i + 1];
    assert b == before + [value] == before + EncodeVarint(value);
  }

  // writeUint32 and writeUint64.
  method WriteVarint(ba: ByteArray, bits: nat, v: nat)
    requires ba.Valid() && bits <= 64 && v < Pow2(bits)
    modifies ba, ba.nodes
    ensures ba.Valid() && old(ba.nodes) <= ba.nodes && fresh(set n | n in ba.nodes && n !in old(ba.nodes))
    ensures Wrote(old(View(ba)), View(ba), EncodeVarint(v), ba.baseSize) && ba.littleEndian == old(ba.littleEndian)
  {
    var room := if bits <= 32 then 5 else 10;
    VarintFitsItsBuffer(v, bits, room);
    var tmp := VarintBytes(v, room);
    WriteBytes(ba, tmp);
  }

  method WritePrefix(ba: ByteArray, p: Prefix, len: nat)
    requires ba.Valid()
    modifies ba, ba.nodes
    ensures ba.Valid() && old(ba.nodes) <= ba.nodes && fresh(set n | n in ba.nodes && n !in old(ba.nodes))
    ensures Wrote(old(View(ba)), View(ba), EncodePrefix(p, len, ba.littleEndian), ba.baseSize)
    ensures ba.littleEndian == old(ba.littleEndian)
  {
    match p
    case FixedPrefix(w) => WriteFixed(ba, w, Wrap(len, w.Bits()));
    case VarintPrefix => WriteVarint(ba, p.Bits(), Wrap(len, p.Bits()));
  }

  // writeStringF16, F32, F64 and Vint: the length, then the characters.
  method WriteText(ba: ByteArray, p: Prefix, t: seq<byte>)
    requires ba.Valid()
    modifies ba, ba.nodes
    ensures ba.Valid() && old(ba.nodes) <= ba.nodes && fresh(set n | n in ba.nodes && n !in old(ba.nodes))
    ensures Wrote(old(View(ba)), View(ba), EncodePrefix(p, |t|, ba.littleEndian) + t, ba.baseSize)
    ensures ba.littleEndian == old(ba.littleEndian)
  {
    WritePrefix(ba, p, |t|);
    ghost var mid := View(ba);
    WriteBytes(ba, t);
    WroteBoth(old(View(ba)), mid, View(ba), EncodePrefix(p, |t|, ba.littleEndian), t, ba.baseSize);
  }

  method WriteField(ba: ByteArray, f: Field)
    requires ba.Valid() && Typed(f)
    modifies ba, ba.nodes
    ensures ba.Valid() && old(ba.nodes) <= ba.nodes && fresh(set n | n in ba.nodes && n !in old(ba.nodes))
    ensures Wrote(old(View(ba)), View(ba), Encode(f, ba.littleEndian), ba.baseSize)
    ensures ba.littleEndian == old(ba.littleEndian)
  {
    match f
    case Fixed(w, v) => WriteFixed(ba, w, v);
    case FixedSigned(w, s) => WriteFixed(ba, w, Wrap(s, w.Bits()));
    case Varint(b, v) => WriteVarint(ba, b.Bits(), v);
    case Zigzag(b, s) =>
      EncodeZigzagIs(s, b.Bits());
      WriteVarint(ba, b.Bits(), EncodeZigzag(s, b.Bits()));
    case Text(p, t) => WriteText(ba, p, t);
  }

  method WriteAll(ba: ByteArray, fs: seq<Field>)
    requires ba.Valid() && AllTyped(fs)
    modifies ba, ba.nodes
    ensures ba.Valid() && old(ba.nodes) <= ba.nodes && fresh(set n | n in ba.nodes && n !in old(ba.nodes))
    ensures Wrote(old(View(ba)), View(ba), EncodeAll(Encoder(ba.littleEndian), fs), ba.baseSize)
    ensures ba.littleEndian == old(ba.littleEndian)
  {
    ghost var enc := Encoder(ba.littleEndian);
    assert Wrote(View(ba), View(ba), [], ba.baseSize) by {
      assert Overwrite(ba.flat, ba.position, []) == ba.flat;
    }
    for i := 0 to |fs|
      invariant ba.Valid() && old(ba.nodes) <= ba.nodes
      invariant fresh(set n | n in ba.nodes && n !in old(ba.nodes))
      invariant Wrote(old(View(ba)), View(ba), EncodeAll(enc, fs[..i]), ba.baseSize)
      invariant ba.littleEndian == old(ba.littleEndian)
    {
      WriteNext(ba, fs, i, old(View(ba)));
    }
    assert fs[..|fs|] == fs;
  }

  // One field more, after the first i.
  method WriteNext(ba: ByteArray, fs: seq<Field>, i: nat, ghost before: Cursor)
    requires ba.Valid() && i < |fs| && Typed(fs[i]) && before.Valid()
    requires Wrote(before, View(ba), EncodeAll(Encoder(ba.littleEndian), fs[..i]), ba.baseSize)
    modifies ba, ba.nodes
    ensures ba.Valid() && old(ba.nodes) <= ba.nodes && fresh(set n | n in ba.nodes && n !in old(ba.nodes))
    ensures Wrote(before, View(ba), EncodeAll(Encoder(ba.littleEndian), fs[..i + 1]), ba.baseSize)
    ensures ba.littleEndian == old(ba.littleEndian)
  {
    ghost var mid, enc := View(ba), Encoder(ba.littleEndian);
    WriteField(ba, fs[i]);
    WroteBoth(before, mid, View(ba), EncodeAll(enc, fs[..i]), enc(fs[i]), ba.baseSize);
    EncodeAllUpTo(enc, fs, i);
  }

  lemma {:induction false} EncodeAllSnoc(enc: Field -> seq<byte>, fs: seq<Field>, f: Field)
    ensures EncodeAll(enc, fs + [f]) == EncodeAll(enc, fs) + enc(f)
  {
    if fs == [] {
      assert [f][1..] == [];
    } else {
      EncodeAllSnoc(enc, fs[1..], f);
      assert (fs + [f])[1..] == fs[1..] + [f];
    }
  }

  lemma EncodeAllUpTo(enc: Field -> seq<byte>, fs: seq<Field>, i: nat)
    requires i < |fs|
    ensures EncodeAll(enc, fs[..i + 1]) == EncodeAll(enc, fs[..i]) + enc(fs[i])
  {
    assert fs[..i + 1] == fs[..i] + [fs[i]];
    EncodeAllSnoc(enc, fs[..i], fs[i]);
  }

  // ---- reading -----------------------------------------------------------------------

  method ReadBytes(ba: ByteArray, n: nat) returns (r: Step<seq<byte>>)
    requires ba.Valid()
    modifies ba`position, ba`cur
    ensures ba.Valid() && r == Take(old(View(ba)), n) && ba.position == r.pos
  {
    var got := ba.Read(n);
    match got
    case Data(b) => r := Got(b, ba.position);
    case OutOfRange => r := Threw(ba.position);
    case NullCursor => r := Crashed(ba.position);
  }

  // readFuintN: copy the word, swap it unless the array has the host's byte order.
  method ReadFixed(ba: ByteArray, w: Width) returns (r: Step<nat>)
    requires ba.Valid()
    modifies ba`position, ba`cur
    ensures ba.Valid() && r == TakeFixed(old(View(ba)), w.Bytes(), ba.littleEndian) && ba.position == r.pos
  {
    var got := ReadBytes(ba, w.Bytes());
    match got
    case Got(b, p) =>
      var v := FromBytes(b);
      r := if ba.littleEndian then Got(v, p) else Got(Byteswap(v, w.Bytes()), p);
    case Threw(p) => r := Threw(p);
    case Crashed(p) => r := Crashed(p);
  }

  // readUint32 and readUint64.
  method ReadVarint(ba: ByteArray, bits: nat) returns (r: Step<nat>)
    requires ba.Valid()
    modifies ba`position, ba`cur
    ensures ba.Valid() && r == TakeVarint(old(View(ba)), bits, 0, 0) && ba.position == r.pos
  {
    var result: nat, i: nat := 0, 0;
    while i < bits
      invariant ba.Valid()
      invariant TakeVarint(old(View(ba)), bits, 0, 0) == TakeVarint(View(ba), bits, i, result)
      decreases bits - i
    {
      var got := ReadBytes(ba, 1);
      match got {
        case Got(b, p) =>
          if b[0] < 0x80 {
            return Got(BitOr(result, ShiftLeft(b[0], i, bits)), p);
          }
          result := BitOr(result, ShiftLeft(BitAnd(b[0], 0x7F), i, bits));
        case Threw(p) => return Threw(p);
        case Crashed(p) => return Crashed(p);
      }
      i := i + 7;
    }
    r := Got(result, ba.position);
  }

  method ReadPrefix(ba: ByteArray, p: Prefix) returns (r: Step<nat>)
    requires ba.Valid()
    modifies ba`position, ba`cur
    ensures ba.Valid() && r == TakePrefix(old(View(ba)), p, ba.littleEndian) && ba.position == r.pos
  {
    match p
    case FixedPrefix(w) => r := ReadFixed(ba, w);
    case VarintPrefix => r := ReadVarint(ba, p.Bits());
  }

  // readStringF16, F32, F64 and Vint.
  method ReadText(ba: ByteArray, p: Prefix) returns (r: Step<seq<byte>>)
    requires ba.Valid()
    modifies ba`position, ba`cur
    ensures ba.Valid() && r == TakeText(old(View(ba)), p, ba.littleEndian) && ba.position == r.pos
  {
    var len := ReadPrefix(ba, p);
    match len
    case Got(n, _) => r := ReadBytes(ba, n);
    case Threw(q) => r := Threw(q);
    case Crashed(q) => r := Crashed(q);
  }

  method ReadField(ba: ByteArray, k: Kind) returns (r: Step<Field>)
    requires ba.Valid()
    modifies ba`position, ba`cur
    ensures ba.Valid() && r == TakeField(old(View(ba)), k, ba.littleEndian) && ba.position == r.pos
  {
    match k
    case AsFixed(w) =>
      var g := ReadFixed(ba, w);
      r := Map(g, v => Fixed(w, v));
    case AsFixedSigned(w) =>
      var g := ReadFixed(ba, w);
      r := Map(g, v => FixedSigned(w, ToSigned(v, w.Bits())));
    case AsVarint(b) =>
      var g := ReadVarint(ba, b.Bits());
      r := Map(g, v => Varint(b, v));
    case AsZigzag(b) =>
      var g := ReadVarint(ba, b.Bits());
      r := Map(g, u => Zigzag(b, DecodeZigzag(Wrap(u, b.Bits()), b.Bits())));
    case AsText(p) =>
      var g := ReadText(ba, p);
      r := Map(g, t => Text(p, t));
  }

  method ReadAll(ba: ByteArray, ks: seq<Kind>) returns (r: Step<seq<Field>>)
    requires ba.Valid()
    modifies ba`position, ba`cur
    ensures ba.Valid() && ba.position == r.pos
    ensures r == TakeAll(Taker(ba.flat, ba.size, ba.littleEndian), old(ba.position), ks)
  {
    var got := [];
    ghost var take := Taker(ba.flat, ba.size, ba.littleEndian);
    PrependNothing(TakeAll(take, ba.position, ks));
    assert ks[0..] == ks;
    for i := 0 to |ks|
      invariant ba.Valid()
      invariant TakeAll(take, old(ba.position), ks) == Prepend(got, TakeAll(take, ba.position, ks[i..]))
    {
      ghost var p := ba.position;
      var f := ReadField(ba, ks[i]);
      assert f == take(p, ks[i]) && ks[i..][1..] == ks[i + 1..];
      match f
      case Got(v, _) =>
        PrependSnoc(got, v, TakeAll(take, ba.position, ks[i + 1..]));
        got := got + [v];
      case Threw(q) => return Threw(q);
      case Crashed(q) => return Crashed(q);
    }
    assert got + [] == got;
    return Got(got, ba.position);
  }

  ghost function Prepend(got: seq<Field>, rest: Step<seq<Field>>): Step<seq<Field>> {
    Map(rest, (fs: seq<Field>) => got + fs)
  }

  lemma PrependNothing(rest: Step<seq<Field>>)
    ensures Prepend([], rest) == rest
  {
    if rest.Got? {
      assert [] + rest.value == rest.value;
    }
  }

  lemma PrependSnoc(got: seq<Field>, f: Field, rest: Step<seq<Field>>)
    ensures Prepend(got + [f], rest) == Prepend(got, Map(rest, (fs: seq<Field>) => [f] + fs))
  {
    if rest.Got? {
      assert (got + [f]) + rest.value == got + ([f] + rest.value);
    }
  }

  // ---- write, seek back, read ----------------------------------------------------------

  // Write the fields at the cursor, seek back to where they start and read the same types:
  // they all come back, and the cursor ends where writing ended, exactly under the stated
  // condition on the fields and the capacity.
  method WriteThenRead(ba: ByteArray, fs: seq<Field>) returns (r: Step<seq<Field>>, ghost end: nat)
    requires ba.Valid() && AllTyped(fs)
    modifies ba, ba.nodes
    ensures ba.Valid() && ba.position == r.pos && ba.littleEndian == old(ba.littleEndian)
    ensures end == old(ba.position) + |EncodeAll(Encoder(ba.littleEndian), fs)|
    ensures ba.size == Max(old(ba.size), end)
    ensures ba.capacity == Grown(old(ba.capacity), end, ba.baseSize)
    ensures r == Got(fs, end) <==> AllFit(fs) && !(EndsEmpty(fs) && end == ba.capacity)
  {
    end := WriteAndSeek(ba, fs);
    FieldsReadBack(View(ba), fs, ba.littleEndian);
    r := ReadAll(ba, KindsOf(fs));
  }

  method WriteAndSeek(ba: ByteArray, fs: seq<Field>) returns (ghost end: nat)
    requires ba.Valid() && AllTyped(fs)
    modifies ba, ba.nodes
    ensures ba.Valid() && At(View(ba), EncodeAll(Encoder(ba.littleEndian), fs))
    ensures ba.position == old(ba.position) && ba.littleEndian == old(ba.littleEndian)
    ensures end == ba.position + |EncodeAll(Encoder(ba.littleEndian), fs)|
    ensures ba.size == Max(old(ba.size), end)
    ensures ba.capacity == Grown(old(ba.capacity), end, ba.baseSize)
  {
    var start := ba.position;
    WriteAll(ba, fs);
    end := ba.position;
    WroteStands(old(View(ba)), View(ba), EncodeAll(Encoder(ba.littleEndian), fs), ba.baseSize);
    var ok := ba.SetPosition(start);
  }

  lemma WroteStands(before: Cursor, after: Cursor, e: seq<byte>, block: nat)
    requires block >= 1 && before.Valid() && Wrote(before, after, e, block)
    ensures At(after.(pos := before.pos), e)
  {
    var w := Overwrite(before.bytes, before.pos, e);
    forall i | 0 <= i < |e|
      ensures after.bytes[before.pos + i] == e[i]
    {
      assert w[before.pos + i] == after.bytes[before.pos + i];
    }
  }

  // The same on a new array, for every block size: the failing case is a trailing empty
  // string when the bytes fill whole blocks. On success nothing is left to read.
  method RoundTrip(block: nat, little: bool, fs: seq<Field>) returns (r: Step<seq<Field>>, readSize: nat)
    requires block >= 1 && AllTyped(fs)
    ensures var n := |EncodeAll(Encoder(little), fs)|;
      && (r == Got(fs, n) <==> AllFit(fs) && !(EndsEmpty(fs) && n % block == 0))
      && readSize == n - r.pos
  {
    r, readSize := Cycle(block, little, fs);
    EndsFull(fs, little, block);
  }

  method Cycle(block: nat, little: bool, fs: seq<Field>) returns (r: Step<seq<Field>>, readSize: nat)
    requires block >= 1 && AllTyped(fs)
    ensures var n := |EncodeAll(Encoder(little), fs)|;
      && (r == Got(fs, n) <==> AllFit(fs) && !(EndsEmpty(fs) && n == Grown(block, n, block)))
      && readSize == n - r.pos
  {
    var ba := new ByteArray(block);
    ba.littleEndian := little;
    assert ba.Valid();
    ghost var end;
    r, end := WriteThenRead(ba, fs);
    readSize := ba.size - ba.position;
  }

  lemma EndsFull(fs: seq<Field>, little: bool, block: nat)
    requires block >= 1
    ensures var n := |EncodeAll(Encoder(little), fs)|; EndsEmpty(fs) ==> (n == Grown(block, n, block) <==> n % block == 0)
  {
    if EndsEmpty(fs) {
      assert EncodeAll(Encoder(little), fs) != [];
      FullWhenDivisible(|EncodeAll(Encoder(little), fs)|, block);
    }
  }

  lemma FullWhenDivisible(n: nat, block: nat)
    requires block >= 1
    ensures n > 0 ==> (n == Grown(block, n, block) <==> n % block == 0)
  {
    GrownByBlocks(block, n, block);
    DivModUnique(block, 1, 0, block);
    if 0 < n && n % block == 0 {
      MultiplesApart(n, Grown(block, n, block), block);
    }
  }

  lemma {:induction false} GrownByBlocks(cap: nat, n: nat, block: nat)
    requires block >= 1
    ensures Grown(cap, n, block) % block == cap % block
    decreases n - cap
  {
    if n > cap {
      GrownByBlocks(cap + block, n, block);
      ModAddMultiple(cap, 1, block);
    }
  }

  lemma MultiplesApart(a: nat, b: nat, m: nat)
    requires m >= 1 && a % m == 0 && b % m == 0 && 0 < a <= b && (b < a + m || b == m)
    ensures a == b
  {
    assert b - a == (b / m - a / m) * m by {
      assert a == (a / m) * m && b == (b / m) * m;
      assert (b / m - a / m) * m == (b / m) * m - (a / m) * m;
    }
    MulBound(b / m - a / m, m);
  }

  // Such a list: an empty 16-bit string in blocks of two bytes. Its prefix fills the block, and
  // reading it back follows the null cursor.
  lemma EmptyTextCrashes()
    ensures var fs := [Text(FixedPrefix(W16), [])];
      && AllTyped(fs) && AllFit(fs) && EndsEmpty(fs)
      && EncodeAll(Encoder(false), fs) == [0, 0]
    ensures TakeField(Cursor([0, 0], 2, 0), AsText(FixedPrefix(W16)), false) == Crashed(2)
  {
    var f := Text(FixedPrefix(W16), []);
    assert EncodeAll(Encoder(false), [f]) == Encode(f, false);
    assert Encode(f, false) == [0, 0];
    FieldReadsBack(Cursor([0, 0], 2, 0), f, false);
  }
}

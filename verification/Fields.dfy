/** Lists of typed fields through a byte array: what writing them leaves in the buffer, what
    reading the same types gives back, and exactly when that is what was written. */
module Fields {
  import opened Bits
  import opened Codec

  datatype Width = W8 | W16 | W32 | W64 {
    function Bytes(): (n: nat)
      ensures n >= 1
    {
      match this case W8 => 1 case W16 => 2 case W32 => 4 case W64 => 8
    }

    function Bits(): (n: nat)
      ensures n >= 8
    {
      8 * Bytes()
    }
  }

  /** The length prefixes of the string calls: a fixed width or a varint. */
  datatype Prefix = FixedPrefix(width: Width) | VarintPrefix {
    function Bits(): (n: nat)
      ensures n >= 8
    {
      if VarintPrefix? then 64 else width.Bits()
    }
  }

  /** One write call and its argument: writeFuintN, writeFintN, writeUintN, writeIntN, writeStringX. */
  datatype Field =
    | Fixed(width: Width, v: nat)
    | FixedSigned(width: Width, s: int)
    | Varint(bits: Width, v: nat)
    | Zigzag(bits: Width, s: int)
    | Text(prefix: Prefix, text: seq<byte>)

  /** The read call that matches it. */
  datatype Kind =
    | AsFixed(width: Width)
    | AsFixedSigned(width: Width)
    | AsVarint(bits: Width)
    | AsZigzag(bits: Width)
    | AsText(prefix: Prefix)

  function KindOf(f: Field): Kind {
    match f
    case Fixed(w, _) => AsFixed(w)
    case FixedSigned(w, _) => AsFixedSigned(w)
    case Varint(b, _) => AsVarint(b)
    case Zigzag(b, _) => AsZigzag(b)
    case Text(p, _) => AsText(p)
  }

  function KindsOf(fs: seq<Field>): (ks: seq<Kind>)
    ensures |ks| == |fs|
  {
    if fs == [] then [] else [KindOf(fs[0])] + KindsOf(fs[1..])
  }

  // Arguments within their C++ types.
  predicate Typed(f: Field) {
    match f
    case Fixed(w, v) => v < Pow2(w.Bits())
    case FixedSigned(w, s) => FitsSigned(s, w.Bits())
    case Varint(b, v) => v < Pow2(b.Bits())
    case Zigzag(b, s) => FitsSigned(s, b.Bits())
    case Text(_, _) => true
  }

  // ---- writing -----------------------------------------------------------------------

  // The length passed to the prefix's writer is cut to the prefix's type.
  function EncodePrefix(p: Prefix, len: nat, little: bool): (b: seq<byte>)
    ensures |b| >= 1
  {
    match p
    case FixedPrefix(w) => EncodeFixed(Wrap(len, w.Bits()), w.Bytes(), little)
    case VarintPrefix => EncodeVarint(Wrap(len, p.Bits()))
  }

  function Encode(f: Field, little: bool): (b: seq<byte>)
    ensures |b| >= 1
  {
    match f
    case Fixed(w, v) => EncodeFixed(v, w.Bytes(), little)
    case FixedSigned(w, s) => EncodeFixed(Wrap(s, w.Bits()), w.Bytes(), little)
    case Varint(_, v) => EncodeVarint(v)
    case Zigzag(b, s) => EncodeVarint(EncodeZigzag(s, b.Bits()))
    case Text(p, t) => EncodePrefix(p, |t|, little) + t
  }

  function Encoder(little: bool): Field -> seq<byte> {
    (f: Field) => Encode(f, little)
  }

  // The fields' bytes, one field after the other.
  function EncodeAll(enc: Field -> seq<byte>, fs: seq<Field>): seq<byte> {
    if fs == [] then [] else enc(fs[0]) + EncodeAll(enc, fs[1..])
  }

  // b is the word v in the given byte order; b is v in groups of seven bits, low group first.
  ghost predicate IsFixed(b: seq<byte>, v: nat, little: bool) {
    forall i :: 0 <= i < |b| ==> b[i] == (v / Pow2(8 * (if little then i else |b| - 1 - i))) % 256
  }

  ghost predicate IsVarint(b: seq<byte>, v: nat) {
    && |b| >= 1 && v / Pow2(7 * (|b| - 1)) < 128 && (|b| > 1 ==> b[|b| - 1] != 0)
    && forall i :: 0 <= i < |b| ==> b[i] == (v / Pow2(7 * i)) % 128 + (if i < |b| - 1 then 128 else 0)
  }

  lemma EncodeFixedIs(v: nat, w: nat, little: bool)
    ensures IsFixed(EncodeFixed(v, w, little), v, little)
  {
    forall i | 0 <= i < w
      ensures EncodeFixed(v, w, little)[i] == (v / Pow2(8 * (if little then i else w - 1 - i))) % 256
    {
      FixedBytes(v, w, little, i);
    }
  }

  lemma EncodeVarintIs(v: nat)
    ensures IsVarint(EncodeVarint(v), v)
  {
    var b := EncodeVarint(v);
    forall i | 0 <= i < |b|
      ensures b[i] == (v / Pow2(7 * i)) % 128 + (if i < |b| - 1 then 128 else 0)
    {
      VarintGroups(v, i);
    }
    VarintGroups(v, |b| - 1);
  }

  ghost predicate IsPrefix(b: seq<byte>, p: Prefix, n: nat, little: bool) {
    if p.VarintPrefix? then IsVarint(b, n) else |b| == p.width.Bytes() && IsFixed(b, n, little)
  }

  // The bytes of each kind of field: words of the field's width, two's complement for a negative
  // one; base 128; base 128 of 2s or -2s-1; the length, cut to its prefix's type, and the text.
  ghost predicate Layout(f: Field, little: bool, b: seq<byte>) {
    match f
    case Fixed(w, v) => |b| == w.Bytes() && IsFixed(b, v, little)
    case FixedSigned(w, s) =>
      |b| == w.Bytes() && s + Pow2(w.Bits()) >= 0 && IsFixed(b, if s < 0 then s + Pow2(w.Bits()) else s, little)
    case Varint(_, v) => IsVarint(b, v)
    case Zigzag(_, s) => IsVarint(b, if s < 0 then -2 * s - 1 else 2 * s)
    case Text(p, t) =>
      |t| <= |b| && b[|b| - |t|..] == t && IsPrefix(b[..|b| - |t|], p, |t| % Pow2(p.Bits()), little)
  }

  lemma EncodeIs(f: Field, little: bool)
    requires Typed(f)
    ensures Layout(f, little, Encode(f, little))
  {
    match f
    case Fixed(w, v) => EncodeFixedIs(v, w.Bytes(), little);
    case FixedSigned(w, s) => SignedIs(w, s, little);
    case Varint(_, v) => EncodeVarintIs(v);
    case Zigzag(b, s) =>
      EncodeZigzagIs(s, b.Bits());
      EncodeVarintIs(EncodeZigzag(s, b.Bits()));
    case Text(p, t) => PrefixIs(p, t, little);
  }

  lemma SignedIs(w: Width, s: int, little: bool)
    requires FitsSigned(s, w.Bits())
    ensures Layout(FixedSigned(w, s), little, EncodeFixed(Wrap(s, w.Bits()), w.Bytes(), little))
  {
    WrapOnce(s, w.Bits());
    EncodeFixedIs(Wrap(s, w.Bits()), w.Bytes(), little);
  }

  lemma PrefixIs(p: Prefix, t: seq<byte>, little: bool)
    ensures Layout(Text(p, t), little, EncodePrefix(p, |t|, little) + t)
  {
    var n, b := Wrap(|t|, p.Bits()), EncodePrefix(p, |t|, little);
    assert (b + t)[|b|..] == t && (b + t)[..|b|] == b;
    if p.VarintPrefix? {
      EncodeVarintIs(n);
    } else {
      EncodeFixedIs(n, p.width.Bytes(), little);
    }
  }

  // ---- reading -----------------------------------------------------------------------

  function Map<T, U>(s: Step<T>, f: T -> U): (r: Step<U>)
    ensures r.pos == s.pos
  {
    match s
    case Got(v, p) => Got(f(v), p)
    case Threw(p) => Threw(p)
    case Crashed(p) => Crashed(p)
  }

  function TakeZigzag(c: Cursor, bits: nat): (r: Step<int>)
    requires c.Valid() && bits >= 1
    ensures r.pos <= c.size
  {
    Map(TakeVarint(c, bits, 0, 0), u => DecodeZigzag(Wrap(u, bits), bits))
  }

  function TakePrefix(c: Cursor, p: Prefix, little: bool): (r: Step<nat>)
    requires c.Valid()
    ensures r.pos <= c.size
  {
    match p
    case FixedPrefix(w) => TakeFixed(c, w.Bytes(), little)
    case VarintPrefix => TakeVarint(c, p.Bits(), 0, 0)
  }

  function TakeText(c: Cursor, p: Prefix, little: bool): (r: Step<seq<byte>>)
    requires c.Valid()
    ensures r.pos <= c.size
  {
    match TakePrefix(c, p, little)
    case Got(n, q) => Take(c.(pos := q), n)
    case Threw(q) => Threw(q)
    case Crashed(q) => Crashed(q)
  }

  function TakeField(c: Cursor, k: Kind, little: bool): (r: Step<Field>)
    requires c.Valid()
    ensures r.pos <= c.size
  {
    match k
    case AsFixed(w) => Map(TakeFixed(c, w.Bytes(), little), v => Fixed(w, v))
    case AsFixedSigned(w) => Map(TakeFixed(c, w.Bytes(), little), v => FixedSigned(w, ToSigned(v, w.Bits())))
    case AsVarint(b) => Map(TakeVarint(c, b.Bits(), 0, 0), v => Varint(b, v))
    case AsZigzag(b) => Map(TakeZigzag(c, b.Bits()), s => Zigzag(b, s))
    case AsText(p) => Map(TakeText(c, p, little), t => Text(p, t))
  }

  // Read one field after the other, starting at position p.
  function TakeAll(take: (nat, Kind) -> Step<Field>, p: nat, ks: seq<Kind>): Step<seq<Field>>
    decreases |ks|
  {
    if ks == [] then Got([], p)
    else
      match take(p, ks[0])
      case Got(f, q) => Map(TakeAll(take, q, ks[1..]), fs => [f] + fs)
      case Threw(q) => Threw(q)
      case Crashed(q) => Crashed(q)
  }

  // Reading a field at any position of a buffer.
  function Taker(bytes: seq<byte>, size: nat, little: bool): (nat, Kind) -> Step<Field>
    requires size <= |bytes|
  {
    (p: nat, k: Kind) => if p <= size then TakeField(Cursor(bytes, size, p), k, little) else Threw(p)
  }

  // ---- one field ---------------------------------------------------------------------

  // A string longer than its prefix's type can say is written with a cut length.
  predicate Fits(f: Field) {
    f.Text? ==> |f.text| < Pow2(f.prefix.Bits())
  }

  predicate EmptyText(f: Field) { f.Text? && f.text == [] }

  lemma FixedReadsBack(c: Cursor, v: nat, w: nat, little: bool)
    requires w >= 1 && v < Pow2(8 * w) && At(c, EncodeFixed(v, w, little))
    ensures TakeFixed(c, w, little) == Got(v, c.pos + w)
  {
    FixedRoundTrip(v, w, little);
  }

  lemma PrefixReadsBack(c: Cursor, p: Prefix, len: nat, little: bool)
    requires At(c, EncodePrefix(p, len, little))
    ensures TakePrefix(c, p, little)
         == Got(Wrap(len, p.Bits()), c.pos + |EncodePrefix(p, len, little)|)
  {
    var n := Wrap(len, p.Bits());
    if p.VarintPrefix? {
      VarintRoundTrip(c, n, p.Bits());
    } else {
      FixedReadsBack(c, n, p.width.Bytes(), little);
    }
  }

  lemma ZigzagReadsBack(c: Cursor, s: int, bits: nat)
    requires bits >= 1 && FitsSigned(s, bits) && At(c, EncodeVarint(EncodeZigzag(s, bits)))
    ensures TakeZigzag(c, bits) == Got(s, c.pos + |EncodeVarint(EncodeZigzag(s, bits))|)
  {
    var u := EncodeZigzag(s, bits);
    EncodeZigzagIs(s, bits);
    VarintRoundTrip(c, u, bits);
    SmallMod(u, Pow2(bits));
    ZigzagRoundTrip(s, bits);
  }

  lemma SignedReadsBack(c: Cursor, s: int, w: Width, little: bool)
    requires FitsSigned(s, w.Bits()) && At(c, EncodeFixed(Wrap(s, w.Bits()), w.Bytes(), little))
    ensures TakeField(c, AsFixedSigned(w), little) == Got(FixedSigned(w, s), c.pos + w.Bytes())
  {
    WrapOnce(s, w.Bits());
    FixedReadsBack(c, Wrap(s, w.Bits()), w.Bytes(), little);
    SignedRoundTrip(s, w.Bits());
  }

  // What comes back of a string: all of it when the prefix can say its length, else a shorter
  // start of it; nothing at all for a zero length at full capacity.
  lemma TextReadsBack(c: Cursor, p: Prefix, e: seq<byte>, t: seq<byte>, little: bool) returns (n: nat)
    requires e == EncodePrefix(p, |t|, little) && At(c, e + t)
    ensures n <= |t| && (n == |t| <==> Fits(Text(p, t)))
    ensures TakeText(c, p, little) ==
      if n == 0 && c.pos + |e| == |c.bytes| then Crashed(c.pos + |e|) else Got(t[..n], c.pos + |e| + n)
  {
    n := PrefixThenText(c, p, e, t, little);
    TextGiven(c, p, t, little, n, c.pos + |e|);
  }

  lemma PrefixThenText(c: Cursor, p: Prefix, e: seq<byte>, t: seq<byte>, little: bool) returns (n: nat)
    requires e == EncodePrefix(p, |t|, little) && At(c, e + t)
    ensures c.pos + |e| <= c.size && At(c.(pos := c.pos + |e|), t)
    ensures n <= |t| && (n == |t| <==> Fits(Text(p, t))) && TakePrefix(c, p, little) == Got(n, c.pos + |e|)
  {
    AtSplit(c, e, t);
    PrefixReadsBack(c, p, |t|, little);
    ModAtMost(|t|, Pow2(p.Bits()));
    n := Wrap(|t|, p.Bits());
  }

  lemma TextGiven(c: Cursor, p: Prefix, t: seq<byte>, little: bool, n: nat, q: nat)
    requires c.Valid() && TakePrefix(c, p, little) == Got(n, q) && At(c.(pos := q), t) && n <= |t|
    ensures TakeText(c, p, little) == if n == 0 && q == |c.bytes| then Crashed(q) else Got(t[..n], q + n)
  {
    TakePart(c.(pos := q), t, n);
  }

  // Asking for the first n of the bytes the cursor stands at.
  lemma TakePart(c: Cursor, t: seq<byte>, n: nat)
    requires At(c, t) && n <= |t|
    ensures Take(c, n) == if n == 0 && c.pos == |c.bytes| then Crashed(c.pos) else Got(t[..n], c.pos + n)
  {
    assert t[..n] == c.bytes[c.pos..c.pos + |t|][..n] == c.bytes[c.pos..c.pos + n];
  }

  lemma ModAtMost(n: nat, m: nat)
    requires m >= 1
    ensures n % m <= n && (n % m == n <==> n < m)
  {
    if n < m {
      SmallMod(n, m);
    }
  }

  // The outcome of reading a string of which the prefix says n bytes, its text starting at q.
  lemma TextOutcome(r: Step<Field>, p: Prefix, t: seq<byte>, n: nat, q: nat, cap: nat)
    requires n <= |t| && r == if n == 0 && q == cap then Crashed(q) else Got(Text(p, t[..n]), q + n)
    ensures if t == [] && q + |t| == cap then r == Crashed(q + |t|)
            else if n == |t| then r == Got(Text(p, t), q + |t|)
            else r.Got? ==> r.value != Text(p, t)
  {
    if n == |t| {
      assert t[..n] == t;
    }
  }

  // Reading a text field is reading the text.
  lemma TextFieldTakes(c: Cursor, p: Prefix, little: bool, r: Step<seq<byte>>)
    requires c.Valid() && TakeText(c, p, little) == r
    ensures r.Crashed? ==> TakeField(c, AsText(p), little) == Crashed(r.pos)
    ensures r.Got? ==> TakeField(c, AsText(p), little) == Got(Text(p, r.value), r.pos)
  {
  }

  lemma TextFieldReadsBack(c: Cursor, p: Prefix, e: seq<byte>, t: seq<byte>, little: bool)
    requires e == EncodePrefix(p, |t|, little) && At(c, e + t)
    ensures var r, end := TakeField(c, AsText(p), little), c.pos + |e| + |t|;
      if t == [] && end == |c.bytes| then r == Crashed(end)
      else if Fits(Text(p, t)) then r == Got(Text(p, t), end)
      else r.Got? ==> r.value != Text(p, t)
  {
    var n := TextReadsBack(c, p, e, t, little);
    TextFieldTakes(c, p, little, TakeText(c, p, little));
    TextOutcome(TakeField(c, AsText(p), little), p, t, n, c.pos + |e|, |c.bytes|);
  }

  // A field comes back, and the cursor ends just behind it, exactly when it fits and is not
  // an empty string whose prefix ends at full capacity.
  lemma FieldReadsBack(c: Cursor, f: Field, little: bool)
    requires Typed(f) && At(c, Encode(f, little))
    ensures var end := c.pos + |Encode(f, little)|;
      if EmptyText(f) && end == |c.bytes| then TakeField(c, KindOf(f), little) == Crashed(end)
      else if Fits(f) then TakeField(c, KindOf(f), little) == Got(f, end)
      else TakeField(c, KindOf(f), little).Got? ==> TakeField(c, KindOf(f), little).value != f
  {
    match f
    case Fixed(w, v) => FixedReadsBack(c, v, w.Bytes(), little);
    case FixedSigned(w, s) => SignedReadsBack(c, s, w, little);
    case Varint(b, v) => VarintRoundTrip(c, v, b.Bits());
    case Zigzag(b, s) => ZigzagReadsBack(c, s, b.Bits());
    case Text(p, t) => TextFieldReadsBack(c, p, EncodePrefix(p, |t|, little), t, little);
  }

  // ---- lists of fields ---------------------------------------------------------------

  predicate AllTyped(fs: seq<Field>) { forall i :: 0 <= i < |fs| ==> Typed(fs[i]) }

  predicate AllFit(fs: seq<Field>) { forall i :: 0 <= i < |fs| ==> Fits(fs[i]) }

  predicate EndsEmpty(fs: seq<Field>) { fs != [] && EmptyText(fs[|fs| - 1]) }

  // Reading at p gives f back and ends |enc(f)| further, exactly when f fits and is not an
  // empty string ending at full capacity.
  ghost predicate FieldComesBack(take: (nat, Kind) -> Step<Field>, enc: Field -> seq<byte>, cap: nat, p: nat, f: Field) {
    var s := take(p, KindOf(f));
    && |enc(f)| >= 1
    && (s.Got? && s.value == f <==> Fits(f) && !(EmptyText(f) && p + |enc(f)| == cap))
    && (s.Got? && s.value == f ==> s.pos == p + |enc(f)|)
  }

  ghost predicate EachComesBack(take: (nat, Kind) -> Step<Field>, enc: Field -> seq<byte>, cap: nat, p: nat, fs: seq<Field>)
    decreases |fs|
  {
    fs != [] ==> FieldComesBack(take, enc, cap, p, fs[0]) && EachComesBack(take, enc, cap, p + |enc(fs[0])|, fs[1..])
  }

  // From single fields to the list: an empty string can only end at full capacity when it
  // is the last field.
  lemma {:induction false} ListComesBack(take: (nat, Kind) -> Step<Field>, enc: Field -> seq<byte>, cap: nat, p: nat, fs: seq<Field>)
    requires EachComesBack(take, enc, cap, p, fs) && p + |EncodeAll(enc, fs)| <= cap
    ensures TakeAll(take, p, KindsOf(fs)) == Got(fs, p + |EncodeAll(enc, fs)|)
       <==> AllFit(fs) && !(EndsEmpty(fs) && p + |EncodeAll(enc, fs)| == cap)
    decreases |fs|
  {
    if fs != [] {
      ListComesBack(take, enc, cap, p + |enc(fs[0])|, fs[1..]);
      HeadThenRest(take, p, fs, p + |EncodeAll(enc, fs)|);
      assert AllFit(fs) <==> Fits(fs[0]) && AllFit(fs[1..]);
    }
  }

  // A list comes back when its first field does and the rest does from there.
  lemma HeadThenRest(take: (nat, Kind) -> Step<Field>, p: nat, fs: seq<Field>, end: nat)
    requires fs != []
    ensures TakeAll(take, p, KindsOf(fs)) == Got(fs, end) <==>
      && take(p, KindOf(fs[0])).Got? && take(p, KindOf(fs[0])).value == fs[0]
      && TakeAll(take, take(p, KindOf(fs[0])).pos, KindsOf(fs[1..])) == Got(fs[1..], end)
  {
    assert KindsOf(fs)[0] == KindOf(fs[0]) && KindsOf(fs)[1..] == KindsOf(fs[1..]);
    var s := take(p, KindOf(fs[0]));
    if s.Got? {
      var rest := TakeAll(take, s.pos, KindsOf(fs[1..]));
      if rest.Got? {
        var all := [s.value] + rest.value;
        assert all[0] == s.value && all[1..] == rest.value;
        assert fs == [fs[0]] + fs[1..];
      }
    }
  }

  // Every field, wherever its bytes stand in the buffer, comes back.
  ghost predicate ComesBackAnywhere(c: Cursor, take: (nat, Kind) -> Step<Field>, enc: Field -> seq<byte>) {
    forall p: nat, f: Field :: Typed(f) && At(Cursor(c.bytes, c.size, p), enc(f)) ==>
      FieldComesBack(take, enc, |c.bytes|, p, f)
  }

  lemma FirstComesBack(c: Cursor, take: (nat, Kind) -> Step<Field>, enc: Field -> seq<byte>, p: nat, fs: seq<Field>)
    requires ComesBackAnywhere(c, take, enc) && fs != []
    requires AllTyped(fs) && At(Cursor(c.bytes, c.size, p), EncodeAll(enc, fs))
    ensures FieldComesBack(take, enc, |c.bytes|, p, fs[0])
    ensures At(Cursor(c.bytes, c.size, p + |enc(fs[0])|), EncodeAll(enc, fs[1..])) && AllTyped(fs[1..])
  {
    AtSplit(Cursor(c.bytes, c.size, p), enc(fs[0]), EncodeAll(enc, fs[1..]));
  }

  lemma {:induction false} EncodedFieldsComeBack(
      c: Cursor, take: (nat, Kind) -> Step<Field>, enc: Field -> seq<byte>, p: nat, fs: seq<Field>)
    requires ComesBackAnywhere(c, take, enc)
    requires AllTyped(fs) && At(Cursor(c.bytes, c.size, p), EncodeAll(enc, fs))
    ensures EachComesBack(take, enc, |c.bytes|, p, fs)
    decreases |fs|
  {
    if fs != [] {
      FirstComesBack(c, take, enc, p, fs);
      EncodedFieldsComeBack(c, take, enc, p + |enc(fs[0])|, fs[1..]);
    }
  }

  lemma BufferFieldsComeBack(c: Cursor, little: bool)
    requires c.Valid()
    ensures ComesBackAnywhere(c, Taker(c.bytes, c.size, little), Encoder(little))
  {
    forall p: nat, f: Field | Typed(f) && At(Cursor(c.bytes, c.size, p), Encoder(little)(f))
      ensures FieldComesBack(Taker(c.bytes, c.size, little), Encoder(little), |c.bytes|, p, f)
    {
      FieldReadsBack(Cursor(c.bytes, c.size, p), f, little);
    }
  }

  // Reading the written types returns the written fields and ends where writing ended,
  // exactly when every string fits its prefix and the list does not end with an empty
  // string at full capacity.
  lemma FieldsReadBack(c: Cursor, fs: seq<Field>, little: bool)
    requires AllTyped(fs) && At(c, EncodeAll(Encoder(little), fs))
    ensures var end := c.pos + |EncodeAll(Encoder(little), fs)|;
      TakeAll(Taker(c.bytes, c.size, little), c.pos, KindsOf(fs)) == Got(fs, end)
      <==> AllFit(fs) && !(EndsEmpty(fs) && end == |c.bytes|)
  {
    BufferFieldsComeBack(c, little);
    EncodedFieldsComeBack(c, Taker(c.bytes, c.size, little), Encoder(little), c.pos, fs);
    ListComesBack(Taker(c.bytes, c.size, little), Encoder(little), |c.bytes|, c.pos, fs);
  }
}

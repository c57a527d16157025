/**
  The typed values a PacketWriter appends, their byte layout, and the
  matching sequential reader. A message layout is a sequence of fields;
  its wire form is the concatenation of the fields' bytes, with no
  separators and no count prefix other than the fields the message itself
  writes.
 */
module Fields {
  import opened Bytes

  /** One value as one BinaryWriter call appends it. */
  datatype Field =
    | U8(b: byte)
    | Bool(flag: bool)
    | U16(h: u16)
    | U32(w: u32)
    | I32(i: i32)
    | F32(bits: Float32)
    | U64(q: u64)
    | Pad(count: nat)          // writer.Write(new byte[count])
    | Raw(bytes: seq<byte>)    // the output of an encoder whose layout is not part of this model

  /** What a reader must know to take one field back off the wire. */
  datatype Shape = U8S | BoolS | U16S | U32S | I32S | F32S | U64S | PadS(count: nat) | RawS(length: nat)

  function ShapeOf(f: Field): Shape {
    match f
    case U8(_) => U8S
    case Bool(_) => BoolS
    case U16(_) => U16S
    case U32(_) => U32S
    case I32(_) => I32S
    case F32(_) => F32S
    case U64(_) => U64S
    case Pad(n) => PadS(n)
    case Raw(b) => RawS(|b|)
  }

  function Width(s: Shape): nat {
    match s
    case U8S => 1
    case BoolS => 1
    case U16S => 2
    case U32S => 4
    case I32S => 4
    case F32S => 4
    case U64S => 8
    case PadS(n) => n
    case RawS(n) => n
  }

  /** The bytes BinaryWriter appends for one field. */
  function FieldBytes(f: Field): (r: seq<byte>)
    ensures |r| == Width(ShapeOf(f))
  {
    match f
    case U8(v) => [v]
    case Bool(flag) => [if flag then 1 else 0]
    case U16(v) => Le16(v)
    case U32(v) => Le32(v)
    case I32(v) => Le32(I32Bits(v))
    case F32(bits) => Le32(bits)
    case U64(v) => Le64(v)
    case Pad(n) => Zeros(n)
    case Raw(b) => b
  }

  function Shapes(fs: seq<Field>): (ss: seq<Shape>)
    ensures |ss| == |fs|
  {
    if fs == [] then [] else [ShapeOf(fs[0])] + Shapes(fs[1..])
  }

  function Size(ss: seq<Shape>): nat {
    if ss == [] then 0 else Width(ss[0]) + Size(ss[1..])
  }

  /** The wire form of a layout. */
  function Encode(fs: seq<Field>): seq<byte>
  {
    if fs == [] then [] else FieldBytes(fs[0]) + Encode(fs[1..])
  }

  /** A layout's wire form is exactly as long as its shapes say. */
  lemma {:induction false} EncodeSize(fs: seq<Field>)
    ensures |Encode(fs)| == Size(Shapes(fs))
  {
    if fs != [] {
      EncodeSize(fs[1..]);
      assert Shapes(fs)[1..] == Shapes(fs[1..]);
    }
  }

  /**
    BinaryReader's reading of one field from exactly its width of bytes
    (ReadBoolean takes any non-zero byte as true; padding is skipped).
   */
  function DecodeField(s: Shape, b: seq<byte>): (r: Field)
    requires |b| == Width(s)
    ensures ShapeOf(r) == s
  {
    match s
    case U8S => U8(b[0])
    case BoolS => Bool(b[0] != 0)
    case U16S => U16(ReadLe16(b))
    case U32S => U32(ReadLe32(b))
    case I32S => I32(I32OfBits(ReadLe32(b)))
    case F32S => F32(ReadLe32(b))
    case U64S => U64(ReadLe64(b))
    case PadS(n) => Pad(n)
    case RawS(n) => Raw(b)
  }

  /** Reads the fields of `ss` in order off the front of `b`. */
  function Decode(ss: seq<Shape>, b: seq<byte>): (fs: seq<Field>)
    requires Size(ss) <= |b|
    ensures Shapes(fs) == ss
  {
    if ss == [] then []
    else
      var w := Width(ss[0]);
      [DecodeField(ss[0], b[..w])] + Decode(ss[1..], b[w..])
  }

  lemma {:induction false} DecodeFieldBytes(f: Field)
    ensures DecodeField(ShapeOf(f), FieldBytes(f)) == f
  {
    match f
    case U16(v) => Le16Value(v);
    case U32(v) => Le32Value(v);
    case I32(v) => Le32Value(I32Bits(v)); I32RoundTrip(v);
    case F32(v) => Le32Value(v);
    case U64(v) => Le64Value(v);
    case _ =>
  }

  /** Decoding a cons: the first field from its own bytes, the rest from what follows them. */
  lemma {:induction false} DecodeCons(ss: seq<Shape>, b: seq<byte>)
    requires ss != [] && Size(ss) <= |b|
    ensures Width(ss[0]) <= |b| && Size(ss[1..]) <= |b| - Width(ss[0])
    ensures Decode(ss, b) == [DecodeField(ss[0], b[..Width(ss[0])])] + Decode(ss[1..], b[Width(ss[0])..])
  {
  }

  /** Writer/reader symmetry: any layout reads back as itself, whatever follows it. */
  lemma {:induction false} DecodeEncode(fs: seq<Field>, rest: seq<byte>)
    ensures Size(Shapes(fs)) <= |Encode(fs) + rest|
    ensures Decode(Shapes(fs), Encode(fs) + rest) == fs
  {
    EncodeSize(fs);
    if fs != [] {
      var f, tail := fs[0], fs[1..];
      var ss := Shapes(fs);
      var b := Encode(fs) + rest;
      var w := Width(ShapeOf(f));
      assert ss[0] == ShapeOf(f) && ss[1..] == Shapes(tail);
      assert b == FieldBytes(f) + (Encode(tail) + rest) by { EncodeCons(f, tail); assert [f] + tail == fs; }
      assert b[..w] == FieldBytes(f) && b[w..] == Encode(tail) + rest;
      DecodeCons(ss, b);
      DecodeFieldBytes(f);
      DecodeEncode(tail, rest);
      assert [f] + tail == fs;
    }
  }

  lemma {:induction false} EncodeConcat(a: seq<Field>, b: seq<Field>)
    ensures Encode(a + b) == Encode(a) + Encode(b)
  {
    if a == [] {
      assert a + b == b;
    } else {
      assert (a + b)[0] == a[0];
      assert (a + b)[1..] == a[1..] + b;
      EncodeConcat(a[1..], b);
      calc {
        Encode(a + b);
        FieldBytes(a[0]) + Encode(a[1..] + b);
        FieldBytes(a[0]) + (Encode(a[1..]) + Encode(b));
        (FieldBytes(a[0]) + Encode(a[1..])) + Encode(b);
      }
    }
  }

  /** The wire form of a layout starts with its first field's bytes. */
  lemma {:induction false} EncodeCons(f: Field, fs: seq<Field>)
    ensures Encode([f] + fs) == FieldBytes(f) + Encode(fs)
  {
    assert ([f] + fs)[0] == f;
    assert ([f] + fs)[1..] == fs;
  }

  /** The wire form of three consecutive fields. */
  lemma {:induction false} Encode3(l: seq<Field>)
    requires |l| == 3
    ensures Encode(l) == FieldBytes(l[0]) + FieldBytes(l[1]) + FieldBytes(l[2])
  {
    assert l == [l[0]] + ([l[1]] + ([l[2]] + []));
    EncodeCons(l[2], []);
    EncodeCons(l[1], [l[2]] + []);
    EncodeCons(l[0], [l[1]] + ([l[2]] + []));
  }

  /** The wire form of four consecutive fields. */
  lemma {:induction false} Encode4(l: seq<Field>)
    requires |l| == 4
    ensures Encode(l) == FieldBytes(l[0]) + FieldBytes(l[1]) + FieldBytes(l[2]) + FieldBytes(l[3])
  {
    assert l == [l[0]] + l[1..];
    EncodeCons(l[0], l[1..]);
    Encode3(l[1..]);
  }

  /** A layout's wire form begins with the wire form of any prefix of it. */
  lemma {:induction false} EncodePrefix(head: seq<Field>, rest: seq<Field>)
    ensures |Encode(head)| <= |Encode(head + rest)|
    ensures Encode(head + rest)[..|Encode(head)|] == Encode(head)
  {
    EncodeConcat(head, rest);
  }

  lemma {:induction false} EncodeAppend(fs: seq<Field>, f: Field)
    ensures Encode(fs + [f]) == Encode(fs) + FieldBytes(f)
  {
    EncodeConcat(fs, [f]);
  }

  /** Where one field of a layout sits in its wire form. */
  lemma {:induction false} FieldAt(a: seq<Field>, f: Field, b: seq<Field>)
    ensures |Encode(a)| + Width(ShapeOf(f)) <= |Encode(a + [f] + b)|
    ensures Encode(a + [f] + b)[|Encode(a)|..|Encode(a)| + Width(ShapeOf(f))] == FieldBytes(f)
  {
    EncodeConcat(a + [f], b);
    EncodeAppend(a, f);
  }

  /** The fields of every element of `s`, in order (a foreach over a list). */
  function Flatten<T>(s: seq<T>, each: T -> seq<Field>): seq<Field>
  {
    if s == [] then [] else Flatten(s[..|s| - 1], each) + each(s[|s| - 1])
  }

  lemma {:induction false} FlattenPrefix<T>(s: seq<T>, i: nat, each: T -> seq<Field>)
    requires i < |s|
    ensures Flatten(s[..i + 1], each) == Flatten(s[..i], each) + each(s[i])
  {
    assert s[..i + 1][..i] == s[..i];
  }

  /** One more element's fields after a fixed head extend the flattened prefix by one element. */
  lemma {:induction false} FlattenStep<T>(head: seq<Field>, s: seq<T>, i: nat, each: T -> seq<Field>)
    requires i < |s|
    ensures (head + Flatten(s[..i], each)) + each(s[i]) == head + Flatten(s[..i + 1], each)
  {
    FlattenPrefix(s, i, each);
  }

  lemma {:induction false} FlattenFront<T>(x: T, s: seq<T>, each: T -> seq<Field>)
    ensures Flatten([x] + s, each) == each(x) + Flatten(s, each)
    decreases |s|
  {
    if s != [] {
      var init := s[..|s| - 1];
      assert ([x] + s)[..|[x] + s| - 1] == [x] + init;
      FlattenFront(x, init, each);
    }
  }

  /** A foreach that writes one field per element writes exactly one field per element. */
  lemma {:induction false} FlattenSingles<T>(s: seq<T>, each: T -> seq<Field>)
    requires forall i :: 0 <= i < |s| ==> |each(s[i])| == 1
    ensures |Flatten(s, each)| == |s|
    ensures forall i :: 0 <= i < |s| ==> Flatten(s, each)[i] == each(s[i])[0]
  {
    if s != [] {
      var init := s[..|s| - 1];
      assert forall i :: 0 <= i < |init| ==> init[i] == s[i];
      FlattenSingles(init, each);
    }
  }
}

/**
  The CustomizeSkin bin-table record decoder
  (Core/Systems/GameSystem/Datas/Bin/Table/Entities/CustomizeSkinTableEntity.cs):
  the hero id, then ten u32s, ten byte-length unicode strings and ten more
  u32s, all through one shared BinaryReader. Each `Select` lambda advances
  that cursor, so the lists are read one after the other, each in order.

  ReadHeroType and ReadByteLengthUnicodeString are not part of this model;
  they are parameters (`Parser`s) that say what value they read and how
  many bytes they take. Positions below are absolute offsets into the
  reader's data.
 */
module CustomizeSkin {
  import opened Bytes
  import opened Wrappers
  import opened PacketIO

  const ItemsCount: nat := 10

  datatype CustomizeSkinEntry = CustomizeSkinEntry(
    id: nat,
    unknown1: seq<u32>,
    icons: seq<string>,
    unknown2: seq<u32>)

  // ---- reading -------------------------------------------------------------------

  /** The `n` little-endian u32s stored from offset k on, in order. */
  function Words(data: seq<byte>, k: nat, n: nat): (r: seq<u32>)
    requires k + 4 * n <= |data|
    ensures |r| == n
  {
    if n == 0 then [] else Words(data, k, n - 1) + [ReadLe32(data[k + 4 * (n - 1)..k + 4 * n])]
  }

  /**
    `n` successive reads with `p`: the values in read order and the bytes
    they took together; None when one of them fails.
   */
  function ParseMany<T>(p: Parser<T>, b: seq<byte>, n: nat): (r: Option<(seq<T>, nat)>)
    ensures r.Some? ==> |r.value.0| == n && r.value.1 <= |b|
  {
    if n == 0 then Some(([], 0))
    else
      match ParseMany(p, b, n - 1)
      case None => None
      case Some((xs, k)) =>
        match RunParser(p, b[k..])
        case None => None
        case Some((x, m)) => Some((xs + [x], k + m))
  }

  /** After i reads that took k bytes, read i + 1 starts at byte k. */
  lemma {:induction false} ParseManyNext<T>(p: Parser<T>, b: seq<byte>, i: nat, xs: seq<T>, k: nat)
    requires ParseMany(p, b, i) == Some((xs, k))
    ensures RunParser(p, b[k..]).None? ==> ParseMany(p, b, i + 1).None?
    ensures RunParser(p, b[k..]).Some? ==>
      ParseMany(p, b, i + 1) == Some((xs + [RunParser(p, b[k..]).value.0], k + RunParser(p, b[k..]).value.1))
  {
  }

  /** Once a read has failed, no later count of reads succeeds. */
  lemma {:induction false} ParseManyStaysFailed<T>(p: Parser<T>, b: seq<byte>, i: nat, n: nat)
    requires i <= n && ParseMany(p, b, i).None?
    ensures ParseMany(p, b, n).None?
    decreases n - i
  {
    if i < n {
      assert ParseMany(p, b, i + 1).None?;
      ParseManyStaysFailed(p, b, i + 1, n);
    }
  }

  /** Fewer reads see a prefix of the values: each element is read before every later one. */
  lemma {:induction false} ParseManyPrefix<T>(p: Parser<T>, b: seq<byte>, i: nat, n: nat)
    requires i <= n && ParseMany(p, b, n).Some?
    ensures ParseMany(p, b, i).Some?
    ensures ParseMany(p, b, i).value.0 == ParseMany(p, b, n).value.0[..i]
    ensures ParseMany(p, b, i).value.1 <= ParseMany(p, b, n).value.1
    decreases n - i
  {
    if i < n {
      var xs := ParseMany(p, b, n - 1).value.0;
      assert ParseMany(p, b, n).value.0[..n - 1] == xs;
      ParseManyPrefix(p, b, i, n - 1);
      assert xs[..i] == ParseMany(p, b, n).value.0[..i];
    }
  }

  /**
    A record whose lists have `n` elements each, read from offset `pos` in
    the constructor's order: the id, Unknown1, Icons, then Unknown2, each
    starting where the previous read stopped. With the offset after it.
   */
  function ParseRecord(hero: Parser<nat>, str: Parser<string>, data: seq<byte>, pos: nat, n: nat)
    : (r: Option<(CustomizeSkinEntry, nat)>)
    requires pos <= |data|
    ensures r.Some? ==> pos <= r.value.1 <= |data|
  {
    match RunParser(hero, data[pos..])
    case None => None
    case Some((id, m)) => ParseLists(str, data, pos + m, n, id)
  }

  /** Unknown1, then the rest, read from offset k on once the id is read. */
  function ParseLists(str: Parser<string>, data: seq<byte>, k: nat, n: nat, id: nat)
    : (r: Option<(CustomizeSkinEntry, nat)>)
    requires k <= |data|
    ensures r.Some? ==> k <= r.value.1 <= |data|
  {
    if |data| < k + 4 * n then None
    else ParseIcons(str, data, k + 4 * n, n, id, Words(data, k, n))
  }

  /** Icons, then Unknown2, read from offset k on. */
  function ParseIcons(str: Parser<string>, data: seq<byte>, k: nat, n: nat, id: nat, unknown1: seq<u32>)
    : (r: Option<(CustomizeSkinEntry, nat)>)
    requires k <= |data|
    ensures r.Some? ==> k <= r.value.1 <= |data|
  {
    match ParseMany(str, data[k..], n)
    case None => None
    case Some((icons, m)) => ParseUnknown2(data, k + m, n, id, unknown1, icons)
  }

  /** Unknown2, read from offset k on, which ends the record. */
  function ParseUnknown2(data: seq<byte>, k: nat, n: nat, id: nat, unknown1: seq<u32>, icons: seq<string>)
    : (r: Option<(CustomizeSkinEntry, nat)>)
    requires k <= |data|
    ensures r.Some? ==> k <= r.value.1 <= |data|
  {
    if |data| < k + 4 * n then None
    else Some((CustomizeSkinEntry(id, unknown1, icons, Words(data, k, n)), k + 4 * n))
  }

  /** The CustomizeSkin record: lists of ItemsCount elements. */
  function ParseCustomizeSkin(hero: Parser<nat>, str: Parser<string>, data: seq<byte>, pos: nat)
    : (r: Option<(CustomizeSkinEntry, nat)>)
    requires pos <= |data|
    ensures r.Some? ==> pos <= r.value.1 <= |data|
    ensures r.Some? ==> |r.value.0.unknown1| == ItemsCount && |r.value.0.icons| == ItemsCount && |r.value.0.unknown2| == ItemsCount
  {
    ParseRecord(hero, str, data, pos, ItemsCount)
  }

  // ---- the wire form -------------------------------------------------------------

  /** The encodings of a list of values, one after the other. */
  function EncodeAll<T>(enc: T -> seq<byte>, xs: seq<T>): (r: seq<byte>) {
    if xs == [] then [] else EncodeAll(enc, xs[..|xs| - 1]) + enc(xs[|xs| - 1])
  }

  /** The little-endian bytes of a list of u32s, one after the other. */
  function WordsBytes(ws: seq<u32>): seq<byte> {
    EncodeAll(Le32, ws)
  }

  /** A record's wire form for given hero and string encodings. */
  function EncodeRecord(heroEnc: nat -> seq<byte>, strEnc: string -> seq<byte>, e: CustomizeSkinEntry): seq<byte> {
    heroEnc(e.id) + ListsBytes(strEnc, e)
  }

  /** The three lists' wire form. */
  function ListsBytes(strEnc: string -> seq<byte>, e: CustomizeSkinEntry): seq<byte> {
    WordsBytes(e.unknown1) + EncodeAll(strEnc, e.icons) + WordsBytes(e.unknown2)
  }

  /** `p` reads back what `enc` writes, and takes exactly those bytes, whatever follows. */
  ghost predicate Decodes<T(!new)>(p: Parser<T>, enc: T -> seq<byte>) {
    forall x: T, rest: seq<byte> :: p(enc(x) + rest) == Some((x, |enc(x)|))
  }

  /** With four bytes per value, n values take 4n bytes. */
  lemma {:induction false} EncodeAllSize<T>(enc: T -> seq<byte>, xs: seq<T>)
    requires forall x :: |enc(x)| == 4
    ensures |EncodeAll(enc, xs)| == 4 * |xs|
    decreases |xs|
  {
    if xs != [] {
      EncodeAllSize(enc, xs[..|xs| - 1]);
    }
  }

  /** With four bytes per value, value i's bytes sit at offset 4i. */
  lemma {:induction false} EncodeAllAt<T>(enc: T -> seq<byte>, xs: seq<T>, i: nat)
    requires forall x :: |enc(x)| == 4
    requires i < |xs|
    ensures 4 * i + 4 <= |EncodeAll(enc, xs)|
    ensures EncodeAll(enc, xs)[4 * i..4 * i + 4] == enc(xs[i])
    decreases |xs|
  {
    var init := xs[..|xs| - 1];
    EncodeAllSize(enc, init);
    assert EncodeAll(enc, xs) == EncodeAll(enc, init) + enc(xs[|xs| - 1]);
    if i < |xs| - 1 {
      EncodeAllAt(enc, init, i);
      assert EncodeAll(enc, xs)[4 * i..4 * i + 4] == EncodeAll(enc, init)[4 * i..4 * i + 4];
    } else {
      assert EncodeAll(enc, xs)[4 * i..4 * i + 4] == enc(xs[|xs| - 1]);
    }
  }

  /** A slice of a slice is the slice at the shifted offsets. */
  lemma {:induction false} SliceWithin(a: seq<byte>, lo: nat, hi: nat, i: nat, j: nat)
    requires lo <= hi <= |a| && i <= j <= hi - lo
    ensures a[lo + i..lo + j] == a[lo..hi][i..j]
  {
    assert forall t :: 0 <= t < j - i ==> a[lo..hi][i..j][t] == a[lo + i + t];
  }

  /** Where `whole` lies in `data` from offset k, its slice [i..j] lies from k + i to k + j. */
  lemma {:induction false} SliceOf(data: seq<byte>, k: nat, whole: seq<byte>, i: nat, j: nat)
    requires k + |whole| <= |data| && data[k..k + |whole|] == whole && i <= j <= |whole|
    ensures data[k + i..k + j] == whole[i..j]
  {
    SliceWithin(data, k, k + |whole|, i, j);
  }

  /** Where the encodings of `xs` lie from offset k, value i's bytes lie at k + 4i. */
  lemma {:induction false} EncodedAt<T>(data: seq<byte>, k: nat, enc: T -> seq<byte>, xs: seq<T>, i: nat)
    requires forall x :: |enc(x)| == 4
    requires k + 4 * |xs| <= |data| && data[k..k + 4 * |xs|] == EncodeAll(enc, xs) && i < |xs|
    ensures data[k + 4 * i..k + 4 * i + 4] == enc(xs[i])
  {
    EncodeAllSize(enc, xs);
    EncodeAllAt(enc, xs, i);
    SliceOf(data, k, EncodeAll(enc, xs), 4 * i, 4 * i + 4);
  }

  /** The bytes of a u32 read back as it. */
  lemma {:induction false} ReadBack(s: seq<byte>, w: u32)
    requires s == Le32(w)
    ensures ReadLe32(s) == w
  {
    Le32Value(w);
  }

  /** Word i of `Words` is the u32 at offset k + 4i. */
  lemma {:induction false} WordsAt(data: seq<byte>, k: nat, n: nat, i: nat)
    requires k + 4 * n <= |data| && i < n
    ensures Words(data, k, n)[i] == ReadLe32(data[k + 4 * i..k + 4 * i + 4])
  {
    if i < n - 1 {
      WordsAt(data, k, n - 1, i);
    }
  }

  /** Where a list's bytes lie, word i is read back from offset k + 4i. */
  lemma {:induction false} WordRead(data: seq<byte>, k: nat, ws: seq<u32>, i: nat)
    requires k + 4 * |ws| <= |data| && data[k..k + 4 * |ws|] == WordsBytes(ws) && i < |ws|
    ensures ReadLe32(data[k + 4 * i..k + 4 * i + 4]) == ws[i]
  {
    EncodedAt(data, k, Le32, ws, i);
    ReadBack(data[k + 4 * i..k + 4 * i + 4], ws[i]);
  }

  /** Reading the words back from where their bytes were put gives the list. */
  lemma {:induction false} WordsRoundTrip(data: seq<byte>, k: nat, ws: seq<u32>)
    requires k + 4 * |ws| <= |data| && data[k..k + 4 * |ws|] == WordsBytes(ws)
    ensures Words(data, k, |ws|) == ws
  {
    forall i | 0 <= i < |ws|
      ensures Words(data, k, |ws|)[i] == ws[i]
    {
      WordsAt(data, k, |ws|, i);
      WordRead(data, k, ws, i);
    }
  }

  /** Reading n values back from their encodings gives them, taking exactly their bytes. */
  lemma {:induction false} ParseManyRoundTrip<T(!new)>(p: Parser<T>, enc: T -> seq<byte>, xs: seq<T>, rest: seq<byte>)
    requires Decodes(p, enc)
    ensures ParseMany(p, EncodeAll(enc, xs) + rest, |xs|) == Some((xs, |EncodeAll(enc, xs)|))
    decreases |xs|
  {
    if xs != [] {
      var init, last := xs[..|xs| - 1], xs[|xs| - 1];
      var b := EncodeAll(enc, xs) + rest;
      assert b == EncodeAll(enc, init) + (enc(last) + rest);
      ParseManyRoundTrip(p, enc, init, enc(last) + rest);
      var k := |EncodeAll(enc, init)|;
      assert b[k..] == enc(last) + rest;
      assert p(enc(last) + rest) == Some((last, |enc(last)|));
      assert init + [last] == xs;
    }
  }

  /** Where `a + b` lies in `data` from offset k on, `a` comes first and `b` takes the rest. */
  lemma {:induction false} HeadTail(data: seq<byte>, k: nat, a: seq<byte>, b: seq<byte>)
    requires k <= |data| && data[k..] == a + b
    ensures k + |a| <= |data| && data[k..k + |a|] == a && data[k + |a|..] == b
  {
    assert data[k..k + |a|] == data[k..][..|a|];
    assert data[k + |a|..] == data[k..][|a|..];
  }

  /** Unknown2 decodes where its bytes are. */
  lemma {:induction false} Unknown2FromBytes(data: seq<byte>, k: nat, n: nat, id: nat, unknown1: seq<u32>, icons: seq<string>,
                          unknown2: seq<u32>, rest: seq<byte>, end: nat)
    requires |unknown2| == n && k <= |data| && data[k..] == WordsBytes(unknown2) + rest
    requires end == k + 4 * n
    ensures ParseUnknown2(data, k, n, id, unknown1, icons) == Some((CustomizeSkinEntry(id, unknown1, icons, unknown2), end))
  {
    EncodeAllSize(Le32, unknown2);
    HeadTail(data, k, WordsBytes(unknown2), rest);
    WordsRoundTrip(data, k, unknown2);
  }

  /** Icons and Unknown2 decode where their bytes are. */
  lemma {:induction false} IconsFromBytes(str: Parser<string>, strEnc: string -> seq<byte>, data: seq<byte>, k: nat, n: nat,
                       id: nat, unknown1: seq<u32>, icons: seq<string>, unknown2: seq<u32>, rest: seq<byte>,
                       end: nat)
    requires Decodes(str, strEnc) && |icons| == n && |unknown2| == n
    requires k <= |data| && data[k..] == EncodeAll(strEnc, icons) + (WordsBytes(unknown2) + rest)
    requires end == k + |EncodeAll(strEnc, icons)| + 4 * n
    ensures ParseIcons(str, data, k, n, id, unknown1) == Some((CustomizeSkinEntry(id, unknown1, icons, unknown2), end))
  {
    var m := |EncodeAll(strEnc, icons)|;
    ParseManyRoundTrip(str, strEnc, icons, WordsBytes(unknown2) + rest);
    HeadTail(data, k, EncodeAll(strEnc, icons), WordsBytes(unknown2) + rest);
    Unknown2FromBytes(data, k + m, n, id, unknown1, icons, unknown2, rest, end);
    IconsStep(str, data, k, n, id, unknown1, icons, m, CustomizeSkinEntry(id, unknown1, icons, unknown2), end);
  }

  /** Once the icons are read, the rest decodes as Unknown2 does from where they end. */
  lemma {:induction false} IconsStep(str: Parser<string>, data: seq<byte>, k: nat, n: nat, id: nat, unknown1: seq<u32>,
                  icons: seq<string>, m: nat, e: CustomizeSkinEntry, end: nat)
    requires k <= |data| && ParseMany(str, data[k..], n) == Some((icons, m))
    requires k + m <= |data| && ParseUnknown2(data, k + m, n, id, unknown1, icons) == Some((e, end))
    ensures ParseIcons(str, data, k, n, id, unknown1) == Some((e, end))
  {
  }

  /** The three lists decode where their bytes are. */
  lemma {:induction false} ListsFromBytes(str: Parser<string>, strEnc: string -> seq<byte>, data: seq<byte>, k: nat,
                       e: CustomizeSkinEntry, rest: seq<byte>, n: nat)
    requires Decodes(str, strEnc)
    requires |e.unknown1| == n && |e.icons| == n && |e.unknown2| == n
    requires k <= |data|
    requires data[k..] == WordsBytes(e.unknown1) + (EncodeAll(strEnc, e.icons) + (WordsBytes(e.unknown2) + rest))
    ensures ParseLists(str, data, k, n, e.id) == Some((e, k + 8 * n + |EncodeAll(strEnc, e.icons)|))
  {
    Unknown1FromBytes(str, data, k, n, e.id, e.unknown1, EncodeAll(strEnc, e.icons) + (WordsBytes(e.unknown2) + rest));
    var end := k + 8 * n + |EncodeAll(strEnc, e.icons)|;
    IconsFromBytes(str, strEnc, data, k + 4 * n, n, e.id, e.unknown1, e.icons, e.unknown2, rest, end);
  }

  /** Unknown1 decodes where its bytes are, and the lists go on as the rest decodes after them. */
  lemma {:induction false} Unknown1FromBytes(str: Parser<string>, data: seq<byte>, k: nat, n: nat, id: nat, unknown1: seq<u32>,
                          tail: seq<byte>)
    requires |unknown1| == n && k <= |data| && data[k..] == WordsBytes(unknown1) + tail
    ensures k + 4 * n <= |data| && data[k + 4 * n..] == tail
    ensures ParseLists(str, data, k, n, id) == ParseIcons(str, data, k + 4 * n, n, id, unknown1)
  {
    EncodeAllSize(Le32, unknown1);
    HeadTail(data, k, WordsBytes(unknown1), tail);
    WordsRoundTrip(data, k, unknown1);
  }

  /** The three lists decode from their wire form, wherever it starts and whatever follows. */
  lemma {:induction false} ListsRoundTrip(str: Parser<string>, strEnc: string -> seq<byte>,
                       pre: seq<byte>, e: CustomizeSkinEntry, rest: seq<byte>, n: nat)
    requires Decodes(str, strEnc)
    requires |e.unknown1| == n && |e.icons| == n && |e.unknown2| == n
    ensures ParseLists(str, pre + ListsBytes(strEnc, e) + rest, |pre|, n, e.id)
      == Some((e, |pre| + |ListsBytes(strEnc, e)|))
  {
    var u1Bytes, iconBytes, u2Bytes := WordsBytes(e.unknown1), EncodeAll(strEnc, e.icons), WordsBytes(e.unknown2);
    var data := pre + ListsBytes(strEnc, e) + rest;
    assert data[|pre|..] == u1Bytes + (iconBytes + (u2Bytes + rest));
    ListsFromBytes(str, strEnc, data, |pre|, e, rest, n);
    EncodeAllSize(Le32, e.unknown1);
    EncodeAllSize(Le32, e.unknown2);
  }

  /**
    With hero and string readers that invert their encodings, a record of
    n-element lists decodes from its wire form, whatever follows, and the
    reader ends just after it.
   */
  lemma {:induction false} RecordRoundTrip(hero: Parser<nat>, heroEnc: nat -> seq<byte>, str: Parser<string>, strEnc: string -> seq<byte>,
                        e: CustomizeSkinEntry, rest: seq<byte>, n: nat)
    requires Decodes(hero, heroEnc) && Decodes(str, strEnc)
    requires |e.unknown1| == n && |e.icons| == n && |e.unknown2| == n
    ensures ParseRecord(hero, str, EncodeRecord(heroEnc, strEnc, e) + rest, 0, n)
      == Some((e, |EncodeRecord(heroEnc, strEnc, e)|))
  {
    var idBytes := heroEnc(e.id);
    var data := EncodeRecord(heroEnc, strEnc, e) + rest;
    assert data[0..] == idBytes + (ListsBytes(strEnc, e) + rest);
    assert RunParser(hero, data[0..]) == Some((e.id, |idBytes|));
    ListsRoundTrip(str, strEnc, idBytes, e, rest, n);
  }

  // ---- the decoder over a BinaryReader -------------------------------------------

  /** `Enumerable.Repeat(0, n).Select(e => br.ReadUInt32())`: n u32 reads, stopping at the first that fails. */
  method ReadWords(br: BinaryReader, n: nat) returns (r: Option<seq<u32>>)
    requires br.Valid()
    modifies br
    ensures br.Valid()
    ensures old(br.pos) + 4 * n <= |br.data| ==> r == Some(Words(br.data, old(br.pos), n)) && br.pos == old(br.pos) + 4 * n
    ensures old(br.pos) + 4 * n > |br.data| ==> r.None? && br.pos == |br.data|
  {
    ghost var start := br.pos;
    var ws: seq<u32> := [];
    for i := 0 to n
      invariant br.Valid() && br.pos == start + 4 * i
      invariant ws == Words(br.data, start, i)
    {
      var w := br.ReadU32();
      if w.None? {
        return None;
      }
      ws := ws + [w.value];
    }
    r := Some(ws);
  }

  /** `Enumerable.Repeat(0, n).Select(e => read())` for another reader: n reads in order, stopping at the first that fails. */
  method ReadMany<T>(br: BinaryReader, p: Parser<T>, n: nat) returns (r: Option<seq<T>>)
    requires br.Valid()
    modifies br
    ensures br.Valid()
    ensures ParseMany(p, old(br.Remaining()), n).Some? ==>
      r == Some(ParseMany(p, old(br.Remaining()), n).value.0)
      && br.pos == old(br.pos) + ParseMany(p, old(br.Remaining()), n).value.1
    ensures ParseMany(p, old(br.Remaining()), n).None? ==> r.None? && br.pos == |br.data|
  {
    ghost var b := br.Remaining();
    ghost var start := br.pos;
    var xs: seq<T> := [];
    for i := 0 to n
      invariant br.Valid() && start <= br.pos && b == br.data[start..]
      invariant ParseMany(p, b, i) == Some((xs, br.pos - start))
    {
      assert br.Remaining() == b[br.pos - start..];
      ParseManyNext(p, b, i, xs, br.pos - start);
      var x := br.ReadWith(p);
      if x.None? {
        ParseManyStaysFailed(p, b, i + 1, n);
        return None;
      }
      xs := xs + [x.value];
    }
    r := Some(xs);
  }

  /** The record constructor with `n`-element lists; a failed read throws, here None. */
  method ReadRecord(br: BinaryReader, hero: Parser<nat>, str: Parser<string>, n: nat) returns (r: Option<CustomizeSkinEntry>)
    requires br.Valid()
    modifies br
    ensures br.Valid()
    ensures ParseRecord(hero, str, br.data, old(br.pos), n).Some? ==>
      r == Some(ParseRecord(hero, str, br.data, old(br.pos), n).value.0)
      && br.pos == ParseRecord(hero, str, br.data, old(br.pos), n).value.1
    ensures ParseRecord(hero, str, br.data, old(br.pos), n).None? ==> r.None? && br.pos == |br.data|
  {
    var id := br.ReadWith(hero);
    if id.None? {
      return None;
    }
    r := ReadLists(br, str, n, id.value);
  }

  /** The three list reads after the id. */
  method ReadLists(br: BinaryReader, str: Parser<string>, n: nat, id: nat) returns (r: Option<CustomizeSkinEntry>)
    requires br.Valid()
    modifies br
    ensures br.Valid()
    ensures ParseLists(str, br.data, old(br.pos), n, id).Some? ==>
      r == Some(ParseLists(str, br.data, old(br.pos), n, id).value.0)
      && br.pos == ParseLists(str, br.data, old(br.pos), n, id).value.1
    ensures ParseLists(str, br.data, old(br.pos), n, id).None? ==> r.None? && br.pos == |br.data|
  {
    var unknown1 := ReadWords(br, n);
    if unknown1.None? {
      return None;
    }
    r := ReadIcons(br, str, n, id, unknown1.value);
  }

  method ReadIcons(br: BinaryReader, str: Parser<string>, n: nat, id: nat, unknown1: seq<u32>)
    returns (r: Option<CustomizeSkinEntry>)
    requires br.Valid()
    modifies br
    ensures br.Valid()
    ensures ParseIcons(str, br.data, old(br.pos), n, id, unknown1).Some? ==>
      r == Some(ParseIcons(str, br.data, old(br.pos), n, id, unknown1).value.0)
      && br.pos == ParseIcons(str, br.data, old(br.pos), n, id, unknown1).value.1
    ensures ParseIcons(str, br.data, old(br.pos), n, id, unknown1).None? ==> r.None? && br.pos == |br.data|
  {
    var icons := ReadMany(br, str, n);
    if icons.None? {
      return None;
    }
    r := ReadUnknown2(br, n, id, unknown1, icons.value);
  }

  method ReadUnknown2(br: BinaryReader, n: nat, id: nat, unknown1: seq<u32>, icons: seq<string>)
    returns (r: Option<CustomizeSkinEntry>)
    requires br.Valid()
    modifies br
    ensures br.Valid()
    ensures ParseUnknown2(br.data, old(br.pos), n, id, unknown1, icons).Some? ==>
      r == Some(ParseUnknown2(br.data, old(br.pos), n, id, unknown1, icons).value.0)
      && br.pos == ParseUnknown2(br.data, old(br.pos), n, id, unknown1, icons).value.1
    ensures ParseUnknown2(br.data, old(br.pos), n, id, unknown1, icons).None? ==> r.None? && br.pos == |br.data|
  {
    var unknown2 := ReadWords(br, n);
    if unknown2.None? {
      return None;
    }
    r := Some(CustomizeSkinEntry(id, unknown1, icons, unknown2.value));
  }

  /** CustomizeSkinTableEntity(BinaryReader). */
  method ReadCustomizeSkin(br: BinaryReader, hero: Parser<nat>, str: Parser<string>) returns (r: Option<CustomizeSkinEntry>)
    requires br.Valid()
    modifies br
    ensures br.Valid()
    ensures ParseCustomizeSkin(hero, str, br.data, old(br.pos)).Some? ==>
      r == Some(ParseCustomizeSkin(hero, str, br.data, old(br.pos)).value.0)
      && br.pos == ParseCustomizeSkin(hero, str, br.data, old(br.pos)).value.1
    ensures ParseCustomizeSkin(hero, str, br.data, old(br.pos)).None? ==> r.None? && br.pos == |br.data|
  {
    r := ReadRecord(br, hero, str, ItemsCount);
  }
}

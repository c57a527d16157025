/**
  The sequential writer every outbound message is built with, and the
  cursor reader request decoders and table decoders read through.
 */
module PacketIO {
  import opened Bytes
  import opened Wrappers
  import opened Fields

  /** Outbound (server to client) opcodes. Their numeric values are not part of this model. */
  datatype ClientOpcode =
    | CharacterDbLoadSync | CharacterToggleWeapon | NpcOtherInfos | CharacterInfo
    | CharacterStatsUpdate | CharacterProfileInfo | GestureLoad | PostInfo
    | ChatMessage | EventDayEventBoosterList | Heartbeat | LogOut
    | WorldEnter | WorldVersion | BoosterRemove | BoosterAdd
    | GestureUpdateSlots | GateEnter | CharacterMarkAsFavorite | CharacterMakrAsFavorite
    | CharactersList | CharacterChangeBackground | CharacterSelect | GateConnect
    | GateList | OptionLoad | LoginResult | CurrentDate

  /**
    A PacketWriter for one outbound message: its opcode and the fields
    written so far, in order. The writer's buffer is their wire form.
   */
  datatype PacketWriter = PacketWriter(opcode: ClientOpcode, written: seq<Field>) {

    /** The payload bytes written so far. */
    function Data(): seq<byte> {
      Encode(written)
    }

    /** writer.Write: append one field. */
    function Write(f: Field): (r: PacketWriter)
      ensures r.opcode == opcode && r.written == written + [f]
    {
      PacketWriter(opcode, written + [f])
    }
  }

  /** A new writer holds no bytes. */
  lemma {:induction false} NewWriterEmpty(opcode: ClientOpcode)
    ensures PacketWriter(opcode, []).Data() == []
  {
  }

  /** Each write appends exactly that field's little-endian bytes to the buffer, leaving what was there. */
  lemma {:induction false} WriteAppends(w: PacketWriter, f: Field)
    ensures w.Write(f).Data() == w.Data() + FieldBytes(f)
    ensures |w.Write(f).Data()| == |w.Data()| + Width(ShapeOf(f))
  {
    EncodeAppend(w.written, f);
  }

  /** A reader for a value whose wire format is not modelled: the value read and the bytes it took. */
  type Parser<T> = seq<byte> -> Option<(T, nat)>

  /** A parser's answer, with a claim to more bytes than there are read as a failure. */
  function RunParser<T>(p: Parser<T>, b: seq<byte>): (r: Option<(T, nat)>)
    ensures r.Some? ==> r.value.1 <= |b| && p(b) == r
    ensures r.None? ==> p(b).None? || p(b).value.1 > |b|
  {
    match p(b)
    case None => None
    case Some((v, n)) => if n <= |b| then Some((v, n)) else None
  }

  /**
    BinaryReader over a fixed byte sequence. A read either takes all the
    bytes it needs and advances by exactly that many, or fails with an
    end-of-stream error after consuming what was left.
   */
  class BinaryReader {
    const data: seq<byte>
    var pos: nat

    ghost predicate Valid()
      reads this
    {
      pos <= |data|
    }

    function Remaining(): (r: seq<byte>)
      reads this
      requires Valid()
      ensures |r| == |data| - pos
    {
      data[pos..]
    }

    constructor (data: seq<byte>)
      ensures Valid() && this.data == data && pos == 0
    {
      this.data := data;
      pos := 0;
    }

    method ReadExact(n: nat) returns (r: Option<seq<byte>>)
      requires Valid()
      modifies this
      ensures Valid()
      ensures old(pos) + n <= |data| ==> r == Some(data[old(pos)..old(pos) + n]) && pos == old(pos) + n
      ensures old(pos) + n > |data| ==> r.None? && pos == |data|
    {
      if pos + n <= |data| {
        r := Some(data[pos..pos + n]);
        pos := pos + n;
      } else {
        r := None;
        pos := |data|;
      }
    }

    method ReadU8() returns (r: Option<byte>)
      requires Valid()
      modifies this
      ensures Valid()
      ensures old(pos) + 1 <= |data| ==> r == Some(data[old(pos)]) && pos == old(pos) + 1
      ensures old(pos) + 1 > |data| ==> r.None? && pos == |data|
    {
      var b := ReadExact(1);
      r := if b.Some? then Some(b.value[0]) else None;
    }

    method ReadU16() returns (r: Option<u16>)
      requires Valid()
      modifies this
      ensures Valid()
      ensures old(pos) + 2 <= |data| ==> r == Some(ReadLe16(data[old(pos)..old(pos) + 2])) && pos == old(pos) + 2
      ensures old(pos) + 2 > |data| ==> r.None? && pos == |data|
    {
      var b := ReadExact(2);
      r := if b.Some? then Some(ReadLe16(b.value)) else None;
    }

    method ReadU32() returns (r: Option<u32>)
      requires Valid()
      modifies this
      ensures Valid()
      ensures old(pos) + 4 <= |data| ==> r == Some(ReadLe32(data[old(pos)..old(pos) + 4])) && pos == old(pos) + 4
      ensures old(pos) + 4 > |data| ==> r.None? && pos == |data|
    {
      var b := ReadExact(4);
      r := if b.Some? then Some(ReadLe32(b.value)) else None;
    }

    method ReadU64() returns (r: Option<u64>)
      requires Valid()
      modifies this
      ensures Valid()
      ensures old(pos) + 8 <= |data| ==> r == Some(ReadLe64(data[old(pos)..old(pos) + 8])) && pos == old(pos) + 8
      ensures old(pos) + 8 > |data| ==> r.None? && pos == |data|
    {
      var b := ReadExact(8);
      r := if b.Some? then Some(ReadLe64(b.value)) else None;
    }

    /** Reads one value with an unmodelled reader (ReadHeroType, ReadByteLengthUnicodeString). */
    method ReadWith<T>(p: Parser<T>) returns (r: Option<T>)
      requires Valid()
      modifies this
      ensures Valid()
      ensures RunParser(p, old(Remaining())).Some? ==>
        r == Some(RunParser(p, old(Remaining())).value.0) && pos == old(pos) + RunParser(p, old(Remaining())).value.1
      ensures RunParser(p, old(Remaining())).None? ==> r.None? && pos == |data|
    {
      var res := RunParser(p, data[pos..]);
      if res.Some? {
        r := Some(res.value.0);
        pos := pos + res.value.1;
      } else {
        r := None;
        pos := |data|;
      }
    }
  }
}

/**
  The receive side of a game session: how one received slice is cut into
  envelopes and each envelope body is dispatched to a packet handler
  (GameSession.OnReceived and GameSession.ProcessPacket).

  An envelope is two magic bytes, a little-endian u16 length that counts
  the five header bytes too, one reserved byte, then the body. The body is
  de-obfuscated by `exchange`, its first two bytes are the opcode and the
  rest is what the handler reads. `exchange` and the handlers' outcome are
  parameters: their code is not part of this model.
 */
module Framing {
  import opened Bytes
  import opened Wrappers
  import opened Defines

  /** Why a receive stopped early; every fault aborts the slice and disconnects. */
  datatype Fault =
    | HeaderTruncated   // ReadUInt16 on the length hit the end of the slice
    | NegativeLength    // declared length below the 5 header bytes: ReadBytes(negative)
    | OpcodeTruncated   // the exchanged body is shorter than the 2-byte opcode
    | HandlerFailed     // the opcode's handler threw

  /** One handler invocation: the opcode and the bytes after it. */
  datatype Dispatch = Dispatch(opcode: u16, payload: seq<byte>)

  /** The handlers invoked for one slice, in order, and the fault that ended it, if any. */
  datatype Outcome = Outcome(dispatched: seq<Dispatch>, fault: Option<Fault>)

  type Exchange = seq<byte> -> seq<byte>
  /** Whether the handler registered for an opcode returns normally on a payload. */
  type Handlers = (u16, seq<byte>) -> bool

  datatype Frame = FrameFault(fault: Fault) | Framed(body: seq<byte>, next: nat)

  /** Offset of the length field inside an envelope starting at `pos`. */
  function LengthAt(pos: nat): nat { pos + MagicSize }

  /** Offset of the body inside an envelope starting at `pos`. */
  function BodyAt(pos: nat): nat { pos + PacketEncryptedHeaderSize as nat }

  /** The length field of the envelope at `pos`, as declared on the wire. */
  function DeclaredLength(w: seq<byte>, pos: nat): (r: u16)
    requires LengthAt(pos) + LengthFieldSize <= |w|
  {
    ReadLe16(w[LengthAt(pos)..LengthAt(pos) + LengthFieldSize])
  }

  function Min(a: nat, b: nat): nat { if a <= b then a else b }

  /**
    One iteration of the receive loop from cursor `pos`: skip the magic,
    read the length, skip the reserved byte, read the body. BinaryReader
    .ReadBytes returns fewer bytes when the slice ends first, and none once
    the cursor is already past the end (the cursor then stays there).
   */
  function ReadFrame(w: seq<byte>, pos: nat): (r: Frame)
    ensures r.Framed? <==>
      LengthAt(pos) + LengthFieldSize <= |w| && DeclaredLength(w, pos) >= PacketEncryptedHeaderSize as nat
    ensures r.FrameFault? ==> r.fault in {HeaderTruncated, NegativeLength}
    ensures r.Framed? ==> r.next >= BodyAt(pos) && r.next >= pos + 5
    ensures r.Framed? && BodyAt(pos) <= |w| ==>
      r.next <= |w| && r.body == w[BodyAt(pos)..r.next]
      && |r.body| == Min(DeclaredLength(w, pos) - PacketEncryptedHeaderSize as nat, |w| - BodyAt(pos))
    ensures r.Framed? && BodyAt(pos) > |w| ==> r.body == [] && r.next == BodyAt(pos)
  {
    if LengthAt(pos) + LengthFieldSize > |w| then FrameFault(HeaderTruncated)
    else
      var length := DeclaredLength(w, pos) as int - PacketEncryptedHeaderSize as int;
      if length < 0 then FrameFault(NegativeLength)
      else
        var start := BodyAt(pos);
        if start >= |w| then Framed([], start)
        else
          var end := Min(start + length, |w|);
          Framed(w[start..end], end)
  }

  /** ProcessPacket: exchange the body, split off the opcode. None when there is no whole opcode. */
  function Unpack(exchange: Exchange, body: seq<byte>): (r: Option<Dispatch>)
    ensures r.Some? <==> |exchange(body)| >= OpcodeSize
    ensures r.Some? ==> exchange(body) == Le16(r.value.opcode) + r.value.payload
  {
    var x := exchange(body);
    if |x| < OpcodeSize then None
    else
      var d := Dispatch(ReadLe16(x[..OpcodeSize]), x[OpcodeSize..]);
      assert x == x[..OpcodeSize] + x[OpcodeSize..];
      Some(d)
  }

  /** How one pass of the receive loop ends: the loop stops with an outcome, or dispatched `d` and goes on at `next`. */
  datatype Step = Halt(outcome: Outcome) | Continue(d: Dispatch, next: nat)

  /**
    One pass of the receive loop at cursor `pos`: a frame fault, a short
    opcode or a failed handler stops it with a fault; a dispatch that leaves
    the cursor at the end of the slice stops it without one.
   */
  function StepAt(exchange: Exchange, handlers: Handlers, w: seq<byte>, pos: nat): (r: Step)
    ensures r.Continue? ==> pos + 5 <= r.next < |w|
    ensures r.Continue? ==> handlers(r.d.opcode, r.d.payload)
    ensures r.Halt? && r.outcome.fault.None? ==> |r.outcome.dispatched| == 1
    ensures r.Halt? ==> |r.outcome.dispatched| <= 1
  {
    match ReadFrame(w, pos)
    case FrameFault(f) => Halt(Outcome([], Some(f)))
    case Framed(body, next) =>
      match Unpack(exchange, body)
      case None => Halt(Outcome([], Some(OpcodeTruncated)))
      case Some(d) =>
        if !handlers(d.opcode, d.payload) then Halt(Outcome([d], Some(HandlerFailed)))
        else if next < |w| then Continue(d, next)
        else Halt(Outcome([d], None))
  }

  /** The receive loop from cursor `pos` to the end of the slice (a do/while: it runs at least once). */
  function Iterate(exchange: Exchange, handlers: Handlers, w: seq<byte>, pos: nat): (r: Outcome)
    decreases |w| - pos
  {
    match StepAt(exchange, handlers, w, pos)
    case Halt(o) => o
    case Continue(d, next) =>
      var rest := Iterate(exchange, handlers, w, next);
      Outcome([d] + rest.dispatched, rest.fault)
  }

  /** What OnReceived does with one received slice. */
  function Receive(exchange: Exchange, handlers: Handlers, w: seq<byte>): Outcome {
    Iterate(exchange, handlers, w, 0)
  }

  /** The loop resumed at `pos` after the dispatches `acc` of the passes before it. */
  function Resume(exchange: Exchange, handlers: Handlers, w: seq<byte>, pos: nat, acc: seq<Dispatch>): (r: Outcome)
    ensures pos == 0 && acc == [] ==> r == Receive(exchange, handlers, w)
  {
    var rest := Iterate(exchange, handlers, w, pos);
    Outcome(acc + rest.dispatched, rest.fault)
  }

  /** One more pass: the loop either ends with what it has dispatched so far, or resumes further on. */
  lemma {:induction false} ResumeStep(exchange: Exchange, handlers: Handlers, w: seq<byte>, pos: nat, acc: seq<Dispatch>)
    ensures match StepAt(exchange, handlers, w, pos)
      case Halt(o) => Resume(exchange, handlers, w, pos, acc) == Outcome(acc + o.dispatched, o.fault)
      case Continue(d, next) => Resume(exchange, handlers, w, pos, acc) == Resume(exchange, handlers, w, next, acc + [d])
  {
    match StepAt(exchange, handlers, w, pos)
    case Halt(o) =>
    case Continue(d, next) =>
      var rest := Iterate(exchange, handlers, w, next).dispatched;
      assert acc + ([d] + rest) == (acc + [d]) + rest;
  }

  // ---- envelopes -------------------------------------------------------------

  /** A well-formed envelope around `body`, as a client sends it. */
  function Envelope(magic: u16, reserved: byte, body: seq<byte>): (r: seq<byte>)
    requires |body| + PacketEncryptedHeaderSize as nat < 0x1_0000
    ensures |r| == |body| + 5
  {
    Le16(magic) + Le16(|body| + PacketEncryptedHeaderSize as nat) + [reserved] + body
  }

  /** A client-side envelope: its magic, reserved byte and body. */
  datatype Packet = Packet(magic: u16, reserved: byte, body: seq<byte>)

  predicate Sendable(p: Packet) {
    |p.body| + PacketEncryptedHeaderSize as nat < 0x1_0000
  }

  function Concat(ps: seq<Packet>): (r: seq<byte>)
    requires forall i :: 0 <= i < |ps| ==> Sendable(ps[i])
    ensures |r| >= 5 * |ps|
  {
    if ps == [] then []
    else
      assert Sendable(ps[0]);
      Envelope(ps[0].magic, ps[0].reserved, ps[0].body) + Concat(ps[1..])
  }

  /** The dispatch a body yields when it unpacks. */
  function UnpackAll(exchange: Exchange, ps: seq<Packet>): (r: seq<Dispatch>)
    requires forall i :: 0 <= i < |ps| ==> Unpack(exchange, ps[i].body).Some?
    ensures |r| == |ps|
    ensures forall i :: 0 <= i < |ps| ==> r[i] == Unpack(exchange, ps[i].body).value
  {
    if ps == [] then [] else [Unpack(exchange, ps[0].body).value] + UnpackAll(exchange, ps[1..])
  }

  // ---- properties ---------------------------------------------------------------

  /** The envelope reads back as its body, and the cursor lands just after it. */
  lemma {:induction false} ReadEnvelope(magic: u16, reserved: byte, body: seq<byte>, rest: seq<byte>)
    requires |body| + PacketEncryptedHeaderSize as nat < 0x1_0000
    ensures ReadFrame(Envelope(magic, reserved, body) + rest, 0) == Framed(body, |body| + 5)
  {
    var e := Envelope(magic, reserved, body);
    var w := e + rest;
    var n := |body| + PacketEncryptedHeaderSize as nat;
    assert w[2..4] == Le16(n);
    Le16Value(n);
    LeBytesOfLeValue(Le16(n));
    assert DeclaredLength(w, 0) == n;
    assert w[5..5 + |body|] == body;
  }

  lemma {:induction false} SliceShift(p: seq<byte>, w: seq<byte>, a: nat, b: nat)
    requires a <= b <= |w|
    ensures (p + w)[|p| + a..|p| + b] == w[a..b]
  {
  }

  /** A frame read depends only on the bytes from the cursor on. */
  lemma {:induction false} ReadFrameShift(p: seq<byte>, w: seq<byte>, pos: nat)
    ensures ReadFrame(p + w, |p| + pos) ==
      match ReadFrame(w, pos)
      case FrameFault(f) => FrameFault(f)
      case Framed(body, next) => Framed(body, |p| + next)
  {
    if LengthAt(pos) + LengthFieldSize <= |w| {
      SliceShift(p, w, LengthAt(pos), LengthAt(pos) + LengthFieldSize);
      assert DeclaredLength(p + w, |p| + pos) == DeclaredLength(w, pos);
      var start := BodyAt(pos);
      if start < |w| && DeclaredLength(w, pos) >= 5 {
        SliceShift(p, w, start, Min(start + DeclaredLength(w, pos) - 5, |w|));
      }
    }
  }

  /** So does one pass of the receive loop. */
  lemma {:induction false} StepShift(exchange: Exchange, handlers: Handlers, p: seq<byte>, w: seq<byte>, pos: nat)
    ensures StepAt(exchange, handlers, p + w, |p| + pos) ==
      match StepAt(exchange, handlers, w, pos)
      case Halt(o) => Halt(o)
      case Continue(d, next) => Continue(d, |p| + next)
  {
    ReadFrameShift(p, w, pos);
  }

  /** The receive loop over a slice behaves the same after a prefix that it has already passed. */
  lemma {:induction false} IterateShift(exchange: Exchange, handlers: Handlers, p: seq<byte>, w: seq<byte>, pos: nat)
    ensures Iterate(exchange, handlers, p + w, |p| + pos) == Iterate(exchange, handlers, w, pos)
    decreases |w| - pos
  {
    StepShift(exchange, handlers, p, w, pos);
    match StepAt(exchange, handlers, w, pos)
    case Halt(o) =>
      assert StepAt(exchange, handlers, p + w, |p| + pos) == Halt(o);
    case Continue(d, next) =>
      assert StepAt(exchange, handlers, p + w, |p| + pos) == Continue(d, |p| + next);
      IterateShift(exchange, handlers, p, w, next);
  }

  /** A well-formed envelope followed by more bytes: its body is dispatched, then the rest is received as a slice of its own. */
  lemma {:induction false} ReceiveCons(exchange: Exchange, handlers: Handlers, q: Packet, rest: seq<byte>, d: Dispatch)
    requires Sendable(q) && Unpack(exchange, q.body) == Some(d) && handlers(d.opcode, d.payload)
    requires rest != []
    ensures Receive(exchange, handlers, Envelope(q.magic, q.reserved, q.body) + rest) ==
      Outcome([d] + Receive(exchange, handlers, rest).dispatched, Receive(exchange, handlers, rest).fault)
  {
    var e := Envelope(q.magic, q.reserved, q.body);
    ReadEnvelope(q.magic, q.reserved, q.body, rest);
    IterateShift(exchange, handlers, e, rest, 0);
    IterateContinues(exchange, handlers, e + rest, 0, d);
  }

  /** A single well-formed envelope is dispatched alone, with no fault. */
  lemma {:induction false} ReceiveSingle(exchange: Exchange, handlers: Handlers, q: Packet, d: Dispatch)
    requires Sendable(q) && Unpack(exchange, q.body) == Some(d) && handlers(d.opcode, d.payload)
    ensures Receive(exchange, handlers, Envelope(q.magic, q.reserved, q.body)) == Outcome([d], None)
  {
    var e := Envelope(q.magic, q.reserved, q.body);
    ReadEnvelope(q.magic, q.reserved, q.body, []);
    assert e + [] == e;
  }

  /**
    Envelopes received back to back in one slice are each dispatched once,
    in arrival order, with no fault, provided each body unpacks and its
    handler completes.
   */
  lemma {:induction false} ReceiveEnvelopes(exchange: Exchange, handlers: Handlers, ps: seq<Packet>)
    requires ps != []
    requires forall i :: 0 <= i < |ps| ==> Sendable(ps[i])
    requires forall i :: 0 <= i < |ps| ==> Unpack(exchange, ps[i].body).Some?
    requires forall i :: 0 <= i < |ps| ==>
      handlers(Unpack(exchange, ps[i].body).value.opcode, Unpack(exchange, ps[i].body).value.payload)
    ensures Receive(exchange, handlers, Concat(ps)) == Outcome(UnpackAll(exchange, ps), None)
  {
    var q, tail := ps[0], ps[1..];
    var d := Unpack(exchange, q.body).value;
    assert Concat(ps) == Envelope(q.magic, q.reserved, q.body) + Concat(tail);
    assert UnpackAll(exchange, ps) == [d] + UnpackAll(exchange, tail);
    if tail == [] {
      var e := Envelope(q.magic, q.reserved, q.body);
      assert e + [] == e;
      assert Concat(ps) == e;
      ReceiveSingle(exchange, handlers, q, d);
    } else {
      ReceiveEnvelopes(exchange, handlers, tail);
      ReceiveCons(exchange, handlers, q, Concat(tail), d);
    }
  }

  /** One completed dispatch followed by the rest of the slice. */
  lemma {:induction false} IterateContinues(exchange: Exchange, handlers: Handlers, w: seq<byte>, pos: nat, d: Dispatch)
    requires ReadFrame(w, pos).Framed? && ReadFrame(w, pos).next < |w|
    requires Unpack(exchange, ReadFrame(w, pos).body) == Some(d) && handlers(d.opcode, d.payload)
    ensures Iterate(exchange, handlers, w, pos) ==
      Outcome([d] + Iterate(exchange, handlers, w, ReadFrame(w, pos).next).dispatched,
              Iterate(exchange, handlers, w, ReadFrame(w, pos).next).fault)
  {
  }

  /** A slice too short for even one length field (the empty slice too) is a fault, with nothing dispatched. */
  lemma {:induction false} ShortSlice(exchange: Exchange, handlers: Handlers, w: seq<byte>)
    requires |w| < MagicSize + LengthFieldSize
    ensures Receive(exchange, handlers, w) == Outcome([], Some(HeaderTruncated))
  {
  }

  /** A declared length below the five header bytes faults before anything of that envelope is dispatched. */
  lemma {:induction false} NegativeLengthFaults(exchange: Exchange, handlers: Handlers, w: seq<byte>, pos: nat)
    requires LengthAt(pos) + LengthFieldSize <= |w|
    requires DeclaredLength(w, pos) < PacketEncryptedHeaderSize as nat
    ensures Iterate(exchange, handlers, w, pos) == Outcome([], Some(NegativeLength))
  {
  }

  /**
    A final envelope declaring more bytes than the slice holds is not an
    error: its body is what remains of the slice.
   */
  lemma {:induction false} TruncatedTail(exchange: Exchange, handlers: Handlers, magic: u16, declared: u16, reserved: byte, body: seq<byte>)
    requires declared >= PacketEncryptedHeaderSize as nat
    requires |body| < declared - PacketEncryptedHeaderSize as nat
    requires Unpack(exchange, body).Some?
    ensures Receive(exchange, handlers, Le16(magic) + Le16(declared) + [reserved] + body).dispatched
      == [Unpack(exchange, body).value]
  {
    var w := Le16(magic) + Le16(declared) + [reserved] + body;
    assert w[2..4] == Le16(declared);
    Le16Value(declared);
    LeBytesOfLeValue(Le16(declared));
    if |body| > 0 {
      assert w[5..|w|] == body;
    }
  }

  /** A Dispatch happens only after a successful frame read and unpack, and a failed handler ends the slice. */
  lemma {:induction false} FaultEndsSlice(exchange: Exchange, handlers: Handlers, w: seq<byte>, pos: nat)
    requires Iterate(exchange, handlers, w, pos).dispatched != []
    ensures ReadFrame(w, pos).Framed?
    ensures Unpack(exchange, ReadFrame(w, pos).body).Some?
    ensures Iterate(exchange, handlers, w, pos).dispatched[0] == Unpack(exchange, ReadFrame(w, pos).body).value
    ensures !handlers(Iterate(exchange, handlers, w, pos).dispatched[0].opcode,
                      Iterate(exchange, handlers, w, pos).dispatched[0].payload) ==>
      Iterate(exchange, handlers, w, pos) == Outcome([Iterate(exchange, handlers, w, pos).dispatched[0]], Some(HandlerFailed))
  {
  }

  /** Each dispatch consumes at least five bytes of the slice, so a slice yields at most (|w| + 1) / 5 of them. */
  lemma {:induction false} DispatchBound(exchange: Exchange, handlers: Handlers, w: seq<byte>, pos: nat)
    requires pos <= |w|
    ensures 5 * |Iterate(exchange, handlers, w, pos).dispatched| <= |w| - pos + 1
    decreases |w| - pos
  {
    match ReadFrame(w, pos)
    case FrameFault(f) =>
    case Framed(body, next) =>
      if next < |w| {
        DispatchBound(exchange, handlers, w, next);
      }
  }
}

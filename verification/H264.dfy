/**
 The H.264 packetiser: an Annex B splitter and a stateful packetiser producing single NAL unit
 packets and FU-A fragments (sections 5.6 and 5.8 of RFC 6184), with the depacketiser of that RFC
 as specification.
 */
module H264 {

  type Byte = bv8

  const MAX_FRAME: nat := 100000
  const UDP_MAX: nat := 1400
  const TYPE_FU_A: Byte := 28

  // ---------------------------------------------------------------- the Annex B splitter

  /** A 3-byte start code ends right before index `e`. */
  predicate CodeEnds(b: seq<Byte>, e: nat) {
    3 <= e <= |b| && b[e - 3] == 0 && b[e - 2] == 0 && b[e - 1] == 1
  }

  /** ... and it is a 4-byte start code. */
  predicate LongCodeEnds(b: seq<Byte>, e: nat) {
    4 <= e <= |b| && b[e - 4] == 0 && b[e - 3] == 0 && b[e - 2] == 0 && b[e - 1] == 1
  }

  /** End of the first start code that ends after index `k`; beyond the end if there is none. */
  function NextCode(b: seq<Byte>, k: nat): (e: nat)
    ensures e > k
    ensures e <= |b| ==> CodeEnds(b, e)
    ensures forall i :: k < i < e ==> !CodeEnds(b, i)
    decreases |b| - k
  {
    if k >= |b| then k + 1
    else if CodeEnds(b, k + 1) then k + 1
    else NextCode(b, k + 1)
  }

  datatype Error = EndOfFile | NoStartCode | Undefined

  datatype Parsed = Nalu(header: Byte, payload: seq<Byte>, pos: nat) | Fail(error: Error, pos: nat)

  /** What the splitter reads from `pos`: to the end, the byte it makes of EOF, and from the start again. */
  function Bytes(data: seq<Byte>, pos: nat): seq<Byte>
    requires pos <= |data|
  {
    data[pos..] + [0xFF] + data
  }

  /** Length of the start code at `pos`. */
  function CodeLength(data: seq<Byte>, pos: nat): nat
    requires pos <= |data|
  {
    if CodeEnds(data[pos..], 3) then 3 else if LongCodeEnds(data[pos..], 4) then 4 else 0
  }

  /**
   `get_one_NALU_payload`. `Undefined` stands for the inputs on which the source overruns its
   buffer: no further start code within reach, or nothing between two start codes.
   */
  function Parse(data: seq<Byte>, pos: nat): Parsed
    requires pos <= |data|
  {
    if pos + 3 > |data| then Fail(EndOfFile, |data|)
    else if !CodeEnds(data[pos..], 3) && pos + 4 > |data| then Fail(EndOfFile, |data|)
    else if CodeLength(data, pos) == 0 then Fail(NoStartCode, pos + 4)
    else
      var b, sc := Bytes(data, pos), CodeLength(data, pos);
      var e := NextCode(b, sc);
      if e > |b| || e > MAX_FRAME then Fail(Undefined, pos)
      else
        var r := if LongCodeEnds(b, e) then 4 else 3;
        if e - r <= sc then Fail(Undefined, pos)
        else
          Nalu(b[sc], b[sc + 1..e - r], if pos + e <= |data| then pos + e - r else pos + e - |data| - 1 - r)
  }

  // ---------------------------------------------------------------- the packetiser

  /** `static_h264` with the file position and the media clock. */
  datatype State = State(pos: nat, sharding: bool, header: Byte, buf: seq<Byte>,
                         packetNum: nat, lastByte: nat, current: nat, time: real)

  datatype Packet = Packet(data: seq<Byte>, marker: bool, mtime: real, recall: bool)

  datatype Output = Sent(packet: Packet) | Ended

  /** NAL header without the forbidden bit: a 1-bit field is assigned the value 0x80. */
  function ClearForbidden(h: Byte): Byte { h & 0x7F }

  /** FU indicator: the reference bits of the header and type 28. */
  function FuIndicator(h: Byte): Byte { (h & 0x60) | TYPE_FU_A }

  function FuHeader(h: Byte, start: bool, end: bool): Byte {
    (h & 0x1F) | (if start then 0x80 else 0) | (if end then 0x40 else 0)
  }

  function Fragment(s: State, from: nat, to: nat, start: bool, end: bool): seq<Byte>
    requires from <= to <= |s.buf|
  {
    [FuIndicator(s.header), FuHeader(s.header, start, end)] + s.buf[from..to]
  }

  /** The packetiser's own invariant while a NAL unit is being fragmented. */
  predicate Sharding(s: State) {
    && s.packetNum == |s.buf| / UDP_MAX && s.lastByte == |s.buf| % UDP_MAX
    && |s.buf| > UDP_MAX && 1 <= s.current <= s.packetNum
  }

  predicate StateOk(data: seq<Byte>, s: State) {
    s.pos <= |data| && (s.sharding ==> Sharding(s))
  }

  /** `read_h264` at `frame` milliseconds per frame. */
  function Read(data: seq<Byte>, s: State, frame: real): (State, Output)
    requires StateOk(data, s)
  {
    if !s.sharding then
      match Parse(data, s.pos)
      case Fail(_, p) => (s.(pos := p), Ended)
      case Nalu(h, payload, p) =>
        var n := s.(pos := p, header := h, buf := payload);
        if |payload| == 0 then (n, Ended)
        else
          var t := n.(time := s.time + frame);
          if |payload| <= UDP_MAX then (t, Sent(Packet([ClearForbidden(h)] + payload, true, t.time, false)))
          else
            (t.(sharding := true, packetNum := |payload| / UDP_MAX, lastByte := |payload| % UDP_MAX, current := 1),
             Sent(Packet(Fragment(n, 0, UDP_MAX, true, false), false, t.time, true)))
    else if s.current < s.packetNum then
      (s.(current := s.current + 1),
       Sent(Packet(Fragment(s, s.current * UDP_MAX, s.current * UDP_MAX + UDP_MAX, false, false), false, s.time, true)))
    else
      (s.(sharding := false),
       Sent(Packet(Fragment(s, s.current * UDP_MAX, s.current * UDP_MAX + s.lastByte, false, true),
                   true, s.time, true)))
  }

  // ---------------------------------------------------------------- the depacketiser of RFC 6184

  /** The receiver: NAL units completed by `ps`, and the unit it is still putting together. */
  datatype Receiver = Receiver(done: seq<seq<Byte>>, partial: seq<Byte>)

  function Receive(r: Receiver, p: seq<Byte>): Receiver {
    if |p| == 0 then r
    else
      var t := p[0] & 0x1F;
      if 1 <= t <= 23 then Receiver(r.done + [p], [])
      else if t == 28 && |p| >= 2 then
        var sofar := if p[1] & 0x80 != 0 then [(p[0] & 0xE0) | (p[1] & 0x1F)] else r.partial;
        if p[1] & 0x40 != 0 then Receiver(r.done + [sofar + p[2..]], []) else Receiver(r.done, sofar + p[2..])
      else r
  }

  function ReceiveAll(r: Receiver, ps: seq<Packet>): Receiver {
    if ps == [] then r else Receive(ReceiveAll(r, ps[..|ps| - 1]), ps[|ps| - 1].data)
  }
}

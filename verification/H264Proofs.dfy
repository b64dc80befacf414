/** What the packetiser sends and what an RFC 6184 receiver makes of it. */
module H264Proofs {
  import opened H264

  // ---------------------------------------------------------------- the packets of one NAL unit

  function Min(a: nat, b: nat): nat { if a < b then a else b }

  /** Fragment number `i` of a payload longer than one packet. */
  function FragmentAt(h: Byte, payload: seq<Byte>, i: nat, time: real): Packet
    requires i <= |payload| / UDP_MAX
  {
    var last := i == |payload| / UDP_MAX;
    Packet([FuIndicator(h), FuHeader(h, i == 0, last)] + payload[i * UDP_MAX..Min(i * UDP_MAX + UDP_MAX, |payload|)],
           last, time, true)
  }

  /** All packets of a NAL unit, sent at `time`. */
  function Packets(h: Byte, payload: seq<Byte>, time: real): seq<Packet> {
    if |payload| <= UDP_MAX then [Packet([ClearForbidden(h)] + payload, true, time, false)]
    else seq(|payload| / UDP_MAX + 1, i requires 0 <= i <= |payload| / UDP_MAX => FragmentAt(h, payload, i, time))
  }

  /** What a fragment carries besides its two header bytes. */
  function Carried(ps: seq<Packet>): seq<Byte> {
    if ps == [] then []
    else Carried(ps[..|ps| - 1]) + if |ps[|ps| - 1].data| >= 2 then ps[|ps| - 1].data[2..] else []
  }

  lemma {:induction false} CarriedPrefix(h: Byte, payload: seq<Byte>, time: real, k: nat)
    requires |payload| > UDP_MAX && k <= |payload| / UDP_MAX + 1
    ensures Carried(Packets(h, payload, time)[..k]) == payload[..Min(k * UDP_MAX, |payload|)]
  {
    var ps := Packets(h, payload, time);
    if k > 0 {
      CarriedPrefix(h, payload, time, k - 1);
      assert ps[..k][..k - 1] == ps[..k - 1];
      assert ps[..k][k - 1] == FragmentAt(h, payload, k - 1, time);
      assert FragmentAt(h, payload, k - 1, time).data[2..] == payload[(k - 1) * UDP_MAX..Min(k * UDP_MAX, |payload|)];
    }
  }

  /**
   What section 5.8 of RFC 6184 asks of fragment `i` of `n` of a unit with header `h`, and that the
   packetiser is to be called again at once.
   */
  predicate FragmentOk(p: Packet, i: nat, n: nat, h: Byte, time: real) {
    && 2 <= |p.data| <= 1402 && (i + 1 < n ==> |p.data| == 1402) && p.mtime == time && p.recall
    && p.data[0] & 0x1F == 28 && p.data[0] & 0x60 == h & 0x60 && p.data[0] & 0x80 == 0
    && p.data[1] & 0x1F == h & 0x1F && p.data[1] & 0x20 == 0
    && (p.data[1] & 0x80 != 0 <==> i == 0)
    && (p.data[1] & 0x40 != 0 <==> i + 1 == n)
    && (p.marker <==> i + 1 == n)
  }

  lemma FragmentAtOk(h: Byte, payload: seq<Byte>, i: nat, time: real)
    requires i <= |payload| / UDP_MAX
    ensures FragmentOk(FragmentAt(h, payload, i, time), i, |payload| / UDP_MAX + 1, h, time)
  {
    FuBits(h, i == 0, i == |payload| / UDP_MAX);
    FuRest(h, i == 0, i == |payload| / UDP_MAX);
  }

  lemma FuRest(h: Byte, start: bool, end: bool)
    ensures FuIndicator(h) & 0x60 == h & 0x60 && FuIndicator(h) & 0x80 == 0 && FuHeader(h, start, end) & 0x20 == 0
  {
  }

  /** A unit of at most 1400 bytes besides its header is one packet: itself without the forbidden bit. */
  lemma SinglePacket(h: Byte, payload: seq<Byte>, time: real)
    requires |payload| <= 1400
    ensures var ps := Packets(h, payload, time);
            && |ps| == 1 && ps[0].marker && !ps[0].recall && ps[0].mtime == time
            && |ps[0].data| == |payload| + 1 && ps[0].data[1..] == payload
            && ps[0].data[0] & 0x7F == h & 0x7F && ps[0].data[0] & 0x80 == 0
  {
    assert ClearForbidden(h) & 0x7F == h & 0x7F && ClearForbidden(h) & 0x80 == 0;
  }

  /**
   FU-A fragmentation (section 5.8 of RFC 6184) of any payload above 1400 bytes: L / 1400 + 1
   packets of at most 1402 bytes with one timestamp; the start bit on the first only, the end bit
   and the marker on the last only; what they carry concatenates to the payload, also when the
   last fragment is empty.
   */
  lemma Fragmentation(h: Byte, payload: seq<Byte>, time: real)
    requires |payload| > 1400
    ensures var ps := Packets(h, payload, time);
            && |ps| == |payload| / 1400 + 1 >= 2
            && Carried(ps) == payload
            && forall i :: 0 <= i < |ps| ==> FragmentOk(ps[i], i, |ps|, h, time)
  {
    var ps := Packets(h, payload, time);
    CarriedPrefix(h, payload, time, |ps|);
    assert ps[..|ps|] == ps;
    forall i | 0 <= i < |ps| ensures FragmentOk(ps[i], i, |ps|, h, time) {
      FragmentAtOk(h, payload, i, time);
    }
  }

  lemma FuBits(h: Byte, start: bool, end: bool)
    ensures FuIndicator(h) & 0x1F == TYPE_FU_A && FuHeader(h, start, end) & 0x1F == h & 0x1F
    ensures FuHeader(h, start, end) & 0x80 != 0 <==> start
    ensures FuHeader(h, start, end) & 0x40 != 0 <==> end
    ensures (FuIndicator(h) & 0xE0) | (FuHeader(h, start, end) & 0x1F) == ClearForbidden(h)
  {
  }

  // ---------------------------------------------------------------- what the receiver gets

  lemma ReceiveAllOneMore(r: Receiver, ps: seq<Packet>, k: nat)
    requires k < |ps|
    ensures ReceiveAll(r, ps[..k + 1]) == Receive(ReceiveAll(r, ps[..k]), ps[k].data)
  {
    assert ps[..k + 1][..k] == ps[..k];
  }

  lemma Grow(h: Byte, payload: seq<Byte>, i: nat, j: nat)
    requires i <= j <= |payload|
    ensures ([h] + payload[..i]) + payload[i..j] == [h] + payload[..j]
  {
  }

  /** A fragment that is not the last extends what is being put together. */
  lemma ReceiveOpen(r: Receiver, ps: seq<Packet>, k: nat, h: Byte, start: bool, body: seq<Byte>)
    requires k < |ps| && ps[k].data == [FuIndicator(h), FuHeader(h, start, false)] + body
    ensures var was := ReceiveAll(r, ps[..k]);
            ReceiveAll(r, ps[..k + 1])
                == Receiver(was.done, (if start then [ClearForbidden(h)] else was.partial) + body)
  {
    ReceiveAllOneMore(r, ps, k);
    FuBits(h, start, false);
    assert ps[k].data[2..] == body;
  }

  /** The last fragment completes it. */
  lemma ReceiveClose(r: Receiver, ps: seq<Packet>, k: nat, h: Byte, body: seq<Byte>)
    requires k < |ps| && ps[k].data == [FuIndicator(h), FuHeader(h, false, true)] + body
    ensures var was := ReceiveAll(r, ps[..k]);
            ReceiveAll(r, ps[..k + 1]) == Receiver(was.done + [was.partial + body], [])
  {
    ReceiveAllOneMore(r, ps, k);
    FuBits(h, false, true);
    assert ps[k].data[2..] == body;
  }

  lemma {:induction false} ReceiveFragments(r: Receiver, h: Byte, payload: seq<Byte>, time: real, k: nat)
    requires |payload| > UDP_MAX && 1 <= k <= |payload| / UDP_MAX
    ensures ReceiveAll(r, Packets(h, payload, time)[..k])
            == Receiver(r.done, [ClearForbidden(h)] + payload[..k * UDP_MAX])
  {
    var ps := Packets(h, payload, time);
    var body := payload[(k - 1) * UDP_MAX..k * UDP_MAX];
    assert ps[k - 1] == FragmentAt(h, payload, k - 1, time);
    ReceiveOpen(r, ps, k - 1, h, k == 1, body);
    if k == 1 {
      assert ps[..0] == [];
    } else {
      ReceiveFragments(r, h, payload, time, k - 1);
      Grow(ClearForbidden(h), payload, (k - 1) * UDP_MAX, k * UDP_MAX);
    }
  }

  predicate KnownType(h: Byte) { 1 <= h & 0x1F <= 23 }

  lemma ReceiveSingle(r: Receiver, h: Byte, payload: seq<Byte>, time: real)
    requires KnownType(h) && |payload| <= UDP_MAX
    ensures ReceiveAll(r, Packets(h, payload, time)) == Receiver(r.done + [[ClearForbidden(h)] + payload], [])
  {
    var ps := Packets(h, payload, time);
    ReceiveAllOneMore(r, ps, 0);
    assert ps[..1] == ps && ps[..0] == [];
    assert ClearForbidden(h) & 0x1F == h & 0x1F;
  }

  lemma ReceiveFragmented(r: Receiver, h: Byte, payload: seq<Byte>, time: real)
    requires |payload| > UDP_MAX
    ensures ReceiveAll(r, Packets(h, payload, time)) == Receiver(r.done + [[ClearForbidden(h)] + payload], [])
  {
    var ps, k := Packets(h, payload, time), |payload| / UDP_MAX;
    ReceiveFragments(r, h, payload, time, k);
    assert ps[k] == FragmentAt(h, payload, k, time);
    ReceiveClose(r, ps, k, h, payload[k * UDP_MAX..|payload|]);
    assert ps[..k + 1] == ps;
    Grow(ClearForbidden(h), payload, k * UDP_MAX, |payload|);
    assert payload[..|payload|] == payload;
  }

  /** A unit a receiver can tell: fragmented, or of a type that is neither an aggregation nor a fragment. */
  predicate Receivable(h: Byte, payload: seq<Byte>) { KnownType(h) || |payload| > UDP_MAX }

  lemma ReceiveUnknown(r: Receiver, h: Byte, payload: seq<Byte>, time: real)
    requires !Receivable(h, payload) && payload != []
    ensures var r', p := ReceiveAll(r, Packets(h, payload, time)), [ClearForbidden(h)] + payload;
            && r' == Receive(r, p)
            && (r'.done == r.done
                || (exists x: seq<Byte> :: r' == Receiver(r.done + [x], []) && (r.partial == [] ==> |x| < |p|)))
  {
    var ps, p := Packets(h, payload, time), [ClearForbidden(h)] + payload;
    ReceiveAllOneMore(r, ps, 0);
    assert ps[..1] == ps && ps[..0] == [];
    assert ClearForbidden(h) & 0x1F == h & 0x1F;
    var r' := Receive(r, p);
    if r'.done != r.done {
      var x := r'.done[|r.done|];
      assert r' == Receiver(r.done + [x], []);
    }
  }

  /** A unit adds at most one unit to those received, and then nothing is left over. */
  lemma YieldsAtMostOne(r: Receiver, h: Byte, payload: seq<Byte>, time: real)
    requires payload != []
    ensures var r' := ReceiveAll(r, Packets(h, payload, time));
            r'.done == r.done || (exists x: seq<Byte> :: r' == Receiver(r.done + [x], []))
  {
    if |payload| > UDP_MAX {
      ReceiveFragmented(r, h, payload, time);
    } else if KnownType(h) {
      ReceiveSingle(r, h, payload, time);
    } else {
      ReceiveUnknown(r, h, payload, time);
    }
  }

  /**
   With nothing left over from before, the receiver completes exactly the NAL unit, with the
   forbidden bit cleared, if and only if it can tell the unit.
   */
  lemma ReceivePackets(r: Receiver, h: Byte, payload: seq<Byte>, time: real)
    requires payload != [] && r.partial == []
    ensures ReceiveAll(r, Packets(h, payload, time)) == Receiver(r.done + [[ClearForbidden(h)] + payload], [])
            <==> Receivable(h, payload)
  {
    if |payload| > UDP_MAX {
      ReceiveFragmented(r, h, payload, time);
    } else if KnownType(h) {
      ReceiveSingle(r, h, payload, time);
    } else {
      ReceiveUnknown(r, h, payload, time);
      var r', p := ReceiveAll(r, Packets(h, payload, time)), [ClearForbidden(h)] + payload;
      if r'.done != r.done {
        var x: seq<Byte> :| r' == Receiver(r.done + [x], []) && |x| < |p|;
        assert r'.done[|r.done|] == x;
      }
    }
  }

  // ---------------------------------------------------------------- the splitter

  /** Without a start code nothing is parsed: there are too few bytes, or four bytes are skipped. */
  lemma ParseFails(data: seq<Byte>, pos: nat)
    requires pos <= |data|
    ensures var rest := data[pos..];
            && (Parse(data, pos) == Fail(EndOfFile, |data|) <==> |rest| < 3 || (|rest| == 3 && rest != [0, 0, 1]))
            && (Parse(data, pos) == Fail(NoStartCode, pos + 4) <==>
                  |rest| >= 4 && rest[..3] != [0, 0, 1] && rest[..4] != [0, 0, 0, 1])
  {
    var rest := data[pos..];
    assert CodeEnds(rest, 3) <==> |rest| >= 3 && rest[..3] == [0, 0, 1];
    assert LongCodeEnds(rest, 4) <==> |rest| >= 4 && rest[..4] == [0, 0, 0, 1];
    assert |rest| == 3 ==> rest[..3] == rest;
  }

  /** What the splitter returns, given the next start code. */
  lemma ParseIs(data: seq<Byte>, pos: nat, b: seq<Byte>, sc: nat, e: nat, r: nat)
    requires pos + sc <= |data| && b == Bytes(data, pos) && sc == CodeLength(data, pos) > 0
    requires e == NextCode(b, sc) && e <= |b| && e <= MAX_FRAME && sc < e - r
    requires r == if LongCodeEnds(b, e) then 4 else 3
    ensures pos + e <= |data| ==> Parse(data, pos) == Nalu(b[sc], b[sc + 1..e - r], pos + e - r)
    ensures pos + e > |data| && pos + e >= |data| + 1 + r ==>
              Parse(data, pos) == Nalu(b[sc], b[sc + 1..e - r], pos + e - |data| - 1 - r)
  {
  }

  /** The start code that ends a unit lies before the end of the file or wholly behind the restart. */
  lemma CodeInOnePiece(data: seq<Byte>, pos: nat, e: nat, r: nat)
    requires pos <= |data| && r <= e && e <= |Bytes(data, pos)| && CodeEnds(Bytes(data, pos), e)
    requires r == if LongCodeEnds(Bytes(data, pos), e) then 4 else 3
    ensures pos + e <= |data| || pos + e >= |data| + 1 + r
  {
    assert Bytes(data, pos)[|data| - pos] == 0xFF;
  }
}

/** The H.264 reader as the server keeps it: a file position, a frame buffer and `static_h264`. */
module H264Reader {
  import opened H264
  import opened H264Proofs

  lemma CodeInReach(data: seq<Byte>, pos: nat)
    requires pos <= |data| && CodeLength(data, pos) > 0
    ensures var b, sc := Bytes(data, pos), CodeLength(data, pos);
            NextCode(b, sc) <= |data| + 1 + sc <= |b|
  {
    var b, sc := Bytes(data, pos), CodeLength(data, pos);
    var at := |data| + 1 + sc;
    assert b[at - 1] == data[pos + sc - 1] && b[at - 2] == data[pos + sc - 2] && b[at - 3] == data[pos + sc - 3];
    assert CodeEnds(data[pos..], sc);
    assert CodeEnds(b, at);
  }

  lemma ParseUndefined(data: seq<Byte>, pos: nat, sc: nat, n: nat, r: nat)
    requires pos <= |data| && sc == CodeLength(data, pos) > 0
    requires var b := Bytes(data, pos);
             || NextCode(b, sc) > MAX_FRAME
             || (n == NextCode(b, sc) <= |b| && n <= sc + r && r == if LongCodeEnds(b, n) then 4 else 3)
    ensures Parse(data, pos) == Fail(Undefined, pos)
  {
  }

  lemma Finished(data: seq<Byte>, pos: nat, front: seq<Byte>, sc: nat, r: nat, parsed: Parsed)
    requires pos + sc <= |data| && sc == CodeLength(data, pos) > 0 && |front| <= |Bytes(data, pos)|
    requires front == Bytes(data, pos)[..|front|] && |front| == NextCode(Bytes(data, pos), sc) <= MAX_FRAME
    requires r == (if LongCodeEnds(Bytes(data, pos), |front|) then 4 else 3) && sc + r < |front|
    requires var p := pos + |front|; p <= |data| || p >= |data| + 1 + r
    requires var p := pos + |front|;
             parsed == Nalu(front[sc], front[sc + 1..|front| - r], if p <= |data| then p - r else p - |data| - 1 - r)
    ensures parsed == Parse(data, pos)
  {
    var b := Bytes(data, pos);
    ParseIs(data, pos, b, sc, |front|, r);
    SliceOfPrefix(b, |front|, sc + 1, |front| - r);
  }

  lemma SliceOfPrefix(b: seq<Byte>, n: nat, i: nat, j: nat)
    requires i <= j <= n <= |b|
    ensures b[..n][i..j] == b[i..j]
  {
  }

  lemma NextHere(b: seq<Byte>, sc: nat, n: nat)
    requires sc < n <= |b| && NextCode(b, sc) >= n
    ensures NextCode(b, sc) == n <==> CodeEnds(b, n)
  {
  }

  lemma Appended(b: seq<Byte>, front: seq<Byte>, c: Byte)
    requires |front| < |b| && front == b[..|front|] && c == b[|front|]
    ensures front + [c] == b[..|front| + 1]
  {
  }

  /** The two start code tests on the last bytes read. */
  method Compare(buff: array<Byte>, n: nat, ghost b: seq<Byte>) returns (info3: bool, info4: bool)
    requires 4 <= n <= buff.Length && n <= |b| && buff[..n] == b[..n]
    ensures info4 <==> LongCodeEnds(b, n)
    ensures info3 <==> CodeEnds(b, n) && !info4
  {
    assert forall i :: 0 <= i < n ==> buff[..n][i] == buff[i] && b[..n][i] == b[i];
    info4 := buff[n - 4] == 0 && buff[n - 3] == 0 && buff[n - 2] == 0 && buff[n - 1] == 1;
    info3 := false;
    if !info4 {
      info3 := buff[n - 3] == 0 && buff[n - 2] == 0 && buff[n - 1] == 1;
    }
  }

  class Reader {
    const data: seq<Byte>
    const frame: real
    var pos: nat
    var eof: bool
    var header: Byte
    var buf: seq<Byte>
    var sharding: bool
    var packetNum: nat
    var lastByte: nat
    var current: nat
    var time: real

    function View(): State
      reads this
    {
      State(pos, sharding, header, buf, packetNum, lastByte, current, time)
    }

    ghost predicate Valid()
      reads this
    {
      StateOk(data, View()) && (eof ==> pos == |data|)
    }

    constructor (data: seq<Byte>, frame: real)
      ensures Valid() && this.data == data && this.frame == frame
      ensures pos == 0 && !sharding && time == 0.0
    {
      this.data, this.frame := data, frame;
      pos, eof, sharding, time := 0, false, false, 0.0;
      header, buf, packetNum, lastByte, current := 0, [], 0, 0, 0;
    }

    /** `fgetc`. */
    method GetByte() returns (c: Byte)
      requires pos <= |data|
      modifies this`pos, this`eof
      ensures old(pos) < |data| ==> c == data[old(pos)] && pos == old(pos) + 1 && eof == old(eof)
      ensures old(pos) == |data| ==> c == 0xFF && pos == |data| && eof
    {
      if pos < |data| {
        c := data[pos];
        pos := pos + 1;
      } else {
        c, eof := 0xFF, true;
      }
    }

    /** Where the file stands after `n` bytes of the search that began at `start`. */
    ghost predicate At(start: nat, n: nat)
      reads this`pos, this`eof
    {
      && start <= |data|
      && (start + n <= |data| ==> pos == start + n && !eof)
      && (start + n == |data| + 1 ==> pos == |data| && eof)
      && (start + n > |data| + 1 ==> pos == start + n - |data| - 1 && pos <= |data| && !eof)
    }

    /** The next byte of the search, reading on from the start of the file at its end. */
    method NextByte(ghost start: nat, ghost n: nat) returns (c: Byte)
      requires At(start, n) && n < |Bytes(data, start)|
      modifies this`pos, this`eof
      ensures At(start, n + 1) && c == Bytes(data, start)[n]
    {
      if eof {
        pos, eof := 0, false;
      }
      c := GetByte();
    }

    /** The first bytes of the unit: a start code of 3 or of 4 bytes. */
    method StartCode(buff: array<Byte>) returns (sc: nat, error: Error)
      requires buff.Length == MAX_FRAME && Valid()
      modifies this`pos, this`eof, buff
      ensures sc == 0 ==> Parse(data, old(pos)) == Fail(error, pos) && Valid()
      ensures sc > 0 ==> old(pos) + sc <= |data| && sc == CodeLength(data, old(pos)) && At(old(pos), sc)
      ensures sc > 0 ==> buff[..sc] == Bytes(data, old(pos))[..sc]
    {
      sc, error := 0, EndOfFile;
      ghost var start := pos;
      if |data| < pos + 3 {
        pos, eof := |data|, true;
        return;
      }
      ghost var front := data[start..];
      buff[0], buff[1], buff[2] := data[pos], data[pos + 1], data[pos + 2];
      pos := pos + 3;
      if buff[0] == 0 && buff[1] == 0 && buff[2] == 1 {
        assert CodeEnds(front, 3);
        sc := 3;
      } else {
        assert !CodeEnds(front, 3);
        if pos == |data| {
          eof := true;
          return;
        }
        buff[3] := data[pos];
        pos := pos + 1;
        if buff[0] == 0 && buff[1] == 0 && buff[2] == 0 && buff[3] == 1 {
          sc := 4;
        } else {
          error := NoStartCode;
        }
      }
    }

    /** Bytes are read into the buffer up to the next start code; `n == MAX_FRAME` if the buffer is too small. */
    method Search(buff: array<Byte>, sc: nat, ghost start: nat) returns (n: nat, info3: bool, info4: bool)
      requires buff.Length == MAX_FRAME && At(start, sc) && 3 <= sc <= 4 && start + sc <= |data|
      requires buff[..sc] == Bytes(data, start)[..sc]
      requires NextCode(Bytes(data, start), sc) <= |Bytes(data, start)|
      modifies this`pos, this`eof, this`header, this`buf, buff
      ensures sc <= n <= MAX_FRAME && n <= |Bytes(data, start)| && At(start, n) && buff[..n] == Bytes(data, start)[..n]
      ensures info3 || info4 ==>
                n == NextCode(Bytes(data, start), sc) && (info3 <==> !LongCodeEnds(Bytes(data, start), n))
      ensures !info3 && !info4 ==> NextCode(Bytes(data, start), sc) > MAX_FRAME
    {
      n, info3, info4 := sc, false, false;
      ghost var b := Bytes(data, start);
      while !info3 && !info4
        invariant sc <= n <= MAX_FRAME && n <= |b| && At(start, n)
        invariant buff[..n] == b[..n]
        invariant if info3 || info4 then NextCode(b, sc) == n else NextCode(b, sc) > n
        invariant info3 || info4 ==> (info3 <==> !LongCodeEnds(b, n))
        decreases MAX_FRAME - n, !info3 && !info4
      {
        if n == MAX_FRAME {
          return;
        }
        if eof {
          header, buf := buff[sc], buff[sc + 1..n];
        }
        var c := NextByte(start, n);
        buff[n] := c;
        n := n + 1;
        Appended(b, buff[..n - 1], c);
        assert buff[..n] == b[..n];
        info3, info4 := Compare(buff, n, b);
        NextHere(b, sc, n);
      }
    }

    /** The unit before the start code that was found, and the file position back at that start code. */
    method TakeNalu(buff: array<Byte>, sc: nat, n: nat, rewind: nat, ghost start: nat) returns (r: Parsed)
      requires buff.Length == MAX_FRAME && At(start, n) && start + sc <= |data| && sc == CodeLength(data, start) > 0
      requires n <= |Bytes(data, start)| && n <= MAX_FRAME && buff[..n] == Bytes(data, start)[..n]
      requires n == NextCode(Bytes(data, start), sc) && sc + rewind < n
      requires rewind == if LongCodeEnds(Bytes(data, start), n) then 4 else 3
      modifies this`pos, this`eof, this`header, this`buf
      ensures r.Nalu? && r == Parse(data, start)
      ensures pos == r.pos <= |data| && !eof && header == r.header && buf == r.payload
    {
      CodeInOnePiece(data, start, n, rewind);
      pos, eof := pos - rewind, false;
      var front := buff[..n];
      header, buf := front[sc], front[sc + 1..n - rewind];
      r := Nalu(header, buf, pos);
      Finished(data, start, front, sc, rewind, r);
    }

    /** `get_one_NALU_payload`; the source has no guard where this returns `Undefined`. */
    method GetNalu() returns (r: Parsed)
      requires Valid() && !sharding
      modifies this`pos, this`eof, this`header, this`buf
      ensures r == Parse(data, old(pos))
      ensures r.Fail? && r.error != Undefined ==> Valid() && View() == old(View()).(pos := r.pos)
      ensures r.Nalu? ==> Valid() && View() == old(View()).(pos := r.pos, header := r.header, buf := r.payload)
    {
      var start := pos;
      var buff := new Byte[MAX_FRAME];
      var sc, error := StartCode(buff);
      if sc == 0 {
        return Fail(error, pos);
      }
      CodeInReach(data, start);
      var n, info3, info4 := Search(buff, sc, start);
      var rewind := if info3 then 3 else 4;
      if (!info3 && !info4) || n <= sc + rewind {
        ParseUndefined(data, start, sc, n, rewind);
        return Fail(Undefined, start);
      }
      r := TakeNalu(buff, sc, n, rewind, start);
    }

    /** Fragment `current` of the unit in `buf`. */
    method NextFragment(size: nat, start: bool, end: bool) returns (p: seq<Byte>)
      requires current * UDP_MAX + size <= |buf|
      ensures p == Fragment(View(), current * UDP_MAX, current * UDP_MAX + size, start, end)
    {
      p := [FuIndicator(header), FuHeader(header, start, end)] + buf[current * UDP_MAX..current * UDP_MAX + size];
    }

    /** `read_h264` while a unit is being fragmented. */
    method SendFragment() returns (o: Output)
      requires Valid() && sharding
      modifies this`sharding, this`current
      ensures Valid() && (View(), o) == Read(data, old(View()), frame)
    {
      if current < packetNum {
        assert (current + 1) * UDP_MAX <= packetNum * UDP_MAX;
        var p := NextFragment(UDP_MAX, false, false);
        o := Sent(Packet(p, false, time, true));
        current := current + 1;
      } else {
        var p := NextFragment(lastByte, false, true);
        sharding := false;
        o := Sent(Packet(p, true, time, true));
      }
    }

    /** `read_h264`; nothing is claimed for inputs on which the splitter overruns its buffer. */
    method ReadH264() returns (o: Output)
      requires Valid()
      modifies this
      ensures old(sharding) || Parse(data, old(pos)) != Fail(Undefined, old(pos)) ==>
                Valid() && (View(), o) == Read(data, old(View()), frame)
    {
      if sharding {
        o := SendFragment();
        return;
      }
      var parsed := GetNalu();
      if parsed.Fail? || |buf| == 0 {
        return Ended;
      }
      time := time + frame;
      if |buf| <= UDP_MAX {
        o := Sent(Packet([ClearForbidden(header)] + buf, true, time, false));
      } else {
        sharding, packetNum, lastByte, current := true, |buf| / UDP_MAX, |buf| % UDP_MAX, 0;
        var p := NextFragment(UDP_MAX, true, false);
        o := Sent(Packet(p, false, time, true));
        current := current + 1;
      }
    }
  }
}

/** Whole streams: splitting, packetising and receiving gives the NAL units back. */
module H264Stream {
  import opened H264
  import opened H264Proofs

  // ---------------------------------------------------------------- repeated calls

  /** A `read_h264` call in state `s` sends `p` and leaves state `t`. */
  ghost predicate Sends(data: seq<Byte>, frame: real, s: State, p: Packet, t: State) {
    StateOk(data, s) && Read(data, s, frame) == (t, Sent(p))
  }

  /** The states `ss` are those before and after the calls that send `ps`. */
  ghost predicate Trace(data: seq<Byte>, frame: real, ss: seq<State>, ps: seq<Packet>) {
    |ss| == |ps| + 1 && forall i {:trigger ps[i]} :: 0 <= i < |ps| ==> Sends(data, frame, ss[i], ps[i], ss[i + 1])
  }

  /** Repeated `read_h264` calls from `s` send exactly `ps` and end in `t`. */
  ghost predicate Runs(data: seq<Byte>, s: State, frame: real, ps: seq<Packet>, t: State) {
    exists ss :: Trace(data, frame, ss, ps) && ss[0] == s && ss[|ps|] == t
  }

  lemma RunsNothing(data: seq<Byte>, s: State, frame: real)
    ensures Runs(data, s, frame, [], s)
  {
    assert Trace(data, frame, [s], []);
  }

  lemma RunsConcat(data: seq<Byte>, s: State, frame: real, ps: seq<Packet>, t: State, qs: seq<Packet>, u: State)
    requires Runs(data, s, frame, ps, t) && Runs(data, t, frame, qs, u)
    ensures Runs(data, s, frame, ps + qs, u)
  {
    var a :| Trace(data, frame, a, ps) && a[0] == s && a[|ps|] == t;
    var b :| Trace(data, frame, b, qs) && b[0] == t && b[|qs|] == u;
    var c, r := a + b[1..], ps + qs;
    forall i | 0 <= i < |r| ensures Sends(data, frame, c[i], r[i], c[i + 1]) {
      if i < |ps| {
        assert Sends(data, frame, a[i], ps[i], a[i + 1]);
      } else {
        assert Sends(data, frame, b[i - |ps|], qs[i - |ps|], b[i - |ps| + 1]);
      }
    }
    assert Trace(data, frame, c, r) && c[0] == s && c[|r|] == u;
  }

  lemma RunsOneMore(data: seq<Byte>, s: State, frame: real, p: Packet, m: State, ps: seq<Packet>, t: State)
    requires Sends(data, frame, s, p, m) && Runs(data, m, frame, ps, t)
    ensures Runs(data, s, frame, [p] + ps, t)
  {
    assert Trace(data, frame, [s, m], [p]);
    RunsConcat(data, s, frame, [p], m, ps, t);
  }

  /** The rest of a NAL unit that is being fragmented. */
  lemma {:induction false} RunsFragments(data: seq<Byte>, s: State, frame: real)
    requires StateOk(data, s) && s.sharding
    ensures Runs(data, s, frame, Packets(s.header, s.buf, s.time)[s.current..],
                 s.(sharding := false, current := s.packetNum))
    decreases s.packetNum - s.current
  {
    var ps, i := Packets(s.header, s.buf, s.time), s.current;
    var next := Read(data, s, frame).0;
    assert ps[i] == FragmentAt(s.header, s.buf, i, s.time);
    assert Sends(data, frame, s, ps[i], next);
    assert ps[i..] == [ps[i]] + ps[i + 1..];
    if i < s.packetNum {
      RunsFragments(data, next, frame);
    } else {
      assert ps[i + 1..] == [];
      RunsNothing(data, next, frame);
    }
    RunsOneMore(data, s, frame, ps[i], next, ps[i + 1..], s.(sharding := false, current := s.packetNum));
  }

  /** A call that finds no start code only moves the position: to the end, or four bytes on. */
  lemma ReadFails(data: seq<Byte>, s: State, frame: real)
    requires StateOk(data, s) && !s.sharding
    ensures var rest := data[s.pos..];
            && (|rest| < 3 || (|rest| == 3 && rest != [0, 0, 1]) ==> Read(data, s, frame) == (s.(pos := |data|), Ended))
            && (|rest| >= 4 && rest[..3] != [0, 0, 1] && rest[..4] != [0, 0, 0, 1] ==>
                  Read(data, s, frame) == (s.(pos := s.pos + 4), Ended))
  {
    ParseFails(data, s.pos);
  }

  /** A parsed NAL unit is sent as its packets, one frame later than the previous one. */
  lemma RunsUnit(data: seq<Byte>, s: State, frame: real) returns (t: State)
    requires StateOk(data, s) && !s.sharding
    requires Parse(data, s.pos).Nalu? && Parse(data, s.pos).payload != [] && Parse(data, s.pos).pos <= |data|
    ensures var n := Parse(data, s.pos);
            && t.time == s.time + frame && Runs(data, s, frame, Packets(n.header, n.payload, t.time), t)
            && StateOk(data, t) && !t.sharding && t.pos == n.pos
  {
    if |Parse(data, s.pos).payload| <= UDP_MAX {
      t := RunsSingle(data, s, frame);
    } else {
      t := RunsFragmented(data, s, frame);
    }
  }

  lemma RunsSingle(data: seq<Byte>, s: State, frame: real) returns (t: State)
    requires StateOk(data, s) && !s.sharding
    requires Parse(data, s.pos).Nalu? && 0 < |Parse(data, s.pos).payload| <= UDP_MAX && Parse(data, s.pos).pos <= |data|
    ensures var n := Parse(data, s.pos);
            && t.time == s.time + frame && Runs(data, s, frame, Packets(n.header, n.payload, t.time), t)
            && StateOk(data, t) && !t.sharding && t.pos == n.pos
  {
    var n := Parse(data, s.pos);
    t := Read(data, s, frame).0;
    var ps := Packets(n.header, n.payload, t.time);
    RunsNothing(data, t, frame);
    RunsOneMore(data, s, frame, ps[0], t, [], t);
    assert ps == [ps[0]] + [];
  }

  lemma RunsFragmented(data: seq<Byte>, s: State, frame: real) returns (t: State)
    requires StateOk(data, s) && !s.sharding
    requires Parse(data, s.pos).Nalu? && |Parse(data, s.pos).payload| > UDP_MAX && Parse(data, s.pos).pos <= |data|
    ensures var n := Parse(data, s.pos);
            && t.time == s.time + frame && Runs(data, s, frame, Packets(n.header, n.payload, t.time), t)
            && StateOk(data, t) && !t.sharding && t.pos == n.pos
  {
    var n := Parse(data, s.pos);
    var m := Read(data, s, frame).0;
    var ps := Packets(n.header, n.payload, m.time);
    FirstFragment(data, s, frame);
    RunsFragments(data, m, frame);
    t := m.(sharding := false, current := m.packetNum);
    RunsOneMore(data, s, frame, ps[0], m, ps[1..], t);
    assert ps == [ps[0]] + ps[1..];
  }

  lemma FirstFragment(data: seq<Byte>, s: State, frame: real)
    requires StateOk(data, s) && !s.sharding
    requires Parse(data, s.pos).Nalu? && |Parse(data, s.pos).payload| > UDP_MAX && Parse(data, s.pos).pos <= |data|
    ensures var n, t := Parse(data, s.pos), Read(data, s, frame).0;
            && StateOk(data, t) && t.sharding && t.current == 1
            && t.header == n.header && t.buf == n.payload && t.time == s.time + frame && t.pos == n.pos
            && Read(data, s, frame).1 == Sent(Packets(n.header, n.payload, t.time)[0])
  {
    var n, t := Parse(data, s.pos), Read(data, s, frame).0;
    assert Packets(n.header, n.payload, t.time)[0] == FragmentAt(n.header, n.payload, 0, t.time);
  }

  // ---------------------------------------------------------------- streams

  /** A NAL unit behind a 3- or a 4-byte start code. */
  datatype Unit = Unit(long: bool, nal: seq<Byte>)

  function Code(long: bool): seq<Byte> { if long then [0, 0, 0, 1] else [0, 0, 1] }

  function Serial(u: Unit): seq<Byte> { Code(u.long) + u.nal }

  function Stream(us: seq<Unit>): seq<Byte> {
    if us == [] then [] else Stream(us[..|us| - 1]) + Serial(us[|us| - 1])
  }

  /** No start code inside, and not ending in a zero byte. */
  predicate UnitOk(u: Unit) {
    && 1 <= |u.nal| && u.nal[|u.nal| - 1] != 0
    && forall e :: 0 <= e <= |u.nal| ==> !CodeEnds(u.nal, e)
  }

  /** The unit between its own and the next start code fits into the frame buffer. */
  predicate Fits(u: Unit, long: bool) { |Serial(u)| + |Code(long)| <= 100000 }

  /** Unit `i` is fit for the splitter, is followed by another unit, and is more than a header. */
  predicate UnitAt(us: seq<Unit>, i: nat) {
    i + 1 < |us| && UnitOk(us[i]) && |us[i].nal| >= 2 && Fits(us[i], us[i + 1].long)
  }

  predicate UnitsOk(us: seq<Unit>, k: nat) {
    k < |us| && forall i :: 0 <= i < k ==> UnitAt(us, i)
  }

  lemma UnitsOkAt(us: seq<Unit>, k: nat, i: nat)
    requires UnitsOk(us, k) && i < k
    ensures UnitOk(us[i]) && |us[i].nal| >= 2 && Fits(us[i], us[i + 1].long)
  {
    assert UnitAt(us, i);
  }

  lemma UnitsOkBelow(us: seq<Unit>, k: nat)
    requires 0 < k && UnitsOk(us, k)
    ensures UnitsOk(us, k - 1) && |us[k - 1].nal| >= 2
  {
    assert UnitAt(us, k - 1);
  }

  /** In code, unit, code: no start code ends before the second code does. */
  lemma NoEarlierCode(u: Unit, long: bool, rest: seq<Byte>, e: nat)
    requires UnitOk(u) && |Code(u.long)| < e < |Serial(u)| + |Code(long)|
    ensures !CodeEnds(Serial(u) + Code(long) + rest, e)
  {
    var b, sc := Serial(u) + Code(long) + rest, |Code(u.long)|;
    assert forall i :: sc <= i < sc + |u.nal| ==> b[i] == u.nal[i - sc];
    assert b[sc - 1] == 1 && b[sc + |u.nal| - 1] != 0;
    if sc + 3 <= e <= sc + |u.nal| {
      assert !CodeEnds(u.nal, e - sc);
    }
  }

  lemma NextCodeIs(b: seq<Byte>, k: nat, e: nat)
    requires k < e && CodeEnds(b, e) && forall i :: k < i < e ==> !CodeEnds(b, i)
    ensures NextCode(b, k) == e
  {
  }

  /** `b` starts with a start code and `u`, and the first start code after them is right behind. */
  ghost predicate Located(b: seq<Byte>, u: Unit, long: bool)
    requires u.nal != []
  {
    var sc, e := |Code(u.long)|, |Serial(u)| + |Code(long)|;
    && e <= |b| && NextCode(b, sc) == e && (LongCodeEnds(b, e) <==> long)
    && b[sc] == u.nal[0] && b[sc + 1..|Serial(u)|] == u.nal[1..]
  }

  /** The first start code after a unit is the one that follows it, with its length recognised. */
  lemma CodeAfterUnit(u: Unit, long: bool, rest: seq<Byte>)
    requires UnitOk(u)
    ensures Located(Serial(u) + Code(long) + rest, u, long)
  {
    var b, e := Serial(u) + Code(long) + rest, |Serial(u)| + |Code(long)|;
    forall i | |Code(u.long)| < i < e ensures !CodeEnds(b, i) { NoEarlierCode(u, long, rest, i); }
    assert b[e - 1] == 1 && b[e - 2] == 0 && b[e - 3] == 0;
    NextCodeIs(b, |Code(u.long)|, e);
    assert b[|Serial(u)| - 1] == u.nal[|u.nal| - 1];
    UnitInside(u, Code(long), rest);
  }

  lemma UnitInside(u: Unit, code: seq<Byte>, rest: seq<Byte>)
    requires u.nal != []
    ensures var b, sc := Serial(u) + code + rest, |Code(u.long)|;
            b[sc] == u.nal[0] && b[sc + 1..|Serial(u)|] == u.nal[1..]
  {
  }

  lemma CodeLengthOf(pre: seq<Byte>, u: Unit, rest: seq<Byte>)
    ensures CodeLength(pre + (Serial(u) + rest), |pre|) == |Code(u.long)|
  {
    var data := pre + (Serial(u) + rest);
    assert data[|pre|..] == Serial(u) + rest;
  }

  lemma BytesAt(pre: seq<Byte>, u: Unit, long: bool, rest: seq<Byte>)
    ensures var data := pre + (Serial(u) + (Code(long) + rest));
            && Bytes(data, |pre|) == Serial(u) + Code(long) + (rest + [0xFF] + data)
            && CodeLength(data, |pre|) == |Code(u.long)|
  {
    var data := pre + (Serial(u) + (Code(long) + rest));
    CodeLengthOf(pre, u, Code(long) + rest);
    assert data[|pre|..] == Serial(u) + (Code(long) + rest);
    Regroup(Serial(u), Code(long), rest + [0xFF] + data);
    assert data[|pre|..] + [0xFF] + data == Serial(u) + (Code(long) + (rest + [0xFF] + data));
  }

  /**
   The splitter returns a unit that is followed by a start code exactly, and stops before that
   code, if it fits into the buffer; otherwise it runs over the buffer.
   */
  lemma ParseUnit(pre: seq<Byte>, u: Unit, long: bool, rest: seq<Byte>)
    requires UnitOk(u)
    ensures var data := pre + (Serial(u) + (Code(long) + rest));
            Parse(data, |pre|) == if Fits(u, long) then Nalu(u.nal[0], u.nal[1..], |pre| + |Serial(u)|)
                                  else Fail(Undefined, |pre|)
  {
    var data := pre + (Serial(u) + (Code(long) + rest));
    BytesAt(pre, u, long, rest);
    CodeAfterUnit(u, long, rest + [0xFF] + data);
    ParseLocated(data, |pre|, u, long);
  }

  lemma ParseLocated(data: seq<Byte>, pos: nat, u: Unit, long: bool)
    requires u.nal != [] && pos + |Serial(u)| + |Code(long)| <= |data|
    requires Located(Bytes(data, pos), u, long) && CodeLength(data, pos) == |Code(u.long)|
    ensures Parse(data, pos) == if Fits(u, long) then Nalu(u.nal[0], u.nal[1..], pos + |Serial(u)|)
                                else Fail(Undefined, pos)
  {
    ParseInside(data, pos, Bytes(data, pos), |Code(u.long)|, |Serial(u)|, |Code(long)|);
  }

  /** The start code that ends the unit is before the end of the file. */
  lemma ParseInside(data: seq<Byte>, pos: nat, b: seq<Byte>, sc: nat, end: nat, r: nat)
    requires pos + end + r <= |data| && b == Bytes(data, pos) && 0 < sc == CodeLength(data, pos)
    requires end + r == NextCode(b, sc) && sc < end && r == if LongCodeEnds(b, end + r) then 4 else 3
    ensures end + r <= |b|
    ensures Parse(data, pos) == if end + r <= MAX_FRAME then Nalu(b[sc], b[sc + 1..end], pos + end)
                                else Fail(Undefined, pos)
  {
    if end + r <= MAX_FRAME {
      ParseIs(data, pos, b, sc, end + r, r);
    } else {
      ParseTooLong(data, pos, sc);
    }
  }

  lemma ParseTooLong(data: seq<Byte>, pos: nat, sc: nat)
    requires pos + sc <= |data| && sc == CodeLength(data, pos) > 0 && NextCode(Bytes(data, pos), sc) > MAX_FRAME
    ensures Parse(data, pos) == Fail(Undefined, pos)
  {
  }

  /** The unit with the byte the splitter makes of the end of the file. */
  function Longer(u: Unit): Unit { Unit(u.long, u.nal + [0xFF]) }

  /** At the end of the file the last unit comes back with one spurious byte, and the file restarts. */
  lemma ParseLast(pre: seq<Byte>, u: Unit, long: bool, rest: seq<Byte>)
    requires UnitOk(u) && Fits(Longer(u), long) && pre + Serial(u) == Code(long) + rest
    ensures Parse(pre + Serial(u), |pre|) == Nalu(u.nal[0], u.nal[1..] + [0xFF], 0)
  {
    var v := Longer(u);
    LastBytes(pre, u, v, long, rest);
    SpuriousByteOk(u);
    CodeAfterUnit(v, long, rest);
    TailOfLonger(u.nal, 0xFF);
    RestartLocated(pre + Serial(u), |pre|, v, long);
  }

  lemma RestartLocated(data: seq<Byte>, pos: nat, v: Unit, long: bool)
    requires v.nal != [] && pos + |Code(v.long)| <= |data| && pos + |Serial(v)| == |data| + 1 && Fits(v, long)
    requires Located(Bytes(data, pos), v, long) && CodeLength(data, pos) == |Code(v.long)|
    ensures Parse(data, pos) == Nalu(v.nal[0], v.nal[1..], 0)
  {
    ParseAtRestart(data, pos, Bytes(data, pos), |Code(v.long)|, |Serial(v)|, |Code(long)|);
  }

  /** The start code that ends the unit is the first thing after the restart. */
  lemma ParseAtRestart(data: seq<Byte>, pos: nat, b: seq<Byte>, sc: nat, end: nat, r: nat)
    requires 0 < sc && pos + sc <= |data| && pos + end == |data| + 1 && b == Bytes(data, pos)
             && sc == CodeLength(data, pos)
    requires end + r == NextCode(b, sc) && end + r <= |b| && end + r <= MAX_FRAME && sc < end
    requires r == if LongCodeEnds(b, end + r) then 4 else 3
    ensures Parse(data, pos) == Nalu(b[sc], b[sc + 1..end], 0)
  {
    ParseIs(data, pos, b, sc, end + r, r);
  }

  lemma TailOfLonger(nal: seq<Byte>, x: Byte)
    requires nal != []
    ensures (nal + [x])[0] == nal[0] && (nal + [x])[1..] == nal[1..] + [x]
  {
  }

  lemma LastBytes(pre: seq<Byte>, u: Unit, v: Unit, long: bool, rest: seq<Byte>)
    requires v == Unit(u.long, u.nal + [0xFF]) && pre + Serial(u) == Code(long) + rest
    ensures Bytes(pre + Serial(u), |pre|) == Serial(v) + Code(long) + rest
    ensures CodeLength(pre + Serial(u), |pre|) == |Code(u.long)|
  {
    var data := pre + Serial(u);
    assert data[|pre|..] == Serial(u);
    assert Serial(u) + [0xFF] == Serial(v);
    assert Serial(v) + (Code(long) + rest) == Serial(v) + Code(long) + rest;
  }

  lemma SpuriousByteOk(u: Unit)
    requires UnitOk(u)
    ensures UnitOk(Longer(u))
  {
    var nal := u.nal + [0xFF];
    forall e | 0 <= e <= |nal| ensures !CodeEnds(nal, e) {
      if e <= |u.nal| {
        assert !CodeEnds(u.nal, e);
      }
    }
  }

  // ---------------------------------------------------------------- end to end

  lemma Regroup<T>(a: seq<T>, b: seq<T>, c: seq<T>)
    ensures a + b + c == a + (b + c)
  {
  }

  lemma SplitAt<T>(a: seq<T>, k: nat)
    requires k < |a|
    ensures a == a[..k] + a[k..] && a[k..] == [a[k]] + a[k + 1..] && a[..k + 1] == a[..k] + [a[k]]
  {
  }

  lemma StreamOneMore(us: seq<Unit>, u: Unit)
    ensures Stream(us + [u]) == Stream(us) + Serial(u)
  {
    assert (us + [u])[..|us|] == us;
  }

  lemma {:induction false} StreamConcat(us: seq<Unit>, vs: seq<Unit>)
    ensures Stream(us + vs) == Stream(us) + Stream(vs)
    decreases |vs|
  {
    if vs == [] {
      assert us + vs == us;
    } else {
      var n := |vs| - 1;
      StreamConcat(us, vs[..n]);
      SplitAt(vs, n);
      StreamOneMore(vs[..n], vs[n]);
      Regroup(us, vs[..n], [vs[n]]);
      StreamOneMore(us + vs[..n], vs[n]);
      Regroup(Stream(us), Stream(vs[..n]), Serial(vs[n]));
      assert vs == vs[..n] + [vs[n]];
    }
  }

  /** A nonempty stream starts with the start code of its first unit. */
  lemma StreamHead(us: seq<Unit>) returns (rest: seq<Byte>)
    requires us != []
    ensures Stream(us) == Code(us[0].long) + rest
  {
    StreamConcat([us[0]], us[1..]);
    SplitAt(us, 0);
    assert [us[0]] + us[1..] == us;
    rest := us[0].nal + Stream(us[1..]);
    StreamOneMore([], us[0]);
    assert [] + [us[0]] == [us[0]];
    assert Stream([us[0]]) == Serial(us[0]);
    Regroup(Code(us[0].long), us[0].nal, Stream(us[1..]));
  }

  /** The stream around unit `k`, which is not the last. */
  lemma StreamAround(us: seq<Unit>, k: nat) returns (rest: seq<Byte>)
    requires k + 1 < |us|
    ensures Stream(us) == Stream(us[..k]) + (Serial(us[k]) + (Code(us[k + 1].long) + rest))
    ensures Stream(us[..k + 1]) == Stream(us[..k]) + Serial(us[k])
  {
    rest := StreamHead(us[k + 1..]);
    StreamConcat(us[..k + 1], us[k + 1..]);
    SplitAt(us, k);
    SplitAt(us, k + 1);
    StreamOneMore(us[..k], us[k]);
    Regroup(Stream(us[..k]), Serial(us[k]), Code(us[k + 1].long) + rest);
  }

  /** The media clock after `k` frames. */
  function Clock(time: real, frame: real, k: nat): real {
    if k == 0 then time else Clock(time, frame, k - 1) + frame
  }

  /** All packets of `us`, one frame apart. */
  function AllPackets(us: seq<Unit>, time: real, frame: real): seq<Packet> {
    if us == [] then []
    else AllPackets(us[..|us| - 1], time, frame) + UnitPackets(us[|us| - 1], Clock(time, frame, |us|))
  }

  function UnitPackets(u: Unit, time: real): seq<Packet> {
    if u.nal == [] then [] else Packets(u.nal[0], u.nal[1..], time)
  }

  lemma AllPacketsOneMore(us: seq<Unit>, k: nat, time: real, frame: real, last: real)
    requires 0 < k <= |us| && last == Clock(time, frame, k)
    ensures AllPackets(us[..k], time, frame) == AllPackets(us[..k - 1], time, frame) + UnitPackets(us[k - 1], last)
  {
    assert us[..k][..k - 1] == us[..k - 1];
  }

  /** A unit followed by another start code is sent as its packets. */
  lemma RunsUnitAt(us: seq<Unit>, k: nat, s: State, frame: real) returns (t: State)
    requires k + 1 < |us| && UnitsOk(us, k + 1) && s.pos == |Stream(us[..k])| && !s.sharding
    ensures t.time == s.time + frame && Runs(Stream(us), s, frame, UnitPackets(us[k], t.time), t)
    ensures StateOk(Stream(us), t) && t.pos == |Stream(us[..k + 1])| && !t.sharding
  {
    var rest := StreamAround(us, k);
    UnitsOkAt(us, k + 1, k);
    ParseUnit(Stream(us[..k]), us[k], us[k + 1].long, rest);
    t := RunsUnit(Stream(us), s, frame);
  }

  /** Sending unit `k` after the first `k` units. */
  lemma SplitterStep(us: seq<Unit>, s: State, frame: real, k: nat, m: State) returns (t: State)
    requires k + 1 < |us| && UnitsOk(us, k + 1) && m.pos == |Stream(us[..k])| && !m.sharding
             && m.time == Clock(s.time, frame, k)
    requires Runs(Stream(us), s, frame, AllPackets(us[..k], s.time, frame), m)
    ensures Runs(Stream(us), s, frame, AllPackets(us[..k + 1], s.time, frame), t)
    ensures StateOk(Stream(us), t) && t.pos == |Stream(us[..k + 1])| && !t.sharding
            && t.time == Clock(s.time, frame, k + 1)
  {
    t := RunsUnitAt(us, k, m, frame);
    AllPacketsOneMore(us, k + 1, s.time, frame, t.time);
    RunsConcat(Stream(us), s, frame, AllPackets(us[..k], s.time, frame), m, UnitPackets(us[k], t.time), t);
  }

  lemma {:induction false} SplitterRuns(us: seq<Unit>, s: State, frame: real, k: nat) returns (t: State)
    requires k < |us| && UnitsOk(us, k) && s.pos == 0 && !s.sharding
    ensures Runs(Stream(us), s, frame, AllPackets(us[..k], s.time, frame), t)
    ensures StateOk(Stream(us), t) && t.pos == |Stream(us[..k])| && !t.sharding && t.time == Clock(s.time, frame, k)
  {
    if k == 0 {
      t := s;
      assert us[..0] == [];
      RunsNothing(Stream(us), s, frame);
    } else {
      UnitsOkBelow(us, k);
      var m := SplitterRuns(us, s, frame, k - 1);
      t := SplitterStep(us, s, frame, k - 1, m);
    }
  }

  /** The unit as it is sent: without the forbidden bit. */
  function AsSent(nal: seq<Byte>): seq<Byte> {
    if nal == [] then [] else [ClearForbidden(nal[0])] + nal[1..]
  }

  lemma AsSentExact(nal: seq<Byte>)
    requires nal != []
    ensures AsSent(nal) == nal <==> nal[0] & 0x80 == 0
    ensures |AsSent(nal)| == |nal| && AsSent(nal)[1..] == nal[1..]
    ensures AsSent(nal)[0] & 0x7F == nal[0] & 0x7F && AsSent(nal)[0] & 0x80 == 0
  {
    assert ClearForbidden(nal[0]) & 0x7F == nal[0] & 0x7F && ClearForbidden(nal[0]) & 0x80 == 0;
    assert ClearForbidden(nal[0]) == nal[0] <==> nal[0] & 0x80 == 0;
    assert nal == [nal[0]] + nal[1..];
  }

  lemma {:induction false} ReceiveAllConcat(r: Receiver, ps: seq<Packet>, qs: seq<Packet>)
    ensures ReceiveAll(r, ps + qs) == ReceiveAll(ReceiveAll(r, ps), qs)
    decreases |qs|
  {
    if qs == [] {
      assert ps + qs == ps;
    } else {
      var n := |qs| - 1;
      ReceiveAllConcat(r, ps, qs[..n]);
      assert (ps + qs)[..|ps + qs| - 1] == ps + qs[..n];
    }
  }

  /** A receiver that has put together exactly the units `us`, in order. */
  function Holding(us: seq<Unit>): Receiver {
    Receiver(seq(|us|, i requires 0 <= i < |us| => AsSent(us[i].nal)), [])
  }

  function Received(ps: seq<Packet>): Receiver { ReceiveAll(Receiver([], []), ps) }

  /** More than a header, and a unit a receiver can tell. */
  predicate CanArrive(u: Unit) { |u.nal| >= 2 && Receivable(u.nal[0], u.nal[1..]) }

  lemma HoldingOneMore(us: seq<Unit>, u: Unit)
    requires u.nal != []
    ensures Holding(us + [u]) == Receiver(Holding(us).done + [[ClearForbidden(u.nal[0])] + u.nal[1..]], [])
  {
    assert Holding(us + [u]).done == Holding(us).done + [[ClearForbidden(u.nal[0])] + u.nal[1..]];
  }

  lemma ReceiveUnit(r: Receiver, us: seq<Unit>, u: Unit, time: real)
    requires r == Holding(us) && |u.nal| >= 2
    ensures ReceiveAll(r, UnitPackets(u, time)) == Holding(us + [u]) <==> CanArrive(u)
  {
    ReceivePackets(r, u.nal[0], u.nal[1..], time);
    HoldingOneMore(us, u);
  }

  /** What a receiver can have put together from `k` units. */
  ghost predicate AtMost(r: Receiver, k: nat) {
    |r.done| <= k && (|r.done| == k ==> r.partial == [])
  }

  lemma ReceiveOneMore(ps: seq<Packet>, us: seq<Unit>, u: Unit, time: real)
    requires |u.nal| >= 2 && AtMost(Received(ps), |us|)
    ensures AtMost(Received(ps + UnitPackets(u, time)), |us| + 1)
    ensures Received(ps + UnitPackets(u, time)) == Holding(us + [u]) <==> Received(ps) == Holding(us) && CanArrive(u)
  {
    ReceiveAllConcat(Receiver([], []), ps, UnitPackets(u, time));
    var r, r' := Received(ps), ReceiveAll(Received(ps), UnitPackets(u, time));
    YieldsAtMostOne(r, u.nal[0], u.nal[1..], time);
    if r == Holding(us) {
      ReceiveUnit(r, us, u, time);
    } else if r' == Holding(us + [u]) {
      HoldingOneMore(us, u);
      PrefixHeld(r, r', us, u);
    }
  }

  lemma PrefixHeld(r: Receiver, r': Receiver, us: seq<Unit>, u: Unit)
    requires AtMost(r, |us|) && u.nal != [] && r' == Holding(us + [u])
    requires r'.done == r.done || (exists x: seq<Byte> :: r' == Receiver(r.done + [x], []))
    ensures r == Holding(us)
  {
    HoldingOneMore(us, u);
    assert |r'.done| == |us| + 1;
    var x: seq<Byte> :| r' == Receiver(r.done + [x], []);
    assert r.done == r'.done[..|us|] && Holding(us).done == r'.done[..|us|];
  }

  /** All of the first `k` units can arrive. */
  predicate AllArrive(us: seq<Unit>, k: nat) {
    k <= |us| && forall i {:trigger CanArrive(us[i])} :: 0 <= i < k ==> CanArrive(us[i])
  }

  lemma AllArriveMore(us: seq<Unit>, k: nat)
    requires 0 < k <= |us|
    ensures AllArrive(us, k) <==> AllArrive(us, k - 1) && CanArrive(us[k - 1])
  {
  }

  lemma {:induction false} ReceiveStream(us: seq<Unit>, k: nat, time: real, frame: real)
    requires UnitsOk(us, k)
    ensures AtMost(Received(AllPackets(us[..k], time, frame)), k)
    ensures Received(AllPackets(us[..k], time, frame)) == Holding(us[..k]) <==> AllArrive(us, k)
  {
    if k > 0 {
      UnitsOkBelow(us, k);
      AllArriveMore(us, k);
      ReceiveStream(us, k - 1, time, frame);
      AllPacketsOneMore(us, k, time, frame, Clock(time, frame, k));
      ReceiveOneMore(AllPackets(us[..k - 1], time, frame), us[..k - 1], us[k - 1], Clock(time, frame, k));
      SplitAt(us, k - 1);
    }
  }

  /**
   Round trip: for every stream of units behind any mix of 3- and 4-byte start codes, repeated
   `read_h264` calls followed by an RFC 6184 receiver give back the units that are followed by
   another start code, in order and byte for byte up to the forbidden bit, if and only if the
   receiver can tell each of them.
   */
  lemma RoundTrip(us: seq<Unit>, s: State, frame: real) returns (ps: seq<Packet>, t: State)
    requires us != [] && s.pos == 0 && !s.sharding
    requires UnitsOk(us, |us| - 1)
    ensures Runs(Stream(us), s, frame, ps, t)
    ensures Received(ps) == Holding(us[..|us| - 1]) <==> AllArrive(us, |us| - 1)
    ensures AtMost(Received(ps), |us| - 1)
    ensures StateOk(Stream(us), t) && t.pos == |Stream(us[..|us| - 1])| && !t.sharding
  {
    var k := |us| - 1;
    t := SplitterRuns(us, s, frame, k);
    ps := AllPackets(us[..k], s.time, frame);
    ReceiveStream(us, k, s.time, frame);
  }

  /** The last unit of the file is fit for the splitter, which finds the first start code after it. */
  predicate LastOk(us: seq<Unit>) {
    us != [] && UnitOk(us[|us| - 1]) && Fits(Longer(us[|us| - 1]), us[0].long)
  }

  /** The last unit is sent with a spurious final byte, and reading starts over. */
  lemma RunsLast(us: seq<Unit>, s: State, frame: real) returns (t: State)
    requires LastOk(us) && !s.sharding && s.pos == |Stream(us[..|us| - 1])|
    ensures Runs(Stream(us), s, frame, UnitPackets(Longer(us[|us| - 1]), t.time), t)
    ensures StateOk(Stream(us), t) && t.pos == 0 && !t.sharding
  {
    var u := us[|us| - 1];
    var rest := StreamHead(us);
    ParseLast(Stream(us[..|us| - 1]), u, us[0].long, rest);
    TailOfLonger(u.nal, 0xFF);
    t := RunsUnit(Stream(us), s, frame);
  }

  /** The whole file: every unit comes back, the last one with a spurious final byte, and reading starts over. */
  lemma WholeFile(us: seq<Unit>, s: State, frame: real) returns (ps: seq<Packet>, t: State)
    requires us != [] && s.pos == 0 && !s.sharding
    requires UnitsOk(us, |us| - 1) && LastOk(us)
    ensures Runs(Stream(us), s, frame, ps, t) && StateOk(Stream(us), t) && t.pos == 0 && !t.sharding
    ensures Received(ps) == Holding(us[..|us| - 1] + [Longer(us[|us| - 1])])
            <==> AllArrive(us, |us| - 1) && CanArrive(Longer(us[|us| - 1]))
  {
    var front, m := RoundTrip(us, s, frame);
    t := RunsLast(us, m, frame);
    var v := Longer(us[|us| - 1]);
    ps := front + UnitPackets(v, t.time);
    RunsConcat(Stream(us), s, frame, front, m, UnitPackets(v, t.time), t);
    ReceiveOneMore(front, us[..|us| - 1], v, t.time);
  }

  /** A unit that is only a header ends the stream there: the units before it are sent, and no others. */
  lemma HeaderOnlyEnds(us: seq<Unit>, k: nat, s: State, frame: real) returns (ps: seq<Packet>, t: State)
    requires UnitsOk(us, k) && k + 1 < |us| && UnitOk(us[k]) && |us[k].nal| == 1 && s.pos == 0 && !s.sharding
    ensures Runs(Stream(us), s, frame, ps, t) && StateOk(Stream(us), t) && Read(Stream(us), t, frame).1 == Ended
    ensures Read(Stream(us), t, frame).0.pos == |Stream(us[..k + 1])| && !Read(Stream(us), t, frame).0.sharding
    ensures Received(ps) == Holding(us[..k]) <==> AllArrive(us, k)
  {
    t := SplitterRuns(us, s, frame, k);
    ps := AllPackets(us[..k], s.time, frame);
    ReceiveStream(us, k, s.time, frame);
    var rest := StreamAround(us, k);
    ParseUnit(Stream(us[..k]), us[k], us[k + 1].long, rest);
  }
}

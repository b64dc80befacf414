/** MD5 streaming (RFC 1321): the context of md5c.c around a block transform that stays abstract. */
module Md5 {

  import opened Words

  const LONG: nat := 0x1_0000_0000_0000_0000

  datatype Chain = Chain(a: Word, b: Word, c: Word, d: Word)

  type Transform = (Chain, seq<Byte>) -> Chain

  const INITIAL_CHAIN: Chain := Chain(0x67452301, 0xefcdab89, 0x98badcfe, 0x10325476)

  // ---------------------------------------------------------------- specification

  /** The chain after the full 64-byte blocks of `m`. */
  function Blocks(f: Transform, s: Chain, m: seq<Byte>): Chain
    decreases |m|
  {
    if |m| < 64 then s else Blocks(f, f(s, m[..64]), m[64..])
  }

  /** The bytes after the last full block. */
  function Tail(m: seq<Byte>): seq<Byte> { m[|m| - |m| % 64..] }

  /** `n` as four bytes, least significant first. */
  function LittleEndian(n: nat): seq<Byte> { [n % 256, n / 0x100 % 256, n / 0x1_0000 % 256, n / 0x100_0000 % 256] }

  /** Number of padding bytes: at least one, to 56 modulo 64 (section 3.1 of RFC 1321). */
  predicate PadsTo56(len: nat, pad: nat) {
    1 <= pad <= 64 && (len + pad) % 64 == 56
  }

  function PadLength(len: nat): nat {
    if len % 64 < 56 then 56 - len % 64 else 120 - len % 64
  }

  function Padding(n: nat): seq<Byte> { seq(n, i => if i == 0 then 0x80 else 0) }

  function EncodeWords(ws: seq<Word>): (b: seq<Byte>)
    ensures |b| == 4 * |ws|
  {
    if ws == [] then [] else EncodeWords(ws[..|ws| - 1]) + LittleEndian(ws[|ws| - 1])
  }

  function LowBits(len: nat): Word { 8 * len % LONG % WORD }

  function HighBits(len: nat): Word { 8 * len % LONG / WORD }

  /** The message length in bits modulo 2^64, low word first (section 3.2 of RFC 1321). */
  function LengthBytes(len: nat): seq<Byte> {
    EncodeWords([LowBits(len), HighBits(len)])
  }

  function ChainBytes(s: Chain): seq<Byte> { EncodeWords([s.a, s.b, s.c, s.d]) }

  lemma PadTo64(len: nat)
    ensures (len + PadLength(len) + 8) % 64 == 0
  {
  }

  /** The padded message: the message first, and whole blocks, so that no byte is left out of the digest. */
  function Padded(m: seq<Byte>): (p: seq<Byte>)
    ensures m <= p && |p| % 64 == 0 && Tail(p) == []
  {
    PadTo64(|m|);
    m + Padding(PadLength(|m|)) + LengthBytes(|m|)
  }

  /** The digest of RFC 1321, with `f` for the block transform. */
  function Digest(f: Transform, m: seq<Byte>): seq<Byte> {
    ChainBytes(Blocks(f, INITIAL_CHAIN, Padded(m)))
  }

  /** The padding length is the only one that meets section 3.1. */
  lemma PadLengthMeets(len: nat, pad: nat)
    ensures PadsTo56(len, pad) <==> pad == PadLength(len)
  {
  }

  /** Whole blocks first, the rest after them. */
  lemma {:induction false} BlocksConcat(f: Transform, s: Chain, a: seq<Byte>, b: seq<Byte>)
    requires |a| % 64 == 0
    ensures Blocks(f, s, a + b) == Blocks(f, Blocks(f, s, a), b)
    decreases |a|
  {
    if a == [] {
      assert a + b == b;
    } else {
      assert (a + b)[..64] == a[..64] && (a + b)[64..] == a[64..] + b;
      BlocksConcat(f, f(s, a[..64]), a[64..], b);
    }
  }

  lemma OneBlock(f: Transform, s: Chain, b: seq<Byte>)
    requires |b| == 64
    ensures Blocks(f, s, b) == f(s, b)
  {
    assert b[..64] == b;
  }

  lemma SplitTail(m: seq<Byte>)
    ensures m == m[..|m| - |m| % 64] + Tail(m) && |m[..|m| - |m| % 64]| % 64 == 0 && |Tail(m)| == |m| % 64
  {
  }

  /** More input: the tail and the input decide what is transformed next. */
  lemma BlocksMore(f: Transform, m: seq<Byte>, x: seq<Byte>)
    ensures Blocks(f, INITIAL_CHAIN, m + x) == Blocks(f, Blocks(f, INITIAL_CHAIN, m), Tail(m) + x)
    ensures Tail(m + x) == Tail(Tail(m) + x)
  {
    SplitTail(m);
    var front := m[..|m| - |m| % 64];
    assert m + x == front + (Tail(m) + x);
    BlocksConcat(f, INITIAL_CHAIN, front, Tail(m) + x);
    BlocksConcat(f, INITIAL_CHAIN, front, Tail(m));
    TailOfConcat(front, Tail(m) + x);
  }

  lemma TailOfConcat(a: seq<Byte>, b: seq<Byte>)
    requires |a| % 64 == 0
    ensures Tail(a + b) == Tail(b)
  {
    assert |a + b| % 64 == |b| % 64;
  }

  /** The four bytes determine the word. */
  lemma LittleEndianValue(n: Word)
    ensures var b := LittleEndian(n);
            n as int == b[0] as int + 0x100 * b[1] as int + 0x1_0000 * b[2] as int + 0x100_0000 * b[3] as int
  {
    assert n / 0x1_0000 == n / 0x100 / 0x100 && n / 0x100_0000 == n / 0x1_0000 / 0x100;
  }

  /** The number that four bytes are, the first one least significant. */
  function Number(b: seq<Byte>, at: nat): nat
    requires at + 4 <= |b|
  {
    b[at] as int + 0x100 * b[at + 1] as int + 0x1_0000 * b[at + 2] as int + 0x100_0000 * b[at + 3] as int
  }

  lemma {:induction false} EncodedNumber(ws: seq<Word>, k: nat)
    requires k < |ws|
    ensures Number(EncodeWords(ws), 4 * k) == ws[k]
  {
    EncodedAt(ws, k);
    LittleEndianValue(ws[k]);
    var b := EncodeWords(ws);
    assert b[4 * k..4 * k + 4] == [b[4 * k], b[4 * k + 1], b[4 * k + 2], b[4 * k + 3]];
  }

  lemma LengthNumbers(len: nat)
    ensures |LengthBytes(len)| == 8
    ensures Number(LengthBytes(len), 0) + WORD * Number(LengthBytes(len), 4) == 8 * len % LONG
  {
    EncodedNumber([LowBits(len), HighBits(len)], 0);
    EncodedNumber([LowBits(len), HighBits(len)], 1);
  }

  /**
   Sections 3.1 and 3.2 of RFC 1321: after the message a single one bit, zero bits, and in the last
   eight bytes the length in bits modulo 2^64, least significant byte first.
   */
  lemma PaddedIs(m: seq<Byte>)
    ensures var p, t := Padded(m), |Padded(m)| - 8;
            && |m| < t < |m| + 65 && p[|m|] == 0x80
            && (forall i :: |m| < i < t ==> p[i] == 0)
            && Number(p, t) + 0x1_0000_0000 * Number(p, t + 4) == 8 * |m| % 0x1_0000_0000_0000_0000
  {
    var p, b := Padded(m), LengthBytes(|m|);
    var t := |p| - 8;
    LengthNumbers(|m|);
    assert forall i :: 0 <= i < 8 ==> p[t + i] == b[i];
    assert Number(p, t) == Number(b, 0) && Number(p, t + 4) == Number(b, 4);
  }

  /** The initial words of section 3.3 of RFC 1321, low-order bytes first. */
  lemma InitialBytes()
    ensures ChainBytes(INITIAL_CHAIN) == [0x01, 0x23, 0x45, 0x67, 0x89, 0xab, 0xcd, 0xef,
                                          0xfe, 0xdc, 0xba, 0x98, 0x76, 0x54, 0x32, 0x10]
  {
    var ws := [INITIAL_CHAIN.a, INITIAL_CHAIN.b, INITIAL_CHAIN.c, INITIAL_CHAIN.d];
    var b := EncodeWords(ws);
    EncodedAt(ws, 0);
    EncodedAt(ws, 1);
    EncodedAt(ws, 2);
    EncodedAt(ws, 3);
    assert b == b[0..4] + b[4..8] + b[8..12] + b[12..16];
    InitialWords();
  }

  lemma InitialWords()
    ensures LittleEndian(INITIAL_CHAIN.a) == [0x01, 0x23, 0x45, 0x67]
    ensures LittleEndian(INITIAL_CHAIN.b) == [0x89, 0xab, 0xcd, 0xef]
    ensures LittleEndian(INITIAL_CHAIN.c) == [0xfe, 0xdc, 0xba, 0x98]
    ensures LittleEndian(INITIAL_CHAIN.d) == [0x76, 0x54, 0x32, 0x10]
  {
  }

  /** Section 3.5 of RFC 1321: the digest is the words of the final chain, low-order bytes first. */
  lemma DigestIs(f: Transform, m: seq<Byte>)
    ensures var d, s := Digest(f, m), Blocks(f, INITIAL_CHAIN, Padded(m));
            && |d| == 16
            && Number(d, 0) == s.a && Number(d, 4) == s.b && Number(d, 8) == s.c && Number(d, 12) == s.d
  {
    var s := Blocks(f, INITIAL_CHAIN, Padded(m));
    var ws := [s.a, s.b, s.c, s.d];
    EncodedNumber(ws, 0);
    EncodedNumber(ws, 1);
    EncodedNumber(ws, 2);
    EncodedNumber(ws, 3);
  }

  // ---------------------------------------------------------------- the block loop of MD5Update

  /** The loop test at `i`, computed on 32-bit words. */
  predicate MoreBlocks(i: nat, len: nat) { (i + 63) % WORD < len }

  /** Every loop test up to the end of the input means what it says. */
  ghost predicate ScanOk(index: nat, len: nat)
    requires index < 64
  {
    forall k {:trigger 64 * k} :: 0 <= k && 64 - index + 64 * k <= len ==>
      (MoreBlocks(64 - index + 64 * k, len) <==> 64 - index + 64 * k + 63 < len)
  }

  /** The block loop is right exactly if the buffered bytes and the input together are fewer than 2^32. */
  lemma ScanOkIff(index: nat, len: nat)
    requires index < 64 && len < WORD
    ensures ScanOk(index, len) <==> index + len < WORD
  {
    if index + len >= WORD {
      var k := 0x400_0000 - 1;
      assert 64 - index + 64 * k == WORD - index;
      assert MoreBlocks(WORD - index, len);
    } else {
      forall k | 0 <= k && 64 - index + 64 * k <= len
        ensures MoreBlocks(64 - index + 64 * k, len) <==> 64 - index + 64 * k + 63 < len
      {
        NoWrap(index, len, k);
      }
    }
  }

  /** One byte buffered and an input of 2^32 - 1 bytes: the loop would run past the input. */
  lemma LongInputFails()
    ensures MoreBlocks(WORD - 1, WORD - 1) && !ScanOk(1, WORD - 1)
  {
    ScanOkIff(1, WORD - 1);
  }

  lemma NoWrap(index: nat, len: nat, k: nat)
    requires index < 64 && index + len < WORD && 64 - index + 64 * k <= len
    ensures 64 - index + 64 * k + 63 < WORD
  {
    assert 64 * (k + 1) <= index + len < 64 * 0x400_0000;
  }

  // ---------------------------------------------------------------- the bit count

  /** The two-word count holds 8 times the length modulo 2^64. */
  predicate Counts(len: nat, c0: Word, c1: Word) {
    c0 + WORD * c1 == 8 * len % LONG
  }

  lemma CountStep(len: nat, c0: Word, c1: Word, n: Word)
    requires Counts(len, c0, c1)
    ensures var lo := n * 8 % WORD;
            var s0 := (c0 + lo) % WORD;
            Counts(len + n, s0, (c1 + (if s0 < lo then 1 else 0) + n / 0x2000_0000) % WORD)
  {
    var lo, hi := n * 8 % WORD, n / 0x2000_0000;
    var s0 := (c0 + lo) % WORD;
    var carry := if s0 < lo then 1 else 0;
    LowWord(n);
    assert c0 + lo == s0 + WORD * carry;
    AddMod(len, n);
    TopMod(s0, c1 + carry + hi);
  }

  lemma Twice(c1: Word, carry: nat, hi: nat)
    requires carry <= 1
    ensures ((c1 + carry) % WORD + hi) % WORD == (c1 + carry + hi) % WORD
  {
  }

  lemma LowWord(n: Word)
    ensures n * 8 == n * 8 % WORD + WORD * (n / 0x2000_0000)
  {
  }

  lemma AddMod(a: nat, b: nat)
    ensures 8 * (a + b) % LONG == (8 * a % LONG + 8 * b) % LONG
  {
  }

  lemma TopMod(s0: Word, top: nat)
    ensures (s0 + WORD * top) % LONG == s0 + WORD * (top % WORD)
  {
  }

  lemma IndexIs(len: nat, c0: Word, c1: Word)
    requires Counts(len, c0, c1)
    ensures c0 / 8 % 64 == len % 64
  {
    LengthIs(len, c0, c1);
    LowBitsIs(len);
    Mod64(len);
  }

  lemma Mod64(len: nat)
    ensures len % 0x2000_0000 % 64 == len % 64
  {
    var q, r := len / 0x2000_0000, len % 0x2000_0000;
    assert len == 64 * (0x80_0000 * q) + r;
  }

  /** The low word is 8 times the length modulo 2^29. */
  lemma LowBitsIs(len: nat)
    ensures LowBits(len) / 8 == len % 0x2000_0000
  {
    var q, r := len / 0x2000_0000, len % 0x2000_0000;
    var high, low := q / WORD, q % WORD;
    assert 8 * len == LONG * high + (WORD * low + 8 * r);
    LongMod(high, WORD * low + 8 * r);
    WordMod(low, 8 * r);
  }

  lemma LongMod(q: nat, r: nat)
    requires r < LONG
    ensures (LONG * q + r) % LONG == r
  {
  }

  lemma WordMod(q: nat, r: nat)
    requires r < WORD
    ensures (WORD * q + r) % WORD == r
  {
  }

  // ---------------------------------------------------------------- the context

  /** `MD5_memcpy`. */
  method Copy(output: array<Byte>, at: nat, input: seq<Byte>)
    requires at + |input| <= output.Length
    modifies output
    ensures output[..] == old(output[..at]) + input + old(output[at + |input|..])
  {
    var i := 0;
    while i < |input|
      invariant 0 <= i <= |input|
      invariant forall j :: 0 <= j < output.Length ==>
        output[j] == if at <= j < at + i then input[j - at] else old(output[j])
    {
      output[at + i] := input[i];
      i := i + 1;
    }
  }

  /** `Encode`. */
  method Encode(input: seq<Word>) returns (output: seq<Byte>)
    ensures output == EncodeWords(input)
  {
    output := [];
    var i := 0;
    while i < |input|
      invariant 0 <= i <= |input|
      invariant output == EncodeWords(input[..i])
    {
      assert input[..i + 1][..i] == input[..i];
      output := output + LittleEndian(input[i]);
      i := i + 1;
    }
    assert input[..|input|] == input;
  }

  /** Word `k` of what was encoded can be read back. */
  lemma {:induction false} EncodedAt(ws: seq<Word>, k: nat)
    requires k < |ws|
    ensures EncodeWords(ws)[4 * k..4 * k + 4] == LittleEndian(ws[k])
    decreases |ws|
  {
    var n := |ws| - 1;
    if k < n {
      EncodedAt(ws[..n], k);
      assert EncodeWords(ws)[4 * k..4 * k + 4] == EncodeWords(ws[..n])[4 * k..4 * k + 4];
    }
  }

  lemma LengthIs(len: nat, c0: Word, c1: Word)
    requires Counts(len, c0, c1)
    ensures LowBits(len) == c0 && HighBits(len) == c1
  {
    WordsOf(c0, c1);
  }

  lemma WordsOf(c0: Word, c1: Word)
    ensures (c0 + WORD * c1) % WORD == c0 && (c0 + WORD * c1) / WORD == c1
  {
  }

  /** The chain of the blocks of `m` and the bytes of its tail are what the context holds of `m`. */
  ghost predicate Holds(f: Transform, m: seq<Byte>, state: Chain, c0: Word, c1: Word, buffer: seq<Byte>) {
    state == Blocks(f, INITIAL_CHAIN, m) && Counts(|m|, c0, c1) && |buffer| == 64 && buffer[..|m| % 64] == Tail(m)
  }

  /** Input that fills a block: the first `i` bytes go into the chain, the others are the new tail. */
  lemma Absorbed(f: Transform, m: seq<Byte>, x: seq<Byte>, i: nat)
    requires i <= |x| && |x| - i < 64 && (|m| % 64 + i) % 64 == 0
    ensures Blocks(f, INITIAL_CHAIN, m + x) == Blocks(f, Blocks(f, INITIAL_CHAIN, m), Tail(m) + x[..i])
    ensures Tail(m + x) == x[i..] && |m + x| % 64 == |x| - i
  {
    var s, t := Blocks(f, INITIAL_CHAIN, m), Tail(m);
    assert |t| == |m| % 64 by { SplitTail(m); }
    TailLength(|m|, |x|, i);
    BlocksMore(f, m, x);
    WholeThenRest(f, s, t, x, i);
  }

  lemma WholeThenRest(f: Transform, s: Chain, t: seq<Byte>, x: seq<Byte>, i: nat)
    requires i <= |x| && |x| - i < 64 && (|t| + i) % 64 == 0
    ensures Blocks(f, s, t + x) == Blocks(f, s, t + x[..i]) && Tail(t + x) == x[i..]
  {
    var whole := t + x[..i];
    assert t + x == whole + x[i..];
    BlocksConcat(f, s, whole, x[i..]);
    TailOfConcat(whole, x[i..]);
    ShortTail(x[i..]);
  }

  lemma ShortTail(t: seq<Byte>)
    requires |t| < 64
    ensures Tail(t) == t
  {
  }

  lemma TailLength(m: nat, x: nat, i: nat)
    requires i <= x && x - i < 64 && (m % 64 + i) % 64 == 0
    ensures (m + x) % 64 == x - i
  {
  }

  /** Input that does not fill a block only grows the tail. */
  lemma Buffered(f: Transform, m: seq<Byte>, x: seq<Byte>)
    requires |m| % 64 + |x| < 64
    ensures Blocks(f, INITIAL_CHAIN, m + x) == Blocks(f, INITIAL_CHAIN, m)
    ensures Tail(m + x) == Tail(m) + x && |m + x| % 64 == |m| % 64 + |x|
  {
    var n := |m|;
    ModGrows(n, |x|);
    assert |m + x| == n + |x|;
    BlocksMore(f, m, x);
    TailSize(m);
    Short(f, Blocks(f, INITIAL_CHAIN, m), Tail(m) + x);
  }

  lemma TailSize(m: seq<Byte>)
    ensures |Tail(m)| == |m| % 64
  {
  }

  lemma Short(f: Transform, s: Chain, t: seq<Byte>)
    requires |t| < 64
    ensures Blocks(f, s, t) == s && Tail(t) == t
  {
    ShortTail(t);
  }

  lemma ModGrows(m: nat, x: nat)
    requires m % 64 + x < 64
    ensures (m + x) % 64 == m % 64 + x
  {
  }

  lemma NextBlock(f: Transform, s: Chain, pending: seq<Byte>, input: seq<Byte>, i: nat)
    requires i + 64 <= |input| && (|pending| + i) % 64 == 0
    ensures Blocks(f, s, pending + input[..i + 64]) == f(Blocks(f, s, pending + input[..i]), input[i..i + 64])
  {
    assert pending + input[..i + 64] == (pending + input[..i]) + input[i..i + 64];
    BlocksConcat(f, s, pending + input[..i], input[i..i + 64]);
    OneBlock(f, Blocks(f, s, pending + input[..i]), input[i..i + 64]);
  }

  class Context {
    const transform: Transform
    var state: Chain
    var count0: Word
    var count1: Word
    const buffer: array<Byte>
    ghost var message: seq<Byte>

    ghost predicate Valid()
      reads this, buffer
    {
      buffer.Length == 64 && Holds(transform, message, state, count0, count1, buffer[..])
    }

    /** `MD5Init`. */
    constructor (f: Transform)
      ensures Valid() && message == [] && transform == f && fresh(buffer) && count0 == 0 && count1 == 0
      ensures ChainBytes(state) == [0x01, 0x23, 0x45, 0x67, 0x89, 0xab, 0xcd, 0xef,
                                    0xfe, 0xdc, 0xba, 0x98, 0x76, 0x54, 0x32, 0x10]
    {
      InitialBytes();
      transform, state, count0, count1 := f, INITIAL_CHAIN, 0, 0;
      buffer, message := new Byte[64], [];
    }

    /** The block loop: the chain takes in every full block of the buffered bytes and the input. */
    method Absorb(index: nat, input: seq<Byte>) returns (i: nat)
      requires buffer.Length == 64 && index < 64
      requires |input| < WORD && ScanOk(index, |input|) && index + |input| >= 64
      modifies this`state, buffer
      ensures i <= |input| && |input| - i < 64 && (index + i) % 64 == 0
      ensures state == Blocks(transform, old(state), old(buffer[..index]) + input[..i])
    {
      ghost var pending := buffer[..index];
      i := 64 - index;
      Copy(buffer, index, input[..i]);
      assert buffer[..] == pending + input[..i];
      OneBlock(transform, state, buffer[..]);
      state := transform(state, buffer[..]);
      ghost var k := 0;
      while MoreBlocks(i, |input|)
        invariant i == 64 - index + 64 * k && i <= |input|
        invariant state == Blocks(transform, old(state), pending + input[..i])
        decreases |input| - i
      {
        NextBlock(transform, old(state), pending, input, i);
        state := transform(state, input[i..i + 64]);
        i, k := i + 64, k + 1;
      }
    }

    /** Update of the number of bits. */
    method CountBits(ghost len: nat, n: Word)
      requires Counts(len, count0, count1)
      modifies this`count0, this`count1
      ensures Counts(len + n, count0, count1)
    {
      CountStep(len, count0, count1, n);
      var lo := n * 8 % WORD;
      count0 := (count0 + lo) % WORD;
      ghost var carry := if count0 < lo then 1 else 0;
      Twice(count1, carry, n / 0x2000_0000);
      if count0 < lo {
        count1 := (count1 + 1) % WORD;
      }
      count1 := (count1 + n / 0x2000_0000) % WORD;
    }

    /** `MD5Update`, within the bound that `ScanOkIff` shows to be exact. */
    method Update(input: seq<Byte>)
      requires Valid() && |message| % 64 + |input| < WORD
      modifies this, buffer
      ensures Valid() && message == old(message) + input
    {
      IndexIs(|message|, count0, count1);
      ScanOkIff(|message| % 64, |input|);
      var index := count0 / 8 % 64;
      CountBits(|message|, |input|);
      Transfer(index, input);
      message := message + input;
    }

    /** Transform as many times as possible, buffer the remaining input. */
    method Transfer(index: nat, input: seq<Byte>)
      requires buffer.Length == 64 && index == |message| % 64
      requires state == Blocks(transform, INITIAL_CHAIN, message) && buffer[..index] == Tail(message)
      requires |input| < WORD && ScanOk(index, |input|)
      modifies this`state, buffer
      ensures state == Blocks(transform, INITIAL_CHAIN, message + input)
      ensures buffer[..|message + input| % 64] == Tail(message + input)
    {
      if |input| >= 64 - index {
        var i := Absorb(index, input);
        Copy(buffer, 0, input[i..]);
        assert buffer[..|input| - i] == input[i..];
        Absorbed(transform, message, input, i);
      } else {
        Copy(buffer, index, input);
        assert buffer[..index + |input|] == Tail(message) + input;
        Buffered(transform, message, input);
      }
    }

    /** `MD5Final`: the digest of everything fed to the context, which is then zeroed. */
    method Final() returns (digest: seq<Byte>)
      requires Valid()
      modifies this, buffer
      ensures digest == Digest(transform, old(message))
      ensures state == Chain(0, 0, 0, 0) && count0 == 0 && count1 == 0 && forall i :: 0 <= i < 64 ==> buffer[i] == 0
    {
      IndexIs(|message|, count0, count1);
      LengthIs(|message|, count0, count1);
      ghost var m := message;
      var bits := Encode([count0, count1]);
      var index := count0 / 8 % 64;
      var padLen := if index < 56 then 56 - index else 120 - index;
      Update(Padding(padLen));
      Update(bits);
      assert message == Padded(m);
      digest := Encode([state.a, state.b, state.c, state.d]);
      state, count0, count1 := Chain(0, 0, 0, 0), 0, 0;
      forall i | 0 <= i < 64 {
        buffer[i] := 0;
      }
    }
  }
}

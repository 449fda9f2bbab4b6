/**
 WebSocket frames as the agent writes and reads them (sections 5.2 and 5.3 of RFC 6455),
 and streams of such frames.
 */
module WebSocket {
  import opened Text
  import opened Streams

  /** The largest payload length a Go slice can have, plus one. */
  const LENGTH_LIMIT: int := 0x8000_0000_0000_0000

  datatype Frame = Frame(opcode: byte, payload: seq<byte>)

  /** A frame to send, with its masking key; the server's own frames have none. */
  datatype Outgoing = Outgoing(opcode: byte, payload: seq<byte>, mask: Option<seq<byte>>)

  predicate Sendable(f: Outgoing) {
    |f.payload| < LENGTH_LIMIT && (f.mask.Some? ==> |f.mask.value| == 4)
  }

  // ---- Numbers as bytes, most significant first ----

  function LowByte(n: nat): byte {
    n % 256
  }

  function BigEndian(n: nat, k: nat): (s: seq<byte>)
    ensures |s| == k
  {
    if k == 0 then [] else BigEndian(n / 256, k - 1) + [LowByte(n)]
  }

  lemma {:induction false} BigEndianRoundTrip(n: nat, k: nat)
    requires n < Pow2(8 * k)
    ensures BigEndianValue(BigEndian(n, k)) == n
  {
    if k > 0 {
      var s := BigEndian(n, k);
      Pow2Byte(k - 1);
      BigEndianRoundTrip(n / 256, k - 1);
      assert s[..k - 1] == BigEndian(n / 256, k - 1);
    }
  }

  // ---- Bits of a byte ----

  /** Exclusive or of the k lowest bits, one bit at a time. */
  function XorBits(a: nat, b: nat, k: nat): nat {
    if k == 0 then 0 else (a + b) % 2 + 2 * XorBits(a / 2, b / 2, k - 1)
  }

  lemma {:induction false} XorBitsBound(a: nat, b: nat, k: nat)
    ensures XorBits(a, b, k) < Pow2(k)
  {
    if k > 0 {
      XorBitsBound(a / 2, b / 2, k - 1);
    }
  }

  lemma {:induction false} XorBitsTwice(a: nat, b: nat, k: nat)
    requires a < Pow2(k)
    ensures XorBits(XorBits(a, b, k), b, k) == a
  {
    if k > 0 {
      XorBitsTwice(a / 2, b / 2, k - 1);
      XorBitsStep(a, b, k);
      BitTwice(a, b);
    }
  }

  lemma XorBitsStep(a: nat, b: nat, k: nat)
    requires k > 0
    ensures XorBits(XorBits(a, b, k), b, k) ==
            ((a + b) % 2 + b) % 2 + 2 * XorBits(XorBits(a / 2, b / 2, k - 1), b / 2, k - 1)
  {
    LowBit((a + b) % 2, XorBits(a / 2, b / 2, k - 1), b);
  }

  lemma BitTwice(a: nat, b: nat)
    ensures ((a + b) % 2 + b) % 2 + 2 * (a / 2) == a
  {
  }

  lemma LowBit(bit: nat, rest: nat, b: nat)
    requires bit < 2
    ensures (bit + 2 * rest) / 2 == rest && (bit + 2 * rest + b) % 2 == (bit + b) % 2
  {
  }

  lemma EightBits()
    ensures Pow2(8) == 256
  {
    assert Pow2(4) == 16;
  }

  function Xor(a: byte, b: byte): byte {
    EightBits();
    XorBitsBound(a, b, 8);
    XorBits(a, b, 8)
  }

  lemma XorTwice(a: byte, b: byte)
    ensures Xor(Xor(a, b), b) == a
  {
    EightBits();
    XorBitsTwice(a, b, 8);
  }

  /** Bit j of a number. */
  predicate Bit(x: nat, j: nat) {
    if j == 0 then x % 2 == 1 else Bit(x / 2, j - 1)
  }

  lemma {:induction false} XorBitsAt(a: nat, b: nat, k: nat, j: nat)
    requires j < k
    ensures Bit(XorBits(a, b, k), j) <==> Bit(a, j) != Bit(b, j)
  {
    var rest := XorBits(a / 2, b / 2, k - 1);
    LowBit((a + b) % 2, rest, 0);
    if j > 0 {
      XorBitsAt(a / 2, b / 2, k - 1, j - 1);
    } else {
      SumIsOdd(a, b);
    }
  }

  lemma SumIsOdd(a: nat, b: nat)
    ensures (a + b) % 2 == 1 <==> (a % 2 == 1) != (b % 2 == 1)
  {
  }

  /** 0x80 | b */
  function WithHighBit(b: byte): byte {
    if b < 128 then b + 128 else b
  }

  /** b & 0x80 != 0 */
  predicate HighBit(b: byte) { b >= 128 }

  /** b & 0x7F */
  function Low7(b: byte): byte { b % 128 }

  /** b & 0x0F */
  function Low4(b: byte): byte { b % 16 }

  // ---- One frame ----

  function Masked(payload: seq<byte>, key: seq<byte>): (r: seq<byte>)
    requires |key| == 4
    ensures |r| == |payload|
  {
    seq(|payload|, i requires 0 <= i < |payload| => Xor(payload[i], key[i % 4]))
  }

  lemma MaskTwice(payload: seq<byte>, key: seq<byte>)
    requires |key| == 4
    ensures Masked(Masked(payload, key), key) == payload
  {
    forall i | 0 <= i < |payload|
      ensures Masked(Masked(payload, key), key)[i] == payload[i]
    {
      XorTwice(payload[i], key[i % 4]);
    }
  }

  /** The length field: seven bits, or a code and two or eight bytes. */
  function LengthCode(n: nat): (c: byte)
    ensures c < 128
  {
    if n <= 125 then LowByte(n) else if n <= 65535 then 126 else 127
  }

  function ExtendedLength(n: nat): seq<byte> {
    if n <= 125 then [] else if n <= 65535 then BigEndian(n, 2) else BigEndian(n, 8)
  }

  function Header(opcode: byte, n: nat, masked: bool): seq<byte> {
    var code := LengthCode(n);
    [WithHighBit(opcode), if masked then WithHighBit(code) else code] + ExtendedLength(n)
  }

  function Encode(f: Outgoing): seq<byte>
    requires Sendable(f)
  {
    match f.mask
    case None => Header(f.opcode, |f.payload|, false) + f.payload
    case Some(key) => Header(f.opcode, |f.payload|, true) + key + Masked(f.payload, key)
  }

  function ExtendedSize(code: byte): nat {
    if code == 126 then 2 else if code == 127 then 8 else 0
  }

  function KeyStart(s: seq<byte>): nat
    requires |s| >= 2
  {
    2 + ExtendedSize(Low7(s[1]))
  }

  function PayloadStart(s: seq<byte>): nat
    requires |s| >= 2
  {
    KeyStart(s) + if HighBit(s[1]) then 4 else 0
  }

  function PayloadLength(s: seq<byte>): nat
    requires |s| >= 2 && |s| >= KeyStart(s)
  {
    if KeyStart(s) == 2 then Low7(s[1]) else BigEndianValue(s[2..KeyStart(s)])
  }

  function Payload(masked: bool, raw: seq<byte>, key: seq<byte>): seq<byte>
    requires masked ==> |key| == 4
  {
    if masked then Masked(raw, key) else raw
  }

  /** ReadFrame on the bytes available: the frame and how many bytes it takes, or None when
      they end too early. */
  function Decode(s: seq<byte>): (r: Option<(Frame, nat)>)
    ensures r.Some? ==> 2 <= r.value.1 <= |s|
  {
    if |s| < 2 || |s| < PayloadStart(s) then None
    else
      var start := PayloadStart(s);
      var end := start + PayloadLength(s);
      if |s| < end then None
      else
        var raw := s[start..end];
        Some((Frame(Low4(s[0]), Payload(HighBit(s[1]), raw, s[KeyStart(s)..start])), end))
  }

  /** What the other side sees of a frame: the header keeps four bits of the opcode. */
  function Seen(f: Outgoing): Frame {
    Frame(Low4(f.opcode), f.payload)
  }

  lemma LengthReadsBack(n: nat)
    requires n < LENGTH_LIMIT
    ensures |ExtendedLength(n)| == ExtendedSize(LengthCode(n))
    ensures n == if ExtendedSize(LengthCode(n)) == 0 then LengthCode(n) else BigEndianValue(ExtendedLength(n))
  {
    hide Pow2, BigEndian, BigEndianValue;
    BytePowers();
    if n <= 125 {
    } else if n <= 65535 {
      BigEndianRoundTrip(n, 2);
    } else {
      BigEndianRoundTrip(n, 8);
    }
  }

  /** The layout of an encoded frame, as the reader takes it apart. */
  lemma Layout(f: Outgoing, tail: seq<byte>)
    requires Sendable(f)
    ensures var s := Encode(f) + tail;
            var code := LengthCode(|f.payload|);
            var body := 2 + ExtendedSize(code);
            var start := body + if f.mask.Some? then 4 else 0;
            var n := |f.payload|;
            && |Encode(f)| == start + n <= |s|
            && Low4(s[0]) == Low4(f.opcode) && Low7(s[1]) == code
            && (HighBit(s[1]) <==> f.mask.Some?)
            && s[2..body] == ExtendedLength(n)
            && (f.mask.Some? ==>
                  s[body..start] == f.mask.value && s[start..start + n] == Masked(f.payload, f.mask.value))
            && (f.mask.None? ==> s[start..start + n] == f.payload)
  {
    LengthReadsBack(|f.payload|);
    hide Masked, ExtendedLength, BigEndianValue;
  }

  /** Two and four bytes read as one number, most significant first. */
  function U16At(s: seq<byte>, p: nat): nat
    requires p + 2 <= |s|
  {
    s[p] as int * 0x100 + s[p + 1] as int
  }

  function U32At(s: seq<byte>, p: nat): nat
    requires p + 4 <= |s|
  {
    s[p] as int * 0x100_0000 + s[p + 1] as int * 0x1_0000 + s[p + 2] as int * 0x100 + s[p + 3] as int
  }

  /** Where the payload of a frame starts. */
  function HeaderSize(n: nat): nat {
    if n <= 125 then 2 else if n <= 65535 then 4 else 10
  }

  /** The bytes of a frame, one by one (section 5.2 of RFC 6455): FIN and the opcode; the mask bit and
      the length in the shortest of its three forms, most significant byte first; the masking key;
      and the payload, each byte the exclusive or of itself and a byte of the key in turn. */
  predicate FrameBytes(opcode: byte, payload: seq<byte>, mask: Option<seq<byte>>, s: seq<byte>)
    requires mask.Some? ==> |mask.value| == 4
  {
    var n, o := |payload|, HeaderSize(|payload|);
    var start := o + if mask.Some? then 4 else 0;
    && |s| == start + n
    && s[0] == (if opcode < 128 then 128 + opcode else opcode)
    && s[1] == (if mask.Some? then 128 else 0) + (if n <= 125 then n else if n <= 65535 then 126 else 127)
    && (126 <= n <= 65535 ==> U16At(s, 2) == n)
    && (n > 65535 ==> U32At(s, 2) * 0x1_0000_0000 + U32At(s, 6) == n)
    && (mask.Some? ==> s[o..start] == mask.value)
    && (mask.None? ==> s[start..] == payload)
    && (forall i, j | 0 <= i < n && mask.Some? && 0 <= j < 8 ::
          Bit(s[start + i], j) <==> Bit(payload[i], j) != Bit(mask.value[i % 4], j))
  }

  lemma EncodeBytes(f: Outgoing)
    requires Sendable(f)
    ensures FrameBytes(f.opcode, f.payload, f.mask, Encode(f))
  {
    Layout(f, []);
    LengthReadsBack(|f.payload|);
    var s := Encode(f);
    assert s + [] == s;
    var n, o := |f.payload|, HeaderSize(|f.payload|);
    LengthDigits(n, s);
    hide BigEndian, BigEndianValue, Encode, Header, ExtendedLength;
    var start := o + if f.mask.Some? then 4 else 0;
    if f.mask.Some? {
      forall i, j | 0 <= i < n && 0 <= j < 8
        ensures Bit(s[start + i], j) <==> Bit(f.payload[i], j) != Bit(f.mask.value[i % 4], j)
      {
        assert s[start..start + n][i] == s[start + i];
        XorBitsAt(f.payload[i], f.mask.value[i % 4], 8, j);
      }
    } else {
      assert s[start..start + n] == s[start..];
    }
  }

  lemma LengthDigits(n: nat, s: seq<byte>)
    requires n < LENGTH_LIMIT && |s| >= HeaderSize(n) && s[2..HeaderSize(n)] == ExtendedLength(n)
    ensures 126 <= n <= 65535 ==> U16At(s, 2) == n
    ensures n > 65535 ==> U32At(s, 2) * 0x1_0000_0000 + U32At(s, 6) == n
  {
    LengthReadsBack(n);
    var d := s[2..HeaderSize(n)];
    if 126 <= n <= 65535 {
      Horner2(d);
    } else if n > 65535 {
      Horner8(d);
    }
  }

  lemma Horner2(d: seq<byte>)
    requires |d| == 2
    ensures BigEndianValue(d) == U16At(d, 0)
  {
    assert d[..1][..0] == [];
  }

  lemma Horner8(d: seq<byte>)
    requires |d| == 8
    ensures BigEndianValue(d) == U32At(d, 0) * 0x1_0000_0000 + U32At(d, 4)
  {
    assert d[..7][..6] == d[..6] && d[..6][..5] == d[..5] && d[..5][..4] == d[..4];
    assert d[..4][..3] == d[..3] && d[..3][..2] == d[..2];
    Horner2(d[..2]);
    assert BigEndianValue(d[..3]) == 256 * BigEndianValue(d[..2]) + d[2];
    assert BigEndianValue(d[..4]) == 256 * BigEndianValue(d[..3]) + d[3];
    assert BigEndianValue(d[..5]) == 256 * BigEndianValue(d[..4]) + d[4];
    assert BigEndianValue(d[..6]) == 256 * BigEndianValue(d[..5]) + d[5];
    assert BigEndianValue(d[..7]) == 256 * BigEndianValue(d[..6]) + d[6];
  }

  /** Decoding an encoded frame gives the frame back and stops at its end; the opcode comes
      back whole exactly when it fits its four bits. */
  lemma FrameRoundTrip(f: Outgoing, tail: seq<byte>)
    requires Sendable(f)
    ensures Decode(Encode(f) + tail) == Some((Seen(f), |Encode(f)|))
    ensures Seen(f) == Frame(f.opcode, f.payload) <==> f.opcode < 16
  {
    Layout(f, tail);
    LengthReadsBack(|f.payload|);
    if f.mask.Some? {
      MaskTwice(f.payload, f.mask.value);
    }
  }

  /** No proper prefix of an encoded frame decodes to anything. */
  lemma FrameIsNeededWhole(f: Outgoing, k: nat)
    requires Sendable(f) && k < |Encode(f)|
    ensures Decode(Encode(f)[..k]).None?
  {
    var s := Encode(f);
    Layout(f, []);
    assert s + [] == s;
    LengthReadsBack(|f.payload|);
    var cut := s[..k];
    if k >= 2 {
      var body := 2 + ExtendedSize(LengthCode(|f.payload|));
      if k >= body {
        assert cut[2..body] == s[2..body];
      }
    }
  }

  // ---- Streams ----

  predicate AllSendable(fs: seq<Outgoing>) {
    forall i | 0 <= i < |fs| :: Sendable(fs[i])
  }

  function EncodeAll(fs: seq<Outgoing>): (chunks: seq<seq<byte>>)
    requires AllSendable(fs)
    ensures |chunks| == |fs|
    ensures forall i | 0 <= i < |fs| :: chunks[i] == Encode(fs[i])
  {
    seq(|fs|, i requires 0 <= i < |fs| => Encode(fs[i]))
  }

  /** Each frame is handed to the connection in one write. */
  function Wire(fs: seq<Outgoing>): seq<byte>
    requires AllSendable(fs)
  {
    Concat(EncodeAll(fs))
  }

  function SeenAll(fs: seq<Outgoing>): (r: seq<Frame>)
    ensures |r| == |fs|
    ensures forall i | 0 <= i < |fs| :: r[i] == Seen(fs[i])
  {
    if fs == [] then [] else [Seen(fs[0])] + SeenAll(fs[1..])
  }

  lemma FramesEncode(fs: seq<Outgoing>)
    requires AllSendable(fs)
    ensures forall i | 0 <= i < |fs| :: Encodes(Decode, EncodeAll(fs)[i], SeenAll(fs)[i])
    ensures forall i, j | 0 <= i < |fs| && 0 <= j < |EncodeAll(fs)[i]| :: Decode(EncodeAll(fs)[i][..j]).None?
  {
    forall i | 0 <= i < |fs|
      ensures Encodes(Decode, EncodeAll(fs)[i], SeenAll(fs)[i])
    {
      FrameEncodes(fs[i]);
    }
    forall i, j | 0 <= i < |fs| && 0 <= j < |EncodeAll(fs)[i]|
      ensures Decode(EncodeAll(fs)[i][..j]).None?
    {
      FrameIsNeededWhole(fs[i], j);
    }
  }

  lemma FrameEncodes(f: Outgoing)
    requires Sendable(f)
    ensures Encodes(Decode, Encode(f), Seen(f))
  {
    forall tail
      ensures Decode(Encode(f) + tail) == Some((Seen(f), |Encode(f)|))
    {
      FrameRoundTrip(f, tail);
    }
  }

  /** A stream cut anywhere decodes to exactly the frames that are whole before the cut, and
      leaves the beginning of the next one. */
  lemma CutStream(fs: seq<Outgoing>, k: nat) returns (m: nat, part: seq<byte>)
    requires AllSendable(fs) && k <= |Wire(fs)|
    ensures CutsAt(EncodeAll(fs), m, part) && Wire(fs)[..k] == Concat(EncodeAll(fs)[..m]) + part
    ensures DecodeAll(Decode, Wire(fs)[..k]) == (SeenAll(fs)[..m], part)
  {
    FramesEncode(fs);
    m, part := DecodeCut(Decode, EncodeAll(fs), SeenAll(fs), k);
  }

  /** A whole stream decodes to exactly the frames written, with nothing left over. */
  lemma StreamRoundTrip(fs: seq<Outgoing>)
    requires AllSendable(fs)
    ensures DecodeAll(Decode, Wire(fs)) == (SeenAll(fs), [])
  {
    FramesEncode(fs);
    DecodeThenStop(Decode, EncodeAll(fs), SeenAll(fs), []);
    assert Wire(fs) + [] == Wire(fs);
  }

  /** The elements of `xs` that belong to sender `k`. */
  function From<T>(xs: seq<T>, senders: seq<nat>, k: nat): seq<T>
    requires |xs| == |senders|
  {
    if xs == [] then []
    else (if senders[0] == k then [xs[0]] else []) + From(xs[1..], senders[1..], k)
  }

  lemma {:induction false} SeenFrom(fs: seq<Outgoing>, senders: seq<nat>, k: nat)
    requires |fs| == |senders|
    ensures From(SeenAll(fs), senders, k) == SeenAll(From(fs, senders, k))
  {
    if fs != [] {
      SeenFrom(fs[1..], senders[1..], k);
      assert SeenAll(fs)[1..] == SeenAll(fs[1..]);
      if senders[0] == k {
        assert From(fs, senders, k)[1..] == From(fs[1..], senders[1..], k);
      }
    }
  }

  /** Senders that write concurrently, one frame per write: whatever the order of the writes,
      the reader gets every sender's frames, complete and in that sender's order. */
  lemma ConcurrentSenders(fs: seq<Outgoing>, senders: seq<nat>, sent: seq<seq<Outgoing>>)
    requires AllSendable(fs) && |fs| == |senders|
    requires forall k | 0 <= k < |sent| :: From(fs, senders, k) == sent[k]
    ensures var (got, left) := DecodeAll(Decode, Wire(fs));
            && left == [] && |got| == |senders|
            && forall k | 0 <= k < |sent| :: From(got, senders, k) == SeenAll(sent[k])
  {
    StreamRoundTrip(fs);
    forall k | 0 <= k < |sent|
      ensures From(SeenAll(fs), senders, k) == SeenAll(sent[k])
    {
      SeenFrom(fs, senders, k);
    }
  }

  lemma {:induction false} FromAppend<T>(xs: seq<T>, sx: seq<nat>, ys: seq<T>, sy: seq<nat>, k: nat)
    requires |xs| == |sx| && |ys| == |sy|
    ensures From(xs + ys, sx + sy, k) == From(xs, sx, k) + From(ys, sy, k)
  {
    if xs == [] {
      assert xs + ys == ys && sx + sy == sy;
    } else {
      FromAppend(xs[1..], sx[1..], ys, sy, k);
      FromFirst(xs[0], sx[0], xs[1..] + ys, sx[1..] + sy, k);
      FromFirst(xs[0], sx[0], xs[1..], sx[1..], k);
      assert xs + ys == [xs[0]] + (xs[1..] + ys) && sx + sy == [sx[0]] + (sx[1..] + sy);
      assert xs == [xs[0]] + xs[1..] && sx == [sx[0]] + sx[1..];
    }
    hide From;
  }

  lemma FromPrefix<T>(xs: seq<T>, senders: seq<nat>, k: nat, m: nat)
    requires |xs| == |senders| && m <= |xs|
    ensures From(xs[..m], senders[..m], k) <= From(xs, senders, k)
    ensures m == |xs| ==> From(xs[..m], senders[..m], k) == From(xs, senders, k)
  {
    hide From;
    FromAppend(xs[..m], senders[..m], xs[m..], senders[m..], k);
    assert xs[..m] + xs[m..] == xs && senders[..m] + senders[m..] == senders;
    assert m == |xs| ==> xs[..m] == xs && senders[..m] == senders;
  }

  lemma FromFirst<T>(x: T, s: nat, xs: seq<T>, sx: seq<nat>, k: nat)
    requires |xs| == |sx|
    ensures From([x] + xs, [s] + sx, k) == (if s == k then [x] else []) + From(xs, sx, k)
  {
    assert ([x] + xs)[1..] == xs && ([s] + sx)[1..] == sx;
  }

  /** The same on a stream cut anywhere, where the connection fails: of every sender's frames the
      reader gets the first so many, namely those written whole before the cut. */
  lemma ConcurrentSendersCut(fs: seq<Outgoing>, senders: seq<nat>, k: nat, q: nat) returns (m: nat, part: seq<byte>)
    requires AllSendable(fs) && |fs| == |senders| && q <= |Wire(fs)|
    ensures CutsAt(EncodeAll(fs), m, part) && Wire(fs)[..q] == Concat(EncodeAll(fs)[..m]) + part
    ensures DecodeAll(Decode, Wire(fs)[..q]) == (SeenAll(fs)[..m], part)
    ensures From(SeenAll(fs)[..m], senders[..m], k) <= SeenAll(From(fs, senders, k))
    ensures m == |fs| ==> From(SeenAll(fs)[..m], senders[..m], k) == SeenAll(From(fs, senders, k))
  {
    hide From, Wire, EncodeAll, SeenAll, Sendable, Decode;
    m, part := CutStream(fs, q);
    SeenFrom(fs, senders, k);
    FromPrefix(SeenAll(fs), senders, k, m);
  }

  // ---- The code itself ----

  function ShiftBytes(n: nat, i: nat): nat {
    if i == 0 then n else ShiftBytes(n, i - 1) / 256
  }

  /** WriteFrame up to the write: the frame is assembled byte by byte. */
  method WriteFrame(opcode: byte, payload: seq<byte>, maskKey: seq<byte>) returns (frame: seq<byte>)
    requires |payload| < LENGTH_LIMIT && |maskKey| == 4
    ensures frame == Encode(Outgoing(opcode, payload, Some(maskKey)))
    ensures FrameBytes(opcode, payload, Some(maskKey), frame)
  {
    var payLen := |payload|;
    var header := [WithHighBit(opcode)];
    if payLen <= 125 {
      header := header + [WithHighBit(LowByte(payLen))];
    } else if payLen <= 65535 {
      header := header + [WithHighBit(126)];
      assert BigEndian(payLen, 2) == [LowByte(payLen / 256), LowByte(payLen)];
      header := header + [LowByte(payLen / 256), LowByte(payLen)];
    } else {
      header := header + [WithHighBit(127)];
      ghost var base := header;
      for i := 8 downto 0
        invariant header == base + BigEndian(ShiftBytes(payLen, i), 8 - i)
      {
        header := header + [LowByte(ShiftBytes(payLen, i))];
      }
    }
    assert header == Header(opcode, payLen, true);
    var masked := new byte[payLen];
    for i := 0 to payLen
      invariant forall j | 0 <= j < i :: masked[j] == Xor(payload[j], maskKey[j % 4])
    {
      masked[i] := Xor(payload[i], maskKey[i % 4]);
    }
    assert masked[..] == Masked(payload, maskKey);
    frame := header + maskKey + masked[..];
    EncodeBytes(Outgoing(opcode, payload, Some(maskKey)));
    hide FrameBytes;
  }

  lemma SubSlice(s: seq<byte>, p: nat, a: nat, b: nat)
    requires a <= b && p + b <= |s|
    ensures s[p..][a..b] == s[p + a..p + b]
  {
  }

  /** Decode from the middle of an input, in offsets of that input. */
  lemma DecodeFrom(input: seq<byte>, p: nat)
    requires p <= |input|
    ensures var s := input[p..];
            Decode(s) ==
            if |s| < 2 || |s| < PayloadStart(s) || |s| < PayloadStart(s) + PayloadLength(s) then None
            else
              var key, start := p + KeyStart(s), p + PayloadStart(s);
              var end := start + PayloadLength(s);
              var raw := input[start..end];
              Some((Frame(Low4(s[0]), Payload(HighBit(s[1]), raw, input[key..start])), end - p))
  {
    var s := input[p..];
    if |s| >= 2 && |s| >= PayloadStart(s) {
      var key, start, n := KeyStart(s), PayloadStart(s), PayloadLength(s);
      if |s| >= start + n {
        SubSlice(input, p, key, start);
        SubSlice(input, p, start, start + n);
        var payload := Payload(HighBit(s[1]), s[start..start + n], s[key..start]);
        assert Decode(s) == Some((Frame(Low4(s[0]), payload), start + n));
      }
    }
  }

  /** The buffered reader of a connection. */
  class Reader {
    const input: seq<byte>
    var pos: nat

    ghost predicate Valid() reads this {
      pos <= |input|
    }

    constructor (input: seq<byte>)
      ensures Valid() && this.input == input && pos == 0
    {
      this.input, pos := input, 0;
    }

    method ReadFull(n: nat) returns (r: Option<seq<byte>>)
      requires Valid()
      modifies this
      ensures Valid()
      ensures if old(pos) + n <= |input| then r == Some(input[old(pos)..old(pos) + n]) && pos == old(pos) + n
              else r.None? && pos == |input|
    {
      if pos + n <= |input| {
        r := Some(input[pos..pos + n]);
        pos := pos + n;
      } else {
        r := None;
        pos := |input|;
      }
    }

    /** The masking key, if there is one, and the payload, unmasked in place. */
    method ReadBody(payLen: nat, masked: bool) returns (r: Option<seq<byte>>)
      requires Valid()
      modifies this
      ensures Valid()
      ensures var p := old(pos);
              var start := p + if masked then 4 else 0;
              if |input| < start + payLen then r.None? && pos == |input|
              else
                && pos == start + payLen
                && r == Some(Payload(masked, input[start..pos], input[p..start]))
    {
      var key := ReadFull(if masked then 4 else 0);
      if key.None? {
        return None;
      }
      var body := ReadFull(payLen);
      if body.None? {
        return None;
      }
      if !masked {
        return body;
      }
      var payload := Unmask(body.value, key.value);
      return Some(payload);
    }

    /** The two header bytes and the extended length. */
    method ReadHeader() returns (r: Option<(byte, bool, nat)>)
      requires Valid()
      modifies this
      ensures Valid()
      ensures var s := input[old(pos)..];
              if |s| < 2 || |s| < KeyStart(s) then r.None? && pos == |input|
              else
                && pos == old(pos) + KeyStart(s)
                && r == Some((Low4(s[0]), HighBit(s[1]), PayloadLength(s)))
    {
      ghost var p, s := pos, input[pos..];
      var h := ReadFull(2);
      if h.None? {
        return None;
      }
      assert h.value[0] == s[0] && h.value[1] == s[1];
      var code := Low7(h.value[1]);
      var extended := ReadFull(ExtendedSize(code));
      if extended.None? {
        return None;
      }
      SubSlice(input, p, 2, KeyStart(s));
      var payLen := if ExtendedSize(code) == 0 then code else BigEndianValue(extended.value);
      return Some((Low4(h.value[0]), HighBit(h.value[1]), payLen));
    }

    method ReadFrame() returns (r: Option<Frame>)
      requires Valid()
      modifies this
      ensures Valid()
      ensures match Decode(input[old(pos)..])
              case None => r.None? && pos == |input|
              case Some((f, n)) => r == Some(f) && pos == old(pos) + n
    {
      DecodeFrom(input, pos);
      var h := ReadHeader();
      if h.None? {
        return None;
      }
      var (opcode, masked, payLen) := h.value;
      var payload := ReadBody(payLen, masked);
      if payload.None? {
        return None;
      }
      return Some(Frame(opcode, payload.value));
    }
  }

  method Unmask(raw: seq<byte>, key: seq<byte>) returns (payload: seq<byte>)
    requires |key| == 4
    ensures payload == Masked(raw, key)
  {
    var a := new byte[|raw|](i requires 0 <= i < |raw| => raw[i]);
    for i := 0 to a.Length
      invariant forall j | 0 <= j < i :: a[j] == Xor(raw[j], key[j % 4])
      invariant forall j | i <= j < a.Length :: a[j] == raw[j]
    {
      a[i] := Xor(a[i], key[i % 4]);
    }
    payload := a[..];
  }
}

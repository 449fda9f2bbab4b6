/** A byte stream as the concatenation of the messages written to it, and where a cut falls. */
module Streams {
  import opened Text

  type byte = x: int | 0 <= x < 256

  // ---- Numbers as bytes ----

  function Pow2(k: nat): (p: nat)
    ensures p >= 1
  {
    if k == 0 then 1 else 2 * Pow2(k - 1)
  }

  lemma Pow2Byte(n: nat)
    ensures Pow2(8 * (n + 1)) == 256 * Pow2(8 * n)
  {
    var k := 8 * n;
    assert Pow2(k + 8) == 2 * Pow2(k + 7) == 4 * Pow2(k + 6) == 8 * Pow2(k + 5) == 16 * Pow2(k + 4);
    assert Pow2(k + 4) == 2 * Pow2(k + 3) == 4 * Pow2(k + 2) == 8 * Pow2(k + 1) == 16 * Pow2(k);
  }

  lemma BytePowers()
    ensures Pow2(16) == 65536 && Pow2(32) == 0x1_0000_0000 && Pow2(64) == 0x1_0000_0000_0000_0000
  {
    Pow2Byte(0);
    Pow2Byte(1);
    Pow2Byte(2);
    Pow2Byte(3);
    assert Pow2(32) == 0x1_0000_0000;
    Pow2Byte(4);
    Pow2Byte(5);
    Pow2Byte(6);
    Pow2Byte(7);
  }

  /** The number that bytes stand for, most significant first. */
  function BigEndianValue(s: seq<byte>): (v: nat)
    ensures v < Pow2(8 * |s|)
  {
    if s == [] then 0
    else
      Pow2Byte(|s| - 1);
      256 * BigEndianValue(s[..|s| - 1]) + s[|s| - 1]
  }

  // ---- Streams of messages ----

  function Concat<T>(chunks: seq<seq<T>>): seq<T> {
    if chunks == [] then [] else chunks[0] + Concat(chunks[1..])
  }

  lemma {:induction false} ConcatAppend<T>(a: seq<seq<T>>, b: seq<seq<T>>)
    ensures Concat(a + b) == Concat(a) + Concat(b)
  {
    if a == [] {
      assert a + b == b;
    } else {
      ConcatAppend(a[1..], b);
      assert (a + b)[1..] == a[1..] + b && (a + b)[0] == a[0];
      var first, tail := a[0], Concat(a[1..]);
      assert Concat(a + b) == first + (tail + Concat(b));
      assert first + (tail + Concat(b)) == (first + tail) + Concat(b);
    }
  }

  /** Whole chunks, then a proper prefix of the next one. */
  predicate CutsAt<T(==)>(chunks: seq<seq<T>>, m: nat, part: seq<T>) {
    && m <= |chunks|
    && if m == |chunks| then part == [] else |part| < |chunks[m]| && part == chunks[m][..|part|]
  }

  /** Every cut of a stream falls after some whole chunks and before the end of the next. */
  lemma {:induction false} CutPosition<T>(chunks: seq<seq<T>>, k: nat) returns (m: nat, part: seq<T>)
    requires k <= |Concat(chunks)|
    ensures CutsAt(chunks, m, part) && Concat(chunks)[..k] == Concat(chunks[..m]) + part
  {
    if chunks == [] {
      m, part := 0, [];
    } else {
      var first, rest := chunks[0], chunks[1..];
      if k < |first| {
        m, part := 0, first[..k];
        assert (first + Concat(rest))[..k] == first[..k];
      } else {
        var j, p := CutPosition(rest, k - |first|);
        m, part := j + 1, p;
        CutAfterFirst(first, Concat(rest), k);
        assert chunks[..m][1..] == rest[..j];
        assert Concat(chunks[..m]) == first + Concat(rest[..j]);
      }
    }
  }

  lemma CutAfterFirst<T>(first: seq<T>, rest: seq<T>, k: nat)
    requires |first| <= k <= |first| + |rest|
    ensures (first + rest)[..k] == first + rest[..k - |first|]
  {
  }

  /** Reading messages until the bytes run out: the messages, and the bytes left over. A decoder
      takes the bytes available and gives the first message with the number of bytes it took. */
  function DecodeAll<T>(decode: seq<byte> -> Option<(T, nat)>, s: seq<byte>): (seq<T>, seq<byte>)
    decreases |s|
  {
    match decode(s)
    case None => ([], s)
    case Some((x, n)) =>
      if n == 0 || n > |s| then ([], s)
      else
        var (rest, left) := DecodeAll(decode, s[n..]);
        ([x] + rest, left)
  }

  /** The chunk is an encoding of the message: the decoder recognises it in front of anything. */
  ghost predicate Encodes<T(!new)>(decode: seq<byte> -> Option<(T, nat)>, chunk: seq<byte>, x: T) {
    chunk != [] && forall tail :: decode(chunk + tail) == Some((x, |chunk|))
  }

  /** Whole messages followed by bytes that do not decode are read as just those messages. */
  lemma {:induction false} DecodeThenStop<T(!new)>(decode: seq<byte> -> Option<(T, nat)>, chunks: seq<seq<byte>>,
                                             xs: seq<T>, part: seq<byte>)
    requires |chunks| == |xs| && forall i | 0 <= i < |xs| :: Encodes(decode, chunks[i], xs[i])
    requires decode(part).None?
    ensures DecodeAll(decode, Concat(chunks) + part) == (xs, part)
  {
    if xs == [] {
      assert Concat(chunks) + part == part;
    } else {
      var tail := Concat(chunks[1..]) + part;
      DecodeThenStop(decode, chunks[1..], xs[1..], part);
      assert Encodes(decode, chunks[0], xs[0]);
      assert Concat(chunks) + part == chunks[0] + tail;
      assert (chunks[0] + tail)[|chunks[0]|..] == tail;
      assert [xs[0]] + xs[1..] == xs;
    }
  }

  /** A stream of encoded messages cut anywhere is read as exactly the messages that are whole
      before the cut, and leaves the beginning of the next one; no proper
      prefix of a chunk may decode. */
  lemma DecodeCut<T(!new)>(decode: seq<byte> -> Option<(T, nat)>, chunks: seq<seq<byte>>, xs: seq<T>, k: nat)
    returns (m: nat, part: seq<byte>)
    requires |chunks| == |xs| && forall i | 0 <= i < |xs| :: Encodes(decode, chunks[i], xs[i])
    requires forall i, j | 0 <= i < |chunks| && 0 <= j < |chunks[i]| :: decode(chunks[i][..j]).None?
    requires decode([]).None? && k <= |Concat(chunks)|
    ensures CutsAt(chunks, m, part) && Concat(chunks)[..k] == Concat(chunks[..m]) + part
    ensures DecodeAll(decode, Concat(chunks)[..k]) == (xs[..m], part)
  {
    m, part := CutPosition(chunks, k);
    DecodeThenStop(decode, chunks[..m], xs[..m], part);
  }
}

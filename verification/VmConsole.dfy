/**
 The VM console pipe: the C helper's encoder state machine writes length-prefixed messages to
 its standard output, the Go agent reads them back and forwards them as WebSocket frames.
 */
module VmConsole {
  import opened Text
  import opened Streams
  import WebSocket

  const KIND_INIT: byte := 73
  const KIND_FRAME: byte := 70
  const U32: int := 0x1_0000_0000

  // ---- The helper: what a paint emits ----

  /** A message the helper writes. The encoder size a frame was produced with is not on the
      wire; it is kept here to say what the frame belongs to. */
  datatype Msg =
    | Init(w: int, h: int)
    | Video(data: seq<byte>, w: int, h: int)

  /** One EndPaint callback: whether there is a picture at all, its size, whether an encoder of
      that size can be set up, and the encoder's output (empty when it holds the frame back). */
  datatype Paint = Paint(ready: bool, w: int, h: int, setupOk: bool, encoded: seq<byte>)

  datatype Encoder = Encoder(open: bool, w: int, h: int)

  const CLOSED := Encoder(false, 0, 0)

  function FrameOf(e: Encoder, encoded: seq<byte>): seq<Msg> {
    if encoded == [] then [] else [Video(encoded, e.w, e.h)]
  }

  /** vm_end_paint in stream mode. */
  function EndPaint(e: Encoder, p: Paint): (Encoder, seq<Msg>) {
    if !p.ready then (e, [])
    else if e.open && e.w == p.w && e.h == p.h then (e, FrameOf(e, p.encoded))
    else if !p.setupOk then (e.(open := false), [])
    else
      var fresh' := Encoder(true, p.w, p.h);
      (fresh', [Init(p.w, p.h)] + FrameOf(fresh', p.encoded))
  }

  function EncoderAfter(paints: seq<Paint>): Encoder {
    if paints == [] then CLOSED
    else EndPaint(EncoderAfter(paints[..|paints| - 1]), paints[|paints| - 1]).0
  }

  function Messages(paints: seq<Paint>): seq<Msg> {
    if paints == [] then []
    else
      var rest := paints[..|paints| - 1];
      Messages(rest) + EndPaint(EncoderAfter(rest), paints[|paints| - 1]).1
  }

  // ---- What the messages are, read off the paints ----

  /** Paint i had a picture of this size and an encoder of it, and every later picture has this size. */
  predicate OpenedBy(paints: seq<Paint>, i: nat, w: int, h: int) {
    && i < |paints| && paints[i].ready && paints[i].setupOk && paints[i].w == w && paints[i].h == h
    && forall j | i < j < |paints| && paints[j].ready :: paints[j].w == w && paints[j].h == h
  }

  /** After these paints an encoder of this size is open. */
  predicate OpenAt(paints: seq<Paint>, w: int, h: int) {
    exists i | 0 <= i < |paints| :: OpenedBy(paints, i, w, h)
  }

  lemma OpenAtSnoc(front: seq<Paint>, p: Paint, w: int, h: int)
    ensures OpenAt(front + [p], w, h) <==>
              || (OpenAt(front, w, h) && (p.ready ==> p.w == w && p.h == h))
              || (p.ready && p.setupOk && p.w == w && p.h == h)
  {
    var paints := front + [p];
    assert paints[|front|] == p && forall j | 0 <= j < |front| :: paints[j] == front[j];
    if i :| 0 <= i < |paints| && OpenedBy(paints, i, w, h) {
      assert i < |front| ==> OpenedBy(front, i, w, h);
    }
    if i :| 0 <= i < |front| && OpenedBy(front, i, w, h) {
      assert (p.ready ==> p.w == w && p.h == h) ==> OpenedBy(paints, i, w, h);
    }
    assert p.ready && p.setupOk && p.w == w && p.h == h ==> OpenedBy(paints, |front|, w, h);
  }

  lemma {:induction false} EncoderIs(paints: seq<Paint>, w: int, h: int)
    ensures var e := EncoderAfter(paints); e.open && e.w == w && e.h == h <==> OpenAt(paints, w, h)
  {
    if paints != [] {
      var front, p := paints[..|paints| - 1], paints[|paints| - 1];
      assert paints == front + [p];
      EncoderIs(front, w, h);
      EncoderIs(front, p.w, p.h);
      OpenAtSnoc(front, p, w, h);
    }
  }

  /** The paint announces a size: it has a picture, and an encoder of that size only from now on. */
  predicate Opens(front: seq<Paint>, p: Paint) {
    p.ready && p.setupOk && !OpenAt(front, p.w, p.h)
  }

  /** The paint's encoder output is sent: it has a picture, an encoder of its size, and some output. */
  predicate Shows(front: seq<Paint>, p: Paint) {
    p.ready && (OpenAt(front, p.w, p.h) || p.setupOk) && p.encoded != []
  }

  /** In every paint history, each paint adds exactly these messages to those of the ones before. */
  lemma PaintAdds(front: seq<Paint>, p: Paint)
    ensures Messages(front + [p]) ==
              Messages(front)
              + (if Opens(front, p) then [Init(p.w, p.h)] else [])
              + (if Shows(front, p) then [Video(p.encoded, p.w, p.h)] else [])
  {
    assert (front + [p])[..|front|] == front;
    EncoderIs(front, p.w, p.h);
  }

  /** The pictures a message sequence carries, and those a paint history shows. */
  function Pictures(msgs: seq<Msg>): seq<seq<byte>> {
    if msgs == [] then []
    else
      var last := msgs[|msgs| - 1];
      Pictures(msgs[..|msgs| - 1]) + if last.Video? then [last.data] else []
  }

  function Shown(paints: seq<Paint>): seq<seq<byte>> {
    if paints == [] then []
    else
      var front, p := paints[..|paints| - 1], paints[|paints| - 1];
      Shown(front) + if Shows(front, p) then [p.encoded] else []
  }

  lemma PicturesSnoc(msgs: seq<Msg>, m: Msg)
    ensures Pictures(msgs + [m]) == Pictures(msgs) + if m.Video? then [m.data] else []
  {
    assert (msgs + [m])[..|msgs|] == msgs;
  }

  /** No picture is lost, added or reordered. */
  lemma {:induction false} PicturesAreShown(paints: seq<Paint>)
    ensures Pictures(Messages(paints)) == Shown(paints)
  {
    if paints != [] {
      var front, p := paints[..|paints| - 1], paints[|paints| - 1];
      assert paints == front + [p];
      PicturesAreShown(front);
      PaintAdds(front, p);
      var before := Messages(front);
      var mid := before + if Opens(front, p) then [Init(p.w, p.h)] else [];
      PicturesSnoc(before, Init(p.w, p.h));
      PicturesSnoc(mid, Video(p.encoded, p.w, p.h));
      assert before + [] == before && mid + [] == mid;
    }
  }

  /** The size announced by the last init message. */
  function Announced(msgs: seq<Msg>): Option<(int, int)> {
    if msgs == [] then None
    else
      match msgs[|msgs| - 1]
      case Init(w, h) => Some((w, h))
      case Video(_, _, _) => Announced(msgs[..|msgs| - 1])
  }

  predicate FramesAreAnnounced(msgs: seq<Msg>) {
    forall i | 0 <= i < |msgs| && msgs[i].Video? :: Announced(msgs[..i]) == Some((msgs[i].w, msgs[i].h))
  }

  lemma AppendMessage(msgs: seq<Msg>, m: Msg)
    requires FramesAreAnnounced(msgs)
    requires m.Video? ==> Announced(msgs) == Some((m.w, m.h))
    ensures FramesAreAnnounced(msgs + [m])
    ensures Announced(msgs + [m]) == if m.Init? then Some((m.w, m.h)) else Announced(msgs)
  {
    var more := msgs + [m];
    assert more[..|msgs|] == msgs;
    forall i | 0 <= i < |more| && more[i].Video?
      ensures Announced(more[..i]) == Some((more[i].w, more[i].h))
    {
      if i < |msgs| {
        assert more[..i] == msgs[..i];
      }
    }
  }

  lemma AnnouncedPrefix(msgs: seq<Msg>, m: nat)
    requires FramesAreAnnounced(msgs) && m <= |msgs|
    ensures FramesAreAnnounced(msgs[..m])
  {
    forall i | 0 <= i < m && msgs[i].Video?
      ensures Announced(msgs[..m][..i]) == Some((msgs[i].w, msgs[i].h))
    {
      assert msgs[..m][..i] == msgs[..i];
    }
  }

  /** In every paint history, each frame follows an init that announced the size of the very
      encoder that produced it, with no other init in between. */
  lemma {:induction false} EveryFrameIsAnnounced(paints: seq<Paint>)
    ensures FramesAreAnnounced(Messages(paints))
    ensures var e := EncoderAfter(paints); e.open ==> Announced(Messages(paints)) == Some((e.w, e.h))
  {
    if paints != [] {
      var rest := paints[..|paints| - 1];
      EveryFrameIsAnnounced(rest);
      var before := Messages(rest);
      var (e, out) := EndPaint(EncoderAfter(rest), paints[|paints| - 1]);
      if |out| == 1 {
        assert out == [out[0]];
        AppendMessage(before, out[0]);
      } else if |out| == 2 {
        AppendMessage(before, out[0]);
        AppendMessage(before + [out[0]], out[1]);
        assert before + out == before + [out[0]] + [out[1]];
      } else {
        assert before + out == before;
      }
    }
  }

  // ---- The pipe format ----

  function LittleEndian(n: nat, k: nat): (s: seq<byte>)
    ensures |s| == k
  {
    if k == 0 then [] else [n % 256] + LittleEndian(n / 256, k - 1)
  }

  function LittleEndianValue(s: seq<byte>): nat {
    if s == [] then 0 else s[0] + 256 * LittleEndianValue(s[1..])
  }

  lemma {:induction false} LittleEndianRoundTrip(n: nat, k: nat)
    requires n < Pow2(8 * k)
    ensures LittleEndianValue(LittleEndian(n, k)) == n
  {
    if k > 0 {
      Pow2Byte(k - 1);
      LittleEndianRoundTrip(n / 256, k - 1);
      assert LittleEndian(n, k)[1..] == LittleEndian(n / 256, k - 1);
    }
  }

  /** put_u32le: four bytes of the value cast to uint32_t. */
  function PutU32(v: int): (s: seq<byte>)
    ensures |s| == 4
  {
    LittleEndian(v % U32, 4)
  }

  /** The four bytes of a number cast to uint32_t, least significant first. */
  function Bytes32(v: int): seq<byte> {
    var u := v % 0x1_0000_0000;
    [u % 0x100, u / 0x100 % 0x100, u / 0x1_0000 % 0x100, u / 0x100_0000 % 0x100]
  }

  lemma PutU32Bytes(v: int)
    ensures PutU32(v) == Bytes32(v)
  {
    var u := v % U32;
    assert LittleEndian(u / 256 / 256 / 256, 1) == [u / 256 / 256 / 256 % 256];
    assert LittleEndian(u / 256 / 256, 2) == [u / 256 / 256 % 256] + LittleEndian(u / 256 / 256 / 256, 1);
    assert LittleEndian(u / 256, 3) == [u / 256 % 256] + LittleEndian(u / 256 / 256, 2);
    assert LittleEndian(u, 4) == [u % 256] + LittleEndian(u / 256, 3);
  }

  lemma PutU32ReadsBack(v: int)
    ensures LittleEndianValue(PutU32(v)) == v % U32
  {
    BytePowers();
    LittleEndianRoundTrip(v % U32, 4);
  }

  /** A message as the reader sees it. */
  datatype Raw = Raw(kind: byte, payload: seq<byte>)

  function ToRaw(m: Msg): Raw {
    match m
    case Init(w, h) => Raw(KIND_INIT, PutU32(w) + PutU32(h))
    case Video(data, _, _) => Raw(KIND_FRAME, data)
  }

  /** x264 gives the size of a frame as an int. */
  predicate Writable(m: Msg) {
    m.Video? ==> |m.data| < 0x8000_0000
  }

  /** emit_init and emit_frame. */
  function EncodeRaw(r: Raw): seq<byte> {
    [r.kind] + PutU32(|r.payload|) + r.payload
  }

  function DecodeRaw(s: seq<byte>): Option<(Raw, nat)> {
    if |s| < 5 then None
    else
      var n := LittleEndianValue(s[1..5]);
      if |s| < 5 + n then None else Some((Raw(s[0], s[5..5 + n]), 5 + n))
  }

  lemma RawRoundTrip(r: Raw)
    requires |r.payload| < U32
    ensures Encodes(DecodeRaw, EncodeRaw(r), r)
    ensures forall j | 0 <= j < |EncodeRaw(r)| :: DecodeRaw(EncodeRaw(r)[..j]).None?
  {
    var n := |r.payload|;
    var s := EncodeRaw(r);
    PutU32ReadsBack(n);
    assert n % U32 == n;
    hide PutU32, LittleEndianValue;
    assert s[1..5] == PutU32(n);
    forall tail
      ensures DecodeRaw(s + tail) == Some((r, |s|))
    {
      assert (s + tail)[1..5] == PutU32(n);
      assert (s + tail)[5..5 + n] == r.payload;
    }
    forall j | 0 <= j < |s|
      ensures DecodeRaw(s[..j]).None?
    {
      if j >= 5 {
        assert s[..j][1..5] == PutU32(n);
      }
    }
  }

  function Raws(msgs: seq<Msg>): (rs: seq<Raw>)
    ensures |rs| == |msgs|
  {
    seq(|msgs|, i requires 0 <= i < |msgs| => ToRaw(msgs[i]))
  }

  function Chunks(msgs: seq<Msg>): (cs: seq<seq<byte>>)
    ensures |cs| == |msgs|
  {
    seq(|msgs|, i requires 0 <= i < |msgs| => EncodeRaw(ToRaw(msgs[i])))
  }

  function Pipe(msgs: seq<Msg>): seq<byte> {
    Concat(Chunks(msgs))
  }

  predicate AllWritable(msgs: seq<Msg>) {
    forall i | 0 <= i < |msgs| :: Writable(msgs[i])
  }

  /** The pipe cut at k holds the first m messages whole, and then `part` of the next. */
  predicate CutPipe(msgs: seq<Msg>, k: nat, m: nat, part: seq<byte>) {
    && k <= |Pipe(msgs)| && CutsAt(Chunks(msgs), m, part)
    && Pipe(msgs)[..k] == Concat(Chunks(msgs)[..m]) + part
    && (k == |Pipe(msgs)| ==> m == |msgs| && part == [])
  }

  /** The reader recovers exactly the writer's messages; when the helper dies in the middle of a
      message, exactly those that were written whole, and the beginning of the next is left over. */
  lemma PipeRoundTrip(msgs: seq<Msg>, k: nat) returns (m: nat, part: seq<byte>)
    requires AllWritable(msgs) && k <= |Pipe(msgs)|
    ensures CutPipe(msgs, k, m, part)
    ensures DecodeAll(DecodeRaw, Pipe(msgs)[..k]) == (Raws(msgs)[..m], part)
  {
    forall i | 0 <= i < |msgs|
      ensures Encodes(DecodeRaw, Chunks(msgs)[i], Raws(msgs)[i])
      ensures forall j | 0 <= j < |Chunks(msgs)[i]| :: DecodeRaw(Chunks(msgs)[i][..j]).None?
    {
      RawRoundTrip(ToRaw(msgs[i]));
    }
    m, part := DecodeCut(DecodeRaw, Chunks(msgs), Raws(msgs), k);
    if k == |Pipe(msgs)| {
      DecodeThenStop(DecodeRaw, Chunks(msgs), Raws(msgs), []);
      assert Pipe(msgs)[..k] == Pipe(msgs) + [];
    }
  }

  // ---- Forwarding ----

  /** What the agent forwards: an init as JSON text, a frame as binary with a leading 0x02. */
  datatype Forwarded = InitText(w: nat, h: nat) | FrameBinary(bytes: seq<byte>)

  function Forward(r: Raw): seq<Forwarded> {
    if r.kind == KIND_INIT then
      if |r.payload| >= 8 then
        [InitText(LittleEndianValue(r.payload[..4]), LittleEndianValue(r.payload[4..8]))]
      else []
    else if r.kind == KIND_FRAME then [FrameBinary([2] + r.payload)]
    else []
  }

  /** What the reader does with any message: an init of at least eight bytes is forwarded as its two
      numbers, a frame as it is, and everything else is ignored. */
  lemma ForwardIs(r: Raw)
    ensures r.kind == 'I' as int && |r.payload| >= 8 ==>
              Forward(r) == [InitText(LittleEndianValue(r.payload[..4]), LittleEndianValue(r.payload[4..8]))]
    ensures r.kind == 'F' as int ==> Forward(r) == [FrameBinary([0x02] + r.payload)]
    ensures r.kind != 'F' as int && (r.kind != 'I' as int || |r.payload| < 8) ==> Forward(r) == []
  {
  }

  function ForwardAll(rs: seq<Raw>): seq<Forwarded> {
    if rs == [] then [] else Forward(rs[0]) + ForwardAll(rs[1..])
  }

  function Meant(m: Msg): Forwarded {
    match m
    case Init(w, h) => InitText(w % U32, h % U32)
    case Video(data, _, _) => FrameBinary([2] + data)
  }

  function MeantAll(msgs: seq<Msg>): (fs: seq<Forwarded>)
    ensures |fs| == |msgs|
  {
    seq(|msgs|, i requires 0 <= i < |msgs| => Meant(msgs[i]))
  }

  lemma ForwardOne(m: Msg)
    ensures Forward(ToRaw(m)) == [Meant(m)]
  {
    if m.Init? {
      var p := PutU32(m.w) + PutU32(m.h);
      assert p[..4] == PutU32(m.w) && p[4..8] == PutU32(m.h);
      PutU32ReadsBack(m.w);
      PutU32ReadsBack(m.h);
    }
  }

  lemma {:induction false} ForwardsMessages(msgs: seq<Msg>)
    ensures ForwardAll(Raws(msgs)) == MeantAll(msgs)
  {
    if msgs != [] {
      ForwardsMessages(msgs[1..]);
      ForwardOne(msgs[0]);
      assert Raws(msgs)[1..] == Raws(msgs[1..]);
      assert MeantAll(msgs) == [Meant(msgs[0])] + MeantAll(msgs[1..]);
    }
  }

  // ---- From a paint history to the server ----

  function ToFrame(f: Forwarded, json: (nat, nat) -> seq<byte>, key: seq<byte>): WebSocket.Outgoing {
    match f
    case InitText(w, h) => WebSocket.Outgoing(1, json(w, h), Some(key))
    case FrameBinary(bytes) => WebSocket.Outgoing(2, bytes, Some(key))
  }

  function ToFrames(fs: seq<Forwarded>, json: (nat, nat) -> seq<byte>, keys: seq<seq<byte>>)
    : (os: seq<WebSocket.Outgoing>)
    requires |keys| == |fs|
    ensures |os| == |fs|
    ensures forall i | 0 <= i < |fs| :: os[i] == ToFrame(fs[i], json, keys[i])
  {
    seq(|fs|, i requires 0 <= i < |fs| => ToFrame(fs[i], json, keys[i]))
  }

  /** What the server decodes of a forwarded message. */
  function ArrivedOne(f: Forwarded, json: (nat, nat) -> seq<byte>): WebSocket.Frame {
    match f
    case InitText(w, h) => WebSocket.Frame(1, json(w, h))
    case FrameBinary(bytes) => WebSocket.Frame(2, bytes)
  }

  function Arrived(fs: seq<Forwarded>, json: (nat, nat) -> seq<byte>): (r: seq<WebSocket.Frame>)
    ensures |r| == |fs|
    ensures forall i | 0 <= i < |fs| :: r[i] == ArrivedOne(fs[i], json)
  {
    seq(|fs|, i requires 0 <= i < |fs| => ArrivedOne(fs[i], json))
  }

  lemma SeenAsArrived(f: Forwarded, json: (nat, nat) -> seq<byte>, key: seq<byte>)
    ensures WebSocket.Seen(ToFrame(f, json, key)) == ArrivedOne(f, json)
  {
  }

  predicate Forwardable(f: Forwarded, json: (nat, nat) -> seq<byte>) {
    match f
    case InitText(w, h) => |json(w, h)| < WebSocket.LENGTH_LIMIT
    case FrameBinary(bytes) => |bytes| < WebSocket.LENGTH_LIMIT
  }

  lemma AgentToServer(fs: seq<Forwarded>, json: (nat, nat) -> seq<byte>, keys: seq<seq<byte>>)
    requires |keys| == |fs| && forall i | 0 <= i < |keys| :: |keys[i]| == 4
    requires forall i | 0 <= i < |fs| :: Forwardable(fs[i], json)
    ensures WebSocket.AllSendable(ToFrames(fs, json, keys))
    ensures DecodeAll(WebSocket.Decode, WebSocket.Wire(ToFrames(fs, json, keys))) == (Arrived(fs, json), [])
  {
    var out := ToFrames(fs, json, keys);
    forall i | 0 <= i < |fs|
      ensures WebSocket.Sendable(out[i]) && WebSocket.Seen(out[i]) == Arrived(fs, json)[i]
    {
      SeenAsArrived(fs[i], json, keys[i]);
    }
    WebSocket.StreamRoundTrip(out);
    assert WebSocket.SeenAll(out) == Arrived(fs, json);
  }

  /** What the agent makes of the helper's pipe. */
  function Relayed(pipe: seq<byte>): seq<Forwarded> {
    ForwardAll(DecodeAll(DecodeRaw, pipe).0)
  }

  /** From a pipe cut anywhere the agent relays exactly what the whole messages before the cut mean. */
  lemma HelperToAgent(msgs: seq<Msg>, k: nat) returns (m: nat, part: seq<byte>)
    requires AllWritable(msgs) && k <= |Pipe(msgs)|
    ensures CutPipe(msgs, k, m, part)
    ensures Relayed(Pipe(msgs)[..k]) == MeantAll(msgs[..m])
  {
    m, part := PipeRoundTrip(msgs, k);
    assert Raws(msgs)[..m] == Raws(msgs[..m]);
    ForwardsMessages(msgs[..m]);
  }

  /** What the server is to see of a paint history: each announced size as the text of its JSON
      message, each picture sent as 0x02 and the encoder's bytes. */
  function ServerSees(paints: seq<Paint>, json: (nat, nat) -> seq<byte>): seq<WebSocket.Frame> {
    if paints == [] then []
    else
      var front, p := paints[..|paints| - 1], paints[|paints| - 1];
      ServerSees(front, json)
      + (if Opens(front, p) then [WebSocket.Frame(1, json(p.w % 0x1_0000_0000, p.h % 0x1_0000_0000))] else [])
      + (if Shows(front, p) then [WebSocket.Frame(2, [2] + p.encoded)] else [])
  }

  lemma {:induction false} ArrivedIsSeen(paints: seq<Paint>, json: (nat, nat) -> seq<byte>)
    ensures Arrived(MeantAll(Messages(paints)), json) == ServerSees(paints, json)
  {
    if paints != [] {
      var front, p := paints[..|paints| - 1], paints[|paints| - 1];
      assert paints == front + [p];
      ArrivedIsSeen(front, json);
      PaintAdds(front, p);
      hide Messages, Opens, Shows, Arrived, MeantAll;
      var inits := if Opens(front, p) then [Init(p.w, p.h)] else [];
      var videos := if Shows(front, p) then [Video(p.encoded, p.w, p.h)] else [];
      ArrivedAppend(Messages(front), inits, json);
      ArrivedAppend(Messages(front) + inits, videos, json);
      ArrivedOf(inits, json);
      ArrivedOf(videos, json);
    } else {
      ArrivedOf([], json);
    }
  }

  lemma ArrivedAppend(a: seq<Msg>, b: seq<Msg>, json: (nat, nat) -> seq<byte>)
    ensures Arrived(MeantAll(a + b), json) == Arrived(MeantAll(a), json) + Arrived(MeantAll(b), json)
  {
    hide ArrivedOne, Meant;
  }

  lemma ArrivedOf(msgs: seq<Msg>, json: (nat, nat) -> seq<byte>)
    requires |msgs| <= 1
    ensures Arrived(MeantAll(msgs), json) == if msgs == [] then [] else [ArrivedOne(Meant(msgs[0]), json)]
  {
    hide ArrivedOne, Meant;
  }

  /** The frames the agent writes for a console: those of the relay, sender 0, in whatever order with
      the pings and pongs of the other goroutines on the same connection. */
  ghost predicate Carries(wire: seq<WebSocket.Outgoing>, senders: seq<nat>, fs: seq<Forwarded>,
                          json: (nat, nat) -> seq<byte>, keys: seq<seq<byte>>)
  {
    && |senders| == |wire| && WebSocket.AllSendable(wire)
    && |keys| == |fs| && WebSocket.From(wire, senders, 0) == ToFrames(fs, json, keys)
  }

  /** For every paint history, every end of the helper, every choice of masking keys, every
      interleaving with other senders and every cut of the connection, what the server decodes
      from the agent's WebSocket as the relay's is, message by message, what the helper meant by
      the messages it wrote whole, as far as they were sent whole: each init as its JSON text,
      each frame as 0x02 and the encoder's bytes, and each frame announced. Without a cut of the
      connection nothing is missing. */
  lemma PaintsReachTheServer(paints: seq<Paint>, msgs: seq<Msg>, k: nat,
                             json: (nat, nat) -> seq<byte>, keys: seq<seq<byte>>,
                             wire: seq<WebSocket.Outgoing>, senders: seq<nat>, q: nat)
    returns (m: nat, part: seq<byte>, sent: nat, rest: seq<byte>)
    requires msgs == Messages(paints) && AllWritable(msgs) && k <= |Pipe(msgs)|
    requires Carries(wire, senders, Relayed(Pipe(msgs)[..k]), json, keys) && q <= |WebSocket.Wire(wire)|
    ensures CutPipe(msgs, k, m, part) && FramesAreAnnounced(msgs[..m])
    ensures CutsAt(WebSocket.EncodeAll(wire), sent, rest) && m <= |ServerSees(paints, json)|
    ensures var (got, left) := DecodeAll(WebSocket.Decode, WebSocket.Wire(wire)[..q]);
            && left == rest && |got| == sent
            && WebSocket.From(got, senders[..sent], 0) <= ServerSees(paints, json)[..m]
            && (sent == |wire| ==> WebSocket.From(got, senders[..sent], 0) == ServerSees(paints, json)[..m])
            && (k == |Pipe(msgs)| ==> m == |ServerSees(paints, json)|)
  {
    hide Messages, FramesAreAnnounced, ServerSees, MeantAll, Arrived, ToFrames, Relayed, Pipe, WebSocket.From;
    hide WebSocket.SeenAll, WebSocket.EncodeAll, WebSocket.Wire;
    EveryFrameIsAnnounced(paints);
    m, part := HelperToAgent(msgs, k);
    AnnouncedPrefix(msgs, m);
    sent, rest := WebSocket.ConcurrentSendersCut(wire, senders, 0, q);
    AllSeenAsArrived(MeantAll(msgs[..m]), json, keys);
    ArrivedIsSeen(paints, json);
    ArrivedPrefix(msgs, m, json);
  }

  lemma AllSeenAsArrived(fs: seq<Forwarded>, json: (nat, nat) -> seq<byte>, keys: seq<seq<byte>>)
    requires |keys| == |fs|
    ensures WebSocket.SeenAll(ToFrames(fs, json, keys)) == Arrived(fs, json)
  {
    forall i | 0 <= i < |fs|
      ensures WebSocket.SeenAll(ToFrames(fs, json, keys))[i] == Arrived(fs, json)[i]
    {
      SeenAsArrived(fs[i], json, keys[i]);
    }
  }

  lemma ArrivedPrefix(msgs: seq<Msg>, m: nat, json: (nat, nat) -> seq<byte>)
    requires m <= |msgs|
    ensures |Arrived(MeantAll(msgs), json)| == |msgs|
    ensures Arrived(MeantAll(msgs[..m]), json) == Arrived(MeantAll(msgs), json)[..m]
  {
    hide ArrivedOne, Meant;
  }

  // ---- The code itself ----

  /** The helper's globals in stream mode. */
  class Helper {
    var encOpen: bool
    var encW: int
    var encH: int
    var initSent: bool
    var out: seq<byte>
    ghost var painted: seq<Paint>

    ghost predicate Valid() reads this {
      && EncoderAfter(painted) == Encoder(encOpen, encW, encH)
      && out == Pipe(Messages(painted))
    }

    constructor ()
      ensures Valid() && painted == []
    {
      encOpen, encW, encH, initSent := false, 0, 0, false;
      out, painted := [], [];
    }

    method EmitInit(w: int, h: int)
      modifies this`out, this`initSent
      ensures initSent
      ensures out == old(out) + if old(initSent) then [] else EncodeRaw(ToRaw(Init(w, h)))
      ensures !old(initSent) ==> out == old(out) + ([73, 8, 0, 0, 0] + Bytes32(w) + Bytes32(h))
    {
      if initSent {
        return;
      }
      var msg := [KIND_INIT] + PutU32(8) + PutU32(w) + PutU32(h);
      assert msg == EncodeRaw(ToRaw(Init(w, h)));
      PutU32Bytes(8);
      PutU32Bytes(w);
      PutU32Bytes(h);
      out := out + msg;
      initSent := true;
    }

    method EmitFrame(data: seq<byte>)
      modifies this`out
      ensures out == old(out) + EncodeRaw(Raw(KIND_FRAME, data))
      ensures out == old(out) + ([70] + Bytes32(|data|) + data)
    {
      PutU32Bytes(|data|);
      out := out + ([KIND_FRAME] + PutU32(|data|) + data);
    }

    /** vm_end_paint; the picture and the encoder's answers come with the paint. */
    method PaintOne(p: Paint) returns (ok: bool)
      modifies this`encOpen, this`encW, this`encH, this`initSent, this`out
      ensures var (e, msgs) := EndPaint(old(Encoder(encOpen, encW, encH)), p);
              Encoder(encOpen, encW, encH) == e && out == old(out) + Pipe(msgs)
      ensures ok <==> !p.ready || p.setupOk || old(encOpen && encW == p.w && encH == p.h)
    {
      PipeOne([]);
      hide Pipe, EncodeRaw;
      if !p.ready {
        return true;
      }
      ghost var inits: seq<Msg> := [];
      if !encOpen || encW != p.w || encH != p.h {
        encOpen := false;
        if !p.setupOk {
          return false;
        }
        encOpen, encW, encH := true, p.w, p.h;
        initSent := false;
        EmitInit(p.w, p.h);
        inits := [Init(p.w, p.h)];
        PipeOne(inits);
      }
      assert out == old(out) + Pipe(inits);
      ghost var frame := FrameOf(Encoder(true, encW, encH), p.encoded);
      PipeOne(frame);
      PipeAppend(inits, frame);
      assert inits + frame == EndPaint(old(Encoder(encOpen, encW, encH)), p).1;
      if |p.encoded| > 0 {
        EmitFrame(p.encoded);
      }
      assert out == (old(out) + Pipe(inits)) + Pipe(frame);
      Associative(old(out), Pipe(inits), Pipe(frame));
      return true;
    }

    method EndPaintCallback(p: Paint) returns (ok: bool)
      requires Valid()
      modifies this
      ensures Valid() && painted == old(painted) + [p]
    {
      ok := PaintOne(p);
      ghost var before := painted;
      painted := painted + [p];
      assert painted[..|painted| - 1] == before;
      PipeAppend(Messages(before), EndPaint(EncoderAfter(before), p).1);
    }
  }

  lemma Associative(a: seq<byte>, b: seq<byte>, c: seq<byte>)
    ensures (a + b) + c == a + (b + c)
  {
  }

  lemma PipeAppend(a: seq<Msg>, b: seq<Msg>)
    ensures Pipe(a + b) == Pipe(a) + Pipe(b)
  {
    assert Chunks(a + b) == Chunks(a) + Chunks(b);
    ConcatAppend(Chunks(a), Chunks(b));
  }

  lemma PipeOne(msgs: seq<Msg>)
    requires |msgs| <= 1
    ensures Pipe(msgs) == if msgs == [] then [] else EncodeRaw(ToRaw(msgs[0]))
  {
    if msgs != [] {
      var c := EncodeRaw(ToRaw(msgs[0]));
      assert Chunks(msgs) == [c];
      assert Concat([c]) == c + Concat([c][1..]);
    }
  }

  lemma RelayedUnfolds(rest: seq<byte>)
    ensures Relayed(rest) == match DecodeRaw(rest)
                             case None => []
                             case Some((r, n)) => Forward(r) + Relayed(rest[n..])
  {
    match DecodeRaw(rest)
    case None =>
    case Some((r, n)) =>
      var later := DecodeAll(DecodeRaw, rest[n..]).0;
      assert ([r] + later)[1..] == later;
  }

  /** The agent's reader loop: five header bytes, the payload, then the switch on the kind. */
  method RelayLoop(pipe: seq<byte>) returns (out: seq<Forwarded>)
    ensures out == Relayed(pipe)
  {
    out := [];
    var rest := pipe;
    while true
      invariant out + Relayed(rest) == Relayed(pipe)
      decreases |rest|
    {
      RelayedUnfolds(rest);
      if |rest| < 5 {
        break;
      }
      var n := LittleEndianValue(rest[1..5]);
      if |rest| < 5 + n {
        break;
      }
      var sent := Forward(Raw(rest[0], rest[5..5 + n]));
      assert out + (sent + Relayed(rest[5 + n..])) == (out + sent) + Relayed(rest[5 + n..]);
      out := out + sent;
      rest := rest[5 + n..];
    }
  }
}

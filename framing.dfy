/**
 * Reading one length-prefixed packet from a connection (`read_packet`).
 * The socket is the sequence of chunks its reads return; bytes received but
 * not yet framed stay in the connection's buffer for the next packet.
 */
module Framing {
  import opened Wrappers
  import opened Protocol

  /** One socket read: some bytes (none at end of stream), a reset connection, or another error. */
  datatype Chunk = Data(bytes: seq<byte>) | Reset | Failed

  /** The bytes carried by a run of reads. */
  function Bytes(chunks: seq<Chunk>): seq<byte>
  {
    if chunks == [] then [] else (if chunks[0].Data? then chunks[0].bytes else []) + Bytes(chunks[1..])
  }

  /** What the next read returns; once the chunks are used up, reads report end of stream. */
  function NextChunk(stream: seq<Chunk>): Chunk
  {
    if stream == [] then Data([]) else stream[0]
  }

  function AfterRead(stream: seq<Chunk>): seq<Chunk>
  {
    if stream == [] then [] else stream[1..]
  }

  /** Every read delivers at least one byte: the stream neither ends nor fails on them. */
  ghost predicate AllData(chunks: seq<Chunk>)
  {
    forall i :: 0 <= i < |chunks| ==> chunks[i].Data? && chunks[i].bytes != []
  }

  lemma {:induction false} BytesAppend(a: seq<Chunk>, b: seq<Chunk>)
    ensures Bytes(a + b) == Bytes(a) + Bytes(b)
  {
    if a == [] {
      assert a + b == b;
    } else {
      BytesAppend(a[1..], b);
      assert (a + b)[1..] == a[1..] + b;
      var head := if a[0].Data? then a[0].bytes else [];
      Associative(head, Bytes(a[1..]), Bytes(b));
    }
  }

  /** Reads consumed on the way from `stream` to its suffix `rest`. */
  function Consumed(stream: seq<Chunk>, rest: seq<Chunk>): seq<Chunk>
    requires |rest| <= |stream|
  {
    stream[..|stream| - |rest|]
  }

  ghost predicate SuffixOf(rest: seq<Chunk>, stream: seq<Chunk>)
  {
    |rest| <= |stream| && rest == stream[|stream| - |rest|..]
  }

  lemma ConsumedAppend(stream: seq<Chunk>, mid: seq<Chunk>, rest: seq<Chunk>)
    requires SuffixOf(mid, stream) && SuffixOf(rest, mid)
    ensures SuffixOf(rest, stream)
    ensures Bytes(Consumed(stream, rest)) == Bytes(Consumed(stream, mid)) + Bytes(Consumed(mid, rest))
  {
    assert Consumed(stream, rest) == Consumed(stream, mid) + Consumed(mid, rest);
    BytesAppend(Consumed(stream, mid), Consumed(mid, rest));
  }

  datatype FillEnd = Full | Eof | Fault
  datatype Fill = Fill(buf: seq<byte>, rest: seq<Chunk>, end: FillEnd)

  /**
   * One buffering loop of `read_packet`: read and append chunks until the
   * buffer holds `need` bytes. An empty read or a reset stops it as end of
   * stream, any other read error as a fault; the buffer keeps what arrived.
   */
  function FillTo(buf: seq<byte>, stream: seq<Chunk>, need: nat): (f: Fill)
    decreases |stream|
    ensures SuffixOf(f.rest, stream)
    ensures f.buf == buf + Bytes(Consumed(stream, f.rest))
    ensures f.end == Full <==> |f.buf| >= need
    ensures |buf| >= need ==> f.rest == stream
  {
    if |buf| >= need then Fill(buf, stream, Full)
    else match NextChunk(stream)
      case Reset => Fill(buf, AfterRead(stream), Eof)
      case Failed => Fill(buf, AfterRead(stream), Fault)
      case Data(tmp) =>
        if tmp == [] then Fill(buf, AfterRead(stream), Eof)
        else
          var f := FillTo(buf + tmp, stream[1..], need);
          assert Consumed(stream, f.rest) == [stream[0]] + Consumed(stream[1..], f.rest);
          f
  }

  /**
   * Buffering reads only while the buffer is short: before each read it
   * made, fewer than `need` bytes were buffered, so once `need` bytes are
   * there it reads no further.
   */
  lemma {:induction false} FillReadsOnlyWhileShort(buf: seq<byte>, stream: seq<Chunk>, need: nat)
    decreases |stream|
    ensures var used := Consumed(stream, FillTo(buf, stream, need).rest);
      forall k :: 0 <= k < |used| ==> |buf| + |Bytes(used[..k])| < need
  {
    var f := FillTo(buf, stream, need);
    var used := Consumed(stream, f.rest);
    if |buf| < need && stream != [] && stream[0].Data? && stream[0].bytes != [] {
      var tmp := stream[0].bytes;
      var later := Consumed(stream[1..], f.rest);
      assert f == FillTo(buf + tmp, stream[1..], need);
      FillReadsOnlyWhileShort(buf + tmp, stream[1..], need);
      assert used == [stream[0]] + later;
      forall k | 1 <= k < |used|
        ensures |buf| + |Bytes(used[..k])| < need
      {
        assert used[..k] == [stream[0]] + later[..k - 1];
        assert ([stream[0]] + later[..k - 1])[1..] == later[..k - 1];
        assert Bytes(used[..k]) == tmp + Bytes(later[..k - 1]);
        assert |buf + tmp| + |Bytes(later[..k - 1])| < need;
      }
      assert Bytes(used[..0]) == [];
    } else {
      assert |used| <= 1;
      assert used != [] ==> Bytes(used[..0]) == [];
    }
  }

  /** `usize` on a 64-bit target. */
  const USIZE_MODULUS: int := 0x1_0000_0000_0000_0000

  /** `consumed + len as usize`: the `i32` length is sign-extended and the sum wraps. */
  function FrameSize(consumed: nat, len: i32): (size: nat)
    requires consumed <= MAX_VAR_INT_LEN
    ensures 0 <= len ==> size == consumed + len
  {
    var wide := if len >= 0 then len else len + USIZE_MODULUS;
    (consumed + wide) % USIZE_MODULUS
  }

  datatype ReadOutcome = Packet(packet: RawPacket, raw: seq<byte>) | Closed | Error

  /** The outcome of one `read_packet`, the buffer it leaves and the reads still to come. */
  datatype Read = Read(outcome: ReadOutcome, buf: seq<byte>, rest: seq<Chunk>)

  /**
   * `read_packet`: buffer at least two bytes, decode the length VarInt from
   * what is buffered, buffer until the whole frame is there, then split the
   * frame off the front of the buffer and decode it.
   */
  function ReadPacketSpec(buf: seq<byte>, stream: seq<Chunk>): (r: Read)
    ensures SuffixOf(r.rest, stream)
    ensures r.outcome.Packet? ==> DecodeRawPacket(r.outcome.raw) == Ok(r.outcome.packet)
  {
    var f := FillTo(buf, stream, 2);
    if f.end == Eof then Read(Closed, f.buf, f.rest)
    else if f.end == Fault then Read(Error, f.buf, f.rest)
    else match ReadVarInt(f.buf)
      case Err(_) => Read(Error, f.buf, f.rest)
      case Ok((consumed, len)) => TakeFrame(f.buf, f.rest, FrameSize(consumed, len))
  }

  /** The second half of `read_packet`: buffer `size` bytes, split them off and decode them. */
  function TakeFrame(buf: seq<byte>, stream: seq<Chunk>, size: nat): (r: Read)
    ensures SuffixOf(r.rest, stream)
    ensures r.outcome.Packet? ==> DecodeRawPacket(r.outcome.raw) == Ok(r.outcome.packet)
    ensures r.outcome.Packet? ==> |r.outcome.raw| == size
  {
    var g := FillTo(buf, stream, size);
    if g.end == Eof then Read(Closed, g.buf, g.rest)
    else if g.end == Fault then Read(Error, g.buf, g.rest)
    else match DecodeRawPacket(g.buf[..size])
      case Err(_) => Read(Error, g.buf[size..], g.rest)
      case Ok(p) => Read(Packet(p, g.buf[..size]), g.buf[size..], g.rest)
  }

  /**
   * Regrouping a concatenation, kept as a lemma so that the fact is proved
   * outside the large contexts that use it.
   */
  lemma Associative(a: seq<byte>, b: seq<byte>, c: seq<byte>)
    ensures (a + b) + c == a + (b + c)
  {
  }

  /** Two ways of cutting the same bytes, the first cut lying further right. */
  lemma SplitJoin(x: seq<byte>, y: seq<byte>, z: seq<byte>, w: seq<byte>)
    requires x + y == z + w && |x| >= |z|
    ensures x[..|z|] == z && x[|z|..] + y == w
  {
    assert forall i :: 0 <= i < |z| ==> x[i] == (x + y)[i] == (z + w)[i] == z[i];
    assert forall i :: 0 <= i < |w| ==> (x[|z|..] + y)[i] == (x + y)[|z| + i] == w[i];
  }

  /** An error drops at most one frame, from the front of the bytes, and only one that does not decode. */
  ghost predicate DropsBadFrame(all: seq<byte>, left: seq<byte>)
  {
    && |left| <= |all| && left == all[|all| - |left|..]
    && (left == all || DecodeRawPacket(all[..|all| - |left|]).Err?)
  }

  lemma TakeFrameConserves(buf: seq<byte>, stream: seq<Chunk>, size: nat)
    ensures var r := TakeFrame(buf, stream, size);
      && (r.outcome.Packet? ==> r.outcome.raw + r.buf == buf + Bytes(Consumed(stream, r.rest)))
      && (r.outcome.Closed? ==> r.buf == buf + Bytes(Consumed(stream, r.rest)))
      && (r.outcome.Error? ==> DropsBadFrame(buf + Bytes(Consumed(stream, r.rest)), r.buf))
  {
    var g := FillTo(buf, stream, size);
    if g.end == Full {
      assert g.buf[..size] + g.buf[size..] == g.buf;
      assert |g.buf| - |g.buf[size..]| == size;
    }
  }

  /**
   * No byte is lost or invented: a returned frame followed by the bytes left
   * in the buffer is exactly what was buffered before plus what was read, and
   * at end of stream everything read stays buffered.
   */
  lemma ReadPacketConserves(buf: seq<byte>, stream: seq<Chunk>)
    ensures var r := ReadPacketSpec(buf, stream);
      && (r.outcome.Packet? ==> r.outcome.raw + r.buf == buf + Bytes(Consumed(stream, r.rest)))
      && (r.outcome.Closed? ==> r.buf == buf + Bytes(Consumed(stream, r.rest)))
      && (r.outcome.Error? ==> DropsBadFrame(buf + Bytes(Consumed(stream, r.rest)), r.buf))
    ensures var f, r := FillTo(buf, stream, 2), ReadPacketSpec(buf, stream);
      f.end == Full && ReadVarInt(f.buf).Err? ==> r.outcome == Error && r.buf == buf + Bytes(Consumed(stream, r.rest))
  {
    var f := FillTo(buf, stream, 2);
    if f.end != Full {
      assert ReadPacketSpec(buf, stream).buf == f.buf;
      assert ReadPacketSpec(buf, stream).rest == f.rest;
    } else if ReadVarInt(f.buf).Err? {
      assert ReadPacketSpec(buf, stream) == Read(Error, f.buf, f.rest);
    } else {
      var size := FrameSize(ReadVarInt(f.buf).value.0, ReadVarInt(f.buf).value.1);
      var r := TakeFrame(f.buf, f.rest, size);
      assert ReadPacketSpec(buf, stream) == r;
      TakeFrameConserves(f.buf, f.rest, size);
      ConsumedAppend(stream, f.rest, r.rest);
      var first, second := Bytes(Consumed(stream, f.rest)), Bytes(Consumed(f.rest, r.rest));
      assert f.buf == buf + first;
      Associative(buf, first, second);
      var all := buf + Bytes(Consumed(stream, r.rest));
      assert f.buf + Bytes(Consumed(f.rest, r.rest)) == all;
    }
  }

  /**
   * Every returned packet uses up input: either a read happened or the
   * buffer shrank by the frame, so a loop of reads ends.
   */
  lemma ReadPacketProgress(buf: seq<byte>, stream: seq<Chunk>)
    ensures var r := ReadPacketSpec(buf, stream);
      r.outcome.Packet? ==> |r.rest| < |stream| || (|r.rest| == |stream| && |r.buf| < |buf|)
  {
    ReadPacketConserves(buf, stream);
    var r := ReadPacketSpec(buf, stream);
    if r.outcome.Packet? && |r.rest| == |stream| {
      assert Consumed(stream, r.rest) == [];
      assert |r.outcome.raw| >= 2;
    }
  }

  lemma SuffixAllData(rest: seq<Chunk>, stream: seq<Chunk>)
    requires AllData(stream) && SuffixOf(rest, stream)
    ensures AllData(rest)
  {
    assert forall i :: 0 <= i < |rest| ==> rest[i] == stream[|stream| - |rest| + i];
  }

  /** With nothing buffered and nothing left to read, the connection reads as closed. */
  lemma DrainedCloses(stream: seq<Chunk>)
    requires AllData(stream) && Bytes(stream) == []
    ensures ReadPacketSpec([], stream) == Read(Closed, [], [])
  {
  }

  /** With reads that keep delivering bytes, buffering stops only once `need` bytes are there. */
  lemma {:induction false} FillAll(buf: seq<byte>, stream: seq<Chunk>, need: nat)
    requires AllData(stream)
    requires |buf| + |Bytes(stream)| >= need
    decreases |stream|
    ensures var f := FillTo(buf, stream, need);
      && f.end == Full
      && f.buf + Bytes(f.rest) == buf + Bytes(stream)
      && AllData(f.rest)
  {
    if |buf| < need {
      assert stream != [];
      var tmp := stream[0].bytes;
      assert Bytes(stream) == tmp + Bytes(stream[1..]);
      FillAll(buf + tmp, stream[1..], need);
      Associative(buf, tmp, Bytes(stream[1..]));
    }
  }

  /**
   * Buffering keeps reading while reads deliver bytes and the buffer is
   * short; the first read that delivers nothing ends it. An empty read or a
   * reset ends it as end of stream, any other read error as a fault, and in
   * both cases the bytes read so far stay buffered.
   */
  lemma {:induction false} FillStops(buf: seq<byte>, data: seq<Chunk>, c: Chunk, more: seq<Chunk>, need: nat)
    requires AllData(data)
    requires |buf| + |Bytes(data)| < need
    requires !c.Data? || c.bytes == []
    decreases |data|
    ensures var f := FillTo(buf, data + [c] + more, need);
      && f.rest == more
      && f.buf == buf + Bytes(data)
      && (f.end == Eof <==> c == Reset || c == Data([]))
      && (f.end == Fault <==> c == Failed)
  {
    var stream := data + [c] + more;
    if data == [] {
      assert stream == [c] + more;
    } else {
      var tmp := data[0].bytes;
      assert stream[0] == data[0] && stream[1..] == data[1..] + [c] + more;
      assert Bytes(data) == tmp + Bytes(data[1..]);
      assert AllData(data[1..]);
      FillStops(buf + tmp, data[1..], c, more, need);
      Associative(buf, tmp, Bytes(data[1..]));
    }
  }

  /** Reads past the end of the socket report end of stream, so a short buffer ends as `Eof`. */
  lemma {:induction false} FillExhausted(buf: seq<byte>, data: seq<Chunk>, need: nat)
    requires AllData(data)
    requires |buf| + |Bytes(data)| < need
    decreases |data|
    ensures FillTo(buf, data, need) == Fill(buf + Bytes(data), [], Eof)
  {
    if data != [] {
      var tmp := data[0].bytes;
      assert Bytes(data) == tmp + Bytes(data[1..]);
      assert AllData(data[1..]);
      FillExhausted(buf + tmp, data[1..], need);
      Associative(buf, tmp, Bytes(data[1..]));
    }
  }

  /**
   * Framing does not depend on how the bytes are cut into reads: an encoded
   * packet whose length prefix takes at most two bytes comes back whole and
   * unchanged, and the bytes behind it stay for the next packet.
   */
  lemma ReadsEncodedPacket(buf: seq<byte>, stream: seq<Chunk>, p: RawPacket, rest: seq<byte>)
    requires |p.data| <= MAX_PACKET_DATA
    requires |EncodeVarInt(p.id)| + |p.data| < 0x4000
    requires AllData(stream)
    requires buf + Bytes(stream) == EncodeRawPacket(p) + rest
    ensures var r := ReadPacketSpec(buf, stream);
      && r.outcome == Packet(p, EncodeRawPacket(p))
      && r.buf + Bytes(r.rest) == rest
  {
    var size := ShortLengthPrefix(p, rest);
    var f := FillTo(buf, stream, 2);
    LengthFromFirstFill(buf, stream, EncodeRawPacket(p) + rest);
    assert FrameSize(ReadVarInt(f.buf).value.0, ReadVarInt(f.buf).value.1) == size;
    assert ReadPacketSpec(buf, stream) == TakeFrame(f.buf, f.rest, size);
    TakeEncodedFrame(f.buf, f.rest, p, rest);
  }

  /** After the first buffering loop the length VarInt decodes as it does on the whole byte stream. */
  lemma LengthFromFirstFill(buf: seq<byte>, stream: seq<Chunk>, all: seq<byte>)
    requires AllData(stream) && buf + Bytes(stream) == all
    requires ReadVarInt(all).Ok? && ReadVarInt(all).value.0 <= 2 <= |all|
    ensures var f := FillTo(buf, stream, 2);
      && f.end == Full && AllData(f.rest) && f.buf + Bytes(f.rest) == all
      && ReadVarInt(f.buf) == ReadVarInt(all)
  {
    FillAll(buf, stream, 2);
    var f := FillTo(buf, stream, 2);
    var fromF := Bytes(f.rest);
    assert f.buf + fromF == all;
    assert f.buf == (f.buf + fromF)[..|f.buf|];
    ReadVarIntPrefix(all, f.buf);
  }

  /** The second buffering loop then delivers exactly the encoded frame. */
  lemma TakeEncodedFrame(buf: seq<byte>, stream: seq<Chunk>, p: RawPacket, rest: seq<byte>)
    requires |p.data| <= MAX_PACKET_DATA
    requires AllData(stream)
    requires buf + Bytes(stream) == EncodeRawPacket(p) + rest
    ensures var r := TakeFrame(buf, stream, |EncodeRawPacket(p)|);
      && r.outcome == Packet(p, EncodeRawPacket(p))
      && r.buf + Bytes(r.rest) == rest
  {
    var e := EncodeRawPacket(p);
    var size := |e|;
    FillAll(buf, stream, size);
    var g := FillTo(buf, stream, size);
    var fromG := Bytes(g.rest);
    assert g.buf + fromG == e + rest;
    SplitJoin(g.buf, fromG, e, rest);
    RawPacketRoundTrip(p, []);
    assert e + [] == e;
  }

  /** The length prefix of a frame whose body is under 16384 bytes takes at most two bytes. */
  lemma ShortLengthPrefix(p: RawPacket, rest: seq<byte>) returns (size: nat)
    requires |p.data| <= MAX_PACKET_DATA
    requires |EncodeVarInt(p.id)| + |p.data| < 0x4000
    ensures var c := ReadVarInt(EncodeRawPacket(p) + rest);
      && c.Ok? && c.value.0 <= 2
      && FrameSize(c.value.0, c.value.1) == size == |EncodeRawPacket(p)|
  {
    var body := EncodeVarInt(p.id) + p.data;
    var len: i32 := |body|;
    var prefix := EncodeVarInt(len);
    assert len % 0x1_0000_0000 == len;
    assert Pow128(2) == 0x4000;
    EncodeUnsignedLength(len, 2);
    assert EncodeRawPacket(p) == prefix + body;
    assert (prefix + body) + rest == prefix + (body + rest);
    VarIntRoundTrip(len, body + rest);
    size := |prefix| + |body|;
    assert FrameSize(|prefix|, len) == size;
  }

  /**
   * A returned frame is exactly as long as its length prefix says: the
   * length VarInt plus the announced number of bytes, nothing more.
   */
  lemma FrameExact(buf: seq<byte>, stream: seq<Chunk>)
    ensures var r := ReadPacketSpec(buf, stream);
      r.outcome.Packet? ==>
        && ReadVarInt(r.outcome.raw).Ok?
        && |r.outcome.raw| == ReadVarInt(r.outcome.raw).value.0 + ReadVarInt(r.outcome.raw).value.1
  {
    var f := FillTo(buf, stream, 2);
    if f.end == Full && ReadVarInt(f.buf).Ok? {
      var c, l := ReadVarInt(f.buf).value.0, ReadVarInt(f.buf).value.1;
      assert ReadPacketSpec(buf, stream) == TakeFrame(f.buf, f.rest, FrameSize(c, l));
      TakeFrameExact(f.buf, f.rest, c, l);
    }
  }

  lemma TakeFrameExact(buf: seq<byte>, stream: seq<Chunk>, c: nat, l: i32)
    requires ReadVarInt(buf) == Ok((c, l))
    ensures var r := TakeFrame(buf, stream, FrameSize(c, l));
      r.outcome.Packet? ==> ReadVarInt(r.outcome.raw) == Ok((c, l)) && |r.outcome.raw| == c + l
  {
    var size := FrameSize(c, l);
    var r := TakeFrame(buf, stream, size);
    if r.outcome.Packet? {
      var g := FillTo(buf, stream, size);
      var more := Bytes(Consumed(stream, g.rest));
      assert r.outcome.raw == (buf + more)[..size];
      HeaderSurvives(buf, more, c, l);
    }
  }

  /** Cutting the buffered bytes to the frame keeps the length prefix the frame was cut by. */
  lemma HeaderSurvives(buf: seq<byte>, more: seq<byte>, c: nat, l: i32)
    requires ReadVarInt(buf) == Ok((c, l))
    requires FrameSize(c, l) <= |buf + more|
    requires DecodeRawPacket((buf + more)[..FrameSize(c, l)]).Ok?
    ensures ReadVarInt((buf + more)[..FrameSize(c, l)]) == Ok((c, l))
    ensures FrameSize(c, l) == c + l
  {
    var size := FrameSize(c, l);
    var raw := (buf + more)[..size];
    assert buf == (buf + more)[..|buf|];
    assert raw[..c] == buf[..c];
    ReadVarIntAgree(buf, raw);
  }

  /**
   * The length VarInt is decoded from what the first buffering loop left,
   * which may be only two bytes: a frame whose length prefix takes three
   * bytes and whose first read delivers just two fails, although the rest of
   * the frame is on its way.
   */
  lemma LongLengthPrefixCutShort(p: RawPacket, more: seq<Chunk>)
    requires |p.data| <= MAX_PACKET_DATA
    requires |EncodeVarInt(p.id)| + |p.data| >= 0x4000
    ensures ReadPacketSpec([], [Data(EncodeRawPacket(p)[..2])] + more).outcome == Error
  {
    var e := EncodeRawPacket(p);
    LongPrefixContinues(p);
    var first := e[..2];
    assert first[0] >= CONTINUE_BIT && first[1] >= CONTINUE_BIT;
    assert ReadVarInt(first).Err?;
    var stream := [Data(first)] + more;
    assert stream[1..] == more;
    assert FillTo([], stream, 2) == FillTo(first, more, 2);
  }

  /**
   * A length of -1 spelled in five bytes wraps to a frame size of four, so
   * the first four bytes are split off at once and fail to decode, and the
   * fifth stays buffered.
   */
  lemma NegativeLengthCutsAtOnce()
    ensures ReadPacketSpec([0xFF, 0xFF, 0xFF, 0xFF, 0x0F], []) == Read(Error, [0x0F], [])
  {
    var buf: seq<byte> := [0xFF, 0xFF, 0xFF, 0xFF, 0x0F];
    assert FillTo(buf, [], 2) == Fill(buf, [], Full);
    MinusOneSpelled(buf);
    assert FrameSize(5, -1) == 4;
    var frame := buf[..4];
    assert frame == [0xFF, 0xFF, 0xFF, 0xFF];
    assert ReadVarInt(frame).Err?;
    assert TakeFrame(buf, [], 4) == Read(Error, buf[4..], []);
  }

  /** Five bytes spelling the 32-bit pattern of -1. */
  lemma MinusOneSpelled(buf: seq<byte>)
    requires buf == [0xFF, 0xFF, 0xFF, 0xFF, 0x0F]
    ensures ReadVarInt(buf) == Ok((5, -1))
  {
    assert VarIntEnd(buf, MAX_VAR_INT_LEN) == Some(5);
    assert buf[..5] == buf;
    assert Groups(buf[4..]) == 0x0F;
    assert Groups(buf[3..]) == 0x7FF;
    assert Groups(buf[2..]) == 0x3_FFFF;
    assert Groups(buf[1..]) == 0x1FF_FFFF;
    assert Groups(buf) == 0xFFFF_FFFF;
  }

  /** The first two bytes of a frame whose body is 16384 bytes or more both carry the continuation bit. */
  lemma LongPrefixContinues(p: RawPacket)
    requires |p.data| <= MAX_PACKET_DATA
    requires |EncodeVarInt(p.id)| + |p.data| >= 0x4000
    ensures var e := EncodeRawPacket(p); e[0] >= CONTINUE_BIT && e[1] >= CONTINUE_BIT
  {
    var body := EncodeVarInt(p.id) + p.data;
    var u: i32 := |body|;
    assert u % 0x1_0000_0000 == u;
    var tail := EncodeUnsigned(u / CONTINUE_BIT);
    assert EncodeVarInt(u) == [u % CONTINUE_BIT + CONTINUE_BIT] + tail;
    assert tail == [(u / CONTINUE_BIT) % CONTINUE_BIT + CONTINUE_BIT] + EncodeUnsigned(u / CONTINUE_BIT / CONTINUE_BIT);
    assert EncodeRawPacket(p) == EncodeVarInt(u) + body;
  }

  /** A connection's read half together with its incoming buffer. */
  class Inbound {
    var buf: seq<byte>
    /** The chunks that the socket's reads will return, in order. */
    var stream: seq<Chunk>

    constructor (input: seq<Chunk>)
      ensures buf == [] && stream == input
    {
      buf := [];
      stream := input;
    }

    /** One `read_buf` on the socket. */
    method Receive() returns (c: Chunk)
      modifies this
      ensures c == NextChunk(old(stream)) && stream == AfterRead(old(stream)) && buf == old(buf)
    {
      c := NextChunk(stream);
      stream := AfterRead(stream);
    }

    /** One buffering loop of `read_packet`: read until `need` bytes are buffered or reading stops. */
    method FillBuffer(need: nat) returns (end: FillEnd)
      modifies this
      ensures Fill(buf, stream, end) == FillTo(old(buf), old(stream), need)
    {
      while |buf| < need
        invariant FillTo(buf, stream, need) == FillTo(old(buf), old(stream), need)
        decreases |stream|
      {
        var tmp := Receive();
        match tmp
        case Reset => return Eof;
        case Failed => return Fault;
        case Data(bytes) =>
          if bytes == [] {
            return Eof;
          }
          buf := buf + bytes;
      }
      return Full;
    }

    method ReadPacket() returns (outcome: ReadOutcome)
      modifies this
      ensures Read(outcome, buf, stream) == ReadPacketSpec(old(buf), old(stream))
    {
      // The first loop buffers two bytes
      var end := FillBuffer(2);
      if end == Eof {
        return Closed;
      } else if end == Fault {
        return Error;
      }

      // The length prefix
      var header := ReadVarInt(buf);
      if header.Err? {
        return Error;
      }
      var size := FrameSize(header.value.0, header.value.1);

      // The second loop buffers the whole frame
      end := FillBuffer(size);
      if end == Eof {
        return Closed;
      } else if end == Fault {
        return Error;
      }

      var raw := buf[..size];
      buf := buf[size..];
      var packet := DecodeRawPacket(raw);
      if packet.Err? {
        return Error;
      }
      return Packet(packet.value, raw);
    }
  }
}

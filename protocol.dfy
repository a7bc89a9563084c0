/**
 * The slice of the Minecraft Java Edition wire protocol that the proxy touches
 * before login: VarInt numbers, length-prefixed raw packets, the client
 * states of a connection and the server status record.
 */
module Protocol {
  import opened Wrappers

  type byte = b: int | 0 <= b < 0x100
  type i32 = x: int | -0x8000_0000 <= x < 0x8000_0000
  type u32 = x: int | 0 <= x < 0x1_0000_0000

  /** A VarInt occupies at most five bytes. */
  const MAX_VAR_INT_LEN: nat := 5
  /** Bytes with this bit set are followed by another byte of the same VarInt. */
  const CONTINUE_BIT: int := 0x80

  /** Packet ids of the handshake, status and login states. */
  const STATUS_PACKET_ID_STATUS: int := 0
  const STATUS_PACKET_ID_PING: int := 1
  const LOGIN_PACKET_ID_LOGIN_START: int := 0

  /** Version reported while no status of the real server is known. */
  const PROTO_DEFAULT_VERSION: string := "1.16.5"
  const PROTO_DEFAULT_PROTOCOL: int := 754

  /** Largest payload whose frame length still fits a VarInt. */
  const MAX_PACKET_DATA: nat := 0x7FFF_FFFA

  /** The protocol state of one client connection. */
  datatype ClientState = Handshake | Status | Login

  /** The `next_state` field of a handshake: 1 asks for status, 2 for login. */
  function ClientStateFromId(id: int): (r: Option<ClientState>)
    ensures r == Some(Status) <==> id == 1
    ensures r == Some(Login) <==> id == 2
    ensures r != Some(Handshake)
  {
    if id == 1 then Some(Status) else if id == 2 then Some(Login) else None
  }

  /** A frame split into its packet id and the bytes that follow the id. */
  datatype RawPacket = RawPacket(id: i32, data: seq<byte>)

  datatype ServerVersion = ServerVersion(name: string, protocol: int)
  datatype OnlinePlayers = OnlinePlayers(online: nat, max: nat, sample: seq<string>)
  datatype ServerStatus = ServerStatus(version: ServerVersion, description: string, players: OnlinePlayers)

  // ---------------------------------------------------------------------------
  // VarInt

  /**
   * Length of the VarInt at the front of `buf`: one past the first byte
   * without the continuation bit, looking at no more than `budget` bytes.
   */
  function VarIntEnd(buf: seq<byte>, budget: nat): (r: Option<nat>)
    ensures r.Some? ==> 1 <= r.value <= budget && r.value <= |buf|
    ensures r.Some? ==> buf[r.value - 1] < CONTINUE_BIT
    ensures r.Some? ==> forall i :: 0 <= i < r.value - 1 ==> buf[i] >= CONTINUE_BIT
    ensures r.None? ==> forall i :: 0 <= i < budget && i < |buf| ==> buf[i] >= CONTINUE_BIT
  {
    if budget == 0 || buf == [] then None
    else if buf[0] < CONTINUE_BIT then Some(1)
    else match VarIntEnd(buf[1..], budget - 1)
      case None => None
      case Some(n) => Some(n + 1)
  }

  /** The little-endian base-128 number spelled by the low seven bits of each byte. */
  function Groups(bs: seq<byte>): nat
  {
    if bs == [] then 0 else bs[0] % CONTINUE_BIT + CONTINUE_BIT * Groups(bs[1..])
  }

  /** The low 32 bits of `u`, read as a two's-complement `i32`. */
  function AsI32(u: int): i32
  {
    var w := u % 0x1_0000_0000;
    if w < 0x8000_0000 then w else w - 0x1_0000_0000
  }

  /**
   * Decodes the VarInt at the front of `buf`, giving the number of bytes it
   * occupies and its value. Fails when none of the first five buffered bytes
   * ends the number, which includes a buffer that holds only part of it.
   */
  function ReadVarInt(buf: seq<byte>): (r: Result<(nat, i32), ()>)
    ensures r.Ok? ==> 1 <= r.value.0 <= MAX_VAR_INT_LEN && r.value.0 <= |buf|
    ensures r.Ok? ==> buf[r.value.0 - 1] < CONTINUE_BIT
    ensures r.Ok? ==> forall i :: 0 <= i < r.value.0 - 1 ==> buf[i] >= CONTINUE_BIT
    ensures r.Err? <==> forall i :: 0 <= i < MAX_VAR_INT_LEN && i < |buf| ==> buf[i] >= CONTINUE_BIT
  {
    match VarIntEnd(buf, MAX_VAR_INT_LEN)
    case None => Err(())
    case Some(n) => Ok((n, AsI32(Groups(buf[..n]))))
  }

  /** Seven bits per byte, least significant group first. */
  function EncodeUnsigned(u: nat): seq<byte>
    decreases u
  {
    if u < CONTINUE_BIT then [u] else [u % CONTINUE_BIT + CONTINUE_BIT] + EncodeUnsigned(u / CONTINUE_BIT)
  }

  /** A VarInt encodes the 32-bit two's-complement pattern of its value. */
  function EncodeVarInt(v: i32): (r: seq<byte>)
    ensures 1 <= |r| <= MAX_VAR_INT_LEN
  {
    assert Pow128(MAX_VAR_INT_LEN) == 0x8_0000_0000;
    EncodeUnsignedLength(v % 0x1_0000_0000, MAX_VAR_INT_LEN);
    EncodeUnsigned(v % 0x1_0000_0000)
  }

  function Pow128(k: nat): nat
  {
    if k == 0 then 1 else CONTINUE_BIT * Pow128(k - 1)
  }

  lemma {:induction false} EncodeUnsignedLength(u: nat, k: nat)
    requires 1 <= k && u < Pow128(k)
    ensures 1 <= |EncodeUnsigned(u)| <= k
  {
    if u >= CONTINUE_BIT {
      assert Pow128(1) == CONTINUE_BIT;
      assert (u / CONTINUE_BIT) * CONTINUE_BIT <= u;
      EncodeUnsignedLength(u / CONTINUE_BIT, k - 1);
    }
  }

  /** Every byte but the last of an encoding carries the continuation bit, and the groups spell `u`. */
  lemma {:induction false} EncodeUnsignedShape(u: nat)
    ensures var e := EncodeUnsigned(u);
      && e[|e| - 1] < CONTINUE_BIT
      && (forall i :: 0 <= i < |e| - 1 ==> e[i] >= CONTINUE_BIT)
      && Groups(e) == u
  {
    if u >= CONTINUE_BIT {
      var e := EncodeUnsigned(u);
      var t := EncodeUnsigned(u / CONTINUE_BIT);
      EncodeUnsignedShape(u / CONTINUE_BIT);
      assert e == [u % CONTINUE_BIT + CONTINUE_BIT] + t;
      assert e[1..] == t;
      assert forall i :: 1 <= i < |e| ==> e[i] == t[i - 1];
    }
  }

  /** What `ReadVarInt` decodes depends only on the bytes of the VarInt itself. */
  lemma ReadVarIntAgree(a: seq<byte>, b: seq<byte>)
    requires ReadVarInt(a).Ok?
    requires ReadVarInt(a).value.0 <= |b| && b[..ReadVarInt(a).value.0] == a[..ReadVarInt(a).value.0]
    ensures ReadVarInt(b) == ReadVarInt(a)
  {
    var n := VarIntEnd(a, MAX_VAR_INT_LEN).value;
    assert forall i :: 0 <= i < n ==> b[i] == b[..n][i] == a[..n][i] == a[i];
  }

  /** A buffer cut off before the end of a VarInt does not decode. */
  lemma ReadVarIntCut(buf: seq<byte>, prefix: seq<byte>)
    requires ReadVarInt(buf).Ok?
    requires |prefix| < ReadVarInt(buf).value.0 && prefix == buf[..|prefix|]
    ensures ReadVarInt(prefix).Err?
  {
    assert forall i :: 0 <= i < |prefix| ==> prefix[i] == buf[i];
  }

  /** In particular a buffer that holds the whole VarInt decodes like any longer buffer. */
  lemma ReadVarIntPrefix(buf: seq<byte>, prefix: seq<byte>)
    requires ReadVarInt(buf).Ok?
    requires ReadVarInt(buf).value.0 <= |prefix| <= |buf|
    requires prefix == buf[..|prefix|]
    ensures ReadVarInt(prefix) == ReadVarInt(buf)
  {
    ReadVarIntAgree(buf, prefix);
  }

  /** Decoding an encoded VarInt gives back the value and the length of the encoding. */
  lemma {:induction false} VarIntRoundTrip(v: i32, rest: seq<byte>)
    ensures ReadVarInt(EncodeVarInt(v) + rest) == Ok((|EncodeVarInt(v)|, v))
  {
    var u := v % 0x1_0000_0000;
    var e := EncodeVarInt(v);
    var buf := e + rest;
    EncodeUnsignedShape(u);
    assert buf[..|e|] == e;
    VarIntEndAt(buf, |e|, MAX_VAR_INT_LEN);
    assert Groups(buf[..|e|]) == u;
    assert AsI32(u) == v;
  }

  /** A VarInt whose first byte without the continuation bit is its `n`-th is `n` bytes long. */
  lemma {:induction false} VarIntEndAt(buf: seq<byte>, n: nat, budget: nat)
    requires 1 <= n <= budget && n <= |buf|
    requires buf[n - 1] < CONTINUE_BIT
    requires forall i :: 0 <= i < n - 1 ==> buf[i] >= CONTINUE_BIT
    ensures VarIntEnd(buf, budget) == Some(n)
  {
    if n > 1 {
      assert forall i :: 0 <= i < n - 2 ==> buf[1..][i] == buf[i + 1];
      VarIntEndAt(buf[1..], n - 1, budget - 1);
    }
  }

  // ---------------------------------------------------------------------------
  // Raw packets

  /** A frame: VarInt length of the body, then the body, which is the VarInt id and the data. */
  function EncodeRawPacket(p: RawPacket): (r: seq<byte>)
    requires |p.data| <= MAX_PACKET_DATA
    ensures |r| >= 2
  {
    var body := EncodeVarInt(p.id) + p.data;
    EncodeVarInt(|body|) + body
  }

  /**
   * Splits a frame into id and data. Fails when the length prefix or the id
   * is not a VarInt, the length is negative, or the frame is shorter than its
   * length prefix says; bytes behind the announced length are ignored.
   */
  function DecodeRawPacket(raw: seq<byte>): (r: Result<RawPacket, ()>)
    ensures r.Ok? ==> |raw| >= 2
    ensures r.Ok? ==> ReadVarInt(raw).Ok? && ReadVarInt(raw).value.1 >= 0
    ensures r.Ok? ==> ReadVarInt(raw).value.0 + ReadVarInt(raw).value.1 <= |raw|
  {
    match ReadVarInt(raw)
    case Err(_) => Err(())
    case Ok((n, len)) =>
      if len < 0 || n + len > |raw| then Err(())
      else
        var body := raw[n..n + len];
        match ReadVarInt(body)
        case Err(_) => Err(())
        case Ok((m, id)) => Ok(RawPacket(id, body[m..]))
  }

  /** Decoding an encoded packet gives it back, whatever follows the frame. */
  lemma {:induction false} RawPacketRoundTrip(p: RawPacket, rest: seq<byte>)
    requires |p.data| <= MAX_PACKET_DATA
    ensures DecodeRawPacket(EncodeRawPacket(p) + rest) == Ok(p)
  {
    var body := EncodeVarInt(p.id) + p.data;
    var raw := EncodeRawPacket(p) + rest;
    var prefix := EncodeVarInt(|body|);
    assert raw == prefix + (body + rest);
    VarIntRoundTrip(|body|, body + rest);
    assert raw[|prefix|..|prefix| + |body|] == body;
    VarIntRoundTrip(p.id, p.data);
  }
}

/** Minecraft protocol packets as the replay tools read them: the packet id
    in the first byte selects the layout of the fields that follow; ids the
    tools do not know decode to `Unimplemented`. Doubles are kept as their
    raw big-endian bits and relative moves as their raw `i16` (before the
    division by 4096). */
module Packet {
  import opened Common
  import opened BufRw
  import Utf8

  const SPAWN_PLAYER: u8 := 0x05
  const CHAT: u8 := 0x0f
  const CHUNK_DATA: u8 := 0x20
  const ENTITY_RELATIVE_MOVE: u8 := 0x26
  const ENTITY_LOOK_AND_RELATIVE_MOVE: u8 := 0x27
  const ENTITY_TELEPORT: u8 := 0x4C

  predicate IsKnownId(id: u8) {
    id == SPAWN_PLAYER || id == CHAT || id == CHUNK_DATA || id == ENTITY_RELATIVE_MOVE
    || id == ENTITY_LOOK_AND_RELATIVE_MOVE || id == ENTITY_TELEPORT
  }

  datatype ChunkData = ChunkData(x: i32, z: i32, isNew: bool, sectionsMask: u16,
                                 chunkData: seq<u8>, tileEntities: seq<u8>)

  datatype McPacket =
    | SpawnPlayer(eid: i32, uuid: Uuid, x: u64, y: u64, z: u64, yaw: u8, pitch: u8, metadata: seq<u8>)
    | Chat(message: string, position: i8)
    | ChunkDataHack(chunk: ChunkData)
    | EntityRelativeMove(eid: i32, dx: i16, dy: i16, dz: i16, onGround: bool)
    | EntityLookAndRelativeMove(eid: i32, dx: i16, dy: i16, dz: i16, yaw: u8, pitch: u8, onGround: bool)
    | EntityTeleport(eid: i32, x: u64, y: u64, z: u64, yaw: u8, pitch: u8, onGround: bool)
    | Unimplemented

  // ---------------------------------------------------------------------------
  // The fields of each packet, read from position `p` on

  function SpawnPlayerAt(d: seq<u8>, p: nat): Result<McPacket>
    requires p <= |d|
  {
    var eid :- VarIntP(d, p);
    var uuid :- UuidP(d, eid.next);
    var x :- F64BitsP(d, uuid.next);
    var y :- F64BitsP(d, x.next);
    var z :- F64BitsP(d, y.next);
    var yaw :- U8P(d, z.next);
    var pitch :- U8P(d, yaw.next);
    Ok(SpawnPlayer(eid.value, uuid.value, x.value, y.value, z.value, yaw.value, pitch.value, d[pitch.next..]))
  }

  function ChatAt(d: seq<u8>, p: nat): Result<McPacket>
    requires p <= |d|
  {
    var bytes :- PrefixedBytesP(d, p);
    var message :- Utf8.Decode(bytes.value);
    var position :- I8P(d, bytes.next);
    Ok(Chat(message, position.value))
  }

  function ChunkDataAt(d: seq<u8>, p: nat): Result<ChunkData>
    requires p <= |d|
  {
    var x :- I32P(d, p);
    var z :- I32P(d, x.next);
    var isNew :- BoolP(d, z.next);
    var mask :- U16P(d, isNew.next);
    var chunk :- PrefixedBytesP(d, mask.next);
    Ok(ChunkData(x.value, z.value, isNew.value, mask.value, chunk.value, d[chunk.next..]))
  }

  function RelativeMoveAt(d: seq<u8>, p: nat): Result<McPacket>
    requires p <= |d|
  {
    var eid :- VarIntP(d, p);
    var dx :- I16P(d, eid.next);
    var dy :- I16P(d, dx.next);
    var dz :- I16P(d, dy.next);
    var onGround :- BoolP(d, dz.next);
    Ok(EntityRelativeMove(eid.value, dx.value, dy.value, dz.value, onGround.value))
  }

  function LookAndRelativeMoveAt(d: seq<u8>, p: nat): Result<McPacket>
    requires p <= |d|
  {
    var eid :- VarIntP(d, p);
    var dx :- I16P(d, eid.next);
    var dy :- I16P(d, dx.next);
    var dz :- I16P(d, dy.next);
    var yaw :- U8P(d, dz.next);
    var pitch :- U8P(d, yaw.next);
    var onGround :- BoolP(d, pitch.next);
    Ok(EntityLookAndRelativeMove(eid.value, dx.value, dy.value, dz.value, yaw.value, pitch.value, onGround.value))
  }

  function TeleportAt(d: seq<u8>, p: nat): Result<McPacket>
    requires p <= |d|
  {
    var eid :- VarIntP(d, p);
    var x :- F64BitsP(d, eid.next);
    var y :- F64BitsP(d, x.next);
    var z :- F64BitsP(d, y.next);
    var yaw :- U8P(d, z.next);
    var pitch :- U8P(d, yaw.next);
    var onGround :- BoolP(d, pitch.next);
    Ok(EntityTeleport(eid.value, x.value, y.value, z.value, yaw.value, pitch.value, onGround.value))
  }

  /** `McPacket::decode`: the id byte, then the fields of that packet. */
  function Decoded(d: seq<u8>): Result<McPacket> {
    var id :- U8P(d, 0);
    if id.value == SPAWN_PLAYER then SpawnPlayerAt(d, 1)
    else if id.value == CHAT then ChatAt(d, 1)
    else if id.value == CHUNK_DATA then
      var chunk :- ChunkDataAt(d, 1);
      Ok(ChunkDataHack(chunk))
    else if id.value == ENTITY_RELATIVE_MOVE then RelativeMoveAt(d, 1)
    else if id.value == ENTITY_LOOK_AND_RELATIVE_MOVE then LookAndRelativeMoveAt(d, 1)
    else if id.value == ENTITY_TELEPORT then TeleportAt(d, 1)
    else Ok(Unimplemented)
  }

  // ---------------------------------------------------------------------------
  // The decoder, reading through a `BufReader`

  method DecodeSpawnPlayer(rd: BufReader) returns (r: Result<McPacket>)
    requires rd.Valid()
    modifies rd
    ensures rd.Valid()
    ensures r == SpawnPlayerAt(rd.data, old(rd.pos))
  {
    var eid :- rd.ReadVarint();
    var uuid :- rd.ReadUuid();
    var x :- rd.ReadF64Bits();
    var y :- rd.ReadF64Bits();
    var z :- rd.ReadF64Bits();
    var yaw :- rd.ReadU8();
    var pitch :- rd.ReadU8();
    var metadata :- rd.ReadRemainder();
    return Ok(SpawnPlayer(eid, uuid, x, y, z, yaw, pitch, metadata));
  }

  method DecodeChat(rd: BufReader) returns (r: Result<McPacket>)
    requires rd.Valid()
    modifies rd
    ensures rd.Valid()
    ensures r == ChatAt(rd.data, old(rd.pos))
  {
    var messageBytes :- rd.ReadVarintPrefixedBytes();
    var message :- Utf8.Decode(messageBytes);
    var position :- rd.ReadI8();
    return Ok(Chat(message, position));
  }

  method DecodeChunkData(rd: BufReader) returns (r: Result<ChunkData>)
    requires rd.Valid()
    modifies rd
    ensures rd.Valid()
    ensures r == ChunkDataAt(rd.data, old(rd.pos))
  {
    var x :- rd.ReadI32();
    var z :- rd.ReadI32();
    var isNew :- rd.ReadBool();
    var mask :- rd.ReadU16();
    var chunkData :- rd.ReadVarintPrefixedBytes();
    var tileEntities :- rd.ReadRemainder();
    return Ok(ChunkData(x, z, isNew, mask, chunkData, tileEntities));
  }

  method DecodeRelativeMove(rd: BufReader) returns (r: Result<McPacket>)
    requires rd.Valid()
    modifies rd
    ensures rd.Valid()
    ensures r == RelativeMoveAt(rd.data, old(rd.pos))
  {
    var eid :- rd.ReadVarint();
    var dx :- rd.ReadI16();
    var dy :- rd.ReadI16();
    var dz :- rd.ReadI16();
    var onGround :- rd.ReadBool();
    return Ok(EntityRelativeMove(eid, dx, dy, dz, onGround));
  }

  method DecodeLookAndRelativeMove(rd: BufReader) returns (r: Result<McPacket>)
    requires rd.Valid()
    modifies rd
    ensures rd.Valid()
    ensures r == LookAndRelativeMoveAt(rd.data, old(rd.pos))
  {
    var eid :- rd.ReadVarint();
    var dx :- rd.ReadI16();
    var dy :- rd.ReadI16();
    var dz :- rd.ReadI16();
    var yaw :- rd.ReadU8();
    var pitch :- rd.ReadU8();
    var onGround :- rd.ReadBool();
    return Ok(EntityLookAndRelativeMove(eid, dx, dy, dz, yaw, pitch, onGround));
  }

  method DecodeTeleport(rd: BufReader) returns (r: Result<McPacket>)
    requires rd.Valid()
    modifies rd
    ensures rd.Valid()
    ensures r == TeleportAt(rd.data, old(rd.pos))
  {
    var eid :- rd.ReadVarint();
    var x :- rd.ReadF64Bits();
    var y :- rd.ReadF64Bits();
    var z :- rd.ReadF64Bits();
    var yaw :- rd.ReadU8();
    var pitch :- rd.ReadU8();
    var onGround :- rd.ReadBool();
    return Ok(EntityTeleport(eid, x, y, z, yaw, pitch, onGround));
  }

  /** `McPacket::decode`, on a fresh reader over a copy of the bytes. */
  method Decode(data: seq<u8>) returns (r: Result<McPacket>)
    ensures r == Decoded(data)
  {
    var rd := new BufReader(data);
    var id :- rd.ReadU8();
    if id == SPAWN_PLAYER {
      r := DecodeSpawnPlayer(rd);
    } else if id == CHAT {
      r := DecodeChat(rd);
    } else if id == CHUNK_DATA {
      var chunk :- DecodeChunkData(rd);
      r := Ok(ChunkDataHack(chunk));
    } else if id == ENTITY_RELATIVE_MOVE {
      r := DecodeRelativeMove(rd);
    } else if id == ENTITY_LOOK_AND_RELATIVE_MOVE {
      r := DecodeLookAndRelativeMove(rd);
    } else if id == ENTITY_TELEPORT {
      r := DecodeTeleport(rd);
    } else {
      r := Ok(Unimplemented);
    }
  }

  // ---------------------------------------------------------------------------
  // The bytes a sender writes for each packet, and their decoding

  /** The packets that have an encoding: the VarInt lengths must fit in an
      i32. */
  predicate Encodable(pk: McPacket) {
    (pk.Chat? ==> |Utf8.Encode(pk.message)| < 0x8000_0000)
    && (pk.ChunkDataHack? ==> |pk.chunk.chunkData| < 0x8000_0000)
  }

  /** The id byte a packet is written with; `Unimplemented` stands for every
      id the decoder does not know and is written as 0. */
  function IdOf(pk: McPacket): (id: u8)
    ensures pk.Unimplemented? <==> !IsKnownId(id)
  {
    match pk
    case SpawnPlayer(_, _, _, _, _, _, _, _) => SPAWN_PLAYER
    case Chat(_, _) => CHAT
    case ChunkDataHack(_) => CHUNK_DATA
    case EntityRelativeMove(_, _, _, _, _) => ENTITY_RELATIVE_MOVE
    case EntityLookAndRelativeMove(_, _, _, _, _, _, _) => ENTITY_LOOK_AND_RELATIVE_MOVE
    case EntityTeleport(_, _, _, _, _, _, _) => ENTITY_TELEPORT
    case Unimplemented => 0
  }

  /** The bytes of a packet's fields after the id, each field followed by
      the fields after it. */
  function Fields(pk: McPacket): seq<u8>
    requires Encodable(pk)
  {
    match pk
    case SpawnPlayer(eid, uuid, x, y, z, yaw, pitch, metadata) =>
      EncodeVarInt(AsU32(eid)) + (EncodeUuid(uuid) + (EncodeU64(x) + (EncodeU64(y)
        + (EncodeU64(z) + ([yaw] + ([pitch] + metadata))))))
    case Chat(message, position) =>
      EncodeVarInt(|Utf8.Encode(message)|) + (Utf8.Encode(message) + [AsU8(position)])
    case ChunkDataHack(c) =>
      EncodeI32(c.x) + (EncodeI32(c.z) + (EncodeBool(c.isNew) + (EncodeU16(c.sectionsMask)
        + (EncodeVarInt(|c.chunkData|) + (c.chunkData + c.tileEntities)))))
    case EntityRelativeMove(eid, dx, dy, dz, onGround) =>
      EncodeVarInt(AsU32(eid)) + (EncodeI16(dx) + (EncodeI16(dy) + (EncodeI16(dz) + EncodeBool(onGround))))
    case EntityLookAndRelativeMove(eid, dx, dy, dz, yaw, pitch, onGround) =>
      EncodeVarInt(AsU32(eid)) + (EncodeI16(dx) + (EncodeI16(dy)
        + (EncodeI16(dz) + ([yaw] + ([pitch] + EncodeBool(onGround))))))
    case EntityTeleport(eid, x, y, z, yaw, pitch, onGround) =>
      EncodeVarInt(AsU32(eid)) + (EncodeU64(x) + (EncodeU64(y) + (EncodeU64(z)
        + ([yaw] + ([pitch] + EncodeBool(onGround))))))
    case Unimplemented => []
  }

  /** The bytes a sender writes for a packet. */
  function Encoded(pk: McPacket): (d: seq<u8>)
    requires Encodable(pk)
    ensures |d| >= 1 && d[0] == IdOf(pk) && d[1..] == Fields(pk)
  {
    [IdOf(pk)] + Fields(pk)
  }

  /** Which field decoder the id byte selects. */
  lemma Dispatch(d: seq<u8>)
    requires |d| >= 1
    ensures d[0] == SPAWN_PLAYER ==> Decoded(d) == SpawnPlayerAt(d, 1)
    ensures d[0] == CHAT ==> Decoded(d) == ChatAt(d, 1)
    ensures d[0] == CHUNK_DATA ==> Decoded(d) == (var c :- ChunkDataAt(d, 1); Ok(ChunkDataHack(c)))
    ensures d[0] == ENTITY_RELATIVE_MOVE ==> Decoded(d) == RelativeMoveAt(d, 1)
    ensures d[0] == ENTITY_LOOK_AND_RELATIVE_MOVE ==> Decoded(d) == LookAndRelativeMoveAt(d, 1)
    ensures d[0] == ENTITY_TELEPORT ==> Decoded(d) == TeleportAt(d, 1)
    ensures !IsKnownId(d[0]) ==> Decoded(d) == Ok(Unimplemented)
  {
    U8POf(d, 0, d[0], d[1..]);
  }

  /** The fields of an entity move, read back from any position; whatever
      follows them is left unread. */
  lemma RelativeMoveAtFields(d: seq<u8>, p: nat, pk: McPacket)
    requires pk.EntityRelativeMove? && p <= |d| && d[p..] == Fields(pk)
    ensures RelativeMoveAt(d, p) == Ok(pk)
  {
    var b := EncodeBool(pk.onGround);
    var r1 := EncodeI16(pk.dx) + (EncodeI16(pk.dy) + (EncodeI16(pk.dz) + b));
    var q := p + |EncodeVarInt(AsU32(pk.eid))|;
    VarIntPOf(d, p, pk.eid, r1);
    MoveTail(d, q, pk.dx, pk.dy, pk.dz, b);
    assert b + [] == b;
    BoolPOf(d, q + 6, pk.onGround, []);
    RelativeMoveAtOf(d, p, q, pk);
  }

  /** Three i16 moves, then `rest`. */
  lemma MoveTail(d: seq<u8>, q: nat, dx: i16, dy: i16, dz: i16, rest: seq<u8>)
    requires q <= |d| && d[q..] == EncodeI16(dx) + (EncodeI16(dy) + (EncodeI16(dz) + rest))
    ensures I16P(d, q) == Ok(Parsed(dx, q + 2))
    ensures I16P(d, q + 2) == Ok(Parsed(dy, q + 4))
    ensures I16P(d, q + 4) == Ok(Parsed(dz, q + 6))
    ensures q + 6 <= |d| && d[q + 6..] == rest
  {
    var r2 := EncodeI16(dz) + rest;
    var r1 := EncodeI16(dy) + r2;
    I16POf(d, q, dx, r1);
    I16POf(d, q + 2, dy, r2);
    I16POf(d, q + 4, dz, rest);
  }

  lemma RelativeMoveAtOf(d: seq<u8>, p: nat, q: nat, pk: McPacket)
    requires pk.EntityRelativeMove? && p <= |d| && q + 7 <= |d|
    requires VarIntP(d, p) == Ok(Parsed(pk.eid, q))
    requires I16P(d, q) == Ok(Parsed(pk.dx, q + 2))
    requires I16P(d, q + 2) == Ok(Parsed(pk.dy, q + 4))
    requires I16P(d, q + 4) == Ok(Parsed(pk.dz, q + 6))
    requires BoolP(d, q + 6) == Ok(Parsed(pk.onGround, q + 7))
    ensures RelativeMoveAt(d, p) == Ok(pk)
  {
  }

  lemma LookAndRelativeMoveAtFields(d: seq<u8>, p: nat, pk: McPacket)
    requires pk.EntityLookAndRelativeMove? && p <= |d| && d[p..] == Fields(pk)
    ensures LookAndRelativeMoveAt(d, p) == Ok(pk)
  {
    var r3 := [pk.yaw] + ([pk.pitch] + EncodeBool(pk.onGround));
    var r1 := EncodeI16(pk.dx) + (EncodeI16(pk.dy) + (EncodeI16(pk.dz) + r3));
    var q := p + |EncodeVarInt(AsU32(pk.eid))|;
    VarIntPOf(d, p, pk.eid, r1);
    LookAndRelativeMoveTail(d, q, pk);
    LookAndRelativeMoveAtOf(d, p, q, pk);
  }

  lemma LookAndRelativeMoveTail(d: seq<u8>, q: nat, pk: McPacket)
    requires pk.EntityLookAndRelativeMove? && q <= |d|
    requires d[q..] == EncodeI16(pk.dx) + (EncodeI16(pk.dy) + (EncodeI16(pk.dz)
      + ([pk.yaw] + ([pk.pitch] + EncodeBool(pk.onGround)))))
    ensures I16P(d, q) == Ok(Parsed(pk.dx, q + 2))
    ensures I16P(d, q + 2) == Ok(Parsed(pk.dy, q + 4))
    ensures I16P(d, q + 4) == Ok(Parsed(pk.dz, q + 6))
    ensures U8P(d, q + 6) == Ok(Parsed(pk.yaw, q + 7))
    ensures U8P(d, q + 7) == Ok(Parsed(pk.pitch, q + 8))
    ensures BoolP(d, q + 8) == Ok(Parsed(pk.onGround, q + 9))
  {
    MoveTail(d, q, pk.dx, pk.dy, pk.dz, [pk.yaw] + ([pk.pitch] + EncodeBool(pk.onGround)));
    LookTail(d, q + 6, pk.yaw, pk.pitch, pk.onGround);
  }

  /** Yaw, pitch and the on-ground flag, the last fields of a packet. */
  lemma LookTail(d: seq<u8>, q: nat, yaw: u8, pitch: u8, onGround: bool)
    requires q <= |d| && d[q..] == [yaw] + ([pitch] + EncodeBool(onGround))
    ensures U8P(d, q) == Ok(Parsed(yaw, q + 1))
    ensures U8P(d, q + 1) == Ok(Parsed(pitch, q + 2))
    ensures BoolP(d, q + 2) == Ok(Parsed(onGround, q + 3))
  {
    var r2 := EncodeBool(onGround);
    U8POf(d, q, yaw, [pitch] + r2);
    U8POf(d, q + 1, pitch, r2);
    assert r2 + [] == r2;
    BoolPOf(d, q + 2, onGround, []);
  }

  lemma LookAndRelativeMoveAtOf(d: seq<u8>, p: nat, q: nat, pk: McPacket)
    requires pk.EntityLookAndRelativeMove? && p <= |d| && q + 9 <= |d|
    requires VarIntP(d, p) == Ok(Parsed(pk.eid, q))
    requires I16P(d, q) == Ok(Parsed(pk.dx, q + 2))
    requires I16P(d, q + 2) == Ok(Parsed(pk.dy, q + 4))
    requires I16P(d, q + 4) == Ok(Parsed(pk.dz, q + 6))
    requires U8P(d, q + 6) == Ok(Parsed(pk.yaw, q + 7))
    requires U8P(d, q + 7) == Ok(Parsed(pk.pitch, q + 8))
    requires BoolP(d, q + 8) == Ok(Parsed(pk.onGround, q + 9))
    ensures LookAndRelativeMoveAt(d, p) == Ok(pk)
  {
  }

  lemma TeleportAtFields(d: seq<u8>, p: nat, pk: McPacket)
    requires pk.EntityTeleport? && p <= |d| && d[p..] == Fields(pk)
    ensures TeleportAt(d, p) == Ok(pk)
  {
    var r3 := [pk.yaw] + ([pk.pitch] + EncodeBool(pk.onGround));
    var r1 := EncodeU64(pk.x) + (EncodeU64(pk.y) + (EncodeU64(pk.z) + r3));
    var q := p + |EncodeVarInt(AsU32(pk.eid))|;
    VarIntPOf(d, p, pk.eid, r1);
    TeleportTail(d, q, pk);
    TeleportAtOf(d, p, q, pk);
  }

  lemma TeleportTail(d: seq<u8>, q: nat, pk: McPacket)
    requires pk.EntityTeleport? && q <= |d|
    requires d[q..] == EncodeU64(pk.x) + (EncodeU64(pk.y) + (EncodeU64(pk.z)
      + ([pk.yaw] + ([pk.pitch] + EncodeBool(pk.onGround)))))
    ensures F64BitsP(d, q) == Ok(Parsed(pk.x, q + 8))
    ensures F64BitsP(d, q + 8) == Ok(Parsed(pk.y, q + 16))
    ensures F64BitsP(d, q + 16) == Ok(Parsed(pk.z, q + 24))
    ensures U8P(d, q + 24) == Ok(Parsed(pk.yaw, q + 25))
    ensures U8P(d, q + 25) == Ok(Parsed(pk.pitch, q + 26))
    ensures BoolP(d, q + 26) == Ok(Parsed(pk.onGround, q + 27))
  {
    PositionTail(d, q, pk.x, pk.y, pk.z, [pk.yaw] + ([pk.pitch] + EncodeBool(pk.onGround)));
    LookTail(d, q + 24, pk.yaw, pk.pitch, pk.onGround);
  }

  /** Three f64 coordinates, then `rest`. */
  lemma PositionTail(d: seq<u8>, q: nat, x: u64, y: u64, z: u64, rest: seq<u8>)
    requires q <= |d| && d[q..] == EncodeU64(x) + (EncodeU64(y) + (EncodeU64(z) + rest))
    ensures F64BitsP(d, q) == Ok(Parsed(x, q + 8))
    ensures F64BitsP(d, q + 8) == Ok(Parsed(y, q + 16))
    ensures F64BitsP(d, q + 16) == Ok(Parsed(z, q + 24))
    ensures q + 24 <= |d| && d[q + 24..] == rest
  {
    var r2 := EncodeU64(z) + rest;
    var r1 := EncodeU64(y) + r2;
    F64BitsPOf(d, q, x, r1);
    F64BitsPOf(d, q + 8, y, r2);
    F64BitsPOf(d, q + 16, z, rest);
  }

  lemma TeleportAtOf(d: seq<u8>, p: nat, q: nat, pk: McPacket)
    requires pk.EntityTeleport? && p <= |d| && q + 27 <= |d|
    requires VarIntP(d, p) == Ok(Parsed(pk.eid, q))
    requires F64BitsP(d, q) == Ok(Parsed(pk.x, q + 8))
    requires F64BitsP(d, q + 8) == Ok(Parsed(pk.y, q + 16))
    requires F64BitsP(d, q + 16) == Ok(Parsed(pk.z, q + 24))
    requires U8P(d, q + 24) == Ok(Parsed(pk.yaw, q + 25))
    requires U8P(d, q + 25) == Ok(Parsed(pk.pitch, q + 26))
    requires BoolP(d, q + 26) == Ok(Parsed(pk.onGround, q + 27))
    ensures TeleportAt(d, p) == Ok(pk)
  {
  }

  /** The player spawn's trailing bytes are its metadata, so nothing may
      follow them. */
  lemma SpawnPlayerAtFields(d: seq<u8>, p: nat, pk: McPacket)
    requires pk.SpawnPlayer? && p <= |d| && d[p..] == Fields(pk)
    ensures SpawnPlayerAt(d, p) == Ok(pk)
  {
    var r1 := EncodeUuid(pk.uuid) + (EncodeU64(pk.x) + (EncodeU64(pk.y)
      + (EncodeU64(pk.z) + ([pk.yaw] + ([pk.pitch] + pk.metadata)))));
    var q := p + |EncodeVarInt(AsU32(pk.eid))|;
    VarIntPOf(d, p, pk.eid, r1);
    SpawnPlayerTail(d, q, pk);
    SpawnPlayerAtOf(d, p, q, pk);
  }

  /** The fields of a player spawn after its entity id. */
  lemma SpawnPlayerTail(d: seq<u8>, q: nat, pk: McPacket)
    requires pk.SpawnPlayer? && q <= |d|
    requires d[q..] == EncodeUuid(pk.uuid) + (EncodeU64(pk.x) + (EncodeU64(pk.y)
      + (EncodeU64(pk.z) + ([pk.yaw] + ([pk.pitch] + pk.metadata)))))
    ensures UuidP(d, q) == Ok(Parsed(pk.uuid, q + 16))
    ensures F64BitsP(d, q + 16) == Ok(Parsed(pk.x, q + 24))
    ensures F64BitsP(d, q + 24) == Ok(Parsed(pk.y, q + 32))
    ensures F64BitsP(d, q + 32) == Ok(Parsed(pk.z, q + 40))
    ensures U8P(d, q + 40) == Ok(Parsed(pk.yaw, q + 41))
    ensures U8P(d, q + 41) == Ok(Parsed(pk.pitch, q + 42))
    ensures q + 42 <= |d| && d[q + 42..] == pk.metadata
  {
    var r3 := [pk.yaw] + ([pk.pitch] + pk.metadata);
    UuidPOf(d, q, pk.uuid, EncodeU64(pk.x) + (EncodeU64(pk.y) + (EncodeU64(pk.z) + r3)));
    PositionTail(d, q + 16, pk.x, pk.y, pk.z, r3);
    U8POf(d, q + 40, pk.yaw, [pk.pitch] + pk.metadata);
    U8POf(d, q + 41, pk.pitch, pk.metadata);
  }

  /** The decoder's steps, given what each field reader returns. */
  lemma SpawnPlayerAtOf(d: seq<u8>, p: nat, q: nat, pk: McPacket)
    requires pk.SpawnPlayer? && p <= |d| && q + 42 <= |d|
    requires VarIntP(d, p) == Ok(Parsed(pk.eid, q))
    requires UuidP(d, q) == Ok(Parsed(pk.uuid, q + 16))
    requires F64BitsP(d, q + 16) == Ok(Parsed(pk.x, q + 24))
    requires F64BitsP(d, q + 24) == Ok(Parsed(pk.y, q + 32))
    requires F64BitsP(d, q + 32) == Ok(Parsed(pk.z, q + 40))
    requires U8P(d, q + 40) == Ok(Parsed(pk.yaw, q + 41))
    requires U8P(d, q + 41) == Ok(Parsed(pk.pitch, q + 42))
    requires d[q + 42..] == pk.metadata
    ensures SpawnPlayerAt(d, p) == Ok(pk)
  {
  }

  lemma ChatAtFields(d: seq<u8>, p: nat, pk: McPacket)
    requires pk.Chat? && Encodable(pk) && p <= |d| && d[p..] == Fields(pk)
    ensures ChatAt(d, p) == Ok(pk)
  {
    var bytes := Utf8.Encode(pk.message);
    var r2 := [AsU8(pk.position)];
    var v := EncodeVarInt(|bytes|);
    assert d[p..] == v + (bytes + r2);
    PrefixedBytesPOf(d, p, bytes, r2);
    var q := p + |v| + |bytes|;
    assert d[q..] == [AsU8(pk.position)] + [];
    I8POf(d, q, pk.position, []);
    Utf8.DecodeEncode(pk.message);
    ChatAtOf(d, p, q, pk);
  }

  lemma ChatAtOf(d: seq<u8>, p: nat, q: nat, pk: McPacket)
    requires pk.Chat? && p <= |d| && q + 1 <= |d|
    requires PrefixedBytesP(d, p) == Ok(Parsed(Utf8.Encode(pk.message), q))
    requires Utf8.Decode(Utf8.Encode(pk.message)) == Ok(pk.message)
    requires I8P(d, q) == Ok(Parsed(pk.position, q + 1))
    ensures ChatAt(d, p) == Ok(pk)
  {
  }

  /** The chunk's trailing bytes are its tile entities, so nothing may follow
      them. */
  lemma ChunkDataAtFields(d: seq<u8>, p: nat, pk: McPacket)
    requires pk.ChunkDataHack? && Encodable(pk) && p <= |d| && d[p..] == Fields(pk)
    ensures ChunkDataAt(d, p) == Ok(pk.chunk)
  {
    var c := pk.chunk;
    var r4 := EncodeVarInt(|c.chunkData|) + (c.chunkData + c.tileEntities);
    var r3 := EncodeU16(c.sectionsMask) + r4;
    var r2 := EncodeBool(c.isNew) + r3;
    var r1 := EncodeI32(c.z) + r2;
    I32POf(d, p, c.x, r1);
    I32POf(d, p + 4, c.z, r2);
    BoolPOf(d, p + 8, c.isNew, r3);
    U16POf(d, p + 9, c.sectionsMask, r4);
    PrefixedBytesPOf(d, p + 11, c.chunkData, c.tileEntities);
    ChunkDataAtOf(d, p, p + 11 + |EncodeVarInt(|c.chunkData|)| + |c.chunkData|, c);
  }

  lemma ChunkDataAtOf(d: seq<u8>, p: nat, q: nat, c: ChunkData)
    requires p + 11 <= |d| && q <= |d|
    requires I32P(d, p) == Ok(Parsed(c.x, p + 4))
    requires I32P(d, p + 4) == Ok(Parsed(c.z, p + 8))
    requires BoolP(d, p + 8) == Ok(Parsed(c.isNew, p + 9))
    requires U16P(d, p + 9) == Ok(Parsed(c.sectionsMask, p + 11))
    requires PrefixedBytesP(d, p + 11) == Ok(Parsed(c.chunkData, q))
    requires d[q..] == c.tileEntities
    ensures ChunkDataAt(d, p) == Ok(c)
  {
  }

  /** Every packet survives writing and reading back. */
  lemma DecodeEncoded(pk: McPacket)
    requires Encodable(pk)
    ensures Decoded(Encoded(pk)) == Ok(pk)
  {
    var d := Encoded(pk);
    Dispatch(d);
    match pk
    case SpawnPlayer(_, _, _, _, _, _, _, _) => SpawnPlayerAtFields(d, 1, pk);
    case Chat(_, _) => ChatAtFields(d, 1, pk);
    case ChunkDataHack(_) => ChunkDataAtFields(d, 1, pk);
    case EntityRelativeMove(_, _, _, _, _) => RelativeMoveAtFields(d, 1, pk);
    case EntityLookAndRelativeMove(_, _, _, _, _, _, _) => LookAndRelativeMoveAtFields(d, 1, pk);
    case EntityTeleport(_, _, _, _, _, _, _) => TeleportAtFields(d, 1, pk);
    case Unimplemented =>
  }

  /** An id the decoder does not know gives `Unimplemented`, whatever
      follows. */
  lemma UnknownIdUnimplemented(d: seq<u8>)
    requires |d| >= 1 && !IsKnownId(d[0])
    ensures Decoded(d) == Ok(Unimplemented)
  {
  }

  /** Empty input has no id byte: end of file. */
  lemma EmptyIsEof()
    ensures Decoded([]) == Err(EOF_MSG)
  {
  }

  /** Chat text that is not UTF-8 is an error, even with the position byte
      present. */
  lemma ChatInvalidUtf8(bytes: seq<u8>, position: u8)
    requires |bytes| < 0x8000_0000 && Utf8.Decode(bytes).Err?
    ensures Decoded([CHAT] + (EncodeVarInt(|bytes|) + (bytes + [position]))).Err?
  {
    var d := [CHAT] + (EncodeVarInt(|bytes|) + (bytes + [position]));
    U8POf(d, 0, CHAT, EncodeVarInt(|bytes|) + (bytes + [position]));
    Dispatch(d);
    PrefixedBytesPOf(d, 1, bytes, [position]);
  }

  /** The fewest bytes the fields of a known packet take: one-byte VarInts,
      empty byte strings and empty trailing fields. */
  function MinFieldBytes(id: u8): nat
    requires IsKnownId(id)
  {
    if id == SPAWN_PLAYER then 1 + 16 + 3 * 8 + 2
    else if id == CHAT then 1 + 1
    else if id == CHUNK_DATA then 4 + 4 + 1 + 2 + 1
    else if id == ENTITY_RELATIVE_MOVE then 1 + 3 * 2 + 1
    else if id == ENTITY_LOOK_AND_RELATIVE_MOVE then 1 + 3 * 2 + 2 + 1
    else 1 + 3 * 8 + 2 + 1
  }

  /** Input that ends before the last required field of a known packet is
      an error. */
  lemma TruncatedIsError(d: seq<u8>)
    requires |d| >= 1 && IsKnownId(d[0]) && |d| < 1 + MinFieldBytes(d[0])
    ensures Decoded(d).Err?
  {
  }
}

/** ReplayMod recordings: the `.tmcpr` stream is a run of records, each a
    big-endian `u32` time offset in milliseconds, a `u32` payload size and
    the payload, one protocol packet whose first byte is its id. Packets are
    decoded lazily and the decoded form is kept. */
module Replay {
  import opened Common
  import opened BufRw
  import Packet

  // ---------------------------------------------------------------------------
  // The replay reader's own packet type and decoder

  /** The packets of `replay.rs`: the variants of `Packet.McPacket`, with the
      chunk-data fields held inline instead of in a `ChunkData` record
      (its `x` and `z` are named `chunkX` and `chunkZ` here, since the
      spawn and teleport packets use `x` and `z` for doubles). */
  datatype McPacket =
    | SpawnPlayer(eid: i32, uuid: Uuid, x: u64, y: u64, z: u64, yaw: u8, pitch: u8, metadata: seq<u8>)
    | Chat(message: string, position: i8)
    | ChunkData(chunkX: i32, chunkZ: i32, isNew: bool, bitmask: u16, chunkData: seq<u8>, tileEntities: seq<u8>)
    | EntityRelativeMove(eid: i32, dx: i16, dy: i16, dz: i16, onGround: bool)
    | EntityLookAndRelativeMove(eid: i32, dx: i16, dy: i16, dz: i16, yaw: u8, pitch: u8, onGround: bool)
    | EntityTeleport(eid: i32, x: u64, y: u64, z: u64, yaw: u8, pitch: u8, onGround: bool)
    | Unimplemented

  /** A packet of the protocol decoder with its chunk-data fields inline. */
  function Inline(pk: Packet.McPacket): (r: McPacket)
    ensures r.ChunkData? <==> pk.ChunkDataHack?
    ensures r.Unimplemented? <==> pk.Unimplemented?
    ensures pk.ChunkDataHack? ==>
      r.chunkX == pk.chunk.x && r.chunkZ == pk.chunk.z && r.isNew == pk.chunk.isNew && r.bitmask == pk.chunk.sectionsMask
      && r.chunkData == pk.chunk.chunkData && r.tileEntities == pk.chunk.tileEntities
  {
    match pk
    case SpawnPlayer(eid, uuid, x, y, z, yaw, pitch, metadata) => SpawnPlayer(eid, uuid, x, y, z, yaw, pitch, metadata)
    case Chat(message, position) => Chat(message, position)
    case ChunkDataHack(c) => ChunkData(c.x, c.z, c.isNew, c.sectionsMask, c.chunkData, c.tileEntities)
    case EntityRelativeMove(eid, dx, dy, dz, onGround) => EntityRelativeMove(eid, dx, dy, dz, onGround)
    case EntityLookAndRelativeMove(eid, dx, dy, dz, yaw, pitch, onGround) =>
      EntityLookAndRelativeMove(eid, dx, dy, dz, yaw, pitch, onGround)
    case EntityTeleport(eid, x, y, z, yaw, pitch, onGround) => EntityTeleport(eid, x, y, z, yaw, pitch, onGround)
    case Unimplemented => Unimplemented
  }

  /** What the replay reader's `McPacket::decode` yields: the same id
      dispatch and field reads as the protocol decoder. */
  function Decoded(d: seq<u8>): Result<McPacket> {
    var pk :- Packet.Decoded(d);
    Ok(Inline(pk))
  }

  /** `McPacket::decode` of `replay.rs`, on a fresh reader over a copy of the
      bytes; chunk data is read field by field. */
  method Decode(data: seq<u8>) returns (r: Result<McPacket>)
    ensures r == Decoded(data)
  {
    var rd := new BufReader(data);
    var id :- rd.ReadU8();
    if id == Packet.SPAWN_PLAYER {
      var pk :- Packet.DecodeSpawnPlayer(rd);
      r := Ok(Inline(pk));
    } else if id == Packet.CHAT {
      var pk :- Packet.DecodeChat(rd);
      r := Ok(Inline(pk));
    } else if id == Packet.CHUNK_DATA {
      var x :- rd.ReadI32();
      var z :- rd.ReadI32();
      var isNew :- rd.ReadBool();
      var bitmask :- rd.ReadU16();
      var chunkData :- rd.ReadVarintPrefixedBytes();
      var tileEntities := rd.ReadRemainder();
      r := Ok(ChunkData(x, z, isNew, bitmask, chunkData, tileEntities.value));
    } else if id == Packet.ENTITY_RELATIVE_MOVE {
      var pk :- Packet.DecodeRelativeMove(rd);
      r := Ok(Inline(pk));
    } else if id == Packet.ENTITY_LOOK_AND_RELATIVE_MOVE {
      var pk :- Packet.DecodeLookAndRelativeMove(rd);
      r := Ok(Inline(pk));
    } else if id == Packet.ENTITY_TELEPORT {
      var pk :- Packet.DecodeTeleport(rd);
      r := Ok(Inline(pk));
    } else {
      r := Ok(Unimplemented);
    }
  }

  /** The bytes a sender writes for a packet decode back to it. */
  lemma DecodeEncoded(pk: Packet.McPacket)
    requires Packet.Encodable(pk)
    ensures Decoded(Packet.Encoded(pk)) == Ok(Inline(pk))
  {
    Packet.DecodeEncoded(pk);
  }

  /** A payload whose id the reader does not know is `Unimplemented`,
      whatever follows. */
  lemma UnknownIdUnimplemented(d: seq<u8>)
    requires |d| >= 1 && !Packet.IsKnownId(d[0])
    ensures Decoded(d) == Ok(Unimplemented)
  {
    Packet.UnknownIdUnimplemented(d);
  }

  // ---------------------------------------------------------------------------
  // Packets and their lazy decoding

  /** One record of the stream: its absolute date, its size, its id byte,
      the payload and, once parsed, the decoded packet. */
  class ReplayPacket {
    const date: nat
    const size: nat
    const id: u8
    const data: seq<u8>
    var decoded: Option<McPacket>

    constructor (date: nat, size: nat, id: u8, data: seq<u8>)
      ensures this.date == date && this.size == size && this.id == id && this.data == data
      ensures decoded == None
    {
      this.date, this.size, this.id, this.data := date, size, id, data;
      decoded := None;
    }

    /** `parse_packet`: decode once and keep the result; a packet already
        decoded is left as it is. A decode error is returned and nothing is
        kept. */
    method ParsePacket() returns (r: Result<()>)
      modifies this
      ensures (r, decoded) == ParseStep(old(decoded), data)
    {
      if decoded.None? {
        var pk :- Decode(data);
        decoded := Some(pk);
      }
      return Ok(());
    }
  }

  /** The outcome of `parse_packet` and the `decoded` field after it, from
      the field before it. */
  function ParseStep(decoded: Option<McPacket>, data: seq<u8>): (r: (Result<()>, Option<McPacket>))
    ensures r.0.Ok? <==> r.1.Some?
    ensures decoded.Some? ==> r == (Ok(()), decoded)
    ensures decoded.None? && Decoded(data).Ok? ==> r == (Ok(()), Some(Decoded(data).value))
    ensures decoded.None? && Decoded(data).Err? ==> r == (Err(Decoded(data).error), None)
  {
    if decoded.Some? then (Ok(()), decoded)
    else match Decoded(data)
      case Ok(pk) => (Ok(()), Some(pk))
      case Err(e) => (Err(e), None)
  }

  /** A second `parse_packet` changes nothing and succeeds exactly when the
      first did. */
  lemma ParseTwice(decoded: Option<McPacket>, data: seq<u8>)
    ensures var (r1, d1) := ParseStep(decoded, data);
      var (r2, d2) := ParseStep(d1, data);
      d2 == d1 && r2.Ok? == r1.Ok? && (r1.Err? ==> r2 == r1)
  {
    var (r1, d1) := ParseStep(decoded, data);
    if d1.None? {
      assert decoded.None? && Decoded(data).Err?;
    }
  }

  // ---------------------------------------------------------------------------
  // Record framing

  /** A record: its time offset, its payload size and its payload. */
  datatype Frame = Frame(offset: u32, size: u32, payload: seq<u8>)

  /** A record `Next` can return: the size is that of the payload and the
      payload has an id byte. */
  predicate FrameOk(f: Frame) {
    |f.payload| == f.size && f.size > 0
  }

  /** The record at `p`: none when fewer than 9 bytes are left (a trailing
      partial record is ignored), a panic when the payload runs past the end
      or is empty, else the record and the position after it. */
  function FrameAt(d: seq<u8>, p: nat): (r: Outcome<Option<Parsed<Frame>>>)
    requires p <= |d|
    ensures r == Returns(None) <==> p + 9 > |d|
    ensures r.Returns? && r.value.Some? ==>
      var f := r.value.value;
      && FrameOk(f.value) && f.next == p + 8 + f.value.size <= |d|
      && f.value.payload == d[p + 8..f.next]
  {
    if p + 9 > |d| then Returns(None)
    else
      var offset := BigEndian32(d[p..p + 4]);
      var size := BigEndian32(d[p + 4..p + 8]);
      if p + 8 + size > |d| || size == 0 then Panics
      else Returns(Some(Parsed(Frame(offset, size, d[p + 8..p + 8 + size]), p + 8 + size)))
  }

  /** The bytes a recorder writes for a record. */
  function EncodeFrame(f: Frame): (s: seq<u8>)
    ensures |s| == 8 + |f.payload|
  {
    EncodeU32(f.offset) + EncodeU32(f.size) + f.payload
  }

  /** Reading the bytes written for a record gives it back and moves past it. */
  lemma FrameOfEncoding(d: seq<u8>, p: nat, f: Frame, rest: seq<u8>)
    requires FrameOk(f) && p <= |d| && d[p..] == EncodeFrame(f) + rest
    ensures FrameAt(d, p) == Returns(Some(Parsed(f, p + 8 + f.size)))
    ensures d[p + 8 + f.size..] == rest
  {
    U32POf(d, p, f.offset, EncodeU32(f.size) + (f.payload + rest));
    U32POf(d, p + 4, f.size, f.payload + rest);
    Peel(d, p + 8, f.payload, rest);
  }

  /** Every record from `p` on, as iterating the replay yields them, or a
      panic at a malformed one. */
  function FramesFrom(d: seq<u8>, p: nat): (r: Outcome<seq<Frame>>)
    requires p <= |d|
    ensures r.Returns? ==> forall i | 0 <= i < |r.value| :: FrameOk(r.value[i])
    decreases |d| - p
  {
    match FrameAt(d, p)
    case Panics => Panics
    case Returns(None) => Returns([])
    case Returns(Some(f)) =>
      var more := FramesFrom(d, f.next);
      if more.Panics? then Panics else Returns([f.value] + more.value)
  }

  /** The stream a recorder writes for a run of records. */
  function EncodeFrames(fs: seq<Frame>): seq<u8> {
    if fs == [] then [] else EncodeFrame(fs[0]) + EncodeFrames(fs[1..])
  }

  /** Iterating over a written stream gives back its records, in order. */
  lemma {:induction false} FramesOfEncoding(pre: seq<u8>, fs: seq<Frame>)
    requires forall i | 0 <= i < |fs| :: FrameOk(fs[i])
    ensures FramesFrom(pre + EncodeFrames(fs), |pre|) == Returns(fs)
    decreases |fs|
  {
    var d := pre + EncodeFrames(fs);
    if fs == [] {
      assert d == pre;
      assert FrameAt(d, |pre|) == Returns(None);
    } else {
      var f, more := fs[0], EncodeFrames(fs[1..]);
      assert d[|pre|..] == EncodeFrame(f) + more;
      FrameOfEncoding(d, |pre|, f, more);
      var pre' := pre + EncodeFrame(f);
      assert d == pre' + more;
      FramesOfEncoding(pre', fs[1..]);
      assert fs == [f] + fs[1..];
    }
  }

  // ---------------------------------------------------------------------------
  // The replay

  /** `ReplayInfo`, read from the recording's metadata. */
  datatype ReplayInfo = ReplayInfo(date: nat, duration: nat, mcVersion: string,
                                   players: seq<string>, serverName: string)

  /** An open recording: its metadata and a reader over the packet stream. */
  class Replay {
    const info: ReplayInfo
    const data: BufReader

    constructor (info: ReplayInfo, stream: seq<u8>)
      ensures this.info == info && data.Valid() && data.data == stream && data.pos == 0 && fresh(data)
    {
      this.info := info;
      data := new BufReader(stream);
    }

    /** `Iterator::next`: the next record as a packet dated
        `info.date + offset`, with its first payload byte as id and not yet
        decoded; `None` once fewer than 9 bytes are left. A record whose
        payload runs past the end or is empty panics. */
    method Next() returns (r: Outcome<Option<ReplayPacket>>)
      requires data.Valid()
      modifies data
      ensures data.Valid()
      ensures FrameAt(data.data, old(data.pos)).Panics? <==> r.Panics?
      ensures FrameAt(data.data, old(data.pos)) == Returns(None) ==> r == Returns(None) && data.pos == old(data.pos)
      ensures FrameAt(data.data, old(data.pos)).Returns? && FrameAt(data.data, old(data.pos)).value.Some? ==>
        var f := FrameAt(data.data, old(data.pos)).value.value;
        && r.Returns? && r.value.Some? && fresh(r.value.value)
        && r.value.value.date == info.date + f.value.offset
        && r.value.value.size == f.value.size
        && r.value.value.id == f.value.payload[0]
        && r.value.value.data == f.value.payload
        && r.value.value.decoded == None
        && data.pos == f.next
    {
      if data.Position() + 9 > data.Len() {
        return Returns(None);
      }
      ghost var p := data.pos;
      var timeOffset := data.ReadU32();
      var size := data.ReadU32();
      assert timeOffset.Ok? && size.Ok?;
      var packetData := data.ReadBytes(size.value);
      if packetData.Err? {
        // `expect("malformed tmcpr")`
        return Panics;
      }
      if |packetData.value| == 0 {
        // `packet_data[0]` on an empty payload
        return Panics;
      }
      var id := packetData.value[0];
      var date := info.date + timeOffset.value;
      var packet := new ReplayPacket(date, size.value, id, packetData.value);
      return Returns(Some(packet));
    }
  }
}

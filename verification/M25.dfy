/** Codec of the M25 detector's FA/F5 family, wire type 1 (protocols/m25.py). */
module M25 {
  import opened Bytes
  import opened Models
  import opened Framing

  const QUERY: bytes := [0x03, 0xFA, 0xA0, 0x11, 0x11, 0x00, 0x00]
  const BACKLIGHT_QUERY: bytes := [0x03, 0xFA, 0xA4, 0x02, 0x01, 0xA1]

  function EncodeQuery(context: Context): Result<bytes>
  {
    if context.identity.wireType != 1 then Err(InvalidCommand) else Wrap(context, QUERY)
  }

  function EncodeBacklightQuery(context: Context): Result<bytes>
  {
    if context.identity.wireType != 1 then Err(InvalidCommand) else Wrap(context, BACKLIGHT_QUERY)
  }

  function EncodeCommand(context: Context, command: Command): Result<bytes>
  {
    if context.identity.wireType != 1 then Err(InvalidCommand)
    else if !command.operation.Backlight? || command.value !in {0, 1} then Err(InvalidCommand)
    else
      var checksum: byte := if command.value == 0 then 0xA1 else 0xA2;
      Wrap(context, [0x03, 0xFA, 0xA3, 0x03, 0x01, command.value, checksum])
  }

  function Packet(outer: OuterFrame, source: Endpoint, kind: PacketKind, state: DeviceState): DecodedPacket
  {
    DecodedPacket(outer.identity, outer.sequence, kind, Some(state), source, FamilyM25, None, outer.operation)
  }

  function Decode(datagram: bytes, source: Endpoint): Option<DecodedPacket>
  {
    var parsed := ParseOuterFrame(datagram);
    if parsed == None then None
    else
      var outer := parsed.value;
      var p := outer.payload;
      if outer.identity.wireType != 1 then None
      else if |p| < 3 || p[0] !in {0x03, 0x04} || p[1] != 0xF5 then None
      else if p[2] in {0xA1, 0xA2} then
        if |p| != 17 then None
        else
          var state := EMPTY_STATE.(pm25 := Some(FromBytes(p[3..5])), linkageRaw := Some(p[7]));
          Some(Packet(outer, source, StateKind, state))
      else if p[2] == 0xA3 then
        if |p| != 7 || p[3..5] != [0x03, 0x01] then None
        else Some(Packet(outer, source, BacklightKind, EMPTY_STATE.(backlight := Some(p[5]))))
      else if p[2] == 0xA4 && |p| >= 6 && p[4] == 0x01 then
        Some(Packet(outer, source, BacklightKind, EMPTY_STATE.(backlight := Some(p[5]))))
      else None
  }
}

/** Packets and their payloads: src/rabbitControl/packet.h, infodata.h and iddata.h. */
module Packets {
  import opened Bytes
  import opened Streams
  import opened TypeDefinitions
  import opened TypeCodec
  import opened Forest
  import opened Parameters
  import opened ParameterCodec

  const INFO: Byte := 1
  const INITIALIZE: Byte := 2
  const DISCOVER: Byte := 3
  const UPDATE: Byte := 4
  const REMOVE: Byte := 5
  const UPDATEVALUE: Byte := 6
  const COMMAND_MAX: Byte := 7

  const TIMESTAMP: Byte := 17
  const DATA: Byte := 18
  const APPLICATIONID: Byte := 26

  datatype Payload = InfoPayload(version: Text, application: Text) | IdPayload(id: Id) | ParamPayload(p: Param)

  datatype Packet = Packet(command: Byte, timestamp: Option<nat>, data: Option<Payload>)

  // ---------------------------------------------------------------- writing

  function InfoBytes(version: Text, application: Text, all: bool): (r: Text) {
    StringBytes(version, TINY)
    + ((if all || application != [] then [APPLICATIONID] + StringBytes(application, TINY) else []) + [TERMINATOR])
  }

  function PayloadBytes(d: Payload, all: bool): (r: Text) {
    match d
    case InfoPayload(version, application) => InfoBytes(version, application, all)
    case IdPayload(id) => IdBytes(id)
    case ParamPayload(p) => ParamBytes(p, all)
  }

  function TimestampBytes(timestamp: Option<nat>): (r: Text) {
    if timestamp.Some? then [TIMESTAMP] + BigEndian(timestamp.value, 8) else []
  }

  function DataBytes(data: Option<Payload>, all: bool): (r: Text) {
    if data.Some? then [DATA] + PayloadBytes(data.value, all) else []
  }

  function PacketBytes(k: Packet, all: bool): (r: Text) {
    if k.command == UPDATEVALUE then
      [k.command] + (if k.data.Some? && k.data.value.ParamPayload? then ParamBytes(k.data.value.p, all) else [])
    else [k.command] + (TimestampBytes(k.timestamp) + (DataBytes(k.data, all) + [TERMINATOR]))
  }

  // ---------------------------------------------------------------- parsing

  // The parsers' answers: a payload, a null pointer, or none that is defined.
  datatype PayloadRead = Payload(data: Option<Payload>, stream: Stream) | Garbled

  // The empty option is `Rejected`.
  datatype PacketRead = Accepted(packet: Packet, stream: Stream) | Rejected | Unpredictable

  // while (!is.eof()) of InfoData::parse
  function InfoLoop(version: Text, application: Text, s: Stream): (r: PayloadRead)
    ensures r.Payload? ==> r.data.Some? && |r.stream.rest| <= |s.rest|
    decreases |s.rest|
  {
    var info := Some(InfoPayload(version, application));
    if s.eof then Payload(info, s)
    else
      var (tag, next) := Get(s);
      if tag.None? || tag.value == TERMINATOR then Payload(info, next)
      else if tag.value != APPLICATIONID then InfoLoop(version, application, next)
      else
        match ReadString(next, TINY)
        case Got(v, end) => InfoLoop(version, v, end)
        case Short(v, end) => Payload(Some(InfoPayload(version, v)), end)
        case Fault => Garbled
  }

  function ParseInfo(s: Stream): (r: PayloadRead)
    ensures r.Payload? ==> r.data.Some? && |r.stream.rest| <= |s.rest|
  {
    match ReadString(s, TINY)
    case Got(v, next) => InfoLoop(v, [], next)
    case Short(v, next) => Payload(Some(InfoPayload(v, [])), next)
    case Fault => Garbled
  }

  function ParseId(s: Stream): (r: PayloadRead)
    ensures r.Payload? ==> |r.stream.rest| <= |s.rest|
  {
    match ReadWord(s, 2)
    case Got(v, next) => SmallPowers(); Payload(Some(IdPayload(ToId(v))), next)
    case Short(_, _) => Garbled
  }

  function FromParam(r: ParamRead): (d: PayloadRead) {
    match r
    case Found(p, next) => Payload(Some(ParamPayload(p)), next)
    case Nobody(next) => Payload(None, next)
    case Unknown => Garbled
  }

  // The switch on the command inside the data option.
  function ParseData(command: Byte, groups: set<Id>, s: Stream): (r: PayloadRead)
    ensures r.Payload? ==> |r.stream.rest| <= |s.rest|
  {
    if command == INFO then ParseInfo(s)
    else if command == INITIALIZE || command == REMOVE then ParseId(s)
    else if command == UPDATE then FromParam(ParseParam(groups, s))
    else Payload(None, s)
  }

  // while (!is.eof()) of Packet::parse
  function PacketLoop(k: Packet, groups: set<Id>, s: Stream): (r: PacketRead)
    ensures r.Accepted? ==> |r.stream.rest| <= |s.rest|
    decreases |s.rest|
  {
    if s.eof then Accepted(k, s)
    else
      var (tag, next) := Get(s);
      if tag.None? then Rejected
      else if tag.value == TERMINATOR then Accepted(k, next)
      else if tag.value == TIMESTAMP then
        match ReadWord(next, 8) {
          case Got(v, end) => PacketLoop(k.(timestamp := Some(v)), groups, end)
          case Short(_, end) => Accepted(k, end)
        }
      else if tag.value != DATA then Accepted(k, next)
      else if k.data.Some? then Rejected
      else
        match ParseData(k.command, groups, next)
        case Payload(d, end) => PacketLoop(k.(data := d), groups, end)
        case Garbled => Unpredictable
  }

  // Packet::parse
  function ParsePacket(groups: set<Id>, s: Stream): (r: PacketRead)
    ensures r.Accepted? ==> |r.stream.rest| < |s.rest|
  {
    var (command, next) := Get(s);
    if command.None? || command.value == TERMINATOR || command.value >= COMMAND_MAX then Rejected
    else if command.value == UPDATEVALUE then
      match ParseUpdateValue(next) {
        case Found(p, end) => Accepted(Packet(UPDATEVALUE, None, Some(ParamPayload(p))), end)
        case Nobody(_) => Rejected
        case Unknown => Unpredictable
      }
    else PacketLoop(Packet(command.value, None, None), groups, next)
  }

  // ---------------------------------------------------------------- round trip

  ghost predicate SendableInfo(version: Text, application: Text) {
    |version| <= Readable(TINY) && |application| <= Readable(TINY)
  }

  // The packets the engine sends, within the bounds of the wire format.
  ghost predicate SendablePacket(k: Packet) {
    && INFO <= k.command <= UPDATEVALUE
    && (k.timestamp.Some? ==> k.command != UPDATEVALUE && k.timestamp.value < Power256(8))
    && (k.data.None? ==> k.command != UPDATEVALUE)
    && (k.data.Some? ==>
          match k.data.value
          case InfoPayload(version, application) => k.command == INFO && SendableInfo(version, application)
          case IdPayload(_) => k.command == INITIALIZE || k.command == REMOVE
          case ParamPayload(p) =>
            && Sendable(p)
            && (if k.command == UPDATEVALUE then OnlyValueChanged(p) && !p.td.Range?
                else k.command == UPDATE && !OnlyValueChanged(p)))
  }

  function HeardPayload(d: Payload, all: bool, groups: set<Id>): (r: Payload) {
    if d.ParamPayload? then ParamPayload(Arrived(d.p, all, groups)) else d
  }

  function HeardPacket(k: Packet, all: bool, groups: set<Id>): (r: Packet) {
    if k.data.Some? then k.(data := Some(HeardPayload(k.data.value, all, groups))) else k
  }

  lemma InfoReadsBack(version: Text, application: Text, all: bool, t: Text)
    requires SendableInfo(version, application)
    ensures ParseInfo(In(InfoBytes(version, application, all) + t))
             == Payload(Some(InfoPayload(version, application)), In(t))
  {
    hide StringBytes, ReadString, InfoLoop, Readable;
    var z := [TERMINATOR] + t;
    var v, w := StringBytes(version, TINY), StringBytes(application, TINY);
    InfoEnds(version, application, t);
    if all || application != [] {
      assert InfoBytes(version, application, all) + t == v + ([APPLICATIONID] + w + z);
      ReadableReadsBack(version, TINY, [APPLICATIONID] + w + z, false);
      ReadableReadsBack(application, TINY, z, false);
      InfoTurn(version, [], application, z);
    } else {
      assert InfoBytes(version, application, all) + t == v + z;
      ReadableReadsBack(version, TINY, z, false);
    }
  }

  lemma InfoTurn(version: Text, application: Text, application': Text, t: Text)
    requires |application'| <= Readable(TINY)
    ensures InfoLoop(version, application, In([APPLICATIONID] + StringBytes(application', TINY) + t))
             == InfoLoop(version, application', In(t))
  {
    hide StringBytes, ReadString, Readable;
    var s := [APPLICATIONID] + StringBytes(application', TINY) + t;
    assert s[1..] == StringBytes(application', TINY) + t && s[0] == APPLICATIONID;
    ReadableReadsBack(application', TINY, t, false);
  }

  lemma InfoEnds(version: Text, application: Text, t: Text)
    ensures InfoLoop(version, application, In([TERMINATOR] + t))
             == Payload(Some(InfoPayload(version, application)), In(t))
  {
    assert ([TERMINATOR] + t)[1..] == t;
  }

  lemma TimestampReads(k: Packet, groups: set<Id>, timestamp: Option<nat>, t: Text)
    requires k.timestamp.None? && (timestamp.Some? ==> timestamp.value < Power256(8))
    ensures PacketLoop(k, groups, In(TimestampBytes(timestamp) + t))
             == PacketLoop(k.(timestamp := timestamp), groups, In(t))
  {
    hide BigEndian, ReadWord, Power256;
    if timestamp.Some? {
      WordReadsBack(timestamp.value, 8, t, false);
      var s := [TIMESTAMP] + BigEndian(timestamp.value, 8) + t;
      assert s[1..] == BigEndian(timestamp.value, 8) + t && s[0] == TIMESTAMP;
    } else {
      Nothing(t);
    }
  }

  lemma DataTurn(k: Packet, groups: set<Id>, payload: Text, t: Text, d: Option<Payload>)
    requires k.data.None? && ParseData(k.command, groups, In(payload + t)) == Payload(d, In(t))
    ensures PacketLoop(k, groups, In([DATA] + payload + t)) == PacketLoop(k.(data := d), groups, In(t))
  {
    hide ParseData;
    var s := [DATA] + payload + t;
    assert s[1..] == payload + t && s[0] == DATA;
  }

  lemma PayloadReadsBack(k: Packet, groups: set<Id>, all: bool, t: Text)
    requires SendablePacket(k) && k.data.Some? && k.command != UPDATEVALUE
    ensures ParseData(k.command, groups, In(PayloadBytes(k.data.value, all) + t))
             == Payload(Some(HeardPayload(k.data.value, all, groups)), In(t))
  {
    hide ParamBytes, InfoBytes, IdBytes, ParseInfo, ParseParam, ReadWord, Sendable, OnlyValueChanged, Proxy, Unsigned,
        ToId;
    match k.data.value
    case InfoPayload(version, application) => InfoReadsBack(version, application, all, t);
    case IdPayload(id) => IdReadsBack(id, t);
    case ParamPayload(p) => ParamReadsBack(p, groups, all, t);
  }

  lemma DataReads(k: Packet, groups: set<Id>, all: bool, t: Text)
    requires SendablePacket(k) && k.command != UPDATEVALUE
    ensures PacketLoop(k.(data := None), groups, In(DataBytes(k.data, all) + t))
             == PacketLoop(HeardPacket(k, all, groups), groups, In(t))
  {
    hide PacketLoop, PayloadBytes, ParseData, HeardPayload;
    if k.data.Some? {
      PayloadReadsBack(k, groups, all, t);
      DataTurn(k.(data := None), groups, PayloadBytes(k.data.value, all), t,
          Some(HeardPayload(k.data.value, all, groups)));
    } else {
      Nothing(t);
    }
  }

  lemma ValuePacketReadsBack(k: Packet, groups: set<Id>, all: bool, t: Text)
    requires SendablePacket(k) && k.command == UPDATEVALUE
    ensures ParsePacket(groups, In(PacketBytes(k, all) + t)) == Accepted(HeardPacket(k, all, groups), In(t))
  {
    hide ParseUpdateValue, Sendable, FreshParam, FreshType;
    var p := k.data.value.p;
    ShortReadsBack(p, t);
    assert ParamBytes(p, all) == ShortBytes(p);
    assert PacketBytes(k, all) + t == [UPDATEVALUE] + (ShortBytes(p) + t);
    assert ([UPDATEVALUE] + (ShortBytes(p) + t))[1..] == ShortBytes(p) + t;
  }

  lemma CommandReads(command: Byte, groups: set<Id>, rest: Text)
    requires INFO <= command < UPDATEVALUE
    ensures ParsePacket(groups, In([command] + rest)) == PacketLoop(Packet(command, None, None), groups, In(rest))
  {
    hide PacketLoop;
    assert ([command] + rest)[1..] == rest;
  }

  lemma OtherPacketReadsBack(k: Packet, groups: set<Id>, all: bool, t: Text)
    requires SendablePacket(k) && k.command != UPDATEVALUE
    ensures ParsePacket(groups, In(PacketBytes(k, all) + t)) == Accepted(HeardPacket(k, all, groups), In(t))
  {
    var k0 := Packet(k.command, None, None);
    var x, y, z := TimestampBytes(k.timestamp), DataBytes(k.data, all), [TERMINATOR] + t;
    assert k0.(timestamp := k.timestamp) == k.(data := None);
    assert PacketBytes(k, all) + t == [k.command] + (x + (y + z));
    CommandReads(k.command, groups, x + (y + z));
    TimestampReads(k0, groups, k.timestamp, y + z);
    DataReads(k, groups, all, z);
    PacketEnds(HeardPacket(k, all, groups), groups, t);
    hide *;
  }

  // Every packet the engine sends is parsed back, up to exactly its own end.
  lemma PacketReadsBack(k: Packet, groups: set<Id>, all: bool, t: Text)
    requires SendablePacket(k)
    ensures ParsePacket(groups, In(PacketBytes(k, all) + t)) == Accepted(HeardPacket(k, all, groups), In(t))
  {
    hide *;
    if k.command == UPDATEVALUE {
      ValuePacketReadsBack(k, groups, all, t);
    } else {
      OtherPacketReadsBack(k, groups, all, t);
    }
  }

  lemma PacketEnds(k: Packet, groups: set<Id>, t: Text)
    ensures PacketLoop(k, groups, In([TERMINATOR] + t)) == Accepted(k, In(t))
  {
    assert ([TERMINATOR] + t)[1..] == t;
  }
}

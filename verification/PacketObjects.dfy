/** Packets as objects: Packet::write and Packet::parse of src/rabbitControl/packet.h, with
    InfoData and IdData of infodata.h and iddata.h. */
module PacketObjects {
  import opened Bytes
  import opened Streams
  import opened TypeDefinitions
  import opened TypeObjects
  import opened Forest
  import opened Parameters
  import opened ParameterObjects
  import opened Packets

  // m_data
  datatype Data = OfInfo(version: Text, application: Text) | OfId(id: Id) | OfParameter(p: Parameter)

  function DataObjects(d: Option<Data>): (r: set<object>) {
    if d.Some? && d.value.OfParameter? then {d.value.p} + Objects(d.value.p.definition) else {}
  }

  function PayloadOf(d: Option<Data>): (r: Option<Payload>)
    reads DataObjects(d)
  {
    if d.None? then None else
      match d.value
      case OfInfo(version, application) => Some(InfoPayload(version, application))
      case OfId(id) => Some(IdPayload(id))
      case OfParameter(p) => Some(ParamPayload(p.View()))
  }

  function FlushedPayload(d: Option<Payload>, all: bool): (r: Option<Payload>) {
    if d.Some? && d.value.ParamPayload? then Some(ParamPayload(FlushedParam(d.value.p, all))) else d
  }

  method WriteInfo(version: Text, application: Text, out: Writer, all: bool)
    modifies out
    ensures out.buffer == old(out.buffer) + InfoBytes(version, application, all)
  {
    hide StringBytes;
    ghost var start := out.buffer;
    ghost var b := if all || application != [] then [APPLICATIONID] + StringBytes(application, TINY) else [];
    ThreeAppended(start, StringBytes(version, TINY), b, [TERMINATOR]);
    out.WriteString(version, TINY);
    ghost var mid := out.buffer;
    if all || application != [] {
      out.Write(APPLICATIONID);
      out.WriteString(application, TINY);
      assert out.buffer == mid + b;
    } else {
      NothingAfter(mid);
    }
    out.Write(TERMINATOR);
  }

  class PacketObject {
    var command: Byte
    var timestamp: Option<nat>
    var data: Option<Data>

    function View(): (r: Packet)
      reads this, DataObjects(data)
    {
      Packet(command, timestamp, PayloadOf(data))
    }

    constructor (command: Byte)
      ensures View() == Packet(command, None, None) && data.None?
    {
      this.command, timestamp, data := command, None, None;
    }

    // m_data->write
    method WriteData(out: Writer, all: bool)
      requires data.Some?
      modifies DataObjects(data), out
      ensures out.buffer == old(out.buffer) + PayloadBytes(old(PayloadOf(data)).value, all)
      ensures PayloadOf(data) == FlushedPayload(old(PayloadOf(data)), all)
      ensures command == old(command) && timestamp == old(timestamp) && data == old(data)
    {
      hide InfoBytes, ParamBytes, FlushedParam, BigEndian;
      match data.value
      case OfInfo(version, application) => WriteInfo(version, application, out, all);
      case OfId(id) => out.WriteWord(Unsigned(id), 2);
      case OfParameter(p) => p.Write(out, all);
    }

    method WriteTimestamp(out: Writer)
      modifies out
      ensures out.buffer == old(out.buffer) + TimestampBytes(timestamp)
    {
      ghost var start := out.buffer;
      if timestamp.Some? {
        out.Write(TIMESTAMP);
        out.WriteWord(timestamp.value, 8);
        assert out.buffer == start + ([TIMESTAMP] + BigEndian(timestamp.value, 8));
      } else {
        NothingAfter(start);
      }
    }

    method WriteTaggedData(out: Writer, all: bool)
      requires data.Some?
      modifies DataObjects(data), out
      ensures out.buffer == old(out.buffer) + [DATA] + PayloadBytes(old(PayloadOf(data)).value, all)
      ensures PayloadOf(data) == FlushedPayload(old(PayloadOf(data)), all)
      ensures command == old(command) && timestamp == old(timestamp) && data == old(data)
    {
      hide PayloadBytes, FlushedPayload;
      out.Write(DATA);
      WriteData(out, all);
    }

    method WriteDataOption(out: Writer, all: bool)
      modifies DataObjects(data), out
      ensures out.buffer == old(out.buffer) + DataBytes(old(PayloadOf(data)), all)
      ensures PayloadOf(data) == FlushedPayload(old(PayloadOf(data)), all)
      ensures command == old(command) && timestamp == old(timestamp) && data == old(data)
    {
      if data.Some? {
        Joined(out.buffer, [DATA], PayloadBytes(PayloadOf(data).value, all));
        hide PayloadBytes, FlushedPayload;
        WriteTaggedData(out, all);
      } else {
        NothingAfter(out.buffer);
      }
    }

    method WriteCommandAndTimestamp(out: Writer)
      modifies out
      ensures out.buffer == old(out.buffer) + [command] + TimestampBytes(timestamp)
    {
      hide TimestampBytes;
      out.Write(command);
      WriteTimestamp(out);
    }

    method WriteDataAndEnd(out: Writer, all: bool)
      modifies DataObjects(data), out
      ensures out.buffer == old(out.buffer) + DataBytes(old(PayloadOf(data)), all) + [TERMINATOR]
      ensures PayloadOf(data) == FlushedPayload(old(PayloadOf(data)), all)
      ensures command == old(command) && timestamp == old(timestamp) && data == old(data)
    {
      hide DataBytes, FlushedPayload;
      WriteDataOption(out, all);
      out.Write(TERMINATOR);
    }

    method WriteLong(out: Writer, all: bool)
      modifies DataObjects(data), out
      ensures out.buffer == old(out.buffer) + [command] + TimestampBytes(timestamp)
               + DataBytes(old(PayloadOf(data)), all) + [TERMINATOR]
      ensures PayloadOf(data) == FlushedPayload(old(PayloadOf(data)), all)
      ensures command == old(command) && timestamp == old(timestamp) && data == old(data)
    {
      hide DataBytes, TimestampBytes, FlushedPayload;
      WriteCommandAndTimestamp(out);
      WriteDataAndEnd(out, all);
    }

    // a value update is only the parameter
    method WriteShort(out: Writer, all: bool)
      requires data.Some? && data.value.OfParameter?
      modifies DataObjects(data), out
      ensures out.buffer == old(out.buffer) + [command] + ParamBytes(old(data.value.p.View()), all)
      ensures PayloadOf(data) == FlushedPayload(old(PayloadOf(data)), all)
      ensures command == old(command) && timestamp == old(timestamp) && data == old(data)
    {
      hide ParamBytes, FlushedParam;
      out.Write(command);
      data.value.p.Write(out, all);
    }

    method Write(out: Writer, all: bool)
      modifies DataObjects(data), out
      ensures out.buffer == old(out.buffer) + PacketBytes(old(View()), all)
      ensures View() ==
        if command == UPDATEVALUE && PayloadOf(data).Some? && !PayloadOf(data).value.ParamPayload? then old(View())
        else old(View()).(data := FlushedPayload(old(PayloadOf(data)), all))
    {
      ghost var k := View();
      if command != UPDATEVALUE {
        FourAppended(out.buffer, [k.command], TimestampBytes(k.timestamp), DataBytes(k.data, all), [TERMINATOR]);
        hide TimestampBytes, DataBytes, FlushedPayload;
        WriteLong(out, all);
      } else if data.Some? && data.value.OfParameter? {
        Joined(out.buffer, [k.command], ParamBytes(k.data.value.p, all));
        hide ParamBytes, FlushedPayload;
        WriteShort(out, all);
      } else {
        NothingAfter([k.command]);
        out.Write(command);
      }
    }
  }

  lemma Joined(start: Text, a: Text, b: Text)
    ensures start + a + b == start + (a + b)
  {
  }

  // ---------------------------------------------------------------- parsing

  // InfoData::parse
  method ReadInfo(input: InputStream) returns (ok: bool, d: Option<Data>)
    modifies input
    ensures ok ==> d.Some? && d.value.OfInfo?
    ensures ok ==>
      ParseInfo(old(input.view)) == Payload(Some(InfoPayload(d.value.version, d.value.application)), input.view)
    ensures !ok ==> d.None? && ParseInfo(old(input.view)).Garbled?
  {
    var version := input.String(TINY);
    if version.Fault? { return false, None; }
    var v, application: Text := if version.Got? then version.value else version.padded, [];
    ghost var whole := InfoLoop(v, [], input.view);
    while !input.view.eof
      invariant InfoLoop(v, application, input.view) == whole
      decreases |input.view.rest|
    {
      var tag := input.Next();
      if tag.None? || tag.value == TERMINATOR { return true, Some(OfInfo(v, application)); }
      if tag.value == APPLICATIONID {
        var s := input.String(TINY);
        if s.Fault? { return false, None; }
        application := if s.Got? then s.value else s.padded;
      }
    }
    return true, Some(OfInfo(v, application));
  }

  // the switch on the command inside the data option
  method ReadData(command: Byte, input: InputStream, groups: set<Id>) returns (ok: bool, d: Option<Data>)
    modifies input
    ensures ok ==> ParseData(command, groups, old(input.view)) == Payload(PayloadOf(d), input.view)
    ensures !ok ==> ParseData(command, groups, old(input.view)).Garbled?
    ensures d.Some? && d.value.OfParameter? ==> fresh(d.value.p)
  {
    hide ParseInfo, ParseParam, ReadWord;
    ok, d := true, None;
    if command == INFO {
      ok, d := ReadInfo(input);
    } else if command == INITIALIZE || command == REMOVE {
      SmallPowers();
      var v := input.Word(2);
      if v.Got? { d := Some(OfId(ToId(v.value))); } else { ok := false; }
    } else if command == UPDATE {
      var answer := Parse(input, groups);
      match answer
      case AnswerFound(p) => d := Some(OfParameter(p));
      case AnswerNobody =>
      case AnswerUnknown => ok := false;
    }
  }

  datatype Verdict = IsAccepted(k: PacketObject) | IsRejected | IsUnpredictable

  method TakeData(k: PacketObject, input: InputStream, groups: set<Id>) returns (ok: bool)
    modifies k, input
    ensures ok ==> ParseData(old(k.command), groups, old(input.view)) == Payload(k.View().data, input.view)
    ensures !ok ==> ParseData(old(k.command), groups, old(input.view)).Garbled?
    ensures k.View() == Packet(old(k.command), old(k.timestamp), k.View().data)
    ensures k.data.Some? && k.data.value.OfParameter? ==> fresh(k.data.value.p)
  {
    hide ParseData;
    var d;
    ok, d := ReadData(k.command, input, groups);
    k.data := d;
  }

  // while (!is.eof()) of Packet::parse
  method ReadOptions(k: PacketObject, input: InputStream, groups: set<Id>) returns (verdict: Verdict)
    requires k.data.None?
    modifies k, input
    ensures verdict.IsAccepted? ==>
             verdict.k == k && PacketLoop(old(k.View()), groups, old(input.view)) == Accepted(k.View(), input.view)
    ensures verdict.IsRejected? ==> PacketLoop(old(k.View()), groups, old(input.view)).Rejected?
    ensures verdict.IsUnpredictable? ==> PacketLoop(old(k.View()), groups, old(input.view)).Unpredictable?
    ensures k.data.Some? && k.data.value.OfParameter? ==> fresh(k.data.value.p)
  {
    hide PacketLoop, ParseData, ReadWord;
    ghost var whole := PacketLoop(k.View(), groups, input.view);
    while !input.view.eof
      invariant PacketLoop(k.View(), groups, input.view) == whole
      invariant k.data.Some? && k.data.value.OfParameter? ==> fresh(k.data.value.p)
      decreases |input.view.rest|
    {
      LoopTurn(k.View(), groups, input.view);
      var tag := input.Next();
      if tag == Some(TERMINATOR) { return IsAccepted(k); }
      if tag.None? { return IsRejected; }
      if tag.value != TIMESTAMP && tag.value != DATA { return IsAccepted(k); }
      if tag.value == TIMESTAMP {
        var v := input.Word(8);
        if v.Got? { k.timestamp := Some(v.value); } else { LoopTurn(k.View(), groups, input.view); }
      } else {
        if k.data.Some? { return IsRejected; }
        var ok := TakeData(k, input, groups);
        if !ok { return IsUnpredictable; }
      }
    }
    LoopTurn(k.View(), groups, input.view);
    verdict := IsAccepted(k);
  }

  // One turn of the loop, as the reading of values has it.
  lemma LoopTurn(k: Packet, groups: set<Id>, s: Stream)
    ensures s.eof ==> PacketLoop(k, groups, s) == Accepted(k, s)
    ensures var (tag, next) := Get(s); !s.eof ==>
      PacketLoop(k, groups, s) ==
        if tag.None? then Rejected
        else if tag.value == TERMINATOR then Accepted(k, next)
        else if tag.value == TIMESTAMP then
          var v := ReadWord(next, 8);
          if v.Got? then PacketLoop(k.(timestamp := Some(v.value)), groups, v.next) else Accepted(k, v.next)
        else if tag.value != DATA then Accepted(k, next)
        else if k.data.Some? then Rejected
        else
          var d := ParseData(k.command, groups, next);
          if d.Payload? then PacketLoop(k.(data := d.data), groups, d.stream) else Unpredictable
  {
    hide ParseData, ReadWord;
  }

  // Packet::parse
  method ParsePacketObject(input: InputStream, groups: set<Id>) returns (verdict: Verdict)
    modifies input
    ensures verdict.IsAccepted? ==>
             fresh(verdict.k) && ParsePacket(groups, old(input.view)) == Accepted(verdict.k.View(), input.view)
    ensures verdict.IsRejected? ==> ParsePacket(groups, old(input.view)).Rejected?
    ensures verdict.IsUnpredictable? ==> ParsePacket(groups, old(input.view)).Unpredictable?
  {
    hide PacketLoop, ParseUpdateValue;
    var command := input.Next();
    if command.None? || command.value == TERMINATOR || command.value >= COMMAND_MAX { return IsRejected; }
    var k := new PacketObject(command.value);
    if command.value == UPDATEVALUE {
      var answer := ParseValue(input);
      match answer
      case AnswerFound(p) =>
        k.data := Some(OfParameter(p));
        verdict := IsAccepted(k);
      case AnswerNobody => verdict := IsRejected;
      case AnswerUnknown => verdict := IsUnpredictable;
    } else {
      verdict := ReadOptions(k, input, groups);
    }
  }
}

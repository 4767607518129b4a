/** Userdata on the wire: the writer puts its octets behind the tag as they are, the reader takes
    the first four of what follows for a length.  src/rabbitControl/parameter_intern.h. */
module Userdata {
  import opened Bytes
  import opened Streams
  import opened Options
  import opened TypeDefinitions
  import opened TypeCodec
  import opened Forest
  import opened Parameters
  import opened ParameterCodec
  import opened Packets
  import FullDump

  // Userdata that is put on the wire.
  predicate SendsUserdata(p: Param, all: bool) { p.userdata != [] && (all || p.userdataChanged) }

  // What a reader of everything that was written has.
  function Carried(p: Param, all: bool, groups: set<Id>): (r: Param) {
    Proxy(p, all, groups).(userdata := if SendsUserdata(p, all) then p.userdata else [])
  }

  // ---------------------------------------------------------------- what an option costs to read

  // The octets of the late options, in the form that the reader wants.
  function Octets(p: Param): (r: nat) {
    (if p.userdata == [] then 0 else 5 + |p.userdata|) + (if p.userid.has then 2 + |p.userid.value| else 0)
    + if p.readonly.has then 2 else 0
  }

  lemma StringTakes(s: Stream)
    ensures var r := ReadString(s, TINY); r.Got? ==> |s.rest| >= |r.next.rest| + 1 + |r.value|
  {
  }

  lemma TurnTakes(p: Param, groups: set<Id>, tag: Byte, s: Stream)
    ensures var r := OptionTurn(p, groups, tag, s);
      && (!r.Undefined? && !r.stream.eof ==> |s.rest| + 1 + Octets(p) >= |r.stream.rest| + Octets(r.p))
      && (r.Stop? ==> Octets(r.p) == Octets(p))
  {
    hide LabelLoop, ReadString, ReadValue;
    StringTakes(s);
  }

  // A loop that does not run out of octets took as many as the options it found are long.
  lemma {:induction false} LoopTakes(p: Param, groups: set<Id>, s: Stream)
    ensures var r := OptionLoop(p, groups, s);
      r.Done? && !r.stream.eof ==> |s.rest| + Octets(p) >= |r.stream.rest| + Octets(r.value) + 1
    decreases |s.rest|
  {
    hide OptionTurn, Octets;
    if !s.eof && s.rest != [] && s.rest[0] != TERMINATOR {
      var turn := OptionTurn(p, groups, s.rest[0], Get(s).1);
      TurnTakes(p, groups, s.rest[0], Get(s).1);
      if turn.Again? { LoopTakes(turn.p, groups, turn.stream); }
    }
  }

  // ---------------------------------------------------------------- what the writer puts there

  // The octets from the userdata on.
  function LastBytes(p: Param, all: bool, t: Text): (r: Text) {
    [USERDATA] + p.userdata
    + (TextEmit(p.userid, all, USERID, TINY)
        + (Emit(p.readonly, all, READONLY, [Bool(p.readonly.value)], [0]) + ([TERMINATOR] + t)))
  }

  // They are four octets short of what a reader of all of it would take.
  lemma FourOctetsShort(p: Param, all: bool, groups: set<Id>, t: Text)
    requires SendsUserdata(p, all) && |p.userid.value| <= Readable(TINY)
    ensures Octets(Carried(p, all, groups)) + 1 + |t| == |LastBytes(p, all, t)| + 4
  {
    hide ReceivedType, ReceivedParent, ReceivedLabel, SentValue, BigEndian, InitialValue;
    SmallPowers();
    var sent := Sent(p.userid, all, []);
    if sent.Some? {
      assert |StringBytes(sent.value, TINY)| == 1 + |sent.value|;
      assert TextEmit(p.userid, all, USERID, TINY) == [USERID] + StringBytes(sent.value, TINY);
    }
  }

  // ---------------------------------------------------------------- what the reader makes of it

  lemma ReadUpToUserdata(p: Param, groups: set<Id>, all: bool, t: Text)
    requires Sendable(p.(userdata := [])) && SendsUserdata(p, all)
    ensures var b := EarlyProxy(p, all).(parent := ReceivedParent(p.parent, all, groups));
      && Octets(b) == 0
      && OptionLoop(FreshParam(p.id, ReceivedType(p.td, all)), groups, In(OptionBytes(p, all) + t))
         == OptionLoop(b, groups, In(LastBytes(p, all, t)))
  {
    hide OptionLoop, ValueEmit, LabelEmit, TextEmit, WordEmit, Emit, IdBytes, Received, ReceivedLabel, ReceivedType,
        InitialValue;
    var e, u := Emit(p.parent, all, PARENTID, IdBytes(p.parent.value), IdBytes(ROOT)), [USERDATA] + p.userdata;
    var x, y := TextEmit(p.userid, all, USERID, TINY), Emit(p.readonly, all, READONLY, [Bool(p.readonly.value)], [0]);
    assert UserdataEmit(p.userdata, p.userdataChanged, all) == u;
    assert EarlyOptionBytes(p.(userdata := []), all, LateOptionBytes(p, all)) == OptionBytes(p, all);
    EarlyOptionsRead(p.(userdata := []), groups, all, LateOptionBytes(p, all), t);
    ParentReads(EarlyProxy(p, all), groups, p.parent, all, LastBytes(p, all, t));
    assert LateOptionBytes(p, all) + t == e + LastBytes(p, all, t) by {
      Nested(e, u, x, y, [TERMINATOR], t);
    }
  }

  function Read(r: Parsed<Param>): (r': ParamRead) {
    match r
    case Failed => Unknown
    case Done(p, next) => Found(p, next)
  }

  lemma LongFormReads(p: Param, groups: set<Id>, all: bool, t: Text)
    requires Sendable(p.(userdata := [])) && !OnlyValueChanged(p)
    ensures ParseParam(groups, In(ParamBytes(p, all) + t)) ==
            Read(OptionLoop(FreshParam(p.id, ReceivedType(p.td, all)), groups, In(OptionBytes(p, all) + t)))
  {
    hide IdBytes, TypeBytes, OptionBytes, ParseParam, ParseType, OptionLoop, FreshType, ReceivedType, FreshParam, Fits,
         SendableLabel, OnlyValueChanged;
    var m, ty, o := Mandatory(p.td), TypeBytes(p.td, all), OptionBytes(p, all);
    assert ParamBytes(p, all) + t == IdBytes(p.id) + (m + (ty + (o + t))) by {
      assert ty + o + t == ty + (o + t);
      assert m + (ty + o) + t == m + (ty + o + t);
      assert IdBytes(p.id) + (m + (ty + o)) + t == IdBytes(p.id) + (m + (ty + o) + t);
    }
    HeadReads(p, groups, ty + (o + t));
    TypeReadsBack(p.td, all, o + t);
  }

  // Whoever reads userdata back has read at least four octets of what comes after the parameter.
  lemma UserdataTakesFourMore(p: Param, groups: set<Id>, all: bool, t: Text)
    requires Sendable(p.(userdata := [])) && !OnlyValueChanged(p) && SendsUserdata(p, all)
    ensures var r := ParseParam(groups, In(ParamBytes(p, all) + t));
      r.Found? && r.p == Carried(p, all, groups) && !r.stream.eof ==> |r.stream.rest| + 4 <= |t|
  {
    LongFormReads(p, groups, all, t);
    ReadUpToUserdata(p, groups, all, t);
    var b := EarlyProxy(p, all).(parent := ReceivedParent(p.parent, all, groups));
    LoopTakes(b, groups, In(LastBytes(p, all, t)));
    FourOctetsShort(p, all, groups, t);
    assert In(LastBytes(p, all, t)).rest == LastBytes(p, all, t);
  }

  // Userdata that is not sent changes nothing of what is written.
  lemma UnsentUserdata(p: Param, groups: set<Id>, all: bool)
    requires !SendsUserdata(p, all)
    ensures var p0 := p.(userdata := [], userdataChanged := p.userdataChanged && p.userdata == []);
      && ParamBytes(p, all) == ParamBytes(p0, all) && OnlyValueChanged(p) == OnlyValueChanged(p0)
      && Carried(p, all, groups) == Proxy(p0, all, groups)
  {
    hide ReceivedType, TypeBytes, IdBytes;
  }

  // For every sendable parameter in the long form: a reader has all that was written, up to its
  // own end, exactly when no userdata was written.
  lemma ParamReadsBackIff(p: Param, groups: set<Id>, all: bool, t: Text)
    requires Sendable(p.(userdata := [])) && !OnlyValueChanged(p)
    ensures ParseParam(groups, In(ParamBytes(p, all) + t)) == Found(Carried(p, all, groups), In(t)) <==>
             !SendsUserdata(p, all)
  {
    if SendsUserdata(p, all) {
      UserdataTakesFourMore(p, groups, all, t);
      hide *;
      assert !In(t).eof && In(t).rest == t;
    } else {
      var p0 := p.(userdata := [], userdataChanged := p.userdataChanged && p.userdata == []);
      UnsentUserdata(p, groups, all);
      assert Sendable(p0) by { hide SendableType, SendableLabel, Fits, Readable, Power256; }
      hide *;
      ParamReadsBack(p0, groups, all, t);
    }
  }

  // ---------------------------------------------------------------- in a packet

  function Bare(k: Packet): (r: Packet)
    ensures k.data.Some? && k.data.value.ParamPayload? ==>
              r.data == Some(ParamPayload(k.data.value.p.(userdata := []))) && r.command == k.command
  {
    if k.data.Some? && k.data.value.ParamPayload? then k.(data := Some(ParamPayload(k.data.value.p.(userdata := []))))
        else k
  }

  // An update that puts userdata on the wire.
  predicate BringsUserdata(k: Packet, all: bool) {
    k.command == UPDATE && k.data.Some? && k.data.value.ParamPayload? && SendsUserdata(k.data.value.p, all)
  }

  function CarriedPacket(k: Packet, all: bool, groups: set<Id>): (r: Packet) {
    if k.command == UPDATE && k.data.Some? && k.data.value.ParamPayload? then
      k.(data := Some(ParamPayload(Carried(k.data.value.p, all, groups))))
    else HeardPacket(k, all, groups)
  }

  // After the parameter was read, the loop gives back no octet.
  lemma PacketLoopTakes(k: Packet, groups: set<Id>, payload: Text, z: Text)
    requires k.command == UPDATE && k.data.None? && !ParseParam(groups, In(payload + z)).Nobody?
    ensures var r := PacketLoop(k, groups, In([DATA] + payload + z)); var q := ParseParam(groups, In(payload + z));
      r.Accepted? && !r.stream.eof ==>
        q.Found? && !q.stream.eof && r.packet.data == Some(ParamPayload(q.p)) && |r.stream.rest| <= |q.stream.rest|
  {
    hide ParseParam;
    assert ([DATA] + payload + z)[1..] == payload + z;
    var q := ParseParam(groups, In(payload + z));
    if q.Found? { FullDump.DataStays(k.(data := Some(ParamPayload(q.p))), groups, q.stream); }
  }

  lemma PacketWithUserdataIsLost(k: Packet, groups: set<Id>, all: bool, t: Text)
    requires SendablePacket(Bare(k)) && BringsUserdata(k, all)
    ensures ParsePacket(groups, In(PacketBytes(k, all) + t)) != Accepted(CarriedPacket(k, all, groups), In(t))
  {
    hide TimestampBytes, ParamBytes;
    hide ParsePacket, PacketLoop, TimestampBytes, ParamBytes, ParseParam, Carried, OptionLoop;
    var p := k.data.value.p;
    var z := [TERMINATOR] + t;
    var k1 := Packet(UPDATE, k.timestamp, None);
    var payload := ParamBytes(p, all);
    assert Sendable(p.(userdata := [])) && !OnlyValueChanged(p)
        && (k.timestamp.Some? ==> k.timestamp.value < Power256(8));
    LongFormReads(p, groups, all, z);
    UserdataTakesFourMore(p, groups, all, z);
    PacketLoopTakes(k1, groups, payload, z);
    assert PacketBytes(k, all) + t == [UPDATE] + (TimestampBytes(k.timestamp) + ([DATA] + payload + z)) by {
      Assembled(TimestampBytes(k.timestamp), [DATA] + payload, t);
    }
    CommandReads(UPDATE, groups, TimestampBytes(k.timestamp) + ([DATA] + payload + z));
    TimestampReads(Packet(UPDATE, None, None), groups, k.timestamp, [DATA] + payload + z);
  }

  lemma Assembled(a: Text, d: Text, t: Text)
    ensures [UPDATE] + (a + (d + [TERMINATOR])) + t == [UPDATE] + (a + (d + ([TERMINATOR] + t)))
  {
    assert a + (d + [TERMINATOR]) + t == a + (d + [TERMINATOR] + t);
    assert d + [TERMINATOR] + t == d + ([TERMINATOR] + t);
  }

  // Every packet of the engine, userdata or not: it is parsed back, up to exactly its own end, if
  // and only if it is no update with userdata.
  lemma PacketReadsBackIff(k: Packet, groups: set<Id>, all: bool, t: Text)
    requires SendablePacket(Bare(k))
    ensures ParsePacket(groups, In(PacketBytes(k, all) + t)) == Accepted(CarriedPacket(k, all, groups), In(t))
       <==> !BringsUserdata(k, all)
  {
    hide *;
    if BringsUserdata(k, all) {
      PacketWithUserdataIsLost(k, groups, all, t);
    } else {
      var k0 := Lowered(k);
      SamePacket(k, groups, all);
      PacketReadsBack(k0, groups, all, t);
    }
  }

  // Without userdata, and without its flag where that made no difference.
  function Lowered(k: Packet): (r: Packet) {
    if k.data.Some? && k.data.value.ParamPayload? then
      var p := k.data.value.p;
      k.(data := Some(ParamPayload(p.(userdata := [], userdataChanged := p.userdataChanged && p.userdata == []))))
    else k
  }

  lemma SamePacket(k: Packet, groups: set<Id>, all: bool)
    requires SendablePacket(Bare(k)) && !BringsUserdata(k, all)
    ensures SendablePacket(Lowered(k)) && PacketBytes(Lowered(k), all) == PacketBytes(k, all)
    ensures HeardPacket(Lowered(k), all, groups) == CarriedPacket(k, all, groups)
  {
    hide Proxy, SendableType, SendableLabel, Fits, Readable, Power256, TimestampBytes;
    if k.data.Some? && k.data.value.ParamPayload? && k.command == UPDATE {
      UnsentUserdata(k.data.value.p, groups, all);
    }
  }
}

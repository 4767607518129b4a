/** The packet of a full dump, ParameterServer::_sendParameterFull, for a parameter whose value is
    its only pending change: the short form goes out where the reader expects the long one. */
module FullDump {
  import opened Bytes
  import opened Streams
  import opened TypeDefinitions
  import opened TypeCodec
  import opened Forest
  import opened Parameters
  import opened ParameterCodec
  import opened ParameterDelta
  import opened Packets

  function UpdateOf(p: Param): (r: Packet) { Packet(UPDATE, None, Some(ParamPayload(p))) }

  // A value takes its octets from the stream.
  lemma ValueTakesItsOctets(td: TypeDef, s: Stream)
    requires ReadValue(td, s).Got?
    ensures |s.rest| >= |ValueBytes(td, ReadValue(td, s).value)|
  {
    hide BigEndian, FromBigEndian;
  }

  lemma TurnTakesTheValue(p: Param, groups: set<Id>, tag: Byte, s: Stream)
    ensures var r := OptionTurn(p, groups, tag, s);
      !r.Undefined? ==> r.p.td == p.td && (r.p.value == p.value || |s.rest| >= |ValueBytes(p.td, r.p.value.value)|)
  {
    hide ReadValue, ValueBytes, LabelLoop, ReadWord, ReadString;
    if tag == VALUE && ReadValue(p.td, s).Got? { ValueTakesItsOctets(p.td, s); }
  }

  // A value that the options gave took its tag and its octets.
  lemma {:induction false} OptionsTakeTheValue(p: Param, groups: set<Id>, s: Stream)
    ensures var r := OptionLoop(p, groups, s);
      r.Done? ==> r.value.td == p.td && (r.value.value == p.value || |s.rest| > |ValueBytes(p.td, r.value.value.value)|)
    decreases |s.rest|
  {
    hide OptionTurn, ValueBytes;
    if !s.eof && s.rest != [] && s.rest[0] != TERMINATOR {
      var turn := OptionTurn(p, groups, s.rest[0], Get(s).1);
      TurnTakesTheValue(p, groups, s.rest[0], Get(s).1);
      if turn.Again? { OptionsTakeTheValue(turn.p, groups, turn.stream); }
    }
  }

  // The options of a type definition take at least their terminator.
  lemma {:induction false} TypeTakesAnOctet(td: TypeDef, s: Stream)
    requires ValidType(td) && s.rest != [] && !s.eof
    ensures var r := ParseType(td, s);
      r.Done? ==> |r.stream.rest| < |s.rest| && forall v :: |ValueBytes(r.value, v)| == |ValueBytes(td, v)|
  {
    match td
    case Range(e, n, d) =>
      LoopKeepsKind(Number(e, n), s);
      var r := TypeLoop(Number(e, n), s);
      if r.Done? && r.value.Number? { LoopKeepsKind(Range(e, r.value.num, d), r.stream); }
    case NoOptions(_) =>
    case _ => LoopKeepsKind(td, s);
  }

  lemma {:induction false} LoopKeepsKind(td: TypeDef, s: Stream)
    ensures var r := TypeLoop(td, s);
      r.Done? ==>
        && (s.rest != [] && !s.eof ==> |r.stream.rest| < |s.rest|)
        && forall v :: |ValueBytes(r.value, v)| == |ValueBytes(td, v)|
    decreases |s.rest|
  {
    hide TypeOption, BigEndian, StringBytes, PrefixedBytes;
    if !s.eof && s.rest != [] && s.rest[0] != TERMINATOR {
      var step := TypeOption(td, s.rest[0], Get(s).1);
      TurnKeepsKind(td, s.rest[0], Get(s).1);
      if step.Next? { LoopKeepsKind(step.value, step.stream); }
    }
  }

  lemma TurnKeepsKind(td: TypeDef, tag: Byte, s: Stream)
    ensures var r := TypeOption(td, tag, s); r.Next? ==> forall v :: ValueBytes(r.value, v) == ValueBytes(td, v)
  {
    hide NumberOption, ReadWord, ReadString, Split, BigEndian, PrefixedBytes;
  }

  // Once a packet has its data, the data stays.
  lemma {:induction false} DataStays(k: Packet, groups: set<Id>, s: Stream)
    requires k.data.Some?
    ensures var r := PacketLoop(k, groups, s); r.Accepted? ==> r.packet.data == k.data
    decreases |s.rest|
  {
    hide ReadWord;
    if !s.eof && s.rest != [] && s.rest[0] == TIMESTAMP {
      var r := ReadWord(Get(s).1, 8);
      if r.Got? { DataStays(k.(timestamp := Some(r.value)), groups, r.next); }
    }
  }

  // The body of a short form, read as a long one, does not contain the value.
  lemma ShortBodyLosesTheValue(p: Param, groups: set<Id>)
    requires Sendable(p) && SetterOnlyFields(p) && IsValueType(p.td)
    ensures var r := ParseBody(p.id, FreshType(p.td), groups, In(ValueBytes(p.td, p.value.value) + [TERMINATOR]));
      !r.Nobody? && (r.Found? ==> !(r.p.value.has && r.p.value.value == p.value.value))
  {
    hide ParseType, OptionLoop, ValueBytes, FreshType, InitialValue, SetterOnlyFields, ValidType;
    var td := FreshType(p.td);
    var s := In(ValueBytes(p.td, p.value.value) + [TERMINATOR]);
    FreshIsValid(p.td);
    SameValueForm(p.td, p.value.value);
    TypeTakesAnOctet(td, s);
    var r := ParseType(td, s);
    if r.Done? {
      OptionsTakeTheValue(FreshParam(p.id, r.value), groups, r.stream);
      assert |s.rest| == |ValueBytes(p.td, p.value.value)| + 1;
      assert |ValueBytes(r.value, p.value.value)| == |ValueBytes(p.td, p.value.value)|;
    }
  }

  lemma FreshIsValid(td: TypeDef)
    requires ValidType(td)
    ensures ValidType(FreshType(td))
  {
  }

  lemma ShortFormIsNotADump(p: Param, groups: set<Id>)
    requires Sendable(p) && SetterOnlyFields(p) && OnlyValueChanged(p)
    ensures var r := ParsePacket(groups, In(PacketBytes(UpdateOf(p), true)));
      r.Accepted? ==>
        && r.packet.data.Some? && r.packet.data.value.ParamPayload?
        && !(r.packet.data.value.p.value.has && r.packet.data.value.p.value.value == p.value.value)
  {
    assert IsValueType(p.td) && ParamBytes(p, true) == ShortBytes(p);
    var v := ValueBytes(p.td, p.value.value) + [TERMINATOR];
    var body := IdBytes(p.id) + (Mandatory(p.td) + v);
    assert PacketBytes(UpdateOf(p), true) == [UPDATE] + ([DATA] + body) by {
      ShortAndEnd(IdBytes(p.id), Mandatory(p.td), ValueBytes(p.td, p.value.value));
    }
    CommandReads(UPDATE, groups, [DATA] + body);
    HeadReads(p, groups, v);
    ShortBodyLosesTheValue(p, groups);
    DataIsTheParameter(groups, body);
  }

  lemma ShortAndEnd(i: Text, m: Text, v: Text)
    ensures [UPDATE] + ([] + (([DATA] + (i + (m + v))) + [TERMINATOR]))
             == [UPDATE] + ([DATA] + (i + (m + (v + [TERMINATOR]))))
  {
    assert i + (m + v) + [TERMINATOR] == i + (m + (v + [TERMINATOR]));
  }

  lemma DataIsTheParameter(groups: set<Id>, body: Text)
    ensures var r := PacketLoop(Packet(UPDATE, None, None), groups, In([DATA] + body));
      var q := ParseParam(groups, In(body));
      && (q.Unknown? ==> r.Unpredictable?)
      && (q.Found? && r.Accepted? ==> r.packet.data == Some(ParamPayload(q.p)))
  {
    hide ParseParam;
    assert ([DATA] + body)[1..] == body;
    var q := ParseParam(groups, In(body));
    if q.Found? { DataStays(Packet(UPDATE, None, Some(ParamPayload(q.p))), groups, q.stream); }
  }

  // A full dump of one parameter arrives exactly when its value is not its only pending change.
  lemma DumpArrivesIff(p: Param, groups: set<Id>)
    requires Sendable(p) && SetterOnlyFields(p)
    ensures ParsePacket(groups, In(PacketBytes(UpdateOf(p), true)))
             == Accepted(UpdateOf(Proxy(p, true, groups)), In([]))
       <==> !OnlyValueChanged(p)
  {
    if OnlyValueChanged(p) {
      assert p.value.has && IsValueType(p.td);
      ShortFormIsNotADump(p, groups);
      ProxyHasTheValue(p, groups);
    } else {
      var b := PacketBytes(UpdateOf(p), true);
      assert SendablePacket(UpdateOf(p));
      PacketReadsBack(UpdateOf(p), groups, true, []);
      assert b + [] == b;
    }
    hide *;
  }

  lemma ProxyHasTheValue(p: Param, groups: set<Id>)
    requires p.value.has && IsValueType(p.td)
    ensures Proxy(p, true, groups).value.has && Proxy(p, true, groups).value.value == p.value.value
  {
  }
}

/** The protocol of Convergence on the real thing: replicas of one parameter on the server and its
    clients, packets as octets on the channels, each flushed by write(all=false), parsed by
    Packet::parse and applied by update().  src/rabbitControl/parameterserver.cpp and
    parameterclient.cpp. */
module Synchronisation {
  import opened Bytes
  import opened Streams
  import opened Options
  import opened TypeDefinitions
  import opened TypeCodec
  import opened Forest
  import opened Parameters
  import opened ParameterCodec
  import opened ParameterDelta
  import opened Packets
  import Convergence

  // A parameter in a cache, whether the dirty map holds it, and the groups the manager knows.
  datatype Replica = Replica(p: Param, dirty: bool, groups: set<Id>)

  // ---------------------------------------------------------------- one replica

  // The packet of one flush; the command is chosen as the server and the client choose it.
  function PacketOf(p: Param): (r: Packet) {
    Packet(if OnlyValueChanged(p) then UPDATEVALUE else UPDATE, None, Some(ParamPayload(p)))
  }

  function Message(p: Param): (r: Text) { PacketBytes(PacketOf(p), false) }

  function Emptied(r: Replica): (r': Replica) { r.(p := FlushedParam(r.p, false), dirty := false) }

  // update() raises flags, and enters the dirty map, where a value or the parent differs.
  function Learnt(r: Replica, other: Param): (r': Replica) {
    r.(p := Applied(r.p, other), dirty := r.dirty || Touches(r.p, other))
  }

  // The parameter that a packet brings to received().
  function Brings(groups: set<Id>, bytes: Text): (r: Option<Param>) {
    match ParsePacket(groups, In(bytes))
    case Accepted(k, _) =>
      if (k.command == UPDATE || k.command == UPDATEVALUE) && k.data.Some? && k.data.value.ParamPayload? then
        Some(k.data.value.p)
      else None
    case _ => None
  }

  function Hear(r: Replica, bytes: Text): (r': Replica) {
    var p := Brings(r.groups, bytes);
    if p.Some? then Learnt(r, p.value) else r
  }

  // The argument's type, and the bounds within which it can be sent.
  predicate Kinded(td: TypeDef, f: Field, d: Datum) {
    match f
    case ValueField => IsValueType(td) && d.ValueDatum? && Fits(td, d.value)
    case OrderField => d.NumberDatum? && d.number < Power256(4)
    case ReadonlyField => d.BoolDatum?
    case DescriptionField => d.TextDatum? && |d.text| <= Readable(SHORT)
    case _ => d.TextDatum? && |d.text| <= Readable(TINY)
  }

  // setValue, setLabel, ...
  function Set(r: Replica, f: Field, d: Datum): (r': Replica)
    requires Kinded(r.p.td, f, d)
  {
    var q := WithField(r.p, f, d);
    r.(p := q, dirty := r.dirty || Differs(q, r.p))
  }

  // ---------------------------------------------------------------- the invariant of a replica

  ghost predicate Proper(p: Param, id: Id, td: TypeDef) {
    Sendable(p) && SetterOnlyFields(p) && p.id == id && SameKind(p.td, td) && !p.td.Range?
  }

  ghost predicate Good(r: Replica, id: Id, td: TypeDef) {
    Proper(r.p, id, td) && (r.dirty || forall f :: !Of(r.p, f).changed)
  }

  ghost predicate WellSent(bytes: Text, id: Id, td: TypeDef) { exists p :: Proper(p, id, td) && bytes == Message(p) }

  ghost function View(p: Param): (r: Convergence.Site<Field, Datum>) {
    Convergence.Site(map f: Field | true :: Effective(p, f), set f: Field | Of(p, f).changed)
  }

  // What a packet says, whoever reads it.
  ghost function Meaning(bytes: Text): (r: map<Field, Datum>) {
    var p := Brings({}, bytes);
    if p.Some? then map f: Field | Of(p.value, f).has :: Of(p.value, f).value else map[]
  }

  lemma MessageArrives(p: Param, id: Id, td: TypeDef, groups: set<Id>)
    requires Proper(p, id, td)
    ensures Brings(groups, Message(p)) == Some(Heard(p, groups))
  {
    hide PacketBytes, ParsePacket, OnlyValueChanged;
    var k := PacketOf(p);
    assert SendablePacket(k) by { SmallPowers(); }
    PacketReadsBack(k, groups, false, []);
    assert PacketBytes(k, false) + [] == PacketBytes(k, false);
    assert HeardPacket(k, false, groups) == k.(data := Some(ParamPayload(Heard(p, groups))));
  }

  lemma MessageMeans(p: Param, id: Id, td: TypeDef)
    requires Proper(p, id, td)
    ensures Meaning(Message(p)) == Convergence.Delta(View(p))
  {
    hide Heard, Message, Brings, Of, Effective;
    MessageArrives(p, id, td, {});
    forall f
      ensures Of(Heard(p, {}), f).has <==> Of(p, f).changed
      ensures Of(p, f).changed ==> Of(Heard(p, {}), f).value == Effective(p, f)
    {
      HeardField(p, {}, f);
      SetterOnlyMeans(p, f);
    }
  }

  lemma HeardIsProper(p: Param, id: Id, td: TypeDef, groups: set<Id>)
    requires Proper(p, id, td)
    ensures var h := Heard(p, groups);
      && h.id == id && SameKind(h.td, td) && h.userdata == []
      && forall f :: Of(h, f).has ==> Kinded(td, f, Of(h, f).value)
  {
    hide FreshType, Kinded, ReceivedType, ReceivedParent, Of;
    SmallPowers();
    HeardKind(p, groups);
    forall f | Of(Heard(p, groups), f).has
      ensures Kinded(td, f, Of(Heard(p, groups), f).value)
    {
      HeardField(p, groups, f);
      FieldIsKinded(p, id, td, f);
    }
  }

  lemma FieldIsKinded(p: Param, id: Id, td: TypeDef, f: Field)
    requires Proper(p, id, td) && Of(p, f).changed
    ensures Kinded(td, f, Of(p, f).value)
  {
    hide Power256;
    SameFits(p.td, td, p.value.value);
  }

  lemma SameFits(a: TypeDef, b: TypeDef, v: Value)
    requires SameKind(a, b)
    ensures Fits(a, v) == Fits(b, v) && IsValueType(a) == IsValueType(b) && InitialValue(a) == InitialValue(b)
  {
    hide Power256;
  }

  lemma UpdatedIsSendable(p: Param, h: Param)
    requires Sendable(p) && h.userdata == []
    requires IsValueType(p.td) && h.value.has ==> Fits(p.td, h.value.value)
    requires h.title.main.has ==> |h.title.main.value| <= Readable(TINY)
    requires h.description.main.has ==> |h.description.main.value| <= Readable(SHORT)
    requires h.tags.has ==> |h.tags.value| <= Readable(TINY)
    requires h.order.has ==> h.order.value < Power256(4)
    requires h.userid.has ==> |h.userid.value| <= Readable(TINY)
    ensures Sendable(Updated(p, h))
  {
    hide SendableType, Fits, Power256, Readable, SameKind, LanguageCode;
  }

  // Hearing values of the right kind keeps a parameter sendable.
  lemma FieldsStaySendable(p: Param, h: Param, id: Id, td: TypeDef)
    requires Proper(p, id, td) && h.id == id && SameKind(h.td, td) && h.userdata == []
    requires forall f :: Of(h, f).has ==> Kinded(td, f, Of(h, f).value)
    ensures Proper(Updated(p, h), id, td)
  {
    hide Sendable, SetterOnlyFields, Fits, InitialValue, FreshType, Readable;
    SameFits(p.td, td, h.value.value);
    assert h.value.has ==> Kinded(td, ValueField, Of(h, ValueField).value);
    assert h.title.main.has ==> Kinded(td, LabelField, Of(h, LabelField).value);
    assert h.description.main.has ==> Kinded(td, DescriptionField, Of(h, DescriptionField).value);
    assert h.tags.has ==> Kinded(td, TagsField, Of(h, TagsField).value);
    assert h.order.has ==> Kinded(td, OrderField, Of(h, OrderField).value);
    assert h.userid.has ==> Kinded(td, UseridField, Of(h, UseridField).value);
    UpdatedKeepsSetterOnly(p, h);
    UpdatedIsSendable(p, h);
  }

  lemma ViewAt(p: Param, f: Field)
    ensures f in View(p).values && View(p).values[f] == Effective(p, f) && (f in View(p).pending <==> Of(p, f).changed)
  {
    hide Of, Effective;
  }

  lemma HeardFieldOf(r: Replica, p: Param, id: Id, td: TypeDef, f: Field)
    requires Good(r, id, td) && Proper(p, id, td)
    ensures var q := Updated(r.p, Heard(p, r.groups));
      && Effective(q, f) == (if Of(p, f).changed then Effective(p, f) else Effective(r.p, f))
      && (Of(q, f).changed <==> Of(r.p, f).changed || (Of(p, f).changed && Effective(p, f) != Effective(r.p, f)))
      && (Effective(q, f) != Effective(r.p, f) ==> Differs(q, r.p))
  {
    hide Heard, Updated, Of, Effective, SetterOnlyFields, Sendable;
    assert SameKind(r.p.td, p.td);
    var q := Updated(r.p, Heard(p, r.groups));
    DeltaField(p, r.p, r.groups, f);
    SetterOnlyMeans(q, f);
    SetterOnlyMeans(r.p, f);
  }

  // A move changes nothing but the parent.
  lemma MoveIsUnseen(p: Param, parent: Opt<Id>, id: Id, td: TypeDef)
    ensures View(Moved(p, parent)) == View(p) && (Proper(p, id, td) ==> Proper(Moved(p, parent), id, td))
    ensures forall f :: Of(Moved(p, parent), f) == Of(p, f)
  {
    hide SendableType, SendableLabel, Fits, Readable, Power256, FreshType, InitialValue;
    forall f
      ensures Of(Moved(p, parent), f) == Of(p, f) && Effective(Moved(p, parent), f) == Effective(p, f)
    {
    }
  }

  lemma HearingKeepsGood(r: Replica, p: Param, id: Id, td: TypeDef)
    requires Good(r, id, td) && Proper(p, id, td)
    ensures Hear(r, Message(p)) == Learnt(r, Heard(p, r.groups)) && Good(Hear(r, Message(p)), id, td)
    ensures View(Hear(r, Message(p)).p) == View(Updated(r.p, Heard(p, r.groups)))
  {
    hide Updated, Heard, Of, Message, Brings, Differs, Moved;
    var h := Heard(p, r.groups);
    MessageArrives(p, id, td, r.groups);
    HeardIsProper(p, id, td, r.groups);
    FieldsStaySendable(r.p, h, id, td);
    forall f
      ensures Of(Updated(r.p, h), f).changed ==> Of(r.p, f).changed || Differs(Updated(r.p, h), r.p)
    {
      HeardFieldOf(r, p, id, td, f);
    }
    MoveIsUnseen(Updated(r.p, h), h.parent, id, td);
    assert Applied(r.p, h) == Moved(Updated(r.p, h), h.parent);
  }

  // Hearing a flush is learning what it says.
  lemma HearingIsLearning(r: Replica, p: Param, id: Id, td: TypeDef)
    requires Good(r, id, td) && Proper(p, id, td)
    ensures Good(Hear(r, Message(p)), id, td)
    ensures Meaning(Message(p)).Keys <= View(r.p).values.Keys
    ensures View(Hear(r, Message(p)).p) == Convergence.Learn(View(r.p), Meaning(Message(p)))
  {
    hide Updated, Heard, Of, Effective, Meaning, Message, Hear, Good, Proper, Differs, View;
    MessageMeans(p, id, td);
    HearingKeepsGood(r, p, id, td);
    var q := Updated(r.p, Heard(p, r.groups));
    forall f
      ensures f in View(p).values && f in View(r.p).values && f in View(q).values
      ensures View(q).values[f] == if f in View(p).pending then View(p).values[f] else View(r.p).values[f]
      ensures f in View(q).pending <==>
               f in View(r.p).pending || (f in View(p).pending && View(p).values[f] != View(r.p).values[f])
    {
      ViewAt(p, f);
      ViewAt(r.p, f);
      ViewAt(q, f);
      HeardFieldOf(r, p, id, td, f);
    }
    Convergence.LearnPointwise(View(r.p), Meaning(Message(p)), View(q));
  }

  lemma FieldIsSet(p: Param, f: Field, d: Datum, g: Field)
    requires Typed(p.td, f, d)
    ensures Of(WithField(p, f, d), g) == if g == f then Assign(Of(p, f), d) else Of(p, g)
  {
  }

  lemma SetStaysProper(p: Param, f: Field, d: Datum, id: Id, td: TypeDef)
    requires Proper(p, id, td) && Kinded(p.td, f, d)
    ensures Proper(WithField(p, f, d), id, td)
  {
    hide SendableType, Fits, Power256, Readable, FreshType, InitialValue, LanguageCode;
  }

  lemma SetFieldOf(r: Replica, f: Field, d: Datum, id: Id, td: TypeDef, g: Field)
    requires Good(r, id, td) && Kinded(r.p.td, f, d)
    ensures var q := Set(r, f, d).p;
      && Effective(q, g) == (if g == f then d else Effective(r.p, g))
      && (Of(q, g).changed <==> Of(r.p, g).changed || (g == f && d != Effective(r.p, g)))
      && (Effective(q, g) != Effective(r.p, g) ==> Differs(q, r.p))
  {
    hide WithField, Of, Sendable, SameKind;
    SetStaysProper(r.p, f, d, id, td);
    FieldIsSet(r.p, f, d, g);
    SetterOnlyMeans(WithField(r.p, f, d), g);
    SetterOnlyMeans(r.p, g);
  }

  lemma SettingIsLearning(r: Replica, f: Field, d: Datum, id: Id, td: TypeDef)
    requires Good(r, id, td) && Kinded(r.p.td, f, d)
    ensures Good(Set(r, f, d), id, td)
    ensures f in View(r.p).values && View(Set(r, f, d).p) == Convergence.Learn(View(r.p), map[f := d])
  {
    hide Kinded, WithField, Of, Effective, Proper, Differs, View;
    SetStaysProper(r.p, f, d, id, td);
    var q := Set(r, f, d).p;
    forall g
      ensures g in View(r.p).values && g in View(q).values
      ensures View(q).values[g] == if g == f then d else View(r.p).values[g]
      ensures g in View(q).pending <==> g in View(r.p).pending || (g == f && d != View(r.p).values[g])
      ensures Of(q, g).changed ==> Of(r.p, g).changed || Differs(q, r.p)
    {
      ViewAt(r.p, g);
      ViewAt(q, g);
      SetFieldOf(r, f, d, id, td, g);
    }
    Convergence.LearnPointwise(View(r.p), map[f := d], View(q));
  }

  lemma FlushStaysSendable(p: Param)
    requires Sendable(p)
    ensures Sendable(FlushedParam(p, false)) && SameKind(FlushedParam(p, false).td, p.td)
             && (p.td.Range? <==> FlushedParam(p, false).td.Range?)
  {
    hide Power256, Readable, LanguageCode, Width, Join, Token;
  }

  lemma EmptyingIsCalm(r: Replica, id: Id, td: TypeDef)
    requires Good(r, id, td)
    ensures Good(Emptied(r), id, td)
    ensures View(Emptied(r).p) == Convergence.Calm(View(r.p))
  {
    hide Of, Effective, Sendable, SetterOnlyFields;
    FlushStaysSendable(r.p);
    FlushedKeepsInitial(r.p);
    forall f
      ensures Effective(FlushedParam(r.p, false), f) == Effective(r.p, f) && !Of(FlushedParam(r.p, false), f).changed
    {
      AfterFlush(r.p, f);
    }
    assert FlushedParam(r.p, false).id == r.p.id;
  }
}

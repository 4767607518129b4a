/** What one flush of a parameter does to a replica of it: Parameter::update and
    ValueParameter::update of src/rabbitControl/parameter_intern.h after a parse. */
module ParameterDelta {
  import opened Bytes
  import opened Streams
  import opened Options
  import opened TypeDefinitions
  import opened TypeCodec
  import opened Forest
  import opened Parameters
  import opened ParameterCodec

  // ---------------------------------------------------------------- update

  // RangeParameter<T>, ValueParameter<T, TD, type_id>: the C++ type of the parameter
  predicate SameKind(a: TypeDef, b: TypeDef) { FreshType(a) == FreshType(b) }

  function SetFrom<T(==)>(o: Opt<T>, other: Opt<T>): (r: Opt<T>) { if other.has then Assign(o, other.value) else o }

  // update(other) but for the parent
  function Updated(q: Param, other: Param): (r: Param) {
    if other.id != q.id then q
    else
      q.(value := if IsValueType(q.td) && SameKind(q.td, other.td) then SetFrom(q.value, other.value) else q.value,
         title := q.title.(main := SetFrom(q.title.main, other.title.main)),
         description := q.description.(main := SetFrom(q.description.main, other.description.main)),
         tags := SetFrom(q.tags, other.tags), order := SetFrom(q.order, other.order),
         userdata := if other.userdata != [] then other.userdata else q.userdata,
         userdataChanged := q.userdataChanged || other.userdata != [],
         userid := SetFrom(q.userid, other.userid), readonly := SetFrom(q.readonly, other.readonly))
  }

  // setParent: another group is stored and flagged.
  predicate Moves(p: Param, parent: Opt<Id>) { parent.has && !(p.parent.has && p.parent.value == parent.value) }

  function Moved(p: Param, parent: Opt<Id>): (r: Param) {
    if Moves(p, parent) then p.(parent := Opt(true, parent.value, true)) else p
  }

  // update(other)
  function Applied(q: Param, other: Param): (r: Param) {
    if other.id != q.id then q else Moved(Updated(q, other), other.parent)
  }

  // Whether update(other) calls setDirty().
  predicate Touches(q: Param, other: Param) {
    other.id == q.id && (Differs(Updated(q, other), q) || other.userdata != [] || Moves(q, other.parent))
  }

  // ---------------------------------------------------------------- the fields an update carries

  datatype Field = ValueField | LabelField | DescriptionField | TagsField | OrderField | UseridField | ReadonlyField

  datatype Datum = ValueDatum(value: Value) | TextDatum(text: Text) | NumberDatum(number: nat) | BoolDatum(truth: bool)

  function As<T, D>(o: Opt<T>, datum: D): (r: Opt<D>) { Opt(o.has, datum, o.changed) }

  function Of(p: Param, f: Field): (r: Opt<Datum>) {
    match f
    case ValueField => As(p.value, ValueDatum(p.value.value))
    case LabelField => As(p.title.main, TextDatum(p.title.main.value))
    case DescriptionField => As(p.description.main, TextDatum(p.description.main.value))
    case TagsField => As(p.tags, TextDatum(p.tags.value))
    case OrderField => As(p.order, NumberDatum(p.order.value))
    case UseridField => As(p.userid, TextDatum(p.userid.value))
    case ReadonlyField => As(p.readonly, BoolDatum(p.readonly.value))
  }

  predicate Differs(p: Param, q: Param) { exists f: Field :: Of(p, f).value != Of(q, f).value }

  lemma DiffersInAField(p: Param, q: Param)
    ensures Differs(p, q) <==>
      || p.value.value != q.value.value || p.title.main.value != q.title.main.value
      || p.description.main.value != q.description.main.value || p.tags.value != q.tags.value
      || p.order.value != q.order.value || p.userid.value != q.userid.value || p.readonly.value != q.readonly.value
  {
    assert Of(p, ValueField).value != Of(q, ValueField).value || p.value.value == q.value.value;
    assert Of(p, LabelField).value != Of(q, LabelField).value || p.title.main.value == q.title.main.value;
    assert Of(p, DescriptionField).value != Of(q, DescriptionField).value
        || p.description.main.value == q.description.main.value;
    assert Of(p, TagsField).value != Of(q, TagsField).value || p.tags.value == q.tags.value;
    assert Of(p, OrderField).value != Of(q, OrderField).value || p.order.value == q.order.value;
    assert Of(p, UseridField).value != Of(q, UseridField).value || p.userid.value == q.userid.value;
    assert Of(p, ReadonlyField).value != Of(q, ReadonlyField).value || p.readonly.value == q.readonly.value;
  }

  // The value a reader of the field sees: the default while it is not set.
  function Effective(p: Param, f: Field): (r: Datum) {
    if Of(p, f).has then Of(p, f).value else Of(FreshParam(p.id, p.td), f).value
  }

  predicate SetterOnlyNumber(id: Byte, n: NumberOptions) {
    && SetterOnly(n.dflt, 0) && SetterOnly(n.minimum, LeastWord(id)) && SetterOnly(n.maximum, GreatestWord(id))
    && SetterOnly(n.multipleof, 0) && SetterOnly(n.scale, 0) && SetterOnly(n.unit, [])
  }

  predicate SetterOnlyType(td: TypeDef) {
    match td
    case Number(id, n) => SetterOnlyNumber(id, n)
    case Range(e, n, d) => SetterOnlyNumber(e, n) && SetterOnly(d, (0, 0))
    case Simple(_, d) => SetterOnly(d, 0)
    case Str(d, regex) => SetterOnly(d, []) && SetterOnly(regex, [])
    case UriType(d, f, _, _) => SetterOnly(d, []) && SetterOnly(f, [])
    case NoOptions(_) => true
  }

  // No field was ever cleared.
  predicate SetterOnlyFields(p: Param) {
    && SetterOnly(p.value, InitialValue(p.td)) && (!IsValueType(p.td) ==> !p.value.has)
    && SetterOnly(p.title.main, []) && SetterOnly(p.description.main, [])
    && SetterOnly(p.tags, []) && SetterOnly(p.order, 0) && SetterOnly(p.userid, []) && SetterOnly(p.readonly, false)
  }

  lemma SetterOnlyMeans(p: Param, f: Field)
    requires SetterOnlyFields(p)
    ensures Of(p, f).value == Effective(p, f) && (Of(p, f).changed ==> Of(p, f).has)
  {
  }

  lemma UpdatedField(q: Param, other: Param, f: Field)
    requires q.id == other.id && SameKind(q.td, other.td) && (!IsValueType(q.td) ==> !other.value.has)
    ensures Of(Updated(q, other), f) == SetFrom(Of(q, f), Of(other, f))
  {
  }

  lemma UpdatedKeepsSetterOnly(q: Param, other: Param)
    requires SetterOnlyFields(q) && (!IsValueType(q.td) ==> !other.value.has)
    ensures SetterOnlyFields(Updated(q, other))
  {
  }

  // ---------------------------------------------------------------- full writes

  function Lower<T>(o: Opt<T>): (r: Opt<T>) { o.(changed := false) }

  function LowerNumber(n: NumberOptions): (r: NumberOptions) {
    NumberOptions(Lower(n.dflt), Lower(n.minimum), Lower(n.maximum), Lower(n.multipleof), Lower(n.scale), Lower(n.unit))
  }

  function LowerType(td: TypeDef): (r: TypeDef) {
    match td
    case Number(id, n) => Number(id, LowerNumber(n))
    case Range(e, n, d) => Range(e, LowerNumber(n), Lower(d))
    case Simple(id, d) => Simple(id, Lower(d))
    case Str(d, regex) => Str(Lower(d), Lower(regex))
    case UriType(d, f, ss, _) => UriType(Lower(d), Lower(f), ss, false)
    case NoOptions(_) => td
  }

  // The parameter as it is, without pending changes.
  function LowerParam(p: Param): (r: Param) {
    Param(p.id, LowerType(p.td), Lower(p.value), p.title.(main := Lower(p.title.main)),
          p.description.(main := Lower(p.description.main)), Lower(p.tags), Lower(p.order), Lower(p.parent),
          p.userdata, false, Lower(p.userid), Lower(p.readonly))
  }

  function Resolved(o: Opt<Id>, groups: set<Id>): (r: Opt<Id>) {
    if o.has && o.value != ROOT && o.value in groups then Lower(o) else Fresh(ROOT)
  }

  // A full write carries the whole parameter: type options, languages and parent included.
  lemma FullWriteIsTheParameter(p: Param, groups: set<Id>)
    requires SetterOnlyType(p.td) && SetterOnlyFields(p) && p.userdata == []
    ensures Proxy(p, true, groups) == LowerParam(p).(parent := Resolved(p.parent, groups))
  {
    hide LeastWord, GreatestWord;
    TypeWritesItself(p.td);
  }

  lemma TypeWritesItself(td: TypeDef)
    requires SetterOnlyType(td)
    ensures ReceivedType(td, true) == LowerType(td)
  {
    hide LeastWord, GreatestWord;
  }

  // ---------------------------------------------------------------- delta writes

  // The message of one flush, and what its receiver makes of it.
  function Heard(p: Param, groups: set<Id>): (r: Param) { Arrived(p, false, groups) }

  function Parse(p: Param, groups: set<Id>, s: Stream): (r: ParamRead) {
    if OnlyValueChanged(p) then ParseUpdateValue(s) else ParseParam(groups, s)
  }

  // A flushed parameter arrives as what was heard, except a range that only changed its value.
  lemma DeltaArrivesIff(p: Param, groups: set<Id>, t: Text)
    requires Sendable(p)
    ensures Parse(p, groups, In(ParamBytes(p, false) + t)) == Found(Heard(p, groups), In(t)) <==>
             !(p.td.Range? && OnlyValueChanged(p))
  {
    hide ParseUpdateValue, ParseParam, ShortBytes, LongBytes, Proxy, FreshParam, Sendable, FreshType;
    assert OnlyValueChanged(p) ==> IsValueType(p.td);
    if OnlyValueChanged(p) {
      ShortReadsBack(p, t);
    } else {
      ParamReadsBack(p, groups, false, t);
    }
  }

  // The heard fields are exactly the flagged ones, with the writer's values.
  lemma HeardField(p: Param, groups: set<Id>, f: Field)
    requires Sendable(p) && SetterOnlyFields(p)
    ensures Of(Heard(p, groups), f).has <==> Of(p, f).changed
    ensures Of(p, f).changed ==> Of(Heard(p, groups), f).value == Of(p, f).value
  {
    hide FreshType, ReceivedType, ReceivedParent, Sendable;
  }

  lemma HeardKind(p: Param, groups: set<Id>)
    requires Sendable(p) && SetterOnlyFields(p)
    ensures Heard(p, groups).id == p.id && SameKind(Heard(p, groups).td, p.td)
             && (!IsValueType(p.td) ==> !Heard(p, groups).value.has)
  {
    hide SendableLabel, Fits;
    ReceivedKeepsKind(p.td, false);
  }

  lemma FlushedField(p: Param, f: Field)
    requires SetterOnlyFields(p)
    ensures Of(FlushedParam(p, false), f) == Lower(Of(p, f))
  {
    hide FlushedType;
  }

  lemma KindTransfers(q: Param, p: Param, h: Param)
    requires SameKind(q.td, p.td) && SameKind(h.td, p.td) && (!IsValueType(p.td) ==> !h.value.has)
    ensures SameKind(q.td, h.td) && (!IsValueType(q.td) ==> !h.value.has)
  {
  }

  // A field of a replica after it heard one flush, by the fields before.
  lemma DeltaField(p: Param, q: Param, groups: set<Id>, f: Field)
    requires Sendable(p) && SetterOnlyFields(p) && SetterOnlyFields(q) && q.id == p.id && SameKind(q.td, p.td)
    ensures SetterOnlyFields(Updated(q, Heard(p, groups)))
    ensures Effective(Updated(q, Heard(p, groups)), f) == if Of(p, f).changed then Effective(p, f) else Effective(q, f)
    ensures Of(Updated(q, Heard(p, groups)), f).changed <==>
            Of(q, f).changed || (Of(p, f).changed && Effective(p, f) != Effective(q, f))
  {
    hide Heard, Updated, Of, SetterOnlyFields, Sendable, SameKind, Effective;
    var h := Heard(p, groups);
    HeardKind(p, groups);
    KindTransfers(q, p, h);
    UpdatedKeepsSetterOnly(q, h);
    HeardField(p, groups, f);
    UpdatedField(q, h, f);
    SetterOnlyMeans(p, f);
    SetterOnlyMeans(q, f);
    SetterOnlyMeans(Updated(q, h), f);
  }

  // The writer after a flush: the same parameter, parent, userdata and type options included,
  // with no flag left anywhere.
  lemma AfterFlush(p: Param, f: Field)
    requires SetterOnlyFields(p)
    ensures FlushedParam(p, false) == LowerParam(p) && SetterOnlyFields(FlushedParam(p, false))
    ensures !AnyOptionChanged(FlushedParam(p, false)) && !TypeChanged(FlushedParam(p, false).td)
    ensures Effective(FlushedParam(p, false), f) == Effective(p, f) && !Of(FlushedParam(p, false), f).changed
  {
    hide FlushedParam, Effective, SetterOnlyFields, LowerType;
    FlushedIsLowered(p);
    FlushedField(p, f);
    FlushedKeepsInitial(p);
    SetterOnlyMeans(p, f);
    SetterOnlyMeans(FlushedParam(p, false), f);
  }

  lemma FlushedIsLowered(p: Param)
    requires SetterOnlyFields(p)
    ensures FlushedParam(p, false) == LowerParam(p) && !TypeChanged(LowerType(p.td))
  {
  }

  lemma FlushedKeepsInitial(p: Param)
    requires SetterOnlyFields(p)
    ensures SetterOnlyFields(FlushedParam(p, false)) && InitialValue(FlushedParam(p, false).td) == InitialValue(p.td)
  {
  }

  // One flush: a replica that agreed on every unflagged field agrees on all of them afterwards,
  // and the writer has no flag left.
  lemma DeltaIsSound(p: Param, q: Param, groups: set<Id>, t: Text)
    requires Sendable(p) && SetterOnlyFields(p) && SetterOnlyFields(q)
    requires q.id == p.id && SameKind(q.td, p.td)
    requires !(p.td.Range? && OnlyValueChanged(p))
    requires forall f :: !Of(p, f).changed ==> Effective(q, f) == Effective(p, f)
    ensures var r := Parse(p, groups, In(ParamBytes(p, false) + t));
      && r.Found? && r.stream == In(t)
      && forall f :: Effective(Updated(q, r.p), f) == Effective(p, f)
    ensures forall f :: Effective(FlushedParam(p, false), f) == Effective(p, f)
             && !Of(FlushedParam(p, false), f).changed
  {
    hide Parse, Heard, Updated, FlushedParam, ParamBytes, Of, SetterOnlyFields, Sendable, SameKind, Effective,
        OnlyValueChanged;
    DeltaArrivesIff(p, groups, t);
    forall f
      ensures Effective(Updated(q, Heard(p, groups)), f) == Effective(p, f)
      ensures Effective(FlushedParam(p, false), f) == Effective(p, f) && !Of(FlushedParam(p, false), f).changed
    {
      DeltaField(p, q, groups, f);
      AfterFlush(p, f);
    }
  }

  // ---------------------------------------------------------------- after a clear

  // The argument of a setter has the field's type.
  predicate Typed(td: TypeDef, f: Field, d: Datum) {
    match f
    case ValueField => IsValueType(td) && d.ValueDatum?
    case OrderField => d.NumberDatum?
    case ReadonlyField => d.BoolDatum?
    case _ => d.TextDatum?
  }

  // setValue, setLabel, ...
  function WithField(p: Param, f: Field, d: Datum): (r: Param)
    requires Typed(p.td, f, d)
  {
    match f
    case ValueField => p.(value := Assign(p.value, d.value))
    case LabelField => p.(title := p.title.(main := Assign(p.title.main, d.text)))
    case DescriptionField => p.(description := p.description.(main := Assign(p.description.main, d.text)))
    case TagsField => p.(tags := Assign(p.tags, d.text))
    case OrderField => p.(order := Assign(p.order, d.number))
    case UseridField => p.(userid := Assign(p.userid, d.text))
    case ReadonlyField => p.(readonly := Assign(p.readonly, d.truth))
  }

  // clearValue, clearLabel, ...: those of the label and the description raise no flag.
  function WithoutField(p: Param, f: Field): (r: Param) {
    match f
    case ValueField => p.(value := Clear(p.value))
    case LabelField => p.(title := p.title.(main := p.title.main.(has := false)))
    case DescriptionField => p.(description := p.description.(main := p.description.main.(has := false)))
    case TagsField => p.(tags := Clear(p.tags))
    case OrderField => p.(order := Clear(p.order))
    case UseridField => p.(userid := Clear(p.userid))
    case ReadonlyField => p.(readonly := Clear(p.readonly))
  }

  predicate TellsOfItsClear(f: Field) { f == TagsField || f == OrderField || f == UseridField || f == ReadonlyField }

  // Cleared and flushed: a replica learns of it for tags, order, userid and readonly; of the
  // value it is sent the stored one, and of a label or a description nothing.
  lemma WhatAClearTells(p: Param, q: Param, f: Field, groups: set<Id>)
    requires q.id == p.id && SameKind(q.td, p.td) && (f == ValueField ==> IsValueType(p.td))
    ensures var cleared := WithoutField(p, f);
      var q1 := Updated(q, Heard(cleared, groups));
      && Effective(cleared, f) == Of(FreshParam(p.id, p.td), f).value
      && (TellsOfItsClear(f) ==> Effective(q1, f) == Effective(cleared, f))
      && (f == ValueField ==> Effective(q1, f) == Of(p, f).value)
      && (f == LabelField || f == DescriptionField ==> Of(q1, f) == Of(q, f))
  {
    hide FreshType, ReceivedType, ReceivedParent, FlushedType, TypeChanged;
    KindsAgree(q.td, p.td);
  }

  lemma KindsAgree(a: TypeDef, b: TypeDef)
    requires SameKind(a, b)
    ensures IsValueType(a) == IsValueType(b) && FreshType(FreshType(b)) == FreshType(b)
    ensures forall all :: FreshType(ReceivedType(b, all)) == FreshType(b)
  {
  }

  // What one flush tells of a field, whatever was done to it before.
  lemma HeardAnyway(p: Param, groups: set<Id>, f: Field)
    requires f == ValueField ==> IsValueType(p.td)
    ensures var h := Heard(p, groups);
      && h.id == p.id && SameKind(h.td, p.td) && (!IsValueType(p.td) ==> !h.value.has)
      && (Of(h, f).has <==> Of(p, f).changed && (f == LabelField || f == DescriptionField ==> Of(p, f).has))
      && (Of(h, f).has ==> Of(h, f).value == if Of(p, f).has || f == ValueField then Of(p, f).value
         else Of(FreshParam(p.id, p.td), f).value)
  {
    hide FreshType, ReceivedType, ReceivedParent, FlushedType, TypeChanged;
    KindsAgree(p.td, p.td);
  }

  lemma ClearedAndSet(p: Param, f: Field, d: Datum)
    requires Of(p, f).has && !Of(p, f).changed && Typed(p.td, f, d)
    ensures var flushed := FlushedParam(WithoutField(p, f), false);
      && flushed.id == p.id && SameKind(flushed.td, p.td) && Typed(flushed.td, f, d)
      && Of(WithField(flushed, f, d), f) == Opt(true, d, d != Of(p, f).value)
  {
    hide FreshType, TypeChanged;
    FlushedSameKind(p.td);
  }

  lemma FlushedSameKind(td: TypeDef)
    ensures SameKind(FlushedType(td, false), td)
  {
  }

  // The two flushes of a field that is cleared and then set.
  lemma ClearedThenSet(p: Param, f: Field, d: Datum, groups: set<Id>)
    requires Of(p, f).has && !Of(p, f).changed && Typed(p.td, f, d)
    ensures var cleared := WithoutField(p, f);
      && Typed(FlushedParam(cleared, false).td, f, d)
      && var again := WithField(FlushedParam(cleared, false), f, d);
      var h1, h2 := Heard(cleared, groups), Heard(again, groups);
      && h1.id == h2.id == p.id && SameKind(h1.td, p.td) && SameKind(h2.td, p.td)
      && (!IsValueType(p.td) ==> !h1.value.has && !h2.value.has)
      && Of(again, f).has && Of(again, f).value == d
      && (Of(h1, f).has <==> TellsOfItsClear(f) || f == ValueField)
      && (TellsOfItsClear(f) ==> Of(h1, f).value == Of(FreshParam(p.id, p.td), f).value)
      && (f == ValueField ==> Of(h1, f).value == Of(p, f).value)
      && (Of(h2, f).has <==> d != Of(p, f).value) && (Of(h2, f).has ==> Of(h2, f).value == d)
  {
    hide Heard, FlushedParam, IsValueType, FreshParam;
    var cleared := WithoutField(p, f);
    ClearedAndSet(p, f, d);
    var again := WithField(FlushedParam(cleared, false), f, d);
    KindsAgree(again.td, p.td);
    HeardAnyway(cleared, groups, f);
    HeardAnyway(again, groups, f);
    assert cleared.td == p.td && cleared.id == p.id && again.id == p.id && SameKind(again.td, p.td);
    assert Of(cleared, f) == Opt(false, Of(p, f).value, TellsOfItsClear(f) || f == ValueField);
    KindsAgree(p.td, again.td);
  }

  // Cleared, flushed, set to d and flushed again, from agreement on the field: a replica ends
  // with d, except exactly when the field is one that told of its clear, d is the value that was
  // cleared, and that is not the default.  (Setting the old value again raises no flag.)
  lemma SetAfterClearArrivesIff(p: Param, q: Param, f: Field, d: Datum, groups: set<Id>)
    requires Of(p, f).has && !Of(p, f).changed && Of(q, f).has && Of(q, f).value == Of(p, f).value
    requires q.id == p.id && SameKind(q.td, p.td) && Typed(p.td, f, d)
    ensures var cleared := WithoutField(p, f);
      var q1 := Updated(q, Heard(cleared, groups));
      Typed(FlushedParam(cleared, false).td, f, d) &&
      var again := WithField(FlushedParam(cleared, false), f, d);
      var q2 := Updated(q1, Heard(again, groups));
      && Effective(again, f) == d
      && (Effective(q2, f) == d <==>
         !(TellsOfItsClear(f) && d == Of(p, f).value && d != Of(FreshParam(p.id, p.td), f).value))
  {
    hide Heard, Updated, SameKind, WithField, WithoutField, FlushedParam, Of, IsValueType, FreshParam, TellsOfItsClear,
        Typed;
    ClearedThenSet(p, f, d, groups);
    KindsAgree(q.td, p.td);
    var cleared := WithoutField(p, f);
    var again := WithField(FlushedParam(cleared, false), f, d);
    SameKindJoins(q.td, p.td, Heard(cleared, groups).td, Heard(again, groups).td);
    UpdatedTwice(q, Heard(cleared, groups), Heard(again, groups), f);
  }

  lemma UpdatedTwice(q: Param, a: Param, b: Param, f: Field)
    requires q.id == a.id == b.id && SameKind(q.td, a.td) && SameKind(q.td, b.td)
    requires !IsValueType(q.td) ==> !a.value.has && !b.value.has
    ensures Of(Updated(Updated(q, a), b), f) == SetFrom(SetFrom(Of(q, f), Of(a, f)), Of(b, f))
  {
    hide SameKind, Of, IsValueType;
    assert Updated(q, a).id == q.id && Updated(q, a).td == q.td;
    UpdatedField(q, a, f);
    UpdatedField(Updated(q, a), b, f);
  }

  lemma SameKindJoins(q: TypeDef, p: TypeDef, a: TypeDef, b: TypeDef)
    requires SameKind(q, p) && SameKind(a, p) && SameKind(b, p)
    ensures SameKind(q, a) && SameKind(q, b)
  {
  }
}

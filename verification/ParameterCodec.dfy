/** A parameter that one side writes, the other side parses back, and nothing beyond it. */
module ParameterCodec {
  import opened Bytes
  import opened Streams
  import opened Options
  import opened TypeDefinitions
  import opened TypeCodec
  import opened Forest
  import opened Parameters

  // ---------------------------------------------------------------- what the other side learns

  // A language code that comes back as it was written.
  predicate LanguageCode(k: Text) { |k| == 3 && k[0] != 0 && k[1] != 0 && k[2] != 0 && k != ANY }

  ghost predicate SendableLabel(l: Labelled, width: nat) {
    |l.main.value| <= Readable(width) &&
    forall k :: k in l.languages ==> LanguageCode(k) && |l.languages[k]| <= Readable(width)
  }

  predicate Fits(td: TypeDef, v: Value) {
    match td
    case Number(id, _) => v.OneWord? && v.word < Power256(Width(id))
    case Simple(id, _) => v.OneWord? && v.word < Power256(Width(id))
    case Range(e, _, _) => v.Ends? && v.lower < Power256(Width(e)) && v.upper < Power256(Width(e))
    case NoOptions(_) => v.NoValue?
    case _ => v.OneText? && |v.text| <= Readable(LONG)
  }

  // Within the bounds of the wire format; userdata has no length of its own and is left out.
  ghost predicate Sendable(p: Param) {
    && SendableType(p.td) && Fits(p.td, p.value.value)
    && SendableLabel(p.title, TINY) && SendableLabel(p.description, SHORT)
    && |p.tags.value| <= Readable(TINY) && |p.userid.value| <= Readable(TINY)
    && p.order.value < Power256(4) && p.userdata == []
  }

  function SentValue(p: Param, all: bool): (r: Option<Value>) {
    if IsValueType(p.td) then Sent(p.value, all, p.value.value) else None
  }

  function ReceivedLabel(l: Labelled, all: bool): (r: Labelled) {
    if HasLabel(l) && (all || l.main.changed) then
      Labelled(if l.main.has then Place(Fresh([]), l.main.value) else Fresh([]), l.languages)
    else Labelled(Fresh([]), map[])
  }

  function ReceivedParent(o: Opt<Id>, all: bool, groups: set<Id>): (r: Opt<Id>) {
    var sent := Sent(o, all, ROOT);
    if sent.None? || sent.value == ROOT || sent.value !in groups then Fresh(ROOT) else Place(Fresh(ROOT), sent.value)
  }

  // The proxy parameter that the parser builds from a long form.
  function Proxy(p: Param, all: bool, groups: set<Id>): (r: Param) {
    Param(p.id, ReceivedType(p.td, all), Received(Fresh(InitialValue(p.td)), SentValue(p, all)),
          ReceivedLabel(p.title, all), ReceivedLabel(p.description, all),
          Received(Fresh([]), Sent(p.tags, all, [])), Received(Fresh(0), Sent(p.order, all, 0)),
          ReceivedParent(p.parent, all, groups), [], false,
          Received(Fresh([]), Sent(p.userid, all, [])), Received(Fresh(false), Sent(p.readonly, all, false)))
  }

  // The parameter that a short form makes.
  function ValueOnly(p: Param): (r: Param) {
    var b := FreshParam(p.id, FreshType(p.td));
    b.(value := Assign(b.value, p.value.value))
  }

  // What comes out at the other side.
  function Arrived(p: Param, all: bool, groups: set<Id>): (r: Param) {
    if OnlyValueChanged(p) then ValueOnly(p) else Proxy(p, all, groups)
  }

  // ---------------------------------------------------------------- one option

  lemma Turn(p: Param, groups: set<Id>, tag: Byte, payload: Text, t: Text, p': Param)
    requires tag != TERMINATOR && OptionTurn(p, groups, tag, In(payload + t)) == Again(p', In(t))
    ensures OptionLoop(p, groups, In([tag] + payload + t)) == OptionLoop(p', groups, In(t))
  {
    hide OptionTurn;
    var s := [tag] + payload + t;
    assert s[1..] == payload + t && s[0] == tag;
  }

  lemma Nothing(t: Text)
    ensures [] + t == t
  {
  }

  lemma ValueReadsBack(td: TypeDef, v: Value, t: Text)
    requires IsValueType(td) && Fits(td, v)
    ensures ReadValue(td, In(ValueBytes(td, v) + t)) == Got(v, In(t))
  {
    hide BigEndian, ReadWord, ReadString, Width, Power256, PrefixedBytes;
    match td
    case Number(id, _) => WordReadsBack(v.word, Width(id), t, false);
    case Simple(id, _) => WordReadsBack(v.word, Width(id), t, false);
    case Range(e, _, _) =>
      var a, b := BigEndian(v.lower, Width(e)), BigEndian(v.upper, Width(e));
      assert a + b + t == a + (b + t);
      WordReadsBack(v.lower, Width(e), b + t, false);
      WordReadsBack(v.upper, Width(e), t, false);
    case Str(_, _) => PrefixedReadsBack(v.text, t, false);
    case UriType(_, _, _, _) => PrefixedReadsBack(v.text, t, false);
  }

  lemma ValueReads(b: Param, groups: set<Id>, td: TypeDef, o: Opt<Value>, all: bool, t: Text)
    requires Datatype(b.td) == Datatype(td) && (td.Range? ==> b.td.Range? && b.td.element == td.element)
             && ValidType(td) && ValidType(b.td)
    requires Fits(td, o.value)
    ensures var sent := if IsValueType(td) then Sent(o, all, o.value) else None;
      OptionLoop(b, groups, In(ValueEmit(td, o, all) + t))
          == OptionLoop(b.(value := Received(b.value, sent)), groups, In(t))
  {
    if IsValueType(td) && (all || o.changed) && (o.has || o.changed) {
      ValueReadsBack(b.td, o.value, t);
      hide OptionLoop, ReadValue, Fits;
      assert ValueBytes(b.td, o.value) == ValueBytes(td, o.value);
      Turn(b, groups, VALUE, ValueBytes(td, o.value), t, b.(value := Place(b.value, o.value)));
    } else {
      Nothing(t);
    }
  }

  lemma TextOptionReads(b: Param, groups: set<Id>, o: Opt<Text>, all: bool, tag: Byte, t: Text, after: Param)
    requires tag == TAGS || tag == USERID
    requires |o.value| <= Readable(TINY)
    requires after == if tag == TAGS then b.(tags := Received(b.tags, Sent(o, all, [])))
             else b.(userid := Received(b.userid, Sent(o, all, [])))
    ensures OptionLoop(b, groups, In(TextEmit(o, all, tag, TINY) + t)) == OptionLoop(after, groups, In(t))
  {
    hide OptionLoop, StringBytes, ReadString;
    var sent := Sent(o, all, []);
    if sent.Some? {
      ReadableReadsBack(sent.value, TINY, t, false);
      Turn(b, groups, tag, StringBytes(sent.value, TINY), t, after);
    } else {
      Nothing(t);
    }
  }

  lemma OrderReads(b: Param, groups: set<Id>, o: Opt<nat>, all: bool, t: Text)
    requires o.value < Power256(4)
    ensures OptionLoop(b, groups, In(WordEmit(o, all, ORDER, 4, 0) + t)) ==
            OptionLoop(b.(order := Received(b.order, Sent(o, all, 0))), groups, In(t))
  {
    hide OptionLoop, BigEndian, ReadWord, Power256;
    SmallPowers();
    var sent := Sent(o, all, 0);
    if sent.Some? {
      WordReadsBack(sent.value, 4, t, false);
      Turn(b, groups, ORDER, BigEndian(sent.value, 4), t, b.(order := Place(b.order, sent.value)));
    } else {
      Nothing(t);
    }
  }

  lemma IdReadsBack(id: Id, t: Text)
    ensures ReadWord(In(IdBytes(id) + t), 2) == Got(Unsigned(id), In(t)) && Unsigned(id) < Power256(2)
             && ToId(Unsigned(id)) == id
  {
    SmallPowers();
    WordReadsBack(Unsigned(id), 2, t, false);
  }

  lemma ParentTurn(b: Param, groups: set<Id>, v: Id, t: Text)
    requires b.parent == Fresh(ROOT)
    ensures OptionTurn(b, groups, PARENTID, In(IdBytes(v) + t)) ==
            Again(b.(parent := if v == ROOT || v !in groups then Fresh(ROOT) else Place(Fresh(ROOT), v)), In(t))
  {
    hide IdBytes, ReadWord, ReadString, ReadBytes, ReadValue, LabelLoop, Power256, Unsigned, ToId, FromBigEndian;
    IdReadsBack(v, t);
    assert b == b.(parent := Fresh(ROOT));
  }

  lemma ParentReads(b: Param, groups: set<Id>, o: Opt<Id>, all: bool, t: Text)
    requires b.parent == Fresh(ROOT)
    ensures OptionLoop(b, groups, In(Emit(o, all, PARENTID, IdBytes(o.value), IdBytes(ROOT)) + t)) ==
            OptionLoop(b.(parent := ReceivedParent(o, all, groups)), groups, In(t))
  {
    hide OptionLoop, OptionTurn, IdBytes;
    var sent := Sent(o, all, ROOT);
    if sent.Some? {
      ParentTurn(b, groups, sent.value, t);
      Turn(b, groups, PARENTID, IdBytes(sent.value), t, b.(parent := ReceivedParent(o, all, groups)));
    } else {
      Nothing(t);
    }
  }

  lemma UserdataReads(b: Param, groups: set<Id>, changed: bool, all: bool, t: Text)
    requires b.userdata == []
    ensures OptionLoop(b, groups, In(UserdataEmit([], changed, all) + t)) == OptionLoop(b, groups, In(t))
  {
    hide OptionLoop, BigEndian, FromBigEndian, Power256;
    if changed {
      SmallPowers();
      WordReadsBack(0, 4, t, false);
      assert t[..0] == [] && t[0..] == t;
      Turn(b, groups, USERDATA, BigEndian(0, 4), t, b);
    } else {
      Nothing(t);
    }
  }

  lemma ReadonlyReads(b: Param, groups: set<Id>, o: Opt<bool>, all: bool, t: Text)
    ensures OptionLoop(b, groups, In(Emit(o, all, READONLY, [Bool(o.value)], [0]) + t)) ==
            OptionLoop(b.(readonly := Received(b.readonly, Sent(o, all, false))), groups, In(t))
  {
    hide ReadWord;
    hide OptionLoop;
    var sent := Sent(o, all, false);
    if sent.Some? {
      OneOctetReadsBack(Bool(sent.value), t);
      Turn(b, groups, READONLY, [Bool(sent.value)], t, b.(readonly := Place(b.readonly, sent.value)));
    } else {
      Nothing(t);
    }
  }

  lemma OneOctetReadsBack(x: Byte, t: Text)
    ensures ReadWord(In([x] + t), 1) == Got(x, In(t))
  {
    SmallPowers();
    WordReadsBack(x, 1, t, false);
    assert BigEndian(x, 1) == [] + [x % 256];
  }

  // ---------------------------------------------------------------- labels

  lemma CodeIsNotCut(k: Text)
    requires |k| == 3 && k[0] != 0 && k[1] != 0 && k[2] != 0
    ensures CString(k) == k
  {
    assert CString(k[3..]) == [];
    assert k[2..][1..] == k[3..] && k[1..][1..] == k[2..];
    assert CString(k[2..]) == [k[2]] + [];
    assert CString(k[1..]) == [k[1]] + [k[2]];
    assert k == [k[0]] + ([k[1]] + [k[2]]);
  }

  lemma LabelTurn(l: Labelled, width: nat, k: Text, v: Text, t: Text)
    requires width == TINY || width == SHORT
    requires |k| == 3 && k[0] != 0 && k[1] != 0 && k[2] != 0 && |v| <= Readable(width)
    ensures LabelLoop(l, width, In(k + StringBytes(v, width) + t)) == LabelLoop(PlaceLabel(l, k, v), width, In(t))
  {
    hide StringBytes, ReadString, CString;
    CodeIsNotCut(k);
    ReadableReadsBack(v, width, t, false);
    var s := k + StringBytes(v, width) + t;
    assert s == k + (StringBytes(v, width) + t);
    BytesReadBack(k, StringBytes(v, width) + t, false);
  }

  lemma LabelEnd(l: Labelled, width: nat, t: Text)
    ensures LabelLoop(l, width, In([TERMINATOR] + t)) == Step.Next(l, In(t))
  {
    assert ([TERMINATOR] + t)[1..] == t;
  }

  // The texts that are written at all.
  function Written(m: map<Text, Text>): (r: map<Text, Text>) { map k | k in m && |k| >= 3 :: m[k] }

  lemma {:induction false} WrittenLanguagesRead(l: Labelled, m: map<Text, Text>, width: nat, t: Text)
    requires width == TINY || width == SHORT
    requires forall k :: k in m ==> (|k| < 3 || LanguageCode(k)) && |m[k]| <= Readable(width)
    ensures LabelLoop(l, width, In(LanguageBytes(m, width) + t)) ==
            LabelLoop(l.(languages := l.languages + Written(m)), width, In(t))
    decreases m.Keys
  {
    hide LabelLoop, StringBytes, FirstKey, Readable;
    if m.Keys == {} {
      assert l.languages + Written(m) == l.languages;
      Nothing(t);
    } else {
      var k := FirstKey(m.Keys);
      var rest := LanguageBytes(m - {k}, width);
      if |k| < 3 {
        assert LanguageBytes(m, width) == [] + rest;
        Nothing(rest);
        assert Written(m - {k}) == Written(m);
        WrittenLanguagesRead(l, m - {k}, width, t);
      } else {
        assert k[..3] == k;
        assert LanguageBytes(m, width) + t == k + StringBytes(m[k], width) + (rest + t);
        LabelTurn(l, width, k, m[k], rest + t);
        var l' := PlaceLabel(l, k, m[k]);
        assert l'.languages + Written(m - {k}) == l.languages + Written(m);
        WrittenLanguagesRead(l', m - {k}, width, t);
      }
    }
  }

  lemma LanguagesRead(l: Labelled, m: map<Text, Text>, width: nat, t: Text)
    requires width == TINY || width == SHORT
    requires forall k :: k in m ==> LanguageCode(k) && |m[k]| <= Readable(width)
    ensures LabelLoop(l, width, In(LanguageBytes(m, width) + t))
             == LabelLoop(l.(languages := l.languages + m), width, In(t))
  {
    WrittenLanguagesRead(l, m, width, t);
    assert Written(m) == m;
  }

  // What the parser takes for a code.
  predicate ReadCode(k: Text) { 0 < |k| <= 3 && (forall i :: 0 <= i < |k| ==> k[i] != 0) && k != ANY }

  lemma {:induction false} CodesHaveNoZero(s: Text)
    ensures |CString(s)| <= |s| && forall i :: 0 <= i < |CString(s)| ==> CString(s)[i] != 0
    ensures s != [] && s[0] != 0 ==> CString(s) != []
  {
    if s != [] && s[0] != 0 { CodesHaveNoZero(s[1..]); }
  }

  lemma {:induction false} OnlyCodesAreRead(l: Labelled, width: nat, s: Stream)
    requires forall k :: k in l.languages ==> ReadCode(k)
    ensures var r := LabelLoop(l, width, s); r.Next? ==> forall k :: k in r.value.languages ==> ReadCode(k)
    decreases |s.rest|
  {
    hide CString, ReadString;
    if s.rest != [] && s.rest[0] != 0 && |s.rest| >= 3 {
      var code := ReadBytes(s, 3);
      CodesHaveNoZero(code.value);
      var text := ReadString(code.next, width);
      if text.Got? {
        OnlyCodesAreRead(PlaceLabel(l, CString(code.value), text.value), width, text.next);
      }
    }
  }

  // Texts by language come back exactly when every code has three octets, none of them zero,
  // and is not "any".
  lemma {:induction false} LanguagesRoundTripIff(m: map<Text, Text>, width: nat, t: Text)
    requires width == TINY || width == SHORT
    requires forall k :: k in m ==> |m[k]| <= Readable(width)
    ensures LabelLoop(Labelled(Fresh([]), map[]), width, In(LanguageBytes(m, width) + ([TERMINATOR] + t))) ==
            Step.Next(Labelled(Fresh([]), m), In(t))
       <==> forall k :: k in m ==> LanguageCode(k)
  {
    hide LabelLoop, LanguageBytes, Readable;
    var l0: Labelled := Labelled(Fresh([]), map[]);
    var z := [TERMINATOR] + t;
    if (forall k :: k in m ==> LanguageCode(k)) || (forall k :: k in m ==> ReadCode(k)) {
      WrittenLanguagesRead(l0, m, width, z);
      LabelEnd(l0.(languages := Written(m)), width, t);
      assert map[] + Written(m) == Written(m);
      if forall k :: k in m ==> LanguageCode(k) {
        assert Written(m) == m;
      } else {
        var k :| k in m && !LanguageCode(k);
        assert k !in Written(m);
      }
    } else {
      OnlyCodesAreRead(l0, width, In(LanguageBytes(m, width) + z));
    }
  }

  lemma LabelReadsBack(l: Labelled, width: nat, t: Text)
    requires width == TINY || width == SHORT
    requires SendableLabel(l, width)
    ensures LabelLoop(Labelled(Fresh([]), map[]), width, In(LabelBytes(l, width) + t)) ==
            Step.Next(Labelled(if l.main.has then Place(Fresh([]), l.main.value) else Fresh([]), l.languages), In(t))
  {
    hide LabelLoop, StringBytes, LanguageBytes, Readable;
    var z := [TERMINATOR] + t;
    var l0: Labelled := Labelled(Fresh([]), map[]);
    var langs := LanguageBytes(l.languages, width);
    var l1 := if l.main.has then l0.(main := Place(l0.main, l.main.value)) else l0;
    if l.main.has {
      assert LabelBytes(l, width) + t == ANY + StringBytes(l.main.value, width) + (langs + z);
      LabelTurn(l0, width, ANY, l.main.value, langs + z);
    } else {
      assert LabelBytes(l, width) + t == langs + z;
    }
    LanguagesRead(l1, l.languages, width, z);
    assert l1.languages + l.languages == l.languages;
    LabelEnd(l1.(languages := l.languages), width, t);
  }

  lemma LabelReads(b: Param, groups: set<Id>, l: Labelled, all: bool, tag: Byte, t: Text, after: Param)
    requires (tag == LABEL && b.title == Labelled(Fresh([]), map[]) && SendableLabel(l, TINY)
             && after == b.(title := ReceivedLabel(l, all)))
          || (tag == DESCRIPTION && b.description == Labelled(Fresh([]), map[]) && SendableLabel(l, SHORT)
             && after == b.(description := ReceivedLabel(l, all)))
    ensures OptionLoop(b, groups, In(LabelEmit(l, all, tag, if tag == LABEL then TINY else SHORT) + t))
             == OptionLoop(after, groups, In(t))
  {
    hide OptionLoop, LabelLoop, LabelBytes, SendableLabel;
    var width := if tag == LABEL then TINY else SHORT;
    if HasLabel(l) && (all || l.main.changed) {
      LabelReadsBack(l, width, t);
      Turn(b, groups, tag, LabelBytes(l, width), t, after);
    } else if !HasLabel(l) && l.main.changed {
      LabelEnd(Labelled(Fresh([]), map[]), width, t);
      Turn(b, groups, tag, [TERMINATOR], t, after);
    } else {
      Nothing(t);
    }
  }

  // ---------------------------------------------------------------- a whole parameter

  lemma LateOptionsRead(b: Param, groups: set<Id>, p: Param, all: bool, t: Text)
    requires b.parent == Fresh(ROOT) && b.userdata == [] && p.userdata == [] && |p.userid.value| <= Readable(TINY)
    ensures OptionLoop(b, groups, In(LateOptionBytes(p, all) + t)) ==
            Done(b.(parent := ReceivedParent(p.parent, all, groups),
                userid := Received(b.userid, Sent(p.userid, all, [])),
                    readonly := Received(b.readonly, Sent(p.readonly, all, false))), In(t))
  {
    hide OptionLoop, Emit, UserdataEmit, TextEmit, IdBytes, ReceivedParent, Received, Sent, Readable;
    var e, u, x := Emit(p.parent, all, PARENTID, IdBytes(p.parent.value), IdBytes(ROOT)),
                   UserdataEmit([], p.userdataChanged, all), TextEmit(p.userid, all, USERID, TINY);
    var y, z := Emit(p.readonly, all, READONLY, [Bool(p.readonly.value)], [0]), [TERMINATOR];
    Nested(e, u, x, y, z, t);
    var b1 := b.(parent := ReceivedParent(p.parent, all, groups));
    var b2 := b1.(userid := Received(b.userid, Sent(p.userid, all, [])));
    var b3 := b2.(readonly := Received(b.readonly, Sent(p.readonly, all, false)));
    ParentReads(b, groups, p.parent, all, u + (x + (y + (z + t))));
    UserdataReads(b1, groups, p.userdataChanged, all, x + (y + (z + t)));
    TextOptionReads(b1, groups, p.userid, all, USERID, y + (z + t), b2);
    ReadonlyReads(b2, groups, p.readonly, all, z + t);
    OptionEnd(b3, groups, t);
  }

  lemma OptionEnd(b: Param, groups: set<Id>, t: Text)
    ensures OptionLoop(b, groups, In([TERMINATOR] + t)) == Done(b, In(t))
  {
    assert ([TERMINATOR] + t)[1..] == t;
  }

  lemma SixParts(a: Text, b: Text, c: Text, d: Text, e: Text, f: Text, t: Text)
    ensures a + (b + (c + (d + (e + f)))) + t == a + (b + (c + (d + (e + (f + t)))))
  {
    assert a + (b + (c + (d + (e + f)))) + t == a + (b + (c + (d + (e + f))) + t);
    Nested(b, c, d, e, f, t);
  }

  // The proxy after the options that come before the parent.
  function EarlyProxy(p: Param, all: bool): (r: Param) {
    FreshParam(p.id, ReceivedType(p.td, all)).(
      value := Received(Fresh(InitialValue(ReceivedType(p.td, all))), SentValue(p, all)),
      title := ReceivedLabel(p.title, all), description := ReceivedLabel(p.description, all),
      tags := Received(Fresh([]), Sent(p.tags, all, [])), order := Received(Fresh(0), Sent(p.order, all, 0)))
  }

  function EarlyOptionBytes(p: Param, all: bool, late: Text): (r: Text) {
    ValueEmit(p.td, p.value, all)
    + (LabelEmit(p.title, all, LABEL, TINY)
    + (LabelEmit(p.description, all, DESCRIPTION, SHORT)
    + (TextEmit(p.tags, all, TAGS, TINY)
    + (WordEmit(p.order, all, ORDER, 4, 0) + late))))
  }

  lemma EarlyOptionsRead(p: Param, groups: set<Id>, all: bool, z: Text, t: Text)
    requires Sendable(p)
    ensures OptionLoop(FreshParam(p.id, ReceivedType(p.td, all)), groups, In(EarlyOptionBytes(p, all, z) + t)) ==
            OptionLoop(EarlyProxy(p, all), groups, In(z + t))
  {
    hide OptionLoop, ValueEmit, LabelEmit, TextEmit, WordEmit, Received, Sent, ReceivedLabel,
         ReceivedType, SendableLabel, SendableType, Fits, InitialValue, Readable, Power256;
    ReceivedKeepsKind(p.td, all);
    var a, l := ValueEmit(p.td, p.value, all), LabelEmit(p.title, all, LABEL, TINY);
    var d, x, o := LabelEmit(p.description, all, DESCRIPTION, SHORT), TextEmit(p.tags, all, TAGS, TINY),
        WordEmit(p.order, all, ORDER, 4, 0);
    SixParts(a, l, d, x, o, z, t);
    var b0 := FreshParam(p.id, ReceivedType(p.td, all));
    var b1 := b0.(value := Received(b0.value, SentValue(p, all)));
    var b2 := b1.(title := ReceivedLabel(p.title, all));
    var b3 := b2.(description := ReceivedLabel(p.description, all));
    var b4 := b3.(tags := Received(b3.tags, Sent(p.tags, all, [])));
    var b5 := b4.(order := Received(b4.order, Sent(p.order, all, 0)));
    ValueReads(b0, groups, p.td, p.value, all, l + (d + (x + (o + (z + t)))));
    LabelReads(b1, groups, p.title, all, LABEL, d + (x + (o + (z + t))), b2);
    LabelReads(b2, groups, p.description, all, DESCRIPTION, x + (o + (z + t)), b3);
    TextOptionReads(b3, groups, p.tags, all, TAGS, o + (z + t), b4);
    OrderReads(b4, groups, p.order, all, z + t);
  }

  lemma OptionsRead(p: Param, groups: set<Id>, all: bool, t: Text)
    requires Sendable(p)
    ensures OptionLoop(FreshParam(p.id, ReceivedType(p.td, all)), groups, In(OptionBytes(p, all) + t))
             == Done(Proxy(p, all, groups), In(t))
  {
    hide OptionLoop, ValueEmit, LabelEmit, TextEmit, WordEmit, LateOptionBytes, Received, Sent, ReceivedLabel,
        ReceivedParent,
         ReceivedType, SendableLabel, SendableType, Fits, InitialValue, Readable, Power256;
    ReceivedKeepsKind(p.td, all);
    EarlyOptionsRead(p, groups, all, LateOptionBytes(p, all), t);
    LateOptionsRead(EarlyProxy(p, all), groups, p, all, t);
  }

  lemma ReceivedKeepsKind(td: TypeDef, all: bool)
    requires SendableType(td)
    ensures var r := ReceivedType(td, all);
      ValidType(r) && ValidType(td) && Datatype(r) == Datatype(td)
          && (td.Range? ==> r.Range? && r.element == td.element)
      && InitialValue(r) == InitialValue(td)
  {
  }

  // The id and the mandatory part choose the same type definition again.
  lemma HeadReads(p: Param, groups: set<Id>, rest: Text)
    requires ValidType(p.td)
    ensures ParseParam(groups, In(IdBytes(p.id) + (Mandatory(p.td) + rest)))
             == ParseBody(p.id, FreshType(p.td), groups, In(rest))
  {
    hide IdBytes, ReadWord, ParseBody, Power256, Unsigned, ToId, FreshNumber;
    var m := Mandatory(p.td);
    IdReadsBack(p.id, m + rest);
    assert (m + rest)[1..] == m[1..] + rest && (m + rest)[0] == m[0];
    if p.td.Range? {
      assert m[1..] == [p.td.element];
      assert ([p.td.element] + rest)[1..] == rest;
    } else {
      Nothing(rest);
    }
  }

  // For every sendable parameter in the long form, full or delta, and whatever follows it.
  lemma ParamReadsBack(p: Param, groups: set<Id>, all: bool, t: Text)
    requires Sendable(p) && !OnlyValueChanged(p)
    ensures ParseParam(groups, In(ParamBytes(p, all) + t)) == Found(Proxy(p, all, groups), In(t))
  {
    hide IdBytes, TypeBytes, OptionBytes, ParseParam, ParseType, OptionLoop, FreshType, ReceivedType, FreshParam, Proxy,
        Fits,
         SendableLabel, OnlyValueChanged;
    var m, ty, o := Mandatory(p.td), TypeBytes(p.td, all), OptionBytes(p, all);
    assert ParamBytes(p, all) + t == IdBytes(p.id) + (m + (ty + (o + t))) by {
      assert ty + o + t == ty + (o + t);
      assert m + (ty + o) + t == m + (ty + o + t);
      assert IdBytes(p.id) + (m + (ty + o)) + t == IdBytes(p.id) + (m + (ty + o) + t);
    }
    HeadReads(p, groups, ty + (o + t));
    TypeReadsBack(p.td, all, o + t);
    OptionsRead(p, groups, all, t);
  }

  // A short form gives the value, except for a range, which the factory does not read.
  lemma ShortReadsBack(p: Param, t: Text)
    requires Sendable(p) && IsValueType(p.td)
    ensures !p.td.Range? ==> ParseUpdateValue(In(ShortBytes(p) + t)) == Found(ValueOnly(p), In(t))
    ensures p.td.Range? ==> ParseUpdateValue(In(ShortBytes(p) + t)).Nobody?
  {
    hide IdBytes, ReadWord, ReadValue, Power256, Unsigned, ToId, FreshNumber, ValueBytes, Fits, SendableLabel;
    var m, v := Mandatory(p.td), ValueBytes(p.td, p.value.value);
    assert ShortBytes(p) + t == IdBytes(p.id) + (m + (v + t)) by {
      assert m + v + t == m + (v + t);
      assert IdBytes(p.id) + (m + v) + t == IdBytes(p.id) + (m + v + t);
    }
    IdReadsBack(p.id, m + (v + t));
    assert (m + (v + t))[1..] == m[1..] + (v + t) && (m + (v + t))[0] == m[0];
    if !p.td.Range? {
      Nothing(v + t);
      SameValueForm(p.td, p.value.value);
      ValueReadsBack(FreshType(p.td), p.value.value, t);
    }
  }

  lemma SameValueForm(td: TypeDef, v: Value)
    requires ValidType(td)
    ensures Fits(FreshType(td), v) == Fits(td, v) && ValueBytes(FreshType(td), v) == ValueBytes(td, v)
    ensures InitialValue(FreshType(td)) == InitialValue(td)
  {
  }
}

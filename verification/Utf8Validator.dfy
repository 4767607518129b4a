/** The table-driven UTF-8 validator: libs/websocketpp/utf8_validator.hpp.

    `Step` is one table look-up with its code-point accumulator, `Run` a run of steps.
    The partner definitions are independent of the table: `IsUtf8Char` is the grammar of
    section 4 of RFC 3629, `Encode` the encoder of its section 3. */
module Utf8Validator {
  import opened Bytes

  const ACCEPT: nat := 0
  const REJECT: nat := 1

  // The lookup table, sixteen entries a row as in the source: rows 0-15 map a byte to its
  // class, row 16+s holds the successors of state s.
  const TABLE: seq<seq<nat>> := [
    [0, 0, 0, 0, 0, 0, 0, 0, 0, 0, 0, 0, 0, 0, 0, 0], [0, 0, 0, 0, 0, 0, 0, 0, 0, 0, 0, 0, 0, 0, 0, 0],
    [0, 0, 0, 0, 0, 0, 0, 0, 0, 0, 0, 0, 0, 0, 0, 0], [0, 0, 0, 0, 0, 0, 0, 0, 0, 0, 0, 0, 0, 0, 0, 0],
    [0, 0, 0, 0, 0, 0, 0, 0, 0, 0, 0, 0, 0, 0, 0, 0], [0, 0, 0, 0, 0, 0, 0, 0, 0, 0, 0, 0, 0, 0, 0, 0],
    [0, 0, 0, 0, 0, 0, 0, 0, 0, 0, 0, 0, 0, 0, 0, 0], [0, 0, 0, 0, 0, 0, 0, 0, 0, 0, 0, 0, 0, 0, 0, 0],
    [1, 1, 1, 1, 1, 1, 1, 1, 1, 1, 1, 1, 1, 1, 1, 1], [9, 9, 9, 9, 9, 9, 9, 9, 9, 9, 9, 9, 9, 9, 9, 9],
    [7, 7, 7, 7, 7, 7, 7, 7, 7, 7, 7, 7, 7, 7, 7, 7], [7, 7, 7, 7, 7, 7, 7, 7, 7, 7, 7, 7, 7, 7, 7, 7],
    [8, 8, 2, 2, 2, 2, 2, 2, 2, 2, 2, 2, 2, 2, 2, 2], [2, 2, 2, 2, 2, 2, 2, 2, 2, 2, 2, 2, 2, 2, 2, 2],
    [0xa, 3, 3, 3, 3, 3, 3, 3, 3, 3, 3, 3, 3, 4, 3, 3], [0xb, 6, 6, 6, 5, 8, 8, 8, 8, 8, 8, 8, 8, 8, 8, 8],
    [0, 1, 2, 3, 5, 8, 7, 1, 1, 1, 4, 6, 1, 1, 1, 1],
    [1, 1, 1, 1, 1, 1, 1, 1, 1, 1, 1, 1, 1, 1, 1, 1], [1, 0, 1, 1, 1, 1, 1, 0, 1, 0, 1, 1, 1, 1, 1, 1],
    [1, 2, 1, 1, 1, 1, 1, 2, 1, 2, 1, 1, 1, 1, 1, 1], [1, 1, 1, 1, 1, 1, 1, 2, 1, 1, 1, 1, 1, 1, 1, 1],
    [1, 2, 1, 1, 1, 1, 1, 1, 1, 2, 1, 1, 1, 1, 1, 1], [1, 1, 1, 1, 1, 1, 1, 3, 1, 3, 1, 1, 1, 1, 1, 1],
    [1, 3, 1, 1, 1, 1, 1, 3, 1, 3, 1, 1, 1, 1, 1, 1], [1, 3, 1, 1, 1, 1, 1, 1, 1, 1, 1, 1, 1, 1, 1, 1]]

  function Utf8d(i: nat): (r: nat)
    requires i < 400
  {
    TABLE[i / 16][i % 16]
  }

  // The same table as ranges of bytes and as the legal moves between states.
  function Kind(b: Byte): (r: nat)
    ensures r < 12
  {
    if b < 0x80 then 0
    else if b < 0x90 then 1
    else if b < 0xA0 then 9
    else if b < 0xC0 then 7
    else if b < 0xC2 then 8
    else if b < 0xE0 then 2
    else if b == 0xE0 then 10
    else if b == 0xED then 4
    else if b < 0xF0 then 3
    else if b == 0xF0 then 11
    else if b < 0xF4 then 6
    else if b == 0xF4 then 5
    else 8
  }

  function Next(state: nat, kind: nat): (r: nat)
    requires state < 9 && kind < 12
    ensures r < 9
  {
    match state
    case 0 =>
      if kind == 0 then 0 else if kind == 2 then 2 else if kind == 3 then 3 else if kind == 4 then 5
      else if kind == 5 then 8 else if kind == 6 then 7 else if kind == 10 then 4 else if kind == 11 then 6 else 1
    case 2 => if kind == 1 || kind == 7 || kind == 9 then 0 else 1
    case 3 => if kind == 1 || kind == 7 || kind == 9 then 2 else 1
    case 4 => if kind == 7 then 2 else 1
    case 5 => if kind == 1 || kind == 9 then 2 else 1
    case 6 => if kind == 7 || kind == 9 then 3 else 1
    case 7 => if kind == 1 || kind == 7 || kind == 9 then 3 else 1
    case 8 => if kind == 1 then 3 else 1
    case _ => 1
  }

  lemma TableKind(b: Byte)
    ensures Utf8d(b) == Kind(b)
  {
    assert b / 16 < 16;
  }

  lemma TableNext(state: nat, kind: nat)
    requires state < 9 && kind < 12
    ensures Utf8d(256 + state * 16 + kind) == Next(state, kind)
  {
    assert (256 + state * 16 + kind) / 16 == 16 + state && (256 + state * 16 + kind) % 16 == kind;
  }

  // The rest of each row is never looked up: it rejects.
  lemma TableRest(state: nat, column: nat)
    requires state < 9 && 12 <= column < 16
    ensures Utf8d(256 + state * 16 + column) == REJECT
  {
    assert (256 + state * 16 + column) / 16 == 16 + state && (256 + state * 16 + column) % 16 == column;
  }

  // (0xff >> kind) & byte
  function LeadBits(kind: nat, b: Byte): (r: nat)
    requires kind < 12
    ensures r <= b
  {
    if kind == 0 then b else if kind == 1 then b % 128 else if kind == 2 then b % 64 else if kind == 3 then b % 32
    else if kind == 4 then b % 16 else if kind == 5 then b % 8 else if kind == 6 then b % 4
    else if kind == 7 then b % 2 else 0
  }

  function Power2(n: nat): (r: nat)
    ensures r > 0
  {
    if n == 0 then 1 else 2 * Power2(n - 1)
  }

  // As many of the highest of eight bits are gone as the kind says, and the others are as they were.
  lemma LeadBitsAre(kind: nat, b: Byte)
    requires kind < 12
    ensures kind <= 8 ==>
      LeadBits(kind, b) < Power2(8 - kind) && b == b / Power2(8 - kind) * Power2(8 - kind) + LeadBits(kind, b)
    ensures kind > 8 ==> LeadBits(kind, b) == 0
  {
    if kind <= 8 {
      assert Power2(0) == 1 && Power2(1) == 2 && Power2(2) == 4 && Power2(3) == 8 && Power2(4) == 16;
      assert Power2(5) == 32 && Power2(6) == 64 && Power2(7) == 128 && Power2(8) == 256;
      var p := Power2(8 - kind);
      assert b == b / p * p + LeadBits(kind, b);
    }
  }

  // The decoder's two registers; `codep` is an unsigned 32-bit accumulator.
  datatype Dfa = Dfa(state: nat, codep: nat)

  ghost predicate ValidDfa(d: Dfa) { d.state < 9 && d.codep < 0x1_0000_0000 }

  // One call of decode(&state, &codep, byte).  (byte & 0x3f) | (codep << 6) is written as a
  // sum: the shifted accumulator has six zero bits at its low end.
  function Step(d: Dfa, b: Byte): (r: Dfa)
    requires ValidDfa(d)
    ensures ValidDfa(r)
    ensures d.state == REJECT ==> r.state == REJECT
  {
    Dfa(Next(d.state, Kind(b)),
        if d.state != ACCEPT then b % 64 + (d.codep * 64) % 0x1_0000_0000 else LeadBits(Kind(b), b))
  }

  function Run(d: Dfa, s: seq<Byte>): (r: Dfa)
    requires ValidDfa(d)
    ensures ValidDfa(r)
    ensures d.state == REJECT ==> r.state == REJECT
    decreases |s|
  {
    if s == [] then d else Run(Step(d, s[0]), s[1..])
  }

  const INITIAL := Dfa(ACCEPT, 0)

  // The code points shown in `codep` each time the decoder comes back to the accepting state.
  function Emitted(d: Dfa, s: seq<Byte>): (r: seq<nat>)
    requires ValidDfa(d)
    decreases |s|
  {
    if s == [] then []
    else
      var d' := Step(d, s[0]);
      (if d'.state == ACCEPT then [d'.codep] else []) + Emitted(d', s[1..])
  }

  // ---------------------------------------------------------------- the grammar of RFC 3629

  predicate Tail(b: Byte) { 0x80 <= b <= 0xBF }

  predicate IsUtf8Char(c: seq<Byte>) {
    || (|c| == 1 && c[0] <= 0x7F)
    || (|c| == 2 && 0xC2 <= c[0] <= 0xDF && Tail(c[1]))
    || (|c| == 3 && Tail(c[2]) && (
            || (c[0] == 0xE0 && 0xA0 <= c[1] <= 0xBF)
            || (0xE1 <= c[0] <= 0xEC && Tail(c[1]))
            || (c[0] == 0xED && 0x80 <= c[1] <= 0x9F)
            || (0xEE <= c[0] <= 0xEF && Tail(c[1]))))
    || (|c| == 4 && Tail(c[2]) && Tail(c[3]) && (
            || (c[0] == 0xF0 && 0x90 <= c[1] <= 0xBF)
            || (0xF1 <= c[0] <= 0xF3 && Tail(c[1]))
            || (c[0] == 0xF4 && 0x80 <= c[1] <= 0x8F)))
  }

  function Concat(parts: seq<seq<Byte>>): (r: seq<Byte>) {
    if parts == [] then [] else parts[0] + Concat(parts[1..])
  }

  ghost predicate WellFormed(s: seq<Byte>) {
    exists parts: seq<seq<Byte>> :: (forall k :: 0 <= k < |parts| ==> IsUtf8Char(parts[k])) && Concat(parts) == s
  }

  // A Unicode scalar value, and its encoding by the table of section 3 of RFC 3629.
  predicate Scalar(cp: int) { 0 <= cp <= 0x10FFFF && !(0xD800 <= cp <= 0xDFFF) }

  function Encode(cp: int): (r: seq<Byte>)
    requires 0 <= cp <= 0x10FFFF
  {
    if cp < 0x80 then [cp]
    else if cp < 0x800 then [0xC0 + cp / 64, 0x80 + cp % 64]
    else if cp < 0x10000 then [0xE0 + cp / 4096, 0x80 + cp / 64 % 64, 0x80 + cp % 64]
    else [0xF0 + cp / 262144, 0x80 + cp / 4096 % 64, 0x80 + cp / 64 % 64, 0x80 + cp % 64]
  }

  ghost predicate AllScalar(cps: seq<int>) { forall k :: 0 <= k < |cps| ==> Scalar(cps[k]) }

  function EncodeAll(cps: seq<int>): (r: seq<Byte>)
    requires AllScalar(cps)
  {
    if cps == [] then [] else Encode(cps[0]) + EncodeAll(cps[1..])
  }

  // ---------------------------------------------------------------- the decoder against the encoder

  // `p` holds the bytes of a character begun but not ended; whatever legal bytes complete it,
  // the accumulator will hold the scalar value those bytes encode.
  ghost predicate Pending(state: nat, codep: nat, p: seq<Byte>) {
    match state
    case 0 => p == []
    case 2 => OneMissing(codep, p)
    case 3 => TwoMissing(codep, p, 0x80, 0xBF)
    case 4 => TwoMissing(codep, p, 0xA0, 0xBF)
    case 5 => TwoMissing(codep, p, 0x80, 0x9F)
    case 6 => ThreeMissing(codep, p, 0x90, 0xBF)
    case 7 => ThreeMissing(codep, p, 0x80, 0xBF)
    case 8 => ThreeMissing(codep, p, 0x80, 0x8F)
    case _ => false
  }

  ghost predicate OneMissing(codep: nat, p: seq<Byte>) {
    codep < 0x8000 &&
    forall b: Byte :: Tail(b) ==> Scalar(codep * 64 + b - 0x80) && Encode(codep * 64 + b - 0x80) == p + [b]
  }

  ghost predicate TwoMissing(codep: nat, p: seq<Byte>, lo: Byte, hi: Byte) {
    codep < 0x8000 && forall b: Byte :: Tail(b) && lo <= b <= hi ==> OneMissing(codep * 64 + b - 0x80, p + [b])
  }

  ghost predicate ThreeMissing(codep: nat, p: seq<Byte>, lo: Byte, hi: Byte) {
    codep < 0x8000 && forall b: Byte :: Tail(b) && lo <= b <= hi ==>
        TwoMissing(codep * 64 + b - 0x80, p + [b], 0x80, 0xBF)
  }

  lemma SixBits(a: nat, r: nat)
    requires r < 64
    ensures (a * 64 + r) / 64 == a && (a * 64 + r) % 64 == r
  {
  }

  lemma Quotients(cp: nat)
    ensures cp / 4096 == cp / 64 / 64 && cp / 262144 == cp / 64 / 64 / 64
  {
  }

  lemma EncodeThree(c: nat, b1: Byte, b2: Byte)
    requires c < 16 && Tail(b1) && Tail(b2)
    requires c == 0 ==> 0xA0 <= b1
    requires c == 13 ==> b1 <= 0x9F
    ensures var cp := (c * 64 + b1 - 0x80) * 64 + b2 - 0x80; Scalar(cp) && Encode(cp) == [0xE0 + c, b1, b2]
  {
    SixBits(c, b1 - 0x80);
    SixBits(c * 64 + b1 - 0x80, b2 - 0x80);
    Quotients((c * 64 + b1 - 0x80) * 64 + b2 - 0x80);
  }

  lemma EncodeFour(c: nat, b1: Byte, b2: Byte, b3: Byte)
    requires c < 5 && Tail(b1) && Tail(b2) && Tail(b3)
    requires c == 0 ==> 0x90 <= b1
    requires c == 4 ==> b1 <= 0x8F
    ensures var cp := ((c * 64 + b1 - 0x80) * 64 + b2 - 0x80) * 64 + b3 - 0x80;
      Scalar(cp) && Encode(cp) == [0xF0 + c, b1, b2, b3]
  {
    var x, y, z := b1 - 0x80, b2 - 0x80, b3 - 0x80;
    SixBits(c, x);
    SixBits(c * 64 + x, y);
    SixBits((c * 64 + x) * 64 + y, z);
    Quotients(((c * 64 + x) * 64 + y) * 64 + z);
  }

  lemma ThreeBytes(b0: Byte, lo: Byte, hi: Byte)
    requires 0xE0 <= b0 < 0xF0 && (b0 == 0xE0 ==> 0xA0 <= lo) && (b0 == 0xED ==> hi <= 0x9F)
    ensures TwoMissing(b0 - 0xE0, [b0], lo, hi)
  {
    var c := b0 - 0xE0;
    forall b1: Byte | Tail(b1) && lo <= b1 <= hi
      ensures OneMissing(c * 64 + b1 - 0x80, [b0] + [b1])
    {
      forall b: Byte | Tail(b)
        ensures var cp := (c * 64 + b1 - 0x80) * 64 + b - 0x80; Scalar(cp) && Encode(cp) == [b0] + [b1] + [b]
      {
        EncodeThree(c, b1, b);
      }
    }
  }

  lemma FourBytes(b0: Byte, lo: Byte, hi: Byte)
    requires 0xF0 <= b0 < 0xF5 && (b0 == 0xF0 ==> 0x90 <= lo) && (b0 == 0xF4 ==> hi <= 0x8F)
    ensures ThreeMissing(b0 - 0xF0, [b0], lo, hi)
  {
    var c := b0 - 0xF0;
    forall b1: Byte | Tail(b1) && lo <= b1 <= hi
      ensures TwoMissing(c * 64 + b1 - 0x80, [b0] + [b1], 0x80, 0xBF)
    {
      forall b2: Byte | Tail(b2)
        ensures OneMissing((c * 64 + b1 - 0x80) * 64 + b2 - 0x80, [b0] + [b1] + [b2])
      {
        forall b: Byte | Tail(b)
          ensures var cp := ((c * 64 + b1 - 0x80) * 64 + b2 - 0x80) * 64 + b - 0x80;
            Scalar(cp) && Encode(cp) == [b0] + [b1] + [b2] + [b]
        {
          EncodeFour(c, b1, b2, b);
        }
      }
    }
  }

  // What a step means, whatever state it starts from: the bytes so far are a whole character,
  // or they are pending, or no character begins with them.
  ghost predicate Means(d: Dfa, bytes: seq<Byte>) {
    d.state != REJECT ==>
      if d.state == ACCEPT then Scalar(d.codep) && Encode(d.codep) == bytes else Pending(d.state, d.codep, bytes)
  }

  lemma LeadStep(codep: nat, b: Byte)
    requires codep < 0x1_0000_0000 && 0xE0 <= b <= 0xF4
    ensures Step(Dfa(ACCEPT, codep), b) ==
      Dfa(if b == 0xE0 then 4 else if b == 0xED then 5 else if b < 0xF0 then 3
          else if b == 0xF0 then 6 else if b == 0xF4 then 8 else 7,
          if b < 0xF0 then b - 0xE0 else b - 0xF0)
  {
  }

  lemma LeadOfThree(b: Byte)
    requires 0xE0 <= b < 0xF0
    ensures Pending(if b == 0xE0 then 4 else if b == 0xED then 5 else 3, b - 0xE0, [b])
  {
    if b == 0xE0 {
      ThreeBytes(b, 0xA0, 0xBF);
    } else if b == 0xED {
      ThreeBytes(b, 0x80, 0x9F);
    } else {
      ThreeBytes(b, 0x80, 0xBF);
    }
  }

  lemma LeadOfFour(b: Byte)
    requires 0xF0 <= b <= 0xF4
    ensures Pending(if b == 0xF0 then 6 else if b == 0xF4 then 8 else 7, b - 0xF0, [b])
  {
    if b == 0xF0 {
      FourBytes(b, 0x90, 0xBF);
    } else if b == 0xF4 {
      FourBytes(b, 0x80, 0x8F);
    } else {
      FourBytes(b, 0x80, 0xBF);
    }
  }

  lemma LeadByte(codep: nat, b: Byte)
    requires codep < 0x1_0000_0000
    ensures Means(Step(Dfa(ACCEPT, codep), b), [b])
  {
    if 0xE0 <= b <= 0xF4 {
      LeadStep(codep, b);
      if b < 0xF0 { LeadOfThree(b); } else { LeadOfFour(b); }
    } else if 0xC2 <= b < 0xE0 {
      assert OneMissing(b - 0xC0, [b]);
      assert Step(Dfa(ACCEPT, codep), b) == Dfa(2, b - 0xC0);
    } else {
      assert Step(Dfa(ACCEPT, codep), b).state == if b < 0x80 then ACCEPT else REJECT;
    }
  }

  // Legal tail bytes keep the accumulator exact: no bit is lost to the 32-bit width.
  lemma TailStep(d: Dfa, b: Byte)
    requires ValidDfa(d) && d.state != ACCEPT && d.codep < 0x10_0000 && Tail(b)
    ensures Step(d, b) == Dfa(Next(d.state, Kind(b)), d.codep * 64 + b - 0x80)
  {
  }

  // The bytes that do not reject inside a character, and where they lead.
  lemma TailMoves(state: nat, b: Byte)
    requires 2 <= state < 9 && Next(state, Kind(b)) != REJECT
    ensures Tail(b) && Next(state, Kind(b)) == if state == 2 then ACCEPT else if state <= 5 then 2 else 3
    ensures state == 4 ==> 0xA0 <= b
    ensures state == 5 ==> b <= 0x9F
    ensures state == 6 ==> 0x90 <= b
    ensures state == 8 ==> b <= 0x8F
  {
  }

  lemma LastButOne(codep: nat, p: seq<Byte>, lo: Byte, hi: Byte, b: Byte)
    requires TwoMissing(codep, p, lo, hi) && Tail(b) && lo <= b <= hi
    ensures codep < 0x8000 && OneMissing(codep * 64 + b - 0x80, p + [b])
  {
    hide OneMissing;
  }

  lemma LastButTwo(codep: nat, p: seq<Byte>, lo: Byte, hi: Byte, b: Byte)
    requires ThreeMissing(codep, p, lo, hi) && Tail(b) && lo <= b <= hi
    ensures codep < 0x8000 && TwoMissing(codep * 64 + b - 0x80, p + [b], 0x80, 0xBF)
  {
    hide TwoMissing;
  }

  // What is pending after a legal tail byte, by what was pending before.
  lemma TailMeans(state: nat, codep: nat, p: seq<Byte>, b: Byte)
    requires 2 <= state < 9 && Pending(state, codep, p) && Next(state, Kind(b)) != REJECT
    ensures codep < 0x8000 && Tail(b)
    ensures state == 2 ==> Scalar(codep * 64 + b - 0x80) && Encode(codep * 64 + b - 0x80) == p + [b]
    ensures 3 <= state <= 5 ==> OneMissing(codep * 64 + b - 0x80, p + [b])
    ensures 6 <= state ==> TwoMissing(codep * 64 + b - 0x80, p + [b], 0x80, 0xBF)
  {
    hide Next, Kind, Encode, Scalar, OneMissing, TwoMissing, ThreeMissing;
    TailMoves(state, b);
    match state
    case 2 => LastByte(codep, p, b);
    case 3 => LastButOne(codep, p, 0x80, 0xBF, b);
    case 4 => LastButOne(codep, p, 0xA0, 0xBF, b);
    case 5 => LastButOne(codep, p, 0x80, 0x9F, b);
    case 6 => LastButTwo(codep, p, 0x90, 0xBF, b);
    case 7 => LastButTwo(codep, p, 0x80, 0xBF, b);
    case 8 => LastButTwo(codep, p, 0x80, 0x8F, b);
    case _ =>
  }

  lemma LastByte(codep: nat, p: seq<Byte>, b: Byte)
    requires OneMissing(codep, p) && Tail(b)
    ensures codep < 0x8000 && Scalar(codep * 64 + b - 0x80) && Encode(codep * 64 + b - 0x80) == p + [b]
  {
    hide Encode, Scalar;
  }

  lemma StepMoves(d: Dfa, b: Byte)
    requires ValidDfa(d)
    ensures Step(d, b).state == Next(d.state, Kind(b)) && d.state < 9
  {
    hide Next, Kind;
  }

  lemma PendingStates(state: nat, codep: nat, p: seq<Byte>)
    requires state != ACCEPT && Pending(state, codep, p)
    ensures 2 <= state < 9
  {
    hide OneMissing, TwoMissing, ThreeMissing;
  }

  // A character that is whole, or still pending.
  lemma MeansIt(state: nat, codep: nat, bytes: seq<Byte>)
    requires state == ACCEPT ==> Scalar(codep) && Encode(codep) == bytes
    requires state == 2 ==> OneMissing(codep, bytes)
    requires state == 3 ==> TwoMissing(codep, bytes, 0x80, 0xBF)
    requires state in {ACCEPT, 2, 3}
    ensures Means(Dfa(state, codep), bytes)
  {
    hide Scalar, Encode, OneMissing, TwoMissing;
  }

  // A step inside a character keeps the pending property or ends the character.
  lemma TailByte(d: Dfa, p: seq<Byte>, b: Byte)
    requires ValidDfa(d) && d.state != ACCEPT && Pending(d.state, d.codep, p)
    ensures Means(Step(d, b), p + [b])
  {
    if Step(d, b).state != REJECT {
      hide *;
      StepMoves(d, b);
      PendingStates(d.state, d.codep, p);
      TailMoves(d.state, b);
      TailMeans(d.state, d.codep, p, b);
      TailStep(d, b);
      MeansIt(Step(d, b).state, Step(d, b).codep, p + [b]);
    }
  }

  lemma EncodeAllCons(cp: int, cps: seq<int>)
    requires Scalar(cp) && AllScalar(cps)
    ensures AllScalar([cp] + cps) && EncodeAll([cp] + cps) == Encode(cp) + EncodeAll(cps)
  {
    assert ([cp] + cps)[1..] == cps;
  }

  // Whatever the decoder accepts is the encoding of the code points it emitted.
  lemma {:induction false} AcceptedIsEncoded(d: Dfa, p: seq<Byte>, s: seq<Byte>)
    requires ValidDfa(d) && Pending(d.state, d.codep, p)
    requires Run(d, s).state == ACCEPT
    ensures AllScalar(Emitted(d, s)) && EncodeAll(Emitted(d, s)) == p + s
    decreases |s|
  {
    if s != [] {
      var d' := Step(d, s[0]);
      assert p + s == (p + [s[0]]) + s[1..];
      assert Means(d', p + [s[0]]) by {
        if d.state == ACCEPT {
          LeadByte(d.codep, s[0]);
          assert p + [s[0]] == [s[0]];
        } else {
          TailByte(d, p, s[0]);
        }
      }
      if d'.state == ACCEPT {
        AcceptedIsEncoded(d', [], s[1..]);
        EncodeAllCons(d'.codep, Emitted(d', s[1..]));
        assert [] + s[1..] == s[1..];
      } else {
        AcceptedIsEncoded(d', p + [s[0]], s[1..]);
        assert [] + Emitted(d', s[1..]) == Emitted(d', s[1..]);
      }
    }
  }

  lemma {:induction false} RunConcat(d: Dfa, s: seq<Byte>, t: seq<Byte>)
    requires ValidDfa(d)
    ensures Run(d, s + t) == Run(Run(d, s), t)
    ensures Emitted(d, s + t) == Emitted(d, s) + Emitted(Run(d, s), t)
    decreases |s|
  {
    if s == [] {
      assert s + t == t;
    } else {
      assert (s + t)[1..] == s[1..] + t;
      RunConcat(Step(d, s[0]), s[1..], t);
    }
  }

  lemma RunCons(d: Dfa, b: Byte, t: seq<Byte>)
    requires ValidDfa(d)
    ensures var d' := Step(d, b);
      && Run(d, [b] + t) == Run(d', t)
      && Emitted(d, [b] + t) == (if d'.state == ACCEPT then [d'.codep] else []) + Emitted(d', t)
  {
    assert ([b] + t)[1..] == t;
  }

  lemma RunOfShort(d: Dfa, cp: int)
    requires ValidDfa(d) && d.state == ACCEPT && Scalar(cp) && cp < 0x800
    ensures Run(d, Encode(cp)) == Dfa(ACCEPT, cp) && Emitted(d, Encode(cp)) == [cp]
  {
    var e := Encode(cp);
    if cp < 0x80 {
      RunCons(d, e[0], []);
      assert e == [e[0]] + [];
    } else {
      RunCons(d, e[0], [e[1]]);
      RunCons(Step(d, e[0]), e[1], []);
      assert e == [e[0]] + [e[1]] && [e[1]] == [e[1]] + [];
      TailStep(Step(d, e[0]), e[1]);
    }
  }

  lemma ThreeIsChar(cp: int)
    requires Scalar(cp) && 0x800 <= cp < 0x10000
    ensures var e := Encode(cp);
      && |e| == 3 && IsUtf8Char(e)
      && cp == ((e[0] as int - 0xE0) * 64 + e[1] as int - 0x80) * 64 + e[2] as int - 0x80
  {
    Quotients(cp);
  }

  lemma RunOneMore(d: Dfa, b: Byte)
    requires ValidDfa(d) && d.state == 2 && d.codep < 0x8000 && Tail(b)
    ensures var cp := d.codep * 64 + b - 0x80; Run(d, [b]) == Dfa(ACCEPT, cp) && Emitted(d, [b]) == [cp]
  {
    TailStep(d, b);
    RunCons(d, b, []);
    assert [b] == [b] + [];
  }

  lemma RunTwoMore(d: Dfa, b1: Byte, b2: Byte)
    requires ValidDfa(d) && d.state in {3, 4, 5} && d.codep < 0x200 && Tail(b1) && Tail(b2)
    requires (d.state == 4 ==> 0xA0 <= b1) && (d.state == 5 ==> b1 <= 0x9F)
    ensures var cp := (d.codep * 64 + b1 - 0x80) * 64 + b2 - 0x80;
      Run(d, [b1] + [b2]) == Dfa(ACCEPT, cp) && Emitted(d, [b1] + [b2]) == [cp]
  {
    TailStep(d, b1);
    RunCons(d, b1, [b2]);
    RunOneMore(Dfa(2, d.codep * 64 + b1 - 0x80), b2);
    assert [] + Emitted(Step(d, b1), [b2]) == Emitted(Step(d, b1), [b2]);
  }

  lemma RunOfThree(d: Dfa, cp: int)
    requires ValidDfa(d) && d.state == ACCEPT && Scalar(cp) && 0x800 <= cp < 0x10000
    ensures Run(d, Encode(cp)) == Dfa(ACCEPT, cp) && Emitted(d, Encode(cp)) == [cp]
  {
    var e := Encode(cp);
    ThreeIsChar(cp);
    LeadStep(d.codep, e[0]);
    RunCons(d, e[0], [e[1]] + [e[2]]);
    RunTwoMore(Step(d, e[0]), e[1], e[2]);
    assert e == [e[0]] + ([e[1]] + [e[2]]);
  }

  lemma FourIsChar(cp: int)
    requires 0x10000 <= cp <= 0x10FFFF
    ensures var e := Encode(cp);
      && |e| == 4 && IsUtf8Char(e)
      && cp == (((e[0] as int - 0xF0) * 64 + e[1] as int - 0x80) * 64 + e[2] as int - 0x80) * 64 + e[3] as int - 0x80
  {
    Quotients(cp);
  }

  lemma RunOfFour(d: Dfa, cp: int)
    requires ValidDfa(d) && d.state == ACCEPT && Scalar(cp) && 0x10000 <= cp
    ensures Run(d, Encode(cp)) == Dfa(ACCEPT, cp) && Emitted(d, Encode(cp)) == [cp]
  {
    var e := Encode(cp);
    FourIsChar(cp);
    LeadStep(d.codep, e[0]);
    var d1 := Step(d, e[0]);
    TailStep(d1, e[1]);
    RunCons(d, e[0], [e[1]] + ([e[2]] + [e[3]]));
    RunCons(d1, e[1], [e[2]] + [e[3]]);
    RunTwoMore(Step(d1, e[1]), e[2], e[3]);
    assert e == [e[0]] + ([e[1]] + ([e[2]] + [e[3]]));
  }

  // The decoder, fed the encoding of one scalar value, accepts with that value in its accumulator.
  lemma RunOfEncode(d: Dfa, cp: int)
    requires ValidDfa(d) && d.state == ACCEPT && Scalar(cp)
    ensures Run(d, Encode(cp)) == Dfa(ACCEPT, cp) && Emitted(d, Encode(cp)) == [cp]
  {
    if cp < 0x800 { RunOfShort(d, cp); } else if cp < 0x10000 { RunOfThree(d, cp); } else { RunOfFour(d, cp); }
  }

  lemma {:induction false} EncodedIsAccepted(d: Dfa, cps: seq<int>)
    requires ValidDfa(d) && d.state == ACCEPT && AllScalar(cps)
    ensures Run(d, EncodeAll(cps)).state == ACCEPT
    ensures Emitted(d, EncodeAll(cps)) == cps
    decreases |cps|
  {
    if cps != [] {
      RunOfEncode(d, cps[0]);
      RunConcat(d, Encode(cps[0]), EncodeAll(cps[1..]));
      EncodedIsAccepted(Dfa(ACCEPT, cps[0]), cps[1..]);
    }
  }

  // ---------------------------------------------------------------- the decoder against the grammar

  // The scalar value of one grammatical character.
  function ValueOf(c: seq<Byte>): (r: int)
    requires IsUtf8Char(c)
    ensures Scalar(r)
  {
    if |c| == 1 then c[0]
    else if |c| == 2 then (c[0] as int - 0xC0) * 64 + c[1] as int - 0x80
    else if |c| == 3 then ((c[0] as int - 0xE0) * 64 + c[1] as int - 0x80) * 64 + c[2] as int - 0x80
    else (((c[0] as int - 0xF0) * 64 + c[1] as int - 0x80) * 64 + c[2] as int - 0x80) * 64 + c[3] as int - 0x80
  }

  lemma CharIsEncoding(c: seq<Byte>)
    requires IsUtf8Char(c)
    ensures Encode(ValueOf(c)) == c
  {
    if |c| == 3 { EncodeThree(c[0] - 0xE0, c[1], c[2]); }
    if |c| == 4 { EncodeFour(c[0] - 0xF0, c[1], c[2], c[3]); }
  }

  lemma EncodingIsChar(cp: int)
    requires Scalar(cp)
    ensures IsUtf8Char(Encode(cp))
  {
    if 0x800 <= cp < 0x10000 { ThreeIsChar(cp); }
    if 0x10000 <= cp { FourIsChar(cp); }
  }

  // The productions of section 4 and the encoder of section 3 describe the same byte strings.
  lemma CharIffEncoding(c: seq<Byte>)
    ensures IsUtf8Char(c) <==> exists cp :: Scalar(cp) && Encode(cp) == c
  {
    hide Encode, IsUtf8Char, ValueOf;
    if IsUtf8Char(c) { CharIsEncoding(c); }
    if cp :| Scalar(cp) && Encode(cp) == c { EncodingIsChar(cp); }
  }

  lemma {:induction false} PartsAreEncoded(parts: seq<seq<Byte>>) returns (cps: seq<int>)
    requires forall k :: 0 <= k < |parts| ==> IsUtf8Char(parts[k])
    ensures AllScalar(cps) && EncodeAll(cps) == Concat(parts)
  {
    cps := [];
    if parts != [] {
      var rest := PartsAreEncoded(parts[1..]);
      CharIffEncoding(parts[0]);
      var cp :| Scalar(cp) && Encode(cp) == parts[0];
      EncodeAllCons(cp, rest);
      cps := [cp] + rest;
    }
  }

  lemma {:induction false} EncodedIsParts(cps: seq<int>) returns (parts: seq<seq<Byte>>)
    requires AllScalar(cps)
    ensures (forall k :: 0 <= k < |parts| ==> IsUtf8Char(parts[k])) && Concat(parts) == EncodeAll(cps)
  {
    parts := [];
    if cps != [] {
      var rest := EncodedIsParts(cps[1..]);
      CharIffEncoding(Encode(cps[0]));
      parts := [Encode(cps[0])] + rest;
      assert parts[1..] == rest;
    }
  }

  // The decoder ends in the accepting state exactly on the strings of the grammar.
  lemma AcceptsExactlyTheGrammar(s: seq<Byte>)
    ensures Run(INITIAL, s).state == ACCEPT <==> WellFormed(s)
  {
    if Run(INITIAL, s).state == ACCEPT {
      AcceptedIsEncoded(INITIAL, [], s);
      assert [] + s == s;
      var parts := EncodedIsParts(Emitted(INITIAL, s));
    }
    if parts: seq<seq<Byte>> :| (forall k :: 0 <= k < |parts| ==> IsUtf8Char(parts[k])) && Concat(parts) == s {
      var cps := PartsAreEncoded(parts);
      EncodedIsAccepted(INITIAL, cps);
    }
  }

  // On an accepted string, and only there, the code points shown are scalar values that encode to
  // the string, and there is no other list of such.
  lemma EmittedIsTheDecoding(s: seq<Byte>, cps: seq<int>)
    ensures AllScalar(cps) && EncodeAll(cps) == s <==> Run(INITIAL, s).state == ACCEPT && Emitted(INITIAL, s) == cps
  {
    if AllScalar(cps) { EncodedIsAccepted(INITIAL, cps); }
    if Run(INITIAL, s).state == ACCEPT {
      AcceptedIsEncoded(INITIAL, [], s);
      assert [] + s == s;
    }
  }

  // The shortest legal way to end the character begun in a state.
  function Completion(state: nat): (r: seq<Byte>) {
    match state
    case 2 => [0x80]
    case 3 => [0x80] + [0x80]
    case 4 => [0xA0] + [0x80]
    case 5 => [0x80] + [0x80]
    case 6 => [0x90] + ([0x80] + [0x80])
    case 7 => [0x80] + ([0x80] + [0x80])
    case 8 => [0x80] + ([0x80] + [0x80])
    case _ => []
  }

  lemma OneByteMore(d: Dfa)
    requires ValidDfa(d) && d.state == 2
    ensures Run(d, [0x80]).state == ACCEPT
  {
    RunCons(d, 0x80, []);
    assert [0x80] == [0x80] + [];
  }

  lemma TwoBytesMore(d: Dfa, b: Byte)
    requires ValidDfa(d) && Next(d.state, Kind(b)) == 2
    ensures Run(d, [b] + [0x80]).state == ACCEPT
  {
    RunCons(d, b, [0x80]);
    OneByteMore(Step(d, b));
  }

  lemma CompletionAccepts(d: Dfa)
    requires ValidDfa(d) && d.state != REJECT
    ensures Run(d, Completion(d.state)).state == ACCEPT
  {
    if d.state == 2 {
      OneByteMore(d);
    } else if d.state in {3, 4, 5} {
      TwoBytesMore(d, if d.state == 4 then 0xA0 else 0x80);
    } else if d.state in {6, 7, 8} {
      var b := if d.state == 6 then 0x90 else 0x80;
      RunCons(d, b, [0x80] + [0x80]);
      TwoBytesMore(Step(d, b), 0x80);
    }
  }

  // What was received can still become well-formed text.
  ghost predicate Hopeful(s: seq<Byte>) { exists t: seq<Byte> :: WellFormed(s + t) }

  // Rejection is as early as it can be: the decoder is out of the rejecting state exactly
  // while some continuation of the bytes read is well-formed.
  lemma RejectsExactlyTheHopeless(s: seq<Byte>)
    ensures Run(INITIAL, s).state != REJECT <==> Hopeful(s)
  {
    var d := Run(INITIAL, s);
    if d.state != REJECT {
      var t := Completion(d.state);
      CompletionAccepts(d);
      RunConcat(INITIAL, s, t);
      AcceptsExactlyTheGrammar(s + t);
    }
    if t: seq<Byte> :| WellFormed(s + t) {
      AcceptsExactlyTheGrammar(s + t);
      RunConcat(INITIAL, s, t);
    }
  }

  // ---------------------------------------------------------------- the imperative validator

  // utf8_validator::decode: two look-ups in the literal table.
  method DecodeByte(state: nat, codep: nat, byte: Byte) returns (state': nat, codep': nat)
    requires ValidDfa(Dfa(state, codep))
    ensures Dfa(state', codep') == Step(Dfa(state, codep), byte)
  {
    TableKind(byte);
    var kind := Utf8d(byte);
    codep' := if state != ACCEPT then byte % 64 + (codep * 64) % 0x1_0000_0000 else LeadBits(kind, byte);
    TableNext(state, kind);
    state' := Utf8d(256 + state * 16 + kind);
  }

  lemma OneByteLonger(seen: seq<Byte>, byte: Byte)
    ensures Run(INITIAL, seen + [byte]) == Step(Run(INITIAL, seen), byte)
  {
    RunConcat(INITIAL, seen, [byte]);
    RunCons(Run(INITIAL, seen), byte, []);
    assert [byte] + [] == [byte];
  }

  class Validator {
    var state: nat
    var codepoint: nat

    ghost predicate Valid()
      reads this
    {
      ValidDfa(Registers())
    }

    function Registers(): (r: Dfa)
      reads this
    {
      Dfa(state, codepoint)
    }

    constructor ()
      ensures Valid() && Registers() == INITIAL
    {
      state, codepoint := ACCEPT, 0;
    }

    // False exactly at the octet after which no continuation is valid.
    method Consume(byte: Byte) returns (ok: bool)
      requires Valid()
      modifies this
      ensures Valid() && Registers() == Step(old(Registers()), byte) && (ok <==> Registers().state != REJECT)
      ensures forall seen :: old(Registers()) == Run(INITIAL, seen) ==>
                && Registers() == Run(INITIAL, seen + [byte])
                && (ok <==> Hopeful(seen + [byte]))
    {
      hide Run, Hopeful, Step;
      ghost var before := Registers();
      state, codepoint := DecodeByte(state, codepoint, byte);
      ok := state != REJECT;
      forall seen | before == Run(INITIAL, seen)
        ensures Registers() == Run(INITIAL, seen + [byte]) && (ok <==> Hopeful(seen + [byte]))
      {
        OneByteLonger(seen, byte);
        RejectsExactlyTheHopeless(seen + [byte]);
      }
    }

    // Stops at the first byte that rejects.
    method Decode(bytes: seq<Byte>) returns (ok: bool)
      requires Valid()
      modifies this
      ensures Valid()
      ensures ok <==> bytes == [] || Run(old(Registers()), bytes).state != REJECT
      ensures ok ==> Registers() == Run(old(Registers()), bytes)
      ensures !ok ==> exists k ::
                && 0 < k <= |bytes| && Run(old(Registers()), bytes[..k]).state == REJECT
                && (forall j :: 0 < j < k ==> Run(old(Registers()), bytes[..j]).state != REJECT)
                && Registers() == Run(old(Registers()), bytes[..k])
    {
      ghost var start := Registers();
      var i := 0;
      while i < |bytes|
        invariant 0 <= i <= |bytes| && Valid()
        invariant Registers() == Run(start, bytes[..i])
        invariant i > 0 ==> state != REJECT
        invariant forall j :: 0 < j <= i ==> Run(start, bytes[..j]).state != REJECT
      {
        state, codepoint := DecodeByte(state, codepoint, bytes[i]);
        RunCons(Run(start, bytes[..i]), bytes[i], []);
        assert [bytes[i]] + [] == [bytes[i]];
        RunConcat(start, bytes[..i], [bytes[i]]);
        assert bytes[..i + 1] == bytes[..i] + [bytes[i]];
        if state == REJECT {
          RunConcat(start, bytes[..i + 1], bytes[i + 1..]);
          assert bytes == bytes[..i + 1] + bytes[i + 1..];
          return false;
        }
        i := i + 1;
      }
      assert bytes[..i] == bytes;
      ok := true;
    }

    method Complete() returns (ok: bool)
      requires Valid()
      ensures ok <==> Registers().state == ACCEPT
    {
      ok := state == ACCEPT;
    }

    // Whatever came before, it accepts exactly well-formed text from here on.
    method Reset()
      modifies this
      ensures Valid() && Registers() == INITIAL
      ensures forall s :: Run(Registers(), s).state == ACCEPT <==> WellFormed(s)
    {
      hide Run, WellFormed;
      forall s
        ensures Run(INITIAL, s).state == ACCEPT <==> WellFormed(s)
      {
        AcceptsExactlyTheGrammar(s);
      }
      state, codepoint := ACCEPT, 0;
    }
  }

  // The one-call form decides the grammar.
  method Validate(s: seq<Byte>) returns (ok: bool)
    ensures ok <==> WellFormed(s)
  {
    AcceptsExactlyTheGrammar(s);
    var v := new Validator();
    var decoded := v.Decode(s);
    if !decoded {
      return false;
    }
    ok := v.Complete();
  }
}

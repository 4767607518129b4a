/** Text messages as they are received: frames with a masking key each, delivered in pieces of any
    size, unmasked in place and validated as they come.  consume, process_payload_bytes and
    finalize_message of libs/websocketpp/processors/hybi13.hpp, for data frames and without
    compression. */
module TextMessages {
  import opened Bytes
  import opened FrameMasking
  import opened Utf8Validator

  const CONTINUATION: bv8 := 0x0
  const TEXT: bv8 := 0x1
  const BINARY: bv8 := 0x2
  // Opcodes from here on are those of control frames.
  const CONTROL: bv8 := 0x8

  function AsBytes(s: seq<bv8>): (r: seq<Byte>) { seq(|s|, i requires 0 <= i < |s| => s[i] as int) }

  lemma BytesInARow(a: seq<bv8>, b: seq<bv8>)
    ensures AsBytes(a + b) == AsBytes(a) + AsBytes(b)
  {
  }

  lemma HopelessStays(s: seq<Byte>, t: seq<Byte>)
    requires !Hopeful(s)
    ensures !Hopeful(s + t) && !WellFormed(s + t)
  {
    hide WellFormed;
    forall u: seq<Byte>
      ensures !WellFormed(s + t + u)
    {
      assert s + t + u == s + (t + u);
    }
    assert s + t + [] == s + t;
  }

  lemma NothingYet()
    ensures Hopeful([]) && Run(INITIAL, []) == INITIAL
  {
    hide WellFormed;
    var none: seq<Byte> := [];
    AcceptsExactlyTheGrammar(none);
    assert none + none == none;
  }

  // Unmasking one piece of a frame leaves the key where the next piece goes on.
  lemma OnePiece(piece: seq<bv8>, prepared: Word, key: seq<bv8>, offset: nat, m: Machine)
    requires IsKey(key) && ValidMachine(m) && Holds(prepared, key, offset, m)
    ensures |prepared| == m.size
    ensures Output(Octets(piece), prepared, m) == Masked(piece, key, offset)
    ensures Holds(NextKey(Octets(piece), prepared, m), key, offset + |piece|, m)
  {
    hide Output, NextKey, Masked, Holds;
    HeldWord(prepared, key, offset, m);
    OneCall(Octets(piece), prepared, key, offset, m);
  }

  // The automaton after one more piece.
  lemma RunOn(before: seq<Byte>, piece: seq<Byte>)
    ensures Run(INITIAL, before + piece) == Run(Run(INITIAL, before), piece)
    ensures Run(INITIAL, before + piece).state != REJECT <==> Hopeful(before + piece)
  {
    hide Run, WellFormed;
    RunConcat(INITIAL, before, piece);
    RejectsExactlyTheHopeless(before + piece);
  }

  // msg_metadata of a text message, and its payload so far
  class TextMessage {
    const machine: Machine
    const validator: Validator
    var preparedKey: Word
    var payload: seq<Byte>
    // The key of the frame under way, and how many octets have been unmasked with it.
    ghost var key: seq<bv8>
    ghost var offset: nat

    ghost predicate Valid()
      reads this, validator
    {
      && ValidMachine(machine) && IsKey(key) && Holds(preparedKey, key, offset, machine)
      && validator.Registers() == Run(INITIAL, payload) && Hopeful(payload)
    }

    constructor (machine: Machine, key: seq<bv8>)
      requires ValidMachine(machine) && IsKey(key)
      ensures Valid() && fresh(validator) && payload == [] && this.machine == machine
    {
      hide Prepared, Holds, Hopeful;
      PreparedHolds(key, machine);
      NothingYet();
      this.machine, this.key, offset, payload := machine, key, 0, [];
      preparedKey := Prepared(key, machine);
      validator := new Validator();
    }

    // each frame starts a new masking key, all other state remains
    method NextFrame(key: seq<bv8>)
      requires Valid() && IsKey(key)
      modifies this`preparedKey, this`key, this`offset
      ensures Valid() && this.key == key && offset == 0
    {
      hide Prepared, Holds, Hopeful;
      PreparedHolds(key, machine);
      preparedKey := Prepared(key, machine);
      this.key, offset := key, 0;
    }

    // process_payload_bytes: false as soon as no continuation could make the text well-formed
    method ProcessPayloadBytes(buffer: array<bv8>, masked: bool) returns (ok: bool)
      requires Valid()
      modifies this`preparedKey, this`payload, this`offset, validator, buffer
      ensures buffer[..] == if masked then Masked(old(buffer[..]), key, old(offset)) else old(buffer[..])
      ensures payload == old(payload) + AsBytes(buffer[..])
      ensures offset == old(offset) + if masked then buffer.Length else 0
      ensures ok <==> Hopeful(payload)
      ensures ok ==> Valid()
    {
      hide Holds, Masked, Output, NextKey, Hopeful, Run;
      OnePiece(buffer[..], preparedKey, key, offset, machine);
      if masked {
        assert buffer[..buffer.Length] == buffer[..];
        preparedKey := ByteMaskCirc(buffer, buffer, buffer.Length, preparedKey, machine);
        offset := offset + buffer.Length;
        assert buffer[..buffer.Length] == buffer[..];
      }
      RunOn(payload, AsBytes(buffer[..]));
      ok := validator.Decode(AsBytes(buffer[..]));
      if buffer.Length == 0 { assert payload + AsBytes(buffer[..]) == payload; }
      payload := payload + AsBytes(buffer[..]);
    }

    // finalize_message: the end of the text is checked only if the header read last, which is
    // that of the frame with fin, has the opcode for text.
    method FinalizeMessage(opcode: bv8) returns (ok: bool)
      requires Valid()
      ensures ok <==> (opcode == TEXT ==> WellFormed(payload))
    {
      hide Holds, Hopeful, Run, WellFormed;
      AcceptsExactlyTheGrammar(payload);
      ok := true;
      if opcode == TEXT { ok := validator.Complete(); }
    }
  }

  // ---------------------------------------------------------------- whole messages

  // One data frame as it comes in: what its header says, and its payload in pieces.
  datatype Frame = Frame(opcode: bv8, fin: bool, masked: bool, key: seq<bv8>, pieces: seq<seq<bv8>>)

  function Joined(pieces: seq<seq<bv8>>): (r: seq<bv8>) { if pieces == [] then [] else pieces[0] + Joined(pieces[1..]) }

  function Unmasked(f: Frame): (r: seq<bv8>)
    requires IsKey(f.key)
  {
    if f.masked then Masked(Joined(f.pieces), f.key, 0) else Joined(f.pieces)
  }

  ghost predicate Keyed(frames: seq<Frame>) { forall i :: 0 <= i < |frames| ==> IsKey(frames[i].key) }

  function Text(frames: seq<Frame>): (r: seq<bv8>)
    requires Keyed(frames)
  {
    if frames == [] then [] else Unmasked(frames[0]) + Text(frames[1..])
  }

  // The rest of a frame, from some octet on.
  function RestOf(f: Frame, pieces: seq<seq<bv8>>, offset: nat): (r: seq<bv8>)
    requires IsKey(f.key)
  {
    if f.masked then Masked(Joined(pieces), f.key, offset) else Joined(pieces)
  }

  lemma RestTurn(f: Frame, pieces: seq<seq<bv8>>, offset: nat)
    requires IsKey(f.key) && pieces != []
    ensures RestOf(f, pieces, offset)
         == (if f.masked then Masked(pieces[0], f.key, offset) else pieces[0])
            + RestOf(f, pieces[1..], offset + if f.masked then |pieces[0]| else 0)
  {
    MaskedConcat(pieces[0], Joined(pieces[1..]), f.key, offset);
    hide Masked;
  }

  // The payload of one frame, piece by piece; false if the message is beyond help.
  method ReceiveFrame(m: TextMessage, f: Frame) returns (ok: bool)
    requires m.Valid() && IsKey(f.key) && m.key == f.key && m.offset == 0
    modifies m`preparedKey, m`payload, m`offset, m.validator
    ensures ok ==> m.Valid() && m.payload == old(m.payload) + AsBytes(Unmasked(f))
    ensures !ok ==> !Hopeful(old(m.payload) + AsBytes(Unmasked(f)))
  {
    hide Holds, Masked, Hopeful, Run, Joined, RestOf, AsBytes, Unmasked, WellFormed;
    ghost var whole := old(m.payload) + AsBytes(Unmasked(f));
    AllToCome(f);
    var i := 0;
    assert f.pieces[0..] == f.pieces;
    while i < |f.pieces|
      invariant 0 <= i <= |f.pieces| && m.Valid() && m.key == f.key
      invariant m.payload + AsBytes(RestOf(f, f.pieces[i..], m.offset)) == whole
    {
      ghost var rest := f.pieces[i + 1..];
      assert f.pieces[i..][0] == f.pieces[i] && f.pieces[i..][1..] == rest;
      RestTurn(f, f.pieces[i..], m.offset);
      ghost var before, offset := m.payload, m.offset;
      var buffer := new bv8[|f.pieces[i]|](j requires 0 <= j < |f.pieces[i]| => f.pieces[i][j]);
      assert buffer[..] == f.pieces[i];
      ok := m.ProcessPayloadBytes(buffer, f.masked);
      BytesInARow(buffer[..], RestOf(f, rest, m.offset));
      InARow(before, AsBytes(buffer[..]), AsBytes(RestOf(f, rest, m.offset)));
      if !ok {
        HopelessStays(m.payload, AsBytes(RestOf(f, rest, m.offset)));
        return;
      }
      i := i + 1;
    }
    NothingToCome(f, f.pieces[i..], m.offset);
    assert m.payload + [] == m.payload;
    ok := true;
  }

  lemma InARow(a: seq<Byte>, b: seq<Byte>, c: seq<Byte>)
    ensures a + (b + c) == a + b + c
  {
  }

  lemma AllToCome(f: Frame)
    requires IsKey(f.key)
    ensures RestOf(f, f.pieces, 0) == Unmasked(f)
  {
  }

  lemma NothingToCome(f: Frame, pieces: seq<seq<bv8>>, offset: nat)
    requires IsKey(f.key) && pieces == []
    ensures AsBytes(RestOf(f, pieces, offset)) == []
  {
  }

  lemma TextTurn(frames: seq<Frame>, i: nat)
    requires Keyed(frames) && i < |frames|
    ensures AsBytes(Text(frames[i..])) == AsBytes(Unmasked(frames[i])) + AsBytes(Text(frames[i + 1..]))
  {
    hide Unmasked;
    assert frames[i..][0] == frames[i] && frames[i..][1..] == frames[i + 1..];
    BytesInARow(Unmasked(frames[i]), Text(frames[i + 1..]));
  }

  // validate_incoming_basic_header, for a data frame without extension bits
  predicate HeaderPasses(f: Frame, isServer: bool, newMessage: bool) {
    f.opcode <= BINARY && (newMessage <==> f.opcode != CONTINUATION) && f.masked == isServer
  }

  // The data frames of one text message, up to the one with fin.
  ghost predicate Starts(frames: seq<Frame>) {
    && frames != [] && frames[0].opcode == TEXT && Keyed(frames)
    && (forall i :: 0 <= i < |frames| ==> frames[i].opcode < CONTROL && (frames[i].fin <==> i == |frames| - 1))
  }

  ghost predicate HeadersPass(frames: seq<Frame>, isServer: bool) {
    forall i :: 0 <= i < |frames| ==> HeaderPasses(frames[i], isServer, i == 0)
  }

  // The opcodes in numbers, section 5.2 of RFC 6455: 0 continues a message, 1 and 2 begin one of text or
  // of binary data, 3 to 7 are reserved and those from 8 on are control frames.
  lemma Opcodes(f: Frame, isServer: bool, newMessage: bool, frames: seq<Frame>)
    ensures HeaderPasses(f, isServer, newMessage) <==>
             f.masked == isServer && if newMessage then f.opcode == 1 || f.opcode == 2 else f.opcode == 0
    ensures Starts(frames) <==>
      && frames != [] && frames[0].opcode == 1 && Keyed(frames)
      && (forall i :: 0 <= i < |frames| ==> frames[i].opcode <= 7 && (frames[i].fin <==> i == |frames| - 1))
  {
    assert HeaderPasses(f, isServer, newMessage) ==> f.opcode in {0, 1, 2};
    assert forall i :: 0 <= i < |frames| ==> (frames[i].opcode <= 7 <==> frames[i].opcode < CONTROL);
  }

  // Servers take masked frames only and clients unmasked ones; whatever follows the first frame
  // continues it.
  lemma HeadersDemand(frames: seq<Frame>, isServer: bool)
    requires Starts(frames)
    ensures HeadersPass(frames, isServer) <==>
      && (forall i :: 0 <= i < |frames| ==> frames[i].masked == isServer)
      && (forall i :: 0 < i < |frames| ==> frames[i].opcode == 0)
  {
    assert forall i :: 0 <= i < |frames| ==>
      (HeaderPasses(frames[i], isServer, i == 0) <==>
         frames[i].masked == isServer && (i == 0 || frames[i].opcode == 0));
  }

  // An unmasked frame to a server, a masked one to a client, and a second text frame within a
  // message are refused.
  lemma RefusedHeaders(key: seq<bv8>, pieces: seq<seq<bv8>>)
    requires IsKey(key)
    ensures var frames := [Frame(0x1, true, false, key, pieces)];
      Starts(frames) && !HeadersPass(frames, true) && HeadersPass(frames, false)
    ensures var frames := [Frame(0x1, true, true, key, pieces)];
      Starts(frames) && !HeadersPass(frames, false) && HeadersPass(frames, true)
    ensures var frames := [Frame(0x1, false, true, key, pieces), Frame(0x1, true, true, key, pieces)];
      Starts(frames) && !HeadersPass(frames, true)
    ensures var frames := [Frame(0x1, false, true, key, pieces), Frame(0x0, true, true, key, pieces)];
      Starts(frames) && HeadersPass(frames, true)
    ensures !Starts([Frame(0x2, true, true, key, pieces)])
  {
    var text, unmasked := Frame(0x1, true, true, key, pieces), Frame(0x1, true, false, key, pieces);
    assert [unmasked][0] == unmasked && [text][0] == text;
    var first, again := Frame(0x1, false, true, key, pieces), Frame(0x0, true, true, key, pieces);
    assert [first, text][1] == text && [first, again][1] == again;
  }

  // What is asked of the text: to be well-formed if it came in one frame, and otherwise no more
  // than that it could have gone on to be.
  ghost predicate Passes(frames: seq<Frame>)
    requires Keyed(frames)
  {
    if |frames| == 1 then WellFormed(AsBytes(Text(frames))) else Hopeful(AsBytes(Text(frames)))
  }

  // A text message in any pieces is accepted exactly if its headers pass and its text, if it
  // came in one frame, is well-formed UTF-8.  Whether a code point is cut in two by a piece
  // makes no difference; but of a text in several frames the end is never checked, because by
  // then the header is that of a continuation.
  method ReceiveFrames(machine: Machine, isServer: bool, frames: seq<Frame>) returns (ok: bool)
    requires ValidMachine(machine) && Starts(frames)
    ensures ok <==> HeadersPass(frames, isServer) && Passes(frames)
  {
    hide Holds, Hopeful, Run, Text, Unmasked, WellFormed, AsBytes;
    var m := new TextMessage(machine, frames[0].key);
    ok := true;
    var i := 0;
    assert frames[0..] == frames;
    assert m.payload + AsBytes(Text(frames[0..])) == AsBytes(Text(frames));
    while i < |frames|
      invariant 0 <= i <= |frames| && m.Valid() && fresh(m) && fresh(m.validator)
      invariant m.payload + AsBytes(Text(frames[i..])) == AsBytes(Text(frames))
      invariant forall j :: 0 <= j < i ==> HeaderPasses(frames[j], isServer, j == 0)
      invariant i == |frames| ==> (ok <==> Passes(frames))
    {
      if !HeaderPasses(frames[i], isServer, i == 0) {
        return false;
      }
      ghost var rest := AsBytes(Text(frames[i + 1..]));
      TextTurn(frames, i);
      InARow(m.payload, AsBytes(Unmasked(frames[i])), rest);
      ghost var after := m.payload + AsBytes(Unmasked(frames[i]));
      m.NextFrame(frames[i].key);
      ok := ReceiveFrame(m, frames[i]);
      if !ok {
        HopelessStays(after, rest);
        if Passes(frames) { OnlyHopefulPass(frames); }
        return;
      }
      if frames[i].fin {
        NoFrames(frames[i + 1..]);
        assert m.payload + [] == m.payload;
        ok := m.FinalizeMessage(frames[i].opcode);
      }
      i := i + 1;
    }
  }

  // The same in full: every frame masked for a server and none for a client, continuations after
  // the first, and the text well-formed, or not beyond hope if it came in more than one.
  method ReceiveText(machine: Machine, isServer: bool, frames: seq<Frame>) returns (ok: bool)
    requires ValidMachine(machine) && Starts(frames)
    ensures ok <==> HeadersPass(frames, isServer) && Passes(frames)
    ensures ok <==>
      && (forall i :: 0 <= i < |frames| ==> frames[i].masked == isServer)
      && (forall i :: 0 < i < |frames| ==> frames[i].opcode == 0)
      && (if |frames| == 1 then WellFormed(AsBytes(Text(frames))) else Hopeful(AsBytes(Text(frames))))
  {
    hide Hopeful, Run, Text, WellFormed, AsBytes;
    HeadersDemand(frames, isServer);
    ok := ReceiveFrames(machine, isServer, frames);
  }

  lemma OnlyHopefulPass(frames: seq<Frame>)
    requires Keyed(frames) && Passes(frames)
    ensures Hopeful(AsBytes(Text(frames)))
  {
    hide WellFormed, Text;
    assert AsBytes(Text(frames)) + [] == AsBytes(Text(frames));
  }

  lemma NoFrames(frames: seq<Frame>)
    requires frames == []
    ensures AsBytes(Text(frames)) == []
  {
  }

  // How a sender cuts and masks a text into frames, and the network the frames into pieces.
  ghost predicate Sent(texts: seq<seq<bv8>>, frames: seq<Frame>) {
    && |frames| == |texts| && Keyed(frames)
    && forall i :: 0 <= i < |texts| ==>
       Joined(frames[i].pieces) == if frames[i].masked then Masked(texts[i], frames[i].key, 0) else texts[i]
  }

  // What is received is what was sent.
  lemma {:induction false} SentIsReceived(texts: seq<seq<bv8>>, frames: seq<Frame>)
    requires Sent(texts, frames)
    ensures Text(frames) == Joined(texts)
  {
    hide Masked;
    if texts != [] {
      SentIsReceived(texts[1..], frames[1..]);
      MaskingIsAnInvolution(texts[0], frames[0].key, 0);
    }
  }

  // ---------------------------------------------------------------- where the end is checked

  const PLAIN_KEY: seq<bv8> := [0, 0, 0, 0]

  // Continuations without payload, and then the first octet of a code point that does not end.
  function CutTail(n: nat, isServer: bool): (r: seq<Frame>)
    requires n > 0
    ensures |r| == n
  {
    if n == 1 then [Frame(CONTINUATION, true, isServer, PLAIN_KEY, [[0xC3]])]
    else [Frame(CONTINUATION, false, isServer, PLAIN_KEY, [])] + CutTail(n - 1, isServer)
  }

  // "a" and half a code point.
  function CutText(n: nat, isServer: bool): (r: seq<Frame>)
    requires n > 1
  {
    [Frame(TEXT, false, isServer, PLAIN_KEY, [[0x61]])] + CutTail(n - 1, isServer)
  }

  lemma {:induction false} TailOfCut(n: nat, isServer: bool)
    requires n > 0
    ensures var r := CutTail(n, isServer); Keyed(r) && Text(r) == [0xC3]
    ensures var r := CutTail(n, isServer); forall i :: 0 <= i < n ==>
      r[i].opcode == CONTINUATION && r[i].masked == isServer && (r[i].fin <==> i == n - 1)
  {
    if n == 1 {
      OctetUnmasked(0xC3);
      assert Joined([[0xC3 as bv8]]) == [0xC3];
    } else {
      TailOfCut(n - 1, isServer);
      assert CutTail(n, isServer)[1..] == CutTail(n - 1, isServer);
      assert Masked([], PLAIN_KEY, 0) == [];
    }
  }

  lemma OctetUnmasked(b: bv8)
    ensures Masked([b], PLAIN_KEY, 0) == [b]
  {
    assert b ^ 0 == b;
  }

  lemma HalfACodePoint()
    ensures Hopeful([0x61, 0xC3]) && !WellFormed([0x61, 0xC3])
  {
    hide WellFormed, Hopeful;
    AcceptsExactlyTheGrammar([0x61, 0xC3]);
    RejectsExactlyTheHopeless([0x61, 0xC3]);
    RunOn([0x61], [0xC3]);
  }

  lemma CutHeadersPass(n: nat, isServer: bool)
    requires n > 1
    ensures var frames := CutText(n, isServer); |frames| == n && Starts(frames) && HeadersPass(frames, isServer)
  {
    hide CutTail;
    TailOfCut(n - 1, isServer);
  }

  lemma CutTextReads(n: nat, isServer: bool)
    requires n > 1
    ensures Keyed(CutText(n, isServer)) && AsBytes(Text(CutText(n, isServer))) == [0x61, 0xC3]
  {
    hide Masked, CutTail;
    var frames := CutText(n, isServer);
    TailOfCut(n - 1, isServer);
    OctetUnmasked(0x61);
    assert Joined([[0x61 as bv8]]) == [0x61];
    assert frames[1..] == CutTail(n - 1, isServer);
    assert Text(frames) == [0x61, 0xC3];
  }

  // A text that ends inside a code point passes in two frames or more, the first of them "a".
  lemma CutTextPasses(n: nat, isServer: bool)
    requires n > 1
    ensures var frames := CutText(n, isServer);
      && |frames| == n && Starts(frames) && HeadersPass(frames, isServer) && Passes(frames)
      && AsBytes(Text(frames)) == [0x61, 0xC3] && !WellFormed(AsBytes(Text(frames)))
  {
    hide CutText, Text, AsBytes, WellFormed, Hopeful, Starts, HeadersPass;
    CutHeadersPass(n, isServer);
    CutTextReads(n, isServer);
    HalfACodePoint();
  }

  // Of messages in so many frames only well-formed ones are accepted exactly if it is one frame.
  lemma EndIsCheckedIff(n: nat, isServer: bool)
    requires n > 0
    ensures n == 1 <==> forall frames ::
      |frames| == n && Starts(frames) && HeadersPass(frames, isServer) && Passes(frames) ==>
        WellFormed(AsBytes(Text(frames)))
  {
    hide WellFormed, Hopeful, Text;
    if n > 1 { CutTextPasses(n, isServer); }
  }
}

/** Masking of WebSocket payloads: libs/websocketpp/frame.hpp.

    The code masks a whole machine word at a time with a "prepared" key and rotates that key
    between calls.  `Masked` is the requirement of section 5.3 of RFC 6455: octet i of the
    output is octet i of the input XOR octet i mod 4 of the key. */
module FrameMasking {

  // sizeof(size_t) and the byte order of the host
  datatype Machine = Machine(size: nat, littleEndian: bool)

  predicate ValidMachine(m: Machine) { m.size == 4 || m.size == 8 }

  // What holds on every valid machine holds on hosts of 32 and of 64 bits of either byte order.
  lemma HostsAreValid(littleEndian: bool)
    ensures ValidMachine(Machine(4, littleEndian)) && ValidMachine(Machine(8, littleEndian))
  {
  }

  // A size_t as its octets, the least significant first.  Every shift in the code is by whole
  // octets, so shifts move octets and drop those that leave the word.
  type Word = seq<bv8>

  function ShiftLeft(w: Word, octets: nat): (r: Word) {
    seq(|w|, k requires 0 <= k < |w| => if k < octets then 0 else w[k - octets])
  }

  function ShiftRight(w: Word, octets: nat): (r: Word) {
    seq(|w|, k requires 0 <= k < |w| => if k + octets < |w| then w[k + octets] else 0)
  }

  function Or(w: Word, v: Word): (r: Word)
    requires |w| == |v|
  {
    seq(|w|, k requires 0 <= k < |w| => w[k] | v[k])
  }

  function Xor(w: Word, v: Word): (r: Word)
    requires |w| == |v|
  {
    seq(|w|, k requires 0 <= k < |w| => w[k] ^ v[k])
  }

  function Reversed(b: seq<bv8>): (r: seq<bv8>) {
    seq(|b|, k requires 0 <= k < |b| => b[|b| - 1 - k])
  }

  // The cast of a word to its bytes in memory; the cast back is the same rearrangement.
  function Memory(w: seq<bv8>, m: Machine): (b: seq<bv8>)
    ensures |b| == |w|
  {
    if m.littleEndian then w else Reversed(w)
  }

  predicate IsKey(key: seq<bv8>) { |key| == 4 }

  function Masked(s: seq<bv8>, key: seq<bv8>, offset: nat): (r: seq<bv8>)
    requires IsKey(key)
    ensures |r| == |s|
  {
    seq(|s|, i requires 0 <= i < |s| => s[i] ^ key[(offset + i) % 4])
  }

  // prepare_masking_key
  function Prepared(key: seq<bv8>, m: Machine): (w: Word)
    requires IsKey(key) && ValidMachine(m)
    ensures |w| == m.size
  {
    var low := Memory(key, m) + seq(m.size - 4, _ => 0);
    if m.size == 8 then Or(ShiftLeft(low, 4), low) else low
  }

  // circshift_prepared_key
  function CircShift(prepared: Word, offset: nat, m: Machine): (w: Word)
    requires offset <= |prepared|
    ensures |w| == |prepared|
  {
    if offset == 0 then prepared
    else if m.littleEndian then Or(ShiftRight(prepared, offset), ShiftLeft(prepared, |prepared| - offset))
    else Or(ShiftLeft(prepared, offset), ShiftRight(prepared, |prepared| - offset))
  }

  // The octets of the key union after its 32-bit member was assigned from a word.
  function Truncated(prepared: Word, m: Machine): (key: seq<bv8>)
    requires 4 <= |prepared|
    ensures IsKey(key)
  {
    Memory(prepared[..4], m)
  }

  // ---------------------------------------------------------------- the prepared key in memory

  // What every prepared key is: in memory it shows the key octets from position `offset` on,
  // again and again.
  ghost predicate Holds(w: Word, key: seq<bv8>, offset: nat, m: Machine)
    requires IsKey(key)
  {
    |w| == m.size && forall k :: 0 <= k < m.size ==> Memory(w, m)[k] == key[(offset + k) % 4]
  }

  lemma PreparedOctet(key: seq<bv8>, m: Machine, j: nat)
    requires IsKey(key) && ValidMachine(m) && j < m.size
    ensures Prepared(key, m)[j] == Memory(key, m)[j % 4]
  {
    var low := Memory(key, m) + seq(m.size - 4, _ => 0);
    if m.size == 8 {
      assert Prepared(key, m)[j] == ShiftLeft(low, 4)[j] | low[j];
    }
  }

  lemma PreparedHolds(key: seq<bv8>, m: Machine)
    requires IsKey(key) && ValidMachine(m)
    ensures Holds(Prepared(key, m), key, 0, m)
  {
    var w := Prepared(key, m);
    forall k | 0 <= k < m.size
      ensures Memory(w, m)[k] == key[(0 + k) % 4]
    {
      var j := if m.littleEndian then k else m.size - 1 - k;
      PreparedOctet(key, m, j);
      assert Memory(w, m)[k] == w[j];
      if !m.littleEndian { assert 3 - j % 4 == k % 4; }
    }
  }

  // Where the byte at place k of the shifted word was before the shift.
  function Origin(k: nat, offset: nat, size: nat): (r: int) {
    if k + offset < size then k + offset else k + offset - size
  }

  // In memory the shift rotates the word left by `offset` places.
  lemma ShiftRotates(w: Word, offset: nat, m: Machine, k: nat)
    requires offset <= |w| && k < |w|
    ensures Memory(CircShift(w, offset, m), m)[k] == Memory(w, m)[Origin(k, offset, |w|)]
  {
    if offset != 0 {
      if m.littleEndian {
        assert ShiftRight(w, offset)[k] == if k + offset < |w| then w[k + offset] else 0;
        assert ShiftLeft(w, |w| - offset)[k] == if k < |w| - offset then 0 else w[k - (|w| - offset)];
      } else {
        var j := |w| - 1 - k;
        assert ShiftLeft(w, offset)[j] == if j < offset then 0 else w[j - offset];
        assert ShiftRight(w, |w| - offset)[j] == if j + |w| - offset < |w| then w[j + |w| - offset] else 0;
      }
    }
  }

  lemma SameMemorySameWord(w: Word, v: Word, m: Machine)
    requires |w| == |v| && forall k :: 0 <= k < |w| ==> Memory(w, m)[k] == Memory(v, m)[k]
    ensures w == v
  {
    forall k | 0 <= k < |w|
      ensures w[k] == v[k]
    {
      var j := if m.littleEndian then k else |w| - 1 - k;
      assert Memory(w, m)[j] == Memory(v, m)[j];
    }
  }

  // Shifts compose by adding their offsets modulo the word size.
  lemma ShiftsCompose(w: Word, a: nat, b: nat, m: Machine)
    requires a < |w| && b < |w|
    ensures CircShift(CircShift(w, a, m), b, m) == CircShift(w, (a + b) % |w|, m)
  {
    var ab := if a + b < |w| then a + b else a + b - |w|;
    assert (a + b) % |w| == ab by { Wraps(a + b, |w|); }
    var v := CircShift(CircShift(w, a, m), b, m);
    forall k | 0 <= k < |w|
      ensures Memory(v, m)[k] == Memory(CircShift(w, ab, m), m)[k]
    {
      ShiftRotates(CircShift(w, a, m), b, m, k);
      ShiftRotates(w, a, m, Origin(k, b, |w|));
      ShiftRotates(w, ab, m, k);
    }
    SameMemorySameWord(v, CircShift(w, ab, m), m);
  }

  lemma Wraps(n: nat, size: nat)
    requires n < 2 * size
    ensures n % size == if n < size then n else n - size
  {
    if n < size {
      assert n / size == 0;
    } else {
      assert n == (n - size) + 1 * size;
      assert n / size == 1;
    }
  }

  lemma RotatedPlace(offset: nat, n: nat, shift: nat, k: nat, size: nat)
    requires size == 4 || size == 8
    requires shift == n % size || shift == n % 4
    requires k < size
    ensures shift < size && 0 <= Origin(k, shift, size) < size
    ensures (offset + Origin(k, shift, size)) % 4 == (offset + n + k) % 4
  {
    var q :| n == 4 * q + shift by { SameRemainder(n, shift, size); }
    var j := Origin(k, shift, size);
    var r := if k + shift < size then q else q + if size == 4 then 1 else 2;
    assert offset + n + k == offset + j + 4 * r;
    FoursAside(offset + n + k, offset + j, r);
  }

  lemma FoursAside(x: int, y: int, r: int)
    requires x == y + 4 * r
    ensures x % 4 == y % 4
  {
  }

  lemma SameRemainder(n: nat, shift: nat, size: nat)
    requires size == 4 || size == 8
    requires shift == n % size || shift == n % 4
    ensures exists q :: n == 4 * q + shift
  {
    var q := if shift == n % 4 then n / 4 else n / 8 * 2;
    assert n == 4 * q + shift;
  }

  // After n payload octets the shift by n modulo the word size, and the shift by n modulo 4,
  // both leave the key standing n places further on.
  lemma ShiftAdvances(w: Word, key: seq<bv8>, offset: nat, n: nat, shift: nat, m: Machine)
    requires IsKey(key) && ValidMachine(m) && Holds(w, key, offset, m)
    requires shift == n % m.size || shift == n % 4
    ensures shift < m.size && Holds(CircShift(w, shift, m), key, offset + n, m)
  {
    RotatedPlace(offset, n, shift, 0, m.size);
    forall k | 0 <= k < m.size
      ensures Memory(CircShift(w, shift, m), m)[k] == key[(offset + n + k) % 4]
    {
      RotatedPlace(offset, n, shift, k, m.size);
      ShiftRotates(w, shift, m, k);
    }
  }

  // XOR of words is XOR of their bytes in memory.
  lemma XorInMemory(b: seq<bv8>, w: Word, m: Machine, k: nat)
    requires |b| == |w| && k < |b|
    ensures Memory(Xor(Memory(b, m), w), m)[k] == b[k] ^ Memory(w, m)[k]
  {
    var i := if m.littleEndian then k else |b| - 1 - k;
    var x := Xor(Memory(b, m), w);
    assert Memory(b, m)[i] == b[k] && Memory(w, m)[k] == w[i];
    assert x[i] == Memory(b, m)[i] ^ w[i];
    assert Memory(x, m)[k] == x[i];
  }

  lemma MaskedConcat(s: seq<bv8>, t: seq<bv8>, key: seq<bv8>, offset: nat)
    requires IsKey(key)
    ensures Masked(s + t, key, offset) == Masked(s, key, offset) + Masked(t, key, offset + |s|)
  {
    forall i | 0 <= i < |s| + |t|
      ensures Masked(s + t, key, offset)[i] == (Masked(s, key, offset) + Masked(t, key, offset + |s|))[i]
    {
      if |s| <= i { assert offset + i == offset + |s| + (i - |s|); }
    }
  }

  // Masking twice with one key gives the payload back.
  lemma MaskingIsAnInvolution(s: seq<bv8>, key: seq<bv8>, offset: nat)
    requires IsKey(key)
    ensures Masked(Masked(s, key, offset), key, offset) == s
  {
    forall i | 0 <= i < |s|
      ensures Masked(Masked(s, key, offset), key, offset)[i] == s[i]
    {
      var x, y := s[i], key[(offset + i) % 4];
      assert (x ^ y) ^ y == x;
    }
  }

  // ---------------------------------------------------------------- one stream, many calls

  // A call of word_mask_circ or of byte_mask_circ on the next piece of one payload.
  datatype Call = Words(chunk: seq<bv8>) | Octets(chunk: seq<bv8>)

  // Which octet of a word masks octet i.
  function Place(i: nat, size: nat): (r: nat)
    requires size == 4 || size == 8
    ensures r < size
  {
    i % size
  }

  // What one call writes.
  function Output(c: Call, prepared: Word, m: Machine): (r: seq<bv8>)
    requires |prepared| == m.size && ValidMachine(m)
  {
    match c
    case Words(s) => seq(|s|, i requires 0 <= i < |s| => s[i] ^ Memory(prepared, m)[Place(i, m.size)])
    case Octets(s) => Masked(s, Truncated(prepared, m), 0)
  }

  // The key that it returns.
  function NextKey(c: Call, prepared: Word, m: Machine): (r: Word)
    requires |prepared| == m.size && ValidMachine(m)
    ensures |r| == m.size
  {
    match c
    case Words(s) => CircShift(prepared, |s| % m.size, m)
    case Octets(s) => CircShift(prepared, |s| % 4, m)
  }

  function Stream(calls: seq<Call>, prepared: Word, m: Machine): (r: seq<bv8>)
    requires |prepared| == m.size && ValidMachine(m)
    decreases |calls|
  {
    if calls == [] then [] else Output(calls[0], prepared, m) + Stream(calls[1..], NextKey(calls[0], prepared, m), m)
  }

  function FinalKey(calls: seq<Call>, prepared: Word, m: Machine): (r: Word)
    requires |prepared| == m.size && ValidMachine(m)
    decreases |calls|
  {
    if calls == [] then prepared else FinalKey(calls[1..], NextKey(calls[0], prepared, m), m)
  }

  function Payload(calls: seq<Call>): (r: seq<bv8>) {
    if calls == [] then [] else calls[0].chunk + Payload(calls[1..])
  }

  // Cutting a key word to 32 bits keeps one period of the key, on either byte order.
  lemma TruncatedHolds(prepared: Word, key: seq<bv8>, offset: nat, m: Machine, k: nat)
    requires IsKey(key) && ValidMachine(m) && Holds(prepared, key, offset, m) && k < 4
    ensures Truncated(prepared, m)[k] == key[(offset + k) % 4]
  {
    if m.littleEndian {
      assert Memory(prepared, m)[k] == prepared[k];
    } else {
      var j := m.size - 4 + k;
      assert Memory(prepared, m)[j] == prepared[3 - k];
      assert (offset + j) % 4 == (offset + k) % 4 by { if m.size == 8 { assert offset + j == offset + k + 4; } }
    }
  }

  // The octets of a held key that mask octet i of a chunk.
  lemma WordOctet(prepared: Word, key: seq<bv8>, offset: nat, m: Machine, i: nat)
    requires IsKey(key) && ValidMachine(m) && Holds(prepared, key, offset, m)
    ensures Memory(prepared, m)[Place(i, m.size)] == key[(offset + i) % 4]
  {
    hide Memory;
    var k := Place(i, m.size);
    RotatedPlace(offset, i, k, 0, m.size);
    assert Origin(0, k, m.size) == k && Memory(prepared, m)[k] == key[(offset + k) % 4];
  }

  lemma KeyOctet(prepared: Word, key: seq<bv8>, offset: nat, m: Machine, i: nat)
    requires IsKey(key) && ValidMachine(m) && Holds(prepared, key, offset, m)
    ensures Truncated(prepared, m)[i % 4] == key[(offset + i) % 4]
  {
    hide Truncated, Holds;
    RotatedPlace(offset, i, i % 4, 0, m.size);
    TruncatedHolds(prepared, key, offset, m, i % 4);
  }

  lemma OneCall(c: Call, prepared: Word, key: seq<bv8>, offset: nat, m: Machine)
    requires IsKey(key) && ValidMachine(m) && Holds(prepared, key, offset, m)
    ensures Output(c, prepared, m) == Masked(c.chunk, key, offset)
    ensures Holds(NextKey(c, prepared, m), key, offset + |c.chunk|, m)
  {
    hide Memory, Truncated, CircShift, Place, Holds;
    var n := |c.chunk|;
    ShiftAdvances(prepared, key, offset, n, if c.Words? then n % m.size else n % 4, m);
    forall i | 0 <= i < n
      ensures Output(c, prepared, m)[i] == Masked(c.chunk, key, offset)[i]
    {
      if c.Words? { WordOctet(prepared, key, offset, m, i); } else { KeyOctet(prepared, key, offset, m, i); }
    }
  }

  lemma HeldWord(w: Word, key: seq<bv8>, offset: nat, m: Machine)
    requires IsKey(key) && Holds(w, key, offset, m)
    ensures |w| == m.size
  {
  }

  // However a payload is cut into pieces, and whichever circular function masks each piece,
  // feeding every returned key into the next call masks the whole payload at once.
  lemma {:induction false} StreamingIsOneMask(calls: seq<Call>, prepared: Word, key: seq<bv8>, offset: nat, m: Machine)
    requires IsKey(key) && ValidMachine(m) && Holds(prepared, key, offset, m)
    ensures Stream(calls, prepared, m) == Masked(Payload(calls), key, offset)
    ensures Holds(FinalKey(calls, prepared, m), key, offset + |Payload(calls)|, m)
    decreases |calls|
  {
    hide Output, NextKey, Masked, Holds;
    HeldWord(prepared, key, offset, m);
    if calls != [] {
      var c := calls[0];
      OneCall(c, prepared, key, offset, m);
      StreamingIsOneMask(calls[1..], NextKey(c, prepared, m), key, offset + |c.chunk|, m);
      MaskedConcat(c.chunk, Payload(calls[1..]), key, offset);
    }
  }

  lemma PreparedStream(calls: seq<Call>, key: seq<bv8>, m: Machine)
    requires IsKey(key) && ValidMachine(m)
    ensures Stream(calls, Prepared(key, m), m) == Masked(Payload(calls), key, 0)
  {
    PreparedHolds(key, m);
    StreamingIsOneMask(calls, Prepared(key, m), key, 0, m);
  }

  // ---------------------------------------------------------------- the loops over buffers

  // The input buffer may be the output buffer.
  method ByteMask(input: array<bv8>, output: array<bv8>, length: nat, key: seq<bv8>, keyOffset: nat)
    requires length <= input.Length && length <= output.Length && IsKey(key)
    modifies output
    ensures output[..length] == Masked(old(input[..length]), key, keyOffset)
    ensures output[length..] == old(output[length..])
  {
    var keyIndex := keyOffset % 4;
    var i := 0;
    while i < length
      invariant 0 <= i <= length && keyIndex == (keyOffset + i) % 4
      invariant forall j :: 0 <= j < i ==> output[j] == old(input[j]) ^ key[(keyOffset + j) % 4]
      invariant forall j :: i <= j < input.Length ==> input[j] == old(input[j])
      invariant forall j :: length <= j < output.Length ==> output[j] == old(output[j])
    {
      output[i] := input[i] ^ key[keyIndex];
      NextIndex(keyOffset + i);
      keyIndex := (keyIndex + 1) % 4;
      i := i + 1;
    }
  }

  lemma NextIndex(n: nat)
    ensures (n % 4 + 1) % 4 == (n + 1) % 4
  {
  }

  // output_word[i] = input_word[i] ^ prepared, through the casts of the buffers to words
  method MaskWord(input: array<bv8>, output: array<bv8>, at: nat, prepared: Word, m: Machine)
    requires |prepared| == m.size && at + m.size <= input.Length && at + m.size <= output.Length
    modifies output
    ensures forall j :: 0 <= j < m.size ==> output[at + j] == old(input[at + j]) ^ Memory(prepared, m)[j]
    ensures output[..at] == old(output[..at]) && output[at + m.size..] == old(output[at + m.size..])
    ensures input[at + m.size..] == old(input[at + m.size..])
  {
    hide Memory;
    ghost var key := Memory(prepared, m);
    var before := input[at..at + m.size];
    var word := Memory(Xor(Memory(before, m), prepared), m);
    forall j | 0 <= j < m.size
      ensures word[j] == before[j] ^ key[j]
    {
      XorInMemory(before, prepared, m, j);
    }
    assert forall j :: 0 <= j < m.size ==> before[j] == old(input[at + j]);
    forall j | at <= j < at + m.size {
      output[j] := word[j - at];
    }
  }

  // Where word n begins.
  function At(n: nat, size: nat): (r: nat) { n * size }

  lemma WordPlace(n: nat, size: nat, j: nat)
    requires size == 4 || size == 8
    requires At(n, size) <= j < At(n, size) + size
    ensures Place(j, size) == j - At(n, size)
  {
    hide At, Place;
    if size == 4 { FourPlaces(n, j); } else { EightPlaces(n, j); }
  }

  lemma FourPlaces(n: nat, j: nat)
    ensures At(n, 4) == 4 * n && (4 * n <= j < 4 * n + 4 ==> Place(j, 4) == j - 4 * n)
  {
  }

  lemma EightPlaces(n: nat, j: nat)
    ensures At(n, 8) == 8 * n && (8 * n <= j < 8 * n + 8 ==> Place(j, 8) == j - 8 * n)
  {
  }

  // The first octets are masked by the word, again and again.
  ghost predicate MaskedByWords(before: seq<bv8>, after: seq<bv8>, prepared: Word, m: Machine, end: nat)
    requires ValidMachine(m) && |prepared| == m.size
  {
    && end <= |before| && end <= |after|
    && forall j :: 0 <= j < end ==> after[j] == before[j] ^ Memory(prepared, m)[Place(j, m.size)]
  }

  // A whole word, or what is left of one, masked behind n whole words.
  lemma WordMore(before: seq<bv8>, mid: seq<bv8>, after: seq<bv8>, prepared: Word, m: Machine, n: nat, end: nat, l: nat)
    requires ValidMachine(m) && |prepared| == m.size && l <= m.size && end == At(n, m.size)
    requires MaskedByWords(before, mid, prepared, m, end)
    requires end + l <= |before| && end + l <= |after| && after[..end] == mid[..end]
    requires forall j :: 0 <= j < l ==> after[end + j] == before[end + j] ^ Memory(prepared, m)[j]
    ensures MaskedByWords(before, after, prepared, m, end + l)
  {
    hide Memory;
    forall j | 0 <= j < end + l
      ensures after[j] == before[j] ^ Memory(prepared, m)[Place(j, m.size)]
    {
      if j < end {
        assert after[j] == mid[j];
      } else {
        WordPlace(n, m.size, j);
        assert after[end + (j - end)] == after[j];
      }
    }
  }

  // The loop over whole words that word_mask_exact and word_mask_circ share.
  method MaskWords(input: array<bv8>, output: array<bv8>, n: nat, prepared: Word, m: Machine) returns (end: nat)
    requires ValidMachine(m) && |prepared| == m.size
    requires At(n, m.size) <= input.Length && At(n, m.size) <= output.Length
    modifies output
    ensures end == At(n, m.size)
    ensures MaskedByWords(old(input[..]), output[..], prepared, m, end)
    ensures input[end..] == old(input[end..]) && output[end..] == old(output[end..])
  {
    assert At(0, m.size) == 0;
    var i := 0;
    end := 0;
    while i < n
      invariant 0 <= i <= n && end == At(i, m.size) && end <= input.Length && end <= output.Length
      invariant MaskedByWords(old(input[..]), output[..], prepared, m, end)
      invariant input[end..] == old(input[end..]) && output[end..] == old(output[end..])
    {
      hide MaskedByWords;
      NextWord(i, n, m.size);
      ghost var mid, rest := output[..], input[end..];
      assert forall j :: 0 <= j < m.size ==> rest[j] == old(input[..])[end + j];
      MaskWord(input, output, end, prepared, m);
      WordMore(old(input[..]), mid, output[..], prepared, m, i, end, m.size);
      LaterStill(input[..], old(input[..]), end, m.size);
      LaterStill(output[..], old(output[..]), end, m.size);
      i, end := i + 1, end + m.size;
    }
  }

  lemma SameFrom(a: seq<bv8>, b: seq<bv8>, start: nat, length: nat)
    requires |a| == |b| && start <= length <= |a| && a[start..] == b[start..]
    ensures a[length..] == b[length..] && forall j :: start <= j < length ==> a[j] == b[j]
  {
    LaterStill(a, b, start, length - start);
    forall j | start <= j < length
      ensures a[j] == b[j]
    {
      assert a[j] == a[start..][j - start] && b[j] == b[start..][j - start];
    }
  }

  lemma LaterStill(a: seq<bv8>, b: seq<bv8>, end: nat, size: nat)
    requires |a| == |b| && end + size <= |a|
    ensures a[end..][size..] == a[end + size..] && b[end..][size..] == b[end + size..]
  {
  }

  lemma NextWord(i: nat, n: nat, size: nat)
    requires i < n && (size == 4 || size == 8)
    ensures At(i + 1, size) == At(i, size) + size <= At(n, size)
  {
    hide At, Place;
    FourPlaces(i, 0);
    FourPlaces(i + 1, 0);
    FourPlaces(n, 0);
    EightPlaces(i, 0);
    EightPlaces(i + 1, 0);
    EightPlaces(n, 0);
  }

  lemma PreparedPlaces(key: seq<bv8>, m: Machine, j: nat)
    requires IsKey(key) && ValidMachine(m)
    ensures Memory(Prepared(key, m), m)[Place(j, m.size)] == key[j % 4]
  {
    hide *;
    PreparedHolds(key, m);
    WordOctet(Prepared(key, m), key, 0, m, j);
  }

  // From one place to another, masked by the four octets of the key.
  ghost predicate ByKey(before: seq<bv8>, after: seq<bv8>, key: seq<bv8>, start: nat, end: nat)
    requires IsKey(key)
  {
    end <= |before| && end <= |after| && forall j :: start <= j < end ==> after[j] == before[j] ^ key[j % 4]
  }

  lemma MaskedByKey(before: seq<bv8>, after: seq<bv8>, key: seq<bv8>, m: Machine, end: nat)
    requires IsKey(key) && ValidMachine(m) && MaskedByWords(before, after, Prepared(key, m), m, end)
    ensures ByKey(before, after, key, 0, end)
  {
    hide Prepared, Memory;
    forall j | 0 <= j < end
      ensures after[j] == before[j] ^ key[j % 4]
    {
      PreparedPlaces(key, m, j);
    }
  }

  // The loop of word_mask_exact over the bytes after the last whole word.
  method MaskRest(input: array<bv8>, output: array<bv8>, start: nat, length: nat, key: seq<bv8>)
    requires start <= length <= input.Length && length <= output.Length && IsKey(key)
    modifies output
    ensures ByKey(old(input[..]), output[..], key, start, length)
    ensures output[..start] == old(output[..start]) && output[length..] == old(output[length..])
  {
    var i := start;
    while i < length
      invariant start <= i <= length
      invariant forall j :: start <= j < i ==> output[j] == old(input[j]) ^ key[j % 4]
      invariant forall j :: i <= j < input.Length ==> input[j] == old(input[j])
      invariant forall j :: 0 <= j < output.Length && !(start <= j < i) ==> output[j] == old(output[j])
    {
      output[i] := input[i] ^ key[i % 4];
      i := i + 1;
    }
  }

  // Where the last, partial word begins.
  lemma LastWord(length: nat, size: nat)
    requires size == 4 || size == 8
    ensures At(length / size, size) <= length < At(length / size, size) + size
    ensures length % size == length - At(length / size, size)
  {
  }

  // The whole words, then the rest.
  lemma MaskedInTwo(before: seq<bv8>, mid: seq<bv8>, rest: seq<bv8>, after: seq<bv8>, key: seq<bv8>, start: nat,
      length: nat)
    requires IsKey(key) && start <= length
    requires ByKey(before, mid, key, 0, start) && ByKey(rest, after, key, start, length)
    requires |rest| == |before| && rest[start..] == before[start..]
    requires |mid| == |after| && after[..start] == mid[..start]
    ensures length <= |before| && length <= |after| && after[..length] == Masked(before[..length], key, 0)
  {
    forall j | 0 <= j < length
      ensures after[j] == before[j] ^ key[j % 4]
    {
      if j < start {
        assert after[j] == after[..start][j] == mid[..start][j];
      } else {
        assert rest[j] == rest[start..][j - start] == before[start..][j - start];
      }
    }
  }

  method WordMaskExact(input: array<bv8>, output: array<bv8>, length: nat, key: seq<bv8>, m: Machine)
    requires length <= input.Length && length <= output.Length && IsKey(key) && ValidMachine(m)
    modifies output
    ensures output[..length] == Masked(old(input[..length]), key, 0)
    ensures output[length..] == old(output[length..])
  {
    hide Prepared, Memory, Masked, MaskedByWords, ByKey, At;
    ghost var before, after := input[..], output[..];
    LastWord(length, m.size);
    var n := length / m.size;
    var start := MaskWords(input, output, n, Prepared(key, m), m);
    ghost var rest, mid := input[..], output[..];
    MaskedByKey(before, mid, key, m, start);
    SameFrom(mid, after, start, length);
    MaskRest(input, output, start, length, key);
    MaskedInTwo(before, mid, rest, output[..], key, start, length);
    assert before[..length] == old(input[..length]);
  }

  lemma OutputOfWords(before: seq<bv8>, after: seq<bv8>, prepared: Word, m: Machine, length: nat)
    requires ValidMachine(m) && |prepared| == m.size && MaskedByWords(before, after, prepared, m, length)
    ensures length <= |before| && length <= |after|
    ensures after[..length] == Output(Words(before[..length]), prepared, m)
    ensures NextKey(Words(before[..length]), prepared, m) == CircShift(prepared, length % m.size, m)
  {
    hide Memory, CircShift;
  }

  // The loop of word_mask_circ over the bytes after the last whole word.
  method MaskRestOfWord(input: array<bv8>, output: array<bv8>, start: nat, l: nat, byteKey: seq<bv8>)
    requires start + l <= input.Length && start + l <= output.Length && l <= |byteKey|
    modifies output
    ensures forall j :: 0 <= j < l ==> output[start + j] == old(input[start + j]) ^ byteKey[j]
    ensures output[..start] == old(output[..start]) && output[start + l..] == old(output[start + l..])
  {
    var i := 0;
    while i < l
      invariant 0 <= i <= l
      invariant forall j :: start <= j < start + i ==> output[j] == old(input[j]) ^ byteKey[j - start]
      invariant forall j :: start + i <= j < input.Length ==> input[j] == old(input[j])
      invariant forall j :: 0 <= j < output.Length && !(start <= j < start + i) ==> output[j] == old(output[j])
    {
      output[start + i] := input[start + i] ^ byteKey[i];
      i := i + 1;
    }
  }

  method WordMaskCirc(input: array<bv8>, output: array<bv8>, length: nat, prepared: Word, m: Machine)
      returns (next: Word)
    requires length <= input.Length && length <= output.Length && ValidMachine(m) && |prepared| == m.size
    modifies output
    ensures output[..length] == Output(Words(old(input[..length])), prepared, m)
    ensures output[length..] == old(output[length..])
    ensures next == NextKey(Words(old(input[..length])), prepared, m)
  {
    hide CircShift, Output, MaskedByWords, At;
    ghost var before, rest := input[..], output[..];
    var byteKey := Memory(prepared, m);
    LastWord(length, m.size);
    var n := length / m.size;
    var start := MaskWords(input, output, n, prepared, m);
    var l := length - start;
    ghost var mid := output[..];
    SameFrom(input[..], before, start, length);
    SameFrom(output[..], rest, start, length);
    MaskRestOfWord(input, output, start, l, byteKey);
    WordMore(before, mid, output[..], prepared, m, n, start, l);
    OutputOfWords(before, output[..], prepared, m, length);
    next := CircShift(prepared, l, m);
    assert before[..length] == old(input[..length]);
  }

  method ByteMaskCirc(input: array<bv8>, output: array<bv8>, length: nat, prepared: Word, m: Machine)
      returns (next: Word)
    requires length <= input.Length && length <= output.Length && ValidMachine(m) && |prepared| == m.size
    modifies output
    ensures output[..length] == Output(Octets(old(input[..length])), prepared, m)
    ensures output[length..] == old(output[length..])
    ensures next == NextKey(Octets(old(input[..length])), prepared, m)
  {
    var key := Truncated(prepared, m);
    var i := 0;
    while i < length
      invariant 0 <= i <= length
      invariant forall j :: 0 <= j < i ==> output[j] == old(input[j]) ^ key[j % 4]
      invariant forall j :: i <= j < input.Length ==> input[j] == old(input[j])
      invariant forall j :: length <= j < output.Length ==> output[j] == old(output[j])
    {
      output[i] := input[i] ^ key[i % 4];
      i := i + 1;
    }
    next := CircShift(prepared, length % 4, m);
  }
}

/** Input streams and the binary writer: src/rabbitControl/stream_tools.h, stream_tools.cpp,
    writer.h and stringstreamwriter.cpp, on a little-endian host whose `char` is signed.

    A `Stream` is what an istream still has to give, and its end-of-file flag.  A read that
    the code would carry on from with an uninitialised or thrown-away state is `Fault`. */
module Streams {
  import opened Bytes

  type Text = seq<Byte>

  datatype Stream = Stream(rest: seq<Byte>, eof: bool)

  // `Short`: the data ended inside the value, which is then padded; the flag is up.
  datatype Read<+T> = Got(value: T, next: Stream) | Short(padded: T, next: Stream) | Fault

  const ENDED := Stream([], true)

  // is.get(), None for EOF
  function Get(s: Stream): (r: (Option<Byte>, Stream))
    ensures |r.1.rest| <= |s.rest| && (r.0.Some? ==> |r.1.rest| < |s.rest|) && (r.0.None? ==> r.1 == ENDED)
  {
    if s.rest == [] then (None, ENDED) else (Some(s.rest[0]), Stream(s.rest[1..], s.eof))
  }

  // is.peek()
  function Peek(s: Stream): (r: (Option<Byte>, Stream))
    ensures r.0.Some? <==> s.rest != []
    ensures r.1 == if s.rest == [] then ENDED else s
  {
    if s.rest == [] then (None, ENDED) else (Some(s.rest[0]), s)
  }

  // is.read(buffer, n), the buffer zeroed beforehand
  function ReadBytes(s: Stream, n: nat): (r: Read<Text>)
    ensures !r.Fault? && |r.next.rest| <= |s.rest|
    ensures r.Got? <==> n <= |s.rest|
    ensures r.Got? ==> |r.value| == n && |r.next.rest| == |s.rest| - n
    ensures r.Short? ==> r.next == ENDED && |r.padded| == n && s.rest <= r.padded
    ensures r.Short? ==> forall k :: |s.rest| <= k < n ==> r.padded[k] == 0
  {
    if n <= |s.rest| then Got(s.rest[..n], Stream(s.rest[n..], s.eof))
    else Short(s.rest + seq(n - |s.rest|, _ => 0), ENDED)
  }

  // readFromStream of an integer of `width` octets, as an unsigned word
  function ReadWord(s: Stream, width: nat): (r: Read<nat>)
    ensures !r.Fault? && |r.next.rest| <= |s.rest|
    ensures r.Got? ==> r.value < Power256(width) && |r.next.rest| == |s.rest| - width
    ensures r.Short? ==> r.next == ENDED
  {
    match ReadBytes(s, width)
    case Got(b, next) => FromBigEndianBound(b); Got(FromBigEndian(b), next)
    case Short(b, next) => Short(0, next)
  }

  // readStringFromStream with a length of `width` octets.  The one-octet length is a signed
  // char: 128 and above are negative sizes, for which the buffer's constructor throws.
  function ReadString(s: Stream, width: nat): (r: Read<Text>)
    ensures !r.Fault? ==> |r.next.rest| <= |s.rest|
    ensures r.Short? ==> r.next == ENDED
    ensures width > 0 && r.Got? ==> |r.next.rest| < |s.rest|
  {
    match ReadWord(s, width)
    case Got(size, next) => if width == 1 && size >= 128 then Fault else ReadBytes(next, size)
    case Short(_, _) => Fault
  }

  const TINY: nat := 1
  const SHORT: nat := 2
  const LONG: nat := 4

  // writeTinyString, writeShortString and writeString: 1, 2 or 4 octets of length.  From the
  // largest length on, the narrow ones write the length constant as a 32-bit int.
  function StringBytes(s: Text, width: nat): (r: Text)
    requires width == TINY || width == SHORT || width == LONG
  {
    var max := Power256(width) - 1;
    if |s| >= max then BigEndian(max, LONG) + s[..max] else BigEndian(|s|, width) + s
  }

  // write(const std::string&) with its 32-bit length
  function PrefixedBytes(s: Text): (r: Text) {
    BigEndian(|s|, LONG) + s
  }

  // The lengths up to which each reader gives back what its writer wrote.
  function Readable(width: nat): (r: nat) {
    if width == TINY then 127 else if width == SHORT then 65534 else 0xFFFF_FFFF
  }

  // ---------------------------------------------------------------- reading back

  lemma WordReadsBack(n: nat, width: nat, t: Text, eof: bool)
    requires n < Power256(width)
    ensures ReadWord(Stream(BigEndian(n, width) + t, eof), width) == Got(n, Stream(t, eof))
  {
    var b := BigEndian(n, width);
    assert (b + t)[..width] == b && (b + t)[width..] == t;
    BigEndianRoundTrip(n, width);
  }

  lemma BytesReadBack(s: Text, t: Text, eof: bool)
    ensures ReadBytes(Stream(s + t, eof), |s|) == Got(s, Stream(t, eof))
  {
    assert (s + t)[..|s|] == s && (s + t)[|s|..] == t;
  }

  lemma PrefixedReadsBack(s: Text, t: Text, eof: bool)
    requires |s| <= Readable(LONG)
    ensures ReadString(Stream(PrefixedBytes(s) + t, eof), LONG) == Got(s, Stream(t, eof))
  {
    SmallPowers();
    assert PrefixedBytes(s) + t == BigEndian(|s|, LONG) + (s + t);
    WordReadsBack(|s|, LONG, s + t, eof);
    BytesReadBack(s, t, eof);
  }

  lemma InThree(a: Text, b: Text, c: Text)
    ensures a + b + c == a + (b + c)
  {
  }

  lemma ReadableReadsBack(s: Text, width: nat, t: Text, eof: bool)
    requires width == TINY || width == SHORT || width == LONG
    requires |s| <= Readable(width)
    ensures ReadString(Stream(StringBytes(s, width) + t, eof), width) == Got(s, Stream(t, eof))
  {
    hide BigEndian, FromBigEndian, ReadWord, ReadBytes;
    SmallPowers();
    WordReadsBack(|s|, width, s + t, eof);
    BytesReadBack(s, t, eof);
    assert s[..|s|] == s;
    assert StringBytes(s, width) == BigEndian(|s|, width) + s;
    InThree(BigEndian(|s|, width), s, t);
  }

  lemma NegativeLength(s: Text, t: Text, eof: bool)
    requires 127 < |s| < 255
    ensures ReadString(Stream(StringBytes(s, TINY) + t, eof), TINY).Fault?
  {
    hide BigEndian, FromBigEndian;
    SmallPowers();
    assert StringBytes(s, TINY) + t == BigEndian(|s|, TINY) + (s + t);
    WordReadsBack(|s|, TINY, s + t, eof);
  }

  lemma CutInTwo(a: Text, k: nat, b: Text, t: Text)
    requires k <= |a|
    ensures a + b + t == a[..k] + (a[k..] + b + t)
  {
  }

  lemma ZeroLength(s: Text, width: nat, t: Text, eof: bool)
    requires width == TINY || width == SHORT
    requires |s| >= Power256(width) - 1
    ensures var r := ReadString(Stream(StringBytes(s, width) + t, eof), width); r.Got? && r.value == []
  {
    hide BigEndian, FromBigEndian;
    SmallPowers();
    LengthOverflows(width);
    var max := Power256(width) - 1;
    var rest := BigEndian(max, LONG)[width..] + s[..max] + t;
    assert BigEndian(max, LONG)[..width] == BigEndian(0, width);
    CutInTwo(BigEndian(max, LONG), width, s[..max], t);
    assert StringBytes(s, width) + t == BigEndian(0, width) + rest;
    WordReadsBack(0, width, rest, eof);
  }

  lemma TruncatedString(s: Text, t: Text, eof: bool)
    requires |s| > 0xFFFF_FFFF
    ensures var r := ReadString(Stream(StringBytes(s, LONG) + t, eof), LONG); r.Got? && r.value == s[..0xFFFF_FFFF]
  {
    hide BigEndian, FromBigEndian;
    SmallPowers();
    var max := 0xFFFF_FFFF;
    assert StringBytes(s, LONG) + t == BigEndian(max, LONG) + (s[..max] + t);
    WordReadsBack(max, LONG, s[..max] + t, eof);
    BytesReadBack(s[..max], t, eof);
  }

  // A string that is too long is not read back: its length is negative, cut to zero, or the
  // string itself was cut.
  lemma TooLongIsLost(s: Text, width: nat, t: Text, eof: bool)
    requires width == TINY || width == SHORT || width == LONG
    requires |s| > Readable(width)
    ensures ReadString(Stream(StringBytes(s, width) + t, eof), width) != Got(s, Stream(t, eof))
  {
    hide ReadString, StringBytes;
    SmallPowers();
    if width == LONG {
      TruncatedString(s, t, eof);
    } else if width == TINY && |s| < 255 {
      NegativeLength(s, t, eof);
    } else {
      ZeroLength(s, width, t, eof);
    }
  }

  lemma LengthOverflows(width: nat)
    requires width == TINY || width == SHORT
    ensures BigEndian(Power256(width) - 1, LONG)[..width] == BigEndian(0, width)
  {
    SmallPowers();
    var n := Power256(width) - 1;
    assert BigEndian(n, LONG) == BigEndian(n / 256 / 256, 2) + [n / 256 % 256] + [n % 256];
    assert BigEndian(0, 2) == BigEndian(0, 1) + [0] && BigEndian(0, 1) == [] + [0];
  }

  // Exactly the strings up to the bound survive writing and reading.
  lemma StringRoundTripIff(s: Text, width: nat, t: Text, eof: bool)
    requires width == TINY || width == SHORT || width == LONG
    ensures ReadString(Stream(StringBytes(s, width) + t, eof), width) == Got(s, Stream(t, eof)) <==>
             |s| <= Readable(width)
  {
    if |s| <= Readable(width) { ReadableReadsBack(s, width, t, eof); } else { TooLongIsLost(s, width, t, eof); }
  }

  // ---------------------------------------------------------------- the objects

  class Writer {
    var buffer: Text

    constructor ()
      ensures buffer == []
    {
      buffer := [];
    }

    method Write(b: Byte)
      modifies this
      ensures buffer == old(buffer) + [b]
    {
      buffer := buffer + [b];
    }

    // The integer writers: one octet at a time, from the highest down.
    method WriteWord(v: nat, width: nat)
      modifies this
      ensures buffer == old(buffer) + BigEndian(v, width)
    {
      ghost var start := buffer;
      var k := width;
      while k > 0
        invariant 0 <= k <= width
        invariant buffer == start + BigEndian(v, width)[..width - k]
      {
        k := k - 1;
        DigitAt(v, width, k);
        buffer := buffer + [Shifted(v, k) % 256];
        assert BigEndian(v, width)[..width - k] == BigEndian(v, width)[..width - k - 1] + [Shifted(v, k) % 256];
      }
      assert BigEndian(v, width)[..width] == BigEndian(v, width);
    }

    method WriteText(s: Text)
      modifies this
      ensures buffer == old(buffer) + s
    {
      buffer := buffer + s;
    }

    method WriteString(s: Text, width: nat)
      requires width == TINY || width == SHORT || width == LONG
      modifies this
      ensures buffer == old(buffer) + StringBytes(s, width)
    {
      var max := Power256(width) - 1;
      ghost var start := buffer;
      if |s| >= max {
        WriteWord(max, LONG);
        WriteText(s[..max]);
        assert buffer == start + (BigEndian(max, LONG) + s[..max]);
      } else {
        WriteWord(|s|, width);
        WriteText(s);
        assert buffer == start + (BigEndian(|s|, width) + s);
      }
    }

    method WritePrefixed(s: Text)
      modifies this
      ensures buffer == old(buffer) + PrefixedBytes(s)
    {
      ghost var start := buffer;
      WriteWord(|s|, LONG);
      WriteText(s);
      assert buffer == start + PrefixedBytes(s);
    }
  }

  // v >> 8 * k, an octet at a time
  function Shifted(v: nat, k: nat): (r: nat) {
    if k == 0 then v else Shifted(v / 256, k - 1)
  }

  // Octet k from the low end is the number shifted right by 8k, cut to eight bits.
  lemma {:induction false} DigitAt(v: nat, width: nat, k: nat)
    requires k < width
    ensures BigEndian(v, width)[width - 1 - k] == Shifted(v, k) % 256
  {
    if k > 0 { DigitAt(v / 256, width - 1, k - 1); }
  }

  class InputStream {
    var view: Stream

    constructor (data: Text)
      ensures view == Stream(data, false)
    {
      view := Stream(data, false);
    }

    method Next() returns (b: Option<Byte>)
      modifies this
      ensures (b, view) == Get(old(view))
    {
      var r := Get(view);
      b, view := r.0, r.1;
    }

    method PeekNext() returns (b: Option<Byte>)
      modifies this
      ensures (b, view) == Peek(old(view))
    {
      var r := Peek(view);
      b, view := r.0, r.1;
    }

    method Word(width: nat) returns (r: Read<nat>)
      modifies this
      ensures r == ReadWord(old(view), width) && view == r.next
    {
      r := ReadWord(view, width);
      view := r.next;
    }

    method Raw(n: nat) returns (r: Read<Text>)
      modifies this
      ensures r == ReadBytes(old(view), n) && view == r.next
    {
      r := ReadBytes(view, n);
      view := r.next;
    }

    method String(width: nat) returns (r: Read<Text>)
      modifies this
      ensures r == ReadString(old(view), width) && (!r.Fault? ==> view == r.next)
    {
      var size := Word(width);
      if size.Short? || (width == TINY && size.value >= 128) {
        return Fault;
      }
      r := Raw(size.value);
    }
  }
}

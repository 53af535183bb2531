/**
 WebSocket frames (sections 5.2 and 5.3 of RFC 6455) as the debug server writes and
 reads them over a socket that hands out bytes in chunks of its own choosing.
 */
module Frames {
  import opened Options

  type Bytes = seq<bv8>

  // ---------------------------------------------------------------- big-endian numbers

  function Pow256(k: nat): nat { if k == 0 then 1 else 256 * Pow256(k - 1) }

  function ByteOf(n: nat): bv8 { (n % 256) as bv8 }

  function ValueOf(b: bv8): nat { b as nat }

  lemma SmallByte(n: nat)
    requires n < 256
    ensures ValueOf(n as bv8) == n
  {}

  lemma ByteRoundTrip(n: nat)
    ensures ValueOf(ByteOf(n)) == n % 256
  {
    hide ValueOf;
    SmallByte(n % 256);
  }

  lemma ValueIsBounded(b: bv8)
    ensures ValueOf(b) < 256
  {}

  function ToBytes(n: nat, k: nat): (bytes: Bytes)
    ensures |bytes| == k
  {
    if k == 0 then [] else ToBytes(n / 256, k - 1) + [ByteOf(n)]
  }

  function FromBytes(bytes: Bytes): nat {
    if bytes == [] then 0
    else 256 * FromBytes(bytes[..|bytes| - 1]) + ValueOf(bytes[|bytes| - 1])
  }

  lemma {:induction false} NumberRoundTrip(n: nat, k: nat)
    requires n < Pow256(k)
    ensures FromBytes(ToBytes(n, k)) == n
  {
    hide ByteOf, ValueOf;
    if k > 0 {
      NumberRoundTrip(n / 256, k - 1);
      ByteRoundTrip(n);
      assert ToBytes(n, k)[..k - 1] == ToBytes(n / 256, k - 1);
    }
  }

  lemma {:induction false} NumberIsBounded(bytes: Bytes)
    ensures FromBytes(bytes) < Pow256(|bytes|)
  {
    hide ValueOf;
    if bytes != [] {
      NumberIsBounded(bytes[..|bytes| - 1]);
      ValueIsBounded(bytes[|bytes| - 1]);
    }
  }

  // ---------------------------------------------------------------- frames

  /** Every fourth payload byte meets the same mask byte. */
  function Masked(payload: Bytes, mask: Bytes): (masked: Bytes)
    requires |mask| == 4
    ensures |masked| == |payload|
  {
    seq(|payload|, i requires 0 <= i < |payload| => payload[i] ^ mask[i % 4])
  }

  type Mask = m: Option<Bytes> | m.Some? ==> |m.value| == 4 witness None

  function MaskedBy(payload: Bytes, mask: Mask): (masked: Bytes)
    ensures |masked| == |payload|
  {
    if mask.None? then payload else Masked(payload, mask.value)
  }

  /** The length field: seven bits, or a marker and two or eight bytes. */
  function LengthCode(n: nat): nat { if n < 126 then n else if n <= 0xFFFF then 126 else 127 }
  function LengthBytes(n: nat): Bytes {
    if n < 126 then [] else if n <= 0xFFFF then ToBytes(n, 2) else ToBytes(n, 8)
  }

  const LENGTH_LIMIT := 0x1_0000_0000_0000_0000

  function HeaderBytes(first: bv8, mask: Mask, n: nat): Bytes {
    var code := ByteOf(LengthCode(n));
    if mask.None? then [first, code] + LengthBytes(n) else [first, 0x80 | code] + LengthBytes(n) + mask.value
  }

  /** A frame with a given first byte; a client masks, the server does not. */
  function Frame(first: bv8, mask: Mask, body: Bytes): Bytes {
    HeaderBytes(first, mask, |body|) + MaskedBy(body, mask)
  }

  function TextFrame(body: Bytes): Bytes { Frame(0x81, None, body) }

  /** The header in front of the payload: two bytes, the extended length, the mask. */
  datatype Header = Short | Header(opcode: bv8, mask: Mask, length: nat, size: nat)

  datatype Reading = Closed | Read(opcode: bv8, body: Bytes, rest: Bytes)

  function Extra(code: bv8): nat { if code == 126 then 2 else if code == 127 then 8 else 0 }

  function ParseHeader(input: Bytes): Header {
    if |input| < 2 then Short
    else
      var opcode, masked, code := input[0] & 0x0F, input[1] & 0x80 != 0, input[1] & 0x7F;
      var start := 2 + Extra(code);
      if |input| < start then Short
      else
        var length := if Extra(code) == 0 then ValueOf(code) else FromBytes(input[2..start]);
        if !masked then Header(opcode, None, length, start)
        else if |input| < start + 4 then Short
        else Header(opcode, Some(input[start..start + 4]), length, start + 4)
  }

  function Parse(input: Bytes): Reading {
    match ParseHeader(input)
    case Short => Closed
    case Header(opcode, mask, length, size) =>
      if |input| < size + length then Closed
      else Read(opcode, MaskedBy(input[size..size + length], mask), input[size + length..])
  }

  /** The header field by field, in the order in which it is received. */
  lemma ParseInSteps(input: Bytes)
    ensures |input| < 2 ==> ParseHeader(input).Short?
    ensures |input| >= 2 ==>
      var code := input[1] & 0x7F;
      var start := 2 + Extra(code);
      if |input| < start then ParseHeader(input).Short?
      else
        var length := if Extra(code) == 0 then ValueOf(code) else FromBytes(input[2..start]);
        if input[1] & 0x80 == 0 then ParseHeader(input) == Header(input[0] & 0x0F, None, length, start)
        else if |input| < start + 4 then ParseHeader(input).Short?
        else ParseHeader(input) == Header(input[0] & 0x0F, Some(input[start..start + 4]), length, start + 4)
  {
    hide ValueOf, FromBytes, Extra;
  }

  lemma CodeBits(n: nat)
    requires n < 128
    ensures var code := ByteOf(n);
      && code & 0x7F == code && (0x80 | code) & 0x7F == code && ValueOf(code) == n
      && code & 0x80 == 0 && (0x80 | code) & 0x80 != 0
      && (code == 126 <==> n == 126) && (code == 127 <==> n == 127)
  {
    ByteRoundTrip(n);
    assert ByteOf(n) < 128;
  }

  lemma XorTwice(b: bv8, m: bv8)
    ensures (b ^ m) ^ m == b
  {}

  lemma MaskTwice(payload: Bytes, mask: Mask)
    ensures MaskedBy(MaskedBy(payload, mask), mask) == payload
  {
    if mask.Some? {
      forall i | 0 <= i < |payload| ensures (payload[i] ^ mask.value[i % 4]) ^ mask.value[i % 4] == payload[i] {
        XorTwice(payload[i], mask.value[i % 4]);
      }
    }
  }

  /** The extended length field tells the length back. */
  lemma LengthRoundTrip(n: nat)
    requires n < LENGTH_LIMIT
    ensures var code := ByteOf(LengthCode(n));
      && Extra(code) == |LengthBytes(n)|
      && n == if Extra(code) == 0 then ValueOf(code) else FromBytes(LengthBytes(n))
  {
    CodeBits(LengthCode(n));
    hide ByteOf, ValueOf, FromBytes, ToBytes;
    assert Pow256(2) == 0x1_0000 && Pow256(8) == LENGTH_LIMIT;
    if n > 0xFFFF {
      NumberRoundTrip(n, 8);
    } else if n >= 126 {
      NumberRoundTrip(n, 2);
    }
  }

  lemma ParsePlain(first: bv8, second: bv8, lengths: Bytes, tail: Bytes)
    requires second & 0x80 == 0 && Extra(second & 0x7F) == |lengths|
    ensures var code := second & 0x7F;
      ParseHeader([first, second] + lengths + tail)
      == Header(first & 0x0F, None, if Extra(code) == 0 then ValueOf(code) else FromBytes(lengths), 2 + |lengths|)
  {
    hide ValueOf, FromBytes, Extra, ParseHeader;
    ParseInSteps([first, second] + lengths + tail);
    FieldsApart([first, second], lengths, [], tail);
    assert lengths + [] == lengths && [first, second] + lengths + [] == [first, second] + lengths;
  }

  lemma PlainHeaderRoundTrip(first: bv8, n: nat, tail: Bytes)
    requires n < LENGTH_LIMIT
    ensures var bytes := HeaderBytes(first, None, n);
      ParseHeader(bytes + tail) == Header(first & 0x0F, None, n, |bytes|)
  {
    LengthRoundTrip(n);
    CodeBits(LengthCode(n));
    hide ByteOf, ValueOf, FromBytes, LengthBytes, LengthCode, Extra, ParseHeader;
    ParsePlain(first, ByteOf(LengthCode(n)), LengthBytes(n), tail);
  }

  lemma FieldsApart(head: Bytes, lengths: Bytes, mask: Bytes, tail: Bytes)
    ensures var input, start := head + lengths + mask + tail, |head| + |lengths|;
      && |input| >= start + |mask| && input[..|head|] == head
      && input[|head|..start] == lengths && input[start..start + |mask|] == mask
      && forall i | 0 <= i < |head| :: input[i] == head[i]
  {}

  lemma ParseMasked(first: bv8, second: bv8, lengths: Bytes, mask: Bytes, tail: Bytes)
    requires second & 0x80 != 0 && |mask| == 4 && Extra(second & 0x7F) == |lengths|
    ensures var code := second & 0x7F;
      ParseHeader([first, second] + lengths + mask + tail)
      == Header(first & 0x0F, Some(mask), if Extra(code) == 0 then ValueOf(code) else FromBytes(lengths), 6 + |lengths|)
  {
    hide ValueOf, FromBytes, Extra, ParseHeader;
    var input := [first, second] + lengths + mask + tail;
    ParseInSteps(input);
    FieldsApart([first, second], lengths, mask, tail);
  }

  lemma MaskedHeaderRoundTrip(first: bv8, mask: Bytes, n: nat, tail: Bytes)
    requires n < LENGTH_LIMIT && |mask| == 4
    ensures var bytes := HeaderBytes(first, Some(mask), n);
      ParseHeader(bytes + tail) == Header(first & 0x0F, Some(mask), n, |bytes|)
  {
    LengthRoundTrip(n);
    CodeBits(LengthCode(n));
    hide ByteOf, ValueOf, FromBytes, LengthBytes, LengthCode, Extra, ParseHeader;
    ParseMasked(first, 0x80 | ByteOf(LengthCode(n)), LengthBytes(n), mask, tail);
  }

  lemma HeaderRoundTrip(first: bv8, mask: Mask, n: nat, tail: Bytes)
    requires n < LENGTH_LIMIT
    ensures var bytes := HeaderBytes(first, mask, n);
      ParseHeader(bytes + tail) == Header(first & 0x0F, mask, n, |bytes|)
  {
    hide HeaderBytes, ParseHeader;
    match mask
    case None => PlainHeaderRoundTrip(first, n, tail);
    case Some(key) => MaskedHeaderRoundTrip(first, key, n, tail);
  }

  /** Reading what was written gives the opcode and body back and consumes exactly the frame. */
  lemma FrameRoundTrip(first: bv8, mask: Mask, body: Bytes, rest: Bytes)
    requires |body| < LENGTH_LIMIT
    ensures Parse(Frame(first, mask, body) + rest) == Read(first & 0x0F, body, rest)
  {
    hide HeaderBytes, ParseHeader, MaskedBy;
    var header, sent := HeaderBytes(first, mask, |body|), MaskedBy(body, mask);
    HeaderRoundTrip(first, mask, |body|, sent + rest);
    MaskTwice(body, mask);
    var input := Frame(first, mask, body) + rest;
    assert input == header + (sent + rest);
    assert input[|header|..|header| + |body|] == sent && input[|header| + |body|..] == rest;
  }

  lemma TextFrameRoundTrip(body: Bytes, rest: Bytes)
    requires |body| < LENGTH_LIMIT
    ensures Parse(TextFrame(body) + rest) == Read(1, body, rest)
  {
    FrameRoundTrip(0x81, None, body, rest);
  }

  lemma HeaderIsShortest(input: Bytes)
    requires ParseHeader(input).Header?
    ensures var header := ParseHeader(input);
      |HeaderBytes(0x81, None, header.length)| <= header.size <= |input| && header.length < LENGTH_LIMIT
  {
    hide ByteOf, FromBytes;
    var code := input[1] & 0x7F;
    assert code <= 127;
    assert Pow256(2) == 0x1_0000 && Pow256(8) == LENGTH_LIMIT;
    if Extra(code) > 0 {
      NumberIsBounded(input[2..2 + Extra(code)]);
    }
  }

  /** No frame that carries a body is shorter than the one the server writes. */
  lemma TextFrameIsShortest(input: Bytes)
    requires Parse(input).Read?
    ensures |TextFrame(Parse(input).body)| <= |input| - |Parse(input).rest|
  {
    hide HeaderBytes, ParseHeader;
    HeaderIsShortest(input);
  }

  // ---------------------------------------------------------------- on the wire

  /** Two and eight bytes as numbers, the most significant byte first. */
  lemma TwoBytes(b: Bytes)
    requires |b| == 2
    ensures FromBytes(b) == 0x100 * ValueOf(b[0]) + ValueOf(b[1])
  {
    hide FromBytes, ValueOf;
    NoBytes();
    Leading(b, 1);
    Leading(b, 2);
    assert b[..0] == [] && b[..2] == b;
  }

  lemma EightBytes(b: Bytes)
    requires |b| == 8
    ensures FromBytes(b)
         == 0x100_0000_0000_0000 * ValueOf(b[0]) + 0x1_0000_0000_0000 * ValueOf(b[1])
            + 0x100_0000_0000 * ValueOf(b[2]) + 0x1_0000_0000 * ValueOf(b[3])
            + 0x100_0000 * ValueOf(b[4]) + 0x1_0000 * ValueOf(b[5]) + 0x100 * ValueOf(b[6]) + ValueOf(b[7])
  {
    hide FromBytes, ValueOf;
    FourBytes(b[..4]);
    Joined(ValueOf(b[0]), ValueOf(b[1]), ValueOf(b[2]), ValueOf(b[3]), FromBytes(b[..4]));
    FourDigits(b, 4);
    assert b[..8] == b;
  }

  lemma FourBytes(b: Bytes)
    requires |b| == 4
    ensures FromBytes(b)
         == 0x100_0000 * ValueOf(b[0]) + 0x1_0000 * ValueOf(b[1]) + 0x100 * ValueOf(b[2]) + ValueOf(b[3])
  {
    hide FromBytes, ValueOf;
    NoBytes();
    FourDigits(b, 0);
    assert b[..0] == [] && b[..4] == b;
  }

  lemma Joined(a: nat, b: nat, c: nat, d: nat, high: nat)
    requires high == 0x100_0000 * a + 0x1_0000 * b + 0x100 * c + d
    ensures 0x1_0000_0000 * high
         == 0x100_0000_0000_0000 * a + 0x1_0000_0000_0000 * b + 0x100_0000_0000 * c + 0x1_0000_0000 * d
  {}

  lemma FourDigits(b: Bytes, k: nat)
    requires k + 4 <= |b|
    ensures FromBytes(b[..k + 4])
         == 0x1_0000_0000 * FromBytes(b[..k]) + 0x100_0000 * ValueOf(b[k]) + 0x1_0000 * ValueOf(b[k + 1])
            + 0x100 * ValueOf(b[k + 2]) + ValueOf(b[k + 3])
  {
    hide FromBytes, ValueOf;
    Leading(b, k + 1);
    Leading(b, k + 2);
    Leading(b, k + 3);
    Leading(b, k + 4);
  }

  lemma NoBytes()
    ensures FromBytes([]) == 0
  {}

  lemma Leading(b: Bytes, k: nat)
    requires 0 < k <= |b|
    ensures FromBytes(b[..k]) == 256 * FromBytes(b[..k - 1]) + ValueOf(b[k - 1])
  {
    hide ValueOf;
    LastByte(b[..k], k);
    assert b[..k][..k - 1] == b[..k - 1];
  }

  lemma LastByte(b: Bytes, k: nat)
    requires |b| == k > 0
    ensures FromBytes(b) == 256 * FromBytes(b[..k - 1]) + ValueOf(b[k - 1])
    ensures FromBytes([]) == 0
  {}

  /** A text frame, byte for byte: the final fragment of a text, unmasked, its length in the shortest of the
      three forms, and the body. */
  lemma TextFrameBytes(body: Bytes) returns (field: Bytes)
    requires |body| < 0x1_0000_0000_0000_0000
    ensures |body| < 126 ==> TextFrame(body) == [0x81, |body| as bv8] + body
    ensures 126 <= |body| < 0x1_0000 ==> |field| == 2 && TextFrame(body) == [0x81, 126] + field + body
    ensures 0x1_0000 <= |body| ==> |field| == 8 && TextFrame(body) == [0x81, 127] + field + body
    ensures |body| >= 126 ==> FromBytes(field) == |body|
  {
    CodeBits(126);
    CodeBits(127);
    hide ToBytes, FromBytes, ValueOf;
    assert Pow256(2) == 0x1_0000 && Pow256(8) == 0x1_0000_0000_0000_0000;
    if |body| < 126 {
      field := [];
      assert [0x81, ByteOf(|body|)] + [] == [0x81, |body| as bv8];
    } else if |body| < 0x1_0000 {
      field := ToBytes(|body|, 2);
      NumberRoundTrip(|body|, 2);
    } else {
      field := ToBytes(|body|, 8);
      NumberRoundTrip(|body|, 8);
    }
  }

  /** How a header is read, bit for bit. */
  lemma HeaderBits(input: Bytes)
    requires ParseHeader(input).Header?
    ensures |input| >= 2
    ensures var header, code := ParseHeader(input), input[1] & 0x7F;
      var start := if code == 127 then 10 else if code == 126 then 4 else 2;
      && |input| >= start && header.opcode == input[0] & 0x0F
      && header.length == (if code == 127 then FromBytes(input[2..10])
                           else if code == 126 then FromBytes(input[2..4]) else code as nat)
      && if input[1] & 0x80 == 0 then header.mask == None && header.size == start
         else |input| >= start + 4 && header.mask == Some(input[start..start + 4]) && header.size == start + 4
  {
    hide FromBytes;
  }

  /** What a frame carries: as many bytes behind the header as it announces, each met with its mask byte. */
  lemma BodyIsUnmasked(input: Bytes)
    requires Parse(input).Read?
    ensures var header, read := ParseHeader(input), Parse(input);
      && header.Header? && read.opcode == header.opcode && |read.body| == header.length
      && header.size + header.length <= |input| && read.rest == input[header.size + header.length..]
      && forall i | 0 <= i < header.length ::
           read.body[i] == if header.mask.None? then input[header.size + i]
                           else input[header.size + i] ^ header.mask.value[i % 4]
  {
    hide ParseHeader;
    var header := ParseHeader(input);
    var sent := input[header.size..header.size + header.length];
    assert forall i | 0 <= i < header.length :: sent[i] == input[header.size + i];
  }

  /** Reading fails exactly on a header or a body that is cut off. */
  lemma ClosedIff(input: Bytes)
    ensures Parse(input).Closed?
            <==> ParseHeader(input).Short? || |input| < ParseHeader(input).size + ParseHeader(input).length
    ensures ParseHeader(input).Short? <==> || |input| < 2 || |input| < 2 + LengthSize(input[1])
                                           || |input| < 2 + LengthSize(input[1]) + MaskSize(input[1])
  {
    hide FromBytes, ValueOf;
  }

  function LengthSize(second: bv8): nat {
    if second & 0x7F == 126 then 2 else if second & 0x7F == 127 then 8 else 0
  }

  function MaskSize(second: bv8): nat { if second & 0x80 == 0 then 0 else 4 }

  lemma SliceOfSum(a: Bytes, b: Bytes, lo: nat, hi: nat)
    requires lo <= hi <= |a|
    ensures (a + b)[lo..hi] == a[lo..hi]
  {}

  lemma HeaderMeans(input: Bytes)
    requires ParseHeader(input).Header?
    ensures |input| >= 2
    ensures var start, header := 2 + Extra(input[1] & 0x7F), ParseHeader(input);
      start <= header.size <= |input| && header.size == if input[1] & 0x80 != 0 then start + 4 else start
  {
    hide ValueOf, FromBytes, Extra;
  }

  /** A header is told by its own bytes: more bytes behind it do not change it. */
  lemma HeaderIsSelfContained(input: Bytes, more: Bytes)
    requires ParseHeader(input).Header?
    ensures ParseHeader(input + more) == ParseHeader(input)
  {
    HeaderMeans(input);
    hide ValueOf, FromBytes, Extra;
    var start := 2 + Extra(input[1] & 0x7F);
    SliceOfSum(input, more, 2, start);
    if start + 4 <= |input| {
      SliceOfSum(input, more, start, start + 4);
    }
  }

  lemma CutHeader(input: Bytes, cut: nat)
    requires ParseHeader(input).Header? && cut <= |input|
    ensures if cut < ParseHeader(input).size then ParseHeader(input[..cut]).Short?
            else ParseHeader(input[..cut]) == ParseHeader(input)
  {
    assert input[..cut] + input[cut..] == input;
    if ParseHeader(input[..cut]).Header? {
      HeaderIsSelfContained(input[..cut], input[cut..]);
      HeaderMeans(input[..cut]);
    } else {
      CutTooShort(input, cut);
    }
  }

  lemma CutTooShort(input: Bytes, cut: nat)
    requires ParseHeader(input).Header? && cut <= |input| && ParseHeader(input[..cut]).Short?
    ensures cut < ParseHeader(input).size
  {
    HeaderMeans(input);
    hide ValueOf, FromBytes, Extra;
    if cut >= 2 {
      assert input[..cut][1] == input[1];
    }
  }

  /** What is read depends on the bytes of the frame alone, and needs all of them. */
  lemma FrameIsSelfContained(input: Bytes, more: Bytes, cut: nat)
    requires Parse(input).Read?
    ensures Parse(input + more) == Parse(input).(rest := Parse(input).rest + more)
    ensures cut < |input| - |Parse(input).rest| ==> Parse(input[..cut]).Closed?
  {
    hide HeaderBytes, ParseHeader, MaskedBy;
    HeaderIsShortest(input);
    HeaderIsSelfContained(input, more);
    if cut <= |input| {
      CutHeader(input, cut);
    }
    var header := ParseHeader(input);
    var end := header.size + header.length;
    assert (input + more)[header.size..end] == input[header.size..end];
    assert (input + more)[end..] == input[end..] + more;
  }

  // ---------------------------------------------------------------- many frames

  function ParseAll(input: Bytes): seq<(bv8, Bytes)>
    decreases |input|
  {
    match Parse(input)
    case Closed => []
    case Read(opcode, body, rest) => [(opcode, body)] + ParseAll(rest)
  }

  /** A frame as it was sent. */
  datatype Sent = Sent(first: bv8, mask: Mask, body: Bytes)

  function Frames(sent: seq<Sent>): Bytes {
    if sent == [] then [] else Frame(sent[0].first, sent[0].mask, sent[0].body) + Frames(sent[1..])
  }

  lemma NothingToRead()
    ensures ParseAll([]) == []
  {}

  /** Frames sent one after another, masked or not, are read back one after another. */
  lemma {:induction false} StreamRoundTrip(sent: seq<Sent>)
    requires forall s | s in sent :: |s.body| < LENGTH_LIMIT
    ensures |ParseAll(Frames(sent))| == |sent|
    ensures forall i | 0 <= i < |sent| :: ParseAll(Frames(sent))[i] == (sent[i].first & 0x0F, sent[i].body)
    decreases |sent|
  {
    hide Frame, Parse;
    NothingToRead();
    if sent != [] {
      FrameRoundTrip(sent[0].first, sent[0].mask, sent[0].body, Frames(sent[1..]));
      StreamRoundTrip(sent[1..]);
    }
  }

  // ---------------------------------------------------------------- the socket

  /** A connected socket. `pending` is what the peer has sent and will ever send; `chunks`
      decides how much of it each call of Recv hands out. */
  class Socket {
    var pending: Bytes
    var chunks: seq<nat>
    var sent: Bytes

    constructor (pending: Bytes, chunks: seq<nat>)
      ensures this.pending == pending && this.chunks == chunks && sent == []
    {
      this.pending, this.chunks, this.sent := pending, chunks, [];
    }

    /** Some bytes, at most `size` of them; none only at the end of the stream. */
    method Recv(size: nat) returns (chunk: Bytes)
      modifies this`pending, this`chunks
      ensures chunk + pending == old(pending) && |chunk| <= size
      ensures size > 0 && old(pending) != [] ==> chunk != []
    {
      var wish := if chunks == [] then size else chunks[0];
      var most := if size < |pending| then size else |pending|;
      var n := if wish == 0 then 1 else wish;
      n := if n < most then n else most;
      chunk := pending[..n];
      pending := pending[n..];
      chunks := if chunks == [] then [] else chunks[1..];
    }

    /** Exactly `size` bytes, or None with nothing left when the peer sent fewer. */
    method RecvExact(size: nat) returns (data: Option<Bytes>)
      modifies this`pending, this`chunks
      ensures if |old(pending)| >= size
              then data == Some(old(pending)[..size]) && pending == old(pending)[size..]
              else data == None && pending == []
    {
      var got: Bytes := [];
      while |got| < size
        invariant |got| <= size && got + pending == old(pending)
      {
        var chunk := Recv(size - |got|);
        if chunk == [] {
          assert pending == [] && got == old(pending);
          return None;
        }
        assert (got + chunk) + pending == got + (chunk + pending);
        got := got + chunk;
      }
      assert old(pending)[..size] == got && old(pending)[size..] == pending;
      data := Some(got);
    }

    /** The length that the second byte gives itself or announces. */
    method ReadLength(code: bv8) returns (length: Option<nat>)
      modifies this`pending, this`chunks
      ensures if |old(pending)| >= Extra(code)
              then length == Some(if Extra(code) == 0 then ValueOf(code) else FromBytes(old(pending)[..Extra(code)]))
                   && pending == old(pending)[Extra(code)..]
              else length == None && pending == []
    {
      hide ValueOf, FromBytes;
      if code == 126 || code == 127 {
        var field := RecvExact(if code == 126 then 2 else 8);
        length := if field.None? then None else Some(FromBytes(field.value));
      } else {
        length := Some(ValueOf(code));
      }
    }

    method ReadMask(masked: bool) returns (mask: Option<Mask>)
      modifies this`pending, this`chunks
      ensures if !masked then mask == Some(None) && pending == old(pending)
              else if |old(pending)| >= 4 then mask == Some(Some(old(pending)[..4])) && pending == old(pending)[4..]
              else mask == None && pending == []
    {
      mask := Some(None);
      if masked {
        var bytes := RecvExact(4);
        mask := if bytes.None? then None else Some(bytes);
      }
    }

    method ReadHeader() returns (header: Header)
      modifies this`pending, this`chunks
      ensures header == ParseHeader(old(pending))
      ensures pending == if header.Short? then [] else old(pending)[header.size..]
      ensures header.Header? ==> header.size <= |old(pending)|
    {
      hide ValueOf, FromBytes, Extra, ParseHeader;
      ghost var input := pending;
      ParseInSteps(input);
      var head := RecvExact(2);
      if head.None? {
        return Short;
      }
      var second := head.value[1];
      var code := second & 0x7F;
      var length := ReadLength(code);
      if length.None? {
        return Short;
      }
      var start := 2 + Extra(code);
      assert input[2..][..Extra(code)] == input[2..start] && pending == input[start..];
      var mask := ReadMask(second & 0x80 != 0);
      if mask.None? {
        return Short;
      }
      assert mask.value.Some? ==> input[start..][..4] == input[start..start + 4];
      assert mask.value.Some? ==> input[start..][4..] == input[start + 4..];
      header := Header(head.value[0] & 0x0F, mask.value, length.value, if mask.value.Some? then start + 4 else start);
    }

    /** However the bytes arrive, the frame at the front of the stream is read and no byte more;
        when the stream ends too early everything has been consumed. */
    method ReadFrame() returns (frame: Option<(bv8, Bytes)>)
      modifies this`pending, this`chunks
      ensures match Parse(old(pending))
        case Closed => frame == None && pending == []
        case Read(opcode, body, rest) => frame == Some((opcode, body)) && pending == rest
    {
      hide ParseHeader, MaskedBy;
      ghost var input := pending;
      var header := ReadHeader();
      if header.Short? {
        return None;
      }
      assert |input| >= header.size + header.length ==>
        input[header.size..][..header.length] == input[header.size..header.size + header.length]
        && input[header.size..][header.length..] == input[header.size + header.length..];
      var body := ReadPayload(header.mask, header.length);
      frame := if body.None? then None else Some((header.opcode, body.value));
    }

    method ReadPayload(mask: Mask, length: nat) returns (body: Option<Bytes>)
      modifies this`pending, this`chunks
      ensures if |old(pending)| >= length
              then body == Some(MaskedBy(old(pending)[..length], mask)) && pending == old(pending)[length..]
              else body == None && pending == []
    {
      var data := RecvExact(length);
      if data.None? {
        return None;
      }
      var payload := new bv8[length](i requires 0 <= i < length => data.value[i]);
      assert payload[..] == data.value;
      if mask.Some? {
        Unmask(payload, mask.value);
      }
      body := Some(payload[..]);
    }

    /** Appends one text frame; a body too long for the length field is refused (struct.error). */
    method WriteTextFrame(body: Bytes) returns (ok: bool)
      modifies this`sent
      ensures ok == (|body| < LENGTH_LIMIT)
      ensures sent == if ok then old(sent) + TextFrame(body) else old(sent)
    {
      CodeBits(126);
      CodeBits(127);
      hide ByteOf, ToBytes;
      var header: Bytes := [0x81];
      if |body| < 126 {
        header := header + [ByteOf(|body|)];
      } else if |body| <= 0xFFFF {
        header := header + [126];
        header := header + ToBytes(|body|, 2);
      } else if |body| < LENGTH_LIMIT {
        header := header + [127];
        header := header + ToBytes(|body|, 8);
      } else {
        return false;
      }
      assert header + body == TextFrame(body);
      sent := sent + (header + body);
      ok := true;
    }
  }

  /** Section 5.3 of RFC 6455, in place. */
  method Unmask(payload: array<bv8>, mask: Bytes)
    requires |mask| == 4
    modifies payload
    ensures forall i | 0 <= i < payload.Length :: payload[i] == old(payload[i]) ^ mask[i % 4]
    ensures payload[..] == Masked(old(payload[..]), mask)
  {
    for index := 0 to payload.Length
      invariant forall i | 0 <= i < index :: payload[i] == old(payload[i]) ^ mask[i % 4]
      invariant forall i | index <= i < payload.Length :: payload[i] == old(payload[i])
    {
      payload[index] := payload[index] ^ mask[index % 4];
    }
  }
}

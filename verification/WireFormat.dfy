/** Variable-length integers, 16- and 32-bit fields, the fixed header and packet
    framing (internal/codec/fixed_header.go, reader.go and the varint and append
    and read helpers of properties.go). */
module WireFormat {
  import opened ByteStrings

  type U16 = x: int | 0 <= x < 0x1_0000
  type U32 = x: int | 0 <= x < 0x1_0000_0000

  const MAX_VAR: nat := 268435455

  /** Malformed packets, and the two outcomes of a short `io.ReadFull`. */
  datatype Error = Malformed | Eof | UnexpectedEof

  datatype Result<+T> = Ok(value: T) | Err(error: Error) {
    predicate IsFailure() { Err? }
    function PropagateFailure<U>(): Result<U>
      requires Err?
    {
      Err(error)
    }
    function Extract(): T
      requires Ok?
    {
      value
    }
  }

  /** A decoded value and the number of bytes it took. */
  datatype Read<+T> = Read(value: T, size: nat)

  // ----- Variable-length integers -----

  function EncodeVar(n: nat): (s: Bytes)
    ensures |s| >= 1
  {
    if n < 128 then [n] else [128 + n % 128] + EncodeVar(n / 128)
  }

  /** Up to `k` more bytes; `short` is the error for running out of input. */
  function DecodeVar(s: Bytes, k: nat, short: Error): (r: Result<Read<nat>>)
    ensures r.Ok? ==> 1 <= r.value.size <= k && r.value.size <= |s|
  {
    if k == 0 then Err(Malformed)
    else if s == [] then Err(short)
    else if s[0] < 128 then Ok(Read(s[0], 1))
    else
      var rest :- DecodeVar(s[1..], k - 1, short);
      Ok(Read(s[0] % 128 + 128 * rest.value, rest.size + 1))
  }

  function Pow128(k: nat): nat { if k == 0 then 1 else 128 * Pow128(k - 1) }

  /** Decoding undoes encoding exactly for the values that fit in `k` bytes. */
  lemma {:induction false} VarRoundTrip(n: nat, rest: Bytes, k: nat, short: Error)
    ensures DecodeVar(EncodeVar(n) + rest, k, short) ==
            if k > 0 && n < Pow128(k) then Ok(Read(n, |EncodeVar(n)|)) else Err(Malformed)
    decreases k
  {
    var s := EncodeVar(n) + rest;
    if k > 0 {
      if n < 128 {
        PowPositive(k - 1);
      } else {
        assert s[1..] == EncodeVar(n / 128) + rest;
        VarRoundTrip(n / 128, rest, k - 1, short);
      }
    }
  }

  lemma PowPositive(k: nat)
    ensures Pow128(k) >= 1
  {
  }

  lemma FourBytes()
    ensures Pow128(4) == MAX_VAR + 1
  {
    assert Pow128(2) == 128 * 128;
  }

  lemma {:induction false} VarBounded(s: Bytes, k: nat, short: Error)
    ensures DecodeVar(s, k, short).Ok? ==> DecodeVar(s, k, short).value.value < Pow128(k)
    decreases k
  {
    if k > 0 && s != [] {
      PowPositive(k - 1);
      VarBounded(s[1..], k - 1, short);
    }
  }

  /** Nothing behind a decoded integer is looked at. */
  lemma {:induction false} VarPrefixStable(s: Bytes, more: Bytes, k: nat, short: Error)
    requires DecodeVar(s, k, short).Ok?
    ensures DecodeVar(s + more, k, short) == DecodeVar(s, k, short)
    decreases k
  {
    if s[0] >= 128 {
      assert (s + more)[1..] == s[1..] + more;
      VarPrefixStable(s[1..], more, k - 1, short);
    }
  }

  /** The encoding loop of `EncodeRemainingLength` and `encodeVarInt`. */
  method EncodeVarInt(length: nat) returns (encoded: Bytes)
    ensures encoded == EncodeVar(length)
  {
    encoded := [];
    var n := length;
    while true
      invariant encoded + EncodeVar(n) == EncodeVar(length)
      decreases n
    {
      var b := n % 128;
      n := n / 128;
      if n > 0 {
        b := b + 128;
      }
      encoded := encoded + [b];
      if n == 0 {
        return;
      }
    }
  }

  /** Continue a decoding in progress: `value` so far, scaled by `multiplier`. */
  function Resume(value: nat, multiplier: nat, i: nat, rest: Result<Read<nat>>): Result<Read<nat>> {
    if rest.Err? then rest else Ok(Read(value + multiplier * rest.value.value, i + rest.value.size))
  }

  lemma ResumeStep(value: nat, multiplier: nat, i: nat, b: Byte, rest: Result<Read<nat>>)
    ensures Resume(value + b * multiplier, multiplier * 128, i + 1, rest) ==
            Resume(value, multiplier, i,
                   if rest.Err? then rest else Ok(Read(b + 128 * rest.value.value, rest.value.size + 1)))
  {
    if rest.Ok? {
      var v := rest.value.value;
      calc {
        value + b * multiplier + (multiplier * 128) * v;
        value + (multiplier * b + multiplier * (128 * v));
        value + multiplier * (b + 128 * v);
      }
    }
  }

  /** One turn of the decoding loop. */
  lemma ResumeByte(value: nat, multiplier: nat, i: nat, s: Bytes, k: nat, short: Error)
    requires s != [] && k > 0
    ensures s[0] < 128 ==>
              Resume(value, multiplier, i, DecodeVar(s, k, short)) == Ok(Read(Added(value, s[0], multiplier), i + 1))
    ensures s[0] >= 128 ==>
              Resume(value, multiplier, i, DecodeVar(s, k, short)) ==
              Resume(Added(value, s[0] % 128, multiplier), multiplier * 128, i + 1, DecodeVar(s[1..], k - 1, short))
  {
    if s[0] >= 128 { ResumeStep(value, multiplier, i, s[0] % 128, DecodeVar(s[1..], k - 1, short)); }
  }

  function Added(value: nat, b: int, multiplier: nat): nat
    requires b >= 0
  {
    value + b * multiplier
  }

  /** `decodeVarInt`: at most four bytes from `offset`. */
  method DecodeVarInt(data: Bytes, offset: nat) returns (r: Result<Read<nat>>)
    requires offset <= |data|
    ensures r == DecodeVar(data[offset..], 4, Malformed)
  {
    var multiplier: nat, value: nat := 1, 0;
    for i := 0 to 4
      invariant offset + i <= |data|
      invariant DecodeVar(data[offset..], 4, Malformed) ==
                Resume(value, multiplier, i, DecodeVar(data[offset + i..], 4 - i, Malformed))
    {
      if offset + i >= |data| {
        return Err(Malformed);
      }
      var b: int := data[offset + i];
      assert data[offset + i..][0] == b && data[offset + i..][1..] == data[offset + i + 1..];
      ResumeByte(value, multiplier, i, data[offset + i..], 4 - i, Malformed);
      if b < 128 {
        return Ok(Read(Added(value, b, multiplier), i + 1));
      }
      value := Added(value, b % 128, multiplier);
      multiplier := multiplier * 128;
    }
    return Err(Malformed);
  }

  // ----- Fixed-width and length-prefixed fields -----

  /** Big-endian, truncating like Go's byte conversions. */
  function Encode16(n: nat): (s: Bytes)
    ensures |s| == 2
  {
    [n / 256 % 256, n % 256]
  }

  function Decode16(s: Bytes): U16
    requires |s| >= 2
  {
    (s[0] as int) * 256 + s[1]
  }

  function Encode32(n: U32): Bytes { Encode16(n / 0x1_0000) + Encode16(n % 0x1_0000) }

  function Decode32(s: Bytes): U32
    requires |s| >= 4
  {
    Decode16(s) * 0x1_0000 + Decode16(s[2..])
  }

  lemma RoundTrip16(n: nat, rest: Bytes)
    ensures Decode16(Encode16(n) + rest) == n % 0x1_0000
  {
  }

  lemma RoundTrip32(n: U32, rest: Bytes)
    ensures Decode32(Encode32(n) + rest) == n
  {
    hide Encode16, Decode16;
    var s := Encode32(n) + rest;
    assert s == Encode16(n / 0x1_0000) + (Encode16(n % 0x1_0000) + rest);
    assert s[2..] == Encode16(n % 0x1_0000) + rest;
    RoundTrip16(n / 0x1_0000, Encode16(n % 0x1_0000) + rest);
    RoundTrip16(n % 0x1_0000, rest);
  }

  /** `appendUTF8` and binary data: a 16-bit length, then the bytes. */
  function EncodeBlob(b: Bytes): Bytes { Encode16(|b|) + b }

  /** `readUTF8String`, `readBinaryData` and their bounded property variants. */
  function DecodeBlob(s: Bytes, limit: int): (r: Result<Read<Bytes>>)
    ensures r.Ok? ==> r.value.size <= |s| && r.value.size <= limit
    ensures r.Ok? ==> |r.value.value| <= 0xFFFF
  {
    if limit < 2 || |s| < 2 then Err(Malformed)
    else
      var n := Decode16(s);
      if limit < 2 + n || |s| < 2 + n then Err(Malformed) else Ok(Read(s[2..2 + n], 2 + n))
  }

  lemma BlobRoundTrip(b: Bytes, rest: Bytes, limit: int)
    requires |b| <= 0xFFFF && limit >= 2 + |b|
    ensures DecodeBlob(EncodeBlob(b) + rest, limit) == Ok(Read(b, 2 + |b|))
  {
    var s := EncodeBlob(b) + rest;
    assert s == Encode16(|b|) + (b + rest);
    RoundTrip16(|b|, b + rest);
    assert s[2..2 + |b|] == b;
  }

  // ----- The fixed header -----

  datatype FixedHeader = FixedHeader(packetType: Byte, dup: bool, qos: Byte, retain: bool, remaining: nat)

  /** Flag bits occupy disjoint positions, so or-ing them in is adding. */
  function FirstByte(h: FixedHeader): Byte {
    h.packetType * 16 % 256 + (if h.dup then 8 else 0) + h.qos % 4 * 2 + (if h.retain then 1 else 0)
  }

  function EncodeHeader(h: FixedHeader): Bytes { [FirstByte(h)] + EncodeVar(h.remaining) }

  function HeaderOf(b: Byte, remaining: nat): FixedHeader {
    FixedHeader(b / 16, b / 8 % 2 == 1, b / 2 % 4, b % 2 == 1, remaining)
  }

  function DecodeHeader(s: Bytes): (r: Result<Read<FixedHeader>>)
    ensures r.Ok? ==> 2 <= r.value.size <= |s|
  {
    if s == [] then Err(Eof)
    else
      var remaining :- DecodeVar(s[1..], 4, Eof);
      Ok(Read(HeaderOf(s[0], remaining.value), remaining.size + 1))
  }

  predicate HeaderFits(h: FixedHeader) { h.packetType < 16 && h.qos < 4 && h.remaining <= MAX_VAR }

  lemma HeaderFields(h: FixedHeader)
    requires h.packetType < 16
    ensures HeaderOf(FirstByte(h), h.remaining) == h.(qos := h.qos % 4)
  {
    var d, r := if h.dup then 1 else 0, if h.retain then 1 else 0;
    Bits(h.packetType, d, h.qos % 4, r);
    assert FirstByte(h) == h.packetType * 16 + 8 * d + 2 * (h.qos % 4) + r;
  }

  lemma Bits(t: int, d: int, q: int, r: int)
    requires 0 <= t < 16 && 0 <= d < 2 && 0 <= q < 4 && 0 <= r < 2
    ensures var b := t * 16 + 8 * d + 2 * q + r;
            b / 16 == t && b / 8 % 2 == d && b / 2 % 4 == q && b % 2 == r
  {
    var b := t * 16 + 8 * d + 2 * q + r;
    assert b / 8 == 2 * t + d && b / 2 == 8 * t + 4 * d + q;
  }

  /** Every field of the first byte survives exactly when it fits its bits. */
  lemma FirstByteExact(h: FixedHeader)
    ensures HeaderOf(FirstByte(h), h.remaining) == h <==> h.packetType < 16 && h.qos < 4
  {
    if h.packetType < 16 {
      HeaderFields(h);
    } else {
      assert HeaderOf(FirstByte(h), h.remaining).packetType < 16;
    }
  }

  /** A header comes back unchanged exactly when its fields fit theirs. */
  lemma HeaderRoundTrip(h: FixedHeader, rest: Bytes)
    ensures DecodeHeader(EncodeHeader(h) + rest) == Ok(Read(h, |EncodeHeader(h)|)) <==> HeaderFits(h)
    ensures h.remaining > MAX_VAR ==> DecodeHeader(EncodeHeader(h) + rest).Err?
    ensures h.remaining <= MAX_VAR ==>
              DecodeHeader(EncodeHeader(h) + rest) == Ok(Read(HeaderOf(FirstByte(h), h.remaining), |EncodeHeader(h)|))
  {
    hide FirstByte, HeaderOf, EncodeVar, DecodeVar;
    var s := EncodeHeader(h) + rest;
    assert s[0] == FirstByte(h) && s[1..] == EncodeVar(h.remaining) + rest;
    VarRoundTrip(h.remaining, rest, 4, Eof);
    FourBytes();
    FirstByteExact(h);
  }

  // ----- Framing -----

  datatype Frame = Frame(header: FixedHeader, body: Bytes)

  /** One frame off the front of a byte stream: what `ReadPacket` returns. */
  function ParseFrame(s: Bytes): (r: Result<Read<Frame>>)
    ensures r.Ok? ==> 2 <= r.value.size <= |s|
  {
    var h :- DecodeHeader(s);
    var rest := s[h.size..];
    var n := h.value.remaining;
    if n <= |rest| then Ok(Read(Frame(h.value, rest[..n]), h.size + n))
    else if rest == [] then Err(Eof)
    else Err(UnexpectedEof)
  }

  function EncodeFrame(f: Frame): Bytes { EncodeHeader(f.header) + f.body }

  lemma FrameRoundTrip(f: Frame, rest: Bytes)
    requires f.header.remaining == |f.body| <= MAX_VAR
    ensures ParseFrame(EncodeFrame(f) + rest) ==
            Ok(Read(Frame(HeaderOf(FirstByte(f.header), |f.body|), f.body), |EncodeFrame(f)|))
  {
    var s := EncodeFrame(f) + rest;
    assert s == EncodeHeader(f.header) + (f.body + rest);
    HeaderRoundTrip(f.header, f.body + rest);
    var k := |EncodeHeader(f.header)|;
    assert s[k..] == f.body + rest;
    assert s[k..][..|f.body|] == f.body;
  }

  /** A frame already complete is not affected by bytes that arrive later. */
  lemma FramePrefixStable(s: Bytes, more: Bytes)
    requires ParseFrame(s).Ok?
    ensures ParseFrame(s + more) == ParseFrame(s)
  {
    assert (s + more)[1..] == s[1..] + more;
    VarPrefixStable(s[1..], more, 4, Eof);
    var h := DecodeHeader(s).value;
    assert DecodeHeader(s + more) == Ok(h);
    assert (s + more)[h.size..] == s[h.size..] + more;
    var n := h.value.remaining;
    assert (s[h.size..] + more)[..n] == s[h.size..][..n];
  }

  // ----- Reading from a stream -----

  /** The unread bytes of a connection. */
  class Reader {
    var unread: Bytes

    constructor (input: Bytes)
      ensures unread == input
    {
      unread := input;
    }

    /** `io.ReadFull` for `n` bytes. */
    method ReadFull(n: nat) returns (r: Result<Bytes>)
      modifies this
      ensures n <= |old(unread)| ==> r == Ok(old(unread)[..n]) && unread == old(unread)[n..]
      ensures n > |old(unread)| ==> r == Err(if old(unread) == [] then Eof else UnexpectedEof) && unread == []
    {
      if n <= |unread| {
        r := Ok(unread[..n]);
        unread := unread[n..];
      } else {
        r := Err(if unread == [] then Eof else UnexpectedEof);
        unread := [];
      }
    }

    method DecodeRemainingLength() returns (r: Result<nat>)
      modifies this
      ensures var d := DecodeVar(old(unread), 4, Eof);
              if d.Ok? then r == Ok(d.value.value) && unread == old(unread)[d.value.size..] else r == Err(d.error)
    {
      ghost var s := unread;
      var multiplier: nat, value: nat := 1, 0;
      for i := 0 to 4
        invariant i <= |s| && unread == s[i..]
        invariant DecodeVar(s, 4, Eof) == Resume(value, multiplier, i, DecodeVar(s[i..], 4 - i, Eof))
      {
        var one := ReadFull(1);
        if one.Err? {
          return Err(one.error);
        }
        var b: int := one.value[0];
        assert s[i..][1..] == s[i + 1..];
        ResumeByte(value, multiplier, i, s[i..], 4 - i, Eof);
        if b < 128 {
          return Ok(Added(value, b, multiplier));
        }
        value := Added(value, b % 128, multiplier);
        multiplier := multiplier * 128;
      }
      return Err(Malformed);
    }

    method DecodeFixedHeader() returns (r: Result<FixedHeader>)
      modifies this
      ensures var d := DecodeHeader(old(unread));
              if d.Ok? then r == Ok(d.value.value) && unread == old(unread)[d.value.size..] else r == Err(d.error)
    {
      var first := ReadFull(1);
      if first.Err? {
        return Err(first.error);
      }
      var b := first.value[0];
      var remaining := DecodeRemainingLength();
      if remaining.Err? {
        return Err(remaining.error);
      }
      return Ok(HeaderOf(b, remaining.value));
    }

    method ReadPacket() returns (r: Result<Frame>)
      modifies this
      ensures var d := ParseFrame(old(unread));
              if d.Ok? then r == Ok(d.value.value) && unread == old(unread)[d.value.size..] else r == Err(d.error)
    {
      var header := DecodeFixedHeader();
      if header.Err? {
        return Err(header.error);
      }
      var data := [];
      if header.value.remaining > 0 {
        var body := ReadFull(header.value.remaining);
        if body.Err? {
          return Err(body.error);
        }
        data := body.value;
      }
      return Ok(Frame(header.value, data));
    }
  }
}

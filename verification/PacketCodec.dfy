/** PUBLISH and acknowledgement packets, and streams of them
    (internal/codec/publish.go, reader.go). */
module PacketCodec {
  import opened ByteStrings
  import opened WireFormat
  import opened PropertyCodec

  const PUBLISH: Byte := 3

  // ----- PUBLISH -----

  datatype PublishPacket = PublishPacket(
    topic: Bytes, packetID: U16, qos: Byte, dup: bool, retain: bool,
    payload: Bytes, properties: Option<Properties>, version: Byte)

  function IdPart(p: PublishPacket): Bytes { if p.qos > 0 then Encode16(p.packetID) else [] }

  function PropertyPart(p: PublishPacket): Bytes {
    if p.version == 5 then EncodeProperties(p.properties) else []
  }

  function PublishBody(p: PublishPacket): Bytes {
    EncodeBlob(p.topic) + (IdPart(p) + (PropertyPart(p) + p.payload))
  }

  function EncodePublish(p: PublishPacket): Bytes {
    EncodeFrame(Frame(FixedHeader(PUBLISH, p.dup, p.qos, p.retain, |PublishBody(p)|), PublishBody(p)))
  }

  /** Packet id, read only above QoS 0. */
  function DecodeId(s: Bytes, qos: Byte): (r: Result<Read<U16>>)
    ensures r.Ok? ==> r.value.size <= |s|
  {
    if qos == 0 then Ok(Read(0, 0))
    else if |s| < 2 then Err(Malformed)
    else Ok(Read(Decode16(s), 2))
  }

  /** Property block, read only for protocol version 5. */
  function DecodeProps(s: Bytes, version: Byte): (r: Result<Read<Option<Properties>>>)
    ensures r.Ok? ==> r.value.size <= |s|
  {
    if version != 5 then Ok(Read(None, 0))
    else
      var block :- DecodePropertyBlock(s);
      Ok(Read(Some(block.value), block.size))
  }

  function DecodePublish(data: Bytes, qos: Byte, version: Byte): Result<PublishPacket> {
    var topic :- DecodeBlob(data, |data|);
    var afterTopic := data[topic.size..];
    var id :- DecodeId(afterTopic, qos);
    var afterId := afterTopic[id.size..];
    var props :- DecodeProps(afterId, version);
    Ok(PublishPacket(topic.value, id.value, qos, false, false, afterId[props.size..], props.value, version))
  }

  /** Frame, body, and the flags only the fixed header carries. */
  function ReadPublish(s: Bytes, version: Byte): Result<Read<PublishPacket>> {
    var f :- ParseFrame(s);
    var p :- DecodePublish(f.value.body, f.value.header.qos, version);
    Ok(Read(p.(dup := f.value.header.dup, retain := f.value.header.retain), f.size))
  }

  /** What a receiver can know: ids only above QoS 0, properties only in version 5. */
  function PublishNormal(p: PublishPacket): PublishPacket {
    p.(packetID := if p.qos == 0 then 0 else p.packetID,
       properties := if p.version == 5 then Some(OrEmpty(p.properties)) else None)
  }

  ghost predicate PublishFits(p: PublishPacket) {
    && |p.topic| <= 0xFFFF && p.qos < 4 && |PublishBody(p)| <= MAX_VAR
    && (p.version == 5 ==> Fits(OrEmpty(p.properties)))
  }

  lemma PropsRoundTrip(p: PublishPacket)
    ensures var r := DecodeProps(PropertyPart(p) + p.payload, p.version);
            && (p.version == 5 && |PropertyPart(p)| <= MAX_VAR ==>
                  (r == Ok(Read(Some(OrEmpty(p.properties)), |PropertyPart(p)|)) <==> Fits(OrEmpty(p.properties)))
                  && (r.Ok? && r.value.value == Some(OrEmpty(p.properties)) ==> Fits(OrEmpty(p.properties))))
            && (p.version != 5 ==> r == Ok(Read(None, |PropertyPart(p)|)))
  {
    if p.version == 5 {
      PropertiesRoundTrip(p.properties, p.payload);
      BlockLength(p.properties);
    }
  }

  lemma BlockLength(p: Option<Properties>)
    ensures |Body(OrEmpty(p))| < |EncodeProperties(p)|
  {
    EmptyFits();
  }

  lemma BodyRoundTrip(p: PublishPacket)
    requires |p.topic| <= 0xFFFF && |PublishBody(p)| <= MAX_VAR
    ensures DecodePublish(PublishBody(p), p.qos, p.version) == Ok(PublishNormal(p).(dup := false, retain := false))
            <==> (p.version == 5 ==> Fits(OrEmpty(p.properties)))
  {
    hide DecodePropertyBlock, EncodeProperties, Fits;
    var data := PublishBody(p);
    var tail := IdPart(p) + (PropertyPart(p) + p.payload);
    BlobRoundTrip(p.topic, tail, |data|);
    assert data[2 + |p.topic|..] == tail;
    RoundTrip16(p.packetID, PropertyPart(p) + p.payload);
    assert DecodeId(tail, p.qos) == Ok(Read(PublishNormal(p).packetID, |IdPart(p)|));
    assert tail[|IdPart(p)|..] == PropertyPart(p) + p.payload;
    PropsRoundTrip(p);
    assert (PropertyPart(p) + p.payload)[|PropertyPart(p)|..] == p.payload;
  }

  /** PUBLISH round trip: a receiver of the encoding gets exactly the packet and
      leaves exactly the bytes behind it, if and only if the packet fits. */
  lemma PublishRoundTrip(p: PublishPacket, rest: Bytes)
    ensures ReadPublish(EncodePublish(p) + rest, p.version) == Ok(Read(PublishNormal(p), |EncodePublish(p)|))
            <==> PublishFits(p)
  {
    hide DecodePublish, PublishBody, HeaderOf, FirstByte, Fits, ParseFrame, EncodeFrame;
    var body := PublishBody(p);
    var header := FixedHeader(PUBLISH, p.dup, p.qos, p.retain, |body|);
    if |body| <= MAX_VAR {
      FrameRoundTrip(Frame(header, body), rest);
      HeaderFields(header);
      DecodedBounds(body, p.qos % 4, p.version);
      if p.qos < 4 && |p.topic| <= 0xFFFF {
        BodyRoundTrip(p);
      }
    } else {
      OversizedFrame(Frame(header, body), rest);
    }
  }

  lemma DecodedBounds(data: Bytes, qos: Byte, version: Byte)
    ensures var r := DecodePublish(data, qos, version);
            r.Ok? ==> |r.value.topic| <= 0xFFFF && r.value.qos == qos && !r.value.dup && !r.value.retain
  {
    hide DecodeProps, DecodeId;
  }

  lemma OversizedFrame(f: Frame, rest: Bytes)
    requires f.header.remaining > MAX_VAR
    ensures ParseFrame(EncodeFrame(f) + rest).Err?
  {
    assert EncodeFrame(f) + rest == EncodeHeader(f.header) + (f.body + rest);
    HeaderRoundTrip(f.header, f.body + rest);
  }

  /** `handlePublish` decodes every PUBLISH as protocol version 4. The payload it reads
      is the sender's if and only if the sender does not use version 5: otherwise the
      property block becomes the front of the payload. */
  lemma Version5ReadAs4(p: PublishPacket, rest: Bytes)
    requires PublishFits(p)
    ensures var r := ReadPublish(EncodePublish(p) + rest, 4);
            && r.Ok? && r.value.value.topic == p.topic
            && r.value.value.payload == PropertyPart(p) + p.payload
            && (r.value.value.payload == p.payload <==> p.version != 5)
  {
    hide DecodePropertyBlock, EncodeProperties, Fits, ParseFrame;
    var q := p.(version := 4, payload := PropertyPart(p) + p.payload);
    assert PropertyPart(q) + q.payload == q.payload;
    assert PublishBody(q) == PublishBody(p);
    PublishRoundTrip(q, rest);
    assert p.version == 5 ==> |q.payload| > |p.payload|;
    assert p.version != 5 ==> q.payload == p.payload;
  }

  // ----- Acknowledgements -----

  datatype AckKind = Puback | Pubrec | Pubrel | Pubcomp

  datatype AckPacket = AckPacket(
    kind: AckKind, packetID: U16, reasonCode: Byte, properties: Option<Properties>, version: Byte)

  function AckType(kind: AckKind): Byte {
    match kind case Puback => 4 case Pubrec => 5 case Pubrel => 6 case Pubcomp => 7
  }

  /** Reason code and properties are sent only in version 5, and only if they say something. */
  predicate LongForm(p: AckPacket) { p.version == 5 && (p.reasonCode != 0 || p.properties.Some?) }

  function AckBody(p: AckPacket): Bytes {
    Encode16(p.packetID) + if LongForm(p) then [p.reasonCode] + EncodeProperties(p.properties) else []
  }

  /** PUBREL carries the fixed flags 0010, which the encoder writes as QoS 1. */
  function AckHeader(p: AckPacket): FixedHeader {
    FixedHeader(AckType(p.kind), false, if p.kind == Pubrel then 1 else 0, false, |AckBody(p)|)
  }

  function EncodeAck(p: AckPacket): Bytes { EncodeFrame(Frame(AckHeader(p), AckBody(p))) }

  function DecodeAck(kind: AckKind, data: Bytes, version: Byte): Result<AckPacket> {
    if |data| < 2 then Err(Malformed)
    else if version != 5 || |data| == 2 then Ok(AckPacket(kind, Decode16(data), 0, None, version))
    else if |data| == 3 then Ok(AckPacket(kind, Decode16(data), data[2], None, version))
    else
      var block :- DecodePropertyBlock(data[3..]);
      Ok(AckPacket(kind, Decode16(data), data[2], Some(block.value), version))
  }

  function AckNormal(p: AckPacket): AckPacket {
    if LongForm(p) then p.(properties := Some(OrEmpty(p.properties))) else p.(reasonCode := 0, properties := None)
  }

  ghost predicate AckFits(p: AckPacket) {
    LongForm(p) ==> |AckBody(p)| <= MAX_VAR && Fits(OrEmpty(p.properties))
  }

  lemma AckBodyRoundTrip(p: AckPacket)
    requires |AckBody(p)| <= MAX_VAR
    ensures DecodeAck(p.kind, AckBody(p), p.version) == Ok(AckNormal(p)) <==> AckFits(p)
  {
    hide DecodePropertyBlock, EncodeProperties, FieldsFit, Body;
    var data := AckBody(p);
    if LongForm(p) {
      var block := EncodeProperties(p.properties);
      RoundTrip16(p.packetID, [p.reasonCode] + block);
      assert data[3..] == block + [];
      PropertiesRoundTrip(p.properties, []);
      BlockLength(p.properties);
    } else {
      RoundTrip16(p.packetID, []);
      assert Encode16(p.packetID) + [] == data;
    }
  }

  // ----- Packet streams -----

  datatype Packet = Publish(publish: PublishPacket) | Ack(ack: AckPacket)

  function Version(p: Packet): Byte { if p.Publish? then p.publish.version else p.ack.version }

  function EncodePacket(p: Packet): Bytes { if p.Publish? then EncodePublish(p.publish) else EncodeAck(p.ack) }

  function Normal(p: Packet): Packet {
    if p.Publish? then Publish(PublishNormal(p.publish)) else Ack(AckNormal(p.ack))
  }

  ghost predicate PacketFits(p: Packet) { if p.Publish? then PublishFits(p.publish) else AckFits(p.ack) }

  function KindOfType(t: Byte): Option<AckKind> {
    match t case 4 => Some(Puback) case 5 => Some(Pubrec) case 6 => Some(Pubrel) case 7 => Some(Pubcomp) case _ => None
  }

  /** The decoder a frame's packet type selects. */
  function DecodeFrame(f: Frame, version: Byte): Result<Packet> {
    if f.header.packetType == PUBLISH then
      var p :- DecodePublish(f.body, f.header.qos, version);
      Ok(Publish(p.(dup := f.header.dup, retain := f.header.retain)))
    else if KindOfType(f.header.packetType).Some? then
      var a :- DecodeAck(KindOfType(f.header.packetType).value, f.body, version);
      Ok(Ack(a))
    else Err(Malformed)
  }

  function ReadNext(s: Bytes, version: Byte): (r: Result<Read<Packet>>)
    ensures r.Ok? ==> 2 <= r.value.size <= |s|
  {
    var f :- ParseFrame(s);
    var p :- DecodeFrame(f.value, version);
    Ok(Read(p, f.size))
  }

  /** One packet off a stream: exact for every packet that fits, and only for those. */
  lemma PacketRoundTrip(p: Packet, rest: Bytes)
    ensures ReadNext(EncodePacket(p) + rest, Version(p)) == Ok(Read(Normal(p), |EncodePacket(p)|)) <==> PacketFits(p)
  {
    match p
    case Publish(pub) => PublishPacketRoundTrip(pub, rest);
    case Ack(a) => AckRoundTrip(a, rest);
  }

  lemma PublishPacketRoundTrip(p: PublishPacket, rest: Bytes)
    ensures ReadNext(EncodePublish(p) + rest, p.version) == Ok(Read(Publish(PublishNormal(p)), |EncodePublish(p)|))
            <==> PublishFits(p)
  {
    hide DecodePublish, PublishFits, PublishBody;
    PublishRoundTrip(p, rest);
    var body := PublishBody(p);
    var header := FixedHeader(PUBLISH, p.dup, p.qos, p.retain, |body|);
    if |body| <= MAX_VAR {
      FrameRoundTrip(Frame(header, body), rest);
      HeaderFields(header);
    } else {
      OversizedFrame(Frame(header, body), rest);
    }
  }

  lemma AckRoundTrip(p: AckPacket, rest: Bytes)
    ensures ReadNext(EncodeAck(p) + rest, p.version) == Ok(Read(Ack(AckNormal(p)), |EncodeAck(p)|)) <==> AckFits(p)
  {
    hide DecodeAck, Fits, ParseFrame, EncodeProperties;
    var f := Frame(AckHeader(p), AckBody(p));
    if |f.body| <= MAX_VAR {
      FrameRoundTrip(f, rest);
      HeaderFields(f.header);
      AckBodyRoundTrip(p);
    } else {
      OversizedFrame(f, rest);
    }
  }

  datatype Stream = Stream(packets: seq<Packet>, end: Error)

  /** Read packets until the first error. */
  function ReadAll(s: Bytes, version: Byte): Stream
    decreases |s|
  {
    var next := ReadNext(s, version);
    if next.Err? then Stream([], next.error)
    else
      var rest := ReadAll(s[next.value.size..], version);
      Stream([next.value.value] + rest.packets, rest.end)
  }

  function EncodeAll(ps: seq<Packet>): Bytes {
    Concat(seq(|ps|, i requires 0 <= i < |ps| => EncodePacket(ps[i])))
  }

  function Normals(ps: seq<Packet>): seq<Packet> { seq(|ps|, i requires 0 <= i < |ps| => Normal(ps[i])) }

  lemma EncodeAllHead(ps: seq<Packet>)
    requires ps != []
    ensures EncodeAll(ps) == EncodePacket(ps[0]) + EncodeAll(ps[1..])
  {
    var chunks := seq(|ps|, i requires 0 <= i < |ps| => EncodePacket(ps[i]));
    ConcatHead(chunks);
    assert chunks[1..] == seq(|ps[1..]|, i requires 0 <= i < |ps[1..]| => EncodePacket(ps[1..][i]));
  }

  ghost predicate AllFit(ps: seq<Packet>) { forall p :: p in ps ==> PacketFits(p) }

  /** Packet framing is self-delimiting: a concatenation of encodings reads back as
      the same packets, followed by whatever the bytes behind it read as. */
  lemma {:induction false} StreamContinues(ps: seq<Packet>, version: Byte, rest: Bytes)
    requires AllFit(ps) && forall p :: p in ps ==> Version(p) == version
    ensures ReadAll(EncodeAll(ps) + rest, version) ==
            Stream(Normals(ps) + ReadAll(rest, version).packets, ReadAll(rest, version).end)
    decreases |ps|
  {
    hide ReadNext, EncodePacket, PacketFits, Normal;
    if ps == [] {
      assert EncodeAll(ps) + rest == rest;
      assert Normals(ps) + ReadAll(rest, version).packets == ReadAll(rest, version).packets;
    } else {
      var p, tail := ps[0], ps[1..];
      assert p in ps && forall q :: q in tail ==> q in ps;
      EncodeAllHead(ps);
      var s := EncodeAll(ps) + rest;
      assert s == EncodePacket(p) + (EncodeAll(tail) + rest);
      PacketRoundTrip(p, EncodeAll(tail) + rest);
      assert s[|EncodePacket(p)|..] == EncodeAll(tail) + rest;
      StreamContinues(tail, version, rest);
      assert Normals(ps) == [Normal(p)] + Normals(tail);
    }
  }

  /** A packet that reads at all is read over its own bytes. */
  lemma ReadsOwnBytes(p: Packet, rest: Bytes)
    ensures var r := ReadNext(EncodePacket(p) + rest, Version(p)); r.Ok? ==> r.value.size == |EncodePacket(p)|
  {
    hide DecodeFrame, ParseFrame, PublishBody, AckBody;
    var f := if p.Publish? then Frame(FixedHeader(PUBLISH, p.publish.dup, p.publish.qos, p.publish.retain, |PublishBody(p.publish)|), PublishBody(p.publish))
             else Frame(AckHeader(p.ack), AckBody(p.ack));
    assert EncodePacket(p) == EncodeFrame(f);
    if |f.body| <= MAX_VAR { FrameRoundTrip(f, rest); } else { OversizedFrame(f, rest); }
  }

  /** A list of packets of one version reads back as itself, and cleanly to the end, if
      and only if every packet of it fits. */
  lemma {:induction false} StreamRoundTrip(ps: seq<Packet>, version: Byte)
    requires forall p :: p in ps ==> Version(p) == version
    ensures ReadAll(EncodeAll(ps), version) == Stream(Normals(ps), Eof) <==> AllFit(ps)
    decreases |ps|
  {
    hide ReadNext, EncodePacket, PacketFits, Normal;
    if ps == [] {
      assert EncodeAll(ps) == [];
      NoInput(version);
    } else {
      var p, tail := ps[0], ps[1..];
      assert p in ps && forall q :: q in tail ==> q in ps;
      assert AllFit(ps) <==> PacketFits(p) && AllFit(tail) by { assert ps == [p] + tail; }
      EncodeAllHead(ps);
      var s := EncodeAll(ps);
      PacketRoundTrip(p, EncodeAll(tail));
      ReadsOwnBytes(p, EncodeAll(tail));
      assert s[|EncodePacket(p)|..] == EncodeAll(tail);
      assert Normals(ps) == [Normal(p)] + Normals(tail);
      var next := ReadNext(s, version);
      if next.Ok? {
        var rest := ReadAll(EncodeAll(tail), version);
        assert ReadAll(s, version) == Stream([next.value.value] + rest.packets, rest.end);
        assert ([next.value.value] + rest.packets)[1..] == rest.packets && Normals(ps)[1..] == Normals(tail);
        StreamRoundTrip(tail, version);
      }
    }
  }

  lemma NoInput(version: Byte)
    ensures ReadNext([], version) == Err(Eof)
  {
  }

  // ----- Truncated input -----

  lemma {:induction false} VarTruncated(n: nat, k: nat, j: nat)
    requires j < |EncodeVar(n)| <= k
    ensures DecodeVar(EncodeVar(n)[..j], k, Eof) == Err(Eof)
    decreases n
  {
    if j > 0 {
      assert EncodeVar(n)[..j][1..] == EncodeVar(n / 128)[..j - 1];
      VarTruncated(n / 128, k - 1, j - 1);
    }
  }

  lemma {:induction false} VarLength(n: nat, k: nat)
    requires 1 <= k && n < Pow128(k)
    ensures |EncodeVar(n)| <= k
    decreases k
  {
    if n >= 128 {
      assert k > 1 by { assert Pow128(1) == 128; }
      VarLength(n / 128, k - 1);
    }
  }

  /** No proper prefix of a packet reads as a packet or as malformed: the reader
      reports that input is missing. */
  lemma TruncatedPacket(p: Packet, n: nat, version: Byte)
    requires PacketFits(p) && n < |EncodePacket(p)|
    ensures ReadNext(EncodePacket(p)[..n], version) in {Err(Eof), Err(UnexpectedEof)}
  {
    var f := if p.Publish?
             then Frame(FixedHeader(PUBLISH, p.publish.dup, p.publish.qos, p.publish.retain, |PublishBody(p.publish)|),
                        PublishBody(p.publish))
             else Frame(AckHeader(p.ack), AckBody(p.ack));
    assert EncodePacket(p) == EncodeFrame(f);
    if p.Ack? { ShortAck(p.ack); }
    TruncatedFrame(f, n);
  }

  lemma ShortAck(p: AckPacket)
    requires AckFits(p)
    ensures |AckBody(p)| <= MAX_VAR
  {
  }

  lemma TruncatedFrame(f: Frame, n: nat)
    requires f.header.remaining == |f.body| <= MAX_VAR && n < |EncodeFrame(f)|
    ensures ParseFrame(EncodeFrame(f)[..n]) in {Err(Eof), Err(UnexpectedEof)}
  {
    var s, k := EncodeFrame(f)[..n], |EncodeHeader(f.header)|;
    FourBytes();
    VarLength(|f.body|, 4);
    if n == 0 {
    } else if n < k {
      assert s[1..] == EncodeVar(|f.body|)[..n - 1];
      VarTruncated(|f.body|, 4, n - 1);
    } else {
      assert s == EncodeHeader(f.header) + f.body[..n - k];
      HeaderRoundTrip(f.header, f.body[..n - k]);
      assert s[k..] == f.body[..n - k];
    }
  }

  // ----- As the source runs -----

  /** `PublishPacket.Encode`: sum the remaining length, then append part by part. */
  method EncodePublishPacket(p: PublishPacket) returns (buf: Bytes)
    ensures buf == EncodePublish(p)
  {
    hide EncodeProperties, Encode16, FirstByte, EncodeVar;
    var remaining := 2 + |p.topic| + |p.payload|;
    if p.qos > 0 {
      remaining := remaining + 2;
    }
    var propsData := [];
    if p.version == 5 {
      propsData := PropertyCodec.Encode(p.properties);
      remaining := remaining + |propsData|;
    }
    var length := EncodeVarInt(remaining);
    buf := [FirstByte(FixedHeader(PUBLISH, p.dup, p.qos, p.retain, remaining))] + length;
    ghost var header := buf;
    buf := buf + Encode16(|p.topic|);
    buf := buf + p.topic;
    if p.qos > 0 {
      buf := buf + Encode16(p.packetID);
    }
    if p.version == 5 {
      buf := buf + propsData;
    }
    buf := buf + p.payload;
    assert remaining == |PublishBody(p)|;
    assert buf == header + PublishBody(p);
  }

  method DecodeBlockAt(data: Bytes, offset: nat) returns (r: Result<Read<Properties>>)
    requires offset <= |data|
    ensures r == DecodePropertyBlock(data[offset..])
  {
    hide DecodeProperties, DecodeVar;
    var propLen := DecodeVarInt(data, offset);
    if propLen.Err? {
      return Err(propLen.error);
    }
    var start := offset + propLen.value.size;
    assert data[offset..][propLen.value.size..] == data[start..];
    var props := PropertyCodec.Decode(data[start..], propLen.value.value);
    if props.Err? {
      return Err(props.error);
    }
    return Ok(Read(props.value, propLen.value.size + propLen.value.value));
  }

  /** `DecodePublishPacket`: an offset advanced over topic, id and properties. */
  method DecodePublishPacket(data: Bytes, qos: Byte, version: Byte) returns (r: Result<PublishPacket>)
    ensures r == DecodePublish(data, qos, version)
  {
    hide DecodePropertyBlock, DecodeBlob, Decode16;
    var offset := 0;
    var topic := DecodeBlob(data, |data|);
    if topic.Err? {
      return Err(topic.error);
    }
    offset := offset + topic.value.size;
    ghost var afterTopic := data[offset..];
    var packetID: U16 := 0;
    if qos > 0 {
      if offset + 2 > |data| {
        return Err(Malformed);
      }
      packetID := Decode16(data[offset..]);
      offset := offset + 2;
    }
    ghost var afterId := data[offset..];
    assert DecodeId(afterTopic, qos) == Ok(Read(packetID, offset - topic.value.size));
    assert afterTopic[offset - topic.value.size..] == afterId;
    var properties: Option<Properties> := None;
    ghost var start := offset;
    if version == 5 {
      var block := DecodeBlockAt(data, offset);
      if block.Err? {
        return Err(block.error);
      }
      properties := Some(block.value.value);
      offset := offset + block.value.size;
    }
    assert DecodeProps(afterId, version) == Ok(Read(properties, offset - start));
    var payload := [];
    if offset < |data| {
      payload := data[offset..];
    }
    assert afterId[offset - start..] == payload;
    return Ok(PublishPacket(topic.value.value, packetID, qos, false, false, payload, properties, version));
  }

  /** The four `Encode` methods of the acknowledgements. */
  method EncodeAckPacket(p: AckPacket) returns (buf: Bytes)
    ensures buf == EncodeAck(p)
  {
    var body := Encode16(p.packetID);
    if p.version == 5 && (p.reasonCode != 0 || p.properties.Some?) {
      var propsData := PropertyCodec.Encode(p.properties);
      body := body + [p.reasonCode];
      body := body + propsData;
    }
    assert body == AckBody(p);
    var length := EncodeVarInt(|body|);
    hide AckBody, FirstByte, EncodeVar;
    buf := [FirstByte(AckHeader(p))] + length;
    buf := buf + body;
  }
}

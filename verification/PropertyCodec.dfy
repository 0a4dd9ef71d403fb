/** MQTT 5 properties: a record of optional fields printed in a fixed order and
    parsed in any order (internal/codec/properties.go). */
module PropertyCodec {
  import opened ByteStrings
  import opened WireFormat

  datatype UserProperty = UserProperty(key: Bytes, value: Bytes)

  /** `None` is a nil reference or nil slice. */
  datatype Properties = Properties(
    sessionExpiryInterval: Option<U32>,
    receiveMaximum: Option<U16>,
    maximumQoS: Option<Byte>,
    retainAvailable: Option<Byte>,
    maximumPacketSize: Option<U32>,
    assignedClientIdentifier: Option<Bytes>,
    topicAliasMaximum: Option<U16>,
    reasonString: Option<Bytes>,
    wildcardSubAvailable: Option<Byte>,
    subIdentifierAvailable: Option<Byte>,
    sharedSubAvailable: Option<Byte>,
    serverKeepAlive: Option<U16>,
    serverReference: Option<Bytes>,
    responseInformation: Option<Bytes>,
    payloadFormatIndicator: Option<Byte>,
    messageExpiryInterval: Option<U32>,
    topicAlias: Option<U16>,
    responseTopic: Option<Bytes>,
    correlationData: Option<Bytes>,
    contentType: Option<Bytes>,
    subscriptionIdentifier: Option<U32>,
    willDelayInterval: Option<U32>,
    authenticationMethod: Option<Bytes>,
    authenticationData: Option<Bytes>,
    requestProblemInfo: Option<Byte>,
    requestResponseInfo: Option<Byte>,
    userProperties: seq<UserProperty>)

  const EMPTY: Properties := Properties(
    None, None, None, None, None, None, None, None, None, None, None, None, None,
    None, None, None, None, None, None, None, None, None, None, None, None, None, [])

  const USER_PROPERTY: Byte := 0x26

  /** The order in which `Encode` writes the fields. */
  const ORDER: seq<Byte> := [
    0x11, 0x21, 0x24, 0x25, 0x27, 0x12, 0x22, 0x1F, 0x28, 0x29, 0x2A, 0x13, 0x1C,
    0x1A, 0x01, 0x02, 0x23, 0x08, 0x09, 0x03, 0x0B, 0x18, 0x15, 0x16, 0x17, 0x19]

  // ----- Single properties -----

  datatype Kind = Octet | Short | Long | Text | VarInt | Pair

  datatype Value =
    | U8(u8: Byte)
    | U16(u16: U16)
    | U32(u32: U32)
    | Blob(blob: Bytes)
    | Var(n: nat)
    | KeyValue(k: Bytes, v: Bytes)

  datatype Field = Field(id: Byte, value: Value)

  /** The reader the decoder's switch picks for an identifier. */
  function KindOf(id: Byte): Option<Kind> {
    match id
    case 0x01 | 0x17 | 0x19 | 0x24 | 0x25 | 0x28 | 0x29 | 0x2A => Some(Octet)
    case 0x13 | 0x21 | 0x22 | 0x23 => Some(Short)
    case 0x02 | 0x11 | 0x18 | 0x27 => Some(Long)
    case 0x03 | 0x08 | 0x09 | 0x12 | 0x15 | 0x16 | 0x1A | 0x1C | 0x1F => Some(Text)
    case 0x0B => Some(VarInt)
    case 0x26 => Some(Pair)
    case _ => None
  }

  predicate HasKind(v: Value, kind: Kind) {
    match kind
    case Octet => v.U8?
    case Short => v.U16?
    case Long => v.U32?
    case Text => v.Blob?
    case VarInt => v.Var?
    case Pair => v.KeyValue?
  }

  /** Values the wire format can carry. */
  predicate ValueFits(v: Value) {
    match v
    case Blob(b) => |b| <= 0xFFFF
    case Var(n) => n <= MAX_VAR
    case KeyValue(k, x) => |k| <= 0xFFFF && |x| <= 0xFFFF
    case _ => true
  }

  function EncodeValue(v: Value): Bytes {
    match v
    case U8(b) => [b]
    case U16(n) => Encode16(n)
    case U32(n) => Encode32(n)
    case Blob(b) => EncodeBlob(b)
    case Var(n) => EncodeVar(n)
    case KeyValue(k, x) => EncodeBlob(k) + EncodeBlob(x)
  }

  function ReadPair(s: Bytes, limit: int): (r: Result<Read<Value>>)
    ensures r.Ok? ==> r.value.size <= |s| && HasKind(r.value.value, Pair) && ValueFits(r.value.value)
  {
    var k :- DecodeBlob(s, limit);
    var v :- DecodeBlob(s[k.size..], limit - k.size);
    Ok(Read(KeyValue(k.value, v.value), k.size + v.size))
  }

  function ReadVar(s: Bytes): (r: Result<Read<Value>>)
    ensures r.Ok? ==> r.value.size <= |s| && HasKind(r.value.value, VarInt) && ValueFits(r.value.value)
  {
    var n :- DecodeVar(s, 4, Malformed);
    VarBounded(s, 4, Malformed);
    FourBytes();
    Ok(Read(Var(n.value), n.size))
  }

  /** The readers. `limit` is the distance to the end of the property block, which
      every reader respects except the one for variable-length integers. */
  function ReadValue(kind: Kind, s: Bytes, limit: int): (r: Result<Read<Value>>)
    ensures r.Ok? ==> r.value.size <= |s| && HasKind(r.value.value, kind) && ValueFits(r.value.value)
  {
    match kind
    case Octet => if limit < 1 || |s| < 1 then Err(Malformed) else Ok(Read(U8(s[0]), 1))
    case Short => if limit < 2 || |s| < 2 then Err(Malformed) else Ok(Read(U16(Decode16(s)), 2))
    case Long => if limit < 4 || |s| < 4 then Err(Malformed) else Ok(Read(U32(Decode32(s)), 4))
    case Text => var b :- DecodeBlob(s, limit); Ok(Read(Blob(b.value), b.size))
    case VarInt => ReadVar(s)
    case Pair => ReadPair(s, limit)
  }

  lemma PairRoundTrip(k: Bytes, x: Bytes, rest: Bytes, limit: int)
    requires |k| <= 0xFFFF && |x| <= 0xFFFF && limit >= 4 + |k| + |x|
    ensures ReadPair(EncodeBlob(k) + EncodeBlob(x) + rest, limit) == Ok(Read(KeyValue(k, x), 4 + |k| + |x|))
  {
    var s := EncodeBlob(k) + EncodeBlob(x) + rest;
    assert s == EncodeBlob(k) + (EncodeBlob(x) + rest);
    BlobRoundTrip(k, EncodeBlob(x) + rest, limit);
    assert s[2 + |k|..] == EncodeBlob(x) + rest;
    BlobRoundTrip(x, rest, limit - 2 - |k|);
  }

  lemma ValueRoundTrip(kind: Kind, v: Value, rest: Bytes, limit: int)
    requires HasKind(v, kind) && ValueFits(v) && limit >= |EncodeValue(v)|
    ensures ReadValue(kind, EncodeValue(v) + rest, limit) == Ok(Read(v, |EncodeValue(v)|))
  {
    match kind
    case Octet =>
    case Short => RoundTrip16(v.u16, rest);
    case Long => RoundTrip32(v.u32, rest);
    case Text => BlobRoundTrip(v.blob, rest, limit);
    case VarInt => VarRoundTrip(v.n, rest, 4, Malformed); FourBytes();
    case Pair => PairRoundTrip(v.k, v.v, rest, limit);
  }

  predicate FieldFits(f: Field) {
    KindOf(f.id).Some? && HasKind(f.value, KindOf(f.id).value) && ValueFits(f.value)
  }

  // ----- Record fields and their identifiers -----

  /** What `Encode` writes under an identifier, if the field is set. */
  function Get(p: Properties, id: Byte): Option<Value> {
    match id
    case 0x11 => Opt32(p.sessionExpiryInterval)
    case 0x21 => Opt16(p.receiveMaximum)
    case 0x24 => Opt8(p.maximumQoS)
    case 0x25 => Opt8(p.retainAvailable)
    case 0x27 => Opt32(p.maximumPacketSize)
    case 0x12 => OptBlob(p.assignedClientIdentifier)
    case 0x22 => Opt16(p.topicAliasMaximum)
    case 0x1F => OptBlob(p.reasonString)
    case 0x28 => Opt8(p.wildcardSubAvailable)
    case 0x29 => Opt8(p.subIdentifierAvailable)
    case 0x2A => Opt8(p.sharedSubAvailable)
    case 0x13 => Opt16(p.serverKeepAlive)
    case 0x1C => OptBlob(p.serverReference)
    case 0x1A => OptBlob(p.responseInformation)
    case 0x01 => Opt8(p.payloadFormatIndicator)
    case 0x02 => Opt32(p.messageExpiryInterval)
    case 0x23 => Opt16(p.topicAlias)
    case 0x08 => OptBlob(p.responseTopic)
    case 0x09 => OptBlob(p.correlationData)
    case 0x03 => OptBlob(p.contentType)
    case 0x0B => OptVar(p.subscriptionIdentifier)
    case 0x18 => Opt32(p.willDelayInterval)
    case 0x15 => OptBlob(p.authenticationMethod)
    case 0x16 => OptBlob(p.authenticationData)
    case 0x17 => Opt8(p.requestProblemInfo)
    case 0x19 => Opt8(p.requestResponseInfo)
    case _ => None
  }

  function Opt8(v: Option<Byte>): Option<Value> { if v.None? then None else Some(U8(v.value)) }
  function Opt16(v: Option<U16>): Option<Value> { if v.None? then None else Some(U16(v.value)) }
  function Opt32(v: Option<U32>): Option<Value> { if v.None? then None else Some(U32(v.value)) }
  function OptBlob(v: Option<Bytes>): Option<Value> { if v.None? then None else Some(Blob(v.value)) }
  function OptVar(v: Option<U32>): Option<Value> { if v.None? then None else Some(Var(v.value)) }

  /** The assignment each case of the decoder's switch makes. */
  function Assign(p: Properties, f: Field): Properties
    requires FieldFits(f)
  {
    match f.id
    case 0x11 => p.(sessionExpiryInterval := Some(f.value.u32))
    case 0x21 => p.(receiveMaximum := Some(f.value.u16))
    case 0x24 => p.(maximumQoS := Some(f.value.u8))
    case 0x25 => p.(retainAvailable := Some(f.value.u8))
    case 0x27 => p.(maximumPacketSize := Some(f.value.u32))
    case 0x12 => p.(assignedClientIdentifier := Some(f.value.blob))
    case 0x22 => p.(topicAliasMaximum := Some(f.value.u16))
    case 0x1F => p.(reasonString := Some(f.value.blob))
    case 0x28 => p.(wildcardSubAvailable := Some(f.value.u8))
    case 0x29 => p.(subIdentifierAvailable := Some(f.value.u8))
    case 0x2A => p.(sharedSubAvailable := Some(f.value.u8))
    case 0x13 => p.(serverKeepAlive := Some(f.value.u16))
    case 0x1C => p.(serverReference := Some(f.value.blob))
    case 0x1A => p.(responseInformation := Some(f.value.blob))
    case 0x01 => p.(payloadFormatIndicator := Some(f.value.u8))
    case 0x02 => p.(messageExpiryInterval := Some(f.value.u32))
    case 0x23 => p.(topicAlias := Some(f.value.u16))
    case 0x08 => p.(responseTopic := Some(f.value.blob))
    case 0x09 => p.(correlationData := Some(f.value.blob))
    case 0x03 => p.(contentType := Some(f.value.blob))
    case 0x0B => p.(subscriptionIdentifier := Some(f.value.n))
    case 0x18 => p.(willDelayInterval := Some(f.value.u32))
    case 0x15 => p.(authenticationMethod := Some(f.value.blob))
    case 0x16 => p.(authenticationData := Some(f.value.blob))
    case 0x17 => p.(requestProblemInfo := Some(f.value.u8))
    case 0x19 => p.(requestResponseInfo := Some(f.value.u8))
    case 0x26 => p.(userProperties := p.userProperties + [UserProperty(f.value.k, f.value.v)])
  }

  lemma AssignSame(p: Properties, f: Field)
    requires FieldFits(f) && f.id != USER_PROPERTY
    ensures Get(Assign(p, f), f.id) == Some(f.value)
    ensures Assign(p, f).userProperties == p.userProperties
  {
  }

  lemma AssignOther(p: Properties, f: Field, id: Byte)
    requires FieldFits(f) && f.id != id
    ensures Get(Assign(p, f), id) == Get(p, id)
  {
    hide Opt8, Opt16, Opt32, OptBlob, OptVar;
  }

  lemma OptInjective()
    ensures forall a, b :: Opt8(a) == Opt8(b) ==> a == b
    ensures forall a, b :: Opt16(a) == Opt16(b) ==> a == b
    ensures forall a, b :: Opt32(a) == Opt32(b) ==> a == b
    ensures forall a, b :: OptBlob(a) == OptBlob(b) ==> a == b
    ensures forall a, b :: OptVar(a) == OptVar(b) ==> a == b
  {
  }

  lemma GetPartA(p: Properties, q: Properties)
    requires forall id :: Get(p, id) == Get(q, id)
    ensures p.sessionExpiryInterval == q.sessionExpiryInterval && p.receiveMaximum == q.receiveMaximum && p.maximumQoS == q.maximumQoS
    ensures p.retainAvailable == q.retainAvailable && p.maximumPacketSize == q.maximumPacketSize && p.assignedClientIdentifier == q.assignedClientIdentifier
  {
    hide Opt8, Opt16, Opt32, OptBlob, OptVar;
    OptInjective();
    assert Get(p, 0x11) == Get(q, 0x11);
    assert Get(p, 0x21) == Get(q, 0x21);
    assert Get(p, 0x24) == Get(q, 0x24);
    assert Get(p, 0x25) == Get(q, 0x25);
    assert Get(p, 0x27) == Get(q, 0x27);
    assert Get(p, 0x12) == Get(q, 0x12);
  }

  lemma GetPartB(p: Properties, q: Properties)
    requires forall id :: Get(p, id) == Get(q, id)
    ensures p.topicAliasMaximum == q.topicAliasMaximum && p.reasonString == q.reasonString && p.wildcardSubAvailable == q.wildcardSubAvailable
    ensures p.subIdentifierAvailable == q.subIdentifierAvailable && p.sharedSubAvailable == q.sharedSubAvailable
  {
    hide Opt8, Opt16, Opt32, OptBlob, OptVar;
    OptInjective();
    assert Get(p, 0x22) == Get(q, 0x22);
    assert Get(p, 0x1F) == Get(q, 0x1F);
    assert Get(p, 0x28) == Get(q, 0x28);
    assert Get(p, 0x29) == Get(q, 0x29);
    assert Get(p, 0x2A) == Get(q, 0x2A);
  }

  lemma GetPartC(p: Properties, q: Properties)
    requires forall id :: Get(p, id) == Get(q, id)
    ensures p.serverKeepAlive == q.serverKeepAlive && p.serverReference == q.serverReference && p.responseInformation == q.responseInformation
    ensures p.payloadFormatIndicator == q.payloadFormatIndicator && p.messageExpiryInterval == q.messageExpiryInterval
  {
    hide Opt8, Opt16, Opt32, OptBlob, OptVar;
    OptInjective();
    assert Get(p, 0x13) == Get(q, 0x13);
    assert Get(p, 0x1C) == Get(q, 0x1C);
    assert Get(p, 0x1A) == Get(q, 0x1A);
    assert Get(p, 0x01) == Get(q, 0x01);
    assert Get(p, 0x02) == Get(q, 0x02);
  }

  lemma GetPartD(p: Properties, q: Properties)
    requires forall id :: Get(p, id) == Get(q, id)
    ensures p.topicAlias == q.topicAlias && p.responseTopic == q.responseTopic && p.correlationData == q.correlationData
    ensures p.contentType == q.contentType && p.subscriptionIdentifier == q.subscriptionIdentifier
  {
    hide Opt8, Opt16, Opt32, OptBlob, OptVar;
    OptInjective();
    assert Get(p, 0x23) == Get(q, 0x23);
    assert Get(p, 0x08) == Get(q, 0x08);
    assert Get(p, 0x09) == Get(q, 0x09);
    assert Get(p, 0x03) == Get(q, 0x03);
    assert Get(p, 0x0B) == Get(q, 0x0B);
  }

  lemma GetPartE(p: Properties, q: Properties)
    requires forall id :: Get(p, id) == Get(q, id)
    ensures p.willDelayInterval == q.willDelayInterval && p.authenticationMethod == q.authenticationMethod && p.authenticationData == q.authenticationData
    ensures p.requestProblemInfo == q.requestProblemInfo && p.requestResponseInfo == q.requestResponseInfo
  {
    hide Opt8, Opt16, Opt32, OptBlob, OptVar;
    OptInjective();
    assert Get(p, 0x18) == Get(q, 0x18);
    assert Get(p, 0x15) == Get(q, 0x15);
    assert Get(p, 0x16) == Get(q, 0x16);
    assert Get(p, 0x17) == Get(q, 0x17);
    assert Get(p, 0x19) == Get(q, 0x19);
  }

  /** The identifiers see the whole record. */
  lemma GetDetermines(p: Properties, q: Properties)
    requires forall id :: Get(p, id) == Get(q, id)
    requires p.userProperties == q.userProperties
    ensures p == q
  {
    hide Get;
    GetPartA(p, q);
    GetPartB(p, q);
    GetPartC(p, q);
    GetPartD(p, q);
    GetPartE(p, q);
  }

  lemma GetKind(p: Properties, id: Byte)
    requires Get(p, id).Some?
    ensures KindOf(id).Some? && HasKind(Get(p, id).value, KindOf(id).value) && id != USER_PROPERTY
  {
  }

  /** `Encode` writes every field. */
  lemma OrderComplete(id: Byte)
    requires KindOf(id).Some? && id != USER_PROPERTY
    ensures id in ORDER
  {
    match id
    case 0x11 => assert ORDER[0] == id;
    case 0x21 => assert ORDER[1] == id;
    case 0x24 => assert ORDER[2] == id;
    case 0x25 => assert ORDER[3] == id;
    case 0x27 => assert ORDER[4] == id;
    case 0x12 => assert ORDER[5] == id;
    case 0x22 => assert ORDER[6] == id;
    case 0x1F => assert ORDER[7] == id;
    case 0x28 => assert ORDER[8] == id;
    case 0x29 => assert ORDER[9] == id;
    case 0x2A => assert ORDER[10] == id;
    case 0x13 => assert ORDER[11] == id;
    case 0x1C => assert ORDER[12] == id;
    case 0x1A => assert ORDER[13] == id;
    case 0x01 => assert ORDER[14] == id;
    case 0x02 => assert ORDER[15] == id;
    case 0x23 => assert ORDER[16] == id;
    case 0x08 => assert ORDER[17] == id;
    case 0x09 => assert ORDER[18] == id;
    case 0x03 => assert ORDER[19] == id;
    case 0x0B => assert ORDER[20] == id;
    case 0x18 => assert ORDER[21] == id;
    case 0x15 => assert ORDER[22] == id;
    case 0x16 => assert ORDER[23] == id;
    case 0x17 => assert ORDER[24] == id;
    case 0x19 => assert ORDER[25] == id;
  }

  // ----- Property lists -----

  function EncodeField(f: Field): Bytes { [f.id] + EncodeValue(f.value) }

  function Chunks(fs: seq<Field>): seq<Bytes> {
    seq(|fs|, i requires 0 <= i < |fs| => EncodeField(fs[i]))
  }

  function EncodeFields(fs: seq<Field>): Bytes { Concat(Chunks(fs)) }

  lemma EncodeFieldsSnoc(fs: seq<Field>, f: Field)
    ensures EncodeFields(fs + [f]) == EncodeFields(fs) + EncodeField(f)
  {
    assert Chunks(fs + [f]) == Chunks(fs) + [EncodeField(f)];
    ConcatSnoc(Chunks(fs), EncodeField(f));
  }

  lemma EncodeFieldsHead(fs: seq<Field>, rest: Bytes)
    requires fs != []
    ensures EncodeFields(fs) + rest == EncodeField(fs[0]) + (EncodeFields(fs[1..]) + rest)
    ensures |EncodeFields(fs)| == |EncodeField(fs[0])| + |EncodeFields(fs[1..])|
  {
    hide EncodeField, Concat;
    assert Chunks(fs)[1..] == Chunks(fs[1..]);
    ConcatHead(Chunks(fs));
    Reassociate(EncodeField(fs[0]), EncodeFields(fs[1..]), rest);
  }

  lemma Reassociate(a: Bytes, b: Bytes, c: Bytes)
    ensures a + b + c == a + (b + c)
  {
  }

  ghost predicate AllFit(fs: seq<Field>) {
    forall f :: f in fs ==> FieldFits(f)
  }

  function AssignAll(p: Properties, fs: seq<Field>): Properties
    requires AllFit(fs)
  {
    if fs == [] then p else Assign(AssignAll(p, fs[..|fs| - 1]), fs[|fs| - 1])
  }

  /** One turn of the decoding loop: an identifier and its value. */
  function ReadField(s: Bytes, limit: int): (r: Result<Read<Field>>)
    ensures r.Ok? ==> 1 <= r.value.size <= |s| && FieldFits(r.value.value)
  {
    if s == [] || KindOf(s[0]).None? then Err(Malformed)
    else
      var v :- ReadValue(KindOf(s[0]).value, s[1..], limit - 1);
      Ok(Read(Field(s[0], v.value), 1 + v.size))
  }

  lemma FieldRoundTrip(f: Field, rest: Bytes, limit: int)
    requires FieldFits(f) && limit >= |EncodeField(f)|
    ensures ReadField(EncodeField(f) + rest, limit) == Ok(Read(f, |EncodeField(f)|))
  {
    var s := EncodeField(f) + rest;
    assert s[1..] == EncodeValue(f.value) + rest;
    ValueRoundTrip(KindOf(f.id).value, f.value, rest, limit - 1);
  }

  lemma PrependMore(fs: seq<Field>, f: Field, r: Result<seq<Field>>)
    ensures Prepend(fs + [f], r) == Prepend(fs, Prepend([f], r))
  {
    if r.Ok? { assert fs + [f] + r.value == fs + ([f] + r.value); }
  }

  lemma PrependNone(r: Result<seq<Field>>)
    ensures Prepend([], r) == r
  {
    if r.Ok? { assert [] + r.value == r.value; }
  }

  function Prepend(fs: seq<Field>, r: Result<seq<Field>>): Result<seq<Field>> {
    if r.Err? then r else Ok(fs + r.value)
  }

  /** The decoding loop, from any point inside the block: the fields it reads. */
  function ParseFields(s: Bytes, limit: int): (r: Result<seq<Field>>)
    ensures r.Ok? ==> AllFit(r.value)
    decreases |s|
  {
    if limit <= 0 then Ok([])
    else
      var f :- ReadField(s, limit);
      Prepend([f.value], ParseFields(s[f.size..], limit - f.size))
  }

  lemma ParseStep(s: Bytes, limit: int)
    ensures limit <= 0 ==> ParseFields(s, limit) == Ok([])
    ensures limit > 0 && ReadField(s, limit).Err? ==> ParseFields(s, limit) == Err(ReadField(s, limit).error)
    ensures limit > 0 && ReadField(s, limit).Ok? ==>
              var f := ReadField(s, limit).value;
              ParseFields(s, limit) == Prepend([f.value], ParseFields(s[f.size..], limit - f.size))
  {
    hide ReadField, Prepend;
  }

  /** Parsing a printed list reads exactly its fields, in order. */
  lemma {:induction false} FieldsRoundTrip(fs: seq<Field>, rest: Bytes)
    requires AllFit(fs)
    ensures ParseFields(EncodeFields(fs) + rest, |EncodeFields(fs)|) == Ok(fs)
    decreases |fs|
  {
    hide ReadField, EncodeField;
    if fs == [] {
      assert EncodeFields(fs) == [];
    } else {
      var f, tail, n := fs[0], fs[1..], |EncodeField(fs[0])|;
      assert fs == [f] + tail && FieldFits(f) && AllFit(tail);
      EncodeFieldsHead(fs, rest);
      FieldRoundTrip(f, EncodeFields(tail) + rest, |EncodeFields(fs)|);
      assert (EncodeField(f) + (EncodeFields(tail) + rest))[n..] == EncodeFields(tail) + rest;
      FieldsRoundTrip(tail, rest);
    }
  }

  // ----- Whole property sets -----

  /** The set fields among the given identifiers, in that order. */
  function FieldsOf(p: Properties, ids: seq<Byte>): seq<Field> {
    if ids == [] then []
    else
      var id := ids[|ids| - 1];
      FieldsOf(p, ids[..|ids| - 1]) + (if Get(p, id).None? then [] else [Field(id, Get(p, id).value)])
  }

  function UserFields(us: seq<UserProperty>): seq<Field> {
    if us == [] then []
    else UserFields(us[..|us| - 1]) + [Field(USER_PROPERTY, KeyValue(us[|us| - 1].key, us[|us| - 1].value))]
  }

  function Fields(p: Properties): seq<Field> { FieldsOf(p, ORDER) + UserFields(p.userProperties) }

  function Body(p: Properties): Bytes { EncodeFields(Fields(p)) }

  /** `Properties.Encode`; a nil reference is an empty block. */
  function EncodeProperties(p: Option<Properties>): (s: Bytes)
    ensures |s| >= 1
  {
    if p.None? then [0] else EncodeVar(|Body(p.value)|) + Body(p.value)
  }

  function OrEmpty(p: Option<Properties>): Properties { if p.None? then EMPTY else p.value }

  /** `DecodeProperties` on the bytes behind the length prefix. */
  function DecodeProperties(s: Bytes, length: nat): Result<Properties> {
    if length == 0 then Ok(EMPTY)
    else if length > |s| then Err(Malformed)
    else
      var fs :- ParseFields(s, length);
      Ok(AssignAll(EMPTY, fs))
  }

  /** Length prefix, then block; the block is skipped by its declared length. */
  function DecodePropertyBlock(s: Bytes): (r: Result<Read<Properties>>)
    ensures r.Ok? ==> 1 <= r.value.size <= |s|
  {
    var n :- DecodeVar(s, 4, Malformed);
    var p :- DecodeProperties(s[n.size..], n.value);
    Ok(Read(p, n.size + n.value))
  }

  /** Strings and binaries have 16-bit lengths, the subscription identifier is a
      variable-length integer. */
  ghost predicate FieldsFit(p: Properties) {
    && (forall id :: Get(p, id).Some? ==> ValueFits(Get(p, id).value))
    && (forall u :: u in p.userProperties ==> |u.key| <= 0xFFFF && |u.value| <= 0xFFFF)
  }

  ghost predicate Fits(p: Properties) { FieldsFit(p) && |Body(p)| <= MAX_VAR }

  lemma {:induction false} AssignOrder(p: Properties, ids: seq<Byte>, id: Byte)
    requires FieldsFit(p)
    ensures AllFit(FieldsOf(p, ids))
    ensures Get(AssignAll(EMPTY, FieldsOf(p, ids)), id) == if id in ids then Get(p, id) else None
    ensures AssignAll(EMPTY, FieldsOf(p, ids)).userProperties == []
    decreases |ids|
  {
    if ids != [] {
      var n := |ids| - 1;
      var x, front := ids[n], FieldsOf(p, ids[..n]);
      assert ids == ids[..n] + [x];
      AssignOrder(p, ids[..n], id);
      if Get(p, x).Some? {
        var f := Field(x, Get(p, x).value);
        GetKind(p, x);
        assert (front + [f])[..|front|] == front;
        AssignSame(AssignAll(EMPTY, front), f);
        if x != id { AssignOther(AssignAll(EMPTY, front), f, id); }
      } else {
        assert FieldsOf(p, ids) == front;
        AssignOrder(p, ids[..n], x);
      }
    }
  }

  lemma AssignUser(p: Properties, f: Field, id: Byte)
    requires FieldFits(f) && f.id == USER_PROPERTY
    ensures Get(Assign(p, f), id) == Get(p, id)
    ensures Assign(p, f).userProperties == p.userProperties + [UserProperty(f.value.k, f.value.v)]
  {
    if id != USER_PROPERTY { AssignOther(p, f, id); }
  }

  lemma {:induction false} AssignUsers(fs: seq<Field>, us: seq<UserProperty>, id: Byte)
    requires AllFit(fs)
    requires forall u :: u in us ==> |u.key| <= 0xFFFF && |u.value| <= 0xFFFF
    ensures AllFit(fs + UserFields(us))
    ensures var q, r := AssignAll(EMPTY, fs), AssignAll(EMPTY, fs + UserFields(us));
            r.userProperties == q.userProperties + us && Get(r, id) == Get(q, id)
    decreases |us|
  {
    hide Get, Assign, AssignAll;
    var q := AssignAll(EMPTY, fs);
    if us == [] {
      assert fs + UserFields(us) == fs && q.userProperties + us == q.userProperties;
    } else {
      var n := |us| - 1;
      var f := Field(USER_PROPERTY, KeyValue(us[n].key, us[n].value));
      assert forall u :: u in us[..n] ==> u in us;
      AssignUsers(fs, us[..n], id);
      var front := fs + UserFields(us[..n]);
      assert us[n] in us && FieldFits(f);
      assert fs + UserFields(us) == front + [f];
      AssignAllSnoc(front, f);
      AssignUser(AssignAll(EMPTY, front), f, id);
      assert us == us[..n] + [us[n]];
      assert q.userProperties + us == (q.userProperties + us[..n]) + [us[n]];
    }
  }

  lemma AssignAllSnoc(fs: seq<Field>, f: Field)
    requires AllFit(fs) && FieldFits(f)
    ensures AllFit(fs + [f]) && AssignAll(EMPTY, fs + [f]) == Assign(AssignAll(EMPTY, fs), f)
  {
    hide Assign;
    assert (fs + [f])[..|fs|] == fs;
  }

  /** Assigning a set's own fields to an empty set rebuilds it. */
  lemma AssignRebuilds(p: Properties)
    requires FieldsFit(p)
    ensures AllFit(Fields(p)) && AssignAll(EMPTY, Fields(p)) == p
  {
    forall id
      ensures AllFit(Fields(p)) && Get(AssignAll(EMPTY, Fields(p)), id) == Get(p, id)
      ensures AssignAll(EMPTY, Fields(p)).userProperties == p.userProperties
    {
      AssignOrder(p, ORDER, id);
      AssignUsers(FieldsOf(p, ORDER), p.userProperties, id);
      assert [] + p.userProperties == p.userProperties;
      if Get(p, id).Some? { GetKind(p, id); OrderComplete(id); }
    }
    assert Get(EMPTY, 0) == None;
    GetDetermines(AssignAll(EMPTY, Fields(p)), p);
  }

  lemma AssignFits(p: Properties, f: Field)
    requires FieldsFit(p) && FieldFits(f)
    ensures FieldsFit(Assign(p, f))
  {
    var q := Assign(p, f);
    forall id | Get(q, id).Some? ensures ValueFits(Get(q, id).value) {
      if id != f.id { AssignOther(p, f, id); } else if id != USER_PROPERTY { AssignSame(p, f); }
    }
    if f.id != USER_PROPERTY { AssignSame(p, f); }
  }

  lemma {:induction false} AssignAllFits(fs: seq<Field>)
    requires AllFit(fs)
    ensures FieldsFit(AssignAll(EMPTY, fs))
    decreases |fs|
  {
    if fs == [] {
      EmptyFits();
    } else {
      AssignAllFits(fs[..|fs| - 1]);
      AssignFits(AssignAll(EMPTY, fs[..|fs| - 1]), fs[|fs| - 1]);
    }
  }

  lemma EmptyFits()
    ensures Fits(EMPTY) && Body(EMPTY) == []
  {
    NoFields(ORDER);
    assert Fields(EMPTY) == [];
  }

  lemma NoFields(ids: seq<Byte>)
    ensures FieldsOf(EMPTY, ids) == []
  {
    if ids != [] { NoFields(ids[..|ids| - 1]); }
  }

  /** Whatever the input, a decoded set has only values the wire can carry. */
  lemma DecodedFits(s: Bytes, length: nat)
    ensures DecodeProperties(s, length).Ok? ==> FieldsFit(DecodeProperties(s, length).value)
  {
    EmptyFits();
    if ParseFields(s, length).Ok? { AssignAllFits(ParseFields(s, length).value); }
  }

  /** The block behind its length prefix. */
  lemma BlockRoundTrip(p: Properties, rest: Bytes)
    ensures FieldsFit(p) ==> DecodeProperties(Body(p) + rest, |Body(p)|) == Ok(p)
  {
    hide FieldsOf, Get, EncodeFields, FieldsFit, ParseFields, Assign;
    if FieldsFit(p) {
      AssignRebuilds(p);
      FieldsRoundTrip(Fields(p), rest);
      if |Body(p)| == 0 {
        NothingToParse(Body(p) + rest);
      }
    }
  }

  lemma NothingToParse(s: Bytes)
    ensures ParseFields(s, 0) == Ok([])
  {
  }

  lemma EncodedBlock(p: Option<Properties>)
    ensures EncodeProperties(p) == EncodeVar(|Body(OrEmpty(p))|) + Body(OrEmpty(p))
  {
    EmptyFits();
  }

  /** MQTT 5 properties round trip, for every set: reading the length prefix and the
      block back yields exactly that set, whatever bytes follow, if and only if its
      strings, its subscription identifier and its body fit their length fields. */
  lemma PropertiesRoundTrip(p: Option<Properties>, rest: Bytes)
    ensures DecodePropertyBlock(EncodeProperties(p) + rest) == Ok(Read(OrEmpty(p), |EncodeProperties(p)|))
            <==> Fits(OrEmpty(p))
    ensures DecodePropertyBlock(EncodeProperties(p) + rest).Ok? ==>
              FieldsFit(DecodePropertyBlock(EncodeProperties(p) + rest).value.value)
              && |Body(OrEmpty(p))| <= MAX_VAR
  {
    hide DecodeProperties, FieldsFit, Body, EncodeProperties, EncodeVar, DecodeVar;
    EncodedBlock(p);
    var body := Body(OrEmpty(p));
    var s := EncodeProperties(p) + rest;
    assert s == EncodeVar(|body|) + (body + rest);
    VarRoundTrip(|body|, body + rest, 4, Malformed);
    FourBytes();
    var k := |EncodeVar(|body|)|;
    assert s[k..] == body + rest;
    if |body| <= MAX_VAR {
      DecodedFits(body + rest, |body|);
      BlockRoundTrip(OrEmpty(p), rest);
    }
  }

  // ----- As the source runs -----

  method EncodeFixed(p: Properties) returns (body: Bytes)
    ensures body == EncodeFields(FieldsOf(p, ORDER))
  {
    body := [];
    assert EncodeFields(FieldsOf(p, ORDER[..0])) == [];
    hide Get, EncodeField, EncodeFields;
    for i := 0 to |ORDER|
      invariant body == EncodeFields(FieldsOf(p, ORDER[..i]))
    {
      var id := ORDER[i];
      ghost var before := FieldsOf(p, ORDER[..i]);
      assert ORDER[..i + 1][..i] == ORDER[..i];
      var v := Get(p, id);
      if v.Some? {
        EncodeFieldsSnoc(before, Field(id, v.value));
        body := body + EncodeField(Field(id, v.value));
      } else {
        assert FieldsOf(p, ORDER[..i + 1]) == before;
      }
    }
    assert ORDER[..|ORDER|] == ORDER;
  }

  method AppendUsers(buf: Bytes, ghost fixed: seq<Field>, us: seq<UserProperty>) returns (body: Bytes)
    requires buf == EncodeFields(fixed)
    ensures body == EncodeFields(fixed + UserFields(us))
  {
    hide EncodeFields, EncodeField;
    body := buf;
    assert fixed + UserFields(us[..0]) == fixed;
    for i := 0 to |us|
      invariant body == EncodeFields(fixed + UserFields(us[..i]))
    {
      var f := Field(USER_PROPERTY, KeyValue(us[i].key, us[i].value));
      assert us[..i + 1][..i] == us[..i];
      assert fixed + UserFields(us[..i + 1]) == fixed + UserFields(us[..i]) + [f];
      EncodeFieldsSnoc(fixed + UserFields(us[..i]), f);
      body := body + EncodeField(f);
    }
    assert us[..|us|] == us;
  }

  /** `Properties.Encode`: append field after field, then the user properties. */
  method Encode(p: Option<Properties>) returns (result: Bytes)
    ensures result == EncodeProperties(p)
  {
    if p.None? {
      return [0];
    }
    hide FieldsOf, EncodeFields, UserFields, EncodeVar;
    var body := EncodeFixed(p.value);
    body := AppendUsers(body, FieldsOf(p.value, ORDER), p.value.userProperties);
    result := EncodeVarInt(|body|);
    result := result + body;
  }

  /** The decoding loop over an offset. */
  method DecodeFields(data: Bytes, propertyLength: nat) returns (r: Result<seq<Field>>)
    requires propertyLength <= |data|
    ensures r == ParseFields(data, propertyLength)
  {
    hide ReadField, ParseFields;
    var fs: seq<Field>, offset, end := [], 0, propertyLength;
    assert data[0..] == data;
    PrependNone(ParseFields(data, propertyLength));
    while offset < end
      invariant 0 <= offset <= |data|
      invariant ParseFields(data, propertyLength) == Prepend(fs, ParseFields(data[offset..], end - offset))
      decreases |data| - offset
    {
      ParseStep(data[offset..], end - offset);
      var f := ReadField(data[offset..], end - offset);
      if f.Err? {
        return Err(f.error);
      }
      assert data[offset..][f.value.size..] == data[offset + f.value.size..];
      PrependMore(fs, f.value.value, ParseFields(data[offset + f.value.size..], end - offset - f.value.size));
      fs := fs + [f.value.value];
      offset := offset + f.value.size;
    }
    ParseStep(data[offset..], end - offset);
    assert fs + [] == fs;
    return Ok(fs);
  }

  /** `DecodeProperties`: every field read is assigned to its record field, in order. */
  method Decode(data: Bytes, propertyLength: nat) returns (r: Result<Properties>)
    ensures r == DecodeProperties(data, propertyLength)
  {
    if propertyLength == 0 {
      return Ok(EMPTY);
    }
    if propertyLength > |data| {
      return Err(Malformed);
    }
    var fs := DecodeFields(data, propertyLength);
    if fs.Err? {
      return Err(fs.error);
    }
    return Ok(AssignAll(EMPTY, fs.value));
  }
}

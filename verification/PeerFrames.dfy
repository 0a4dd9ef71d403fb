/** Length-prefixed frames between nodes (internal/cluster/peer_transport.go). */
module PeerFrames {
  import opened ByteStrings
  import opened WireFormat

  /** The reader refuses longer frames. */
  const MAX_FRAME := 10 * 1024 * 1024

  /** The length is truncated to 32 bits when it is written. */
  function EncodePeerFrame(data: Bytes): Bytes {
    Encode32(|data| % 0x1_0000_0000) + data
  }

  function DecodePeerFrame(s: Bytes): (r: Result<Read<Bytes>>)
    ensures r.Ok? ==> 4 <= r.value.size <= |s|
  {
    if |s| < 4 then Err(if s == [] then Eof else UnexpectedEof)
    else
      var length := Decode32(s);
      if length > MAX_FRAME then Err(Malformed)
      else if length > |s| - 4 then Err(if |s| == 4 then Eof else UnexpectedEof)
      else Ok(Read(s[4..4 + length], 4 + length))
  }

  /** A frame is read back, whatever follows it, exactly if it is within the limit. */
  lemma PeerFrameRoundTrip(data: Bytes, rest: Bytes)
    ensures DecodePeerFrame(EncodePeerFrame(data) + rest) == Ok(Read(data, 4 + |data|)) <==> |data| <= MAX_FRAME
  {
    var n := |data| % 0x1_0000_0000;
    var s := EncodePeerFrame(data) + rest;
    RoundTrip32(n, data + rest);
    assert s == Encode32(n) + (data + rest);
    assert s[4..4 + |data|] == data;
  }

  function EncodeAll(frames: seq<Bytes>): Bytes {
    if frames == [] then [] else EncodePeerFrame(frames[0]) + EncodeAll(frames[1..])
  }

  /** The frames read until the stream ends or breaks, and why it stopped. */
  function DecodeAll(s: Bytes): (seq<Bytes>, Error)
    decreases |s|
  {
    match DecodePeerFrame(s)
    case Err(e) => ([], e)
    case Ok(read) => var (frames, e) := DecodeAll(s[read.size..]); ([read.value] + frames, e)
  }

  /** A stream of frames comes back whole and ends cleanly exactly if each frame is
      within the limit. */
  lemma {:induction false} PeerStreamRoundTrip(frames: seq<Bytes>)
    ensures DecodeAll(EncodeAll(frames)) == (frames, Eof) <==>
            forall i :: 0 <= i < |frames| ==> |frames[i]| <= MAX_FRAME
    decreases |frames|
  {
    if frames != [] {
      var rest := EncodeAll(frames[1..]);
      var s := EncodePeerFrame(frames[0]) + rest;
      PeerFrameRoundTrip(frames[0], rest);
      PeerStreamRoundTrip(frames[1..]);
      if |frames[0]| <= MAX_FRAME {
        assert s[4 + |frames[0]|..] == rest;
        assert [frames[0]] + frames[1..] == frames;
        TailWithin(frames);
      } else {
        OversizedChanges(frames[0], rest);
      }
    }
  }

  lemma TailWithin(frames: seq<Bytes>)
    requires frames != [] && |frames[0]| <= MAX_FRAME
    ensures (forall i :: 0 <= i < |frames| ==> |frames[i]| <= MAX_FRAME) <==>
            (forall i :: 0 <= i < |frames[1..]| ==> |frames[1..][i]| <= MAX_FRAME)
  {
    assert forall i :: 0 < i < |frames| ==> frames[i] == frames[1..][i - 1];
  }

  /** An oversized frame is refused, or read as a shorter one. */
  lemma OversizedChanges(data: Bytes, rest: Bytes)
    requires |data| > MAX_FRAME
    ensures var d := DecodePeerFrame(EncodePeerFrame(data) + rest); d.Ok? ==> |d.value.value| < |data|
  {
  }

  method ReadFrame(r: Reader) returns (data: Result<Bytes>)
    modifies r
    ensures var d := DecodePeerFrame(old(r.unread));
            if d.Ok? then data == Ok(d.value.value) && r.unread == old(r.unread)[d.value.size..]
            else data == Err(d.error)
  {
    ghost var s := r.unread;
    var header := r.ReadFull(4);
    if header.Err? {
      return Err(header.error);
    }
    assert header.value == s[..4];
    var length := Decode32(header.value);
    if length > MAX_FRAME {
      return Err(Malformed);
    }
    data := r.ReadFull(length);
    if data.Err? {
      return;
    }
    assert s[4..][..length] == s[4..4 + length];
    assert s[4..][length..] == s[4 + length..];
  }
}

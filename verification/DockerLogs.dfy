/** Container logs (agent/docker.go): the decoder of Docker's multiplexed stream, whose frames are an
    eight-byte header, with the payload's length in its last four bytes, and the payload ("Stream format"
    of ContainerAttach in the Docker Engine API). */
module DockerLogs {
  import opened Options

  type Byte = x: int | 0 <= x < 256

  const HEADER_SIZE: nat := 8
  const MAX_LOG_FRAME_SIZE: nat := 1_048_576
  const MAX_TOTAL_LOG_SIZE: nat := 5_242_880

  datatype Error = FrameTooLarge(size: nat) | ReadFailed

  datatype Decoded = Decoded(output: seq<Byte>, error: Option<Error>)

  function BigEndian(b: seq<Byte>): nat
    requires |b| == 4
  {
    b[0] as int * 0x100_0000 + b[1] as int * 0x1_0000 + b[2] as int * 0x100 + b[3] as int
  }

  // ----- the decoder

  /** At the end of its bytes, the stream just ends or, if `broken`, fails. */
  function AtEnd(broken: bool): Option<Error> {
    if broken then Some(ReadFailed) else None
  }

  /** What is decoded from here on, after `total` payload bytes. */
  function Decode(stream: seq<Byte>, broken: bool, total: nat): Decoded
    decreases |stream|
  {
    if |stream| < HEADER_SIZE then Decoded([], AtEnd(broken))
    else
      var size := BigEndian(stream[4..8]);
      var rest := stream[HEADER_SIZE..];
      if size == 0 then Decode(rest, broken, total)
      else if size > MAX_LOG_FRAME_SIZE then Decoded([], Some(FrameTooLarge(size)))
      else if total + size > MAX_TOTAL_LOG_SIZE then Decoded([], None)
      else if |rest| < size then Decoded(rest, AtEnd(broken))
      else
        var more := Decode(rest[size..], broken, total + size);
        more.(output := rest[..size] + more.output)
  }

  /** A stream being read. */
  class Reader {
    const data: seq<Byte>
    const broken: bool
    var pos: nat

    ghost predicate Valid()
      reads this
    {
      pos <= |data|
    }

    function Rest(): seq<Byte>
      requires pos <= |data|
      reads this
    {
      data[pos..]
    }

    constructor (data: seq<Byte>, broken: bool)
      ensures Valid() && Rest() == data && this.broken == broken
    {
      this.data, this.broken, pos := data, broken, 0;
    }

    /** Up to `n` bytes; fewer only at the end, with the error of the end. */
    method Take(n: nat) returns (bytes: seq<Byte>, short: bool)
      requires Valid()
      modifies this
      ensures Valid() && bytes + Rest() == old(Rest())
      ensures short == (|old(Rest())| < n) && |bytes| == if short then |old(Rest())| else n
    {
      short := |data| - pos < n;
      var next := if short then |data| else pos + n;
      bytes := data[pos..next];
      pos := next;
      assert bytes + data[next..] == data[old(pos)..];
    }
  }

  /** `whole` is `builder` and what the rest decodes to. */
  predicate SoFar(whole: Decoded, builder: seq<Byte>, rest: seq<Byte>, broken: bool, total: nat) {
    var more := Decode(rest, broken, total);
    whole == more.(output := builder + more.output)
  }

  lemma NothingSoFar(rest: seq<Byte>, broken: bool)
    ensures SoFar(Decode(rest, broken, 0), [], rest, broken, 0)
  {
    var whole := Decode(rest, broken, 0);
    assert [] + whole.output == whole.output;
  }

  lemma FrameRead(whole: Decoded, builder: seq<Byte>, rest: seq<Byte>, broken: bool, total: nat, size: nat)
    requires SoFar(whole, builder, rest, broken, total) && |rest| >= HEADER_SIZE + size
    requires size == BigEndian(rest[4..8]) && 0 < size <= MAX_LOG_FRAME_SIZE && total + size <= MAX_TOTAL_LOG_SIZE
    ensures SoFar(whole, builder + rest[HEADER_SIZE..][..size], rest[HEADER_SIZE..][size..], broken, total + size)
  {
    hide BigEndian;
    var payload := rest[HEADER_SIZE..][..size];
    var more := Decode(rest[HEADER_SIZE..][size..], broken, total + size);
    assert builder + (payload + more.output) == (builder + payload) + more.output;
  }

  /** An empty frame is skipped. */
  lemma EmptyFrame(whole: Decoded, builder: seq<Byte>, rest: seq<Byte>, broken: bool, total: nat)
    requires SoFar(whole, builder, rest, broken, total) && |rest| >= HEADER_SIZE && BigEndian(rest[4..8]) == 0
    ensures SoFar(whole, builder, rest[HEADER_SIZE..], broken, total)
  {
  }

  /** Where decoding stops. */
  lemma DecodeStops(whole: Decoded, builder: seq<Byte>, rest: seq<Byte>, broken: bool, total: nat)
    requires SoFar(whole, builder, rest, broken, total)
    ensures |rest| < HEADER_SIZE ==> whole == Decoded(builder, AtEnd(broken))
    ensures |rest| >= HEADER_SIZE ==>
              var size := BigEndian(rest[4..8]);
              && (size > MAX_LOG_FRAME_SIZE ==> whole == Decoded(builder, Some(FrameTooLarge(size))))
              && (0 < size <= MAX_LOG_FRAME_SIZE && total + size > MAX_TOTAL_LOG_SIZE ==> whole == Decoded(builder, None))
              && (0 < size <= MAX_LOG_FRAME_SIZE && total + size <= MAX_TOTAL_LOG_SIZE && |rest| - HEADER_SIZE < size ==>
                    whole == Decoded(builder + rest[HEADER_SIZE..], AtEnd(broken)))
  {
    hide BigEndian;
    assert builder + [] == builder;
  }

  method DecodeFrames(reader: Reader) returns (builder: seq<Byte>, error: Option<Error>)
    requires reader.Valid()
    modifies reader
    ensures Decoded(builder, error) == Decode(old(reader.Rest()), reader.broken, 0)
  {
    hide BigEndian, Decode, SoFar;
    ghost var whole := Decode(reader.Rest(), reader.broken, 0);
    var totalBytesRead := 0;
    builder := [];
    NothingSoFar(reader.Rest(), reader.broken);
    while true
      invariant reader.Valid() && totalBytesRead <= MAX_TOTAL_LOG_SIZE
      invariant SoFar(whole, builder, reader.Rest(), reader.broken, totalBytesRead)
      decreases |reader.data| - reader.pos
    {
      ghost var rest := reader.Rest();
      DecodeStops(whole, builder, rest, reader.broken, totalBytesRead);
      var header, short := reader.Take(HEADER_SIZE);
      if short {
        return builder, AtEnd(reader.broken);
      }
      assert rest[4..8] == header[4..8] && rest[HEADER_SIZE..] == reader.Rest();
      var frameLen := BigEndian(header[4..8]);
      if frameLen == 0 {
        EmptyFrame(whole, builder, rest, reader.broken, totalBytesRead);
        continue;
      }
      if frameLen > MAX_LOG_FRAME_SIZE {
        return builder, Some(FrameTooLarge(frameLen));
      }
      if totalBytesRead + frameLen > MAX_TOTAL_LOG_SIZE {
        var discarded, _ := reader.Take(frameLen);
        return builder, None;
      }
      var copied;
      copied, short := reader.Take(frameLen);
      builder := builder + copied;
      if short {
        assert copied == rest[HEADER_SIZE..];
        return builder, AtEnd(reader.broken);
      }
      FrameRead(whole, builder[..|builder| - frameLen], rest, reader.broken, totalBytesRead, frameLen);
      assert copied == rest[HEADER_SIZE..][..frameLen] && reader.Rest() == rest[HEADER_SIZE..][frameLen..];
      totalBytesRead := totalBytesRead + frameLen;
    }
  }

  /** `builder` is what the string builder holds in the end. */
  method DecodeDockerLogStream(reader: Reader, multiplexed: bool) returns (builder: seq<Byte>, error: Option<Error>)
    requires reader.Valid()
    modifies reader
    ensures multiplexed ==> Decoded(builder, error) == Decode(old(reader.Rest()), reader.broken, 0)
    ensures !multiplexed ==>
              && builder <= old(reader.Rest())
              && |builder| == (if |old(reader.Rest())| < MAX_TOTAL_LOG_SIZE then |old(reader.Rest())| else MAX_TOTAL_LOG_SIZE)
              && error == (if |old(reader.Rest())| < MAX_TOTAL_LOG_SIZE then AtEnd(reader.broken) else None)
    ensures reader.broken && |old(reader.Rest())| < 8 ==> error == Some(ReadFailed)
    ensures !reader.broken ==> error != Some(ReadFailed)
  {
    EndMeaning(reader.Rest(), reader.broken, 0);
    hide Decode;
    if !multiplexed {
      var short;
      builder, short := reader.Take(MAX_TOTAL_LOG_SIZE);
      return builder, if short then AtEnd(reader.broken) else None;
    }
    builder, error := DecodeFrames(reader);
  }

  /** A read fails only if the stream does, and then it does within a header. */
  lemma {:induction false} EndMeaning(stream: seq<Byte>, broken: bool, total: nat)
    ensures broken && |stream| < 8 ==> Decode(stream, broken, total).error == Some(ReadFailed)
    ensures !broken ==> Decode(stream, broken, total).error != Some(ReadFailed)
    decreases |stream|
  {
    if |stream| >= HEADER_SIZE {
      var size := BigEndian(stream[4..8]);
      var rest := stream[HEADER_SIZE..];
      if size == 0 {
        EndMeaning(rest, broken, total);
      } else if size <= MAX_LOG_FRAME_SIZE && total + size <= MAX_TOTAL_LOG_SIZE && |rest| >= size {
        EndMeaning(rest[size..], broken, total + size);
      }
    }
  }

  // ----- any bytes

  /** Whatever the bytes, the output stays within the limit. */
  lemma {:induction false} OutputIsBounded(stream: seq<Byte>, broken: bool, total: nat)
    requires total <= MAX_TOTAL_LOG_SIZE
    ensures total + |Decode(stream, broken, total).output| <= MAX_TOTAL_LOG_SIZE
    decreases |stream|
  {
    if |stream| >= HEADER_SIZE {
      var size := BigEndian(stream[4..8]);
      var rest := stream[HEADER_SIZE..];
      if size == 0 {
        OutputIsBounded(rest, broken, total);
      } else if size <= MAX_LOG_FRAME_SIZE && total + size <= MAX_TOTAL_LOG_SIZE && |rest| >= size {
        OutputIsBounded(rest[size..], broken, total + size);
      }
    }
  }

  /** Decoding a stream that is cut off gives a prefix of decoding the whole, and no error that the whole
      does not have. */
  lemma {:induction false} CutOffGivesPrefix(stream: seq<Byte>, n: nat, broken: bool, total: nat)
    requires n <= |stream|
    ensures Decode(stream[..n], false, total).output <= Decode(stream, broken, total).output
    ensures Decode(stream[..n], false, total).error.Some? ==>
              Decode(stream[..n], false, total).error == Decode(stream, broken, total).error
    decreases |stream|
  {
    hide BigEndian;
    if n >= HEADER_SIZE {
      var cut := stream[..n];
      var size := BigEndian(stream[4..8]);
      assert cut[4..8] == stream[4..8];
      var rest := stream[HEADER_SIZE..];
      var m := n - HEADER_SIZE;
      assert cut[HEADER_SIZE..] == rest[..m];
      if size == 0 {
        CutOffGivesPrefix(rest, m, broken, total);
      } else if size <= MAX_LOG_FRAME_SIZE && total + size <= MAX_TOTAL_LOG_SIZE {
        if m >= size {
          assert rest[..m][..size] == rest[..size];
          assert rest[..m][size..] == rest[size..][..m - size];
          CutOffGivesPrefix(rest[size..], m - size, broken, total + size);
          PrefixBoth(rest[..size], Decode(rest[size..][..m - size], false, total + size).output,
                     Decode(rest[size..], broken, total + size).output);
        } else if |rest| >= size {
          CutInPayload(rest, m, size, Decode(rest[size..], broken, total + size).output);
        }
      }
    }
  }

  lemma PrefixBoth(a: seq<Byte>, b: seq<Byte>, c: seq<Byte>)
    requires b <= c
    ensures a + b <= a + c
  {
  }

  lemma CutInPayload(rest: seq<Byte>, m: nat, size: nat, more: seq<Byte>)
    requires m < size <= |rest|
    ensures rest[..m] <= rest[..size] + more
  {
  }

  // ----- encoded frames

  /** A frame: the stream it belongs to (stdin, stdout, stderr) and its payload. */
  datatype Frame = Frame(source: Byte, payload: seq<Byte>)

  predicate Encodable(frames: seq<Frame>) {
    forall i :: 0 <= i < |frames| ==> |frames[i].payload| < 0x1_0000_0000
  }

  function EncodeSize(n: nat): seq<Byte>
    requires n < 0x1_0000_0000
  {
    [n / 0x100_0000, n / 0x1_0000 % 0x100, n / 0x100 % 0x100, n % 0x100]
  }

  lemma SizeRoundTrip(n: nat)
    requires n < 0x1_0000_0000
    ensures BigEndian(EncodeSize(n)) == n
  {
    var high, low := n / 0x1_0000, n % 0x1_0000;
    assert n / 0x100_0000 == high / 0x100 && n / 0x100 == high * 0x100 + low / 0x100;
    assert n / 0x100 % 0x100 == low / 0x100 && n % 0x100 == low % 0x100;
    assert high == high / 0x100 * 0x100 + high % 0x100 && low == low / 0x100 * 0x100 + low % 0x100;
  }

  function EncodeFrame(f: Frame): seq<Byte>
    requires |f.payload| < 0x1_0000_0000
  {
    [f.source, 0, 0, 0] + EncodeSize(|f.payload|) + f.payload
  }

  function Encode(frames: seq<Frame>): seq<Byte>
    requires Encodable(frames)
  {
    if frames == [] then [] else EncodeFrame(frames[0]) + Encode(frames[1..])
  }

  function Payloads(frames: seq<Frame>): seq<Byte> {
    if frames == [] then [] else frames[0].payload + Payloads(frames[1..])
  }

  /** The frames before the first that is too large or goes beyond the total. */
  function Accepted(frames: seq<Frame>, total: nat): nat {
    if frames == [] || |frames[0].payload| > MAX_LOG_FRAME_SIZE || total + |frames[0].payload| > MAX_TOTAL_LOG_SIZE then 0
    else 1 + Accepted(frames[1..], total + |frames[0].payload|)
  }

  lemma EncodedFrameParts(f: Frame, more: seq<Byte>)
    requires |f.payload| < 0x1_0000_0000
    ensures var stream := EncodeFrame(f) + more;
            && |stream| >= HEADER_SIZE && BigEndian(stream[4..8]) == |f.payload|
            && stream[HEADER_SIZE..] == f.payload + more
  {
    SizeRoundTrip(|f.payload|);
    var stream := EncodeFrame(f) + more;
    assert stream[4..8] == EncodeSize(|f.payload|);
  }

  /** If every frame is accepted, decoding encoded frames followed by any bytes yields their payloads, and
      then decodes these bytes. */
  lemma {:induction false} DecodeAccepted(frames: seq<Frame>, tail: seq<Byte>, broken: bool, total: nat)
    requires Encodable(frames) && total <= MAX_TOTAL_LOG_SIZE && Accepted(frames, total) >= |frames|
    ensures var more := Decode(tail, broken, total + |Payloads(frames)|);
            Decode(Encode(frames) + tail, broken, total) == more.(output := Payloads(frames) + more.output)
  {
    hide Decode, Encode, Payloads;
    NoFrames();
    var more := Decode(tail, broken, total + |Payloads(frames)|);
    if frames == [] {
      assert [] + tail == tail && [] + more.output == more.output;
    } else {
      var f, rest := frames[0].payload, frames[1..];
      DecodeFirst(frames, tail, broken, total);
      DecodeAccepted(rest, tail, broken, total + |f|);
      PayloadsFirst(frames);
      assert (f + Payloads(rest)) + more.output == f + (Payloads(rest) + more.output);
    }
  }

  lemma NoFrames()
    ensures Encode([]) == [] && Payloads([]) == []
  {
  }

  lemma PayloadsFirst(frames: seq<Frame>)
    requires frames != []
    ensures Payloads(frames) == frames[0].payload + Payloads(frames[1..])
  {
  }

  /** Otherwise the first frame not accepted ends it: with an error if it is too large, without if it goes
      beyond the total. */
  lemma {:induction false} DecodeStopped(frames: seq<Frame>, tail: seq<Byte>, broken: bool, total: nat)
    requires Encodable(frames) && total <= MAX_TOTAL_LOG_SIZE && Accepted(frames, total) < |frames|
    ensures var k := Accepted(frames, total);
            var size := |frames[k].payload|;
            Decode(Encode(frames) + tail, broken, total)
            == Decoded(Payloads(frames[..k]), if size > MAX_LOG_FRAME_SIZE then Some(FrameTooLarge(size)) else None)
  {
    hide Decode, Encode;
    DecodeFirst(frames, tail, broken, total);
    var k := Accepted(frames, total);
    if k > 0 {
      DecodeStopped(frames[1..], tail, broken, total + |frames[0].payload|);
      assert frames[..k][1..] == frames[1..][..k - 1];
    }
  }

  lemma DecodeFirst(frames: seq<Frame>, tail: seq<Byte>, broken: bool, total: nat)
    requires Encodable(frames) && frames != [] && total <= MAX_TOTAL_LOG_SIZE
    ensures var f := frames[0].payload;
            var decoded := Decode(Encode(frames) + tail, broken, total);
            if Accepted(frames, total) == 0
            then decoded == Decoded([], if |f| > MAX_LOG_FRAME_SIZE then Some(FrameTooLarge(|f|)) else None)
            else var more := Decode(Encode(frames[1..]) + tail, broken, total + |f|);
                 decoded == more.(output := f + more.output)
  {
    hide BigEndian, EncodeFrame;
    var f := frames[0].payload;
    var more := Encode(frames[1..]) + tail;
    assert Encode(frames) + tail == EncodeFrame(frames[0]) + more;
    EncodedFrameParts(frames[0], more);
    assert (f + more)[..|f|] == f && (f + more)[|f|..] == more;
    if f == [] {
      assert f + more == more;
      var d := Decode(more, broken, total);
      assert f + d.output == d.output;
    }
  }

  /** `k` is the length of the longest prefix of frames whose payloads fit. */
  ghost predicate LongestFitting(frames: seq<Frame>, k: nat) {
    && k <= |frames| && |Payloads(frames[..k])| <= MAX_TOTAL_LOG_SIZE
    && forall j :: k < j <= |frames| ==> |Payloads(frames[..j])| > MAX_TOTAL_LOG_SIZE
  }

  lemma {:induction false} AcceptedIsLongest(frames: seq<Frame>, total: nat, j: nat)
    requires total <= MAX_TOTAL_LOG_SIZE && forall i :: 0 <= i < |frames| ==> |frames[i].payload| <= MAX_LOG_FRAME_SIZE
    ensures Accepted(frames, total) <= |frames|
    ensures total + |Payloads(frames[..Accepted(frames, total)])| <= MAX_TOTAL_LOG_SIZE
    ensures Accepted(frames, total) < j <= |frames| ==> total + |Payloads(frames[..j])| > MAX_TOTAL_LOG_SIZE
  {
    if frames != [] {
      if Accepted(frames, total) > 0 {
        var k := Accepted(frames, total) - 1;
        AcceptedIsLongest(frames[1..], total + |frames[0].payload|, if j > 0 then j - 1 else 0);
        assert frames[..k + 1][1..] == frames[1..][..k];
      }
      if 0 < j <= |frames| {
        assert frames[..j][1..] == frames[1..][..j - 1];
      }
    }
  }

  /** Decoding a stream of frames of at most 1 MiB each yields, without error, the payloads of the longest
      prefix of frames that fits in 5 MiB. */
  lemma DecodeYieldsLongestPrefix(frames: seq<Frame>)
    requires forall i :: 0 <= i < |frames| ==> |frames[i].payload| <= MAX_LOG_FRAME_SIZE
    ensures var k := Accepted(frames, 0);
            Encodable(frames) && LongestFitting(frames, k)
            && Decode(Encode(frames), false, 0) == Decoded(Payloads(frames[..k]), None)
  {
    var k := Accepted(frames, 0);
    forall j: nat ensures k <= |frames| && |Payloads(frames[..k])| <= MAX_TOTAL_LOG_SIZE
                          && (k < j <= |frames| ==> |Payloads(frames[..j])| > MAX_TOTAL_LOG_SIZE) {
      AcceptedIsLongest(frames, 0, j);
    }
    assert Encode(frames) + [] == Encode(frames);
    if k == |frames| {
      DecodeAccepted(frames, [], false, 0);
      assert frames[..k] == frames;
      assert Payloads(frames) + [] == Payloads(frames);
    } else {
      DecodeStopped(frames, [], false, 0);
    }
  }

  /** It fails if and only if a frame over 1 MiB comes first, before the payloads exceed 5 MiB. */
  lemma DecodeFailsExactly(frames: seq<Frame>)
    requires Encodable(frames)
    ensures Decode(Encode(frames), false, 0).error.Some?
       <==> Accepted(frames, 0) < |frames| && |frames[Accepted(frames, 0)].payload| > MAX_LOG_FRAME_SIZE
  {
    assert Encode(frames) + [] == Encode(frames);
    if Accepted(frames, 0) < |frames| {
      DecodeStopped(frames, [], false, 0);
    } else {
      DecodeAccepted(frames, [], false, 0);
    }
  }

  // ----- on the wire

  /** The length in a header: four bytes, the most significant first. */
  lemma SizeOnWire(b: Byte)
    ensures BigEndian([0, 0, 0, b]) == b && BigEndian([0, 0, 1, 0]) == 256
    ensures BigEndian([0, 1, 0, 0]) == 65_536 && BigEndian([1, 0, 0, 0]) == 16_777_216
    ensures EncodeSize(b) == [0, 0, 0, b]
  {
  }

  /** The bytes of a frame as Docker sends it: the length is the last four bytes of the header. */
  lemma WireFormat(source: Byte, payload: seq<Byte>)
    requires |payload| < 256
    ensures Decode([source, 0, 0, 0, 0, 0, 0, |payload|] + payload, false, 0) == Decoded(payload, None)
  {
    hide Decode, EncodeSize, BigEndian;
    var f := Frame(source, payload);
    SizeOnWire(|payload|);
    assert EncodeFrame(f) == [source, 0, 0, 0] + [0, 0, 0, |payload|] + payload;
    assert [source, 0, 0, 0] + [0, 0, 0, |payload|] == [source, 0, 0, 0, 0, 0, 0, |payload|];
    assert [f][1..] == [] && Encode([]) == [] && Payloads([]) == [];
    assert EncodeFrame(f) + [] == EncodeFrame(f) && payload + [] == payload;
    DecodeAccepted([f], [], false, 0);
    NothingDecodes(|payload|);
  }

  lemma NothingDecodes(total: nat)
    ensures Decode([], false, total) == Decoded([], None)
  {
  }

  /** A frame over 1 MiB comes after frames that are not, and that stay within 5 MiB together. */
  ghost predicate TooLargeAt(frames: seq<Frame>, k: nat) {
    && k < |frames| && |frames[k].payload| > 1_048_576
    && (forall j :: 0 <= j < k ==> |frames[j].payload| <= 1_048_576)
    && |Payloads(frames[..k])| <= 5_242_880
  }

  lemma {:induction false} AcceptedMeaning(frames: seq<Frame>, total: nat)
    requires total <= MAX_TOTAL_LOG_SIZE
    ensures var k := Accepted(frames, total);
            && k <= |frames| && (forall j :: 0 <= j < k ==> |frames[j].payload| <= MAX_LOG_FRAME_SIZE)
            && total + |Payloads(frames[..k])| <= MAX_TOTAL_LOG_SIZE
            && (k < |frames| ==> |frames[k].payload| > MAX_LOG_FRAME_SIZE || total + |Payloads(frames[..k + 1])| > MAX_TOTAL_LOG_SIZE)
  {
    var k := Accepted(frames, total);
    if frames != [] {
      assert frames[..1][1..] == [];
      assert Payloads(frames[..1]) == frames[0].payload by { assert frames[0].payload + [] == frames[0].payload; }
    }
    if k > 0 {
      AcceptedMeaning(frames[1..], total + |frames[0].payload|);
      assert frames[..k][1..] == frames[1..][..k - 1];
      if k < |frames| { assert frames[..k + 1][1..] == frames[1..][..k]; }
    }
  }

  lemma {:induction false} PayloadsGrow(frames: seq<Frame>, j: nat, k: nat)
    requires j <= k <= |frames|
    ensures |Payloads(frames[..j])| <= |Payloads(frames[..k])|
  {
    if j > 0 {
      PayloadsGrow(frames[1..], j - 1, k - 1);
      assert frames[..j][1..] == frames[1..][..j - 1] && frames[..k][1..] == frames[1..][..k - 1];
    }
  }

  /** Decoding fails if and only if a frame over 1 MiB comes while the payloads before it stay within 5 MiB, each
      of them within 1 MiB. */
  lemma FailsExactlyWhen(frames: seq<Frame>)
    requires Encodable(frames)
    ensures Decode(Encode(frames), false, 0).error.Some? <==> exists k: nat :: TooLargeAt(frames, k)
  {
    DecodeFailsExactly(frames);
    AcceptedMeaning(frames, 0);
    var k := Accepted(frames, 0);
    if j: nat :| TooLargeAt(frames, j) {
      if k < j { PayloadsGrow(frames, k + 1, j); }
    }
    if k < |frames| && |frames[k].payload| > MAX_LOG_FRAME_SIZE { assert TooLargeAt(frames, k); }
  }
}

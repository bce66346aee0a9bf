/**
 * The request frame that `KrpcChannel::CallMethod` builds: the header length
 * as a Protocol Buffers "Base 128 Varint" (what `CodedOutputStream::WriteVarint32`
 * writes), the serialised header, then the serialised arguments.
 */
module Varint {
  import opened Basics

  /**
   * Base 128 varint of `v`: seven bits per byte, least significant group
   * first, the high bit set on every byte but the last. The sizes match the
   * thresholds of a 32-bit varint (one byte below 2^7, at most five below 2^35).
   */
  function EncodeVarint(v: nat): (r: seq<byte>)
    ensures 1 <= |r|
    ensures r[|r| - 1] < 0x80
    ensures forall i :: 0 <= i < |r| - 1 ==> r[i] >= 0x80
    ensures v < 0x80 ==> r == [v]
    ensures v < 0x4000 ==> |r| <= 2
    ensures v < 0x20_0000 ==> |r| <= 3
    ensures v < 0x1000_0000 ==> |r| <= 4
    ensures v < 0x8_0000_0000 ==> |r| <= 5
  {
    if v < 0x80 then [v]
    else [v % 0x80 + 0x80] + EncodeVarint(v / 0x80)
  }

  /** `WriteVarint32`: the encoding of a `uint32_t`, one to five bytes. */
  function EncodeVarint32(v: nat): (r: seq<byte>)
    requires v < TwoTo32
    ensures 1 <= |r| <= 5
  {
    EncodeVarint(v)
  }

  /**
   * Reference decoder, reading at most `budget` bytes: the value and the
   * number of bytes it took, or None if no terminating byte came in time.
   */
  function DecodeVarintWithin(bs: seq<byte>, budget: nat): (r: Option<(nat, nat)>)
    ensures r.Some? ==> 1 <= r.value.1 <= budget && r.value.1 <= |bs|
  {
    if budget == 0 || bs == [] then None
    else if bs[0] < 0x80 then Some((bs[0], 1))
    else match DecodeVarintWithin(bs[1..], budget - 1)
      case None => None
      case Some((v, n)) => Some((bs[0] - 0x80 + 0x80 * v, n + 1))
  }

  /** Decode a varint32 prefix, which is at most five bytes long. */
  function DecodeVarint32(bs: seq<byte>): (r: Option<(nat, nat)>)
    ensures r.Some? ==> 1 <= r.value.1 <= 5 && r.value.1 <= |bs|
  {
    DecodeVarintWithin(bs, 5)
  }

  lemma {:induction false} DecodeEncodeWithin(v: nat, rest: seq<byte>, budget: nat)
    requires |EncodeVarint(v)| <= budget
    ensures DecodeVarintWithin(EncodeVarint(v) + rest, budget) == Some((v, |EncodeVarint(v)|))
  {
    var e := EncodeVarint(v);
    if v >= 0x80 {
      assert (e + rest)[1..] == EncodeVarint(v / 0x80) + rest;
      DecodeEncodeWithin(v / 0x80, rest, budget - 1);
    }
  }

  /** Decoding the prefix of an encoded `uint32_t` gives it back, and its length. */
  lemma DecodeEncode32(v: nat, rest: seq<byte>)
    requires v < TwoTo32
    ensures DecodeVarint32(EncodeVarint32(v) + rest) == Some((v, |EncodeVarint32(v)|))
  {
    DecodeEncodeWithin(v, rest, 5);
  }

  /**
   * The bytes `CallMethod` sends: `WriteVarint32(header_size)` with the
   * header length truncated to `uint32_t`, `WriteString(header)`, then
   * `send_rpc_str += args`.
   */
  function Frame(header: seq<byte>, args: seq<byte>): seq<byte>
  {
    EncodeVarint32(|header| % TwoTo32) + header + args
  }

  /** The receiver's view of a frame: decode the prefix, cut out the header, keep the rest. */
  function SplitFrame(frame: seq<byte>): (r: Option<(seq<byte>, seq<byte>)>)
    ensures r.Some? ==> |r.value.0| + |r.value.1| < |frame|
  {
    match DecodeVarint32(frame)
    case None => None
    case Some((len, n)) =>
      if n + len <= |frame| then Some((frame[n..n + len], frame[n + len..])) else None
  }

  /** A frame splits back into exactly its header and its arguments. */
  lemma SplitFrameOfFrame(header: seq<byte>, args: seq<byte>)
    requires |header| < TwoTo32
    ensures SplitFrame(Frame(header, args)) == Some((header, args))
  {
    var p := EncodeVarint32(|header|);
    var f := Frame(header, args);
    assert f == p + (header + args);
    DecodeEncode32(|header|, header + args);
    assert f[|p|..|p| + |header|] == header;
    assert f[|p| + |header|..] == args;
  }
}

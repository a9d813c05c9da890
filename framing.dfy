/** Wire format of the client's connection: every message is a 4-byte
    little-endian unsigned length followed by that many payload bytes.
    An empty payload on the outbound queue is the local sentinel that
    ends the write loop; it is never put on the wire. */
module Framing {

  /** One octet of the stream. */
  newtype Byte = b: int | 0 <= b < 256

  type Payload = seq<Byte>

  /** `to_bytes(4, 'little')` only represents lengths below 2^32. */
  const MaxFrameLength: nat := 0x1_0000_0000

  const HeaderSize: nat := 4

  function Pow256(k: nat): (p: nat)
    ensures p >= 1
  {
    if k == 0 then 1 else 256 * Pow256(k - 1)
  }

  /** `int.from_bytes(bs, 'little')` */
  function FromLittleEndian(bs: seq<Byte>): (n: nat)
    ensures n < Pow256(|bs|)
  {
    if bs == [] then 0 else bs[0] as nat + 256 * FromLittleEndian(bs[1..])
  }

  /** `n.to_bytes(width, 'little')` for an `n` that fits. */
  function ToLittleEndian(n: nat, width: nat): (bs: seq<Byte>)
    requires n < Pow256(width)
    ensures |bs| == width
  {
    if width == 0 then [] else [(n % 256) as Byte] + ToLittleEndian(n / 256, width - 1)
  }

  lemma {:induction false} LittleEndianRoundTrip(n: nat, width: nat)
    requires n < Pow256(width)
    ensures FromLittleEndian(ToLittleEndian(n, width)) == n
  {
    if width > 0 {
      var q, r := n / 256, n % 256;
      var bs := ToLittleEndian(n, width);
      LittleEndianRoundTrip(q, width - 1);
      assert bs[1..] == ToLittleEndian(q, width - 1);
      assert bs[0] == r as Byte;
      assert FromLittleEndian(bs) == r + 256 * q;
    }
  }

  /** The length prefix written before a payload of `size` bytes. */
  function Header(size: nat): (h: seq<Byte>)
    requires size < MaxFrameLength
    ensures |h| == HeaderSize
    ensures FromLittleEndian(h) == size
  {
    assert Pow256(4) == MaxFrameLength;
    LittleEndianRoundTrip(size, 4);
    ToLittleEndian(size, 4)
  }

  predicate Fits(p: Payload) {
    |p| < MaxFrameLength
  }

  /** Header then payload, as the write loop emits one queue item. */
  function Frame(p: Payload): (f: seq<Byte>)
    requires Fits(p)
    ensures |f| == HeaderSize + |p|
    ensures f[HeaderSize..] == p
  {
    Header(|p|) + p
  }

  /** The bytes a sequence of payloads puts on the wire, in order. */
  function Encode(ps: seq<Payload>): (wire: seq<Byte>)
    requires forall i :: 0 <= i < |ps| ==> Fits(ps[i])
  {
    if ps == [] then [] else Frame(ps[0]) + Encode(ps[1..])
  }

  function Min(a: nat, b: nat): nat {
    if a <= b then a else b
  }

  /** What the read loop delivers from a complete byte stream that ends in
      end-of-stream: `read(4)` yields up to four header bytes, the header is
      read as a little-endian size, and `read(size)` yields up to that many
      payload bytes, one delivered message per header. */
  function Deframe(stream: seq<Byte>): (msgs: seq<Payload>)
    decreases |stream|
  {
    if stream == [] then []
    else
      var h := Min(HeaderSize, |stream|);
      var size := FromLittleEndian(stream[..h]);
      var n := Min(size, |stream| - h);
      [stream[h..h + n]] + Deframe(stream[h + n..])
  }

  /** One complete frame at the front of the stream is delivered exactly. */
  lemma DeframeFrame(p: Payload, rest: seq<Byte>)
    requires Fits(p)
    ensures Deframe(Frame(p) + rest) == [p] + Deframe(rest)
  {
    var s := Frame(p) + rest;
    assert s[..HeaderSize] == Header(|p|);
    assert s[HeaderSize..HeaderSize + |p|] == p;
    assert s[HeaderSize + |p|..] == rest;
  }

  /** Decoding the encoding gives back every payload, in order and
      byte-exact, whatever the lengths (empty payloads included). */
  lemma {:induction false} DeframeEncode(ps: seq<Payload>)
    requires forall i :: 0 <= i < |ps| ==> Fits(ps[i])
    ensures Deframe(Encode(ps)) == ps
  {
    if ps != [] {
      DeframeEncode(ps[1..]);
      DeframeFrame(ps[0], Encode(ps[1..]));
    }
  }

  lemma {:induction false} EncodeAppend(ps: seq<Payload>, p: Payload)
    requires forall i :: 0 <= i < |ps| ==> Fits(ps[i])
    requires Fits(p)
    ensures Encode(ps + [p]) == Encode(ps) + Frame(p)
  {
    if ps == [] {
      assert ps + [p] == [p];
    } else {
      assert (ps + [p])[1..] == ps[1..] + [p];
      EncodeAppend(ps[1..], p);
    }
  }

  /** The index at which the write loop stops taking items from a queue:
      the first empty item (the sentinel), the first item too long for a
      4-byte header (where `to_bytes` raises), or the end of the queue. */
  function FirstStop(q: seq<Payload>): (k: nat)
    ensures k <= |q|
    ensures forall i :: 0 <= i < k ==> |q[i]| > 0 && Fits(q[i])
    ensures k < |q| ==> |q[k]| == 0 || !Fits(q[k])
  {
    if q == [] || |q[0]| == 0 || !Fits(q[0]) then 0 else 1 + FirstStop(q[1..])
  }

  /** How the write loop ended. */
  datatype WriteEnd =
    | Closed    // took the sentinel and closed the writer
    | Waiting   // queue drained without a sentinel; blocked in `queue.get()`
    | Overflow  // `to_bytes` raised OverflowError on an over-long item

  function EndAt(q: seq<Payload>): (e: WriteEnd)
    ensures e == Waiting <==> FirstStop(q) == |q|
    ensures e == Closed <==> FirstStop(q) < |q| && q[FirstStop(q)] == []
  {
    var k := FirstStop(q);
    if k == |q| then Waiting else if q[k] == [] then Closed else Overflow
  }

  /** Everything the write loop puts on the wire reaches the reader intact:
      the messages before the first stop, all non-empty, in queue order. */
  lemma WrittenPrefixDelivered(q: seq<Payload>)
    ensures forall i :: 0 <= i < FirstStop(q) ==> q[i] != []
    ensures Deframe(Encode(q[..FirstStop(q)])) == q[..FirstStop(q)]
  {
    DeframeEncode(q[..FirstStop(q)]);
  }

  /** A zero-length payload cannot be told apart from the sentinel: queued
      behind well-formed messages, it ends the write loop, and nothing
      queued after it is written. */
  lemma EmptyPayloadIsSentinel(before: seq<Payload>, after: seq<Payload>)
    requires forall i :: 0 <= i < |before| ==> |before[i]| > 0 && Fits(before[i])
    ensures FirstStop(before + [[]] + after) == |before|
    ensures EndAt(before + [[]] + after) == Closed
  {
    var q := before + [[]] + after;
    assert q[|before|] == [];
    assert forall i :: 0 <= i < |before| ==> q[i] == before[i];
  }
}

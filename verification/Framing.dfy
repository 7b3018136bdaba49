/** The length-prefixed messages of multi_process.py: `_socket_send` puts the length of the
    message in front of it as four big-endian bytes, `_socket_recv` reads the stream in chunks
    until it has that many bytes. */
module Framing {
  import opened Basics

  type Byte = b: int | 0 <= b < 256
  type Bytes = seq<Byte>

  const LIMIT: nat := 0x1_0000_0000

  // ---------- Sending ----------

  /** `n.to_bytes(4, "big")`. */
  function ToBytes4(n: nat): Bytes
    requires n < LIMIT
  {
    [n / 256 / 256 / 256, n / 256 / 256 % 256, n / 256 % 256, n % 256]
  }

  /** `int.from_bytes(bs, "big")`, which accepts any number of bytes. */
  function FromBytes(bs: Bytes): nat {
    if bs == [] then 0 else FromBytes(bs[..|bs| - 1]) * 256 + bs[|bs| - 1]
  }

  /** The bytes handed to the socket; None is the OverflowError of `to_bytes`. */
  function Frame(message: Bytes): Option<Bytes> {
    if |message| < LIMIT then Some(ToBytes4(|message|) + message) else None
  }

  function Pow256(n: nat): (r: nat)
    ensures r > 0
  {
    if n == 0 then 1 else 256 * Pow256(n - 1)
  }

  /** The value of a byte depends on how many follow it, for every number of bytes; nothing is worth 0. */
  lemma {:induction false} PositionalValue(b: Byte, bs: Bytes)
    ensures FromBytes([]) == 0
    ensures FromBytes([b] + bs) == b * Pow256(|bs|) + FromBytes(bs) && FromBytes(bs) < Pow256(|bs|)
    decreases |bs|
  {
    var n := |bs| - 1;
    if bs == [] {
      assert [b] + bs == [b] && [b][..0] == [];
    } else {
      PositionalValue(b, bs[..n]);
      assert ([b] + bs)[..n + 1] == [b] + bs[..n] && ([b] + bs)[n + 1] == bs[n];
      assert b * Pow256(n) * 256 == b * Pow256(n + 1);
    }
  }

  lemma {:induction false} FourBytes(a: Byte, b: Byte, c: Byte, d: Byte)
    ensures FromBytes([a, b, c, d]) == ((a * 256 + b) * 256 + c) * 256 + d
  {
    assert [a, b, c, d][..3] == [a, b, c];
    assert [a, b, c][..2] == [a, b];
    assert [a, b][..1] == [a];
    assert [a][..0] == [];
    assert FromBytes([]) == 0;
    assert FromBytes([a]) == a;
    assert FromBytes([a, b]) == a * 256 + b;
    assert FromBytes([a, b, c]) == (a * 256 + b) * 256 + c;
  }

  lemma {:induction false} HeadRoundTrip(n: nat)
    requires n < LIMIT
    ensures FromBytes(ToBytes4(n)) == n
  {
    var a := n / 256;
    var b := a / 256;
    var c := b / 256;
    FourBytes(c, b % 256, a % 256, n % 256);
    assert n == a * 256 + n % 256 && a == b * 256 + a % 256 && b == c * 256 + b % 256;
  }

  // ---------- Receiving ----------

  function Concat(chunks: seq<Bytes>): Bytes {
    if chunks == [] then [] else chunks[0] + Concat(chunks[1..])
  }

  /** The loop of `_socket_recv`: the message it ends with and the chunks it leaves unread.
      None is a loop that never ends, because a closed stream yields empty reads for ever. */
  function Collect(message: Bytes, len: nat, chunks: seq<Bytes>): (Option<Bytes>, seq<Bytes>)
    decreases |chunks|
  {
    if |message| >= len then (Some(message), chunks)
    else if chunks == [] then (None, [])
    else Collect(message + chunks[0], len, chunks[1..])
  }

  function Min(a: nat, b: nat): nat {
    if a < b then a else b
  }

  /** What `_socket_recv` returns on a stream that delivers `chunks` and then ends. */
  function Received(chunks: seq<Bytes>): (Option<Bytes>, seq<Bytes>) {
    var first := if chunks == [] then [] else chunks[0];
    var rest := if chunks == [] then [] else chunks[1..];
    var cut := Min(4, |first|);
    Collect(first[cut..], FromBytes(first[..cut]), rest)
  }

  /** The reading end of a local socket: the chunks it will deliver. */
  class Socket {
    var incoming: seq<Bytes>

    constructor (chunks: seq<Bytes>)
      ensures incoming == chunks
    {
      incoming := chunks;
    }

    /** `recv(1024)`: the next chunk, or nothing once the stream has ended. */
    method Recv() returns (data: Bytes)
      modifies this
      ensures data == if old(incoming) == [] then [] else old(incoming)[0]
      ensures incoming == if old(incoming) == [] then [] else old(incoming)[1..]
    {
      if incoming == [] {
        data := [];
      } else {
        data := incoming[0];
        incoming := incoming[1..];
      }
    }
  }

  /** `_socket_recv`. The result None stands for a call that never returns. */
  method SocketRecv(socket: Socket) returns (r: Option<Bytes>)
    modifies socket
    ensures (r, socket.incoming) == Received(old(socket.incoming))
  {
    var data := socket.Recv();
    var cut := Min(4, |data|);
    var message := data[cut..];
    var len := FromBytes(data[..cut]);
    while |message| < len
      invariant Collect(message, len, socket.incoming) == Received(old(socket.incoming))
      decreases |socket.incoming|
    {
      if socket.incoming == [] {
        return None;
      }
      data := socket.Recv();
      message := message + data;
    }
    r := Some(message);
  }

  // ---------- Round trip ----------

  lemma {:induction false} ConcatFirst(message: Bytes, chunks: seq<Bytes>, n: nat)
    requires 1 <= n <= |chunks|
    ensures message + chunks[0] + Concat(chunks[1..][..n - 1]) == message + Concat(chunks[..n])
  {
    assert chunks[..n][1..] == chunks[1..][..n - 1];
  }

  /** A loop that ends has appended exactly the chunks it consumed, and the last of them was needed. */
  lemma {:induction false} CollectConsumes(message: Bytes, len: nat, chunks: seq<Bytes>)
    ensures var (r, rest) := Collect(message, len, chunks);
            && |rest| <= |chunks| && rest == chunks[|chunks| - |rest|..]
            && (r.Some? ==> r.value == message + Concat(chunks[..|chunks| - |rest|]))
            && (r.Some? && |rest| < |chunks| ==> |message + Concat(chunks[..|chunks| - |rest| - 1])| < len)
            && (r.None? ==> |message + Concat(chunks)| < len)
    decreases |chunks|
  {
    if |message| < len && chunks != [] {
      CollectConsumes(message + chunks[0], len, chunks[1..]);
      var (r, rest) := Collect(message, len, chunks);
      var n := |chunks| - |rest|;
      ConcatFirst(message, chunks, n);
      ConcatFirst(message, chunks, |chunks|);
      if n > 1 {
        ConcatFirst(message, chunks, n - 1);
      } else {
        assert chunks[..0] == [];
      }
      assert chunks[1..][|chunks| - 1 - |rest|..] == chunks[n..];
      assert chunks[1..][..|chunks| - 1] == chunks[1..] && chunks[..|chunks|] == chunks;
    } else {
      assert chunks[..0] == [];
    }
  }

  /** A loop whose non-empty chunks add up to the announced length stops right after them. */
  lemma {:induction false} CollectStops(message: Bytes, len: nat, split: seq<Bytes>, rest: seq<Bytes>)
    requires forall i :: 0 <= i < |split| ==> split[i] != []
    requires |message| + |Concat(split)| == len
    ensures Collect(message, len, split + rest) == (Some(message + Concat(split)), rest)
    decreases |split|
  {
    if split == [] {
      assert split + rest == rest && message + Concat(split) == message;
    } else {
      assert Concat(split) == split[0] + Concat(split[1..]);
      assert (split + rest)[1..] == split[1..] + rest;
      CollectStops(message + split[0], len, split[1..], rest);
      assert message + split[0] + Concat(split[1..]) == message + Concat(split);
    }
  }

  /** The round trip, with its exact condition. However the frame of a message is split into
      non-empty chunks, and whatever follows it in the stream, `_socket_recv` returns the message
      and leaves the stream right behind the frame if and only if the first chunk holds the whole
      head. */
  lemma {:induction false} FrameRoundTrip(message: Bytes, split: seq<Bytes>, rest: seq<Bytes>)
    requires |message| < LIMIT && Concat(split) == Frame(message).value
    requires forall i :: 0 <= i < |split| ==> split[i] != []
    ensures Received(split + rest) == (Some(message), rest) <==> |split[0]| >= 4
  {
    var first, head := split[0], ToBytes4(|message|);
    var tail := Concat(split[1..]);
    assert (split + rest)[1..] == split[1..] + rest;
    assert first + tail == head + message;
    if |first| >= 4 {
      assert first[..4] == (first + tail)[..4] == head;
      assert first[4..] + tail == (first + tail)[4..] == message;
      HeadRoundTrip(|message|);
      CollectStops(first[4..], |message|, split[1..], rest);
    } else if Received(split + rest) == (Some(message), rest) {
      var cut := |first|;
      assert first[cut..] == [] && first[..cut] == first;
      assert (split[1..] + rest)[..|split| - 1] == split[1..];
      CollectConsumes([], FromBytes(first), split[1..] + rest);
    }
  }

  lemma {:induction false} ConcatAppend(xs: seq<Bytes>, ys: seq<Bytes>)
    ensures Concat(xs + ys) == Concat(xs) + Concat(ys)
    decreases |xs|
  {
    if xs == [] {
      assert xs + ys == ys;
    } else {
      assert (xs + ys)[1..] == xs[1..] + ys;
      ConcatAppend(xs[1..], ys);
      assert xs[0] + (Concat(xs[1..]) + Concat(ys)) == xs[0] + Concat(xs[1..]) + Concat(ys);
    }
  }

  /** Some chunk ends where the frame ends. */
  ghost predicate EndsOnChunk(chunks: seq<Bytes>, frame: Bytes) {
    exists n :: 0 < n <= |chunks| && Concat(chunks[..n]) == frame
  }

  /** The same for every stream that starts with the frame of a message and whose first chunk holds
      the head, however the bytes after the frame are chunked: the receiver returns the message if and
      only if a chunk ends where the frame ends. Otherwise it returns bytes of what follows as well. */
  lemma {:induction false} FrameInStream(message: Bytes, chunks: seq<Bytes>)
    requires |message| < LIMIT && (forall i :: 0 <= i < |chunks| ==> chunks[i] != [])
    requires chunks != [] && |chunks[0]| >= 4 && Frame(message).value <= Concat(chunks)
    ensures Received(chunks).0.Some? && message <= Received(chunks).0.value
    ensures Received(chunks).0 == Some(message) <==> EndsOnChunk(chunks, Frame(message).value)
  {
    var head, frame := ToBytes4(|message|), Frame(message).value;
    var n := ReceivedBytes(message, chunks);
    var r := Received(chunks).0.value;
    hide Received, FromBytes, ToBytes4;
    PrefixConcat(chunks, n);
    PrefixOfBoth(Concat(chunks), head, message, r);
    if r == message {
      assert Concat(chunks[..n]) == frame;
    }
    if EndsOnChunk(chunks, frame) {
      var m :| 0 < m <= |chunks| && Concat(chunks[..m]) == frame;
      assert chunks[..m] + chunks[m..] == chunks && chunks[..m][0] == chunks[0];
      FrameRoundTrip(message, chunks[..m], chunks[m..]);
    }
  }

  /** What is returned, behind the head, are the bytes of the first `n` chunks. */
  lemma {:induction false} ReceivedBytes(message: Bytes, chunks: seq<Bytes>) returns (n: nat)
    requires |message| < LIMIT && chunks != [] && |chunks[0]| >= 4 && Frame(message).value <= Concat(chunks)
    ensures Received(chunks).0.Some? && 0 < n <= |chunks|
    ensures ToBytes4(|message|) + Received(chunks).0.value == Concat(chunks[..n])
    ensures |Received(chunks).0.value| >= |message|
  {
    var first, head := chunks[0], ToBytes4(|message|);
    assert first[..4] == Concat(chunks)[..4] == Frame(message).value[..4] == head;
    HeadRoundTrip(|message|);
    hide FromBytes, ToBytes4;
    CollectNeedsBytes(first[4..], |message|, chunks[1..]);
    CollectConsumes(first[4..], |message|, chunks[1..]);
    CollectLongEnough(first[4..], |message|, chunks[1..]);
    n := |chunks| - |Received(chunks).1|;
    SplitFirst(chunks, n, 4);
  }

  lemma {:induction false} PrefixConcat(chunks: seq<Bytes>, n: nat)
    requires n <= |chunks|
    ensures Concat(chunks[..n]) <= Concat(chunks)
  {
    ConcatAppend(chunks[..n], chunks[n..]);
    assert chunks[..n] + chunks[n..] == chunks;
  }

  lemma {:induction false} PrefixOfBoth(all: Bytes, head: Bytes, message: Bytes, result: Bytes)
    requires head + message <= all && head + result <= all && |result| >= |message|
    ensures message <= result
  {
    forall i | 0 <= i < |message| ensures message[i] == result[i] {
      assert message[i] == (head + message)[|head| + i] == all[|head| + i] == (head + result)[|head| + i];
    }
  }

  /** A result is at least as long as announced. */
  lemma {:induction false} CollectLongEnough(message: Bytes, len: nat, chunks: seq<Bytes>)
    ensures Collect(message, len, chunks).0.Some? ==> |Collect(message, len, chunks).0.value| >= len
    decreases |chunks|
  {
    if |message| < len && chunks != [] {
      CollectLongEnough(message + chunks[0], len, chunks[1..]);
    }
  }

  /** On every stream: what comes back are all the bytes behind the head up to the first chunk boundary
      at which there are as many as the head announces. */
  lemma {:induction false} ReceivesUpToABoundary(chunks: seq<Bytes>) returns (n: nat)
    requires chunks != [] && Received(chunks).0.Some?
    ensures var cut := Min(4, |chunks[0]|);
            var (r, rest) := Received(chunks);
            && 0 < n <= |chunks| && rest == chunks[n..]
            && chunks[0][..cut] + r.value == Concat(chunks[..n])
            && |r.value| >= FromBytes(chunks[0][..cut])
            && (n > 1 ==> |Concat(chunks[..n - 1])| - cut < FromBytes(chunks[0][..cut]))
  {
    var first := chunks[0];
    var cut := Min(4, |first|);
    var len := FromBytes(first[..cut]);
    hide FromBytes;
    CollectConsumes(first[cut..], len, chunks[1..]);
    CollectLongEnough(first[cut..], len, chunks[1..]);
    n := |chunks| - |Received(chunks).1|;
    assert chunks[1..][n - 1..] == chunks[n..];
    SplitFirst(chunks, n, cut);
    if n > 1 {
      SplitFirst(chunks, n - 1, cut);
    }
  }

  lemma {:induction false} SplitFirst(chunks: seq<Bytes>, n: nat, cut: nat)
    requires 1 <= n <= |chunks| && cut <= |chunks[0]|
    ensures chunks[0][..cut] + (chunks[0][cut..] + Concat(chunks[1..][..n - 1])) == Concat(chunks[..n])
  {
    var first, rest := chunks[0], Concat(chunks[1..][..n - 1]);
    assert chunks[..n][1..] == chunks[1..][..n - 1];
    assert first[..cut] + (first[cut..] + rest) == first + rest;
  }

  /** A stream that has ended yields the empty message, not an error. */
  lemma {:induction false} EndedStreamIsEmptyMessage()
    ensures Received([]) == (Some([]), [])
  {
    assert FromBytes([]) == 0;
  }

  /** The first `k` bytes of a head announce the length without its low-order part: what a receiver
      waits for whose first chunk holds only these. */
  lemma {:induction false} ShortHead(n: nat, k: nat)
    requires n < LIMIT && k <= 4
    ensures FromBytes(ToBytes4(n)[..k]) == n / Pow256(4 - k)
  {
    var a := n / 256;
    var b := a / 256;
    var c := b / 256;
    var h := ToBytes4(n);
    assert h == [c, b % 256, a % 256, n % 256];
    hide ToBytes4;
    assert h[..0] == [] && h[..1][..0] == [] && h[..2][..1] == h[..1] && h[..3][..2] == h[..2] && h[..4][..3] == h[..3];
    assert FromBytes(h[..1]) == c && FromBytes(h[..2]) == b && FromBytes(h[..3]) == a && FromBytes(h[..4]) == n;
    assert Pow256(0) == 1 && Pow256(1) == 256 && Pow256(2) == 65536 && Pow256(3) == 16777216 && Pow256(4) == LIMIT;
    assert n / 65536 == b && n / 16777216 == c && n / LIMIT == 0;
  }

  /** Two frames in one read: the first message comes back with the second frame glued to it. */
  lemma {:induction false} CoalescedFrames(m1: Bytes, m2: Bytes)
    requires |m1| < LIMIT && |m2| < LIMIT
    ensures Received([Frame(m1).value + Frame(m2).value]) == (Some(m1 + Frame(m2).value), [])
  {
    var chunk := Frame(m1).value + Frame(m2).value;
    assert chunk[..4] == ToBytes4(|m1|) && chunk[4..] == m1 + Frame(m2).value;
    HeadRoundTrip(|m1|);
    assert [chunk][1..] == [];
  }

  /** The loop ends exactly when the stream holds enough bytes. */
  lemma {:induction false} CollectNeedsBytes(message: Bytes, len: nat, chunks: seq<Bytes>)
    ensures Collect(message, len, chunks).0.Some? <==> |message| + |Concat(chunks)| >= len
    decreases |chunks|
  {
    if |message| < len && chunks != [] {
      CollectNeedsBytes(message + chunks[0], len, chunks[1..]);
    }
  }

  /** On every stream, whole or not: the receiver hangs if and only if fewer bytes follow the first
      four bytes of the first chunk (all of it, if it is shorter) than these announce. */
  lemma {:induction false} HangsExactly(chunks: seq<Bytes>)
    ensures var first := if chunks == [] then [] else chunks[0];
            var cut := Min(4, |first|);
            Received(chunks).0.None? <==> |Concat(chunks)| - cut < FromBytes(first[..cut])
  {
    var first := if chunks == [] then [] else chunks[0];
    var cut := Min(4, |first|);
    CollectNeedsBytes(first[cut..], FromBytes(first[..cut]), if chunks == [] then [] else chunks[1..]);
  }

  /** So a stream that ends inside a message hangs the receiver if its first chunk holds the head. */
  lemma {:induction false} TruncatedFrameHangs(message: Bytes, chunks: seq<Bytes>)
    requires |message| < LIMIT && chunks != [] && |chunks[0]| >= 4
    requires Concat(chunks) < Frame(message).value
    ensures Received(chunks).0.None?
  {
    var first, head := chunks[0], ToBytes4(|message|);
    assert first[..4] == Concat(chunks)[..4] == (head + message)[..4] == head;
    HeadRoundTrip(|message|);
    HangsExactly(chunks);
  }
}

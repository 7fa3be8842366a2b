/** Cutting a byte stream into frames: a header of fixed size that holds, somewhere inside, the
    two-byte length of what follows it. */
module FrameSplitter {
  import opened ByteCodec

  datatype Format = Format(header: nat, lengthAt: nat) {
    predicate Ok() { lengthAt + 2 <= header }
  }

  datatype Cut = Cut(frames: seq<seq<byte>>, rest: seq<byte>)

  function FrameSize(f: Format, buf: seq<byte>): nat
    requires f.Ok() && |buf| >= f.header
  {
    f.header + Num(buf[f.lengthAt..f.lengthAt + 2])
  }

  predicate Complete(f: Format, buf: seq<byte>)
    requires f.Ok()
  {
    |buf| >= f.header && |buf| >= FrameSize(f, buf)
  }

  /** The one-shot split: frames off the front until what is left is not a whole one. */
  function Split(f: Format, buf: seq<byte>): Cut
    requires f.Ok()
    decreases |buf|
  {
    if !Complete(f, buf) then Cut([], buf) else
    var n := FrameSize(f, buf);
    var later := Split(f, buf[n..]);
    Cut([buf[..n]] + later.frames, later.rest)
  }

  lemma Assoc<T>(a: seq<T>, b: seq<T>, c: seq<T>)
    ensures a + b + c == a + (b + c)
  {
  }

  lemma SplitFirst(f: Format, a: seq<byte>, b: seq<byte>)
    requires f.Ok() && Complete(f, a)
    ensures var n := FrameSize(f, a);
      Split(f, a + b) == Cut([a[..n]] + Split(f, a[n..] + b).frames, Split(f, a[n..] + b).rest)
  {
    var n := FrameSize(f, a);
    assert (a + b)[f.lengthAt..f.lengthAt + 2] == a[f.lengthAt..f.lengthAt + 2];
    assert (a + b)[..n] == a[..n] && (a + b)[n..] == a[n..] + b;
  }

  /** Splitting what has arrived, then what is left with what arrives later, is splitting it all. */
  lemma {:induction false} SplitAppend(f: Format, a: seq<byte>, b: seq<byte>)
    requires f.Ok()
    ensures Split(f, a + b) ==
      Cut(Split(f, a).frames + Split(f, Split(f, a).rest + b).frames, Split(f, Split(f, a).rest + b).rest)
    decreases |a|
  {
    if Complete(f, a) {
      var n := FrameSize(f, a);
      var later := Split(f, a[n..]);
      SplitFirst(f, a, b);
      SplitAppend(f, a[n..], b);
      Assoc([a[..n]], later.frames, Split(f, later.rest + b).frames);
    }
  }

  /** What is left is shorter than the longest frame. */
  lemma {:induction false} ResidueBound(f: Format, buf: seq<byte>)
    requires f.Ok()
    ensures |Split(f, buf).rest| < f.header + 0xFFFF
    decreases |buf|
  {
    if Complete(f, buf) {
      ResidueBound(f, buf[FrameSize(f, buf)..]);
    } else if |buf| >= f.header {
      var s := buf[f.lengthAt..f.lengthAt + 2];
      NumBound(s);
      assert Pow256(2) == 0x1_0000 by { assert Pow256(1) == 256; }
    }
  }

  function Join(parts: seq<seq<byte>>): seq<byte> {
    if parts == [] then [] else Join(parts[..|parts| - 1]) + parts[|parts| - 1]
  }

  /** Every byte is in exactly one frame or left over. */
  lemma {:induction false} NothingLost(f: Format, buf: seq<byte>)
    requires f.Ok()
    ensures Join(Split(f, buf).frames) + Split(f, buf).rest == buf
    decreases |buf|
  {
    hide Join;
    if Complete(f, buf) {
      var n := FrameSize(f, buf);
      var later := Split(f, buf[n..]);
      NothingLost(f, buf[n..]);
      FirstPart(buf[..n], later.frames, later.rest);
      Halves(buf, n);
    } else {
      NoParts(buf);
    }
  }

  lemma Halves(buf: seq<byte>, n: nat)
    requires n <= |buf|
    ensures buf[..n] + buf[n..] == buf
  {
  }

  lemma NoParts(buf: seq<byte>)
    ensures Join([]) + buf == buf
  {
  }

  lemma {:induction false} JoinCons(part: seq<byte>, parts: seq<seq<byte>>)
    ensures Join([part] + parts) == part + Join(parts)
  {
    if parts == [] {
      assert ([part] + parts)[..0] == [];
    } else {
      var n := |parts| - 1;
      assert ([part] + parts)[..n + 1] == [part] + parts[..n];
      JoinCons(part, parts[..n]);
    }
  }

  lemma FirstPart(part: seq<byte>, parts: seq<seq<byte>>, rest: seq<byte>)
    ensures Join([part] + parts) + rest == part + (Join(parts) + rest)
  {
    JoinCons(part, parts);
    Assoc(part, Join(parts), rest);
  }

  // What handling the frames one by one leaves behind.
  function Each<E>(handle: seq<byte> -> seq<E>, frames: seq<seq<byte>>): seq<E> {
    if frames == [] then [] else Each(handle, frames[..|frames| - 1]) + handle(frames[|frames| - 1])
  }

  lemma {:induction false} EachAppend<E>(handle: seq<byte> -> seq<E>, a: seq<seq<byte>>, b: seq<seq<byte>>)
    ensures Each(handle, a + b) == Each(handle, a) + Each(handle, b)
  {
    if b == [] {
      assert a + b == a;
    } else {
      var n := |b| - 1;
      assert (a + b)[..|a| + n] == a + b[..n];
      EachAppend(handle, a, b[..n]);
    }
  }

  lemma EachNext<E>(handle: seq<byte> -> seq<E>, done: seq<seq<byte>>, frame: seq<byte>, later: seq<seq<byte>>)
    ensures done + ([frame] + later) == (done + [frame]) + later
    ensures Each(handle, done + [frame]) == Each(handle, done) + handle(frame)
  {
    assert (done + [frame])[..|done|] == done;
  }

  /** A frame that leaves nothing behind consumes exactly its own bytes: the stream is seen as
      though it had never been in it. */
  lemma BadFrameIsSkipped<E>(f: Format, handle: seq<byte> -> seq<E>, before: seq<byte>, bad: seq<byte>,
                             after: seq<byte>)
    requires f.Ok() && Split(f, before).rest == [] && Delimited(f, bad) && handle(bad) == []
    ensures Each(handle, Split(f, before + bad + after).frames) == Each(handle, Split(f, before + after).frames)
    ensures Split(f, before + bad + after).rest == Split(f, before + after).rest
  {
    hide Split, Each;
    var first, last := Split(f, before).frames, Split(f, after).frames;
    SplitAfter(f, before, bad + after);
    SplitAfter(f, bad, after);
    SplitAfter(f, before, after);
    Assoc(before, bad, after);
    EachNext(handle, first, bad, last);
    EachAppend(handle, first + [bad], last);
    EachAppend(handle, first, last);
  }

  lemma SplitAfter(f: Format, a: seq<byte>, b: seq<byte>)
    requires f.Ok() && (Split(f, a).rest == [] || Delimited(f, a))
    ensures Split(f, a + b) == Cut(Split(f, a).frames + Split(f, b).frames, Split(f, b).rest)
    ensures Delimited(f, a) ==> Split(f, a).frames == [a]
  {
    OneFrame(f, a);
    SplitAppend(f, a, b);
    assert [] + b == b;
  }

  // ------------------------------------------------- packets that agree with the format

  predicate Delimited(f: Format, packet: seq<byte>)
    requires f.Ok()
  {
    |packet| >= f.header && FrameSize(f, packet) == |packet|
  }

  lemma {:induction false} DelimitedSplit(f: Format, packets: seq<seq<byte>>)
    requires f.Ok() && forall i :: 0 <= i < |packets| ==> Delimited(f, packets[i])
    ensures Split(f, Join(packets)) == Cut(packets, [])
  {
    if packets != [] {
      var n := |packets| - 1;
      DelimitedSplit(f, packets[..n]);
      SplitAppend(f, Join(packets[..n]), packets[n]);
      assert [] + packets[n] == packets[n];
      OneFrame(f, packets[n]);
      assert packets == packets[..n] + [packets[n]];
    }
  }

  lemma OneFrame(f: Format, packet: seq<byte>)
    requires f.Ok()
    ensures Split(f, packet) == Cut([packet], []) <==> Delimited(f, packet)
  {
    if Complete(f, packet) {
      var n := FrameSize(f, packet);
      var later := Split(f, packet[n..]);
      if Delimited(f, packet) {
        assert packet[..n] == packet && packet[n..] == [];
      } else {
        assert ([packet[..n]] + later.frames)[0] == packet[..n];
      }
    }
  }

  // ------------------------------------------------- chunks

  // The frames and the rest after some chunks, each handled as soon as it arrives.
  function Arrived(f: Format, chunks: seq<seq<byte>>): Cut
    requires f.Ok()
  {
    if chunks == [] then Cut([], []) else
    var before := Arrived(f, chunks[..|chunks| - 1]);
    var now := Split(f, before.rest + chunks[|chunks| - 1]);
    Cut(before.frames + now.frames, now.rest)
  }

  /** However the stream is cut into chunks, the frames and the rest are those of the one-shot split. */
  lemma {:induction false} ChunksDoNotMatter(f: Format, chunks: seq<seq<byte>>)
    requires f.Ok()
    ensures Arrived(f, chunks) == Split(f, Join(chunks))
  {
    if chunks != [] {
      var n := |chunks| - 1;
      ChunksDoNotMatter(f, chunks[..n]);
      SplitAppend(f, Join(chunks[..n]), chunks[n]);
    }
  }

  // A packet whose header says, where the format expects it, how long the payload is.
  predicate Announces(f: Format, header: seq<byte>, payload: seq<byte>)
    requires f.Ok()
  {
    |header| == f.header && |payload| < 0x1_0000 && header[f.lengthAt..f.lengthAt + 2] == LE(|payload|, 2)
  }

  function PayloadOf(f: Format, frame: seq<byte>): seq<byte> {
    if |frame| < f.header then [] else frame[f.header..]
  }

  lemma AnnouncedIsDelimited(f: Format, header: seq<byte>, payload: seq<byte>)
    requires f.Ok() && Announces(f, header, payload)
    ensures Delimited(f, header + payload) && PayloadOf(f, header + payload) == payload
  {
    assert (header + payload)[f.lengthAt..f.lengthAt + 2] == LE(|payload|, 2);
    assert Pow256(2) == 0x1_0000 by { assert Pow256(1) == 256; }
    NumOfLE(|payload|, 2);
  }

  /** Were writer, splitter and parser to agree on one format, every payload would come out of any
      chunking of the stream, in order, and nothing else. */
  lemma AgreementDelivers(f: Format, headers: seq<seq<byte>>, payloads: seq<seq<byte>>, packets: seq<seq<byte>>,
                          chunks: seq<seq<byte>>)
    requires f.Ok() && |headers| == |payloads| == |packets|
    requires forall i :: 0 <= i < |packets| ==>
      Announces(f, headers[i], payloads[i]) && packets[i] == headers[i] + payloads[i]
    requires Join(chunks) == Join(packets)
    ensures Arrived(f, chunks) == Cut(packets, [])
    ensures forall i :: 0 <= i < |packets| ==> PayloadOf(f, packets[i]) == payloads[i]
  {
    forall i | 0 <= i < |packets| ensures Delimited(f, packets[i]) && PayloadOf(f, packets[i]) == payloads[i] {
      AnnouncedIsDelimited(f, headers[i], payloads[i]);
    }
    ChunksDoNotMatter(f, chunks);
    DelimitedSplit(f, packets);
  }
}

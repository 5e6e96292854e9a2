/** Messages on the wire: a four-byte length in network order, then the payload. */
module Framing {
  import opened Buffers

  const MAX_MESSAGE: nat := 1024
  const SIZE_T: int := 0x1_0000_0000_0000_0000
  const VECTOR_MAX: int := 0x7fff_ffff_ffff_ffff

  /** `htonl` of a length, byte by byte. */
  function Header(size: nat): (h: seq<byte>)
    requires size < 0x8000_0000
    ensures |h| == 4
  {
    [size / 0x100_0000, size / 0x1_0000 % 0x100, size / 0x100 % 0x100, size % 0x100]
  }

  /** `ntohl` of the first four bytes, as a signed 32-bit number. */
  function Size(c: seq<byte>): (size: int)
    requires |c| >= 4
    ensures -0x8000_0000 <= size < 0x8000_0000
  {
    var u := c[0] as int * 0x100_0000 + c[1] as int * 0x1_0000 + c[2] as int * 0x100 + c[3];
    if u < 0x8000_0000 then u else u - 0x1_0000_0000
  }

  function Encode(payload: seq<byte>): seq<byte>
    requires |payload| < 0x8000_0000
  {
    Header(|payload|) + payload
  }

  lemma HeaderRoundTrip(size: nat)
    requires size < 0x8000_0000
    ensures Size(Header(size)) == size
  {
    var high, mid := size / 0x1_0000, size / 0x100;
    assert mid == high * 0x100 + mid % 0x100 by { assert mid / 0x100 == high; }
    assert high == size / 0x100_0000 * 0x100 + high % 0x100 by { assert high / 0x100 == size / 0x100_0000; }
  }

  lemma SizeRoundTrip(c: seq<byte>)
    requires |c| >= 4 && Size(c) >= 0
    ensures Header(Size(c)) == c[..4]
  {
    var size := Size(c);
    assert size / 0x1_0000 == c[0] as int * 0x100 + c[1];
    assert size / 0x100 == (c[0] as int * 0x100 + c[1]) * 0x100 + c[2];
  }

  lemma SizeOfPrefix(c: seq<byte>, d: seq<byte>)
    requires |c| >= 4 && c <= d
    ensures Size(c) == Size(d)
  {
  }

  // ---------------------------------------------------------------- what dispatching makes of the readable bytes

  /** Either it waits for more, or refuses the length, or takes a whole frame, or takes what is not one: too few
      bytes for the length announced, or a negative length, which the comparison reads as a huge one. */
  datatype Verdict = Wait | TooLong | Frame(payload: seq<byte>) | Misread

  function Judge(c: seq<byte>): Verdict {
    if |c| <= 4 then Wait
    else if Size(c) > MAX_MESSAGE then TooLong
    else if Size(c) == |c| - 4 then Frame(c[4..])
    else if 0 <= Size(c) < |c| - 4 then Wait
    else Misread
  }

  /** A payload comes out exactly when the readable bytes are one frame, of 1 to 1024 bytes of payload, and it is
      the payload that went in. */
  lemma FrameIff(c: seq<byte>, payload: seq<byte>)
    requires |payload| < 0x8000_0000
    ensures Judge(c) == Frame(payload) <==> c == Encode(payload) && 1 <= |payload| <= MAX_MESSAGE
  {
    HeaderRoundTrip(|payload|);
    if Judge(c) == Frame(payload) {
      SizeRoundTrip(c);
      assert c == c[..4] + c[4..];
      hide Header, Size;
    }
    if c == Encode(payload) && 1 <= |payload| <= MAX_MESSAGE {
      SizeOfPrefix(Header(|payload|), c);
      hide Header, Size;
      assert c[4..] == payload;
    }
  }

  /** Once a length is refused, or more than one frame has piled up, nothing that follows gets through any more. */
  lemma StuckForGood(c: seq<byte>, more: seq<byte>)
    requires |c| > 4 && (Judge(c).Wait? || Judge(c).TooLong?)
    ensures Judge(c + more) == Judge(c)
  {
    SizeOfPrefix(c, c + more);
    hide Size;
  }

  /** The number that four bytes stand for in network order. */
  function Announced(c: seq<byte>): nat
    requires |c| >= 4
  {
    ((c[0] as nat * 256 + c[1] as nat) * 256 + c[2] as nat) * 256 + c[3] as nat
  }

  lemma SizeIsAnnounced(c: seq<byte>)
    requires |c| >= 4
    ensures c[0] < 128 <==> Announced(c) < 0x8000_0000
    ensures Size(c) == if c[0] < 128 then Announced(c) else Announced(c) - 0x1_0000_0000
  {
  }

  /** A header in front of something: every announced length of more than 1024 is refused, however little has arrived,
      and a shorter one is judged by comparing it with what has arrived. */
  lemma JudgedByLength(n: nat, rest: seq<byte>)
    requires n < 0x8000_0000 && rest != []
    ensures n > 1024 ==> Judge(Header(n) + rest) == TooLong
    ensures n <= 1024 && n == |rest| ==> Judge(Header(n) + rest) == Frame(rest)
    ensures n <= 1024 && n < |rest| ==> Judge(Header(n) + rest) == Wait
    ensures n <= 1024 && n > |rest| ==> Judge(Header(n) + rest) == Misread
    ensures Announced(Header(n)) == n
  {
    HeaderRoundTrip(n);
    SizeIsAnnounced(Header(n));
    SizeOfPrefix(Header(n), Header(n) + rest);
    hide Size, Header;
    assert (Header(n) + rest)[4..] == rest;
  }

  /** All that `dispatch` can find: not more than four bytes, a length that reads as negative, or any other one. */
  lemma JudgedByBytes(c: seq<byte>)
    ensures |c| <= 4 ==> Judge(c) == Wait
    ensures |c| > 4 && c[0] >= 128 ==> Judge(c) == Misread
    ensures |c| > 4 && c[0] < 128 ==>
              && (Judge(c) == TooLong <==> Announced(c) > 1024)
              && (Judge(c) == Frame(c[4..]) <==> Announced(c) <= 1024 && Announced(c) == |c| - 4)
              && (Judge(c) == Wait <==> Announced(c) <= 1024 && Announced(c) < |c| - 4)
              && (Judge(c) == Misread <==> Announced(c) <= 1024 && Announced(c) > |c| - 4)
  {
    if |c| > 4 {
      SizeIsAnnounced(c);
      hide Size, Announced;
    }
  }

  // ---------------------------------------------------------------- streams

  /** What comes out when the segments arrive one after another and each is dispatched; `c` is what was left before. */
  function Arrive(c: seq<byte>, segments: seq<seq<byte>>): seq<Verdict>
    decreases |segments|
  {
    if segments == [] then [] else
      var c' := c + segments[0];
      match Judge(c')
      case Wait => Arrive(c', segments[1..])
      case TooLong => [TooLong] + Arrive(c', segments[1..])
      case v => [v] + Arrive([], segments[1..])
  }

  function Concat(segments: seq<seq<byte>>): seq<byte> {
    if segments == [] then [] else segments[0] + Concat(segments[1..])
  }

  predicate Sendable(payloads: seq<seq<byte>>) {
    forall p :: p in payloads ==> 1 <= |p| <= MAX_MESSAGE
  }

  function EncodeAll(payloads: seq<seq<byte>>): seq<byte>
    requires Sendable(payloads)
  {
    if payloads == [] then [] else Encode(payloads[0]) + EncodeAll(payloads[1..])
  }

  function Frames(payloads: seq<seq<byte>>): seq<Verdict> {
    if payloads == [] then [] else [Frame(payloads[0])] + Frames(payloads[1..])
  }

  /** Each dispatch finds at most the first four bytes of a frame or exactly one whole frame: no segment runs past the
      end of the frame it completes. `have` bytes of the first frame came before. Only lengths matter. */
  predicate Aligned(have: nat, segments: seq<seq<byte>>, payloads: seq<seq<byte>>)
    decreases |segments|
  {
    if segments == [] then payloads == []
    else if payloads == [] then false
    else
      var n := have + |segments[0]|;
      if n <= 4 then Aligned(n, segments[1..], payloads)
      else n == 4 + |payloads[0]| && Aligned(0, segments[1..], payloads[1..])
  }

  lemma {:induction false} StuckStream(c: seq<byte>, segments: seq<seq<byte>>)
    requires |c| > 4 && Judge(c).Wait?
    ensures Arrive(c, segments) == []
    decreases |segments|
  {
    if segments != [] {
      StuckForGood(c, segments[0]);
      hide Judge;
      StuckStream(c + segments[0], segments[1..]);
    }
  }

  /** How the start of a stream of frames is judged. */
  lemma JudgePrefix(c: seq<byte>, payloads: seq<seq<byte>>)
    requires Sendable(payloads) && payloads != [] && c <= EncodeAll(payloads) && |c| > 4
    ensures var n := 4 + |payloads[0]|;
            && (|c| < n ==> Judge(c) == Misread)
            && (|c| == n ==> c == Encode(payloads[0]) && Judge(c) == Frame(payloads[0]))
            && (|c| > n ==> Judge(c) == Wait)
  {
    var p, all := payloads[0], EncodeAll(payloads);
    assert all == Header(|p|) + (p + EncodeAll(payloads[1..]));
    HeaderRoundTrip(|p|);
    SizeOfPrefix(Header(|p|), all);
    assert Size(c) == |p| by { SizeOfPrefix(c, all); }
    hide Header, Size;
    if |c| == 4 + |p| {
      assert c == all[..|c|];
      assert all[..|c|] == Encode(p);
      assert c[4..] == p;
    }
  }

  /** Where the stream goes on when the first frame has been taken off. */
  lemma RestOfStream(c: seq<byte>, rest: seq<byte>, payloads: seq<seq<byte>>)
    requires Sendable(payloads) && payloads != [] && c + rest == EncodeAll(payloads) && |c| == 4 + |payloads[0]|
    ensures Sendable(payloads[1..]) && rest == EncodeAll(payloads[1..])
  {
    hide Header;
    var all := EncodeAll(payloads);
    assert rest == all[|c|..];
    assert all == Encode(payloads[0]) + EncodeAll(payloads[1..]);
  }

  /** Of a stream of frames exactly the payloads that were sent come out, in order and nothing else, if and only
      if the segments in which it arrives are aligned with the frames. */
  lemma {:induction false} StreamArrivesIff(c: seq<byte>, segments: seq<seq<byte>>, payloads: seq<seq<byte>>)
    requires Sendable(payloads) && |c| <= 4 && c + Concat(segments) == EncodeAll(payloads)
    requires forall k :: 0 <= k < |segments| ==> segments[k] != []
    ensures Arrive(c, segments) == Frames(payloads) <==> Aligned(|c|, segments, payloads)
    decreases |segments|
  {
    hide Judge, Header, Encode, EncodeAll, Concat, Sendable;
    if segments == [] || payloads == [] {
      StreamEnds(c, segments, payloads);
    } else {
      var c', rest := c + segments[0], segments[1..];
      Shift(c, segments, EncodeAll(payloads));
      if |c'| <= 4 {
        ShortWaits(c');
        StreamArrivesIff(c', rest, payloads);
      } else {
        JudgePrefix(c', payloads);
        if |c'| == 4 + |payloads[0]| {
          RestOfStream(c', Concat(rest), payloads);
          assert [] + Concat(rest) == Concat(rest);
          StreamArrivesIff([], rest, payloads[1..]);
          assert Arrive(c, segments)[1..] == Arrive([], rest) && Frames(payloads)[1..] == Frames(payloads[1..]);
        } else if |c'| > 4 + |payloads[0]| {
          StuckStream(c', rest);
        } else {
          assert Arrive(c, segments)[0] == Misread && Frames(payloads)[0].Frame?;
        }
      }
    }
  }

  /** Two frames that arrive in one segment are never taken off, and nothing after them is. */
  lemma TwoFramesAtOnceAreLost(p: seq<byte>, q: seq<byte>, later: seq<seq<byte>>)
    requires Sendable([p, q])
    ensures Arrive([], [Encode(p) + Encode(q)] + later) == [] && Frames([p, q]) == [Frame(p), Frame(q)]
  {
    var c := Encode(p) + Encode(q);
    assert [p, q][1..] == [q] && [q][1..] == [];
    assert EncodeAll([q]) == Encode(q) + [] && EncodeAll([p, q]) == Encode(p) + EncodeAll([q]) == c;
    assert |p| >= 1 && |q| >= 1 && |Encode(q)| == 4 + |q|;
    JudgePrefix(c, [p, q]);
    StuckStream(c, later);
    assert ([c] + later)[1..] == later && [] + c == c;
    hide Judge, Encode;
    assert Frames([q]) == [Frame(q)] + Frames([]);
  }

  /** And a frame cut behind its first five bytes is misread. */
  lemma CutFrameIsMisread(p: seq<byte>, k: nat)
    requires 1 <= |p| <= MAX_MESSAGE && 4 < k < 4 + |p|
    ensures var segments := [Encode(p)[..k], Encode(p)[k..]];
            Concat(segments) == EncodeAll([p]) && Arrive([], segments) != [] && Arrive([], segments)[0] == Misread
  {
    var all: seq<byte> := Encode(p);
    var segments: seq<seq<byte>> := [all[..k], all[k..]];
    assert [p][1..] == [] && EncodeAll([p]) == all + [] == all;
    assert segments[1..] == [all[k..]] && |segments[1..][1..]| == 0;
    assert Concat(segments[1..]) == all[k..] + [] == all[k..];
    assert Concat(segments) == all[..k] + all[k..] == all;
    JudgePrefix(all[..k], [p]);
    assert [] + all[..k] == all[..k];
  }

  lemma StreamEnds(c: seq<byte>, segments: seq<seq<byte>>, payloads: seq<seq<byte>>)
    requires Sendable(payloads) && |c| <= 4 && c + Concat(segments) == EncodeAll(payloads)
    requires forall k :: 0 <= k < |segments| ==> segments[k] != []
    ensures segments == [] <==> payloads == []
  {
    if segments != [] {
      assert |c + Concat(segments)| > 0;
    }
  }

  /** The next segment only moves bytes from the stream to what has arrived. */
  lemma Shift(c: seq<byte>, segments: seq<seq<byte>>, all: seq<byte>)
    requires segments != [] && c + Concat(segments) == all
    ensures var c' := c + segments[0]; c' + Concat(segments[1..]) == all && c' <= all
  {
    var c', rest := c + segments[0], Concat(segments[1..]);
    assert c' + rest == c + (segments[0] + rest);
  }

  lemma ShortWaits(c: seq<byte>)
    requires |c| <= 4
    ensures Judge(c) == Wait
  {
  }

  // ---------------------------------------------------------------- the two ends

  /** The length and the text are copied into one block. */
  method BuildMessage(json: seq<byte>) returns (realmsg: array<byte>)
    requires |json| < 0x8000_0000
    ensures fresh(realmsg) && realmsg[..] == Encode(json)
    ensures realmsg.Length == 4 + |json| && realmsg[4..] == json
    ensures var high := realmsg[0] as nat * 256 + realmsg[1] as nat;
            (high * 256 + realmsg[2] as nat) * 256 + realmsg[3] as nat == |json|
  {
    var size := |json|;
    var nsize := Header(size);
    realmsg := new byte[4 + size](_ => 0);
    forall i | 0 <= i < 4 {
      realmsg[i] := nsize[i];
    }
    forall i | 0 <= i < size {
      realmsg[4 + i] := json[i];
    }
    HeaderRoundTrip(size);
    SizeIsAnnounced(nsize);
    hide Header, Size;
    assert realmsg[..] == realmsg[..4] + realmsg[4..];
  }

  /** What happens to the caller: nothing, the warning about the length, a text handed to the parser, or a read
      beyond the end of the vector. */
  datatype Outcome = Nothing | Refused | Text(msg: seq<byte>) | Overrun

  /** Takes one message out of the buffer, if it finds one; a text it hands on that is not a frame's payload has
      bytes in it that were never part of the readable ones. */
  method Dispatch(buf: Buffer) returns (o: Outcome)
    requires buf.Valid() && buf.buffer.Length <= VECTOR_MAX
    modifies buf`readerIndex, buf`writerIndex
    ensures buf.Valid()
    ensures var c := old(buf.Contents());
            match Judge(c)
            case Wait => o == Nothing && buf.Contents() == c
            case TooLong => o == Refused && buf.Contents() == c
            case Frame(payload) => o == Text(payload) && buf.Contents() == []
            case Misread => o == Overrun || (o.Text? && c[4..] < o.msg && |o.msg| == Size(c) && buf.Contents() == [])
    ensures var c := old(buf.Contents());
            && (o == Refused <==> |c| > 4 && c[0] < 128 && Announced(c) > 1024)
            && (o == Nothing <==> |c| <= 4 || (c[0] < 128 && Announced(c) <= 1024 && Announced(c) < |c| - 4))
            && (o == Refused || o == Nothing ==> buf.Contents() == c)
            && (o.Text? ==> |o.msg| <= 1024 && |o.msg| == Announced(c) && c[4..] <= o.msg && buf.Contents() == [])
  {
    JudgedByBytes(buf.Contents());
    if buf.ReadableBytes() > 4 {
      SizeIsAnnounced(buf.Contents());
    }
    hide Announced;
    o := Nothing;
    hide Size, Header;
    if buf.ReadableBytes() > 4 {
      var size := Size(buf.buffer[buf.readerIndex..buf.writerIndex]);
      if size > MAX_MESSAGE {
        return Refused;
      }
      var asSizeT := if size < 0 then size + SIZE_T else size;
      if asSizeT >= buf.ReadableBytes() - 4 {
        buf.Retrieve(4);
        if buf.readerIndex + asSizeT > buf.buffer.Length {
          return Overrun;
        }
        var msg := buf.RetrieveAsString(asSizeT);
        o := Text(msg);
      }
    }
  }

  /** Reads the segments into a buffer that is empty, whatever happened to it before, dispatching after each: when
      they are aligned with the frames the payloads come out and the buffer is empty again. */
  method ReceiveAll(buf: Buffer, segments: seq<seq<byte>>, ghost payloads: seq<seq<byte>>)
    returns (texts: seq<seq<byte>>)
    requires buf.Valid() && buf.Contents() == [] && Sendable(payloads) && Concat(segments) == EncodeAll(payloads)
    requires Aligned(0, segments, payloads) && buf.buffer.Length <= VECTOR_MAX
    modifies buf, buf.buffer
    ensures texts == payloads && buf.Valid() && buf.Contents() == []
  {
    hide Judge, Size, Announced, Header, Concat, EncodeAll, Encode, Aligned, Sendable;
    texts := [];
    ghost var todo := payloads;
    var k := 0;
    assert segments[0..] == segments && texts + todo == payloads;
    assert buf.Contents() + Concat(segments) == EncodeAll(payloads);
    while k < |segments|
      invariant 0 <= k <= |segments| && buf.Valid() && texts + todo == payloads && Sendable(todo)
      invariant |buf.Contents()| <= 4 && buf.Contents() + Concat(segments[k..]) == EncodeAll(todo)
      invariant Aligned(|buf.Contents()|, segments[k..], todo)
      invariant buf.buffer == old(buf.buffer) || fresh(buf.buffer)
      invariant buf.buffer.Length <= VECTOR_MAX
    {
      assert segments[k..][1..] == segments[k + 1..] && segments[k..][0] == segments[k];
      ghost var c := buf.Contents();
      NextSegment(c, segments[k..], todo);
      var n := buf.Readfd(Received(segments[k]));
      var o := Dispatch(buf);
      if o.Text? {
        assert texts + todo == texts + [todo[0]] + todo[1..];
        texts := texts + [o.msg];
        todo := todo[1..];
      }
      k := k + 1;
    }
    assert segments[k..] == [];
    EndOfStream(buf.Contents(), todo);
  }

  lemma EndOfStream(c: seq<byte>, payloads: seq<seq<byte>>)
    requires Sendable(payloads) && c + Concat([]) == EncodeAll(payloads) && Aligned(|c|, [], payloads)
    ensures payloads == [] && c == []
  {
  }

  /** One aligned segment more is either not yet five bytes or a whole frame. */
  lemma NextSegment(c: seq<byte>, segments: seq<seq<byte>>, payloads: seq<seq<byte>>)
    requires Sendable(payloads) && |c| <= 4 && c + Concat(segments) == EncodeAll(payloads) && segments != []
    requires Aligned(|c|, segments, payloads)
    ensures |segments[0]| <= 4 + MAX_MESSAGE
    ensures var c', rest := c + segments[0], segments[1..];
            if |c'| <= 4
            then Judge(c') == Wait && c' + Concat(rest) == EncodeAll(payloads) && Aligned(|c'|, rest, payloads)
            else && payloads != [] && Judge(c') == Frame(payloads[0]) && Sendable(payloads[1..])
                 && [] + Concat(rest) == EncodeAll(payloads[1..]) && Aligned(0, rest, payloads[1..])
  {
    hide Judge, Header, Concat, EncodeAll, Encode;
    var c', rest := c + segments[0], segments[1..];
    Shift(c, segments, EncodeAll(payloads));
    if |c'| > 4 {
      JudgePrefix(c', payloads);
      RestOfStream(c', Concat(rest), payloads);
      assert [] + Concat(rest) == Concat(rest);
    } else {
      ShortWaits(c');
    }
  }
}

/**
 * Message framing of the companion-helper link (Device.sendMSG): every request
 * and every reply ends with the literal "PERF_MSG_END\n". The reply is read
 * chunk by chunk into a growing buffer that is searched as a whole after each
 * read, so a terminator split across two reads is still found.
 */
module Framing {
  import opened Text

  newtype byte = x: int | 0 <= x < 256

  predicate IsAscii(s: string)
  {
    forall i :: 0 <= i < |s| ==> s[i] as int < 128
  }

  /** String.getBytes of an ASCII string: one byte per character. */
  function AsciiBytes(s: string): (b: seq<byte>)
    requires IsAscii(s)
    ensures |b| == |s|
    ensures forall i :: 0 <= i < |s| ==> b[i] as int == s[i] as int
  {
    seq(|s|, i requires 0 <= i < |s| => s[i] as int as byte)
  }

  const MSG_END: seq<byte> := AsciiBytes("PERF_MSG_END\n")
  const NEWLINE: byte := 10

  function Concat(chunks: seq<seq<byte>>): seq<byte>
  {
    if chunks == [] then [] else Concat(chunks[..|chunks| - 1]) + chunks[|chunks| - 1]
  }

  /** What the connection yields once it has delivered `received`: the bytes before the first terminator, or nothing. */
  function ReplyOf(received: seq<byte>): seq<byte>
  {
    match IndexOf(received, MSG_END)
    case Some(k) => received[..k]
    case None => []
  }

  /** The bytes written for a command: the command followed by the terminator. */
  function Request(command: string): (b: seq<byte>)
    requires IsAscii(command)
    ensures |b| == |command| + |MSG_END|
  {
    AsciiBytes(command) + MSG_END
  }

  /**
   * The read loop of sendMSG over the chunks that successive reads return;
   * the end of `chunks` is end of stream (a read returning -1).
   */
  method ReadReply(chunks: seq<seq<byte>>) returns (reply: seq<byte>)
    ensures reply == ReplyOf(Concat(chunks))
  {
    var buffer: seq<byte> := [];
    var i := 0;
    while true
      invariant 0 <= i <= |chunks|
      invariant buffer == Concat(chunks[..i])
      invariant IndexOf(buffer, MSG_END).None?
      decreases |chunks| - i
    {
      var endOfStream := i == |chunks|;
      if !endOfStream {
        assert chunks[..i + 1][..i] == chunks[..i];
        buffer := buffer + chunks[i];
        i := i + 1;
      }
      var msgEnd := IndexOf(buffer, MSG_END);
      if msgEnd.Some? {
        ConcatSplit(chunks, i);
        IndexOfFromAppend(buffer, Concat(chunks[i..]), MSG_END, 0);
        return buffer[..msgEnd.value];
      }
      if endOfStream {
        assert chunks[..i] == chunks;
        return [];
      }
    }
  }

  /**
   * sendMSG as a whole: no reply when the port forward cannot be set up or the
   * socket fails, otherwise what the read loop returns.
   */
  method SendMsg(forwarded: bool, ioFailure: bool, chunks: seq<seq<byte>>) returns (reply: seq<byte>)
    ensures !forwarded || ioFailure ==> reply == []
    ensures forwarded && !ioFailure ==> reply == ReplyOf(Concat(chunks))
  {
    if !forwarded || ioFailure {
      return [];
    }
    reply := ReadReply(chunks);
  }

  lemma {:induction false} ConcatSplit(chunks: seq<seq<byte>>, i: nat)
    requires i <= |chunks|
    ensures Concat(chunks) == Concat(chunks[..i]) + Concat(chunks[i..])
    decreases |chunks|
  {
    if i < |chunks| {
      var n := |chunks| - 1;
      ConcatSplit(chunks[..n], i);
      assert chunks[..n][..i] == chunks[..i];
      assert chunks[..n][i..] == chunks[i..n];
      assert chunks[i..][..|chunks[i..]| - 1] == chunks[i..n];
    } else {
      assert chunks[..i] == chunks;
    }
  }

  /**
   * Once the first n reads hold a terminator the reply is settled: whatever
   * arrives afterwards, in the remaining reads or beyond, does not change it.
   */
  lemma ReplySettledOnceTerminated(chunks: seq<seq<byte>>, n: nat, more: seq<byte>)
    requires n <= |chunks|
    requires IndexOf(Concat(chunks[..n]), MSG_END).Some?
    ensures ReplyOf(Concat(chunks[..n]) + more) == ReplyOf(Concat(chunks[..n]))
    ensures ReplyOf(Concat(chunks)) == ReplyOf(Concat(chunks[..n]))
  {
    var head := Concat(chunks[..n]);
    IndexOfFromAppend(head, more, MSG_END, 0);
    ConcatSplit(chunks, n);
    IndexOfFromAppend(head, Concat(chunks[n..]), MSG_END, 0);
  }

  /** A body followed by the terminator reads back as that body, whatever follows, unless the terminator starts inside the body. */
  lemma FrameRoundTrip(body: seq<byte>, rest: seq<byte>)
    requires IndexOf(body + MSG_END, MSG_END) == Some(|body|)
    ensures ReplyOf(body + MSG_END + rest) == body
  {
    IndexOfFromAppend(body + MSG_END, rest, MSG_END, 0);
  }

  /** A body without a newline byte cannot hold the start of a terminator, whose only newline is its last byte. */
  lemma NoNewlineFrames(body: seq<byte>)
    requires forall i :: 0 <= i < |body| ==> body[i] != NEWLINE
    ensures IndexOf(body + MSG_END, MSG_END) == Some(|body|)
  {
    var s := body + MSG_END;
    assert |MSG_END| == 13;
    forall j | 0 <= j < |body|
      ensures !OccursAt(s, MSG_END, j)
    {
      if j + 12 < |body| {
        assert s[j + 12] == body[j + 12];
      } else {
        assert s[j + 12] == MSG_END[j + 12 - |body|];
      }
    }
    assert s[|body|..|body| + 13] == MSG_END;
    NotBefore(s, |body|, 0);
  }

  lemma {:induction false} NotBefore(s: seq<byte>, k: nat, from: nat)
    requires from <= k && OccursAt(s, MSG_END, k)
    requires forall j :: from <= j < k ==> !OccursAt(s, MSG_END, j)
    ensures IndexOfFrom(s, MSG_END, from) == Some(k)
    decreases k - from
  {
    if from < k {
      NotBefore(s, k, from + 1);
    }
  }

  /** The helper reads a request exactly as this side reads a reply: a one-line command comes back intact. */
  lemma RequestRoundTrip(command: string, rest: seq<byte>)
    requires IsAscii(command)
    requires forall i :: 0 <= i < |command| ==> command[i] != '\n'
    ensures ReplyOf(Request(command) + rest) == AsciiBytes(command)
  {
    var body := AsciiBytes(command);
    NoNewlineFrames(body);
    FrameRoundTrip(body, rest);
  }
}

/** Newline framing: `read_frame` of the daemon (apps/daemon/src/ipc.rs) and of the client
    (crates/protocol/src/client.rs), `encode` and `frame_payload` (crates/protocol/src/lib.rs). */
module Framing {
  import opened Prelude

  type Byte = b: int | 0 <= b < 256

  const NEWLINE: Byte := 10
  const CARRIAGE_RETURN: Byte := 13
  const MAX_FRAME_SIZE: nat := 64 * 1024
  const CHUNK_SIZE: nat := 1024

  datatype FrameError = IncompleteFrame | FrameTooLarge | TrailingBytes | EmptyFrame | MultipleMessages

  /** The reads of a stream until it ends: each delivers between 1 and `CHUNK_SIZE` bytes. */
  ghost predicate IsDelivery(chunks: seq<seq<Byte>>) {
    forall chunk | chunk in chunks :: 1 <= |chunk| <= CHUNK_SIZE
  }

  function Flatten(chunks: seq<seq<Byte>>): seq<Byte> {
    if chunks == [] then [] else chunks[0] + Flatten(chunks[1..])
  }

  /** Where the first newline stands, or the length when there is none. */
  function LineLength(s: seq<Byte>): (n: nat)
    ensures n <= |s|
    ensures forall i | 0 <= i < n :: s[i] != NEWLINE
    ensures n < |s| ==> s[n] == NEWLINE
  {
    if s == [] || s[0] == NEWLINE then 0 else 1 + LineLength(s[1..])
  }

  /** Some read ends exactly after `n` bytes. */
  predicate EndsAt(chunks: seq<seq<Byte>>, n: nat) {
    n == 0 || (chunks != [] && |chunks[0]| <= n && EndsAt(chunks[1..], n - |chunks[0]|))
  }

  /** What reading on gives after `frame` was read without a newline, in terms of the bytes still to come; only
      whether bytes after the newline are noticed depends on how they are cut into reads. */
  function OutcomeAfter(frame: seq<Byte>, chunks: seq<seq<Byte>>): Result<seq<Byte>, FrameError> {
    var rest := Flatten(chunks);
    var n := LineLength(rest);
    if n == |rest| && |frame| + n <= MAX_FRAME_SIZE then Err(IncompleteFrame)
    else if |frame| + n >= MAX_FRAME_SIZE then Err(FrameTooLarge)
    else if EndsAt(chunks, n + 1) then Ok(frame + rest[..n + 1])
    else Err(TrailingBytes)
  }

  function Outcome(chunks: seq<seq<Byte>>): Result<seq<Byte>, FrameError> {
    OutcomeAfter([], chunks)
  }

  method ReadFrame(chunks: seq<seq<Byte>>) returns (r: Result<seq<Byte>, FrameError>)
    requires IsDelivery(chunks)
    ensures r == Outcome(chunks)
  {
    var frame: seq<Byte> := [];
    var taken := 0;
    while taken < |chunks|
      invariant taken <= |chunks| && |frame| <= MAX_FRAME_SIZE
      invariant Outcome(chunks) == OutcomeAfter(frame, chunks[taken..])
    {
      var chunk := chunks[taken];
      assert chunks[taken..] == [chunk] + chunks[taken + 1..];
      var newline := 0;
      while newline < |chunk| && chunk[newline] != NEWLINE
        invariant newline <= |chunk| && forall i | 0 <= i < newline :: chunk[i] != NEWLINE
      {
        newline := newline + 1;
      }
      assert chunk in chunks;
      ReadStep(frame, chunk, chunks[taken + 1..], newline);
      if newline < |chunk| {
        var used := newline + 1;
        if |frame| + used > MAX_FRAME_SIZE {
          return Err(FrameTooLarge);
        }
        frame := frame + chunk[..used];
        if used != |chunk| {
          return Err(TrailingBytes);
        }
        return Ok(frame);
      }
      if |frame| + |chunk| > MAX_FRAME_SIZE {
        return Err(FrameTooLarge);
      }
      frame := frame + chunk;
      taken := taken + 1;
    }
    return Err(IncompleteFrame);
  }

  lemma ReadStep(frame: seq<Byte>, chunk: seq<Byte>, rest: seq<seq<Byte>>, newline: nat)
    requires 1 <= |chunk| && newline <= |chunk| && |frame| <= MAX_FRAME_SIZE
    requires (forall i | 0 <= i < newline :: chunk[i] != NEWLINE) && (newline < |chunk| ==> chunk[newline] == NEWLINE)
    ensures OutcomeAfter(frame, [chunk] + rest) ==
            if newline < |chunk| then
              if |frame| + newline + 1 > MAX_FRAME_SIZE then Err(FrameTooLarge)
              else if newline + 1 == |chunk| then Ok(frame + chunk[..newline + 1])
              else Err(TrailingBytes)
            else if |frame| + |chunk| > MAX_FRAME_SIZE then Err(FrameTooLarge)
            else OutcomeAfter(frame + chunk, rest)
  {
    var chunks := [chunk] + rest;
    assert chunks[1..] == rest;
    var all := chunk + Flatten(rest);
    assert Flatten(chunks) == all && EndsAt(rest, 0);
    if newline < |chunk| {
      LineIs(all, newline);
      assert all[..newline + 1] == chunk[..newline + 1];
    } else {
      var n := LineLength(Flatten(rest));
      LineIs(all, |chunk| + n);
      if n < |Flatten(rest)| {
        assert frame + all[..|chunk| + n + 1] == (frame + chunk) + Flatten(rest)[..n + 1];
      }
    }
  }

  function Encode(payload: seq<Byte>): Result<seq<Byte>, FrameError> {
    if |payload| + 1 > MAX_FRAME_SIZE then Err(FrameTooLarge) else Ok(payload + [NEWLINE])
  }

  function FramePayload(frame: seq<Byte>): Result<seq<Byte>, FrameError> {
    if |frame| > MAX_FRAME_SIZE then Err(FrameTooLarge)
    else
      var payload := if frame != [] && frame[|frame| - 1] == NEWLINE then frame[..|frame| - 1] else frame;
      if payload == [] then Err(EmptyFrame)
      else if NEWLINE in payload || CARRIAGE_RETURN in payload then Err(MultipleMessages)
      else Ok(payload)
  }

  /** Reading a frame and taking its payload, as the peer does. */
  function Received(chunks: seq<seq<Byte>>): Result<seq<Byte>, FrameError> {
    match Outcome(chunks)
    case Err(e) => Err(e)
    case Ok(frame) => FramePayload(frame)
  }

  lemma LineIs(s: seq<Byte>, n: nat)
    requires n <= |s| && (forall i | 0 <= i < n :: s[i] != NEWLINE) && (n < |s| ==> s[n] == NEWLINE)
    ensures LineLength(s) == n
  {
  }

  lemma {:induction false} EndsAtTheEnd(chunks: seq<seq<Byte>>)
    ensures EndsAt(chunks, |Flatten(chunks)|)
  {
    if chunks != [] {
      EndsAtTheEnd(chunks[1..]);
    }
  }

  /** An accepted frame is exactly the bytes through the first newline, and at most the limit; the only errors
      are a missing newline, a line over the limit, and bytes noticed after the newline. */
  lemma FrameIsFirstLine(chunks: seq<seq<Byte>>)
    ensures Outcome(chunks).Ok? ==>
            && Outcome(chunks).value <= Flatten(chunks)
            && 1 <= |Outcome(chunks).value| <= MAX_FRAME_SIZE
            && LineLength(Flatten(chunks)) == |Outcome(chunks).value| - 1
    ensures Outcome(chunks) == Err(FrameTooLarge) <==> |Flatten(chunks)| > MAX_FRAME_SIZE && NEWLINE !in Flatten(chunks)[..MAX_FRAME_SIZE]
  {
    var stream := Flatten(chunks);
    var n := LineLength(stream);
    if n < |stream| && n < MAX_FRAME_SIZE <= |stream| {
      assert stream[..MAX_FRAME_SIZE][n] == NEWLINE;
    }
  }

  /** Two deliveries of one stream differ at most in whether the bytes after the newline are noticed; when the
      newline ends the stream they agree. */
  lemma ChunkingHardlyMatters(a: seq<seq<Byte>>, b: seq<seq<Byte>>)
    requires Flatten(a) == Flatten(b)
    ensures Outcome(a) == Outcome(b)
            || (Outcome(a).Ok? && Outcome(b) == Err(TrailingBytes))
            || (Outcome(b).Ok? && Outcome(a) == Err(TrailingBytes))
    ensures LineLength(Flatten(a)) + 1 >= |Flatten(a)| ==> Outcome(a) == Outcome(b)
  {
    EndsAtTheEnd(a);
    EndsAtTheEnd(b);
  }

  /** Where reads end: after `n` bytes exactly if some number of whole reads has `n` bytes. */
  lemma {:induction false} EndsAtExactlyWhen(chunks: seq<seq<Byte>>, n: nat)
    requires forall chunk | chunk in chunks :: chunk != []
    ensures EndsAt(chunks, n) <==> exists i | 0 <= i <= |chunks| :: |Flatten(chunks[..i])| == n
  {
    assert chunks[..0] == [];
    if chunks != [] {
      assert forall chunk | chunk in chunks[1..] :: chunk in chunks;
      forall i | 1 <= i <= |chunks| ensures |Flatten(chunks[..i])| == |chunks[0]| + |Flatten(chunks[1..][..i - 1])| {
        assert chunks[..i][1..] == chunks[1..][..i - 1];
      }
      if |chunks[0]| <= n {
        EndsAtExactlyWhen(chunks[1..], n - |chunks[0]|);
        if EndsAt(chunks[1..], n - |chunks[0]|) {
          var i :| 0 <= i <= |chunks[1..]| && |Flatten(chunks[1..][..i])| == n - |chunks[0]|;
          assert |Flatten(chunks[..i + 1])| == n;
        }
        if i :| 1 <= i <= |chunks| && |Flatten(chunks[..i])| == n {
          assert |Flatten(chunks[1..][..i - 1])| == n - |chunks[0]|;
        }
      }
    }
  }

  /** Every outcome of reading a stream: a missing newline, an oversized line, and otherwise the line, unless no read ends
      with it. */
  lemma OutcomeExactlyWhen(chunks: seq<seq<Byte>>)
    requires IsDelivery(chunks)
    ensures var stream, n := Flatten(chunks), LineLength(Flatten(chunks));
            var ended := exists i | 0 <= i <= |chunks| :: |Flatten(chunks[..i])| == n + 1;
            && (Outcome(chunks) == Err(IncompleteFrame) <==> NEWLINE !in stream && |stream| <= MAX_FRAME_SIZE)
            && (Outcome(chunks).Ok? <==> n < |stream| && n < MAX_FRAME_SIZE && ended)
            && (Outcome(chunks) == Err(TrailingBytes) <==> n < |stream| && n < MAX_FRAME_SIZE && !ended)
  {
    EndsAtExactlyWhen(chunks, LineLength(Flatten(chunks)) + 1);
  }

  predicate IsClean(payload: seq<Byte>) {
    payload != [] && NEWLINE !in payload && CARRIAGE_RETURN !in payload
  }

  lemma LineOfEncoded(payload: seq<Byte>)
    requires NEWLINE !in payload
    ensures LineLength(payload + [NEWLINE]) == |payload|
  {
    var frame := payload + [NEWLINE];
    forall i | 0 <= i < |payload| ensures frame[i] != NEWLINE {
      assert payload[i] in payload;
    }
    LineIs(frame, |payload|);
  }

  lemma EncodedLineIsRead(payload: seq<Byte>, chunks: seq<seq<Byte>>)
    requires |payload| < MAX_FRAME_SIZE && NEWLINE !in payload && Flatten(chunks) == payload + [NEWLINE]
    ensures Outcome(chunks) == Ok(payload + [NEWLINE])
  {
    LineOfEncoded(payload);
    EndsAtTheEnd(chunks);
    assert [] + (payload + [NEWLINE])[..|payload| + 1] == payload + [NEWLINE];
  }

  lemma PayloadOfEncoded(payload: seq<Byte>)
    requires |payload| < MAX_FRAME_SIZE && IsClean(payload)
    ensures FramePayload(payload + [NEWLINE]) == Ok(payload)
  {
    assert (payload + [NEWLINE])[..|payload|] == payload;
  }

  lemma PayloadsAreClean(frame: seq<Byte>)
    requires FramePayload(frame).Ok?
    ensures IsClean(FramePayload(frame).value)
  {
  }

  /** A payload that was encoded is received, however its encoding is delivered, exactly when it is not empty
      and holds neither a newline nor a carriage return. */
  lemma RoundTripExactlyWhen(payload: seq<Byte>, chunks: seq<seq<Byte>>)
    requires Encode(payload).Ok? && Flatten(chunks) == Encode(payload).value
    ensures Received(chunks) == Ok(payload) <==> payload != [] && NEWLINE !in payload && CARRIAGE_RETURN !in payload
  {
    hide Outcome, FramePayload, Flatten;
    if IsClean(payload) {
      EncodedLineIsRead(payload, chunks);
      PayloadOfEncoded(payload);
    }
    if Received(chunks) == Ok(payload) {
      PayloadsAreClean(Outcome(chunks).value);
    }
  }

  lemma PayloadWasEncoded(frame: seq<Byte>)
    requires FramePayload(frame).Ok? && frame != [] && frame[|frame| - 1] == NEWLINE
    ensures Encode(FramePayload(frame).value) == Ok(frame)
  {
    assert frame == frame[..|frame| - 1] + [NEWLINE];
  }

  lemma FrameEndsInNewline(chunks: seq<seq<Byte>>)
    requires Outcome(chunks).Ok?
    ensures var frame := Outcome(chunks).value; frame != [] && frame[|frame| - 1] == NEWLINE
  {
  }

  /** Whatever is received is what its sender must have encoded. */
  lemma ReceivedWasEncoded(chunks: seq<seq<Byte>>)
    requires Received(chunks).Ok?
    ensures Encode(Received(chunks).value) == Outcome(chunks)
    ensures Outcome(chunks).value <= Flatten(chunks)
  {
    hide Outcome, FramePayload, Flatten, LineLength, Encode;
    FrameIsFirstLine(chunks);
    FrameEndsInNewline(chunks);
    PayloadWasEncoded(Outcome(chunks).value);
  }
}

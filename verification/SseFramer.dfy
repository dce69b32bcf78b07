/** The incremental server-sent-event framer `event_stream` of src/providers/openai_compatible.py,
    set against a specification that sees the whole byte stream at once.

    Bytes that are not valid UTF-8 are outside the model: decoding a line and encoding it again is the identity. */
module SseFramer {
  import opened Sequences

  type Byte = bv8
  type Bytes = seq<Byte>

  const LF: Byte := 10
  const CR: Byte := 13
  const COLON: Byte := 58

  // ---------------------------------------------------------------------------------------------
  // Lines and blocks of a whole stream
  // ---------------------------------------------------------------------------------------------

  function StripCr(line: Bytes): Bytes {
    if line != [] && Last(line) == CR then Front(line) else line
  }

  predicate IsComment(line: Bytes) {
    line != [] && line[0] == COLON
  }

  predicate IsData(line: Bytes) {
    line != [] && line[0] != COLON
  }

  function StripAll(lines: seq<Bytes>): (bodies: seq<Bytes>)
    ensures |bodies| == |lines|
    ensures forall i :: 0 <= i < |lines| ==> bodies[i] == StripCr(lines[i])
  {
    seq(|lines|, i requires 0 <= i < |lines| => StripCr(lines[i]))
  }

  /** The complete lines of `s`, each without its line end. */
  function Bodies(s: Bytes): seq<Bytes> {
    StripAll(Front(SplitOn(s, LF)))
  }

  /** What follows the last line end of `s`. */
  function Tail(s: Bytes): Bytes {
    Last(SplitOn(s, LF))
  }

  function DropComments(bodies: seq<Bytes>): seq<Bytes> {
    if bodies == [] then []
    else if IsComment(Last(bodies)) then DropComments(Front(bodies))
    else DropComments(Front(bodies)) + [Last(bodies)]
  }

  /** Blank lines separate blocks of lines; the last block is still open. */
  function Blocks(bodies: seq<Bytes>): (blocks: seq<seq<Bytes>>)
    ensures blocks != []
  {
    SplitOn(DropComments(bodies), [])
  }

  function Open(bodies: seq<Bytes>): seq<Bytes> {
    Last(Blocks(bodies))
  }

  /** `"\n".join(lines)` */
  function Join(lines: seq<Bytes>): Bytes {
    if lines == [] then []
    else if |lines| == 1 then lines[0]
    else Join(Front(lines)) + [LF] + Last(lines)
  }

  function Event(lines: seq<Bytes>): Bytes {
    Join(lines) + [LF, LF]
  }

  /** One event for every block that is not empty. */
  function Render(blocks: seq<seq<Bytes>>): seq<Bytes> {
    if blocks == [] then []
    else if Last(blocks) == [] then Render(Front(blocks))
    else Render(Front(blocks)) + [Event(Last(blocks))]
  }

  function Emitted(bodies: seq<Bytes>): seq<Bytes> {
    Render(Front(Blocks(bodies)))
  }

  /** The block flushed when the stream ends: an unterminated last line counts as a line, comment or not. */
  function FinalBlock(s: Bytes): seq<Bytes> {
    Open(Bodies(s)) + if Tail(s) == [] then [] else [StripCr(Tail(s))]
  }

  /** The events of a whole stream: no chunks, no buffer and no size limits. */
  function SpecEvents(s: Bytes): seq<Bytes> {
    Emitted(Bodies(s)) + Render([FinalBlock(s)])
  }

  // ---------------------------------------------------------------------------------------------
  // Size limits
  // ---------------------------------------------------------------------------------------------

  function Weight(lines: seq<Bytes>): nat {
    if lines == [] then 0 else Weight(Front(lines)) + |Last(lines)| + 1
  }

  predicate LineFits(bodies: seq<Bytes>, i: nat, max: nat)
    requires i < |bodies|
  {
    |bodies[i]| <= max && (IsData(bodies[i]) ==> Weight(Open(bodies[..i + 1])) <= max)
  }

  predicate TailFits(s: Bytes, max: nat) {
    Tail(s) == [] || Weight(Open(Bodies(s))) + |StripCr(Tail(s))| + 1 <= max
  }

  /** The limits a stream must meet when it arrives in one piece. */
  ghost predicate Fits(s: Bytes, max: nat) {
    && (forall i :: 0 <= i < |Bodies(s)| ==> LineFits(Bodies(s), i, max))
    && TailFits(s, max)
  }

  /** The stream up to the end of the k-th chunk. */
  function Cut(chunks: seq<Bytes>, k: nat): Bytes
    requires k <= |chunks|
  {
    Flatten(chunks[..k])
  }

  predicate Overflows(chunks: seq<Bytes>, k: nat, max: nat)
    requires k <= |chunks|
  {
    |Tail(Cut(chunks, k))| > max
  }

  /** A chunk ends with an oversized unfinished line after exactly `n` complete lines. */
  ghost predicate OverflowsAt(chunks: seq<Bytes>, n: nat, max: nat) {
    exists k: nat :: k <= |chunks| && Overflows(chunks, k, max) && |Bodies(Cut(chunks, k))| == n
  }

  ghost predicate StopsAt(chunks: seq<Bytes>, n: nat, max: nat) {
    var bodies := Bodies(Flatten(chunks));
    n >= |bodies| || !LineFits(bodies, n, max) || OverflowsAt(chunks, n, max)
  }

  ghost function FirstStop(chunks: seq<Bytes>, n: nat, max: nat): (stop: nat)
    ensures n <= stop && StopsAt(chunks, stop, max)
    ensures forall i: nat :: n <= i < stop ==> !StopsAt(chunks, i, max)
    decreases |Bodies(Flatten(chunks))| - n
  {
    if StopsAt(chunks, n, max) then n else FirstStop(chunks, n + 1, max)
  }

  datatype Outcome = Outcome(accepted: bool, events: seq<Bytes>)

  /** What a consumer of the framer sees: the events yielded, and whether a size error ended the stream. */
  ghost function Framed(chunks: seq<Bytes>, max: nat): Outcome {
    var s := Flatten(chunks);
    var stop := FirstStop(chunks, 0, max);
    if stop < |Bodies(s)| then Outcome(false, Emitted(Bodies(s)[..stop]))
    else if OverflowsAt(chunks, |Bodies(s)|, max) || !TailFits(s, max) then Outcome(false, Emitted(Bodies(s)))
    else Outcome(true, SpecEvents(s))
  }

  // ---------------------------------------------------------------------------------------------
  // How lines and blocks grow
  // ---------------------------------------------------------------------------------------------

  lemma BodiesGrow(s: Bytes, t: Bytes)
    ensures |Bodies(s)| <= |Bodies(s + t)|
    ensures Bodies(s + t)[..|Bodies(s)|] == Bodies(s)
    ensures SplitOn(s + t, LF) == Front(SplitOn(s, LF)) + SplitOn(Tail(s) + t, LF)
  {
    TailAlone(s);
    SplitAppend(s, t, Front(SplitOn(s, LF)), Tail(s), LF);
  }

  lemma TailAlone(s: Bytes)
    ensures LF !in Tail(s)
    ensures SplitOn(s, LF) == Front(SplitOn(s, LF)) + SplitOn(Tail(s), LF)
  {
    PiecesHaveNoSeparator(s, LF);
    SplitNone(Tail(s), LF);
  }

  lemma CutsGrow(chunks: seq<Bytes>, j: nat, k: nat)
    requires j <= k <= |chunks|
    ensures Cut(chunks, k) == Cut(chunks, j) + Flatten(chunks[j..k])
    ensures |Bodies(Cut(chunks, j))| <= |Bodies(Cut(chunks, k))|
    ensures Bodies(Cut(chunks, k))[..|Bodies(Cut(chunks, j))|] == Bodies(Cut(chunks, j))
  {
    assert chunks[..k] == chunks[..j] + chunks[j..k];
    FlattenAppend(chunks[..j], chunks[j..k]);
    BodiesGrow(Cut(chunks, j), Flatten(chunks[j..k]));
  }

  /** What one more complete line does to the open block and to the events emitted. */
  lemma OneMoreLine(bodies: seq<Bytes>, line: Bytes)
    ensures IsComment(line) ==> Blocks(bodies + [line]) == Blocks(bodies)
    ensures IsData(line) ==>
      Open(bodies + [line]) == Open(bodies) + [line] && Emitted(bodies + [line]) == Emitted(bodies)
    ensures line == [] ==>
      && Open(bodies + [line]) == []
      && Emitted(bodies + [line]) == Emitted(bodies) + Render([Open(bodies)])
  {
    assert Front(bodies + [line]) == bodies;
    if !IsComment(line) {
      var data := DropComments(bodies);
      assert DropComments(bodies + [line]) == data + [line];
      assert Front(data + [line]) == data;
      if line == [] {
        assert Front(Blocks(bodies + [line])) == Blocks(bodies);
      }
    }
  }

  lemma EveryStreamStops(chunks: seq<Bytes>, max: nat)
    ensures StopsAt(chunks, |Bodies(Flatten(chunks))|, max)
  {
  }

  lemma StopIs(chunks: seq<Bytes>, n: nat, max: nat)
    requires StopsAt(chunks, n, max) && forall i: nat :: i < n ==> !StopsAt(chunks, i, max)
    ensures FirstStop(chunks, 0, max) == n
  {
    var stop := FirstStop(chunks, 0, max);
    assert !(stop < n) && !(n < stop);
  }

  // ---------------------------------------------------------------------------------------------
  // The framer
  // ---------------------------------------------------------------------------------------------

  /** Every line before the n-th passed, and no chunk boundary before the k-th overflowed. */
  ghost predicate Passed(chunks: seq<Bytes>, k: nat, n: nat, max: nat)
    requires k <= |chunks|
  {
    var bodies := Bodies(Flatten(chunks));
    && n <= |bodies|
    && (forall i: nat :: i < n ==> LineFits(bodies, i, max))
    && (forall j: nat :: j <= k ==> !Overflows(chunks, j, max))
  }

  lemma PassedMeansNoStop(chunks: seq<Bytes>, k: nat, n: nat, max: nat)
    requires k <= |chunks| && Passed(chunks, k, n, max)
    requires k == |chunks| || n <= |Bodies(Cut(chunks, k + 1))|
    ensures forall i: nat :: i < n ==> !StopsAt(chunks, i, max)
  {
    forall i: nat | i < n
      ensures !StopsAt(chunks, i, max)
    {
      forall j: nat | j <= |chunks| && Overflows(chunks, j, max)
        ensures |Bodies(Cut(chunks, j))| != i
      {
        CutsGrow(chunks, k + 1, j);
      }
    }
  }

  /** The generator's variables after the first `n` complete lines of the stream. */
  ghost predicate Synced(bodies: seq<Bytes>, n: nat, pendingLines: seq<Bytes>, pendingBytes: nat, events: seq<Bytes>) {
    && n <= |bodies|
    && pendingLines == Open(bodies[..n])
    && pendingBytes == Weight(pendingLines)
    && events == Emitted(bodies[..n])
  }

  lemma SyncedAtStart(bodies: seq<Bytes>)
    ensures Synced(bodies, 0, [], 0, [])
  {
  }

  lemma RenderOne(block: seq<Bytes>)
    ensures Render([block]) == if block == [] then [] else [Event(block)]
  {
    assert Front([block]) == [];
  }

  /** The loop body: one complete line, already without its line end. */
  method AcceptLine(line: Bytes, max: nat, pendingLines: seq<Bytes>, pendingBytes: nat, events: seq<Bytes>,
                    ghost bodies: seq<Bytes>, ghost n: nat)
    returns (fits: bool, pendingLines': seq<Bytes>, pendingBytes': nat, events': seq<Bytes>)
    requires Synced(bodies, n, pendingLines, pendingBytes, events)
    requires n < |bodies| && bodies[n] == line
    ensures fits == LineFits(bodies, n, max)
    ensures if fits then Synced(bodies, n + 1, pendingLines', pendingBytes', events') else events' == events
  {
    pendingLines', pendingBytes', events' := pendingLines, pendingBytes, events;
    assert bodies[..n + 1] == bodies[..n] + [line];
    OneMoreLine(bodies[..n], line);
    if |line| > max {
      return false, pendingLines', pendingBytes', events';
    }
    if line == [] {
      if pendingLines != [] {
        events' := events + [Event(pendingLines)];
        pendingLines' := [];
        pendingBytes' := 0;
      }
    } else if line[0] != COLON {
      pendingBytes' := pendingBytes + |line| + 1;
      if pendingBytes' > max {
        return false, pendingLines', pendingBytes', events';
      }
      pendingLines' := pendingLines + [line];
    }
    fits := true;
  }

  lemma FirstLine(buffer: Bytes, at: nat)
    requires at < |buffer| && buffer[at] == LF && LF !in buffer[..at]
    ensures Bodies(buffer) == [StripCr(buffer[..at])] + Bodies(buffer[at + 1..])
    ensures Tail(buffer) == Tail(buffer[at + 1..])
  {
    hide SplitOn;
    SplitFirst(buffer, at, LF);
    var rest := SplitOn(buffer[at + 1..], LF);
    assert Front([buffer[..at]] + rest) == [buffer[..at]] + Front(rest);
  }

  lemma NoLine(buffer: Bytes)
    requires LF !in buffer
    ensures Bodies(buffer) == [] && Tail(buffer) == buffer
  {
    SplitNone(buffer, LF);
  }

  /** The first line of `bodies[from..end]` that breaks a limit, or `end`. */
  ghost function FirstMisfit(bodies: seq<Bytes>, from: nat, end: nat, max: nat): (i: nat)
    requires from <= end <= |bodies|
    ensures from <= i <= end && (i < end ==> !LineFits(bodies, i, max))
    ensures forall j: nat :: from <= j < i ==> LineFits(bodies, j, max)
    decreases end - from
  {
    if from == end || !LineFits(bodies, from, max) then from else FirstMisfit(bodies, from + 1, end, max)
  }

  /** The inner loop: takes every complete line out of the buffer. */
  method DrainLines(buffer: Bytes, max: nat, pendingLines: seq<Bytes>, pendingBytes: nat, events: seq<Bytes>,
                    ghost bodies: seq<Bytes>, ghost n: nat)
    returns (fits: bool, rest: Bytes, pendingLines': seq<Bytes>, pendingBytes': nat, events': seq<Bytes>)
    requires Synced(bodies, n, pendingLines, pendingBytes, events)
    requires Bodies(buffer) <= bodies[n..]
    ensures fits == (FirstMisfit(bodies, n, n + |Bodies(buffer)|, max) == n + |Bodies(buffer)|)
    ensures fits ==> rest == Tail(buffer) && Synced(bodies, n + |Bodies(buffer)|, pendingLines', pendingBytes', events')
    ensures !fits ==> events' == Emitted(bodies[..FirstMisfit(bodies, n, n + |Bodies(buffer)|, max)])
  {
    hide Bodies, Tail, Open, Emitted, LineFits, StripCr;
    ghost var end, m := n + |Bodies(buffer)|, n;
    rest, pendingLines', pendingBytes', events' := buffer, pendingLines, pendingBytes, events;
    while LF in rest
      invariant n <= m && m + |Bodies(rest)| == end
      invariant Bodies(rest) <= bodies[m..] && Tail(rest) == Tail(buffer)
      invariant Synced(bodies, m, pendingLines', pendingBytes', events')
      invariant FirstMisfit(bodies, n, end, max) == FirstMisfit(bodies, m, end, max)
      decreases |rest|
    {
      var at := IndexOf(rest, LF);
      FirstLine(rest, at);
      var line := StripCr(rest[..at]);
      rest := rest[at + 1..];
      fits, pendingLines', pendingBytes', events' :=
        AcceptLine(line, max, pendingLines', pendingBytes', events', bodies, m);
      if !fits {
        return;
      }
      m := m + 1;
    }
    NoLine(rest);
    fits := true;
  }

  /** Appending a chunk to the buffer brings exactly the lines that the stream has gained. */
  lemma ChunkLines(chunks: seq<Bytes>, k: nat)
    requires k < |chunks|
    ensures
      var bodies, n := Bodies(Flatten(chunks)), |Bodies(Cut(chunks, k))|;
      var buffer := Tail(Cut(chunks, k)) + chunks[k];
      && n + |Bodies(buffer)| == |Bodies(Cut(chunks, k + 1))| <= |bodies|
      && Bodies(buffer) <= bodies[n..]
      && Tail(buffer) == Tail(Cut(chunks, k + 1))
  {
    hide Bodies, Tail;
    assert Cut(chunks, k + 1) == Cut(chunks, k) + chunks[k] by {
      assert chunks[..k + 1] == chunks[..k] + [chunks[k]];
      FlattenSnoc(chunks[..k], chunks[k]);
    }
    BodiesOfAppend(Cut(chunks, k), chunks[k]);
    CutsGrow(chunks, k + 1, |chunks|);
    assert chunks[..|chunks|] == chunks;
  }

  lemma BodiesOfAppend(s: Bytes, t: Bytes)
    ensures Bodies(s + t) == Bodies(s) + Bodies(Tail(s) + t)
    ensures Tail(s + t) == Tail(Tail(s) + t)
  {
    hide SplitOn;
    BodiesGrow(s, t);
    var done, gained := Front(SplitOn(s, LF)), SplitOn(Tail(s) + t, LF);
    assert Front(done + gained) == done + Front(gained);
  }

  method EventStream(chunks: seq<Bytes>, max: nat) returns (accepted: bool, events: seq<Bytes>)
    ensures Outcome(accepted, events) == Framed(chunks, max)
    ensures accepted ==> events == SpecEvents(Flatten(chunks))
    ensures accepted <==> Fits(Flatten(chunks), max) && forall k: nat :: k <= |chunks| ==> !Hazard(chunks, k, max)
  {
    hide Bodies, Tail, Open, Emitted, LineFits, StripCr, StopsAt, Weight, Render, Fits, Hazard;
    AcceptedIff(chunks, max);
    var pendingLines: seq<Bytes>, pendingBytes: nat, lineBuffer: Bytes := [], 0, [];
    events := [];
    ghost var bodies, n := Bodies(Flatten(chunks)), 0;
    var k := 0;
    SyncedAtStart(bodies);
    NoLine([]);
    while k < |chunks|
      invariant 0 <= k <= |chunks|
      invariant lineBuffer == Tail(Cut(chunks, k)) && n == |Bodies(Cut(chunks, k))|
      invariant Passed(chunks, k, n, max)
      invariant Synced(bodies, n, pendingLines, pendingBytes, events)
    {
      lineBuffer := lineBuffer + chunks[k];
      ChunkLines(chunks, k);
      var fits: bool;
      ghost var m := FirstMisfit(bodies, n, n + |Bodies(lineBuffer)|, max);
      fits, lineBuffer, pendingLines, pendingBytes, events :=
        DrainLines(lineBuffer, max, pendingLines, pendingBytes, events, bodies, n);
      n := m;
      PassedMeansNoStop(chunks, k, n, max);
      if !fits {
        StopIs(chunks, n, max);
        return false, events;
      }
      if |lineBuffer| > max {
        assert Overflows(chunks, k + 1, max) && OverflowsAt(chunks, n, max);
        StopIs(chunks, n, max);
        assert n == |bodies| ==> bodies[..n] == bodies;
        return false, events;
      }
      k := k + 1;
    }
    assert chunks[..|chunks|] == chunks;
    PassedMeansNoStop(chunks, k, n, max);
    EveryStreamStops(chunks, max);
    StopIs(chunks, n, max);
    assert bodies[..n] == bodies;
    RenderOne(FinalBlock(Flatten(chunks)));
    if lineBuffer != [] {
      var finalLine := StripCr(lineBuffer);
      pendingBytes := pendingBytes + |finalLine| + 1;
      if pendingBytes > max {
        return false, events;
      }
      pendingLines := pendingLines + [finalLine];
    }
    assert pendingLines == FinalBlock(Flatten(chunks));
    if pendingLines != [] {
      events := events + [Event(pendingLines)];
    }
    assert events == SpecEvents(Flatten(chunks));
    assert !OverflowsAt(chunks, n, max);
    assert TailFits(Flatten(chunks), max);
    accepted := true;
  }

  // ---------------------------------------------------------------------------------------------
  // Chunk boundaries
  // ---------------------------------------------------------------------------------------------

  /** The one way a chunk boundary can cost an otherwise acceptable stream its acceptance: it falls between the CR
      and the LF that end a comment (or, for a limit of 0, a blank line) of exactly `max` bytes. */
  ghost predicate Hazard(chunks: seq<Bytes>, k: nat, max: nat)
    requires k <= |chunks|
  {
    var s, seen := Flatten(chunks), Cut(chunks, k);
    && |seen| < |s| && s[|seen|] == LF
    && |Tail(seen)| == max + 1 && Last(Tail(seen)) == CR
    && !IsData(Front(Tail(seen)))
  }

  /** The stream after the k-th cut, seen from the cut. */
  lemma AfterCut(chunks: seq<Bytes>, k: nat) returns (t: Bytes, rest: Bytes)
    requires k <= |chunks|
    ensures t == Tail(Cut(chunks, k)) && Flatten(chunks) == Cut(chunks, k) + rest
    ensures Bodies(Flatten(chunks)) == Bodies(Cut(chunks, k)) + Bodies(t + rest)
    ensures Tail(Flatten(chunks)) == Tail(t + rest)
    ensures LF !in t
    ensures LF !in rest ==> Bodies(t + rest) == [] && Tail(t + rest) == t + rest
    ensures LF in rest ==> Bodies(t + rest) != [] && Bodies(t + rest)[0] == StripCr(t + rest[..IndexOf(rest, LF)])
  {
    hide Bodies, Tail;
    t, rest := Tail(Cut(chunks, k)), Flatten(chunks[k..]);
    CutsGrow(chunks, k, |chunks|);
    assert chunks[..|chunks|] == chunks;
    BodiesOfAppend(Cut(chunks, k), rest);
    TailAlone(Cut(chunks, k));
    if LF in rest {
      var at := |t| + IndexOf(rest, LF);
      assert (t + rest)[..at] == t + rest[..IndexOf(rest, LF)];
      FirstLine(t + rest, at);
    } else {
      NoLine(t + rest);
    }
  }

  lemma LastLineWeighs(bodies: seq<Bytes>, n: nat)
    requires n < |bodies| && IsData(bodies[n])
    ensures Weight(Open(bodies[..n + 1])) >= |bodies[n]| + 1
  {
    hide Open, Emitted, Blocks;
    assert bodies[..n + 1] == bodies[..n] + [bodies[n]];
    OneMoreLine(bodies[..n], bodies[n]);
  }

  lemma OverflowIsHazard(chunks: seq<Bytes>, k: nat, max: nat)
    requires k <= |chunks| && Overflows(chunks, k, max) && Fits(Flatten(chunks), max)
    ensures Hazard(chunks, k, max)
  {
    hide Bodies, Tail, Open, Weight;
    var bodies, n := Bodies(Flatten(chunks)), |Bodies(Cut(chunks, k))|;
    var t, rest := AfterCut(chunks, k);
    if LF in rest {
      assert bodies[n] == Bodies(t + rest)[0];
      assert LineFits(bodies, n, max);
      assert |t + rest[..IndexOf(rest, LF)]| <= max + 1;
      assert t + rest[..IndexOf(rest, LF)] == t;
      if IsData(bodies[n]) {
        LastLineWeighs(bodies, n);
      }
    }
  }

  /** A run is accepted exactly when the stream meets the limits as a whole and no chunk boundary is hazardous. */
  lemma AcceptedIff(chunks: seq<Bytes>, max: nat)
    ensures Framed(chunks, max).accepted <==>
            Fits(Flatten(chunks), max) && forall k: nat :: k <= |chunks| ==> !Hazard(chunks, k, max)
  {
    hide Bodies, Tail, LineFits, SpecEvents, Emitted;
    var s := Flatten(chunks);
    var bodies := Bodies(s);
    var stop := FirstStop(chunks, 0, max);
    if Framed(chunks, max).accepted {
      forall k: nat | k <= |chunks|
        ensures !Overflows(chunks, k, max)
      {
        CutsGrow(chunks, k, |chunks|);
        assert chunks[..|chunks|] == chunks;
        assert |Bodies(Cut(chunks, k))| < stop ==> !StopsAt(chunks, |Bodies(Cut(chunks, k))|, max);
      }
      forall i | 0 <= i < |bodies|
        ensures LineFits(bodies, i, max)
      {
        assert !StopsAt(chunks, i, max);
      }
      assert forall k: nat :: k <= |chunks| && Hazard(chunks, k, max) ==> Overflows(chunks, k, max);
    }
    if Fits(s, max) {
      forall k: nat | k <= |chunks| && Overflows(chunks, k, max)
        ensures Hazard(chunks, k, max)
      {
        OverflowIsHazard(chunks, k, max);
      }
      assert (forall k: nat :: k <= |chunks| ==> !Overflows(chunks, k, max)) ==> !OverflowsAt(chunks, stop, max);
    }
  }

  /** Without a CR in the stream an oversized unfinished line is an oversized line. */
  lemma NoCrOverflow(chunks: seq<Bytes>, n: nat, max: nat)
    requires CR !in Flatten(chunks) && OverflowsAt(chunks, n, max)
    ensures
      var bodies := Bodies(Flatten(chunks));
      n <= |bodies| && if n < |bodies| then !LineFits(bodies, n, max) else !TailFits(Flatten(chunks), max)
  {
    hide Bodies, Tail, Open, Weight;
    var k: nat :| k <= |chunks| && Overflows(chunks, k, max) && |Bodies(Cut(chunks, k))| == n;
    var t, rest := AfterCut(chunks, k);
    TailIsSuffix(Cut(chunks, k));
    var s, c := Flatten(chunks), |Cut(chunks, k)|;
    assert t + rest == s[c - |t|..];
    if LF in rest {
      var line := t + rest[..IndexOf(rest, LF)];
      assert forall x :: x in line ==> x in s;
      assert StripCr(line) == line;
      assert Bodies(s)[n] == line;
    }
  }

  lemma {:induction false} TailIsSuffix(s: Bytes)
    ensures |Tail(s)| <= |s| && Tail(s) == s[|s| - |Tail(s)|..]
  {
    if s != [] {
      TailIsSuffix(Front(s));
      SplitSnoc(Front(s), Last(s), LF);
      assert Front(s) + [Last(s)] == s;
    }
  }

  lemma NoCrStops(chunks: seq<Bytes>, n: nat, max: nat)
    requires CR !in Flatten(chunks)
    ensures StopsAt(chunks, n, max) <==> n >= |Bodies(Flatten(chunks))| || !LineFits(Bodies(Flatten(chunks)), n, max)
  {
    if n < |Bodies(Flatten(chunks))| && OverflowsAt(chunks, n, max) {
      NoCrOverflow(chunks, n, max);
    }
  }

  /** For streams without CR, cutting the stream differently changes neither the acceptance nor the events yielded,
      not even those yielded before a size error. */
  lemma ChunkingIsIrrelevantWithoutCr(chunks: seq<Bytes>, other: seq<Bytes>, max: nat)
    requires Flatten(chunks) == Flatten(other) && CR !in Flatten(chunks)
    ensures Framed(chunks, max) == Framed(other, max)
  {
    hide Bodies, Tail, LineFits, SpecEvents, Emitted, StopsAt, OverflowsAt;
    var stop := FirstStop(chunks, 0, max);
    forall n: nat
      ensures StopsAt(chunks, n, max) == StopsAt(other, n, max)
    {
      NoCrStops(chunks, n, max);
      NoCrStops(other, n, max);
    }
    StopIs(other, stop, max);
    var n := |Bodies(Flatten(chunks))|;
    if OverflowsAt(chunks, n, max) {
      NoCrOverflow(chunks, n, max);
    }
    if OverflowsAt(other, n, max) {
      NoCrOverflow(other, n, max);
    }
  }

  lemma FlattenSmall(a: Bytes, b: Bytes)
    ensures Flatten([a]) == a && Flatten([a, b]) == a + b && Cut([a, b], 1) == a
    ensures Cut([a], 0) == [] && Cut([a], 1) == a
  {
    assert [a][..1] == [a];
    assert Front([a]) == [] && Front([a, b]) == [a] && [a, b][..1] == [a];
  }

  /** With CR it is false: a comment of exactly `max` bytes is refused when its CR and LF arrive separately. */
  lemma SplitCommentIsRefused(comment: Bytes, max: nat)
    requires IsComment(comment) && LF !in comment && |comment| == max
    ensures !Framed([comment + [CR], [LF]], max).accepted
  {
    hide Framed, Bodies, Tail, Flatten;
    var chunks := [comment + [CR], [LF]];
    FlattenSmall(comment + [CR], [LF]);
    NoLine(comment + [CR]);
    assert Front(comment + [CR]) == comment;
    assert Hazard(chunks, 1, max);
    AcceptedIff(chunks, max);
  }

  lemma WholeCommentIsAccepted(comment: Bytes, max: nat)
    requires IsComment(comment) && LF !in comment && |comment| == max
    ensures Framed([comment + [CR] + [LF]], max).accepted
  {
    hide Framed, Bodies, Tail, Flatten;
    var s := comment + [CR] + [LF];
    FlattenSmall(s, []);
    NoLine([]);
    FirstLine(s, max + 1);
    assert s[..max + 1] == comment + [CR] && s[max + 2..] == [] && Front(comment + [CR]) == comment;
    assert LineFits([comment], 0, max);
    AcceptedIff([s], max);
  }

  // ---------------------------------------------------------------------------------------------
  // Events
  // ---------------------------------------------------------------------------------------------

  lemma {:induction false} EmittedGrows(bodies: seq<Bytes>, n: nat)
    requires n <= |bodies|
    ensures Emitted(bodies[..n]) <= Emitted(bodies)
    decreases |bodies| - n
  {
    hide Open, Emitted, Blocks;
    if n == |bodies| {
      assert bodies[..n] == bodies;
    } else {
      OneMoreLine(bodies[..n], bodies[n]);
      assert bodies[..n + 1] == bodies[..n] + [bodies[n]];
      EmittedByOne(bodies[..n], bodies[n]);
      EmittedGrows(bodies, n + 1);
    }
  }

  lemma EmittedByOne(bodies: seq<Bytes>, line: Bytes)
    ensures Emitted(bodies) <= Emitted(bodies + [line])
  {
    hide SplitOn, Render;
    OneMoreLine(bodies, line);
  }

  /** Whatever the chunking and whether or not a size error ends the run, the events yielded are a prefix of the
      specification's. */
  lemma EventsArePrefix(chunks: seq<Bytes>, max: nat)
    ensures Framed(chunks, max).events <= SpecEvents(Flatten(chunks))
  {
    hide Emitted, Bodies, StopsAt, Render;
    var bodies, stop := Bodies(Flatten(chunks)), FirstStop(chunks, 0, max);
    if stop < |bodies| {
      EmittedGrows(bodies, stop);
    }
  }

  lemma {:induction false} EventWeight(lines: seq<Bytes>)
    requires lines != []
    ensures |Event(lines)| == Weight(lines) + 1
  {
    if |lines| == 1 {
      assert Front(lines) == [];
    } else {
      EventWeight(Front(lines));
    }
  }

  ghost predicate Small(events: seq<Bytes>, max: nat) {
    forall e :: e in events ==> |e| <= max + 1
  }

  lemma {:induction false} FittingLinesGiveSmallEvents(bodies: seq<Bytes>, n: nat, max: nat)
    requires n <= |bodies| && forall i: nat :: i < n ==> LineFits(bodies, i, max)
    ensures Weight(Open(bodies[..n])) <= max && Small(Emitted(bodies[..n]), max)
  {
    hide Open, Emitted, Blocks;
    if n == 0 {
      SyncedAtStart(bodies);
    } else {
      FittingLinesGiveSmallEvents(bodies, n - 1, max);
      var before, line := bodies[..n - 1], bodies[n - 1];
      assert bodies[..n] == before + [line];
      assert LineFits(bodies, n - 1, max);
      OneMoreLine(before, line);
      RenderOne(Open(before));
      if Open(before) != [] {
        EventWeight(Open(before));
      }
      if IsComment(line) {
        SameBlocks(before, line);
      }
    }
  }

  lemma SameBlocks(bodies: seq<Bytes>, line: Bytes)
    requires IsComment(line)
    ensures Open(bodies + [line]) == Open(bodies) && Emitted(bodies + [line]) == Emitted(bodies)
  {
    OneMoreLine(bodies, line);
  }

  /** No event is longer than the limit plus the one byte of its second line end. */
  lemma EventsAreSmall(chunks: seq<Bytes>, max: nat)
    ensures Small(Framed(chunks, max).events, max)
  {
    hide Emitted, Bodies, Open, Tail, Weight, LineFits;
    var s := Flatten(chunks);
    var bodies, stop := Bodies(s), FirstStop(chunks, 0, max);
    var n := if stop < |bodies| then stop else |bodies|;
    forall i: nat | i < n
      ensures LineFits(bodies, i, max)
    {
      assert !StopsAt(chunks, i, max);
    }
    FittingLinesGiveSmallEvents(bodies, n, max);
    assert bodies[..|bodies|] == bodies;
    if Framed(chunks, max).accepted {
      RenderOne(FinalBlock(s));
      FinalWeight(s);
      if FinalBlock(s) != [] {
        EventWeight(FinalBlock(s));
      }
      assert Small(Render([FinalBlock(s)]), max);
    }
  }

  lemma FinalWeight(s: Bytes)
    ensures Weight(FinalBlock(s)) ==
            Weight(Open(Bodies(s))) + if Tail(s) == [] then 0 else |StripCr(Tail(s))| + 1
  {
    hide Open, Bodies, Tail;
    var open := Open(Bodies(s));
    if Tail(s) == [] {
      assert FinalBlock(s) == open;
    } else {
      assert Front(open + [StripCr(Tail(s))]) == open;
    }
  }

  // ---------------------------------------------------------------------------------------------
  // Framing the framer's own output
  // ---------------------------------------------------------------------------------------------

  /** A line that survives another pass: data, in one piece, and not ending in a CR that would be stripped. */
  predicate Stable(line: Bytes) {
    IsData(line) && LF !in line && Last(line) != CR
  }

  ghost predicate StableBlocks(blocks: seq<seq<Bytes>>, max: nat) {
    && (forall g :: g in blocks ==> Weight(g) <= max)
    && (forall g, line :: g in blocks && line in g ==> Stable(line))
  }

  /** The lines of the rendered blocks: every block that is not empty, followed by a blank line. */
  function OutLines(blocks: seq<seq<Bytes>>): seq<Bytes> {
    if blocks == [] then []
    else OutLines(Front(blocks)) + if Last(blocks) == [] then [] else Last(blocks) + [[]]
  }

  lemma LineInText(s: Bytes, line: Bytes)
    requires Tail(s) == [] && LF !in line && (line == [] || Last(line) != CR)
    ensures Bodies(s + (line + [LF])) == Bodies(s) + [line] && Tail(s + (line + [LF])) == []
  {
    hide Bodies, Tail;
    BodiesOfAppend(s, line + [LF]);
    assert [] + (line + [LF]) == line + [LF];
    FirstLine(line + [LF], |line|);
    assert (line + [LF])[..|line|] == line && (line + [LF])[|line| + 1..] == [];
    NoLine([]);
  }

  lemma {:induction false} JoinInText(s: Bytes, block: seq<Bytes>)
    requires Tail(s) == [] && block != [] && forall line :: line in block ==> Stable(line)
    ensures Bodies(s + (Join(block) + [LF])) == Bodies(s) + block && Tail(s + (Join(block) + [LF])) == []
  {
    hide Bodies, Tail;
    if |block| == 1 {
      assert Stable(block[0]);
      LineInText(s, block[0]);
      assert block == [block[0]];
    } else {
      JoinInText(s, Front(block));
      assert Stable(Last(block));
      var before := s + (Join(Front(block)) + [LF]);
      LineInText(before, Last(block));
      assert s + (Join(block) + [LF]) == before + (Last(block) + [LF]);
    }
  }

  lemma EventInText(s: Bytes, block: seq<Bytes>)
    requires Tail(s) == [] && block != [] && forall line :: line in block ==> Stable(line)
    ensures Bodies(s + Event(block)) == Bodies(s) + (block + [[]]) && Tail(s + Event(block)) == []
  {
    hide Bodies, Tail, Join;
    JoinInText(s, block);
    var before := s + (Join(block) + [LF]);
    LineInText(before, []);
    assert s + Event(block) == before + ([] + [LF]);
  }

  lemma {:induction false} RenderedText(blocks: seq<seq<Bytes>>, max: nat)
    requires StableBlocks(blocks, max)
    ensures Bodies(Flatten(Render(blocks))) == OutLines(blocks) && Tail(Flatten(Render(blocks))) == []
  {
    hide Bodies, Tail, Event, Weight;
    if blocks == [] {
      NoLine([]);
    } else {
      RenderedText(Front(blocks), max);
      if Last(blocks) != [] {
        FlattenSnoc(Render(Front(blocks)), Event(Last(blocks)));
        EventInText(Flatten(Render(Front(blocks))), Last(blocks));
      }
    }
  }

  ghost predicate AllFit(bodies: seq<Bytes>, max: nat) {
    forall i: nat :: i < |bodies| ==> LineFits(bodies, i, max)
  }

  lemma FitOneMore(bodies: seq<Bytes>, line: Bytes, max: nat)
    requires AllFit(bodies, max) && |line| <= max && (IsData(line) ==> Weight(Open(bodies + [line])) <= max)
    ensures AllFit(bodies + [line], max)
  {
    hide Open, Weight;
    var more := bodies + [line];
    forall i: nat | i < |more|
      ensures LineFits(more, i, max)
    {
      if i < |bodies| {
        assert more[..i + 1] == bodies[..i + 1];
        assert LineFits(bodies, i, max);
      } else {
        assert more[..i + 1] == more;
      }
    }
  }

  /** Reading the lines of a block, `n` of them so far. */
  lemma {:induction false} ReadBlock(bodies: seq<Bytes>, block: seq<Bytes>, n: nat, max: nat)
    requires AllFit(bodies, max) && Open(bodies) == [] && n <= |block|
    requires Weight(block) <= max && forall line :: line in block ==> Stable(line)
    ensures AllFit(bodies + block[..n], max) && Open(bodies + block[..n]) == block[..n]
    ensures Emitted(bodies + block[..n]) == Emitted(bodies)
  {
    hide Open, Emitted, Weight, Blocks, AllFit;
    if n == 0 {
      assert bodies + block[..n] == bodies;
    } else {
      ReadBlock(bodies, block, n - 1, max);
      var before, line := bodies + block[..n - 1], block[n - 1];
      assert bodies + block[..n] == before + [line];
      assert block[..n] == block[..n - 1] + [line];
      assert Stable(line);
      OneMoreLine(before, line);
      PrefixWeight(block, n);
      FitOneMore(before, line, max);
    }
  }

  lemma {:induction false} PrefixWeight(block: seq<Bytes>, n: nat)
    requires n <= |block|
    ensures Weight(block[..n]) <= Weight(block)
    ensures n > 0 ==> |block[n - 1]| <= Weight(block)
  {
    if n == |block| {
      assert block[..n] == block;
      assert n > 0 ==> block[n - 1] == Last(block);
    } else {
      PrefixWeight(Front(block), n);
      assert Front(block)[..n] == block[..n];
      assert n > 0 ==> Front(block)[n - 1] == block[n - 1];
    }
  }

  lemma {:induction false} ReadOutLines(blocks: seq<seq<Bytes>>, max: nat)
    requires StableBlocks(blocks, max)
    ensures AllFit(OutLines(blocks), max) && Open(OutLines(blocks)) == [] && Emitted(OutLines(blocks)) == Render(blocks)
  {
    hide Open, Emitted, Weight, Blocks, Event;
    if blocks == [] {
      SyncedAtStart([]);
    } else {
      ReadOutLines(Front(blocks), max);
      var before, block := OutLines(Front(blocks)), Last(blocks);
      if block == [] {
        assert OutLines(blocks) == before;
      } else {
        ReadBlock(before, block, |block|, max);
        assert block[..|block|] == block;
        OneMoreLine(before + block, []);
        FitOneMore(before + block, [], max);
        assert OutLines(blocks) == before + block + [[]];
        RenderOne(block);
      }
    }
  }

  lemma {:induction false} DropCommentsKeepsLines(bodies: seq<Bytes>)
    ensures forall line :: line in DropComments(bodies) ==> line in bodies && !IsComment(line)
  {
    if bodies != [] {
      DropCommentsKeepsLines(Front(bodies));
    }
  }

  lemma {:induction false} PieceElements(lines: seq<Bytes>)
    ensures forall g, line :: g in SplitOn(lines, []) && line in g ==> line in lines
  {
    if lines != [] {
      PieceElements(Front(lines));
      var before := SplitOn(Front(lines), []);
      assert SplitOn(lines, []) == Extend(before, Last(lines), []);
      hide SplitOn;
      forall g, line | g in SplitOn(lines, []) && line in g
        ensures line in lines
      {
        assert g in before || line in Last(before) || line == Last(lines);
      }
    }
  }

  lemma {:induction false} BlocksWeigh(bodies: seq<Bytes>, max: nat)
    requires AllFit(bodies, max)
    ensures forall g :: g in Blocks(bodies) ==> Weight(g) <= max
  {
    if bodies == [] {
    } else {
      var before, line := Front(bodies), Last(bodies);
      assert bodies == before + [line];
      forall i: nat | i < |before|
        ensures LineFits(before, i, max)
      {
        assert before[..i + 1] == bodies[..i + 1];
        assert LineFits(bodies, i, max);
      }
      BlocksWeigh(before, max);
      BlocksByOne(before, line);
      assert bodies[..|before| + 1] == bodies;
      assert LineFits(bodies, |before|, max);
    }
  }

  lemma BlocksByOne(bodies: seq<Bytes>, line: Bytes)
    ensures forall g :: g in Blocks(bodies + [line]) ==>
                        g in Blocks(bodies) || g == [] || (IsData(line) && g == Open(bodies + [line]))
  {
    hide SplitOn;
    assert Front(bodies + [line]) == bodies;
    SplitSnoc(DropComments(bodies), line, []);
  }

  lemma BodiesHaveNoLf(s: Bytes)
    ensures forall line :: line in Bodies(s) ==> LF !in line
  {
    hide SplitOn;
    PiecesHaveNoSeparator(s, LF);
    forall i | 0 <= i < |Bodies(s)|
      ensures LF !in Bodies(s)[i]
    {
      assert SplitOn(s, LF)[i] in SplitOn(s, LF);
    }
  }

  lemma StreamBlocksAreStable(s: Bytes, max: nat)
    requires Fits(s, max) && forall line :: line in Bodies(s) && line != [] ==> Last(line) != CR
    ensures StableBlocks(Blocks(Bodies(s)), max)
  {
    var bodies := Bodies(s);
    BodiesHaveNoLf(s);
    hide Bodies, SplitOn, LineFits, Weight;
    DropCommentsKeepsLines(bodies);
    PieceElements(DropComments(bodies));
    PiecesHaveNoSeparator(DropComments(bodies), []);
    BlocksWeigh(bodies, max);
  }

  /** The framer is a fixpoint on its own output: when the stream ends with a line end and no line ends in a stray CR,
      framing the concatenated events again, cut into chunks in any way, gives back the same events. */
  lemma FramingItsOutput(chunks: seq<Bytes>, again: seq<Bytes>, max: nat)
    requires Framed(chunks, max).accepted && Tail(Flatten(chunks)) == []
    requires forall line :: line in Bodies(Flatten(chunks)) && line != [] ==> Last(line) != CR
    requires Flatten(again) == Flatten(Framed(chunks, max).events)
    ensures Framed(again, max) == Framed(chunks, max)
  {
    assert Framed(chunks, max).events == SpecEvents(Flatten(chunks));
    hide Bodies, Tail, SpecEvents, Framed;
    var blocks := Blocks(Bodies(Flatten(chunks)));
    AcceptedIff(chunks, max);
    StreamBlocksAreStable(Flatten(chunks), max);
    WholeRender(Flatten(chunks));
    FramingRenderedBlocks(again, blocks, max);
  }

  lemma FramingRenderedBlocks(chunks: seq<Bytes>, blocks: seq<seq<Bytes>>, max: nat)
    requires StableBlocks(blocks, max) && Flatten(chunks) == Flatten(Render(blocks))
    ensures Framed(chunks, max) == Outcome(true, Render(blocks))
  {
    hide Bodies, Tail, Emitted, Open, Weight, StopsAt, Render, LineFits, StableBlocks;
    var out := Flatten(chunks);
    RenderedText(blocks, max);
    ReadOutLines(blocks, max);
    NoHazardInOutput(chunks, blocks, max);
    AcceptedIff(chunks, max);
    RenderOne([]);
    assert FinalBlock(out) == [];
    assert SpecEvents(out) == Render(blocks);
  }

  lemma WholeRender(s: Bytes)
    requires Tail(s) == []
    ensures SpecEvents(s) == Render(Blocks(Bodies(s)))
  {
    hide Bodies, Tail, Blocks;
    var blocks := Blocks(Bodies(s));
    assert FinalBlock(s) == Last(blocks);
    RenderOne(Last(blocks));
  }

  lemma {:induction false} OutLinesAreStable(blocks: seq<seq<Bytes>>, max: nat)
    requires StableBlocks(blocks, max)
    ensures forall line :: line in OutLines(blocks) ==> line == [] || Stable(line)
    ensures max == 0 ==> OutLines(blocks) == []
  {
    if blocks != [] {
      OutLinesAreStable(Front(blocks), max);
      assert Last(blocks) in blocks;
      assert max == 0 ==> Last(blocks) == [];
    }
  }

  lemma NoHazardInOutput(chunks: seq<Bytes>, blocks: seq<seq<Bytes>>, max: nat)
    requires StableBlocks(blocks, max) && Bodies(Flatten(chunks)) == OutLines(blocks)
    ensures forall k: nat :: k <= |chunks| ==> !Hazard(chunks, k, max)
  {
    hide Bodies, Tail, Weight, OutLines, Hazard;
    OutLinesAreStable(blocks, max);
    forall k: nat | k <= |chunks|
      ensures !Hazard(chunks, k, max)
    {
      if Hazard(chunks, k, max) {
        var line := HazardousLine(chunks, k, max);
        assert false;
      }
    }
  }

  lemma HazardousLine(chunks: seq<Bytes>, k: nat, max: nat) returns (line: Bytes)
    requires k <= |chunks| && Hazard(chunks, k, max)
    ensures line in Bodies(Flatten(chunks)) && |line| == max && !IsData(line)
  {
    hide Bodies, Tail;
    var t, rest := AfterCut(chunks, k);
    assert rest[0] == LF && IndexOf(rest, LF) == 0;
    assert t + rest[..0] == t;
    line := Bodies(t + rest)[0];
  }

  /** The size bound is reached: an event of one line of `max - 1` bytes is accepted, and with its two line ends it has
      `max + 1`, one byte more than the relay of src/proxy.py lets through under the same setting. */
  lemma SizeBoundIsReached(line: Bytes, max: nat)
    requires Stable(line) && |line| == max - 1
    ensures Framed([Event([line])], max) == Outcome(true, [Event([line])]) && |Event([line])| == max + 1
  {
    hide Framed, Event, Flatten;
    var blocks := [[line]];
    assert Weight([line]) == max by {
      assert Front([line]) == [];
    }
    assert StableBlocks(blocks, max);
    RenderOne([line]);
    FlattenSmall(Event([line]), []);
    FramingRenderedBlocks([Event([line])], blocks, max);
    EventWeight([line]);
  }

  /** The blocks of the stream itself, comments dropped: those closed by a blank line and the one flushed at the end. */
  function StreamBlocks(s: Bytes): seq<seq<Bytes>> {
    Front(Blocks(Bodies(s))) + [FinalBlock(s)]
  }

  /** The blocks a run turns into events: all of the stream's, or those closed before the line that broke a limit. */
  ghost function YieldedBlocks(chunks: seq<Bytes>, max: nat): seq<seq<Bytes>> {
    var bodies, stop := Bodies(Flatten(chunks)), FirstStop(chunks, 0, max);
    if Framed(chunks, max).accepted then StreamBlocks(Flatten(chunks))
    else Front(Blocks(if stop < |bodies| then bodies[..stop] else bodies))
  }

  lemma YieldedBlocksWeigh(chunks: seq<Bytes>, max: nat)
    ensures Framed(chunks, max).events == Render(YieldedBlocks(chunks, max))
    ensures forall g :: g in YieldedBlocks(chunks, max) ==> Weight(g) <= max
  {
    hide Bodies, Open, Tail, Weight, LineFits, Blocks, Render;
    var s := Flatten(chunks);
    var bodies, stop := Bodies(s), FirstStop(chunks, 0, max);
    var read := if stop < |bodies| then bodies[..stop] else bodies;
    forall i: nat | i < |read|
      ensures LineFits(read, i, max)
    {
      assert !StopsAt(chunks, i, max);
      FitsInPrefix(bodies, |read|, i, max);
    }
    BlocksWeigh(read, max);
    if Framed(chunks, max).accepted {
      LastBlockWeighs(bodies, max);
      FinalWeight(s);
      RenderSnoc(Front(Blocks(bodies)), FinalBlock(s));
    }
  }

  lemma FitsInPrefix(bodies: seq<Bytes>, n: nat, i: nat, max: nat)
    requires i < n <= |bodies| && LineFits(bodies, i, max)
    ensures LineFits(bodies[..n], i, max)
  {
    assert bodies[..n][..i + 1] == bodies[..i + 1];
  }

  lemma LastBlockWeighs(bodies: seq<Bytes>, max: nat)
    requires forall g :: g in Blocks(bodies) ==> Weight(g) <= max
    ensures Weight(Open(bodies)) <= max
  {
  }

  lemma RenderSnoc(blocks: seq<seq<Bytes>>, block: seq<Bytes>)
    ensures Render(blocks + [block]) == Render(blocks) + Render([block])
  {
    assert Front(blocks + [block]) == blocks;
    RenderOne(block);
  }

  lemma {:induction false} ShortEventsIff(blocks: seq<seq<Bytes>>, max: nat)
    requires forall g :: g in blocks ==> Weight(g) <= max
    ensures (forall e :: e in Render(blocks) ==> |e| <= max) <==>
            (forall g :: g in blocks && g != [] ==> Weight(g) < max)
  {
    hide Weight, Event;
    if blocks != [] {
      var before, block := Front(blocks), Last(blocks);
      ShortEventsIff(before, max);
      assert blocks == before + [block];
      if block != [] {
        EventWeight(block);
        assert Event(block) in Render(blocks);
      }
    }
  }

  /** Exactly when the relay, which refuses events longer than `max`, accepts everything the framer yields under the
      same limit: when no block of the stream with a line in it weighs `max`, counting each line with its line end. */
  lemma RelayAcceptsIff(chunks: seq<Bytes>, max: nat)
    ensures (forall e :: e in Framed(chunks, max).events ==> |e| <= max) <==>
            (forall g :: g in YieldedBlocks(chunks, max) && g != [] ==> Weight(g) < max)
    ensures Framed(chunks, max).accepted ==> YieldedBlocks(chunks, max) == StreamBlocks(Flatten(chunks))
  {
    hide Weight, Render, StreamBlocks;
    YieldedBlocksWeigh(chunks, max);
    ShortEventsIff(YieldedBlocks(chunks, max), max);
  }

  /** What is open after the first `n` lines is the beginning of a block. */
  lemma {:induction false} OpenBeginsABlock(bodies: seq<Bytes>, n: nat) returns (g: seq<Bytes>)
    requires n <= |bodies|
    ensures g in Blocks(bodies) && Open(bodies[..n]) <= g
  {
    if n == |bodies| {
      assert bodies[..n] == bodies;
      g := Open(bodies);
    } else {
      var before, line := Front(bodies), Last(bodies);
      g := OpenBeginsABlock(before, n);
      assert before[..n] == bodies[..n] && bodies == before + [line];
      g := BlockLivesOn(before, line, g);
    }
  }

  lemma BlockLivesOn(bodies: seq<Bytes>, line: Bytes, g: seq<Bytes>) returns (later: seq<Bytes>)
    requires g in Blocks(bodies)
    ensures later in Blocks(bodies + [line]) && g <= later
  {
    hide SplitOn;
    assert Front(bodies + [line]) == bodies;
    SplitSnoc(DropComments(bodies), line, []);
    var i :| 0 <= i < |Blocks(bodies)| && Blocks(bodies)[i] == g;
    later := Blocks(bodies + [line])[i];
  }

  lemma HeavierThan(part: seq<Bytes>, whole: seq<Bytes>)
    requires part <= whole
    ensures Weight(part) <= Weight(whole)
  {
    PrefixWeight(whole, |part|);
  }

  /** The size limits, said about the whole stream: no line longer than `max`, and no block that weighs more. */
  lemma FitsIff(s: Bytes, max: nat)
    ensures Fits(s, max) <==>
            && (forall line :: line in Bodies(s) ==> |line| <= max)
            && (forall g :: g in StreamBlocks(s) ==> Weight(g) <= max)
  {
    hide Bodies, Tail, Weight, Blocks, Open, LineFits;
    var bodies := Bodies(s);
    FinalWeight(s);
    if Fits(s, max) {
      BlocksWeigh(bodies, max);
      LastBlockWeighs(bodies, max);
      LinesAreShort(bodies, max);
    }
    if (forall line :: line in bodies ==> |line| <= max) && forall g :: g in StreamBlocks(s) ==> Weight(g) <= max {
      assert FinalBlock(s) in StreamBlocks(s);
      forall i: nat | i < |bodies|
        ensures LineFits(bodies, i, max)
      {
        LightBlocksFit(s, i, max);
      }
    }
  }

  lemma LinesAreShort(bodies: seq<Bytes>, max: nat)
    requires AllFit(bodies, max)
    ensures forall line :: line in bodies ==> |line| <= max
  {
    hide Open, Weight;
    forall i: nat | i < |bodies|
      ensures |bodies[i]| <= max
    {
      assert LineFits(bodies, i, max);
    }
  }

  lemma LightBlocksFit(s: Bytes, i: nat, max: nat)
    requires i < |Bodies(s)| && |Bodies(s)[i]| <= max && forall g :: g in StreamBlocks(s) ==> Weight(g) <= max
    ensures LineFits(Bodies(s), i, max)
  {
    hide Bodies, Tail, Weight, Blocks;
    var bodies := Bodies(s);
    var g := OpenBeginsABlock(bodies, i + 1);
    HeavierThan(Open(bodies[..i + 1]), g);
    if g !in Front(Blocks(bodies)) {
      assert Blocks(bodies) == Front(Blocks(bodies)) + [Last(Blocks(bodies))];
      assert g <= FinalBlock(s) && FinalBlock(s) in StreamBlocks(s);
      HeavierThan(g, FinalBlock(s));
    } else {
      assert g in StreamBlocks(s);
    }
  }

  // ---------------------------------------------------------------------------------------------
  // What a stream means, byte by byte
  // ---------------------------------------------------------------------------------------------

  /** A line as it stands in a stream: its text, and whether it ends in CR LF or in LF alone. */
  datatype TextLine = TextLine(text: Bytes, cr: bool) {
    /** A CR before a lone LF belongs to the line end. */
    predicate Proper() {
      10 !in text && (!cr && text != [] ==> text[|text| - 1] != 13)
    }

    predicate Comment() {
      text != [] && text[0] == 58
    }

    /** The line without its LF. */
    function Unended(): Bytes {
      if cr then text + [13] else text
    }

    function Ended(): Bytes {
      Unended() + [10]
    }
  }

  ghost predicate ProperLines(lines: seq<TextLine>) {
    forall l :: l in lines ==> l.Proper() && l.text != []
  }

  function LinesText(lines: seq<TextLine>): Bytes {
    if lines == [] then [] else LinesText(Front(lines)) + Last(lines).Ended()
  }

  /** Lines that are not blank, and the blank line that closes them. */
  datatype Paragraph = Paragraph(lines: seq<TextLine>, blank: TextLine)

  ghost predicate ProperParagraphs(doc: seq<Paragraph>) {
    forall g :: g in doc ==> ProperLines(g.lines) && g.blank.text == []
  }

  function DocumentText(doc: seq<Paragraph>): Bytes {
    if doc == [] then [] else DocumentText(Front(doc)) + LinesText(Last(doc).lines) + Last(doc).blank.Ended()
  }

  /** The lines that are no comments, each with an LF of its own. */
  function DataText(lines: seq<TextLine>): Bytes {
    if lines == [] then []
    else DataText(Front(lines)) + if Last(lines).Comment() then [] else Last(lines).text + [10]
  }

  /** One event, or none if there are only comments. */
  function ParagraphEvents(lines: seq<TextLine>): seq<Bytes> {
    if DataText(lines) == [] then [] else [DataText(lines) + [10]]
  }

  function DocumentEvents(doc: seq<Paragraph>): seq<Bytes> {
    if doc == [] then [] else DocumentEvents(Front(doc)) + ParagraphEvents(Last(doc).lines)
  }

  /** The data lines among `lines`. */
  function DataLines(lines: seq<TextLine>): seq<Bytes> {
    if lines == [] then []
    else DataLines(Front(lines)) + if Last(lines).Comment() then [] else [Last(lines).text]
  }

  lemma UnendedStrips(line: TextLine)
    requires line.Proper()
    ensures StripCr(line.Unended()) == line.text && LF !in line.Unended()
  {
    assert line.cr ==> Front(line.text + [13]) == line.text;
  }

  lemma TextLineInText(s: Bytes, line: TextLine)
    requires Tail(s) == [] && line.Proper()
    ensures Bodies(s + line.Ended()) == Bodies(s) + [line.text] && Tail(s + line.Ended()) == []
  {
    hide Bodies, Tail, StripCr;
    var u := line.Unended();
    UnendedStrips(line);
    BodiesOfAppend(s, u + [LF]);
    assert [] + (u + [LF]) == u + [LF];
    FirstLine(u + [LF], |u|);
    assert (u + [LF])[..|u|] == u && (u + [LF])[|u| + 1..] == [];
    NoLine([]);
  }

  /** Lines that are not blank add to the open block and emit nothing. */
  lemma {:induction false} LinesInText(s: Bytes, lines: seq<TextLine>)
    requires Tail(s) == [] && ProperLines(lines)
    ensures
      var t := s + LinesText(lines);
      && Tail(t) == [] && Emitted(Bodies(t)) == Emitted(Bodies(s))
      && Open(Bodies(t)) == Open(Bodies(s)) + DataLines(lines)
  {
    hide Bodies, Tail, Emitted, Open, Blocks;
    if lines == [] {
      assert s + LinesText(lines) == s;
    } else {
      var before, line := s + LinesText(Front(lines)), Last(lines);
      LinesInText(s, Front(lines));
      TextLineInText(before, line);
      assert s + LinesText(lines) == before + line.Ended();
      if line.Comment() {
        SameBlocks(Bodies(before), line.text);
      } else {
        OneMoreLine(Bodies(before), line.text);
      }
    }
  }

  lemma {:induction false} JoinIs(lines: seq<TextLine>)
    ensures DataLines(lines) == [] <==> DataText(lines) == []
    ensures DataLines(lines) != [] ==> Join(DataLines(lines)) + [LF] == DataText(lines)
  {
    if lines != [] {
      var before, text, line := DataLines(Front(lines)), DataText(Front(lines)), Last(lines);
      JoinIs(Front(lines));
      if line.Comment() {
        assert DataLines(lines) == before && DataText(lines) == text;
      } else {
        assert DataLines(lines) == before + [line.text] && DataText(lines) == text + (line.text + [10]);
        hide DataLines, DataText, Join;
        JoinSnoc(before, line.text);
        if before != [] {
          assert Join(before + [line.text]) + [LF] == (Join(before) + [LF]) + (line.text + [10]);
        }
      }
    }
  }

  lemma JoinSnoc(lines: seq<Bytes>, line: Bytes)
    ensures Join(lines + [line]) == if lines == [] then line else Join(lines) + [LF] + line
  {
    assert Front(lines + [line]) == lines;
  }

  lemma RenderData(lines: seq<TextLine>)
    ensures Render([DataLines(lines)]) == ParagraphEvents(lines)
  {
    hide Join, DataText, DataLines;
    JoinIs(lines);
    RenderOne(DataLines(lines));
    assert DataLines(lines) != [] ==> Event(DataLines(lines)) == DataText(lines) + [10];
  }

  lemma {:induction false} DocumentInText(doc: seq<Paragraph>)
    requires ProperParagraphs(doc)
    ensures
      var t := DocumentText(doc);
      Tail(t) == [] && Open(Bodies(t)) == [] && Emitted(Bodies(t)) == DocumentEvents(doc)
  {
    hide Bodies, Tail, Emitted, Open, Blocks, Render;
    if doc == [] {
      NoLine([]);
      SyncedAtStart([]);
    } else {
      var before, g := DocumentText(Front(doc)), Last(doc);
      DocumentInText(Front(doc));
      assert g in doc;
      LinesInText(before, g.lines);
      var t := before + LinesText(g.lines);
      TextLineInText(t, g.blank);
      OneMoreLine(Bodies(t), []);
      assert [] + DataLines(g.lines) == DataLines(g.lines);
      RenderData(g.lines);
    }
  }

  /** The meaning of a stream, said about its bytes alone: each paragraph that has a line other than comments is one
      event, those lines with an LF each and one LF more, whatever their line ends were. At the end of the stream the
      lines still open are flushed with the unfinished line, comment or not, and even when that is a lone CR. */
  lemma StreamMeaning(doc: seq<Paragraph>, open: seq<TextLine>, tail: TextLine)
    requires ProperParagraphs(doc) && ProperLines(open) && tail.Proper()
    ensures SpecEvents(DocumentText(doc) + LinesText(open) + tail.Unended()) ==
            DocumentEvents(doc) +
            if tail.Unended() == [] then ParagraphEvents(open) else [DataText(open) + tail.text + [10, 10]]
  {
    hide Bodies, Tail, Emitted, Open, Blocks, StripCr;
    var before := DocumentText(doc) + LinesText(open);
    DocumentInText(doc);
    LinesInText(DocumentText(doc), open);
    assert [] + DataLines(open) == DataLines(open);
    UnendedStrips(tail);
    BodiesOfAppend(before, tail.Unended());
    assert [] + tail.Unended() == tail.Unended();
    NoLine(tail.Unended());
    assert Bodies(before) + [] == Bodies(before);
    if tail.Unended() == [] {
      assert DataLines(open) + [] == DataLines(open);
      RenderData(open);
    } else {
      FlushedEvent(open, tail.text);
    }
  }

  lemma FlushedEvent(open: seq<TextLine>, text: Bytes)
    ensures Render([DataLines(open) + [text]]) == [DataText(open) + text + [10, 10]]
  {
    hide DataText, DataLines;
    var lines := DataLines(open);
    JoinIs(open);
    RenderOne(lines + [text]);
    assert Front(lines + [text]) == lines;
    assert Join(lines + [text]) == DataText(open) + text;
    assert Event(lines + [text]) == DataText(open) + text + [10, 10];
  }

  ghost predicate ReadsAs(s: Bytes, doc: seq<Paragraph>, open: seq<TextLine>, tail: TextLine) {
    && ProperParagraphs(doc) && ProperLines(open) && tail.Proper()
    && s == DocumentText(doc) + LinesText(open) + tail.Unended()
  }

  /** Every stream is a document, some open lines and an unfinished line, so every stream has that meaning. */
  lemma {:induction false} EveryStreamIsADocument(s: Bytes)
    returns (doc: seq<Paragraph>, open: seq<TextLine>, tail: TextLine)
    ensures ReadsAs(s, doc, open, tail)
  {
    hide ReadsAs, LinesText, DocumentText;
    if s == [] {
      doc, open, tail := [], [], TextLine([], false);
      NothingRead();
    } else {
      doc, open, tail := EveryStreamIsADocument(Front(s));
      assert s == Front(s) + [Last(s)];
      if Last(s) != 10 {
        tail := ReadByte(Front(s), doc, open, tail, Last(s));
      } else if tail.text != [] {
        ReadLine(Front(s), doc, open, tail);
        open, tail := open + [tail], TextLine([], false);
      } else {
        ReadBlank(Front(s), doc, open, tail);
        doc, open, tail := doc + [Paragraph(open, tail)], [], TextLine([], false);
      }
    }
  }

  lemma NothingRead()
    ensures ReadsAs([], [], [], TextLine([], false))
  {
  }

  lemma ReadByte(s: Bytes, doc: seq<Paragraph>, open: seq<TextLine>, tail: TextLine, b: Byte) returns (longer: TextLine)
    requires ReadsAs(s, doc, open, tail) && b != 10
    ensures ReadsAs(s + [b], doc, open, longer)
  {
    hide ProperLines, ProperParagraphs, LinesText, DocumentText;
    longer := if b == 13 then TextLine(tail.Unended(), true) else TextLine(tail.Unended() + [b], false);
    assert longer.Unended() == tail.Unended() + [b];
  }

  lemma ReadLine(s: Bytes, doc: seq<Paragraph>, open: seq<TextLine>, tail: TextLine)
    requires ReadsAs(s, doc, open, tail) && tail.text != []
    ensures ReadsAs(s + [10], doc, open + [tail], TextLine([], false))
  {
    hide ProperParagraphs, DocumentText, ProperLines, LinesText;
    OneMoreTextLine(open, tail);
    assert DocumentText(doc) + LinesText(open) + tail.Unended() + [10] ==
           DocumentText(doc) + (LinesText(open) + (tail.Unended() + [10])) + [];
  }

  lemma OneMoreTextLine(lines: seq<TextLine>, line: TextLine)
    requires ProperLines(lines) && line.Proper() && line.text != []
    ensures ProperLines(lines + [line]) && LinesText(lines + [line]) == LinesText(lines) + (line.Unended() + [10])
  {
    assert Front(lines + [line]) == lines;
  }

  lemma ReadBlank(s: Bytes, doc: seq<Paragraph>, open: seq<TextLine>, tail: TextLine)
    requires ReadsAs(s, doc, open, tail) && tail.text == []
    ensures ReadsAs(s + [10], doc + [Paragraph(open, tail)], [], TextLine([], false))
  {
    hide ProperLines, ProperParagraphs, LinesText, DocumentText;
    OneMoreParagraph(doc, open, tail);
    NoTextLines();
  }

  lemma NoTextLines()
    ensures ProperLines([]) && LinesText([]) == []
  {
  }

  lemma OneMoreParagraph(doc: seq<Paragraph>, lines: seq<TextLine>, blank: TextLine)
    requires ProperParagraphs(doc) && ProperLines(lines) && blank.text == []
    ensures ProperParagraphs(doc + [Paragraph(lines, blank)])
    ensures DocumentText(doc + [Paragraph(lines, blank)]) ==
            DocumentText(doc) + LinesText(lines) + (blank.Unended() + [10])
  {
    hide ProperLines;
    assert Front(doc + [Paragraph(lines, blank)]) == doc;
  }
}

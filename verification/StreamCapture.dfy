/** Folding server-sent-event chunks into an accumulator: cuts in the text do not matter. */
module StreamCapture {
  import opened Confidence
  import opened Text
  import opened Accumulators

  /** JSON.parse; None where it throws. */
  type Parser = string -> Option<Json>

  // ----- lines and frames -----

  /** The newline-terminated lines of a text. */
  function Lines(text: string): (ls: seq<string>) {
    var parts := Split(text, '\n');
    parts[..|parts| - 1]
  }

  /** What follows the last newline: a partial line, or nothing. */
  function Remainder(text: string): (r: string) {
    var parts := Split(text, '\n');
    parts[|parts| - 1]
  }

  function Terminated(lines: seq<string>): (text: string) {
    if lines == [] then "" else lines[0] + "\n" + Terminated(lines[1..])
  }

  /** Lines and Remainder are the only way to cut a text into terminated lines and a rest. */
  lemma {:induction false} LinesUnique(lines: seq<string>, rest: string)
    requires Free(lines, '\n') && '\n' !in rest
    ensures Lines(Terminated(lines) + rest) == lines && Remainder(Terminated(lines) + rest) == rest
  {
    if lines == [] {
      assert Terminated(lines) + rest == rest;
      SplitFree(rest, '\n');
    } else {
      assert lines[0] in lines;
      LinesUnique(lines[1..], rest);
      var tail := Terminated(lines[1..]) + rest;
      assert Terminated(lines) + rest == lines[0] + ['\n'] + tail;
      SplitFirst(lines[0], tail, '\n');
      var parts := Split(tail, '\n');
      assert ([lines[0]] + parts)[..|parts|] == [lines[0]] + parts[..|parts| - 1];
      HeadAndTail(lines);
    }
  }

  /** And they cut every text. */
  lemma LinesCover(text: string)
    ensures Terminated(Lines(text)) + Remainder(text) == text
    ensures Free(Lines(text), '\n') && '\n' !in Remainder(text)
  {
    var parts := Split(text, '\n');
    SplitIsFree(text, '\n');
    JoinSplit(text, '\n');
    HeadAndTail(parts);
    JoinIsTerminated(Lines(text), Remainder(text));
    assert parts[|parts| - 1] in parts;
  }

  lemma {:induction false} JoinIsTerminated(lines: seq<string>, rest: string)
    ensures Join(lines + [rest], '\n') == Terminated(lines) + rest
  {
    if lines == [] {
      assert lines + [rest] == [rest];
    } else {
      JoinIsTerminated(lines[1..], rest);
      assert (lines + [rest])[1..] == lines[1..] + [rest];
    }
  }

  const DONE := "[DONE]"

  /** The payload of a `data:` line, unless it is blank or the terminator. */
  function PayloadOf(line: string): (p: Option<string>) {
    var trimmed := Trim(JsSpace, line);
    if !StartsWith(trimmed, "data:") then None
    else
      var payload := Trim(JsSpace, trimmed[5..]);
      if payload == "" || payload == DONE then None else Some(payload)
  }

  /** The frame on a line: a payload that parses to an object (arrays are objects in JavaScript). */
  function FrameOf(parse: Parser, line: string): (f: Option<Json>) {
    var payload := PayloadOf(line);
    if payload.None? then None
    else
      var v := parse(payload.value);
      if v.Some? && (v.value.JObj? || v.value.JArr?) then v else None
  }

  /** A payload is the visible middle of what follows `data:` on a line, but for the terminator. */
  ghost predicate CarriesPayload(line: string, payload: string) {
    exists a, b, c :: Carries(line, a, b, payload, c)
  }

  ghost predicate Carries(line: string, a: string, b: string, payload: string, c: string) {
    && line == a + "data:" + b + payload + c && Blank(JsSpace, a) && Blank(JsSpace, b) && Blank(JsSpace, c)
    && payload != "" && Tight(JsSpace, payload)
  }

  lemma PayloadIff(line: string, payload: string)
    ensures PayloadOf(line) == Some(payload) <==> CarriesPayload(line, payload) && payload != "[DONE]"
  {
    if PayloadOf(line) == Some(payload) {
      PayloadCarried(line, payload);
    }
    if a, b, c :| Carries(line, a, b, payload, c) {
      CarriedPayload(line, a, b, payload, c);
    }
  }

  lemma PayloadCarried(line: string, payload: string)
    requires PayloadOf(line) == Some(payload)
    ensures CarriesPayload(line, payload) && payload != "[DONE]"
  {
    var trimmed := Trim(JsSpace, line);
    var a, c := TrimCuts(JsSpace, line);
    var b, d := TrimCuts(JsSpace, trimmed[5..]);
    TrimTight(JsSpace, trimmed[5..]);
    assert trimmed == "data:" + trimmed[5..];
    Assembled(a, "data:", b, payload, d, c);
    assert Carries(line, a, b, payload, d + c);
  }

  lemma Grouped(a: string, prefix: string, b: string, payload: string, c: string)
    ensures a + prefix + b + payload + c == a + (prefix + (b + payload)) + c
  {
  }

  lemma Assembled(a: string, prefix: string, b: string, payload: string, d: string, c: string)
    ensures a + (prefix + (b + payload + d)) + c == a + prefix + b + payload + (d + c)
  {
  }

  lemma CarriedPayload(line: string, a: string, b: string, payload: string, c: string)
    requires Carries(line, a, b, payload, c)
    ensures PayloadOf(line) == if payload == "[DONE]" then None else Some(payload)
  {
    var rest := b + payload;
    Grouped(a, "data:", b, payload, c);
    DataTight(rest);
    TrimPadded(JsSpace, a, "data:" + rest, c);
    After("data:", rest);
    assert rest == b + payload + "";
    TrimPadded(JsSpace, b, payload, "");
  }

  /** A line that starts with `data:` and ends visibly is tight. */
  lemma DataTight(rest: string)
    requires rest != "" && !JsSpace(rest[|rest| - 1])
    ensures Tight(JsSpace, "data:" + rest)
  {
    var line := "data:" + rest;
    assert line[0] == 'd' && line[|line| - 1] == rest[|rest| - 1];
  }

  lemma After(prefix: string, rest: string)
    ensures StartsWith(prefix + rest, prefix) && (prefix + rest)[|prefix|..] == rest
  {
  }

  function Frames(parse: Parser, lines: seq<string>): (fs: seq<Json>) {
    if lines == [] then []
    else
      var f := FrameOf(parse, lines[|lines| - 1]);
      Frames(parse, lines[..|lines| - 1]) + (if f.Some? then [f.value] else [])
  }

  lemma {:induction false} FramesConcat(parse: Parser, a: seq<string>, b: seq<string>)
    ensures Frames(parse, a + b) == Frames(parse, a) + Frames(parse, b)
  {
    if b == [] {
      assert a + b == a;
    } else {
      var front := b[..|b| - 1];
      assert (a + b)[..|a + b| - 1] == a + front;
      FramesConcat(parse, a, front);
    }
  }

  /** The frames of a text: those of its newline-terminated lines, in order. */
  function FramesOf(parse: Parser, text: string): (fs: seq<Json>) {
    Frames(parse, Lines(text))
  }

  // ----- chunk independence -----

  lemma CutText(a: string, b: string)
    ensures Lines(a + b) == Lines(a) + Lines(Remainder(a) + b)
    ensures Remainder(a + b) == Remainder(Remainder(a) + b)
  {
    SplitResume(a, b, '\n');
    var parts := Split(Remainder(a) + b, '\n');
    var whole := Lines(a) + parts;
    assert whole[..|whole| - 1] == Lines(a) + parts[..|parts| - 1];
  }

  function Flatten(chunks: seq<string>): (text: string) {
    if chunks == [] then "" else Flatten(chunks[..|chunks| - 1]) + chunks[|chunks| - 1]
  }

  /** The state and carry after folding chunks one at a time. */
  function FoldChunks(parse: Parser, a: Accumulator, chunks: seq<string>): (r: (Accumulator, string)) {
    if chunks == [] then (a, "")
    else
      var (b, carry) := FoldChunks(parse, a, chunks[..|chunks| - 1]);
      var buffer := carry + chunks[|chunks| - 1];
      (ObserveAll(TypeScript, b, FramesOf(parse, buffer)), Remainder(buffer))
  }

  /**
   * Chunk independence: however a text is cut, including inside a line and into empty chunks,
   * folding the chunks observes exactly the text's frames, in order, and carries its remainder.
   */
  lemma {:induction false} ChunksDoNotMatter(parse: Parser, a: Accumulator, chunks: seq<string>)
    ensures FoldChunks(parse, a, chunks) ==
            (ObserveAll(TypeScript, a, FramesOf(parse, Flatten(chunks))), Remainder(Flatten(chunks)))
  {
    if chunks == [] {
      assert Split("", '\n') == [""];
      assert Lines("") == [];
    } else {
      var front, last := chunks[..|chunks| - 1], chunks[|chunks| - 1];
      ChunksDoNotMatter(parse, a, front);
      var before := Flatten(front);
      CutText(before, last);
      FramesConcat(parse, Lines(before), Lines(Remainder(before) + last));
      ObserveConcat(TypeScript, a, FramesOf(parse, before), FramesOf(parse, Remainder(before) + last));
    }
  }

  /** Two ways of cutting the same text are indistinguishable. */
  lemma SameTextSameCapture(parse: Parser, a: Accumulator, chunks: seq<string>, others: seq<string>)
    requires Flatten(chunks) == Flatten(others)
    ensures FoldChunks(parse, a, chunks) == FoldChunks(parse, a, others)
  {
    ChunksDoNotMatter(parse, a, chunks);
    ChunksDoNotMatter(parse, a, others);
  }

  // ----- the code -----

  /** A provider's accumulator, updated event by event. */
  class StreamAccumulator {
    var state: Accumulator

    constructor (p: Provider)
      ensures state == NewAccumulator(p)
    {
      state := NewAccumulator(p);
    }

    method ObserveEvent(event: Json)
      modifies this
      ensures state == Observe(TypeScript, old(state), event)
    {
      state := Observe(TypeScript, state, event);
    }
  }

  /** Fold one chunk into the accumulator, returning the partial line to thread back in. */
  method FoldSseChunk(acc: StreamAccumulator, parse: Parser, chunk: string, carry: string) returns (remainder: string)
    modifies acc
    ensures acc.state == ObserveAll(TypeScript, old(acc.state), FramesOf(parse, carry + chunk))
    ensures remainder == Remainder(carry + chunk)
  {
    var buffer := carry + chunk;
    var parts := Split(buffer, '\n');
    remainder := parts[|parts| - 1];
    var lines := parts[..|parts| - 1];
    for i := 0 to |lines|
      invariant acc.state == ObserveAll(TypeScript, old(acc.state), Frames(parse, lines[..i]))
    {
      var line := lines[i];
      FrameStep(parse, old(acc.state), lines, i);
      var trimmed := Trim(JsSpace, line);
      if StartsWith(trimmed, "data:") {
        var payload := Trim(JsSpace, trimmed[5..]);
        if payload != "" && payload != DONE {
          var parsed := parse(payload);
          if parsed.Some? && (parsed.value.JObj? || parsed.value.JArr?) {
            acc.ObserveEvent(parsed.value);
          }
        }
      }
    }
    assert lines[..|lines|] == lines;
  }

  lemma FrameStep(parse: Parser, a: Accumulator, lines: seq<string>, i: nat)
    requires i < |lines|
    ensures var before, f := ObserveAll(TypeScript, a, Frames(parse, lines[..i])), FrameOf(parse, lines[i]);
            ObserveAll(TypeScript, a, Frames(parse, lines[..i + 1])) ==
            if f.Some? then Observe(TypeScript, before, f.value) else before
  {
    assert lines[..i + 1][..i] == lines[..i];
    var fs, f := Frames(parse, lines[..i]), FrameOf(parse, lines[i]);
    if f.Some? {
      assert (fs + [f.value])[..|fs|] == fs;
    } else {
      assert fs + [] == fs;
    }
  }

  /** How the reader stopped: at the end of the stream, or by a read that threw. */
  datatype Ending = Done | Failed

  datatype Observation = Observation(tokens: TokenVector, partialRecovered: bool)

  /** What the accumulator has seen of a stream's chunks. */
  function Seen(p: Provider, parse: Parser, chunks: seq<string>): (a: Accumulator) {
    ObserveAll(TypeScript, NewAccumulator(p), FramesOf(parse, Flatten(chunks)))
  }

  /** An observation of everything seen, for a clean ending only. */
  ghost predicate Returns(p: Provider, parse: Parser, chunks: seq<string>, ending: Ending, r: Option<Observation>) {
    && (r.Some? <==> ending == Done)
    && (r.Some? ==> r.value == Observation(Finalize(Seen(p, parse, chunks)),
                                           PartialRecovered(TypeScript, Seen(p, parse, chunks))))
  }

  /**
   * Read a stream. A read that throws leaves through the finally block, so the cancelled branch
   * behind the loop is never taken: an observation is returned exactly for a stream that ended
   * cleanly, and its flag is the uncancelled accumulator's own.
   */
  method ReadStreaming(p: Provider, parse: Parser, chunks: seq<string>, ending: Ending)
    returns (r: Option<Observation>)
    ensures Returns(p, parse, chunks, ending, r)
    ensures r.Some? ==> ValidVector(r.value.tokens)
  {
    var acc := new StreamAccumulator(p);
    var carry := "";
    var complete := false;
    var i := 0;
    while !complete
      invariant 0 <= i <= |chunks| && fresh(acc)
      invariant (acc.state, carry) == FoldChunks(parse, NewAccumulator(p), chunks[..i])
      invariant complete ==> i == |chunks| && ending == Done
      decreases !complete, |chunks| - i
    {
      if i < |chunks| {
        FoldNext(parse, NewAccumulator(p), chunks, i);
        carry := FoldSseChunk(acc, parse, chunks[i], carry);
        i := i + 1;
      } else if ending == Failed {
        return None;
      } else {
        complete := true;
      }
    }
    FoldedIsSeen(p, parse, chunks);
    return Some(Observation(Finalize(acc.state), PartialRecovered(TypeScript, acc.state)));
  }

  lemma FoldNext(parse: Parser, a: Accumulator, chunks: seq<string>, i: nat)
    requires i < |chunks|
    ensures
      var (b, carry) := FoldChunks(parse, a, chunks[..i]);
      FoldChunks(parse, a, chunks[..i + 1]) ==
      (ObserveAll(TypeScript, b, FramesOf(parse, carry + chunks[i])), Remainder(carry + chunks[i]))
  {
    assert chunks[..i + 1][..i] == chunks[..i];
  }

  lemma FoldedIsSeen(p: Provider, parse: Parser, chunks: seq<string>)
    ensures FoldChunks(parse, NewAccumulator(p), chunks[..|chunks|]).0 == Seen(p, parse, chunks)
  {
    assert chunks[..|chunks|] == chunks;
    ChunksDoNotMatter(parse, NewAccumulator(p), chunks);
  }

  const NO_TOKENS := TokenVector(0, 0, 0, 0, 0, 0)

  /** The usage a capture reports; no observation reports no usage. */
  function Reported(r: Option<Observation>): (v: TokenVector) {
    if r.None? then NO_TOKENS else r.value.tokens
  }

  /** The usage seen is the usage reported exactly when the stream ended cleanly or carried none. */
  lemma UsageSurvivesIff(p: Provider, parse: Parser, chunks: seq<string>, ending: Ending, r: Option<Observation>)
    requires Returns(p, parse, chunks, ending, r)
    ensures Reported(r) == Finalize(Seen(p, parse, chunks)) <==>
            ending == Done || Finalize(Seen(p, parse, chunks)) == NO_TOKENS
  {
  }

  /** A payload that survives trimming on its data line. */
  predicate IsPayload(payload: string) {
    payload != "" && payload != DONE && Tight(JsSpace, payload) && '\n' !in payload
  }

  /**
   * A cut-off stream does not yield what was seen: whenever a data line carries an event with
   * usage, a stream that delivers the line and then fails reports none of it.
   */
  lemma CutOffStreamIsLost(p: Provider, parse: Parser, payload: string, event: Json, r: Option<Observation>)
    requires IsPayload(payload) && parse(payload) == Some(event) && event.JObj?
    requires Finalize(Observe(TypeScript, NewAccumulator(p), event)) != NO_TOKENS
    requires Returns(p, parse, ["data:" + payload + "\n"], Failed, r)
    ensures Finalize(Seen(p, parse, ["data:" + payload + "\n"])) != NO_TOKENS && Reported(r) == NO_TOKENS
  {
    DataPayload(payload);
    SeenOneFrame(p, parse, "data:" + payload, event);
  }

  /** Such an event: a count of candidates is usage. */
  lemma CandidatesAreUsage(event: Json, meta: Json, n: int)
    requires Field(event, "usageMetadata") == Some(meta) && meta.JObj?
    requires Field(meta, "candidatesTokenCount") == Some(JInt(n)) && n > 0
    ensures Finalize(Observe(TypeScript, NewAccumulator(GeminiProvider), event)) != NO_TOKENS
  {
    assert Finalize(Observe(TypeScript, NewAccumulator(GeminiProvider), event)).output >= n;
  }

  lemma DataPayload(payload: string)
    requires IsPayload(payload)
    ensures PayloadOf("data:" + payload) == Some(payload) && '\n' !in "data:" + payload
  {
    var line := "data:" + payload;
    TrimTight(JsSpace, payload);
    DataTight(payload);
    TrimTight(JsSpace, line);
    assert line[5..] == payload && line[..5] == "data:";
  }

  /** A stream of one frame leaves the state after observing it. */
  lemma SeenOneFrame(p: Provider, parse: Parser, line: string, event: Json)
    requires '\n' !in line && FrameOf(parse, line) == Some(event)
    ensures Seen(p, parse, [line + "\n"]) == Observe(TypeScript, NewAccumulator(p), event)
  {
    OneLine(line);
    FlattenOne(line + "\n");
    FramesOne(parse, line);
    ObserveOne(TypeScript, NewAccumulator(p), event);
  }

  lemma OneLine(line: string)
    requires '\n' !in line
    ensures Lines(line + "\n") == [line]
  {
    LinesUnique([line], "");
    assert Terminated([line]) + "" == line + "\n";
  }

  lemma FlattenOne(text: string)
    ensures Flatten([text]) == text
  {
    assert Flatten([text][..0]) == "";
  }

  lemma FramesOne(parse: Parser, line: string)
    requires FrameOf(parse, line).Some?
    ensures Frames(parse, [line]) == [FrameOf(parse, line).value]
  {
    assert Frames(parse, [line][..0]) == [];
  }

  lemma ObserveOne(lang: Language, a: Accumulator, event: Json)
    ensures ObserveAll(lang, a, [event]) == Observe(lang, a, event)
  {
    assert ObserveAll(lang, a, [event][..0]) == a;
  }
}

/** The server's side of the stream as text: the encoder of one event, the line splitting the client's
    HTTP library performs on what it writes, and exactly how far the client reads it back. */
module EventText {
  import opened Text
  import opened EventStream
  import opened EventFrames

  // ---------- the encoder and the line splitter ----------

  /** The characters at which the HTTP client's line iterator breaks text, as str.splitlines does. */
  predicate IsBreak(c: char) {
    var u := c as int;
    10 <= u <= 13 || 0x1C <= u <= 0x1E || u == 0x85 || u == 0x2028 || u == 0x2029
  }

  predicate OneLine(s: string) {
    forall i | 0 <= i < |s| :: !IsBreak(s[i])
  }

  function SplitLines(text: string): (lines: seq<string>)
    ensures text != "" ==> lines != []
    ensures forall i | 0 <= i < |lines| :: OneLine(lines[i])
    decreases |text|
  {
    if text == "" then []
    else if IsBreak(text[0]) then
      [""] + SplitLines(if text[0] == '\r' && |text| > 1 && text[1] == '\n' then text[2..] else text[1..])
    else if |text| == 1 then [text]
    else
      var rest := SplitLines(text[1..]);
      [[text[0]] + rest[0]] + rest[1..]
  }

  /** encode_sse_event, for a payload already serialized. */
  function EncodeSseEvent(e: AgentEvent, payload: string): string {
    FieldLine("event", e.eventType) + "\n" + (FieldLine("id", IntText(e.sequence)) + "\n"
    + (FieldLine("data", payload) + "\n" + "\n"))
  }

  function StreamText(encode: AgentEvent -> string, events: seq<AgentEvent>): string {
    if events == [] then "" else EncodeSseEvent(events[0], encode(events[0])) + StreamText(encode, events[1..])
  }

  lemma {:induction false} SplitFirstLine(line: string, rest: string)
    requires OneLine(line)
    ensures SplitLines(line + "\n" + rest) == [line] + SplitLines(rest)
  {
    var text := line + "\n" + rest;
    if line == "" {
      assert text[1..] == rest;
    } else {
      assert text[1..] == line[1..] + "\n" + rest;
      SplitFirstLine(line[1..], rest);
      assert ([line[1..]] + SplitLines(rest))[1..] == SplitLines(rest);
      assert [line[0]] + line[1..] == line;
    }
  }

  lemma {:induction false} IntTextIsOneLine(n: int)
    ensures OneLine(IntText(n))
  {
  }

  /** Three lines and a blank one, each closed by a newline. */
  lemma SplitThreeLines(a: string, b: string, c: string, rest: string)
    requires OneLine(a) && OneLine(b) && OneLine(c)
    ensures SplitLines(a + "\n" + (b + "\n" + (c + "\n" + "\n")) + rest) == [a, b, c, ""] + SplitLines(rest)
  {
    var after := "\n" + rest;
    SplitFirstLine("", rest);
    assert "" + "\n" + rest == after;
    SplitFirstLine(c, after);
    SplitFirstLine(b, c + "\n" + after);
    SplitFirstLine(a, b + "\n" + (c + "\n" + after));
    CloseLines(a, b, c, rest);
    PutFour(a, b, c, "", SplitLines(rest));
  }

  lemma CloseLines(a: string, b: string, c: string, rest: string)
    ensures a + "\n" + (b + "\n" + (c + "\n" + "\n")) + rest == a + "\n" + (b + "\n" + (c + "\n" + ("\n" + rest)))
  {
  }

  lemma PutFour<T>(a: T, b: T, c: T, d: T, rest: seq<T>)
    ensures [a] + ([b] + ([c] + ([d] + rest))) == [a, b, c, d] + rest
  {
  }

  lemma FrameOfOneLine(e: AgentEvent, payload: string)
    ensures Frame(e, [payload]) == [FieldLine("event", e.eventType), FieldLine("id", IntText(e.sequence)), FieldLine("data", payload)]
  {
    assert DataLines([payload]) == [FieldLine("data", payload)];
  }

  lemma SplitFrame(e: AgentEvent, payload: string, rest: string)
    requires OneLine(e.eventType) && OneLine(payload)
    ensures SplitLines(EncodeSseEvent(e, payload) + rest) == Frame(e, [payload]) + [""] + SplitLines(rest)
  {
    IntTextIsOneLine(e.sequence);
    FrameOfOneLine(e, payload);
    SplitThreeLines(FieldLine("event", e.eventType), FieldLine("id", IntText(e.sequence)), FieldLine("data", payload), rest);
  }

  predicate Splittable(encode: AgentEvent -> string, events: seq<AgentEvent>) {
    forall e | e in events :: OneLine(e.eventType) && OneLine(encode(e))
  }

  lemma {:induction false} SplitOfOneLine(text: string)
    requires OneLine(text)
    ensures SplitNewline(text) == [text]
  {
    if text != "" {
      SplitOfOneLine(text[1..]);
      assert [text[0]] + text[1..] == text;
    }
  }

  /** The text of a stream splits into exactly the lines the encoder meant if and only if no event
      type and no payload contains a line-breaking character. A payload is serialized with
      ensure_ascii=False, so U+0085, U+2028 and U+2029 do get into it. */
  lemma {:induction false} TextSplitsIntoFrames(encode: AgentEvent -> string, events: seq<AgentEvent>)
    requires forall e | e in events :: '\n' !in encode(e)
    ensures SplitLines(StreamText(encode, events)) == StreamLines(encode, events) <==> Splittable(encode, events)
  {
    if !Splittable(encode, events) {
      var e :| e in events && !(OneLine(e.eventType) && OneLine(encode(e)));
      BrokenLineIsPrinted(encode, events, e);
    } else if events != [] {
      var e := events[0];
      SplitOfOneLine(encode(e));
      TextSplitsIntoFrames(encode, events[1..]);
      SplitFrame(e, encode(e), StreamText(encode, events[1..]));
    }
  }

  lemma {:induction false} SplitOfNoNewline(text: string)
    requires '\n' !in text
    ensures SplitNewline(text) == [text]
  {
    if text != "" {
      SplitOfNoNewline(text[1..]);
      assert [text[0]] + text[1..] == text;
    }
  }

  predicate SomeBroken(lines: seq<string>) {
    exists i | 0 <= i < |lines| :: !OneLine(lines[i])
  }

  lemma BrokenField(field: string, value: string)
    requires !OneLine(value)
    ensures !OneLine(FieldLine(field, value))
  {
    var j :| 0 <= j < |value| && IsBreak(value[j]);
    assert FieldLine(field, value)[|field| + 2 + j] == value[j];
  }

  lemma BrokenFrame(e: AgentEvent, payload: string)
    requires !(OneLine(e.eventType) && OneLine(payload))
    ensures SomeBroken(Frame(e, [payload]))
  {
    var frame := Frame(e, [payload]);
    FrameOfOneLine(e, payload);
    if !OneLine(e.eventType) {
      BrokenField("event", e.eventType);
      assert !OneLine(frame[0]);
    } else {
      BrokenField("data", payload);
      assert !OneLine(frame[2]);
    }
  }

  lemma SomeBrokenConcat(a: seq<string>, b: seq<string>)
    ensures SomeBroken(a) || SomeBroken(b) ==> SomeBroken(a + b)
  {
    if SomeBroken(a) {
      var i :| 0 <= i < |a| && !OneLine(a[i]);
      assert (a + b)[i] == a[i];
    } else if SomeBroken(b) {
      var i :| 0 <= i < |b| && !OneLine(b[i]);
      assert (a + b)[|a| + i] == b[i];
    }
  }

  lemma {:induction false} BrokenLineIsPrinted(encode: AgentEvent -> string, events: seq<AgentEvent>, e: AgentEvent)
    requires e in events && !(OneLine(e.eventType) && OneLine(encode(e)))
    requires '\n' !in encode(e)
    ensures SomeBroken(StreamLines(encode, events))
  {
    var frame, rest := Frame(events[0], SplitNewline(encode(events[0]))) + [""], StreamLines(encode, events[1..]);
    if events[0] == e {
      SplitOfNoNewline(encode(e));
      BrokenFrame(e, encode(e));
      SomeBrokenConcat(Frame(e, [encode(e)]), [""]);
    } else {
      BrokenLineIsPrinted(encode, events[1..], e);
    }
    SomeBrokenConcat(frame, rest);
  }

  // ---------- what a broken payload reads as ----------

  /** Neither the text before the cut nor any continuation of it on further data lines decodes. JSON
      meets this wherever a break stands in a string literal: the cut leaves the literal open, and an
      open literal may not be continued over a newline. */
  ghost predicate DecodesNothing(decode: string -> Option<AgentEvent>, cut: string) {
    && decode(cut).None?
    && forall more :: decode(cut + "\n" + more).None?
  }

  ghost predicate CutsDoNotDecode(decode: string -> Option<AgentEvent>, payload: string) {
    forall k | 0 <= k < |payload| && IsBreak(payload[k]) :: DecodesNothing(decode, payload[..k])
  }

  function FirstBreak(s: string): (k: nat)
    ensures k <= |s| && OneLine(s[..k])
    ensures k < |s| <==> !OneLine(s)
    ensures k < |s| ==> IsBreak(s[k])
  {
    if s == "" || IsBreak(s[0]) then 0
    else
      var k := 1 + FirstBreak(s[1..]);
      assert s[..k] == [s[0]] + s[1..][..k - 1];
      k
  }

  /** Whatever the break is, the line before it is the first one. */
  lemma {:induction false} SplitAtBreak(line: string, c: char, rest: string) returns (more: seq<string>)
    requires OneLine(line) && IsBreak(c)
    ensures SplitLines(line + [c] + rest) == [line] + more
  {
    var text := line + [c] + rest;
    if line == "" {
      more := SplitLines(text)[1..];
    } else {
      assert text[1..] == line[1..] + [c] + rest;
      more := SplitAtBreak(line[1..], c, rest);
      assert [line[0]] + line[1..] == line;
    }
  }

  lemma {:induction false} AllValuesConcat(a: seq<string>, b: seq<string>, field: string)
    ensures AllValues(a + b, field) == AllValues(a, field) + AllValues(b, field)
    decreases |a|
  {
    if a == [] {
      assert a + b == b;
    } else {
      assert (a + b)[1..] == a[1..] + b;
      AllValuesConcat(a[1..], b, field);
    }
  }

  /** A frame whose data starts with a cut payload is rejected, whatever its other lines hold. */
  lemma CutFrameIsRejected(cfg: Config, frame: seq<string>, cut: string, more: seq<string>)
    requires AllValues(frame, "data") == [cut] + more
    requires DecodesNothing(cfg.decode, cut)
    ensures ReadFrame(cfg, frame).None?
  {
    var data := [cut] + more;
    assert cfg.decode(JoinLines(data)).None? by {
      if more == [] {
        assert JoinLines(data) == cut;
      } else {
        assert data[1..] == more;
        assert JoinLines(data) == cut + "\n" + JoinLines(more);
      }
    }
  }

  /** The lines of a broken event: the frame of the cut payload and then more lines. */
  lemma SplitCutEvent(e: AgentEvent, cut: string, c: char, rest: string) returns (more: seq<string>)
    requires OneLine(e.eventType) && OneLine(cut) && IsBreak(c)
    ensures SplitLines(FieldLine("event", e.eventType) + "\n"
                       + (FieldLine("id", IntText(e.sequence)) + "\n" + (FieldLine("data", cut) + [c] + rest)))
         == Frame(e, [cut]) + more
  {
    IntTextIsOneLine(e.sequence);
    FrameOfOneLine(e, cut);
    var data := FieldLine("data", cut) + [c] + rest;
    more := SplitAtBreak(FieldLine("data", cut), c, rest);
    SplitFirstLine(FieldLine("id", IntText(e.sequence)), data);
    SplitFirstLine(FieldLine("event", e.eventType), FieldLine("id", IntText(e.sequence)) + "\n" + data);
  }

  lemma CutEventText(e: AgentEvent, cut: string, c: char, right: string, rest: string)
    ensures EncodeSseEvent(e, cut + [c] + right) + rest
         == FieldLine("event", e.eventType) + "\n"
            + (FieldLine("id", IntText(e.sequence)) + "\n" + (FieldLine("data", cut) + [c] + (right + "\n" + "\n" + rest)))
  {
    var a, b := FieldLine("event", e.eventType) + "\n", FieldLine("id", IntText(e.sequence)) + "\n";
    var d := FieldLine("data", cut) + [c] + (right + "\n" + "\n" + rest);
    assert FieldLine("data", cut + [c] + right) + "\n" + "\n" + rest == d;
    assert a + (b + (FieldLine("data", cut + [c] + right) + "\n" + "\n")) + rest
        == a + (b + (FieldLine("data", cut + [c] + right) + "\n" + "\n" + rest));
  }

  lemma {:induction false} FirstBlankAfter(frame: seq<string>, more: seq<string>)
    requires forall i | 0 <= i < |frame| :: frame[i] != ""
    ensures FirstBlank(frame + more) == |frame| + FirstBlank(more)
    decreases |frame|
  {
    if frame == [] {
      assert frame + more == more;
    } else {
      assert (frame + more)[1..] == frame[1..] + more;
      FirstBlankAfter(frame[1..], more);
    }
  }

  lemma FirstFrameStartsWith(frame: seq<string>, more: seq<string>)
    requires forall i | 0 <= i < |frame| :: frame[i] != ""
    ensures |Frames(frame + more)| > 0 && Frames(frame + more)[0] == frame + more[..FirstBlank(more)]
  {
    FirstBlankAfter(frame, more);
    assert (frame + more)[..|frame| + FirstBlank(more)] == frame + more[..FirstBlank(more)];
  }

  /** A payload with a line-breaking character is never read: the client yields nothing for its event
      and ends with an error, whatever follows. */
  lemma BrokenEventIsRejected(cfg: Config, count: nat, last: int, e: AgentEvent, payload: string, rest: string)
    requires OneLine(e.eventType) && !OneLine(payload) && CutsDoNotDecode(cfg.decode, payload)
    ensures ReadFrames(cfg, count, last, Frames(SplitLines(EncodeSseEvent(e, payload) + rest))) == FrameReading([], false)
  {
    var k := FirstBreak(payload);
    var cut, right := payload[..k], payload[k + 1..];
    assert payload == cut + [payload[k]] + right;
    CutEventText(e, cut, payload[k], right, rest);
    var more := SplitCutEvent(e, cut, payload[k], right + "\n" + "\n" + rest);
    FrameFields(e, [cut]);
    FirstFrameStartsWith(Frame(e, [cut]), more);
    var extra := more[..FirstBlank(more)];
    AllValuesConcat(Frame(e, [cut]), extra, "data");
    CutFrameIsRejected(cfg, Frame(e, [cut]) + extra, cut, AllValues(extra, "data"));
  }

  // ---------- how far a stream is read ----------

  predicate Fits(cfg: Config, encode: AgentEvent -> string, count: nat, last: int, e: AgentEvent) {
    FrameBytes(Frame(e, [encode(e)])) <= MAX_SSE_EVENT_BYTES && e.sequence > last && count < cfg.maxEvents
  }

  /** How many events are read: those before the first that has a line-breaking character in its
      payload, is too large, does not raise the sequence or is one too many. */
  function Readable(cfg: Config, encode: AgentEvent -> string, count: nat, last: int, events: seq<AgentEvent>): (n: nat)
    ensures n <= |events|
    decreases |events|
  {
    if events == [] then 0
    else
      var e := events[0];
      if OneLine(encode(e)) && Fits(cfg, encode, count, last, e) then 1 + Readable(cfg, encode, count + 1, e.sequence, events[1..])
      else 0
  }

  ghost predicate Encodes(cfg: Config, encode: AgentEvent -> string, e: AgentEvent) {
    cfg.decode(encode(e)) == Some(e) && '\n' !in encode(e) && CutsDoNotDecode(cfg.decode, encode(e))
  }

  lemma FrameOfStreamText(encode: AgentEvent -> string, events: seq<AgentEvent>)
    requires events != [] && OneLine(events[0].eventType) && OneLine(encode(events[0]))
    ensures Frames(SplitLines(StreamText(encode, events)))
         == [Frame(events[0], [encode(events[0])])] + Frames(SplitLines(StreamText(encode, events[1..])))
  {
    var e, later := events[0], StreamText(encode, events[1..]);
    SplitFrame(e, encode(e), later);
    FrameFields(e, [encode(e)]);
    FirstFrame(Frame(e, [encode(e)]), SplitLines(later));
  }

  /** Reading the first event of a stream, if its payload is one line. */
  lemma ReadsFirst(cfg: Config, encode: AgentEvent -> string, count: nat, last: int, events: seq<AgentEvent>)
    requires events != [] && Encodes(cfg, encode, events[0]) && OneLine(events[0].eventType) && OneLine(encode(events[0]))
    ensures var e, later := events[0], Frames(SplitLines(StreamText(encode, events[1..])));
            ReadFrames(cfg, count, last, Frames(SplitLines(StreamText(encode, events))))
            == if !Fits(cfg, encode, count, last, e) then FrameReading([], false)
               else
                 var more := ReadFrames(cfg, count + 1, e.sequence, later);
                 FrameReading([e] + more.events, more.accepted)
  {
    var e := events[0];
    FrameOfStreamText(encode, events);
    SplitOfOneLine(encode(e));
    AfterPrintedFrame(cfg, count, last, e, encode(e));
    ReadNextFrame(cfg, count, last, Frame(e, [encode(e)]), Frames(SplitLines(StreamText(encode, events[1..]))));
  }

  lemma OneMoreTaken<T>(s: seq<T>, m: nat)
    requires m < |s|
    ensures s[..m + 1] == [s[0]] + s[1..][..m]
  {
  }

  /** Server to client, for every stream with one-line event types: the client yields exactly the
      events before the first unreadable one, and ends without error only if there is none. */
  lemma {:induction false} ReadsUpTo(
    cfg: Config, encode: AgentEvent -> string, count: nat, last: int, events: seq<AgentEvent>
  )
    requires forall e | e in events :: Encodes(cfg, encode, e) && OneLine(e.eventType)
    ensures var n := Readable(cfg, encode, count, last, events);
            ReadFrames(cfg, count, last, Frames(SplitLines(StreamText(encode, events))))
            == FrameReading(events[..n], n == |events|)
    decreases |events|
  {
    if events == [] {
      assert ReadFrame(cfg, []) == Some(None);
    } else {
      var e, later := events[0], events[1..];
      assert Encodes(cfg, encode, e);
      if !OneLine(encode(e)) {
        BrokenEventIsRejected(cfg, count, last, e, encode(e), StreamText(encode, later));
      } else {
        ReadsFirst(cfg, encode, count, last, events);
        ReadsUpTo(cfg, encode, count + 1, e.sequence, later);
        OneMoreTaken(events, Readable(cfg, encode, count + 1, e.sequence, later));
      }
    }
  }

  lemma {:induction false} ReadableExactly(
    cfg: Config, encode: AgentEvent -> string, count: nat, last: int, events: seq<AgentEvent>
  )
    requires forall e | e in events :: '\n' !in encode(e) && OneLine(e.eventType)
    ensures Readable(cfg, encode, count, last, events) == |events|
        <==> Printable(cfg, encode, count, last, events) && Splittable(encode, events)
    decreases |events|
  {
    if events != [] {
      var e, later := events[0], events[1..];
      assert events == [e] + later;
      SplitOfNoNewline(encode(e));
      PrintableStep(cfg, encode, count, last, events);
      ReadableExactly(cfg, encode, count + 1, e.sequence, later);
      assert Splittable(encode, events) <==> OneLine(encode(e)) && Splittable(encode, later);
    }
  }

  // ---------- event types ----------

  lemma {:induction false} PartitionIsCut(line: string)
    ensures match Partition(line)
            case None => true
            case Some((field, value)) => line == field + ":" + value
  {
    if line != "" && line[0] != ':' {
      PartitionIsCut(line[1..]);
      assert [line[0]] + line[1..] == line;
    }
  }

  lemma FieldIsOneLine(line: string, field: string)
    requires OneLine(line) && FieldOf(line, field).Some?
    ensures OneLine(FieldOf(line, field).value)
  {
    PartitionIsCut(line);
    var value := Partition(line).value.1;
    assert forall i | 0 <= i < |value| :: value[i] == line[|field| + 1 + i];
  }

  lemma {:induction false} LastValueIsOneLine(frame: seq<string>, field: string)
    requires forall i | 0 <= i < |frame| :: OneLine(frame[i])
    requires LastValue(frame, field).Some?
    ensures OneLine(LastValue(frame, field).value)
  {
    if LastValue(frame[1..], field).Some? {
      LastValueIsOneLine(frame[1..], field);
    } else {
      FieldIsOneLine(frame[0], field);
    }
  }

  predicate OneLineTypes(events: seq<AgentEvent>) {
    forall i | 0 <= i < |events| :: OneLine(events[i].eventType)
  }

  /** Every event read has a one-line type, since it repeats the type its frame names. */
  lemma {:induction false} ReadTypesAreOneLine(cfg: Config, count: nat, last: int, lines: seq<string>)
    requires forall i | 0 <= i < |lines| :: OneLine(lines[i])
    ensures OneLineTypes(ReadFrames(cfg, count, last, Frames(lines)).events)
    decreases |lines|
  {
    var k := FirstBlank(lines);
    var frame := lines[..k];
    if LastValue(frame, "event").Some? {
      LastValueIsOneLine(frame, "event");
    }
    if k == |lines| {
      assert frame == lines && [lines][1..] == [];
    } else {
      ReadNextFrame(cfg, count, last, frame, Frames(lines[k + 1..]));
      var next := AfterFrame(cfg, count, last, frame);
      if next.Some? {
        ReadTypesAreOneLine(cfg, next.value.count, next.value.last, lines[k + 1..]);
      }
    }
  }

  // ---------- the whole way ----------

  /** The client reads back what the server writes exactly when the stream respects the bounds and no
      event type and no payload holds a line-breaking character. */
  lemma ServerStreamReadsBack(cfg: Config, encode: AgentEvent -> string, events: seq<AgentEvent>)
    requires forall e | e in events :: Encodes(cfg, encode, e)
    ensures Parse(cfg, SplitLines(StreamText(encode, events))) == Reading(events, None)
        <==> Printable(cfg, encode, 0, 0, events) && Splittable(encode, events)
  {
    var lines := SplitLines(StreamText(encode, events));
    ReaderReadsFrames(cfg, 0, 0, lines);
    if OneLineTypes(events) {
      ReadsUpTo(cfg, encode, 0, 0, events);
      ReadableExactly(cfg, encode, 0, 0, events);
    } else {
      ReadTypesAreOneLine(cfg, 0, 0, lines);
    }
  }

  /** The client yields exactly the readable events at the start of a stream with one-line event types,
      and ends with an error if there are others. */
  lemma BrokenStreamYieldsItsStart(cfg: Config, encode: AgentEvent -> string, events: seq<AgentEvent>)
    requires forall e | e in events :: Encodes(cfg, encode, e) && OneLine(e.eventType)
    ensures var r, n := Parse(cfg, SplitLines(StreamText(encode, events))), Readable(cfg, encode, 0, 0, events);
            r.events == events[..n] && (r.error.None? <==> n == |events|)
  {
    ReaderReadsFrames(cfg, 0, 0, SplitLines(StreamText(encode, events)));
    ReadsUpTo(cfg, encode, 0, 0, events);
  }

  /** One payload with a line-breaking character: nothing is yielded and the stream ends with an error. */
  lemma BrokenPayloadIsRejected(cfg: Config, e: AgentEvent, payload: string, rest: string)
    requires OneLine(e.eventType) && !OneLine(payload) && CutsDoNotDecode(cfg.decode, payload)
    ensures var r := Parse(cfg, SplitLines(EncodeSseEvent(e, payload) + rest));
            r.events == [] && r.error.Some?
  {
    ReaderReadsFrames(cfg, 0, 0, SplitLines(EncodeSseEvent(e, payload) + rest));
    BrokenEventIsRejected(cfg, 0, 0, e, payload, rest);
  }

  // ---------- the line splitter, written out ----------

  /** The line breaks: newline, vertical tab, form feed, carriage return, the three separators below space, next
      line, line separator and paragraph separator. */
  lemma BreaksAre(c: char)
    ensures IsBreak(c) <==> c as int in {10, 11, 12, 13, 0x1C, 0x1D, 0x1E, 0x85, 0x2028, 0x2029}
  {
  }

  /** Text ends its first line at the first break, of which carriage return and newline together are one; the
      rest is split alike, and an end without a break is a line if it is not empty. */
  lemma {:induction false} SplitIs(line: string, c: char, rest: string)
    requires OneLine(line) && IsBreak(c)
    ensures SplitLines(line) == if line == "" then [] else [line]
    ensures SplitLines(line + [c] + rest)
         == [line] + SplitLines(if c == '\r' && rest != "" && rest[0] == '\n' then rest[1..] else rest)
  {
    var text := line + [c] + rest;
    if line == "" {
      assert text[1..] == rest;
      if rest != "" {
        assert text[2..] == rest[1..];
      }
    } else {
      assert text[1..] == line[1..] + [c] + rest;
      SplitIs(line[1..], c, rest);
      assert [line[0]] + line[1..] == line;
    }
  }
}

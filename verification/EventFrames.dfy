/** What the stream reader means: a definition that reads whole blank-separated frames, the proof that
    the line-by-line reader agrees with it on every input, and the printing of frames, which it undoes. */
module EventFrames {
  import opened Text
  import opened EventStream

  // ---------- a frame read as a whole ----------

  function FieldOf(line: string, field: string): Option<string> {
    if IsComment(line) then None
    else
      match Partition(line)
      case None => None
      case Some((name, value)) => if name == field then Some(DropSpace(value)) else None
  }

  /** The value of the last line that sets the field. */
  function LastValue(frame: seq<string>, field: string): Option<string> {
    if frame == [] then None
    else
      var later := LastValue(frame[1..], field);
      if later.Some? then later else FieldOf(frame[0], field)
  }

  /** The values of all the lines that set the field, in order. */
  function AllValues(frame: seq<string>, field: string): seq<string> {
    if frame == [] then [] else OptionSeq(FieldOf(frame[0], field)) + AllValues(frame[1..], field)
  }

  function FrameBytes(frame: seq<string>): nat {
    if frame == [] then 0 else LineBytes(frame[0]) + FrameBytes(frame[1..])
  }

  predicate WellFormed(frame: seq<string>) {
    forall i | 0 <= i < |frame| :: IsComment(frame[i]) || Partition(frame[i]).Some?
  }

  /** None rejects the frame; Some(None) is a frame that sets no field. */
  function ReadFrame(cfg: Config, frame: seq<string>): Option<Option<AgentEvent>> {
    if !WellFormed(frame) || FrameBytes(frame) > MAX_SSE_EVENT_BYTES then None
    else
      match ReadPending(cfg, Pending(LastValue(frame, "event"), LastValue(frame, "id"), AllValues(frame, "data")))
      case Err(_) => None
      case Ok(event) => Some(event)
  }

  function FirstBlank(lines: seq<string>): (k: nat)
    ensures k <= |lines|
    ensures forall i | 0 <= i < k :: lines[i] != ""
    ensures k < |lines| ==> lines[k] == ""
  {
    if lines == [] || lines[0] == "" then 0 else 1 + FirstBlank(lines[1..])
  }

  /** The runs of lines between blank lines; the last run is closed by the end of input. */
  function Frames(lines: seq<string>): seq<seq<string>>
    decreases |lines|
  {
    var k := FirstBlank(lines);
    if k == |lines| then [lines] else [lines[..k]] + Frames(lines[k + 1..])
  }

  datatype FrameReading = FrameReading(events: seq<AgentEvent>, accepted: bool)

  /** Frames are read in order until one is rejected, repeats or lowers a sequence, or is one too many. */
  function ReadFrames(cfg: Config, count: nat, last: int, frames: seq<seq<string>>): FrameReading
    decreases |frames|
  {
    if frames == [] then FrameReading([], true)
    else
      match ReadFrame(cfg, frames[0])
      case None => FrameReading([], false)
      case Some(None) => ReadFrames(cfg, count, last, frames[1..])
      case Some(Some(event)) =>
        if count < cfg.maxEvents && event.sequence > last then
          var rest := ReadFrames(cfg, count + 1, event.sequence, frames[1..]);
          rest.(events := [event] + rest.events)
        else FrameReading([], false)
  }

  // ---------- the reader agrees with it ----------

  function Merged(p: Pending, frame: seq<string>): Pending {
    var eventType, id := LastValue(frame, "event"), LastValue(frame, "id");
    Pending(if eventType.Some? then eventType else p.eventType,
            if id.Some? then id else p.eventId,
            p.dataLines + AllValues(frame, "data"))
  }

  lemma MergedStep(p: Pending, frame: seq<string>)
    requires frame != [] && !IsComment(frame[0]) && Partition(frame[0]).Some?
    ensures Merged(Absorb(p, frame[0]), frame[1..]) == Merged(p, frame)
  {
    var (field, value) := Partition(frame[0]).value;
    if field == "data" {
      assert p.dataLines + ([DropSpace(value)] + AllValues(frame[1..], "data"))
          == (p.dataLines + [DropSpace(value)]) + AllValues(frame[1..], "data");
    } else {
      assert OptionSeq(FieldOf(frame[0], "data")) == [];
      assert AllValues(frame, "data") == AllValues(frame[1..], "data");
    }
  }

  lemma MergedComment(p: Pending, frame: seq<string>)
    requires frame != [] && IsComment(frame[0])
    ensures Merged(p, frame[1..]) == Merged(p, frame)
  {
    assert OptionSeq(FieldOf(frame[0], "data")) == [];
    assert AllValues(frame, "data") == AllValues(frame[1..], "data");
  }

  predicate Accepted(line: string) {
    IsComment(line) || Partition(line).Some?
  }

  /** A line that is not blank is counted, and absorbed unless it is a comment. */
  lemma StepInFrame(cfg: Config, st: Parser, line: string)
    requires line != ""
    ensures var bytes, pending := st.bytes + LineBytes(line), if IsComment(line) then st.pending else Absorb(st.pending, line);
            if bytes <= MAX_SSE_EVENT_BYTES && Accepted(line)
            then Step(cfg, st, line) == Ok((None, st.(pending := pending, bytes := bytes)))
            else Step(cfg, st, line).Err?
  {
  }

  lemma MergedLine(p: Pending, frame: seq<string>)
    requires frame != [] && Accepted(frame[0])
    ensures Merged(if IsComment(frame[0]) then p else Absorb(p, frame[0]), frame[1..]) == Merged(p, frame)
  {
    if IsComment(frame[0]) {
      MergedComment(p, frame);
    } else {
      MergedStep(p, frame);
    }
  }

  lemma WellFormedFront(frame: seq<string>)
    requires frame != []
    ensures WellFormed(frame) <==> Accepted(frame[0]) && WellFormed(frame[1..])
  {
    assert frame == [frame[0]] + frame[1..];
  }

  /** Lines without a blank one among them yield nothing and are only accumulated. */
  lemma {:induction false} RunFrame(cfg: Config, st: Parser, frame: seq<string>)
    requires forall i | 0 <= i < |frame| :: frame[i] != ""
    requires st.bytes <= MAX_SSE_EVENT_BYTES
    ensures var t := RunLines(cfg, st, frame);
            && t.events == []
            && (t.error.None? <==> WellFormed(frame) && st.bytes + FrameBytes(frame) <= MAX_SSE_EVENT_BYTES)
            && (t.error.None? ==>
                  t.after == st.(pending := Merged(st.pending, frame), bytes := st.bytes + FrameBytes(frame)))
    decreases |frame|
  {
    if frame == [] {
      assert st.pending.dataLines + [] == st.pending.dataLines;
    } else {
      var line := frame[0];
      StepInFrame(cfg, st, line);
      WellFormedFront(frame);
      assert OptionSeq<AgentEvent>(None) == [];
      if Step(cfg, st, line).Ok? {
        MergedLine(st.pending, frame);
        RunFrame(cfg, Step(cfg, st, line).value.1, frame[1..]);
      }
    }
  }

  /** After a whole frame, finishing it is reading it as a whole. */
  lemma RunWholeFrame(cfg: Config, count: nat, last: int, frame: seq<string>)
    requires forall i | 0 <= i < |frame| :: frame[i] != ""
    ensures var t := RunLines(cfg, Idle(count, last), frame);
            && t.events == []
            && match ReadFrame(cfg, frame)
               case None => t.error.Some? || Finish(cfg, t.after).Err?
               case Some(event) => t.error.None? && t.after.bytes <= MAX_SSE_EVENT_BYTES
                                   && Finish(cfg, t.after) == Ok((event, Idle(count, last)))
  {
    RunFrame(cfg, Idle(count, last), frame);
    assert NOTHING.dataLines + AllValues(frame, "data") == AllValues(frame, "data");
  }

  /** The last frame, closed by the end of input. */
  lemma LastFrame(cfg: Config, count: nat, last: int, frame: seq<string>)
    requires forall i | 0 <= i < |frame| :: frame[i] != ""
    ensures var r := ParseFrom(cfg, Idle(count, last), frame);
            ReadFrames(cfg, count, last, [frame]) == FrameReading(r.events, r.error.None?)
  {
    RunWholeFrame(cfg, count, last, frame);
    assert [frame][1..] == [];
  }

  /** What reading goes on as after a frame and its blank line; None if it ends there with an error. */
  datatype Onward = Onward(events: seq<AgentEvent>, count: nat, last: int)

  function AfterFrame(cfg: Config, count: nat, last: int, frame: seq<string>): Option<Onward> {
    match ReadFrame(cfg, frame)
    case None => None
    case Some(None) => Some(Onward([], count, last))
    case Some(Some(event)) =>
      if count < cfg.maxEvents && event.sequence > last then Some(Onward([event], count + 1, event.sequence)) else None
  }

  lemma BlankAfterFrame(cfg: Config, count: nat, last: int, frame: seq<string>)
    requires forall i | 0 <= i < |frame| :: frame[i] != ""
    ensures var t, next := RunLines(cfg, Idle(count, last), frame), AfterFrame(cfg, count, last, frame);
            && t.events == []
            && if next.None? then t.error.Some? || Step(cfg, t.after, "").Err?
               else
                 && t.error.None? && Step(cfg, t.after, "").Ok?
                 && Idle(next.value.count, next.value.last) == Step(cfg, t.after, "").value.1
                 && OptionSeq(Step(cfg, t.after, "").value.0) == next.value.events
  {
    RunWholeFrame(cfg, count, last, frame);
  }

  lemma NextFrame(cfg: Config, count: nat, last: int, frame: seq<string>, rest: seq<string>)
    requires forall i | 0 <= i < |frame| :: frame[i] != ""
    ensures var r, next := ParseFrom(cfg, Idle(count, last), frame + ([""] + rest)), AfterFrame(cfg, count, last, frame);
            if next.None? then r.events == [] && r.error.Some?
            else
              var more := ParseFrom(cfg, Idle(next.value.count, next.value.last), rest);
              r == Reading(next.value.events + more.events, more.error)
  {
    var st, lines := Idle(count, last), [""] + rest;
    BlankAfterFrame(cfg, count, last, frame);
    ParseAfter(cfg, st, frame, lines);
    assert lines[0] == "" && lines[1..] == rest;
    var t := RunLines(cfg, st, frame);
    if t.error.None? && Step(cfg, t.after, "").Ok? {
      ParseStep(cfg, t.after, lines);
    }
  }

  lemma ReadNextFrame(cfg: Config, count: nat, last: int, frame: seq<string>, frames: seq<seq<string>>)
    ensures var next := AfterFrame(cfg, count, last, frame);
            ReadFrames(cfg, count, last, [frame] + frames)
            == if next.None? then FrameReading([], false)
               else
                 var more := ReadFrames(cfg, next.value.count, next.value.last, frames);
                 FrameReading(next.value.events + more.events, more.accepted)
  {
    assert ([frame] + frames)[1..] == frames;
  }

  /** For every input: the reader yields the events of the frames before the first unacceptable one,
      and ends without error exactly when every frame is acceptable. */
  lemma {:induction false} ReaderReadsFrames(cfg: Config, count: nat, last: int, lines: seq<string>)
    ensures var r := ParseFrom(cfg, Idle(count, last), lines);
            ReadFrames(cfg, count, last, Frames(lines)) == FrameReading(r.events, r.error.None?)
    decreases |lines|
  {
    var k := FirstBlank(lines);
    if k == |lines| {
      LastFrame(cfg, count, last, lines);
    } else {
      var frame, rest := lines[..k], lines[k + 1..];
      assert lines == frame + ([""] + rest);
      NextFrame(cfg, count, last, frame, rest);
      ReadNextFrame(cfg, count, last, frame, Frames(rest));
      var next := AfterFrame(cfg, count, last, frame);
      if next.Some? {
        ReaderReadsFrames(cfg, next.value.count, next.value.last, rest);
      }
    }
  }

  // ---------- the frame printer ----------

  function IntText(n: int): string {
    if n < 0 then "-" + Decimal(-n) else Decimal(n)
  }

  lemma MinusIsKept(digits: string)
    requires digits != "" && AllDigits(digits)
    ensures Strip("-" + digits) == "-" + digits && ("-" + digits)[1..] == digits
  {
    var text := "-" + digits;
    assert text[0] == '-' && IsDigit(text[|text| - 1]) by {
      assert text[|text| - 1] == digits[|digits| - 1];
    }
  }

  lemma ParseIntOfNegative(digits: string, m: int)
    requires digits != "" && AllDigits(digits) && DigitsValue(digits) == m
    ensures ParseInt("-" + digits) == Some(-m)
  {
    MinusIsKept(digits);
    UnscoredDigitsOfDigits(digits);
  }

  lemma ParseIntOfIntText(n: int)
    ensures ParseInt(IntText(n)) == Some(n)
  {
    if n < 0 {
      DecimalValue(-n);
      ParseIntOfNegative(Decimal(-n), -n);
    } else {
      ParseIntOfDecimal(n);
    }
  }

  function FieldLine(field: string, value: string): string {
    field + ": " + value
  }

  function DataLines(data: seq<string>): seq<string> {
    if data == [] then [] else [FieldLine("data", data[0])] + DataLines(data[1..])
  }

  function Frame(e: AgentEvent, data: seq<string>): seq<string> {
    [FieldLine("event", e.eventType), FieldLine("id", IntText(e.sequence))] + DataLines(data)
  }

  /** The lines of a stream: each event's frame, closed by a blank line. The payload text of an event
      may span several data lines. */
  function StreamLines(encode: AgentEvent -> string, events: seq<AgentEvent>): seq<string> {
    if events == [] then []
    else Frame(events[0], SplitNewline(encode(events[0]))) + [""] + StreamLines(encode, events[1..])
  }

  lemma ColonLine(field: string, value: string)
    requires field == "event" || field == "id" || field == "data"
    ensures var line := FieldLine(field, value);
            line != "" && !IsComment(line) && Partition(line) == Some((field, " " + value))
  {
    PartitionAt(field, " " + value);
    assert FieldLine(field, value) == field + ":" + (" " + value);
  }

  lemma {:induction false} PartitionAt(field: string, rest: string)
    requires ':' !in field
    ensures Partition(field + ":" + rest) == Some((field, rest))
  {
    var line := field + ":" + rest;
    if field == "" {
      assert line[1..] == rest;
    } else {
      PartitionAt(field[1..], rest);
      assert line[1..] == field[1..] + ":" + rest && [field[0]] + field[1..] == field;
    }
  }

  lemma WellFormedCons(line: string, rest: seq<string>)
    requires (IsComment(line) || Partition(line).Some?) && WellFormed(rest)
    ensures WellFormed([line] + rest)
  {
    var frame := [line] + rest;
    forall i | 0 <= i < |frame| ensures IsComment(frame[i]) || Partition(frame[i]).Some? {
      if i > 0 {
        assert frame[i] == rest[i - 1];
      }
    }
  }

  lemma {:induction false} ReadDataLines(data: seq<string>)
    ensures var lines := DataLines(data);
            && (forall i | 0 <= i < |lines| :: lines[i] != "")
            && WellFormed(lines) && AllValues(lines, "data") == data
            && LastValue(lines, "event").None? && LastValue(lines, "id").None?
  {
    if data != [] {
      ReadDataLines(data[1..]);
      ColonLine("data", data[0]);
      assert DataLines(data)[1..] == DataLines(data[1..]);
      WellFormedCons(FieldLine("data", data[0]), DataLines(data[1..]));
      assert (" " + data[0])[1..] == data[0];
      assert OptionSeq(FieldOf(FieldLine("data", data[0]), "data")) == [data[0]];
      assert [data[0]] + data[1..] == data;
    }
  }

  lemma FrameFields(e: AgentEvent, data: seq<string>)
    ensures var frame := Frame(e, data);
            && (forall i | 0 <= i < |frame| :: frame[i] != "")
            && WellFormed(frame) && AllValues(frame, "data") == data
            && LastValue(frame, "event") == Some(e.eventType) && LastValue(frame, "id") == Some(IntText(e.sequence))
  {
    LinesInFrame(e, data);
    ValuesInFrame(e, data);
  }

  lemma LinesInFrame(e: AgentEvent, data: seq<string>)
    ensures var frame := Frame(e, data); WellFormed(frame) && forall i | 0 <= i < |frame| :: frame[i] != ""
  {
    var event, id, lines := FieldLine("event", e.eventType), FieldLine("id", IntText(e.sequence)), DataLines(data);
    ReadDataLines(data);
    ColonLine("event", e.eventType);
    ColonLine("id", IntText(e.sequence));
    WellFormedCons(id, lines);
    WellFormedCons(event, [id] + lines);
    assert Frame(e, data) == [event] + ([id] + lines);
  }

  lemma ValuesInFrame(e: AgentEvent, data: seq<string>)
    ensures var frame := Frame(e, data);
            && AllValues(frame, "data") == data
            && LastValue(frame, "event") == Some(e.eventType) && LastValue(frame, "id") == Some(IntText(e.sequence))
  {
    var frame := Frame(e, data);
    ReadDataLines(data);
    ColonLine("event", e.eventType);
    ColonLine("id", IntText(e.sequence));
    assert (" " + e.eventType)[1..] == e.eventType && (" " + IntText(e.sequence))[1..] == IntText(e.sequence);
    assert frame[1..][1..] == DataLines(data) && frame[1..][0] == FieldLine("id", IntText(e.sequence));
    assert [] + data == data;
  }

  lemma ReadPrintedFrame(cfg: Config, e: AgentEvent, data: seq<string>)
    requires data != [] && cfg.decode(JoinLines(data)) == Some(e)
    ensures ReadFrame(cfg, Frame(e, data)) ==
              if FrameBytes(Frame(e, data)) <= MAX_SSE_EVENT_BYTES then Some(Some(e)) else None
  {
    FrameFields(e, data);
    ParseIntOfIntText(e.sequence);
  }

  lemma FirstFrame(frame: seq<string>, rest: seq<string>)
    requires forall i | 0 <= i < |frame| :: frame[i] != ""
    ensures Frames(frame + [""] + rest) == [frame] + Frames(rest)
  {
    var lines := frame + [""] + rest;
    assert FirstBlank(lines) == |frame| by {
      assert lines[|frame|] == "";
      assert forall i | 0 <= i < |frame| :: lines[i] == frame[i];
    }
    assert lines[..|frame|] == frame && lines[|frame| + 1..] == rest;
  }

  predicate Printable(cfg: Config, encode: AgentEvent -> string, count: nat, last: int, events: seq<AgentEvent>) {
    && AscendingAfter(last, events)
    && (events != [] ==> count + |events| <= cfg.maxEvents)
    && forall e | e in events :: FrameBytes(Frame(e, SplitNewline(encode(e)))) <= MAX_SSE_EVENT_BYTES
  }

  lemma PrintableStep(cfg: Config, encode: AgentEvent -> string, count: nat, last: int, events: seq<AgentEvent>)
    requires events != []
    ensures Printable(cfg, encode, count, last, events) <==>
            && FrameBytes(Frame(events[0], SplitNewline(encode(events[0])))) <= MAX_SSE_EVENT_BYTES
            && events[0].sequence > last && count < cfg.maxEvents
            && Printable(cfg, encode, count + 1, events[0].sequence, events[1..])
  {
    assert events == [events[0]] + events[1..];
  }

  lemma FramesOfStream(encode: AgentEvent -> string, events: seq<AgentEvent>)
    requires events != []
    ensures Frames(StreamLines(encode, events))
         == [Frame(events[0], SplitNewline(encode(events[0])))] + Frames(StreamLines(encode, events[1..]))
  {
    FrameFields(events[0], SplitNewline(encode(events[0])));
    FirstFrame(Frame(events[0], SplitNewline(encode(events[0]))), StreamLines(encode, events[1..]));
  }

  lemma AfterPrintedFrame(cfg: Config, count: nat, last: int, e: AgentEvent, text: string)
    requires cfg.decode(text) == Some(e)
    ensures var frame := Frame(e, SplitNewline(text));
            AfterFrame(cfg, count, last, frame)
            == if FrameBytes(frame) <= MAX_SSE_EVENT_BYTES && e.sequence > last && count < cfg.maxEvents
               then Some(Onward([e], count + 1, e.sequence)) else None
  {
    JoinOfSplit(text);
    ReadPrintedFrame(cfg, e, SplitNewline(text));
  }

  /** Reading a printed stream gives back the printed events without error exactly when their
      sequences strictly increase, they are not too many and none is too large. */
  lemma {:induction false} ReadPrintedStream(
    cfg: Config, encode: AgentEvent -> string, count: nat, last: int, events: seq<AgentEvent>
  )
    requires forall e | e in events :: cfg.decode(encode(e)) == Some(e)
    ensures var r := ReadFrames(cfg, count, last, Frames(StreamLines(encode, events)));
            r == FrameReading(events, true) <==> Printable(cfg, encode, count, last, events)
    decreases |events|
  {
    if events == [] {
      assert ReadFrame(cfg, []) == Some(None);
    } else {
      var e, later := events[0], events[1..];
      FramesOfStream(encode, events);
      AfterPrintedFrame(cfg, count, last, e, encode(e));
      ReadNextFrame(cfg, count, last, Frame(e, SplitNewline(encode(e))), Frames(StreamLines(encode, later)));
      ReadPrintedStream(cfg, encode, count + 1, e.sequence, later);
      PrintableStep(cfg, encode, count, last, events);
      assert events == [e] + later;
    }
  }

  lemma ParsingUndoesPrinting(cfg: Config, encode: AgentEvent -> string, events: seq<AgentEvent>)
    requires forall e | e in events :: cfg.decode(encode(e)) == Some(e)
    ensures Parse(cfg, StreamLines(encode, events)) == Reading(events, None)
        <==> Printable(cfg, encode, 0, 0, events)
  {
    ReaderReadsFrames(cfg, 0, 0, StreamLines(encode, events));
    ReadPrintedStream(cfg, encode, 0, 0, events);
  }

  // ---------- what makes a frame an event ----------

  /** A frame is read as an event exactly when it is within the limit, every line has a colon, its last event
      line names the type of the decoded data, and its last id line holds that event's own sequence. */
  lemma FrameIsEvent(cfg: Config, frame: seq<string>, e: AgentEvent)
    ensures ReadFrame(cfg, frame) == Some(Some(e)) <==>
            && WellFormed(frame) && FrameBytes(frame) <= 262144
            && LastValue(frame, "event") == Some(e.eventType)
            && LastValue(frame, "id").Some? && ParseInt(LastValue(frame, "id").value) == Some(e.sequence)
            && AllValues(frame, "data") != [] && cfg.decode(JoinLines(AllValues(frame, "data"))) == Some(e)
  {
  }

  /** It is passed over exactly when it sets none of the three fields. */
  lemma FrameIsEmpty(cfg: Config, frame: seq<string>)
    ensures ReadFrame(cfg, frame) == Some(None) <==>
            && WellFormed(frame) && FrameBytes(frame) <= 262144
            && LastValue(frame, "event").None? && LastValue(frame, "id").None? && AllValues(frame, "data") == []
  {
  }

  // ---------- bytes ----------

  /** The UTF-8 encoding of a character (section 3 of RFC 3629). */
  function Utf8(c: char): seq<nat> {
    var u := c as int;
    if u < 0x80 then [u]
    else if u < 0x800 then [0xC0 + u / 64, 0x80 + u % 64]
    else if u < 0x10000 then [0xE0 + u / 4096, 0x80 + u / 64 % 64, 0x80 + u % 64]
    else [0xF0 + u / 262144, 0x80 + u / 4096 % 64, 0x80 + u / 64 % 64, 0x80 + u % 64]
  }

  predicate IsContinuation(b: nat) { 0x80 <= b < 0xC0 }

  /** The code point that a sequence of bytes encodes, by its first byte and the bytes that continue it, none
      longer than it has to be. */
  function FromUtf8(bytes: seq<nat>): Option<nat> {
    if |bytes| == 1 && bytes[0] < 0x80 then Some(bytes[0])
    else if |bytes| == 2 && 0xC2 <= bytes[0] < 0xE0 && IsContinuation(bytes[1]) then
      Some((bytes[0] - 0xC0) * 64 + (bytes[1] - 0x80))
    else if |bytes| == 3 && 0xE0 <= bytes[0] < 0xF0 && IsContinuation(bytes[1]) && IsContinuation(bytes[2])
            && (bytes[0] > 0xE0 || bytes[1] >= 0xA0) then
      Some((bytes[0] - 0xE0) * 4096 + (bytes[1] - 0x80) * 64 + (bytes[2] - 0x80))
    else if |bytes| == 4 && 0xF0 <= bytes[0] < 0xF5 && IsContinuation(bytes[1]) && IsContinuation(bytes[2])
            && IsContinuation(bytes[3]) && (bytes[0] > 0xF0 || bytes[1] >= 0x90) then
      Some((bytes[0] - 0xF0) * 262144 + (bytes[1] - 0x80) * 4096 + (bytes[2] - 0x80) * 64 + (bytes[3] - 0x80))
    else None
  }

  lemma SixtyFours(u: nat)
    ensures u == u / 64 * 64 + u % 64 && u / 64 == u / 4096 * 64 + u / 64 % 64
    ensures u / 4096 == u / 262144 * 64 + u / 4096 % 64
  {
  }

  lemma TwoBytes(u: nat, a: nat, b: nat)
    requires 0x80 <= u < 0x800 && u == a * 64 + b && b < 64
    ensures FromUtf8([0xC0 + a, 0x80 + b]) == Some(u)
  {
  }

  lemma ThreeBytes(u: nat, a: nat, b: nat, c: nat)
    requires 0x800 <= u < 0x10000 && u == (a * 64 + b) * 64 + c && b < 64 && c < 64
    ensures FromUtf8([0xE0 + a, 0x80 + b, 0x80 + c]) == Some(u)
  {
  }

  lemma FourBytes(u: nat, a: nat, b: nat, c: nat, d: nat)
    requires 0x10000 <= u < 0x110000 && u == ((a * 64 + b) * 64 + c) * 64 + d && b < 64 && c < 64 && d < 64
    ensures FromUtf8([0xF0 + a, 0x80 + b, 0x80 + c, 0x80 + d]) == Some(u)
  {
  }

  lemma Utf8IsDecoded(c: char)
    ensures FromUtf8(Utf8(c)) == Some(c as int) && |Utf8(c)| == CharBytes(c)
  {
    var u := c as int;
    SixtyFours(u);
    if u < 0x80 {
    } else if u < 0x800 {
      TwoBytes(u, u / 64, u % 64);
    } else if u < 0x10000 {
      ThreeBytes(u, u / 4096, u / 64 % 64, u % 64);
    } else {
      FourBytes(u, u / 262144, u / 4096 % 64, u / 64 % 64, u % 64);
    }
  }

  function Encoded(line: string): seq<nat> {
    if line == "" then [] else Utf8(line[0]) + Encoded(line[1..])
  }

  /** The bytes counted for a line are those of its UTF-8 encoding. */
  lemma {:induction false} BytesOfLine(line: string)
    ensures LineBytes(line) == |Encoded(line)|
  {
    if line != "" {
      Utf8IsDecoded(line[0]);
      BytesOfLine(line[1..]);
    }
  }
}

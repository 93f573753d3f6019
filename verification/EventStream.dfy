/** The reference client's reader for server-sent event streams (the dialect of sections 9.2.5 and
    9.2.6 of the WHATWG HTML Living Standard that examples/shopmind_reference_client.py accepts) and the
    bounded body reader beside it. */
module EventStream {
  import opened Text

  const MAX_SSE_EVENT_BYTES := 256 * 1024

  datatype AgentEvent = AgentEvent(sequence: int, eventType: string, content: string)

  /** PayloadInvalid stands for the ValidationError and ValueError that decoding a payload or an id
      raises; the others carry the client's own error codes. */
  datatype StreamError = StreamProtocolInvalid | StreamEventTooLarge | StreamBoundsExceeded | PayloadInvalid

  /** decode is AgentEvent.model_validate_json, None when validation fails. */
  datatype Config = Config(maxEvents: nat, decode: string -> Option<AgentEvent>)

  // ---------- one line ----------

  function CharBytes(c: char): nat {
    var u := c as int;
    if u < 0x80 then 1 else if u < 0x800 then 2 else if u < 0x10000 then 3 else 4
  }

  function LineBytes(line: string): nat {
    if line == "" then 0 else CharBytes(line[0]) + LineBytes(line[1..])
  }

  /** line.partition(":"), None when there is no colon. */
  function Partition(line: string): Option<(string, string)> {
    if line == "" then None
    else if line[0] == ':' then Some(("", line[1..]))
    else
      match Partition(line[1..])
      case None => None
      case Some((field, value)) => Some(([line[0]] + field, value))
  }

  function DropSpace(value: string): string {
    if value != "" && value[0] == ' ' then value[1..] else value
  }

  predicate IsComment(line: string) { line != "" && line[0] == ':' }

  // ---------- the parser as a transition function ----------

  datatype Pending = Pending(eventType: Option<string>, eventId: Option<string>, dataLines: seq<string>)

  const NOTHING := Pending(None, None, [])

  datatype Parser = Parser(pending: Pending, bytes: nat, count: nat, last: int)

  function Idle(count: nat, last: int): Parser { Parser(NOTHING, 0, count, last) }

  const FRESH := Idle(0, 0)

  function ReadPending(cfg: Config, p: Pending): Result<Option<AgentEvent>, StreamError> {
    if p == NOTHING then Ok(None)
    else if p.eventType.None? || p.eventId.None? || p.dataLines == [] then Err(StreamProtocolInvalid)
    else
      match cfg.decode(JoinLines(p.dataLines))
      case None => Err(PayloadInvalid)
      case Some(event) =>
        if event.eventType != p.eventType.value then Err(StreamProtocolInvalid)
        else
          match ParseInt(p.eventId.value)
          case None => Err(PayloadInvalid)
          case Some(id) => if event.sequence != id then Err(StreamProtocolInvalid) else Ok(Some(event))
  }

  /** finish_event: the pending event, and the parser with nothing pending. */
  function Finish(cfg: Config, st: Parser): Result<(Option<AgentEvent>, Parser), StreamError> {
    if st.pending == NOTHING then Ok((None, st.(bytes := 0)))
    else if st.pending.eventType.None? || st.pending.eventId.None? || st.pending.dataLines == [] then
      Err(StreamProtocolInvalid)
    else if st.bytes > MAX_SSE_EVENT_BYTES then Err(StreamEventTooLarge)
    else
      match ReadPending(cfg, st.pending)
      case Err(e) => Err(e)
      case Ok(event) => Ok((event, Idle(st.count, st.last)))
  }

  predicate WithinBounds(cfg: Config, st: Parser, event: AgentEvent) {
    st.count + 1 <= cfg.maxEvents && event.sequence > st.last
  }

  function Absorb(p: Pending, line: string): Pending {
    match Partition(line)
    case None => p
    case Some((field, value)) =>
      if field == "event" then p.(eventType := Some(DropSpace(value)))
      else if field == "id" then p.(eventId := Some(DropSpace(value)))
      else if field == "data" then p.(dataLines := p.dataLines + [DropSpace(value)])
      else p
  }

  /** The effect of one line: the event it completes, if any, and the parser after it. */
  function Step(cfg: Config, st: Parser, line: string): Result<(Option<AgentEvent>, Parser), StreamError> {
    var counted := st.(bytes := st.bytes + LineBytes(line));
    if counted.bytes > MAX_SSE_EVENT_BYTES then Err(StreamEventTooLarge)
    else if line == "" then
      match Finish(cfg, counted)
      case Err(e) => Err(e)
      case Ok((None, next)) => Ok((None, next))
      case Ok((Some(event), next)) =>
        if WithinBounds(cfg, next, event)
        then Ok((Some(event), next.(count := next.count + 1, last := event.sequence)))
        else Err(StreamBoundsExceeded)
    else if IsComment(line) then Ok((None, counted))
    else if Partition(line).None? then Err(StreamProtocolInvalid)
    else Ok((None, counted.(pending := Absorb(counted.pending, line))))
  }

  datatype Trace = Trace(events: seq<AgentEvent>, error: Option<StreamError>, after: Parser)

  function OptionSeq<T>(o: Option<T>): seq<T> {
    match o case None => [] case Some(v) => [v]
  }

  function RunLines(cfg: Config, st: Parser, lines: seq<string>): Trace
    decreases |lines|
  {
    if lines == [] then Trace([], None, st)
    else
      match Step(cfg, st, lines[0])
      case Err(e) => Trace([], Some(e), st)
      case Ok((event, next)) =>
        var rest := RunLines(cfg, next, lines[1..]);
        rest.(events := OptionSeq(event) + rest.events)
  }

  /** What the generator yields before it ends, and the error that ends it if there is one. */
  datatype Reading = Reading(events: seq<AgentEvent>, error: Option<StreamError>)

  function AtEnd(cfg: Config, st: Parser): Reading {
    match Finish(cfg, st)
    case Err(e) => Reading([], Some(e))
    case Ok((None, _)) => Reading([], None)
    case Ok((Some(event), next)) =>
      if WithinBounds(cfg, next, event) then Reading([event], None) else Reading([], Some(StreamBoundsExceeded))
  }

  function ParseFrom(cfg: Config, st: Parser, lines: seq<string>): Reading {
    var run := RunLines(cfg, st, lines);
    if run.error.Some? then Reading(run.events, run.error)
    else
      var end := AtEnd(cfg, run.after);
      Reading(run.events + end.events, end.error)
  }

  function Parse(cfg: Config, lines: seq<string>): Reading {
    ParseFrom(cfg, FRESH, lines)
  }

  /** The run is what has been yielded so far followed by the rest of the run. */
  ghost predicate Resumes(whole: Trace, yielded: seq<AgentEvent>, rest: Trace) {
    whole == rest.(events := yielded + rest.events)
  }

  lemma ResumesStep(cfg: Config, whole: Trace, yielded: seq<AgentEvent>, st: Parser, lines: seq<string>)
    requires lines != [] && Step(cfg, st, lines[0]).Ok?
    requires Resumes(whole, yielded, RunLines(cfg, st, lines))
    ensures var (event, next) := Step(cfg, st, lines[0]).value;
            Resumes(whole, yielded + OptionSeq(event), RunLines(cfg, next, lines[1..]))
  {
    var (event, next) := Step(cfg, st, lines[0]).value;
    var rest := RunLines(cfg, next, lines[1..]).events;
    assert yielded + (OptionSeq(event) + rest) == (yielded + OptionSeq(event)) + rest;
  }

  // ---------- the parser as the client runs it ----------

  class StreamParser {
    const cfg: Config
    var eventType: Option<string>
    var eventId: Option<string>
    var dataLines: seq<string>
    var eventBytes: nat
    var eventCount: nat
    var lastSequence: int

    function Snapshot(): Parser
      reads this
    {
      Parser(Pending(eventType, eventId, dataLines), eventBytes, eventCount, lastSequence)
    }

    constructor (cfg: Config)
      ensures this.cfg == cfg && Snapshot() == FRESH
    {
      this.cfg := cfg;
      eventType, eventId, dataLines := None, None, [];
      eventBytes, eventCount, lastSequence := 0, 0, 0;
    }

    method FinishEvent() returns (r: Result<Option<AgentEvent>, StreamError>)
      modifies this
      ensures match Finish(cfg, old(Snapshot()))
              case Err(e) => r == Err(e) && Snapshot() == old(Snapshot())
              case Ok((event, next)) => r == Ok(event) && Snapshot() == next
    {
      if eventType.None? && eventId.None? && dataLines == [] {
        eventBytes := 0;
        return Ok(None);
      }
      if eventType.None? || eventId.None? || dataLines == [] {
        return Err(StreamProtocolInvalid);
      }
      if eventBytes > MAX_SSE_EVENT_BYTES {
        return Err(StreamEventTooLarge);
      }
      var decoded := cfg.decode(JoinLines(dataLines));
      if decoded.None? {
        return Err(PayloadInvalid);
      }
      var event := decoded.value;
      if event.eventType != eventType.value {
        return Err(StreamProtocolInvalid);
      }
      var id := ParseInt(eventId.value);
      if id.None? {
        return Err(PayloadInvalid);
      }
      if event.sequence != id.value {
        return Err(StreamProtocolInvalid);
      }
      eventType, eventId, dataLines, eventBytes := None, None, [], 0;
      return Ok(Some(event));
    }

    /** One turn of the reading loop. */
    method ReadLine(line: string) returns (r: Result<Option<AgentEvent>, StreamError>)
      modifies this
      ensures match Step(cfg, old(Snapshot()), line)
              case Err(e) => r == Err(e)
              case Ok((event, next)) => r == Ok(event) && Snapshot() == next
    {
      eventBytes := eventBytes + LineBytes(line);
      if eventBytes > MAX_SSE_EVENT_BYTES {
        return Err(StreamEventTooLarge);
      }
      if line == "" {
        r := FinishEvent();
        if r.Ok? && r.value.Some? {
          eventCount := eventCount + 1;
          if eventCount > cfg.maxEvents || r.value.value.sequence <= lastSequence {
            return Err(StreamBoundsExceeded);
          }
          lastSequence := r.value.value.sequence;
        }
        return r;
      }
      if IsComment(line) {
        return Ok(None);
      }
      var parts := Partition(line);
      if parts.None? {
        return Err(StreamProtocolInvalid);
      }
      var (field, value) := parts.value;
      value := DropSpace(value);
      if field == "event" {
        eventType := Some(value);
      } else if field == "id" {
        eventId := Some(value);
      } else if field == "data" {
        dataLines := dataLines + [value];
      }
      return Ok(None);
    }

    method ParseSse(lines: seq<string>) returns (events: seq<AgentEvent>, error: Option<StreamError>)
      modifies this
      ensures Reading(events, error) == ParseFrom(cfg, old(Snapshot()), lines)
    {
      events := [];
      ghost var start := Snapshot();
      for i := 0 to |lines|
        invariant Resumes(RunLines(cfg, start, lines), events, RunLines(cfg, Snapshot(), lines[i..]))
      {
        ghost var before := Snapshot();
        var read := ReadLine(lines[i]);
        assert lines[i..][0] == lines[i] && lines[i..][1..] == lines[i + 1..];
        if read.Err? {
          return events, Some(read.error);
        }
        ghost var seen := events;
        events := events + OptionSeq(read.value);
        ResumesStep(cfg, RunLines(cfg, start, lines), seen, before, lines[i..]);
      }
      var end := ReadEnd();
      return events + end.events, end.error;
    }

    /** The end of input completes a trailing event that no blank line closed. */
    method ReadEnd() returns (end: Reading)
      modifies this
      ensures end == AtEnd(cfg, old(Snapshot()))
    {
      var last := FinishEvent();
      if last.Err? {
        return Reading([], Some(last.error));
      }
      if last.value.None? {
        return Reading([], None);
      }
      eventCount := eventCount + 1;
      if eventCount > cfg.maxEvents || last.value.value.sequence <= lastSequence {
        return Reading([], Some(StreamBoundsExceeded));
      }
      return Reading([last.value.value], None);
    }
  }

  // ---------- safety of every reading ----------

  function LastOf(last: int, events: seq<AgentEvent>): int {
    if events == [] then last else events[|events| - 1].sequence
  }

  predicate AscendingAfter(last: int, events: seq<AgentEvent>)
    decreases |events|
  {
    events == [] || (events[0].sequence > last && AscendingAfter(events[0].sequence, events[1..]))
  }

  lemma StepIsBounded(cfg: Config, st: Parser, line: string)
    requires Step(cfg, st, line).Ok?
    ensures var (event, next) := Step(cfg, st, line).value;
            && next.bytes <= MAX_SSE_EVENT_BYTES
            && next.count == st.count + |OptionSeq(event)|
            && next.last == LastOf(st.last, OptionSeq(event))
            && (event.Some? ==> event.value.sequence > st.last && next.count <= cfg.maxEvents)
  {
  }

  lemma AscendingCons(last: int, e: AgentEvent, events: seq<AgentEvent>)
    requires e.sequence > last && AscendingAfter(e.sequence, events)
    ensures AscendingAfter(last, [e] + events)
    ensures LastOf(last, [e] + events) == LastOf(e.sequence, events)
  {
    assert ([e] + events)[1..] == events;
  }

  lemma {:induction false} RunIsBounded(cfg: Config, st: Parser, lines: seq<string>)
    ensures var t := RunLines(cfg, st, lines);
            && AscendingAfter(st.last, t.events)
            && (t.events != [] ==> st.count + |t.events| <= cfg.maxEvents)
            && t.after.count == st.count + |t.events|
            && t.after.last == LastOf(st.last, t.events)
    decreases |lines|
  {
    if lines != [] && Step(cfg, st, lines[0]).Ok? {
      var (event, next) := Step(cfg, st, lines[0]).value;
      StepIsBounded(cfg, st, lines[0]);
      RunIsBounded(cfg, next, lines[1..]);
      if event.Some? {
        var rest := RunLines(cfg, next, lines[1..]).events;
        AscendingCons(st.last, event.value, rest);
        assert RunLines(cfg, st, lines).events == [event.value] + rest;
      } else {
        assert RunLines(cfg, st, lines).events == RunLines(cfg, next, lines[1..]).events;
      }
    }
  }

  /** Accepted or failing, a reading yields strictly increasing sequences above the last one seen and
      never more events than the limit leaves room for. */
  lemma ReadingIsBounded(cfg: Config, st: Parser, lines: seq<string>)
    ensures var r := ParseFrom(cfg, st, lines);
            AscendingAfter(st.last, r.events) && (r.events != [] ==> st.count + |r.events| <= cfg.maxEvents)
  {
    RunIsBounded(cfg, st, lines);
    var run := RunLines(cfg, st, lines);
    if run.error.None? && AtEnd(cfg, run.after).events != [] {
      AscendingSnoc(st.last, run.events, AtEnd(cfg, run.after).events[0]);
    } else {
      assert ParseFrom(cfg, st, lines).events == run.events;
    }
  }

  lemma {:induction false} AscendingSnoc(last: int, events: seq<AgentEvent>, e: AgentEvent)
    requires AscendingAfter(last, events) && e.sequence > LastOf(last, events)
    ensures AscendingAfter(last, events + [e])
    decreases |events|
  {
    if events != [] {
      AscendingSnoc(events[0].sequence, events[1..], e);
      assert (events + [e])[1..] == events[1..] + [e];
    }
  }

  // ---------- resuming at a blank line ----------

  function Then(first: Trace, second: Trace): Trace {
    if first.error.Some? then first else Trace(first.events + second.events, second.error, second.after)
  }

  function Yielding(events: seq<AgentEvent>, t: Trace): Trace {
    Trace(events + t.events, t.error, t.after)
  }

  lemma YieldingThen(events: seq<AgentEvent>, first: Trace, second: Trace)
    ensures Then(Yielding(events, first), second) == Yielding(events, Then(first, second))
  {
    assert (events + first.events) + second.events == events + (first.events + second.events);
  }

  lemma RunFirst(cfg: Config, st: Parser, line: string, rest: seq<string>)
    requires Step(cfg, st, line).Ok?
    ensures var (event, next) := Step(cfg, st, line).value;
            RunLines(cfg, st, [line] + rest) == Yielding(OptionSeq(event), RunLines(cfg, next, rest))
  {
    assert ([line] + rest)[1..] == rest;
  }

  lemma {:induction false} RunConcat(cfg: Config, st: Parser, a: seq<string>, b: seq<string>)
    ensures RunLines(cfg, st, a + b) == Then(RunLines(cfg, st, a), RunLines(cfg, RunLines(cfg, st, a).after, b))
    decreases |a|
  {
    if a == [] {
      assert a + b == b;
    } else {
      assert a == [a[0]] + a[1..] && a + b == [a[0]] + (a[1..] + b);
      match Step(cfg, st, a[0])
      case Err(_) =>
      case Ok((event, next)) =>
        RunConcat(cfg, next, a[1..], b);
        RunFirst(cfg, st, a[0], a[1..]);
        RunFirst(cfg, st, a[0], a[1..] + b);
        var first := RunLines(cfg, next, a[1..]);
        YieldingThen(OptionSeq(event), first, RunLines(cfg, first.after, b));
    }
  }

  /** A blank line leaves nothing pending: only the count and the last sequence are carried over. */
  lemma BlankLineSettles(cfg: Config, st: Parser, a: seq<string>)
    requires a != [] && a[|a| - 1] == ""
    ensures var t := RunLines(cfg, st, a);
            t.error.None? ==> t.after == Idle(t.after.count, t.after.last)
  {
    assert a == a[..|a| - 1] + [""];
    RunConcat(cfg, st, a[..|a| - 1], [""]);
  }

  /** Reading a first part without error and then the rest from where it stands; a failure in the
      first part is the whole result. */
  lemma ParseAfter(cfg: Config, st: Parser, a: seq<string>, b: seq<string>)
    ensures var t := RunLines(cfg, st, a);
            ParseFrom(cfg, st, a + b) ==
              if t.error.Some? then Reading(t.events, t.error)
              else
                var rest := ParseFrom(cfg, t.after, b);
                Reading(t.events + rest.events, rest.error)
  {
    var t := RunLines(cfg, st, a);
    RunConcat(cfg, st, a, b);
    if t.error.None? {
      var u := RunLines(cfg, t.after, b);
      assert t.events + (u.events + AtEnd(cfg, u.after).events) == (t.events + u.events) + AtEnd(cfg, u.after).events;
    }
  }

  lemma ParseUpToBlank(cfg: Config, st: Parser, a: seq<string>)
    requires a != [] && a[|a| - 1] == ""
    ensures var t := RunLines(cfg, st, a);
            && ParseFrom(cfg, st, a) == Reading(t.events, t.error)
            && (t.error.None? ==> t.after == Idle(st.count + |t.events|, LastOf(st.last, t.events)))
  {
    BlankLineSettles(cfg, st, a);
    RunIsBounded(cfg, st, a);
  }

  /** Reading a concatenation is reading the first part and then, unless that failed, the second with
      nothing but the number of events and the last sequence carried over. */
  lemma ResumableAtBlankLine(cfg: Config, st: Parser, a: seq<string>, b: seq<string>)
    requires a != [] && a[|a| - 1] == ""
    ensures var first := ParseFrom(cfg, st, a);
            ParseFrom(cfg, st, a + b) ==
              if first.error.Some? then first
              else
                var second := ParseFrom(cfg, Idle(st.count + |first.events|, LastOf(st.last, first.events)), b);
                Reading(first.events + second.events, second.error)
  {
    ParseAfter(cfg, st, a, b);
    ParseUpToBlank(cfg, st, a);
  }

  // ---------- comment lines ----------

  lemma ParseStep(cfg: Config, st: Parser, lines: seq<string>)
    requires lines != [] && Step(cfg, st, lines[0]).Ok?
    ensures var (event, next) := Step(cfg, st, lines[0]).value;
            var rest := ParseFrom(cfg, next, lines[1..]);
            ParseFrom(cfg, st, lines) == Reading(OptionSeq(event) + rest.events, rest.error)
  {
    var (event, next) := Step(cfg, st, lines[0]).value;
    var run := RunLines(cfg, next, lines[1..]);
    assert OptionSeq(event) + (run.events + AtEnd(cfg, run.after).events)
        == (OptionSeq(event) + run.events) + AtEnd(cfg, run.after).events;
  }

  lemma CommentStep(cfg: Config, st: Parser, comment: string, b: seq<string>)
    requires IsComment(comment)
    ensures ParseFrom(cfg, st, [comment] + b) ==
              if st.bytes + LineBytes(comment) > MAX_SSE_EVENT_BYTES then Reading([], Some(StreamEventTooLarge))
              else ParseFrom(cfg, st.(bytes := st.bytes + LineBytes(comment)), b)
  {
    var lines := [comment] + b;
    assert lines[0] == comment && lines[1..] == b;
    if Step(cfg, st, comment).Ok? {
      ParseStep(cfg, st, lines);
      assert OptionSeq<AgentEvent>(None) == [];
    }
  }

  /** Bytes counted towards the event that is open after these lines. */
  function OpenBytes(lines: seq<string>): nat {
    if lines == [] || lines[|lines| - 1] == "" then 0
    else OpenBytes(lines[..|lines| - 1]) + LineBytes(lines[|lines| - 1])
  }

  /** Bytes these lines add to the event that is open before them. */
  function ClosingBytes(lines: seq<string>): nat {
    if lines == [] || lines[0] == "" then 0 else LineBytes(lines[0]) + ClosingBytes(lines[1..])
  }

  lemma {:induction false} BytesAfterRun(cfg: Config, lines: seq<string>)
    requires RunLines(cfg, FRESH, lines).error.None?
    ensures RunLines(cfg, FRESH, lines).after.bytes == OpenBytes(lines)
  {
    if lines != [] {
      var front, line := lines[..|lines| - 1], lines[|lines| - 1];
      assert lines == front + [line];
      RunConcat(cfg, FRESH, front, [line]);
      BytesAfterRun(cfg, front);
    }
  }

  /** Counting d more bytes towards the open event changes nothing, unless it makes the event too
      large before the blank line that closes it. */
  /** A line that is not blank and does not fail yields nothing, and the extra bytes stay. */
  lemma ExtraBytesStep(cfg: Config, st: Parser, d: nat, b: seq<string>) returns (next: Parser)
    requires b != [] && b[0] != "" && Step(cfg, st.(bytes := st.bytes + d), b[0]).Ok?
    ensures next.bytes == st.bytes + LineBytes(b[0]) && next.bytes + d <= MAX_SSE_EVENT_BYTES
    ensures ParseFrom(cfg, st, b) == ParseFrom(cfg, next, b[1..])
    ensures ParseFrom(cfg, st.(bytes := st.bytes + d), b) == ParseFrom(cfg, next.(bytes := next.bytes + d), b[1..])
  {
    var more := st.(bytes := st.bytes + d);
    next := Step(cfg, st, b[0]).value.1;
    assert Step(cfg, st, b[0]) == Ok((None, next)) && Step(cfg, more, b[0]) == Ok((None, next.(bytes := next.bytes + d)));
    ParseStep(cfg, more, b);
    ParseStep(cfg, st, b);
    NothingYielded(ParseFrom(cfg, next, b[1..]));
    NothingYielded(ParseFrom(cfg, next.(bytes := next.bytes + d), b[1..]));
  }

  lemma NothingYielded(r: Reading)
    ensures Reading(OptionSeq<AgentEvent>(None) + r.events, r.error) == r
  {
    assert OptionSeq<AgentEvent>(None) + r.events == r.events;
  }

  lemma {:induction false} ExtraBytes(cfg: Config, st: Parser, d: nat, b: seq<string>)
    requires st.bytes + d <= MAX_SSE_EVENT_BYTES
    ensures var plain, heavy := ParseFrom(cfg, st, b), ParseFrom(cfg, st.(bytes := st.bytes + d), b);
            || heavy == plain
            || (heavy == Reading([], Some(StreamEventTooLarge))
                && st.bytes + d + ClosingBytes(b) > MAX_SSE_EVENT_BYTES)
    decreases |b|
  {
    if b != [] && b[0] != "" {
      if Step(cfg, st.(bytes := st.bytes + d), b[0]).Ok? {
        var next := ExtraBytesStep(cfg, st, d, b);
        ExtraBytes(cfg, next, d, b[1..]);
      }
    } else {
      SameAtBlank(cfg, st, d, b);
    }
  }

  lemma SameAtBlank(cfg: Config, st: Parser, d: nat, b: seq<string>)
    requires st.bytes + d <= MAX_SSE_EVENT_BYTES
    requires b == [] || b[0] == ""
    ensures ParseFrom(cfg, st, b) == ParseFrom(cfg, st.(bytes := st.bytes + d), b)
  {
    assert Finish(cfg, st) == Finish(cfg, st.(bytes := st.bytes + d));
  }

  lemma CommentAt(cfg: Config, st: Parser, comment: string, b: seq<string>)
    requires IsComment(comment)
    ensures var plain, commented := ParseFrom(cfg, st, b), ParseFrom(cfg, st, [comment] + b);
            || commented == plain
            || (commented == Reading([], Some(StreamEventTooLarge))
                && st.bytes + LineBytes(comment) + ClosingBytes(b) > MAX_SSE_EVENT_BYTES)
  {
    CommentStep(cfg, st, comment, b);
    if st.bytes + LineBytes(comment) <= MAX_SSE_EVENT_BYTES {
      ExtraBytes(cfg, st, LineBytes(comment), b);
    }
  }

  /** Inserting a comment line anywhere leaves the events and the error as they were whenever the
      event it falls into stays within the byte bound; past the bound the reading may stop there,
      with the events before the comment. */
  lemma CommentInsertion(cfg: Config, a: seq<string>, comment: string, b: seq<string>)
    requires IsComment(comment)
    ensures var plain, commented := Parse(cfg, a + b), Parse(cfg, a + ([comment] + b));
            || commented == plain
            || (commented == Reading(RunLines(cfg, FRESH, a).events, Some(StreamEventTooLarge))
                && OpenBytes(a) + LineBytes(comment) + ClosingBytes(b) > MAX_SSE_EVENT_BYTES)
  {
    ParseAfter(cfg, FRESH, a, b);
    ParseAfter(cfg, FRESH, a, [comment] + b);
    var t := RunLines(cfg, FRESH, a);
    if t.error.None? {
      BytesAfterRun(cfg, a);
      CommentAt(cfg, t.after, comment, b);
      assert t.events + [] == t.events;
    }
  }

  // ---------- bounded bodies ----------

  function Joined(chunks: seq<seq<bv8>>): seq<bv8> {
    if chunks == [] then [] else Joined(chunks[..|chunks| - 1]) + chunks[|chunks| - 1]
  }

  lemma {:induction false} JoinedGrows(chunks: seq<seq<bv8>>, i: nat)
    requires i <= |chunks|
    ensures |Joined(chunks[..i])| <= |Joined(chunks)|
    decreases |chunks| - i
  {
    if i == |chunks| {
      assert chunks[..i] == chunks;
    } else {
      JoinedGrows(chunks, i + 1);
      assert chunks[..i + 1][..i] == chunks[..i];
    }
  }

  /** _read_bounded: the whole body, or nothing as soon as it exceeds the bound. */
  method ReadBounded(chunks: seq<seq<bv8>>, maxBytes: nat) returns (content: Option<seq<bv8>>)
    ensures content == if |Joined(chunks)| <= maxBytes then Some(Joined(chunks)) else None
  {
    var parts, total := [], 0;
    for i := 0 to |chunks|
      invariant parts == Joined(chunks[..i]) && total == |parts| <= maxBytes
    {
      assert chunks[..i + 1][..i] == chunks[..i];
      JoinedGrows(chunks, i + 1);
      total := total + |chunks[i]|;
      if total > maxBytes {
        return None;
      }
      parts := parts + chunks[i];
    }
    assert chunks[..|chunks|] == chunks;
    return Some(parts);
  }
}

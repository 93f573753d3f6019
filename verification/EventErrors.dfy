/** The error that ends a reading: which one it is, told from the frames alone. */
module EventErrors {
  import opened Text
  import opened EventStream
  import opened EventFrames

  /** The first line after which the bytes counted exceed the limit, or that has no colon. */
  function LineError(frame: seq<string>, bytes: nat): Option<StreamError> {
    if frame == [] then None
    else
      var counted := bytes + LineBytes(frame[0]);
      if counted > 262144 then Some(StreamEventTooLarge)
      else if ':' !in frame[0] then Some(StreamProtocolInvalid)
      else LineError(frame[1..], counted)
  }

  /** A frame that sets some of the three fields but not all, or data that is no event, or an event that its other
      fields contradict. */
  function FieldsError(cfg: Config, eventType: Option<string>, id: Option<string>, data: seq<string>): Option<StreamError> {
    if eventType == None && id == None && data == [] then None
    else if eventType == None || id == None || data == [] then Some(StreamProtocolInvalid)
    else
      match cfg.decode(JoinLines(data))
      case None => Some(PayloadInvalid)
      case Some(event) =>
        if Some(event.eventType) != eventType then Some(StreamProtocolInvalid)
        else if ParseInt(id.value) == None then Some(PayloadInvalid)
        else if ParseInt(id.value) != Some(event.sequence) then Some(StreamProtocolInvalid)
        else None
  }

  function FrameError(cfg: Config, frame: seq<string>): Option<StreamError> {
    if LineError(frame, 0).Some? then LineError(frame, 0)
    else FieldsError(cfg, LastValue(frame, "event"), LastValue(frame, "id"), AllValues(frame, "data"))
  }

  /** The first frame with an error of its own or, an event too many or out of order, outside the bounds. */
  function ErrorOf(cfg: Config, count: nat, last: int, frames: seq<seq<string>>): Option<StreamError>
    decreases |frames|
  {
    if frames == [] then None
    else if FrameError(cfg, frames[0]).Some? then FrameError(cfg, frames[0])
    else
      match AfterFrame(cfg, count, last, frames[0])
      case None => Some(StreamBoundsExceeded)
      case Some(next) => ErrorOf(cfg, next.count, next.last, frames[1..])
  }

  lemma {:induction false} PartitionFinds(line: string)
    ensures Partition(line).Some? <==> ':' in line
    decreases |line|
  {
    if line != "" && line[0] != ':' {
      PartitionFinds(line[1..]);
      assert line == [line[0]] + line[1..];
    }
  }

  lemma {:induction false} LineErrorIs(cfg: Config, st: Parser, frame: seq<string>)
    requires forall i | 0 <= i < |frame| :: frame[i] != ""
    requires st.bytes <= 262144
    ensures RunLines(cfg, st, frame).error == LineError(frame, st.bytes)
    decreases |frame|
  {
    if frame != [] {
      var line := frame[0];
      PartitionFinds(line);
      StepError(cfg, st, line);
      StepInFrame(cfg, st, line);
      if Step(cfg, st, line).Ok? {
        LineErrorIs(cfg, Step(cfg, st, line).value.1, frame[1..]);
      }
    }
  }

  lemma StepError(cfg: Config, st: Parser, line: string)
    requires line != "" && st.bytes <= 262144
    ensures Step(cfg, st, line).Err? ==>
              Step(cfg, st, line).error == if st.bytes + LineBytes(line) > 262144 then StreamEventTooLarge else StreamProtocolInvalid
  {
  }

  lemma FinishError(cfg: Config, st: Parser)
    requires st.bytes <= 262144
    ensures var e := FieldsError(cfg, st.pending.eventType, st.pending.eventId, st.pending.dataLines);
            if e.Some? then Finish(cfg, st) == Err(e.value) else Finish(cfg, st).Ok?
  {
  }

  /** What ends the reading of a frame, at its closing blank line or at the end of the input. */
  lemma FrameEnds(cfg: Config, count: nat, last: int, frame: seq<string>)
    requires forall i | 0 <= i < |frame| :: frame[i] != ""
    ensures var t, e := RunLines(cfg, Idle(count, last), frame), FrameError(cfg, frame);
            && t.error == LineError(frame, 0)
            && (t.error.None? ==> t.after.bytes <= 262144
                                  && if e.Some? then Finish(cfg, t.after) == Err(e.value) else Finish(cfg, t.after).Ok?)
  {
    var st := Idle(count, last);
    LineErrorIs(cfg, st, frame);
    RunFrame(cfg, st, frame);
    if RunLines(cfg, st, frame).error.None? {
      assert NOTHING.dataLines + AllValues(frame, "data") == AllValues(frame, "data");
      FinishError(cfg, RunLines(cfg, st, frame).after);
    }
  }

  lemma ErrorAtBlank(cfg: Config, count: nat, last: int, frame: seq<string>, rest: seq<string>)
    requires forall i | 0 <= i < |frame| :: frame[i] != ""
    ensures var r := ParseFrom(cfg, Idle(count, last), frame + ([""] + rest));
            if FrameError(cfg, frame).Some? then r.error == FrameError(cfg, frame)
            else AfterFrame(cfg, count, last, frame).None? ==> r.error == Some(StreamBoundsExceeded)
  {
    var st, lines := Idle(count, last), [""] + rest;
    FrameEnds(cfg, count, last, frame);
    BlankAfterFrame(cfg, count, last, frame);
    ParseAfter(cfg, st, frame, lines);
    assert lines[0] == "" && lines[1..] == rest;
  }

  lemma ErrorAtEnd(cfg: Config, count: nat, last: int, frame: seq<string>)
    requires forall i | 0 <= i < |frame| :: frame[i] != ""
    ensures ParseFrom(cfg, Idle(count, last), frame).error == ErrorOf(cfg, count, last, [frame])
  {
    FrameEnds(cfg, count, last, frame);
    RunWholeFrame(cfg, count, last, frame);
    assert [frame][1..] == [];
  }

  /** For every input, the error that ends the reading is that of the first frame with one. */
  lemma {:induction false} ErrorIs(cfg: Config, count: nat, last: int, lines: seq<string>)
    ensures ParseFrom(cfg, Idle(count, last), lines).error == ErrorOf(cfg, count, last, Frames(lines))
    decreases |lines|
  {
    var k := FirstBlank(lines);
    if k == |lines| {
      ErrorAtEnd(cfg, count, last, lines);
    } else {
      var frame, rest := lines[..k], lines[k + 1..];
      assert lines == frame + ([""] + rest);
      assert ([frame] + Frames(rest))[1..] == Frames(rest);
      ErrorAtBlank(cfg, count, last, frame, rest);
      NextFrame(cfg, count, last, frame, rest);
      FrameErrorRejects(cfg, frame);
      var next := AfterFrame(cfg, count, last, frame);
      if next.Some? {
        ErrorIs(cfg, next.value.count, next.value.last, rest);
      }
    }
  }

  lemma FrameErrorRejects(cfg: Config, frame: seq<string>)
    requires forall i | 0 <= i < |frame| :: frame[i] != ""
    ensures FrameError(cfg, frame).Some? <==> ReadFrame(cfg, frame).None?
  {
    FrameEnds(cfg, 0, 0, frame);
    RunWholeFrame(cfg, 0, 0, frame);
  }
}

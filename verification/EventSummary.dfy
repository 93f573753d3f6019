/** Counting the debug events of several outputs, by event and by group. */
module EventSummary {
  import opened Sequences
  import opened Text

  const GROUP_BY_NAME: map<string, string> := map[
    "candidate_context_stored" := "candidate_context", "candidate_context_skipped" := "candidate_context",
    "candidate_context_missed" := "candidate_context", "candidate_context_selected" := "candidate_context",
    "candidate_context_out_of_range" := "candidate_context", "candidate_context_cleared" := "candidate_context",
    "pending_action_confirmed" := "confirmation", "pending_action_cancelled" := "confirmation",
    "pending_action_failed" := "confirmation"
  ]

  datatype Record = Record(event: string, group: string)

  /** The three event lists of an output; an entry without a text name is None. */
  datatype Output = Output(
    candidates: seq<Option<string>>, handoff: seq<Option<string>>, confirmation: seq<Option<string>>
  )

  function GroupOf(name: string, fallback: string): string {
    if name in GROUP_BY_NAME then GROUP_BY_NAME[name] else fallback
  }

  function RecordsOf(raw: seq<Option<string>>, group: string): seq<Record> {
    if raw == [] then []
    else
      RecordsOf(raw[..|raw| - 1], group)
      + match raw[|raw| - 1]
        case None => []
        case Some(name) => [Record(name, GroupOf(name, group))]
  }

  function Events(output: Output): seq<Record> {
    RecordsOf(output.candidates, "candidate_context") + RecordsOf(output.handoff, "candidate_context")
    + RecordsOf(output.confirmation, "confirmation")
  }

  function AllEvents(outputs: seq<Output>): seq<Record> {
    if outputs == [] then [] else AllEvents(outputs[..|outputs| - 1]) + Events(outputs[|outputs| - 1])
  }

  function WithEvents(outputs: seq<Output>): nat {
    if outputs == [] then 0
    else WithEvents(outputs[..|outputs| - 1]) + if Events(outputs[|outputs| - 1]) != [] then 1 else 0
  }

  function Names(records: seq<Record>): seq<string> {
    seq(|records|, i requires 0 <= i < |records| => records[i].event)
  }

  function Groups(records: seq<Record>): seq<string> {
    seq(|records|, i requires 0 <= i < |records| => records[i].group)
  }

  // ---------- counters ----------

  type Counter = map<string, nat>

  function Bump(counter: Counter, key: string): Counter {
    counter[key := (if key in counter then counter[key] else 0) + 1]
  }

  /** The counter holds exactly the keys that occur, with the number of their occurrences. */
  predicate Counts(counter: Counter, keys: seq<string>) {
    counter.Keys == (set k | k in keys) && forall k | k in counter :: counter[k] == multiset(keys)[k]
  }

  ghost function SumOver(counter: Counter, keys: set<string>): nat
    requires keys <= counter.Keys
  {
    if keys == {} then 0
    else
      var k :| k in keys;
      counter[k] + SumOver(counter, keys - {k})
  }

  lemma {:induction false} SumTakesAny(counter: Counter, keys: set<string>, k: string)
    requires keys <= counter.Keys && k in keys
    ensures SumOver(counter, keys) == counter[k] + SumOver(counter, keys - {k})
    decreases keys
  {
    var first :| first in keys && SumOver(counter, keys) == counter[first] + SumOver(counter, keys - {first});
    if first != k {
      SumTakesAny(counter, keys - {first}, k);
      SumTakesAny(counter, keys - {k}, first);
      assert keys - {first} - {k} == keys - {k} - {first};
    }
  }

  lemma {:induction false} SumAgrees(a: Counter, b: Counter, keys: set<string>)
    requires keys <= a.Keys && keys <= b.Keys && forall k | k in keys :: a[k] == b[k]
    ensures SumOver(a, keys) == SumOver(b, keys)
    decreases keys
  {
    if keys != {} {
      var k :| k in keys;
      SumAgrees(a, b, keys - {k});
      SumTakesAny(a, keys, k);
      SumTakesAny(b, keys, k);
    }
  }

  lemma BumpSums(counter: Counter, key: string)
    ensures SumOver(Bump(counter, key), Bump(counter, key).Keys) == SumOver(counter, counter.Keys) + 1
  {
    var after := Bump(counter, key);
    SumTakesAny(after, after.Keys, key);
    if key in counter {
      assert after.Keys == counter.Keys;
      SumTakesAny(counter, counter.Keys, key);
      SumAgrees(after, counter, counter.Keys - {key});
    } else {
      assert after.Keys - {key} == counter.Keys;
      SumAgrees(after, counter, counter.Keys);
    }
  }

  // ---------- the summary ----------

  type Rates = map<string, real>

  datatype Summary = Summary(
    outputs: nat, outputsWithEvents: nat, outputEventRate: real, totalEvents: nat,
    eventCounts: Counter, groupCounts: Counter, eventRates: Rates, groupRates: Rates
  )

  function PerOutput(count: nat, outputs: nat): real {
    if outputs == 0 then 0.0 else count as real / outputs as real
  }

  function RatesOf(counter: Counter, outputs: nat): (rates: Rates)
    ensures rates.Keys == counter.Keys && forall k | k in rates :: rates[k] * outputs as real == if outputs == 0 then 0.0 else counter[k] as real
  {
    map k | k in counter :: PerOutput(counter[k], outputs)
  }

  method EventsFromContainer(raw: seq<Option<string>>, group: string) returns (records: seq<Record>)
    ensures records == RecordsOf(raw, group)
  {
    records := [];
    for i := 0 to |raw|
      invariant records == RecordsOf(raw[..i], group)
    {
      assert raw[..i + 1][..i] == raw[..i];
      if raw[i].Some? {
        records := records + [Record(raw[i].value, GroupOf(raw[i].value, group))];
      }
    }
    assert raw[..|raw|] == raw;
  }

  method ExtractDebugEvents(output: Output) returns (records: seq<Record>)
    ensures records == Events(output)
  {
    records := EventsFromContainer(output.candidates, "candidate_context");
    var more := EventsFromContainer(output.handoff, "candidate_context");
    records := records + more;
    more := EventsFromContainer(output.confirmation, "confirmation");
    records := records + more;
  }

  /** The sum of a counter's values. */
  method SumValues(counter: Counter) returns (sum: nat)
    ensures sum == SumOver(counter, counter.Keys)
  {
    sum := 0;
    var left := counter.Keys;
    while left != {}
      invariant left <= counter.Keys && sum + SumOver(counter, left) == SumOver(counter, counter.Keys)
      decreases left
    {
      var k :| k in left;
      SumTakesAny(counter, left, k);
      sum := sum + counter[k];
      left := left - {k};
    }
  }

  lemma TakeMore(records: seq<Record>, done: seq<Record>, i: nat)
    requires i < |records|
    ensures Names(done + records[..i + 1]) == Names(done + records[..i]) + [records[i].event]
    ensures Groups(done + records[..i + 1]) == Groups(done + records[..i]) + [records[i].group]
  {
  }

  /** The counters after the records of one output. */
  method CountRecords(events: Counter, groups: Counter, records: seq<Record>, ghost done: seq<Record>)
    returns (byEvent: Counter, byGroup: Counter)
    requires Counts(events, Names(done)) && Counts(groups, Groups(done))
    ensures Counts(byEvent, Names(done + records)) && Counts(byGroup, Groups(done + records))
  {
    byEvent, byGroup := events, groups;
    assert done + records[..0] == done;
    for i := 0 to |records|
      invariant Counts(byEvent, Names(done + records[..i])) && Counts(byGroup, Groups(done + records[..i]))
    {
      TakeMore(records, done, i);
      byEvent := Bump(byEvent, records[i].event);
      byGroup := Bump(byGroup, records[i].group);
    }
    assert records[..|records|] == records;
  }

  /** Counts every event by its name and by its group; the total is the sum of the event counts. */
  method SummarizeDebugEvents(outputs: seq<Output>) returns (s: Summary)
    ensures s.outputs == |outputs| && s.outputsWithEvents == WithEvents(outputs)
    ensures Counts(s.eventCounts, Names(AllEvents(outputs))) && Counts(s.groupCounts, Groups(AllEvents(outputs)))
    ensures s.totalEvents == SumOver(s.eventCounts, s.eventCounts.Keys)
    ensures s.outputEventRate == PerOutput(WithEvents(outputs), |outputs|)
    ensures s.eventRates == RatesOf(s.eventCounts, |outputs|) && s.groupRates == RatesOf(s.groupCounts, |outputs|)
  {
    var events: Counter, groups: Counter, withEvents := map[], map[], 0;
    for i := 0 to |outputs|
      invariant withEvents == WithEvents(outputs[..i])
      invariant Counts(events, Names(AllEvents(outputs[..i]))) && Counts(groups, Groups(AllEvents(outputs[..i])))
    {
      var records := ExtractDebugEvents(outputs[i]);
      if records != [] {
        withEvents := withEvents + 1;
      }
      events, groups := CountRecords(events, groups, records, AllEvents(outputs[..i]));
      assert outputs[..i + 1][..i] == outputs[..i];
    }
    assert outputs[..|outputs|] == outputs;
    var total := SumValues(events);
    s := Summary(|outputs|, withEvents, PerOutput(withEvents, |outputs|), total, events, groups,
                 RatesOf(events, |outputs|), RatesOf(groups, |outputs|));
  }

  // ---------- what the counts add up to ----------

  lemma {:induction false} CountsSumToLength(counter: Counter, keys: seq<string>)
    requires Counts(counter, keys)
    ensures SumOver(counter, counter.Keys) == |keys|
  {
    var built := BuildCounter(keys);
    assert built.Keys == counter.Keys;
    SumAgrees(counter, built, counter.Keys);
  }

  lemma {:induction false} BuildCounter(keys: seq<string>) returns (counter: Counter)
    ensures Counts(counter, keys) && SumOver(counter, counter.Keys) == |keys|
  {
    if keys == [] {
      counter := map[];
    } else {
      var n := |keys| - 1;
      var before := BuildCounter(keys[..n]);
      BumpSums(before, keys[n]);
      assert keys == keys[..n] + [keys[n]];
      counter := Bump(before, keys[n]);
    }
  }

  /** The sum of the event counts, the sum of the group counts and the number of events are the same. */
  lemma TotalsAgree(outputs: seq<Output>, byEvent: Counter, byGroup: Counter)
    requires Counts(byEvent, Names(AllEvents(outputs))) && Counts(byGroup, Groups(AllEvents(outputs)))
    ensures SumOver(byEvent, byEvent.Keys) == SumOver(byGroup, byGroup.Keys) == |AllEvents(outputs)|
  {
    CountsSumToLength(byEvent, Names(AllEvents(outputs)));
    CountsSumToLength(byGroup, Groups(AllEvents(outputs)));
  }

  lemma {:induction false} EventsConcat(a: seq<Output>, b: seq<Output>)
    ensures AllEvents(a + b) == AllEvents(a) + AllEvents(b)
  {
    if b == [] {
      ConcatNothing(a);
    } else {
      ConcatLast(a, b);
      EventsConcat(a, b[..|b| - 1]);
    }
  }

  lemma {:induction false} WithEventsConcat(a: seq<Output>, b: seq<Output>)
    ensures WithEvents(a + b) == WithEvents(a) + WithEvents(b)
  {
    if b == [] {
      ConcatNothing(a);
    } else {
      ConcatLast(a, b);
      WithEventsConcat(a, b[..|b| - 1]);
    }
  }

  function CountIn(counter: Counter, key: string): nat {
    if key in counter then counter[key] else 0
  }

  /** Summaries of two lists of outputs add up to the summary of both together. */
  lemma SummariesAddUp(a: seq<Output>, b: seq<Output>, ea: Counter, eb: Counter, eab: Counter, ga: Counter, gb: Counter, gab: Counter, key: string)
    requires Counts(ea, Names(AllEvents(a))) && Counts(eb, Names(AllEvents(b))) && Counts(eab, Names(AllEvents(a + b)))
    requires Counts(ga, Groups(AllEvents(a))) && Counts(gb, Groups(AllEvents(b))) && Counts(gab, Groups(AllEvents(a + b)))
    ensures CountIn(eab, key) == CountIn(ea, key) + CountIn(eb, key)
    ensures CountIn(gab, key) == CountIn(ga, key) + CountIn(gb, key)
    ensures WithEvents(a + b) == WithEvents(a) + WithEvents(b)
  {
    EventsConcat(a, b);
    WithEventsConcat(a, b);
    var x, y := AllEvents(a), AllEvents(b);
    assert Names(x + y) == Names(x) + Names(y) && Groups(x + y) == Groups(x) + Groups(y);
  }

  /** Every known event is counted under its own group, whichever list of the output it was in. */
  lemma {:induction false} KnownEventsKeepTheirGroup(raw: seq<Option<string>>, group: string)
    ensures forall r | r in RecordsOf(raw, group) :: r.event in GROUP_BY_NAME ==> r.group == GROUP_BY_NAME[r.event]
    ensures |RecordsOf(raw, group)| <= |raw|
  {
    if raw != [] {
      KnownEventsKeepTheirGroup(raw[..|raw| - 1], group);
    }
  }

  /** The share of outputs with events is at most one, and no output with events is without an event. */
  lemma {:induction false} OutputsWithEventsAreBounded(outputs: seq<Output>)
    ensures WithEvents(outputs) <= |outputs| && WithEvents(outputs) <= |AllEvents(outputs)|
    ensures WithEvents(outputs) == 0 <==> AllEvents(outputs) == []
  {
    if outputs != [] {
      OutputsWithEventsAreBounded(outputs[..|outputs| - 1]);
    }
  }

  lemma {:induction false} AllWithEvents(outputs: seq<Output>)
    ensures WithEvents(outputs) <= |outputs|
    ensures WithEvents(outputs) == |outputs| <==> forall i | 0 <= i < |outputs| :: Events(outputs[i]) != []
  {
    if outputs != [] {
      AllWithEvents(outputs[..|outputs| - 1]);
    }
  }

  /** The output event rate is a share of the outputs: one exactly when every output has events, and zero
      exactly when there is no event at all. */
  lemma OutputRateIsAShare(outputs: seq<Output>)
    ensures var rate := PerOutput(WithEvents(outputs), |outputs|);
            && 0.0 <= rate <= 1.0 && (rate == 0.0 <==> AllEvents(outputs) == [])
            && (outputs != [] ==> (rate == 1.0 <==> forall i | 0 <= i < |outputs| :: Events(outputs[i]) != []))
  {
    OutputsWithEventsAreBounded(outputs);
    AllWithEvents(outputs);
    var n := |outputs|;
    if n > 0 {
      ShareOrder(WithEvents(outputs), n);
    }
  }

  lemma ShareOrder(part: nat, whole: nat)
    requires 0 < whole && part <= whole
    ensures 0.0 <= part as real / whole as real <= 1.0
    ensures part as real / whole as real == 0.0 <==> part == 0
    ensures part as real / whole as real == 1.0 <==> part == whole
  {
    var share := part as real / whole as real;
    assert share * whole as real == part as real;
  }

  // ---------- the records, written out ----------

  function HasName(): Option<string> -> bool { (e: Option<string>) => e.Some? }

  /** The group of an event: candidate lists and confirmations have their own names, and any other event
      belongs to the list it was found in. */
  function GroupName(name: string, list: string): string {
    if name in {"candidate_context_stored", "candidate_context_skipped", "candidate_context_missed",
                "candidate_context_selected", "candidate_context_out_of_range", "candidate_context_cleared"}
    then "candidate_context"
    else if name in {"pending_action_confirmed", "pending_action_cancelled", "pending_action_failed"} then "confirmation"
    else list
  }

  lemma GroupIs(name: string, list: string)
    ensures GroupOf(name, list) == GroupName(name, list)
  {
  }

  function RecordIn(group: string -> string): Option<string> -> Record {
    (e: Option<string>) => Record(e.GetOr(""), group(e.GetOr("")))
  }

  lemma {:induction false} RecordsAre(raw: seq<Option<string>>, list: string, group: string -> string)
    requires forall name :: GroupOf(name, list) == group(name)
    ensures RecordsOf(raw, list) == Map(Filter(raw, HasName()), RecordIn(group))
    decreases |raw|
  {
    if raw != [] {
      var front, last := raw[..|raw| - 1], raw[|raw| - 1];
      assert raw == front + [last];
      RecordsAre(front, list, group);
      RecordsAppend(front, last, group);
      LastRecord(raw, list, group);
    }
  }

  lemma LastRecord(raw: seq<Option<string>>, list: string, group: string -> string)
    requires raw != [] && forall name :: GroupOf(name, list) == group(name)
    ensures var last := raw[|raw| - 1];
            RecordsOf(raw, list)
            == RecordsOf(raw[..|raw| - 1], list) + if last.Some? then [Record(last.value, group(last.value))] else []
  {
  }

  lemma RecordsAppend(front: seq<Option<string>>, last: Option<string>, group: string -> string)
    ensures Map(Filter(front + [last], HasName()), RecordIn(group))
         == Map(Filter(front, HasName()), RecordIn(group)) + if last.Some? then [Record(last.value, group(last.value))] else []
  {
    FilterAppend(front, last, HasName());
    MapConcat(Filter(front, HasName()), if last.Some? then [last] else [], RecordIn(group));
    MapOne(last, RecordIn(group));
  }

  function GroupIn(list: string): Option<string> -> Record {
    RecordIn((name: string) => GroupName(name, list))
  }

  lemma ListRecordsAre(raw: seq<Option<string>>, list: string)
    ensures RecordsOf(raw, list) == Map(Filter(raw, HasName()), GroupIn(list))
  {
    var group := (name: string) => GroupName(name, list);
    forall name ensures GroupOf(name, list) == group(name) {
      GroupIs(name, list);
    }
    RecordsAre(raw, list, group);
  }

  /** The records of an output are its named events, those of the candidate list, of the handoff and of the
      confirmation in this order. */
  lemma EventsAre(output: Output)
    ensures Events(output) == Map(Filter(output.candidates, HasName()), GroupIn("candidate_context"))
                              + Map(Filter(output.handoff, HasName()), GroupIn("candidate_context"))
                              + Map(Filter(output.confirmation, HasName()), GroupIn("confirmation"))
  {
    ListRecordsAre(output.candidates, "candidate_context");
    ListRecordsAre(output.handoff, "candidate_context");
    ListRecordsAre(output.confirmation, "confirmation");
  }
}

/**
 One completion run with the events channel: the streaming runner
 (AgentRunner.run_stream and _terminal_event_items in app/inference/agent_runner.py), and
 the two command paths that wire it to a collector
 (app/commands/completions/create_completion_command.py).

 The agent is adversarial.  A run is a list of actions, either tools recording a batch of
 events or the runner receiving one agent event, and an ending: the agent completes, fails,
 or is cancelled while the runner awaits its next event.  Independently the consumer may
 leave at any yield, which closes the generator there.  Records made while the runner is
 suspended at a yield are seen by its next poll, so they are actions between two received
 events.  The reference is Timeline: what happened, in the order it happened.
 */
module AgentStream {
  import opened Wrappers
  import opened EventCollector

  /** Only the start and the deltas of text parts carry text; every other event is Other. */
  datatype AgentEvent = TextPartStart(content: string) | TextPartDelta(contentDelta: string) | Other

  datatype Action = ToolRecords(batch: seq<Payload>) | Receive(event: AgentEvent)

  datatype Ending = Completed | Failed | Cancelled

  datatype Item = Text(text: string) | StreamedEvent(payload: Payload) | StreamedTruncation(droppedCount: nat)

  /** The text an agent event contributes: empty contributions are not yielded. */
  function TextItems(event: AgentEvent): seq<Item> {
    match event
    case TextPartStart(content) => if content != "" then [Text(content)] else []
    case TextPartDelta(delta) => if delta != "" then [Text(delta)] else []
    case Other => []
  }

  function EventItems(events: seq<Payload>): (items: seq<Item>)
    ensures |items| == |events|
    ensures forall i :: 0 <= i < |events| ==> items[i] == StreamedEvent(events[i])
  {
    seq(|events|, i requires 0 <= i < |events| => StreamedEvent(events[i]))
  }

  function BatchOf(action: Action): seq<Payload> {
    if action.ToolRecords? then action.batch else []
  }

  function TextOf(action: Action): seq<Item> {
    if action.Receive? then TextItems(action.event) else []
  }

  /** Everything the tools record over the actions, in order. */
  function Recorded(actions: seq<Action>): seq<Payload> {
    if actions == [] then [] else BatchOf(actions[0]) + Recorded(actions[1..])
  }

  /** The events that recording batch after history newly retains. */
  function NewlyRetained(history: seq<Payload>, batch: seq<Payload>, limits: Limits): seq<Payload> {
    var before, after := Retained(history, limits), Retained(history + batch, limits);
    if |before| <= |after| then after[|before|..] else []
  }

  /** What one action adds to the stream: the newly retained events, then the text. */
  function ItemsOf(history: seq<Payload>, action: Action, limits: Limits): seq<Item> {
    EventItems(NewlyRetained(history, BatchOf(action), limits)) + TextOf(action)
  }

  /** The execution after a history of records, in order. */
  function TimelineFrom(history: seq<Payload>, actions: seq<Action>, limits: Limits): seq<Item>
    decreases |actions|
  {
    if actions == [] then []
    else ItemsOf(history, actions[0], limits) + TimelineFrom(history + BatchOf(actions[0]), actions[1..], limits)
  }

  /** The execution in order: each retained event when it was recorded, each text when it was received. */
  function Timeline(actions: seq<Action>, limits: Limits): seq<Item> {
    TimelineFrom([], actions, limits)
  }

  function MarkerItems(marker: Option<nat>): seq<Item> {
    match marker
    case None => []
    case Some(n) => [StreamedTruncation(n)]
  }

  /** The stream of a run that ends normally or fails. */
  function Finished(actions: seq<Action>, limits: Limits): seq<Item> {
    Timeline(actions, limits) + MarkerItems(Marker(Recorded(actions), limits))
  }

  /** The text alone, which is all a run without the channel streams. */
  function TextLine(actions: seq<Action>): seq<Item> {
    if actions == [] then []
    else TextOf(actions[0]) + TextLine(actions[1..])
  }

  /** The actions up to the last received event: what is recorded later is never polled. */
  function Heard(actions: seq<Action>): (heard: seq<Action>)
    ensures heard <= actions
    ensures forall i :: |heard| <= i < |actions| ==> actions[i].ToolRecords?
    ensures heard != [] ==> heard[|heard| - 1].Receive?
  {
    if actions == [] then []
    else
      var rest := Heard(actions[1..]);
      if rest != [] || actions[0].Receive? then [actions[0]] + rest else []
  }

  /** All a run has to yield; limits are those of the collector, or None without the channel. */
  function Stream(actions: seq<Action>, ending: Ending, limits: Option<Limits>): seq<Item> {
    if limits.None? then TextLine(actions)
    else if ending == Cancelled then Timeline(Heard(actions), limits.value)
    else Finished(actions, limits.value)
  }

  /** What of a stream a consumer is given that leaves at its given yield, if it gets there. */
  function Upto(items: seq<Item>, leaves: Option<nat>): seq<Item> {
    if leaves.Some? && leaves.value <= |items| then items[..leaves.value] else items
  }

  function LimitsOf(collector: CompletionEventCollector?): Option<Limits> {
    if collector == null then None else Some(collector.limits)
  }

  lemma {:induction false} RecordedConcat(a: seq<Action>, b: seq<Action>)
    ensures Recorded(a + b) == Recorded(a) + Recorded(b)
  {
    if a == [] {
      assert a + b == b;
    } else {
      assert (a + b)[1..] == a[1..] + b;
      RecordedConcat(a[1..], b);
    }
  }

  lemma {:induction false} TextLineConcat(a: seq<Action>, b: seq<Action>)
    ensures TextLine(a + b) == TextLine(a) + TextLine(b)
  {
    if a == [] {
      assert a + b == b;
    } else {
      assert (a + b)[1..] == a[1..] + b;
      TextLineConcat(a[1..], b);
    }
  }

  lemma Associate<T>(a: seq<T>, b: seq<T>, c: seq<T>)
    ensures (a + b) + c == a + (b + c)
  {
  }

  lemma {:induction false} TimelineConcat(history: seq<Payload>, a: seq<Action>, b: seq<Action>, limits: Limits)
    ensures TimelineFrom(history, a + b, limits)
            == TimelineFrom(history, a, limits) + TimelineFrom(history + Recorded(a), b, limits)
    decreases |a|
  {
    if a == [] {
      assert a + b == b;
      assert history + [] == history;
    } else {
      var next := history + BatchOf(a[0]);
      assert (a + b)[0] == a[0] && (a + b)[1..] == a[1..] + b;
      TimelineConcat(next, a[1..], b, limits);
      Associate(history, BatchOf(a[0]), Recorded(a[1..]));
      Associate(ItemsOf(history, a[0], limits), TimelineFrom(next, a[1..], limits),
                TimelineFrom(history + Recorded(a), b, limits));
    }
  }

  lemma SingleAction(history: seq<Payload>, action: Action, limits: Limits)
    ensures Recorded([action]) == BatchOf(action)
    ensures TextLine([action]) == TextOf(action)
    ensures TimelineFrom(history, [action], limits) == ItemsOf(history, action, limits)
  {
  }

  lemma Unfold(done: seq<Action>, action: Action, limits: Limits)
    ensures Recorded(done + [action]) == Recorded(done) + BatchOf(action)
    ensures Timeline(done + [action], limits) == Timeline(done, limits) + ItemsOf(Recorded(done), action, limits)
    ensures TextLine(done + [action]) == TextLine(done) + TextOf(action)
  {
    assert [] + Recorded(done) == Recorded(done);
    RecordedConcat(done, [action]);
    TextLineConcat(done, [action]);
    TimelineConcat([], done, [action], limits);
    SingleAction(Recorded(done), action, limits);
  }

  // ---------------------------------------------------------------- the runner

  /** Final events first, then the marker: the list is complete before anything of it is yielded. */
  method TerminalEventItems(collector: CompletionEventCollector?) returns (items: seq<Item>)
    requires collector != null ==> collector.Valid()
    modifies if collector != null then {collector} else {}
    ensures collector == null ==> items == []
    ensures collector != null ==>
              && collector.Valid()
              && collector.recorded == old(collector.recorded)
              && items == EventItems(old(collector.events[collector.drained..]))
                          + MarkerItems(Marker(collector.recorded, collector.limits))
  {
    items := [];
    if collector != null {
      var pending := collector.Drain();
      assert pending == old(collector.events[collector.drained..]);
      items := items + EventItems(pending);
      var marker := collector.Truncation();
      if marker.Some? {
        items := items + [StreamedTruncation(marker.value)];
      }
    }
  }

  /** What was yielded so far is the stream so far, and with what is still pending it is the timeline so far. */
  ghost predicate Following(limits: Option<Limits>, done: seq<Action>, pending: seq<Payload>, items: seq<Item>) {
    && items == Stream(done, Cancelled, limits)
    && (if limits.None? then pending == [] else items + EventItems(pending) == Timeline(done, limits.value))
  }

  ghost function Pending(collector: CompletionEventCollector?): seq<Payload>
    requires collector != null ==> collector.Valid()
    reads if collector != null then {collector} else {}
  {
    if collector == null then [] else collector.events[collector.drained..]
  }

  ghost predicate InStep(collector: CompletionEventCollector?, done: seq<Action>, items: seq<Item>)
    reads if collector != null then {collector} else {}
  {
    && (collector != null ==> collector.Valid() && collector.recorded == Recorded(done))
    && Following(LimitsOf(collector), done, Pending(collector), items)
  }

  lemma StartFollows(limits: Option<Limits>)
    ensures Following(limits, [], [], [])
  {
  }

  lemma RecordFollows(
      limits: Option<Limits>, done: seq<Action>, batch: seq<Payload>, drained: nat, items: seq<Item>)
    requires limits.Some? ==> drained <= |Retained(Recorded(done), limits.value)|
    requires var before := if limits.Some? then Retained(Recorded(done), limits.value)[drained..] else [];
             Following(limits, done, before, items)
    ensures Recorded(done + [ToolRecords(batch)]) == Recorded(done) + batch
    ensures limits.Some? ==> drained <= |Retained(Recorded(done) + batch, limits.value)|
    ensures var after := if limits.Some? then Retained(Recorded(done) + batch, limits.value)[drained..] else [];
            Following(limits, done + [ToolRecords(batch)], after, items)
  {
    var action := ToolRecords(batch);
    HeardLast(done, action);
    if limits.Some? {
      Unfold(done, action, limits.value);
      PendingGrows(Recorded(done), batch, limits.value, drained, items);
    } else {
      Unfold(done, action, Limits(0, 0));
    }
  }

  lemma ReceiveFollows(
      limits: Option<Limits>, done: seq<Action>, event: AgentEvent, pending: seq<Payload>, items: seq<Item>)
    requires Following(limits, done, pending, items)
    ensures Recorded(done + [Receive(event)]) == Recorded(done)
    ensures Following(limits, done + [Receive(event)], [], items + EventItems(pending) + TextItems(event))
  {
    var action := Receive(event);
    HeardLast(done, action);
    if limits.Some? {
      var longer := items + EventItems(pending) + TextItems(event);
      Unfold(done, action, limits.value);
      ReceiveAdds(Recorded(done), event, limits.value);
      assert EventItems([]) == [] && longer + [] == longer;
    } else {
      Unfold(done, action, Limits(0, 0));
    }
  }

  lemma ReceiveAdds(history: seq<Payload>, event: AgentEvent, limits: Limits)
    ensures ItemsOf(history, Receive(event), limits) == TextItems(event)
    ensures history + BatchOf(Receive(event)) == history
  {
    assert history + [] == history;
  }

  /** The terminal items complete the stream of a run that ends normally or fails. */
  lemma TerminalCompletes(
      limits: Option<Limits>, actions: seq<Action>, ending: Ending, pending: seq<Payload>, items: seq<Item>)
    requires Following(limits, actions, pending, items) && ending != Cancelled
    ensures Stream(actions, ending, limits)
            == items + if limits.None? then []
                       else EventItems(pending) + MarkerItems(Marker(Recorded(actions), limits.value))
  {
    if limits.None? {
      assert items + [] == items;
    } else {
      Associate(items, EventItems(pending), MarkerItems(Marker(Recorded(actions), limits.value)));
    }
  }

  /** The consumer is still there: it has not yet been given the item at which it leaves. */
  predicate Open(items: seq<Item>, leaves: Option<nat>) {
    leaves.Some? ==> |items| < leaves.value
  }

  lemma UptoCloses(items: seq<Item>, all: seq<Item>, leaves: Option<nat>)
    requires items <= all
    ensures Open(items, leaves) ==> Upto(items, leaves) == items
    ensures !Open(items, leaves) ==> Upto(all, leaves) == Upto(items, leaves) && !Open(all, leaves)
  {
  }

  lemma HeardLast(done: seq<Action>, action: Action)
    ensures Heard(done + [action]) == if action.Receive? then done + [action] else Heard(done)
  {
    var all, heard, before := done + [action], Heard(done + [action]), Heard(done);
    assert all[|done|] == action;
    assert heard == all[..|heard|];
    if !action.Receive? {
      assert heard != [] ==> all[|heard| - 1].Receive?;
      assert before != [] ==> all[|before| - 1] == before[|before| - 1];
      assert |heard| == |before|;
    }
  }

  lemma TimelineGrows(actions: seq<Action>, more: seq<Action>, limits: Limits)
    ensures Timeline(actions, limits) <= Timeline(actions + more, limits)
  {
    TimelineConcat([], actions, more, limits);
  }

  lemma Suffix<T>(prefix: seq<T>, all: seq<T>) returns (rest: seq<T>)
    requires prefix <= all
    ensures prefix + rest == all
  {
    rest := all[|prefix|..];
  }

  lemma TakeEnds<T>(all: seq<T>)
    ensures all[..0] == [] && all[..|all|] == all
  {
  }

  lemma TakeNext<T>(all: seq<T>, i: nat)
    requires i < |all|
    ensures all[..i + 1] == all[..i] + [all[i]]
  {
  }

  lemma SplitAt<T>(all: seq<T>, i: nat) returns (rest: seq<T>)
    requires i < |all|
    ensures all[..i] + [all[i]] + rest == all
  {
    rest := all[i + 1..];
  }

  lemma TimelineMonotone(actions: seq<Action>, all: seq<Action>, limits: Limits)
    requires actions <= all
    ensures Timeline(actions, limits) <= Timeline(all, limits)
  {
    var more := Suffix(actions, all);
    TimelineGrows(actions, more, limits);
  }

  /** What was polled is a prefix of the timeline. */
  lemma HeardTimeline(actions: seq<Action>, limits: Limits)
    ensures Timeline(Heard(actions), limits) <= Timeline(actions, limits)
  {
    TimelineMonotone(Heard(actions), actions, limits);
  }

  lemma HeardGrows(before: seq<Action>, after: seq<Action>)
    ensures Heard(before) <= Heard(before + after)
  {
    var all, heard := before + after, Heard(before);
    if heard != [] {
      assert all[|heard| - 1] == heard[|heard| - 1];
    }
  }

  /** What was polled after some actions is a prefix of the whole stream, however the run ends. */
  lemma StreamGrows(before: seq<Action>, after: seq<Action>, ending: Ending, limits: Option<Limits>)
    ensures Stream(before, Cancelled, limits) <= Stream(before + after, ending, limits)
  {
    TextLineConcat(before, after);
    if limits.Some? {
      HeardGrows(before, after);
      TimelineMonotone(Heard(before), Heard(before + after), limits.value);
      HeardTimeline(before + after, limits.value);
    }
  }

  /** A consumer that left during the first actions was given all it would be given of the run. */
  lemma ClosedAfter(
      before: seq<Action>, after: seq<Action>, ending: Ending, leaves: Option<nat>, limits: Option<Limits>)
    requires !Open(Stream(before, Cancelled, limits), leaves)
    ensures Upto(Stream(before, Cancelled, limits), leaves) == Upto(Stream(before + after, ending, limits), leaves)
    ensures !Open(Stream(before + after, ending, limits), leaves)
    ensures Recorded(before) <= Recorded(before + after)
  {
    RecordedConcat(before, after);
    StreamGrows(before, after, ending, limits);
    UptoCloses(Stream(before, Cancelled, limits), Stream(before + after, ending, limits), leaves);
  }

  lemma ClosedDuring(actions: seq<Action>, i: nat, ending: Ending, leaves: Option<nat>, limits: Option<Limits>)
    requires i < |actions| && !Open(Stream(actions[..i] + [actions[i]], Cancelled, limits), leaves)
    ensures Upto(Stream(actions[..i] + [actions[i]], Cancelled, limits), leaves)
            == Upto(Stream(actions, ending, limits), leaves)
    ensures !Open(Stream(actions, ending, limits), leaves)
    ensures Recorded(actions[..i] + [actions[i]]) <= Recorded(actions)
  {
    var rest := SplitAt(actions, i);
    ClosedAfter(actions[..i] + [actions[i]], rest, ending, leaves, limits);
  }

  /** Yielding one by one, until the consumer closes the generator at a yield. */
  method Deliver(items: seq<Item>, next: seq<Item>, leaves: Option<nat>) returns (longer: seq<Item>, closed: bool)
    requires Open(items, leaves)
    ensures longer == Upto(items + next, leaves)
    ensures closed <==> !Open(items + next, leaves)
  {
    longer, closed := items, false;
    for k := 0 to |next|
      invariant longer == items + next[..k] && Open(longer, leaves)
    {
      longer := longer + [next[k]];
      assert longer == items + next[..k + 1];
      if leaves == Some(|longer|) {
        assert longer == (items + next)[..|longer|];
        return longer, true;
      }
    }
    assert next[..|next|] == next;
  }

  /**
   The generator, with a consumer that leaves at its given yield, if any: it is given the
   stream of the run up to there.  The error of a failed run is raised unless the consumer
   has left.  Closing at a yield of a drained batch loses the rest of that batch.
   */
  method RunStream(actions: seq<Action>, ending: Ending, leaves: Option<nat>, collector: CompletionEventCollector?)
    returns (items: seq<Item>, raised: bool)
    requires collector != null ==> collector.Valid() && collector.recorded == []
    modifies if collector != null then {collector} else {}
    ensures items == Upto(Stream(actions, ending, LimitsOf(collector)), leaves)
    ensures raised <==> ending == Failed && Open(Stream(actions, ending, LimitsOf(collector)), leaves)
    ensures collector != null ==> collector.Valid() && collector.recorded <= Recorded(actions)
    ensures TextsIn(items) <= Spoken(actions) && (leaves.None? ==> TextsIn(items) == Spoken(actions))
    ensures collector != null && leaves.None? && ending != Cancelled ==>
              && EventsIn(items) == Retained(Recorded(actions), collector.limits)
              && MarkersIn(items) == SuppressedCount(Recorded(actions), collector.limits)
  {
    items, raised := [], false;
    StreamTells(actions, ending, LimitsOf(collector), leaves);
    if leaves == Some(0) {
      return;
    }
    var closed;
    items, closed := FollowAgent(actions, ending, leaves, collector);
    if closed || ending == Cancelled {
      return;
    }
    items, closed := YieldTerminal(actions, ending, items, leaves, collector);
    raised := ending == Failed && !closed;
  }

  /** The loop over agent events: it ends with the last of them, or when the consumer leaves. */
  method FollowAgent(
      actions: seq<Action>, ghost ending: Ending, leaves: Option<nat>, collector: CompletionEventCollector?)
    returns (items: seq<Item>, closed: bool)
    requires collector != null ==> collector.Valid() && collector.recorded == []
    requires leaves != Some(0)
    modifies if collector != null then {collector} else {}
    ensures closed ==> Given(collector, actions, ending, leaves, items, closed)
    ensures !closed ==> InStep(collector, actions, items) && Open(items, leaves)
  {
    items, closed := [], false;
    TakeEnds(actions);
    StartFollows(LimitsOf(collector));
    for i := 0 to |actions|
      invariant InStep(collector, actions[..i], items) && Open(items, leaves) && !closed
    {
      items, closed := RunStep(actions, i, ending, items, leaves, collector);
      if closed {
        return;
      }
    }
  }

  method YieldTerminal(
      ghost actions: seq<Action>, ghost ending: Ending, items: seq<Item>, leaves: Option<nat>,
      collector: CompletionEventCollector?)
    returns (longer: seq<Item>, closed: bool)
    requires InStep(collector, actions, items) && ending != Cancelled
    requires Open(items, leaves)
    modifies if collector != null then {collector} else {}
    ensures Given(collector, actions, ending, leaves, longer, closed)
  {
    TerminalCompletes(LimitsOf(collector), actions, ending, Pending(collector), items);
    var last := TerminalEventItems(collector);
    longer, closed := Deliver(items, last, leaves);
  }

  /** What a consumer is told by what it is given. */
  lemma StreamTells(actions: seq<Action>, ending: Ending, limits: Option<Limits>, leaves: Option<nat>)
    ensures var items := Upto(Stream(actions, ending, limits), leaves);
            && TextsIn(items) <= Spoken(actions)
            && (leaves.None? ==> TextsIn(items) == Spoken(actions))
            && (limits.Some? && leaves.None? && ending != Cancelled ==>
                  && EventsIn(items) == Retained(Recorded(actions), limits.value)
                  && MarkersIn(items) == SuppressedCount(Recorded(actions), limits.value))
  {
    UptoSpeaks(actions, ending, limits, leaves);
    if limits.Some? {
      StreamMatchesBody(actions, limits.value);
    }
  }

  /** The consumer was given what it is to be given of the whole run, and has left if that is not all. */
  ghost predicate Given(
      collector: CompletionEventCollector?, actions: seq<Action>, ending: Ending, leaves: Option<nat>,
      items: seq<Item>, closed: bool)
    reads if collector != null then {collector} else {}
  {
    var stream := Stream(actions, ending, LimitsOf(collector));
    && items == Upto(stream, leaves)
    && (closed <==> !Open(stream, leaves))
    && (collector != null ==> collector.Valid() && collector.recorded <= Recorded(actions))
  }

  /** One turn of the runner's loop: after it the runner goes on, or the consumer has left. */
  method RunStep(
      actions: seq<Action>, i: nat, ghost ending: Ending, items: seq<Item>, leaves: Option<nat>,
      collector: CompletionEventCollector?)
    returns (longer: seq<Item>, closed: bool)
    requires i < |actions| && InStep(collector, actions[..i], items) && Open(items, leaves)
    modifies if collector != null then {collector} else {}
    ensures closed ==> Given(collector, actions, ending, leaves, longer, closed)
    ensures !closed ==> InStep(collector, actions[..i + 1], longer) && Open(longer, leaves)
  {
    longer, closed := TakeAction(actions[..i], actions[i], items, leaves, collector);
    if closed {
      ClosedDuring(actions, i, ending, leaves, LimitsOf(collector));
    } else {
      TakeNext(actions, i);
    }
  }

  /** Tools may record, or an agent event is received, the collector polled, and both yielded. */
  method TakeAction(
      ghost done: seq<Action>, action: Action, items: seq<Item>, leaves: Option<nat>,
      collector: CompletionEventCollector?)
    returns (longer: seq<Item>, closed: bool)
    requires InStep(collector, done, items) && Open(items, leaves)
    modifies if collector != null then {collector} else {}
    ensures longer == Upto(Stream(done + [action], Cancelled, LimitsOf(collector)), leaves)
    ensures closed <==> !Open(Stream(done + [action], Cancelled, LimitsOf(collector)), leaves)
    ensures collector != null ==> collector.Valid() && collector.recorded == Recorded(done + [action])
    ensures !closed ==> InStep(collector, done + [action], longer)
  {
    longer, closed := items, false;
    match action {
      case ToolRecords(batch) =>
        RecordFollows(LimitsOf(collector), done, batch, if collector == null then 0 else collector.drained, items);
        if collector != null {
          collector.Record(batch);
        }
      case Receive(event) =>
        ghost var polled := items + EventItems(Pending(collector));
        ReceiveFollows(LimitsOf(collector), done, event, Pending(collector), items);
        UptoCloses(polled, polled + TextItems(event), leaves);
        if collector != null {
          var pending := collector.Drain();
          longer, closed := Deliver(items, EventItems(pending), leaves);
        }
        if !closed {
          longer, closed := Deliver(longer, TextItems(event), leaves);
        }
    }
  }

  /** Recording a batch extends what is pending by exactly the newly retained events. */
  lemma PendingGrows(history: seq<Payload>, batch: seq<Payload>, limits: Limits, drained: nat, items: seq<Item>)
    requires drained <= |Retained(history, limits)|
    ensures var before, after := Retained(history, limits), Retained(history + batch, limits);
            && drained <= |after|
            && items + EventItems(after[drained..])
               == items + EventItems(before[drained..]) + EventItems(NewlyRetained(history, batch, limits))
  {
    RetainedGrows(history, batch, limits);
    var before, after := Retained(history, limits), Retained(history + batch, limits);
    assert after[drained..] == before[drained..] + after[|before|..];
  }

  // ---------------------------------------------------------------- the command paths

  /** What a non-streaming caller is given, in the response body or with the error. */
  datatype Extensions = Extensions(events: seq<Payload>, truncations: seq<nat>)

  datatype Outcome = Responded(body: Option<Extensions>) | CompletionRunError(extensions: Extensions) | RunError

  /** CreateCompletionCommand.execute around the agent run: the same recordings, read once at the end. */
  method Execute(actions: seq<Action>, fails: bool, collector: CompletionEventCollector?) returns (outcome: Outcome)
    requires collector != null ==> collector.Valid() && collector.recorded == []
    modifies if collector != null then {collector} else {}
    ensures collector == null ==> outcome == if fails then RunError else Responded(None)
    ensures collector != null ==>
              var extensions := NonStreaming(actions, collector.limits);
              outcome == if fails then CompletionRunError(extensions) else Responded(Some(extensions))
  {
    for i := 0 to |actions|
      invariant collector != null ==> collector.Valid() && collector.recorded == Recorded(actions[..i])
    {
      Unfold(actions[..i], actions[i], Limits(0, 0));
      TakeNext(actions, i);
      match actions[i] {
        case ToolRecords(batch) =>
          if collector != null {
            collector.Record(batch);
          }
        case Receive(_) =>
      }
    }
    assert actions[..|actions|] == actions;
    if collector == null {
      return if fails then RunError else Responded(None);
    }
    var events := collector.Events();
    var truncations := collector.Truncations();
    var extensions := Extensions(events, truncations);
    return if fails then CompletionRunError(extensions) else Responded(Some(extensions));
  }

  function NonStreaming(actions: seq<Action>, limits: Limits): Extensions {
    Extensions(Retained(Recorded(actions), limits),
               Droppings(Marker(Recorded(actions), limits)))
  }

  // ---------------------------------------------------------------- what a stream carries

  function EventsIn(items: seq<Item>): seq<Payload> {
    if items == [] then []
    else (if items[0].StreamedEvent? then [items[0].payload] else []) + EventsIn(items[1..])
  }

  function TextsIn(items: seq<Item>): seq<string> {
    if items == [] then []
    else (if items[0].Text? then [items[0].text] else []) + TextsIn(items[1..])
  }

  function MarkersIn(items: seq<Item>): seq<nat> {
    if items == [] then []
    else (if items[0].StreamedTruncation? then [items[0].droppedCount] else []) + MarkersIn(items[1..])
  }

  lemma {:induction false} EventsInConcat(a: seq<Item>, b: seq<Item>)
    ensures EventsIn(a + b) == EventsIn(a) + EventsIn(b)
  {
    if a == [] {
      assert a + b == b;
    } else {
      assert (a + b)[0] == a[0] && (a + b)[1..] == a[1..] + b;
      EventsInConcat(a[1..], b);
    }
  }

  lemma {:induction false} TextsInConcat(a: seq<Item>, b: seq<Item>)
    ensures TextsIn(a + b) == TextsIn(a) + TextsIn(b)
  {
    if a == [] {
      assert a + b == b;
    } else {
      assert (a + b)[0] == a[0] && (a + b)[1..] == a[1..] + b;
      TextsInConcat(a[1..], b);
    }
  }

  lemma {:induction false} MarkersInConcat(a: seq<Item>, b: seq<Item>)
    ensures MarkersIn(a + b) == MarkersIn(a) + MarkersIn(b)
  {
    if a == [] {
      assert a + b == b;
    } else {
      assert (a + b)[0] == a[0] && (a + b)[1..] == a[1..] + b;
      MarkersInConcat(a[1..], b);
    }
  }

  lemma InConcat(a: seq<Item>, b: seq<Item>)
    ensures EventsIn(a + b) == EventsIn(a) + EventsIn(b)
    ensures TextsIn(a + b) == TextsIn(a) + TextsIn(b)
    ensures MarkersIn(a + b) == MarkersIn(a) + MarkersIn(b)
  {
    EventsInConcat(a, b);
    TextsInConcat(a, b);
    MarkersInConcat(a, b);
  }

  lemma {:induction false} InEventItems(events: seq<Payload>)
    ensures EventsIn(EventItems(events)) == events
    ensures TextsIn(EventItems(events)) == [] && MarkersIn(EventItems(events)) == []
  {
    if events != [] {
      InEventItems(events[1..]);
      assert EventItems(events)[1..] == EventItems(events[1..]);
    }
  }

  /** The text field of an agent event, if it has one. */
  function TextField(event: AgentEvent): string {
    match event
    case TextPartStart(content) => content
    case TextPartDelta(contentDelta) => contentDelta
    case Other => ""
  }

  /** The text of a run: the text fields of the received events in order, without the empty ones. */
  function Spoken(actions: seq<Action>): seq<string> {
    if actions == [] then []
    else if actions[0].Receive? && TextField(actions[0].event) != ""
    then [TextField(actions[0].event)] + Spoken(actions[1..])
    else Spoken(actions[1..])
  }

  lemma {:induction false} TextLineSpeaks(actions: seq<Action>)
    ensures TextsIn(TextLine(actions)) == Spoken(actions)
    ensures EventsIn(TextLine(actions)) == [] && MarkersIn(TextLine(actions)) == []
  {
    if actions != [] {
      TextLineSpeaks(actions[1..]);
      InConcat(TextOf(actions[0]), TextLine(actions[1..]));
      TextOfSpeaks(actions[0]);
    }
  }

  lemma TextOfSpeaks(action: Action)
    ensures TextsIn(TextOf(action))
            == if action.Receive? && TextField(action.event) != "" then [TextField(action.event)] else []
    ensures EventsIn(TextOf(action)) == [] && MarkersIn(TextOf(action)) == []
  {
  }

  lemma {:induction false} SpokenConcat(a: seq<Action>, b: seq<Action>)
    ensures Spoken(a + b) == Spoken(a) + Spoken(b)
  {
    if a == [] {
      assert a + b == b;
    } else {
      assert (a + b)[0] == a[0] && (a + b)[1..] == a[1..] + b;
      SpokenConcat(a[1..], b);
    }
  }

  lemma {:induction false} ToolsAreSilent(actions: seq<Action>)
    requires forall i :: 0 <= i < |actions| ==> actions[i].ToolRecords?
    ensures Spoken(actions) == []
  {
    if actions != [] {
      ToolsAreSilent(actions[1..]);
    }
  }

  /** All the text was polled: what is never heard holds records only. */
  lemma HeardSpeaks(actions: seq<Action>)
    ensures Spoken(Heard(actions)) == Spoken(actions)
  {
    var heard := Heard(actions);
    var rest := actions[|heard|..];
    assert heard + rest == actions;
    SpokenConcat(heard, rest);
    forall i | 0 <= i < |rest|
      ensures rest[i].ToolRecords?
    {
      assert rest[i] == actions[|heard| + i];
    }
    ToolsAreSilent(rest);
  }

  lemma InTextOf(action: Action)
    ensures EventsIn(TextOf(action)) == [] && MarkersIn(TextOf(action)) == []
  {
  }

  lemma ItemsOfCarry(history: seq<Payload>, action: Action, limits: Limits)
    ensures Retained(history + BatchOf(action), limits)
            == Retained(history, limits) + EventsIn(ItemsOf(history, action, limits))
    ensures TextsIn(ItemsOf(history, action, limits)) == TextsIn(TextOf(action))
    ensures MarkersIn(ItemsOf(history, action, limits)) == []
  {
    var added := NewlyRetained(history, BatchOf(action), limits);
    RetainedGrows(history, BatchOf(action), limits);
    InConcat(EventItems(added), TextOf(action));
    InEventItems(added);
    InTextOf(action);
    assert EventsIn(EventItems(added)) + [] == added;
  }

  lemma {:induction false} TimelineFromCarries(history: seq<Payload>, actions: seq<Action>, limits: Limits)
    ensures Retained(history + Recorded(actions), limits)
            == Retained(history, limits) + EventsIn(TimelineFrom(history, actions, limits))
    ensures TextsIn(TimelineFrom(history, actions, limits)) == Spoken(actions)
    ensures MarkersIn(TimelineFrom(history, actions, limits)) == []
    decreases |actions|
  {
    if actions == [] {
      assert history + [] == history;
    } else {
      var action, next := actions[0], history + BatchOf(actions[0]);
      var first, rest := ItemsOf(history, action, limits), TimelineFrom(next, actions[1..], limits);
      ItemsOfCarry(history, action, limits);
      TimelineFromCarries(next, actions[1..], limits);
      Associate(history, BatchOf(action), Recorded(actions[1..]));
      InConcat(first, rest);
      TextOfSpeaks(action);
      Associate(Retained(history, limits), EventsIn(first), EventsIn(rest));
    }
  }

  /** The timeline holds the final retained events in recording order, each once, and all the text, in order. */
  lemma TimelineCarries(actions: seq<Action>, limits: Limits)
    ensures EventsIn(Timeline(actions, limits)) == Retained(Recorded(actions), limits)
    ensures TextsIn(Timeline(actions, limits)) == Spoken(actions)
    ensures MarkersIn(Timeline(actions, limits)) == []
  {
    TimelineFromCarries([], actions, limits);
    assert [] + Recorded(actions) == Recorded(actions);
  }

  /**
   The stream of a finished run carries exactly what the non-streaming body or the wrapped
   error carries; the marker, when there is one, is the last item.
   */
  lemma StreamMatchesBody(actions: seq<Action>, limits: Limits)
    ensures var items := Finished(actions, limits);
            && Extensions(EventsIn(items), MarkersIn(items)) == NonStreaming(actions, limits)
            && TextsIn(items) == Spoken(actions)
            && EventsIn(items) == Retained(Recorded(actions), limits)
            && MarkersIn(items) == SuppressedCount(Recorded(actions), limits)
            && forall i :: 0 <= i < |items| && items[i].StreamedTruncation? ==> i == |items| - 1
  {
    var marker := MarkerItems(Marker(Recorded(actions), limits));
    TimelineCarries(actions, limits);
    InConcat(Timeline(actions, limits), marker);
    MarkerItemsTell(Recorded(actions), limits);
    NoMarkerInside(Timeline(actions, limits));
    assert Retained(Recorded(actions), limits) + [] == Retained(Recorded(actions), limits);
    assert Spoken(actions) + [] == Spoken(actions);
  }

  /** How many recorded events are not retained, if any. */
  function SuppressedCount(recorded: seq<Payload>, limits: Limits): seq<nat> {
    var n := |recorded| - |Retained(recorded, limits)|;
    if n > 0 then [n] else []
  }

  lemma MarkerItemsTell(recorded: seq<Payload>, limits: Limits)
    ensures var items := MarkerItems(Marker(recorded, limits));
            && EventsIn(items) == [] && TextsIn(items) == []
            && MarkersIn(items) == SuppressedCount(recorded, limits) == Droppings(Marker(recorded, limits))
            && |items| <= 1
  {
  }

  /** The text of every stream, however the run ends, with the channel or without. */
  lemma StreamSpeaks(actions: seq<Action>, ending: Ending, limits: Option<Limits>)
    ensures TextsIn(Stream(actions, ending, limits)) == Spoken(actions)
  {
    if limits.None? {
      TextLineSpeaks(actions);
    } else if ending == Cancelled {
      TimelineCarries(Heard(actions), limits.value);
      HeardSpeaks(actions);
    } else {
      StreamMatchesBody(actions, limits.value);
    }
  }

  lemma UptoSpeaks(actions: seq<Action>, ending: Ending, limits: Option<Limits>, leaves: Option<nat>)
    ensures TextsIn(Upto(Stream(actions, ending, limits), leaves)) <= Spoken(actions)
    ensures leaves.None? ==> TextsIn(Upto(Stream(actions, ending, limits), leaves)) == Spoken(actions)
  {
    StreamSpeaks(actions, ending, limits);
    UptoPrefix(Stream(actions, ending, limits), leaves);
    PrefixCarries(Upto(Stream(actions, ending, limits), leaves), Stream(actions, ending, limits));
  }

  lemma {:induction false} NoMarkerInside(items: seq<Item>)
    requires MarkersIn(items) == []
    ensures forall i :: 0 <= i < |items| ==> !items[i].StreamedTruncation?
  {
    if items != [] {
      NoMarkerInside(items[1..]);
      assert forall i :: 0 < i < |items| ==> items[i] == items[1..][i - 1];
    }
  }

  lemma PrefixCarries(delivered: seq<Item>, items: seq<Item>)
    requires delivered <= items
    ensures EventsIn(delivered) <= EventsIn(items)
    ensures TextsIn(delivered) <= TextsIn(items)
    ensures MarkersIn(delivered) <= MarkersIn(items)
  {
    InConcat(delivered, items[|delivered|..]);
    assert delivered + items[|delivered|..] == items;
  }

  lemma UptoPrefix(items: seq<Item>, leaves: Option<nat>)
    ensures Upto(items, leaves) <= items
  {
  }

  /**
   Whatever the ending, and wherever the consumer leaves, what it was given is a prefix of
   the finished stream of the same actions: events and text in order, none out of place.
   */
  lemma DeliveredIsPrefix(actions: seq<Action>, ending: Ending, leaves: Option<nat>, limits: Limits)
    ensures var delivered := Upto(Stream(actions, ending, Some(limits)), leaves);
            && delivered <= Finished(actions, limits)
            && EventsIn(delivered) <= Retained(Recorded(actions), limits)
            && TextsIn(delivered) <= Spoken(actions)
  {
    var stream, finished := Stream(actions, ending, Some(limits)), Finished(actions, limits);
    var delivered := Upto(stream, leaves);
    UptoPrefix(stream, leaves);
    HeardTimeline(actions, limits);
    StreamMatchesBody(actions, limits);
    PrefixCarries(delivered, finished);
  }

  /**
   What was delivered holds the marker exactly when something was suppressed and the run
   was not cancelled before its end and the consumer stayed for every other item.
   */
  lemma MarkerDeliveredIff(actions: seq<Action>, ending: Ending, leaves: Option<nat>, limits: Limits)
    ensures var delivered := Upto(Stream(actions, ending, Some(limits)), leaves);
            MarkersIn(delivered)
            == if ending != Cancelled && (leaves.None? || leaves.value > |Timeline(actions, limits)|)
               then Droppings(Marker(Recorded(actions), limits)) else []
  {
    var stream := Stream(actions, ending, Some(limits));
    var delivered := Upto(stream, leaves);
    TimelineCarries(actions, limits);
    if ending == Cancelled || (leaves.Some? && leaves.value <= |Timeline(actions, limits)|) {
      HeardTimeline(actions, limits);
      assert delivered <= Timeline(actions, limits);
      PrefixCarries(delivered, Timeline(actions, limits));
    } else {
      assert delivered == stream;
      StreamMatchesBody(actions, limits);
    }
  }

  /** A consumer that left, or a cancelled run, got a prefix of every stream the run could still have become. */
  lemma CancelledIsPrefix(actions: seq<Action>, more: seq<Action>, leaves: Option<nat>, limits: Limits)
    ensures Upto(Stream(actions, Cancelled, Some(limits)), leaves) <= Finished(actions + more, limits)
  {
    DeliveredIsPrefix(actions, Cancelled, leaves, limits);
    UptoPrefix(Stream(actions, Cancelled, Some(limits)), leaves);
    HeardTimeline(actions, limits);
    TimelineGrows(actions, more, limits);
  }

  /**
   Execution order is kept: the events a batch retains stand in the finished stream after
   all text received before the batch was recorded and before any text received after it.
   */
  lemma ExecutionOrder(before: seq<Action>, batch: seq<Payload>, after: seq<Action>, limits: Limits)
    returns (head: seq<Item>, tail: seq<Item>)
    ensures Finished(before + [ToolRecords(batch)] + after, limits)
            == head + EventItems(NewlyRetained(Recorded(before), batch, limits)) + tail
    ensures TextsIn(head) == Spoken(before) && EventsIn(head) == Retained(Recorded(before), limits)
    ensures TextsIn(tail) == Spoken(after)
  {
    var middle, history := before + [ToolRecords(batch)], Recorded(before) + batch;
    var marker := MarkerItems(Marker(Recorded(middle + after), limits));
    var rest := TimelineFrom(history, after, limits);
    head, tail := Timeline(before, limits), rest + marker;
    TimelineCarries(before, limits);
    TimelineFromCarries(history, after, limits);
    InConcat(rest, marker);
    BatchInTimeline(before, batch, after, limits);
    Associate(head + EventItems(NewlyRetained(Recorded(before), batch, limits)), rest, marker);
  }

  lemma BatchInTimeline(before: seq<Action>, batch: seq<Payload>, after: seq<Action>, limits: Limits)
    ensures Timeline(before + [ToolRecords(batch)] + after, limits)
            == Timeline(before, limits)
               + EventItems(NewlyRetained(Recorded(before), batch, limits))
               + TimelineFrom(Recorded(before) + batch, after, limits)
  {
    var middle := before + [ToolRecords(batch)];
    Unfold(before, ToolRecords(batch), limits);
    TimelineConcat([], middle, after, limits);
    assert [] + Recorded(middle) == Recorded(before) + batch;
    var added := EventItems(NewlyRetained(Recorded(before), batch, limits));
    assert added + [] == added;
  }
}

/**
 The bounded collector of domain events for one completion
 (app/services/mcp/event_collector.py).

 The class carries two ghost histories: everything ever recorded, and everything ever
 drained.  Its invariant ties the real fields to them, so what holds of Retained holds
 after every interleaving of record, drain and read calls.
 */
module EventCollector {
  import opened Wrappers

  /** A dumped event in its compact JSON form, one character for each byte. */
  datatype Payload = Payload(json: string)

  datatype Limits = Limits(maxEvents: int, maxBytes: int)

  function Size(event: Payload): nat {
    |event.json|
  }

  function TotalSize(events: seq<Payload>): nat {
    if events == [] then 0 else Size(events[0]) + TotalSize(events[1..])
  }

  /** The events' JSON texts, one after the other. */
  function Joined(events: seq<Payload>): string {
    if events == [] then "" else events[0].json + Joined(events[1..])
  }

  lemma {:induction false} TotalSizeIs(events: seq<Payload>)
    ensures TotalSize(events) == |Joined(events)|
  {
    if events != [] {
      TotalSizeIs(events[1..]);
    }
  }

  predicate Fits(kept: seq<Payload>, event: Payload, limits: Limits) {
    |kept| < limits.maxEvents && TotalSize(kept) + Size(event) <= limits.maxBytes
  }

  /** What is kept when events are recorded after kept: each one that still fits. */
  function Keep(kept: seq<Payload>, events: seq<Payload>, limits: Limits): seq<Payload>
    decreases |events|
  {
    if events == [] then kept
    else Keep(if Fits(kept, events[0], limits) then kept + [events[0]] else kept, events[1..], limits)
  }

  /** The events kept from a whole history. */
  function Retained(recorded: seq<Payload>, limits: Limits): seq<Payload> {
    Keep([], recorded, limits)
  }

  /** The truncation marker's dropped_count, or None when nothing was suppressed. */
  function Marker(recorded: seq<Payload>, limits: Limits): Option<nat> {
    var suppressed := |recorded| - |Retained(recorded, limits)|;
    if suppressed <= 0 then None else Some(suppressed)
  }

  /** The marker as the collection a non-streaming body carries. */
  function Droppings(marker: Option<nat>): seq<nat> {
    if marker.Some? then [marker.value] else []
  }

  /** Batches do not matter: recording a and then b keeps what recording a + b keeps. */
  lemma {:induction false} KeepConcat(kept: seq<Payload>, a: seq<Payload>, b: seq<Payload>, limits: Limits)
    ensures Keep(kept, a + b, limits) == Keep(Keep(kept, a, limits), b, limits)
    decreases |a|
  {
    if a == [] {
      assert a + b == b;
    } else {
      assert (a + b)[1..] == a[1..] + b;
      KeepConcat(if Fits(kept, a[0], limits) then kept + [a[0]] else kept, a[1..], b, limits);
    }
  }

  lemma RetainedLast(recorded: seq<Payload>, event: Payload, limits: Limits)
    ensures Retained(recorded + [event], limits)
            == var kept := Retained(recorded, limits);
               if Fits(kept, event, limits) then kept + [event] else kept
  {
    KeepConcat([], recorded, [event], limits);
  }

  lemma {:induction false} TotalSizeLast(events: seq<Payload>, event: Payload)
    ensures TotalSize(events + [event]) == TotalSize(events) + Size(event)
  {
    if events == [] {
      assert events + [event] == [event];
    } else {
      assert (events + [event])[1..] == events[1..] + [event];
      TotalSizeLast(events[1..], event);
    }
  }

  // ---------------------------------------------------------------- what is retained

  ghost predicate WithinBudget(kept: seq<Payload>, limits: Limits) {
    kept == [] || (|kept| <= limits.maxEvents && TotalSize(kept) <= limits.maxBytes)
  }

  lemma {:induction false} KeepWithinBudget(kept: seq<Payload>, events: seq<Payload>, limits: Limits)
    requires WithinBudget(kept, limits)
    ensures WithinBudget(Keep(kept, events, limits), limits)
    ensures kept <= Keep(kept, events, limits)
    ensures |Keep(kept, events, limits)| <= |kept| + |events|
    decreases |events|
  {
    if events != [] {
      TotalSizeLast(kept, events[0]);
      KeepWithinBudget(if Fits(kept, events[0], limits) then kept + [events[0]] else kept, events[1..], limits);
    }
  }

  /** Both budgets hold at every moment, and no more is kept than was recorded. */
  lemma RetainedWithinBudget(recorded: seq<Payload>, limits: Limits)
    ensures WithinBudget(Retained(recorded, limits), limits)
    ensures |Retained(recorded, limits)| <= |recorded|
    ensures var kept := Retained(recorded, limits);
            kept != [] ==> |kept| <= limits.maxEvents && |Joined(kept)| <= limits.maxBytes
  {
    KeepWithinBudget([], recorded, limits);
    TotalSizeIs(Retained(recorded, limits));
  }

  lemma RetainedNext(recorded: seq<Payload>, limits: Limits, i: nat)
    requires i < |recorded|
    ensures Retained(recorded[..i + 1], limits)
            == var kept := Retained(recorded[..i], limits);
               if Fits(kept, recorded[i], limits) then kept + [recorded[i]] else kept
  {
    RetainedLast(recorded[..i], recorded[i], limits);
    assert recorded[..i + 1] == recorded[..i] + [recorded[i]];
  }

  /** The events at the chosen positions below upTo, in order. */
  function Pick(recorded: seq<Payload>, chosen: set<nat>, upTo: nat): seq<Payload>
    requires upTo <= |recorded|
  {
    if upTo == 0 then []
    else Pick(recorded, chosen, upTo - 1) + (if upTo - 1 in chosen then [recorded[upTo - 1]] else [])
  }

  /** The position is chosen exactly when its event fits after the chosen ones before it. */
  ghost predicate ChosenIffFits(recorded: seq<Payload>, chosen: set<nat>, limits: Limits, i: nat)
    requires i < |recorded|
  {
    i in chosen <==> Fits(Pick(recorded, chosen, i), recorded[i], limits)
  }

  ghost predicate GreedyChoice(recorded: seq<Payload>, chosen: set<nat>, limits: Limits) {
    forall i: nat :: i < |recorded| ==> ChosenIffFits(recorded, chosen, limits, i)
  }

  lemma {:induction false} PickIsRetained(recorded: seq<Payload>, chosen: set<nat>, limits: Limits, upTo: nat)
    requires upTo <= |recorded|
    requires GreedyChoice(recorded, chosen, limits)
    ensures Pick(recorded, chosen, upTo) == Retained(recorded[..upTo], limits)
  {
    if upTo > 0 {
      var i := upTo - 1;
      PickIsRetained(recorded, chosen, limits, i);
      assert ChosenIffFits(recorded, chosen, limits, i);
      RetainedNext(recorded, limits, i);
    }
  }

  /** The retained list is the greedy subsequence: whatever the greedy choice is, it picks these events. */
  lemma RetainedIsGreedy(recorded: seq<Payload>, chosen: set<nat>, limits: Limits)
    requires GreedyChoice(recorded, chosen, limits)
    ensures Pick(recorded, chosen, |recorded|) == Retained(recorded, limits)
  {
    PickIsRetained(recorded, chosen, limits, |recorded|);
    assert recorded[..|recorded|] == recorded;
  }

  /** A greedy choice exists for every history. */
  lemma GreedyChoiceExists(recorded: seq<Payload>, limits: Limits) returns (chosen: set<nat>)
    ensures GreedyChoice(recorded, chosen, limits)
  {
    chosen := set i: nat | i < |recorded| && Fits(Retained(recorded[..i], limits), recorded[i], limits);
    forall i: nat | i < |recorded|
      ensures ChosenIffFits(recorded, chosen, limits, i)
    {
      PickOfFitting(recorded, chosen, limits, i);
    }
  }

  lemma {:induction false} PickOfFitting(recorded: seq<Payload>, chosen: set<nat>, limits: Limits, upTo: nat)
    requires upTo <= |recorded|
    requires forall i: nat :: i < upTo ==> (i in chosen <==> Fits(Retained(recorded[..i], limits), recorded[i], limits))
    ensures Pick(recorded, chosen, upTo) == Retained(recorded[..upTo], limits)
  {
    if upTo > 0 {
      PickOfFitting(recorded, chosen, limits, upTo - 1);
      RetainedNext(recorded, limits, upTo - 1);
    }
  }

  /** Later recordings only add at the end. */
  lemma RetainedGrows(recorded: seq<Payload>, more: seq<Payload>, limits: Limits)
    ensures Retained(recorded, limits) <= Retained(recorded + more, limits)
  {
    RetainedWithinBudget(recorded, limits);
    KeepConcat([], recorded, more, limits);
    KeepWithinBudget(Retained(recorded, limits), more, limits);
  }

  lemma {:induction false} KeepFull(kept: seq<Payload>, events: seq<Payload>, limits: Limits)
    requires |kept| >= limits.maxEvents
    ensures Keep(kept, events, limits) == kept
    decreases |events|
  {
    if events != [] {
      KeepFull(kept, events[1..], limits);
    }
  }

  /** Once the count budget is full nothing more is retained, whatever the sizes. */
  lemma CountBudgetLatches(recorded: seq<Payload>, more: seq<Payload>, limits: Limits)
    requires |Retained(recorded, limits)| >= limits.maxEvents
    ensures Retained(recorded + more, limits) == Retained(recorded, limits)
  {
    KeepConcat([], recorded, more, limits);
    KeepFull(Retained(recorded, limits), more, limits);
  }

  lemma {:induction false} KeepAllIff(kept: seq<Payload>, events: seq<Payload>, limits: Limits)
    requires WithinBudget(kept, limits)
    ensures |Keep(kept, events, limits)| == |kept| + |events|
            <==> || events == []
                 || (|kept| + |events| <= limits.maxEvents && TotalSize(kept) + TotalSize(events) <= limits.maxBytes)
    ensures |Keep(kept, events, limits)| == |kept| + |events| ==> Keep(kept, events, limits) == kept + events
    decreases |events|
  {
    if events != [] {
      TotalSizeLast(kept, events[0]);
      if Fits(kept, events[0], limits) {
        KeepAllIff(kept + [events[0]], events[1..], limits);
        assert kept + [events[0]] + events[1..] == kept + events;
      } else {
        KeepWithinBudget(kept, events[1..], limits);
      }
    }
  }

  /** Everything is retained, and there is no marker, exactly when the whole history fits both budgets. */
  lemma NoMarkerIff(recorded: seq<Payload>, limits: Limits)
    ensures Marker(recorded, limits).None?
            <==> recorded == [] || (|recorded| <= limits.maxEvents && |Joined(recorded)| <= limits.maxBytes)
    ensures Marker(recorded, limits).None? <==> Retained(recorded, limits) == recorded
  {
    KeepAllIff([], recorded, limits);
    TotalSizeIs(recorded);
    RetainedWithinBudget(recorded, limits);
    assert [] + recorded == recorded;
  }

  /** How many events are kept before the first one that does not fit. */
  function FirstSuppressed(kept: seq<Payload>, events: seq<Payload>, limits: Limits): (k: nat)
    ensures k <= |events|
    decreases |events|
  {
    if events == [] || !Fits(kept, events[0], limits) then 0
    else 1 + FirstSuppressed(kept + [events[0]], events[1..], limits)
  }

  /** Everything before that position is kept; the event there, if any, is the first that is not. */
  lemma {:induction false} FirstSuppressedIs(kept: seq<Payload>, events: seq<Payload>, limits: Limits)
    ensures var k := FirstSuppressed(kept, events, limits);
            && Keep(kept, events[..k], limits) == kept + events[..k]
            && (k < |events| ==> !Fits(kept + events[..k], events[k], limits))
    decreases |events|
  {
    var k := FirstSuppressed(kept, events, limits);
    if k == 0 {
      assert kept + [] == kept;
    } else {
      FirstSuppressedIs(kept + [events[0]], events[1..], limits);
      assert events[..k][1..] == events[1..][..k - 1];
      assert kept + [events[0]] + events[1..][..k - 1] == kept + events[..k];
    }
  }

  lemma {:induction false} KeepNothing(kept: seq<Payload>, events: seq<Payload>, limits: Limits)
    requires forall e :: e in events ==> !Fits(kept, e, limits)
    ensures Keep(kept, events, limits) == kept
    decreases |events|
  {
    if events != [] {
      assert events[0] in events;
      KeepNothing(kept, events[1..], limits);
    }
  }

  /** What is kept next, when anything is, is an event that fits. */
  lemma {:induction false} NextKeptFits(kept: seq<Payload>, events: seq<Payload>, limits: Limits, e: Payload)
    requires e in events && Fits(kept, e, limits) && WithinBudget(kept, limits)
    ensures var all := Keep(kept, events, limits); |all| > |kept| && Fits(kept, all[|kept|], limits)
    decreases |events|
  {
    if Fits(kept, events[0], limits) {
      TotalSizeLast(kept, events[0]);
      KeepWithinBudget(kept + [events[0]], events[1..], limits);
      assert (kept + [events[0]])[|kept|] == events[0];
    } else {
      NextKeptFits(kept, events[1..], limits, e);
    }
  }

  lemma PrefixAfter(kept: seq<Payload>, rest: seq<Payload>, limits: Limits)
    requires WithinBudget(kept, limits)
    requires rest != [] ==> !Fits(kept, rest[0], limits)
    ensures Keep(kept, rest, limits) <= kept + rest <==> NoneFitsAfterFirst(kept, rest, limits)
    ensures Keep(kept, rest, limits) <= kept + rest ==> Keep(kept, rest, limits) == kept
  {
    if i :| 0 < i < |rest| && Fits(kept, rest[i], limits) {
      NextKeptFits(kept, rest, limits, rest[i]);
    } else {
      KeepNothing(kept, rest, limits);
    }
  }

  /**
   The retained list is a prefix of what was recorded exactly when, after the first
   suppressed event, nothing comes that would still have fitted in its place; it is then
   everything before that event.
   */
  lemma RetainedIsPrefixIff(recorded: seq<Payload>, limits: Limits)
    ensures var k := FirstSuppressed([], recorded, limits);
            Retained(recorded, limits) <= recorded
            <==> forall j :: k < j < |recorded| ==> !Fits(recorded[..k], recorded[j], limits)
    ensures Retained(recorded, limits) <= recorded
            ==> Retained(recorded, limits) == recorded[..FirstSuppressed([], recorded, limits)]
  {
    var k := FirstSuppressed([], recorded, limits);
    var kept, rest := recorded[..k], recorded[k..];
    FirstSuppressedIs([], recorded, limits);
    assert [] + kept == kept && kept + rest == recorded;
    KeepConcat([], kept, rest, limits);
    RetainedWithinBudget(kept, limits);
    assert rest != [] ==> rest[0] == recorded[k];
    PrefixAfter(kept, rest, limits);
    NoneFitsShift(recorded, kept, k, limits);
  }

  /** No event of the list but the first fits after kept. */
  ghost predicate NoneFitsAfterFirst(kept: seq<Payload>, events: seq<Payload>, limits: Limits) {
    forall i :: 0 < i < |events| ==> !Fits(kept, events[i], limits)
  }

  lemma NoneFitsShift(recorded: seq<Payload>, kept: seq<Payload>, k: nat, limits: Limits)
    requires k <= |recorded|
    ensures NoneFitsAfterFirst(kept, recorded[k..], limits)
            <==> forall j :: k < j < |recorded| ==> !Fits(kept, recorded[j], limits)
  {
    var rest := recorded[k..];
    if NoneFitsAfterFirst(kept, rest, limits) {
      forall j | k < j < |recorded|
        ensures !Fits(kept, recorded[j], limits)
      {
        assert rest[j - k] == recorded[j];
      }
    }
  }

  /** The retained list need not be a prefix: a small event still fits after a large one was suppressed. */
  lemma RetainedSkips(large: Payload, small: Payload, limits: Limits)
    requires limits.maxEvents >= 1 && Size(small) <= limits.maxBytes < Size(large)
    ensures Retained([large, small], limits) == [small]
    ensures Marker([large, small], limits) == Some(1)
  {
    KeepConcat([], [large], [small], limits);
    assert [large] + [small] == [large, small];
    RetainedLast([], large, limits);
    assert [] + [large] == [large];
  }

  // ---------------------------------------------------------------- the collector

  class CompletionEventCollector {
    const limits: Limits
    var events: seq<Payload>
    var bytes: nat
    var drained: nat
    var suppressed: nat
    ghost var recorded: seq<Payload>
    ghost var delivered: seq<Payload>

    ghost predicate Valid()
      reads this
    {
      && events == Retained(recorded, limits)
      && bytes == TotalSize(events)
      && |events| + suppressed == |recorded|
      && drained <= |events|
      && delivered == events[..drained]
    }

    constructor (maxEvents: int := 100, maxBytes: int := 256 * 1024)
      ensures Valid()
      ensures limits == Limits(maxEvents, maxBytes) && recorded == [] && delivered == []
    {
      limits := Limits(maxEvents, maxBytes);
      events, bytes, drained, suppressed := [], 0, 0, 0;
      recorded, delivered := [], [];
    }

    method Record(batch: seq<Payload>)
      requires Valid()
      modifies this
      ensures Valid()
      ensures recorded == old(recorded) + batch
      ensures delivered == old(delivered) && drained == old(drained)
    {
      for i := 0 to |batch|
        invariant Valid()
        invariant recorded == old(recorded) + batch[..i]
        invariant delivered == old(delivered) && drained == old(drained)
      {
        var payload := batch[i];
        var size := Size(payload);
        RetainedLast(recorded, payload, limits);
        TotalSizeLast(events, payload);
        if |events| >= limits.maxEvents || bytes + size > limits.maxBytes {
          suppressed := suppressed + 1;
        } else {
          events := events + [payload];
          bytes := bytes + size;
        }
        recorded := recorded + [payload];
      }
      assert batch[..|batch|] == batch;
    }

    /** Events recorded since the previous drain: with the earlier drains they make up the retained list. */
    method Drain() returns (pending: seq<Payload>)
      requires Valid()
      modifies this`drained, this`delivered
      ensures Valid()
      ensures delivered == old(delivered) + pending
      ensures delivered == Retained(recorded, limits)
    {
      pending := events[drained..];
      drained := |events|;
      delivered := delivered + pending;
    }

    method Truncation() returns (marker: Option<nat>)
      requires Valid()
      ensures marker == Marker(recorded, limits)
      ensures var n := |recorded| - |Retained(recorded, limits)|; marker == if n == 0 then None else Some(n)
    {
      if suppressed == 0 {
        return None;
      }
      return Some(suppressed);
    }

    method Events() returns (all: seq<Payload>)
      requires Valid()
      ensures all == Retained(recorded, limits)
    {
      return events;
    }

    method Truncations() returns (markers: seq<nat>)
      requires Valid()
      ensures markers == Droppings(Marker(recorded, limits))
      ensures var n := |recorded| - |Retained(recorded, limits)|; markers == if n == 0 then [] else [n]
    {
      var marker := Truncation();
      if marker.Some? {
        return [marker.value];
      }
      return [];
    }
  }
}

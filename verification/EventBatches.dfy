// How the events of one analytics message are split into requests.
module EventBatches {
  import opened Prelude

  // The kinds of event that sending tells apart; `body` is the rest of the payload.
  datatype Event<P> =
    | AcceptedLineFingerprints(body: P)
    | PluginUsed(pluginId: Option<string>, body: P)
    | SkillInvocation(pluginId: Option<string>, body: P)
    | McpToolCall(pluginId: Option<string>, body: P)
    | Other(body: P)

  predicate IsIsolated<P>(event: Event<P>) {
    event.AcceptedLineFingerprints?
  }

  predicate CanSendWithApiKey<P>(event: Event<P>) {
    match event
    case PluginUsed(id, _) => id.Some?
    case SkillInvocation(id, _) => id.Some?
    case McpToolCall(id, _) => id.Some?
    case _ => false
  }

  // ----- What a split is -----

  function Concat<T>(batches: seq<seq<T>>): seq<T> {
    if batches == [] then [] else batches[0] + Concat(batches[1..])
  }

  ghost predicate IsOrdinary<P>(batch: seq<Event<P>>) {
    forall e :: e in batch ==> !IsIsolated(e)
  }

  ghost predicate IsBatch<P>(batch: seq<Event<P>>) {
    batch != [] && (IsOrdinary(batch) || (|batch| == 1 && IsIsolated(batch[0])))
  }

  ghost predicate IsSplit<P>(events: seq<Event<P>>, batches: seq<seq<Event<P>>>) {
    && Concat(batches) == events
    && (forall b :: b in batches ==> IsBatch(b))
    && (forall i :: 0 <= i < |batches| - 1 ==> !IsOrdinary(batches[i]) || !IsOrdinary(batches[i + 1]))
  }

  // ----- There is only one -----

  function OrdinaryRun<P>(events: seq<Event<P>>): (n: nat)
    ensures n <= |events|
    ensures forall i :: 0 <= i < n ==> !IsIsolated(events[i])
    ensures n < |events| ==> IsIsolated(events[n])
  {
    if events == [] || IsIsolated(events[0]) then 0 else 1 + OrdinaryRun(events[1..])
  }

  lemma TailIsSplit<P>(events: seq<Event<P>>, batches: seq<seq<Event<P>>>)
    requires IsSplit(events, batches) && batches != []
    ensures events != [] && batches[0] <= events
    ensures IsSplit(events[|batches[0]|..], batches[1..])
  {
    assert IsBatch(batches[0]);
    assert events[|batches[0]|..] == Concat(batches[1..]);
    forall i | 0 <= i < |batches[1..]| - 1
      ensures !IsOrdinary(batches[1..][i]) || !IsOrdinary(batches[1..][i + 1])
    {
      assert batches[1..][i] == batches[i + 1] && batches[1..][i + 1] == batches[i + 2];
    }
  }

  lemma EmptySplit<P>(events: seq<Event<P>>, batches: seq<seq<Event<P>>>)
    requires IsSplit(events, batches)
    ensures batches == [] <==> events == []
  {
    if batches != [] {
      TailIsSplit(events, batches);
    }
  }

  lemma FirstBatchSize<P>(events: seq<Event<P>>, batches: seq<seq<Event<P>>>)
    requires IsSplit(events, batches) && batches != []
    ensures events != []
    ensures |batches[0]| == if IsIsolated(events[0]) then 1 else OrdinaryRun(events)
  {
    TailIsSplit(events, batches);
    var first := batches[0];
    assert IsBatch(first) && first[0] == events[0] && first[0] in first;
    if !IsIsolated(events[0]) {
      assert forall i :: 0 <= i < |first| ==> first[i] == events[i] && first[i] in first;
      if |first| < |events| {
        TailIsSplit(events[|first|..], batches[1..]);
        var next := batches[1];
        assert IsBatch(next) && !IsOrdinary(next);
        assert next[0] == batches[1..][0][0] == events[|first|..][0] == events[|first|];
      }
    }
  }

  lemma {:induction false} SplitIsUnique<P>(events: seq<Event<P>>, a: seq<seq<Event<P>>>, b: seq<seq<Event<P>>>)
    requires IsSplit(events, a) && IsSplit(events, b)
    ensures a == b
    decreases |a|
  {
    EmptySplit(events, a);
    EmptySplit(events, b);
    if a != [] {
      TailIsSplit(events, a);
      FirstBatchSize(events, a);
      FirstBatchSize(events, b);
      TailIsSplit(events, b);
      assert a[0] == events[..|a[0]|] == b[0];
      SplitIsUnique(events[|a[0]|..], a[1..], b[1..]);
      assert a == [a[0]] + a[1..] && b == [b[0]] + b[1..];
    }
  }

  lemma OrdinaryEventsShareOneBatch<P>(events: seq<Event<P>>, batches: seq<seq<Event<P>>>)
    requires IsOrdinary(events) && IsSplit(events, batches)
    ensures batches == if events == [] then [] else [events]
  {
    EmptySplit(events, batches);
    if events != [] {
      assert Concat([events]) == events + Concat([events][1..]);
      assert IsSplit(events, [events]);
      SplitIsUnique(events, batches, [events]);
    }
  }

  // ----- Building it -----

  lemma {:induction false} ConcatAppends<T>(batches: seq<seq<T>>, batch: seq<T>)
    ensures Concat(batches + [batch]) == Concat(batches) + batch
  {
    if batches == [] {
      assert batches + [batch] == [batch];
      assert Concat([batch]) == batch + Concat([batch][1..]);
    } else {
      assert (batches + [batch])[1..] == batches[1..] + [batch];
      ConcatAppends(batches[1..], batch);
    }
  }

  // A batch may follow a split unless both are ordinary.
  lemma SplitAppends<P>(events: seq<Event<P>>, batches: seq<seq<Event<P>>>, batch: seq<Event<P>>)
    requires IsSplit(events, batches) && IsBatch(batch)
    requires batches == [] || !IsOrdinary(batches[|batches| - 1]) || !IsOrdinary(batch)
    ensures IsSplit(events + batch, batches + [batch])
  {
    ConcatAppends(batches, batch);
  }

  ghost predicate HasFingerprints<P>(batch: seq<Event<P>>) {
    exists e :: e in batch && e.AcceptedLineFingerprints?
  }

  // Every event leaves in its place; accepted-line events leave alone, others only part for them.
  ghost predicate KeepsFingerprintsApart<P>(events: seq<Event<P>>, batches: seq<seq<Event<P>>>) {
    && Concat(batches) == events
    && (forall i :: 0 <= i < |batches| ==> batches[i] != [] && (HasFingerprints(batches[i]) ==> |batches[i]| == 1))
    && (forall i :: 0 <= i < |batches| - 1 ==> HasFingerprints(batches[i]) || HasFingerprints(batches[i + 1]))
  }

  lemma SplitHas<P>(events: seq<Event<P>>, batches: seq<seq<Event<P>>>)
    ensures IsSplit(events, batches) <==> KeepsFingerprintsApart(events, batches)
  {
    forall b: seq<Event<P>>
      ensures IsBatch(b) <==> b != [] && (HasFingerprints(b) ==> |b| == 1)
      ensures IsOrdinary(b) <==> !HasFingerprints(b)
    {
      BatchHas(b);
    }
    if KeepsFingerprintsApart(events, batches) {
      forall b | b in batches
        ensures IsBatch(b)
      {
        var i :| 0 <= i < |batches| && batches[i] == b;
      }
    }
    if IsSplit(events, batches) {
      forall i | 0 <= i < |batches|
        ensures batches[i] != [] && (HasFingerprints(batches[i]) ==> |batches[i]| == 1)
      {
        assert IsBatch(batches[i]);
      }
      forall i | 0 <= i < |batches| - 1
        ensures HasFingerprints(batches[i]) || HasFingerprints(batches[i + 1])
      {
        assert !IsOrdinary(batches[i]) || !IsOrdinary(batches[i + 1]);
      }
    }
  }

  lemma BatchHas<P>(b: seq<Event<P>>)
    ensures IsOrdinary(b) <==> !HasFingerprints(b)
    ensures IsBatch(b) <==> b != [] && (HasFingerprints(b) ==> |b| == 1)
  {
    if |b| == 1 {
      assert b[0] in b;
      assert forall e :: e in b ==> e == b[0];
    }
  }

  method TrackEventRequestBatches<P>(events: seq<Event<P>>) returns (batches: seq<seq<Event<P>>>)
    ensures KeepsFingerprintsApart(events, batches)
    ensures IsSplit(events, batches)
  {
    batches := [];
    var current: seq<Event<P>> := [];
    ghost var closed: seq<Event<P>> := [];
    for i := 0 to |events|
      invariant closed + current == events[..i]
      invariant IsSplit(closed, batches) && IsOrdinary(current)
      invariant batches == [] || !IsOrdinary(batches[|batches| - 1])
    {
      if IsIsolated(events[i]) {
        if current != [] {
          SplitAppends(closed, batches, current);
          batches, closed, current := batches + [current], closed + current, [];
        }
        var alone := [events[i]];
        assert events[i] in alone;
        SplitAppends(closed, batches, alone);
        batches, closed := batches + [alone], closed + alone;
      } else {
        current := current + [events[i]];
      }
    }
    assert events[..|events|] == events;
    if current != [] {
      SplitAppends(closed, batches, current);
      batches := batches + [current];
    } else {
      assert closed + current == closed;
    }
    SplitHas(events, batches);
  }

  // ----- Sending -----

  datatype Auth = ApiKey | CodexBackend | OtherBackend

  function Retain<P>(events: seq<Event<P>>): (kept: seq<Event<P>>)
    ensures forall e :: e in kept ==> e in events && CanSendWithApiKey(e)
    ensures forall e :: e in events && CanSendWithApiKey(e) ==> e in kept
  {
    if events == [] then []
    else
      var n := |events| - 1;
      Retain(events[..n]) + if CanSendWithApiKey(events[n]) then [events[n]] else []
  }

  // Filtering judges each event alone and keeps the order.
  lemma RetainOne<P>(a: seq<Event<P>>, e: Event<P>)
    ensures Retain(a + [e]) == Retain(a) + if CanSendWithApiKey(e) then [e] else []
  {
    assert (a + [e])[..|a|] == a;
  }

  lemma {:induction false} RetainJoins<P>(a: seq<Event<P>>, b: seq<Event<P>>)
    ensures Retain(a + b) == Retain(a) + Retain(b)
    decreases |b|
  {
    if b == [] {
      assert a + b == a;
    } else {
      var front, last := b[..|b| - 1], b[|b| - 1];
      assert b == front + [last] && a + b == (a + front) + [last];
      RetainJoins(a, front);
      RetainOne(a + front, last);
      RetainOne(front, last);
      Regroup(Retain(a), Retain(front), if CanSendWithApiKey(last) then [last] else []);
    }
  }

  // The events that may leave under this login.
  function Sendable<P>(auth: Option<Auth>, events: seq<Event<P>>): seq<Event<P>> {
    match auth
    case None => []
    case Some(ApiKey) => Retain(events)
    case Some(CodexBackend) => events
    case Some(OtherBackend) => []
  }

  // The events an API key may send: plugin, skill and tool use that names its plugin.
  function NamingAPlugin<P>(events: seq<Event<P>>): seq<Event<P>> {
    if events == [] then []
    else
      var n := |events| - 1;
      NamingAPlugin(events[..n]) +
      if (events[n].PluginUsed? || events[n].SkillInvocation? || events[n].McpToolCall?) && events[n].pluginId.Some?
      then [events[n]] else []
  }

  lemma {:induction false} RetainKeepsNamed<P>(events: seq<Event<P>>)
    ensures Retain(events) == NamingAPlugin(events)
  {
    if events != [] {
      RetainKeepsNamed(events[..|events| - 1]);
    }
  }

  // The requests are the one split of what may be sent; with an API key there is at most one.
  method SendTrackEvents<P>(auth: Option<Auth>, events: seq<Event<P>>) returns (requests: seq<seq<Event<P>>>)
    ensures auth == None || auth == Some(OtherBackend) ==> requests == []
    ensures auth == Some(CodexBackend) ==> KeepsFingerprintsApart(events, requests)
    ensures auth == Some(ApiKey) ==>
              requests == if NamingAPlugin(events) == [] then [] else [NamingAPlugin(events)]
    ensures IsSplit(Sendable(auth, events), requests)
  {
    RetainKeepsNamed(events);
    SplitHas(events, []);
    if events == [] || auth.None? {
      return [];
    }
    var kept := events;
    if auth.value.ApiKey? {
      kept := RetainForApiKey(events);
    } else if !auth.value.CodexBackend? {
      return [];
    }
    if kept == [] {
      return [];
    }
    requests := TrackEventRequestBatches(kept);
    if auth.value.ApiKey? {
      OrdinaryEventsShareOneBatch(kept, requests);
    }
  }

  method RetainForApiKey<P>(events: seq<Event<P>>) returns (kept: seq<Event<P>>)
    ensures kept == Retain(events)
  {
    kept := [];
    for i := 0 to |events|
      invariant kept == Retain(events[..i])
    {
      assert events[..i + 1][..i] == events[..i];
      if CanSendWithApiKey(events[i]) {
        kept := kept + [events[i]];
      }
    }
    assert events[..|events|] == events;
  }
}

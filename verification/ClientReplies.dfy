// What a run of the client puts on the wire, stated on the messages' own fields.
module ClientReplies {
  import opened Prelude
  import opened Json
  import opened AppServerClient

  // ----- What the server asked and what was sent back -----

  predicate ServerAsks(m: Message) {
    m.id.Some? && m.rpc.Some? && m.rpc.value.Str?
  }

  // The messages by which the server asked something, in order.
  function AskedByServer(ms: seq<Message>): seq<Message> {
    if ms == [] then []
    else
      var n := |ms| - 1;
      AskedByServer(ms[..n]) + if ServerAsks(ms[n]) then [ms[n]] else []
  }

  // The replies among the messages sent, in order.
  function Answered(sent: seq<Sent>): seq<Sent> {
    if sent == [] then []
    else
      var n := |sent| - 1;
      Answered(sent[..n]) + if sent[n].Accepted? || sent[n].Unsupported? then [sent[n]] else []
  }

  // The forms among the messages the server asked with: the object parameters of elicitations.
  function FormsAsked(rs: seq<Message>): seq<Fields> {
    if rs == [] then []
    else
      var n := |rs| - 1;
      var m := rs[n];
      FormsAsked(rs[..n]) +
      if m.rpc == Some(Str("mcpServer/elicitation/request")) && m.params.Some? && m.params.value.Obj?
      then [m.params.value.fields] else []
  }

  lemma {:induction false} SameRequests(ms: seq<Message>)
    ensures ServerRequests(ms) == AskedByServer(ms)
  {
    if ms != [] {
      SameRequests(ms[..|ms| - 1]);
    }
  }

  lemma {:induction false} SameReplies(sent: seq<Sent>)
    ensures RepliesSent(sent) == Answered(sent)
  {
    if sent != [] {
      SameReplies(sent[..|sent| - 1]);
    }
  }

  lemma {:induction false} SameForms(rs: seq<Message>)
    requires forall m :: m in rs ==> IsServerRequest(m)
    ensures Forms(rs) == FormsAsked(rs)
  {
    if rs != [] {
      assert rs[|rs| - 1] in rs;
      SameForms(rs[..|rs| - 1]);
    }
  }

  // In every run each message by which the server asked something, whichever call read it, was
  // answered once and in order, with the reply it must get; and the forms of the elicitations were
  // recorded in order.
  lemma EveryServerRequestIsAnswered(fill: Filler, stream: seq<Arrival>, calls: seq<Call>)
    ensures var c := Run(fill, Start(stream), calls).0;
            && |c.inbox| <= |stream|
            && var rs, out := AskedByServer(Consumed(stream, c)), Answered(c.sent);
               && |out| == |rs|
               && (forall i :: 0 <= i < |rs| ==> AnsweredBy(fill, rs[i], out[i]))
               && c.elicitations == FormsAsked(rs)
  {
    EveryRunAccountsForEveryMessage(fill, stream, calls);
    var c := Run(fill, Start(stream), calls).0;
    var rs := ServerRequests(Consumed(stream, c));
    SameRequests(Consumed(stream, c));
    SameReplies(c.sent);
    SameForms(rs);
  }

  // ----- The client's own messages -----

  function Own(sent: seq<Sent>): seq<Sent> {
    if sent == [] then []
    else
      var n := |sent| - 1;
      Own(sent[..n]) + if sent[n].SentRequest? || sent[n].SentNotification? then [sent[n]] else []
  }

  // What the calls ask to be sent, requests numbered from `id` on.
  function Called(calls: seq<Call>, id: int): seq<Sent>
    decreases |calls|
  {
    if calls == [] then []
    else match calls[0]
      case Ask(rpc, params, _) => [SentRequest(id, rpc, params)] + Called(calls[1..], id + 1)
      case Wait(_, _, _, _) => Called(calls[1..], id)
      case Notify(rpc) => [SentNotification(rpc)] + Called(calls[1..], id)
  }

  lemma OwnGrows(sent: seq<Sent>, s: Sent)
    ensures Own(sent + [s]) == Own(sent) + if s.SentRequest? || s.SentNotification? then [s] else []
  {
    assert (sent + [s])[..|sent|] == sent;
  }

  lemma LogSendsNothingOwn(fill: Filler, c: Client, m: Message)
    requires c.inbox != []
    ensures Own(Log(fill, c, m).sent) == Own(c.sent) && Log(fill, c, m).nextId == c.nextId
    ensures c.sent <= Log(fill, c, m).sent
  {
    if IsServerRequest(m) {
      OwnGrows(c.sent, ReplyTo(fill, m));
    }
  }

  lemma {:induction false} AwaitAnswerSendsNothingOwn(fill: Filler, c: Client, id: int, patience: nat)
    ensures var l := AwaitAnswer(fill, c, id, patience).0;
            Own(l.sent) == Own(c.sent) && l.nextId == c.nextId && c.sent <= l.sent
    decreases patience
  {
    if patience > 0 && c.inbox != [] && !Ends(c.inbox[0], id) {
      LogSendsNothingOwn(fill, c, c.inbox[0].m);
      AwaitAnswerSendsNothingOwn(fill, Log(fill, c, c.inbox[0].m), id, patience - 1);
    }
  }

  lemma {:induction false} AwaitNotificationSendsNothingOwn(
      fill: Filler, c: Client, rpc: string, accept: Condition, patience: nat)
    ensures var l := AwaitNotification(fill, c, rpc, accept, patience).0;
            Own(l.sent) == Own(c.sent) && l.nextId == c.nextId && c.sent <= l.sent
    decreases patience
  {
    if patience > 0 && c.inbox != [] && c.inbox[0].Incoming? {
      LogSendsNothingOwn(fill, c, c.inbox[0].m);
      AwaitNotificationSendsNothingOwn(fill, Log(fill, c, c.inbox[0].m), rpc, accept, patience - 1);
    }
  }

  lemma PerformSends(fill: Filler, c: Client, call: Call)
    ensures var l := Perform(fill, c, call).0;
            match call
            case Ask(rpc, params, _) => Own(l.sent) == Own(c.sent) + [SentRequest(c.nextId, rpc, params)] && l.nextId == c.nextId + 1
            case Wait(_, _, _, _) => Own(l.sent) == Own(c.sent) && l.nextId == c.nextId
            case Notify(rpc) => Own(l.sent) == Own(c.sent) + [SentNotification(rpc)] && l.nextId == c.nextId
  {
    match call {
      case Ask(rpc, params, patience) =>
        OwnGrows(c.sent, SentRequest(c.nextId, rpc, params));
        AwaitAnswerSendsNothingOwn(fill, Asked(c, rpc, params), c.nextId, patience);
      case Wait(rpc, accept, _, patience) =>
        AwaitNotificationSendsNothingOwn(fill, c, rpc, accept, patience);
      case Notify(rpc) =>
        OwnGrows(c.sent, SentNotification(rpc));
    }
  }

  lemma {:induction false} RunSends(fill: Filler, c: Client, calls: seq<Call>)
    ensures Own(Run(fill, c, calls).0.sent) == Own(c.sent) + Called(calls, c.nextId)
    decreases |calls|
  {
    if calls == [] {
      assert Own(c.sent) + [] == Own(c.sent);
    } else {
      PerformSends(fill, c, calls[0]);
      var next := Perform(fill, c, calls[0]).0;
      RunSends(fill, next, calls[1..]);
      match calls[0] {
        case Ask(rpc, params, _) =>
          Regroup(Own(c.sent), [SentRequest(c.nextId, rpc, params)], Called(calls[1..], c.nextId + 1));
        case Wait(_, _, _, _) =>
        case Notify(rpc) =>
          Regroup(Own(c.sent), [SentNotification(rpc)], Called(calls[1..], c.nextId));
      }
    }
  }

  // Besides its replies a run sends exactly one message for each request and notification called,
  // in order, the requests numbered 1, 2, 3, ... and carrying their own method and parameters.
  lemma EveryCallIsSentOnce(fill: Filler, stream: seq<Arrival>, calls: seq<Call>)
    ensures Own(Run(fill, Start(stream), calls).0.sent) == Called(calls, 1)
  {
    RunSends(fill, Start(stream), calls);
    assert [] + Called(calls, 1) == Called(calls, 1);
  }

  // ----- What requests and waits hand back -----

  // An answer to request `id`: no method, and an id Python calls equal to it.
  predicate IsAnswerTo(m: Message, id: int) {
    && m.rpc == None
    && m.id.Some?
    && (m.id.value == Int(id) || m.id.value == Float(id as real)
        || (m.id.value == Bool(true) && id == 1) || (m.id.value == Bool(false) && id == 0))
  }

  lemma AnswersMeans(m: Message, id: int)
    ensures Answers(m, id) <==> IsAnswerTo(m, id)
  {}

  // In every run the requests that hand back a message hand back answers to their own ids.
  lemma RequestsHandBackAnswers(fill: Filler, stream: seq<Arrival>, calls: seq<Call>, i: nat)
    requires i < |calls| && calls[i].Ask?
    ensures |Run(fill, Start(stream), calls).1| == |calls|
    ensures var o := Run(fill, Start(stream), calls).1[i]; o.Returned? ==> IsAnswerTo(o.m, 1 + Asks(calls[..i]))
  {
    EveryRequestReturnsItsOwnAnswer(fill, stream, calls, i);
    var o := Run(fill, Start(stream), calls).1[i];
    if o.Returned? {
      AnswersMeans(o.m, 1 + Asks(calls[..i]));
    }
  }

  // A message a wait may hand back.
  predicate Wanted(m: Message, rpc: string, accept: Condition) {
    m.rpc == Some(Str(rpc)) && m.params.Some? && m.params.value.Obj? && accept(m.params.value.fields)
  }

  // The first `n` arrivals are messages.
  predicate Open(inbox: seq<Arrival>, n: nat) {
    n <= |inbox| && forall i :: 0 <= i < n ==> inbox[i].Incoming?
  }

  // Event `k` is one a wait from `after` looks at; a negative start counts from the end.
  predicate InView(events: seq<Message>, after: int, k: nat) {
    k < |events| && k >= if after < 0 then |events| + after else after
  }

  // The first event in view that the wait accepts.
  predicate FirstInView(events: seq<Message>, after: int, rpc: string, accept: Condition, k: nat) {
    && InView(events, after, k) && Wanted(events[k], rpc, accept)
    && forall i :: 0 <= i < k && InView(events, after, i) ==> !Wanted(events[i], rpc, accept)
  }

  // The first arrival that the wait accepts, before the stream ends.
  predicate FirstArrival(inbox: seq<Arrival>, rpc: string, accept: Condition, j: nat) {
    && Open(inbox, j + 1) && Wanted(inbox[j].m, rpc, accept) && !ServerAsks(inbox[j].m)
    && forall i :: 0 <= i < j ==> Wanted(inbox[i].m, rpc, accept) ==> ServerAsks(inbox[i].m)
  }

  lemma FirstFitMeans(inbox: seq<Arrival>, rpc: string, accept: Condition, j: nat)
    ensures FirstFitAt(inbox, rpc, accept, j) <==> FirstArrival(inbox, rpc, accept, j)
  {
    forall m: Message
      ensures Fits(m, rpc, accept) <==> Wanted(m, rpc, accept) && !ServerAsks(m)
    {}
  }

  lemma FirstInLogMeans(events: seq<Message>, after: int, rpc: string, accept: Condition, k: nat)
    ensures FirstEventAt(events, From(events, after), |events|, rpc, accept, k) <==> FirstInView(events, after, rpc, accept, k)
  {
    forall i: nat | i < |events|
      ensures IsNotification(events[i], rpc, accept) <==> Wanted(events[i], rpc, accept)
      ensures From(events, after) <= i <==> InView(events, after, i)
    {}
  }

  // A wait hands back a message exactly when that is the first fitting event in view or, if none is
  // in view, the first fitting message to arrive in time.
  lemma WaitsHandBackTheFirst(
      fill: Filler, c: Client, rpc: string, accept: Condition, after: int, patience: nat, m: Message)
    ensures WaitFor(fill, c, rpc, accept, after, patience).1 == Returned(m) <==>
            || (exists k: nat :: FirstInView(c.events, after, rpc, accept, k) && c.events[k] == m)
            || ((forall i: nat :: InView(c.events, after, i) ==> !Wanted(c.events[i], rpc, accept))
                && exists j: nat :: j < patience && FirstArrival(c.inbox, rpc, accept, j) && c.inbox[j] == Incoming(m))
  {
    WaitReturnsIff(fill, c, rpc, accept, after, patience, m);
    forall k: nat
      ensures FirstEventAt(c.events, From(c.events, after), |c.events|, rpc, accept, k) <==>
              FirstInView(c.events, after, rpc, accept, k)
    {
      FirstInLogMeans(c.events, after, rpc, accept, k);
    }
    forall j: nat
      ensures FirstFitAt(c.inbox, rpc, accept, j) <==> FirstArrival(c.inbox, rpc, accept, j)
    {
      FirstFitMeans(c.inbox, rpc, accept, j);
    }
    forall i: nat | i < |c.events|
      ensures From(c.events, after) <= i <==> InView(c.events, after, i)
    {}
  }

  // ----- When the stream ends -----

  // The stream ends at place `j`.
  predicate ClosedAt(inbox: seq<Arrival>, j: nat) {
    j < |inbox| && inbox[j] == Closed && forall i :: 0 <= i < j ==> inbox[i].Incoming?
  }

  predicate ClosedBeforeAnswer(inbox: seq<Arrival>, id: int, patience: nat) {
    exists j: nat :: j < patience && ClosedAt(inbox, j) && forall i :: 0 <= i < j ==> !IsAnswerTo(inbox[i].m, id)
  }

  predicate ClosedBeforeFit(inbox: seq<Arrival>, rpc: string, accept: Condition, patience: nat) {
    exists j: nat :: j < patience && ClosedAt(inbox, j)
                     && forall i :: 0 <= i < j ==> Wanted(inbox[i].m, rpc, accept) ==> ServerAsks(inbox[i].m)
  }

  lemma ClosedAtRest(inbox: seq<Arrival>, j: nat)
    requires inbox != [] && inbox[0].Incoming?
    ensures ClosedAt(inbox[1..], j) <==> ClosedAt(inbox, j + 1)
  {
    var rest := inbox[1..];
    assert forall i :: 0 <= i < |rest| ==> rest[i] == inbox[i + 1];
    if ClosedAt(inbox, j + 1) {
      forall i | 0 <= i < j
        ensures rest[i].Incoming?
      {
        assert inbox[i + 1].Incoming?;
      }
    }
    if ClosedAt(rest, j) {
      forall i | 0 <= i < j + 1
        ensures inbox[i].Incoming?
      {
        if i > 0 {
          assert rest[i - 1].Incoming?;
        }
      }
    }
  }

  lemma ClosedAnswerStep(inbox: seq<Arrival>, id: int, patience: nat)
    requires patience > 0 && inbox != [] && inbox[0].Incoming? && !IsAnswerTo(inbox[0].m, id)
    ensures ClosedBeforeAnswer(inbox, id, patience) <==> ClosedBeforeAnswer(inbox[1..], id, patience - 1)
  {
    var rest := inbox[1..];
    assert forall i :: 0 <= i < |rest| ==> rest[i] == inbox[i + 1];
    if j: nat :| j < patience && ClosedAt(inbox, j) && forall i :: 0 <= i < j ==> !IsAnswerTo(inbox[i].m, id) {
      ClosedAtRest(inbox, j - 1);
      assert forall i :: 0 <= i < j - 1 ==> !IsAnswerTo(rest[i].m, id);
    }
    if j: nat :| j < patience - 1 && ClosedAt(rest, j) && forall i :: 0 <= i < j ==> !IsAnswerTo(rest[i].m, id) {
      ClosedAtRest(inbox, j);
      assert forall i :: 0 < i < j + 1 ==> inbox[i] == rest[i - 1];
      assert ClosedAt(inbox, j + 1);
    }
  }

  // A request reports the end of the stream exactly when it comes in time and before the answer.
  lemma {:induction false} RequestsSeeTheEnd(fill: Filler, c: Client, id: int, patience: nat)
    ensures AwaitAnswer(fill, c, id, patience).1 == StreamClosed <==> ClosedBeforeAnswer(c.inbox, id, patience)
    decreases patience
  {
    if patience > 0 && c.inbox != [] {
      if c.inbox[0].Closed? {
        assert ClosedAt(c.inbox, 0);
      } else if !IsAnswerTo(c.inbox[0].m, id) {
        RequestsSeeTheEnd(fill, Log(fill, c, c.inbox[0].m), id, patience - 1);
        ClosedAnswerStep(c.inbox, id, patience);
      }
    }
  }

  lemma ClosedFitStep(inbox: seq<Arrival>, rpc: string, accept: Condition, patience: nat)
    requires patience > 0 && inbox != [] && inbox[0].Incoming? && (Wanted(inbox[0].m, rpc, accept) ==> ServerAsks(inbox[0].m))
    ensures ClosedBeforeFit(inbox, rpc, accept, patience) <==> ClosedBeforeFit(inbox[1..], rpc, accept, patience - 1)
  {
    var rest := inbox[1..];
    assert forall i :: 0 <= i < |rest| ==> rest[i] == inbox[i + 1];
    if j: nat :| j < patience && ClosedAt(inbox, j)
                 && forall i :: 0 <= i < j ==> Wanted(inbox[i].m, rpc, accept) ==> ServerAsks(inbox[i].m) {
      ClosedAtRest(inbox, j - 1);
      assert forall i :: 0 <= i < j - 1 ==> Wanted(rest[i].m, rpc, accept) ==> ServerAsks(rest[i].m);
    }
    if j: nat :| j < patience - 1 && ClosedAt(rest, j)
                 && forall i :: 0 <= i < j ==> Wanted(rest[i].m, rpc, accept) ==> ServerAsks(rest[i].m) {
      ClosedAtRest(inbox, j);
      assert forall i :: 0 < i < j + 1 ==> inbox[i] == rest[i - 1];
      assert ClosedAt(inbox, j + 1);
    }
  }

  // The same for a wait.
  lemma {:induction false} WaitsSeeTheEnd(fill: Filler, c: Client, rpc: string, accept: Condition, patience: nat)
    ensures AwaitNotification(fill, c, rpc, accept, patience).1 == StreamClosed <==>
            ClosedBeforeFit(c.inbox, rpc, accept, patience)
    decreases patience
  {
    if patience > 0 && c.inbox != [] {
      if c.inbox[0].Closed? {
        assert ClosedAt(c.inbox, 0);
      } else if Wanted(c.inbox[0].m, rpc, accept) ==> ServerAsks(c.inbox[0].m) {
        WaitsSeeTheEnd(fill, Log(fill, c, c.inbox[0].m), rpc, accept, patience - 1);
        ClosedFitStep(c.inbox, rpc, accept, patience);
      }
    }
  }
}

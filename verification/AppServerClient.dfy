// The JSONL client that shares one inbox between requests, notifications and server-initiated
// requests. `patience` is how many messages a wait takes before its deadline passes.
module AppServerClient {
  import opened Prelude
  import opened Json

  // A JSON object by the members the client looks at; `rest` holds the others.
  datatype Message = Message(id: Option<Json>, rpc: Option<Json>, params: Option<Json>, rest: Fields)

  datatype Arrival = Incoming(m: Message) | Closed

  datatype Sent =
    | SentRequest(requestId: int, rpc: string, params: Option<Fields>)
    | SentNotification(rpc: string)
    | Accepted(id: Json, content: Fields)
    | Unsupported(id: Json, rpc: string)

  // Fills in an elicitation form.
  type Filler = Option<Fields -> Fields>

  // `returned` is the history of answers handed to callers.
  datatype Client = Client(
    nextId: int,
    events: seq<Message>,
    elicitations: seq<Fields>,
    sent: seq<Sent>,
    inbox: seq<Arrival>,
    returned: seq<Message>)

  datatype Outcome = Returned(m: Message) | TimedOut | StreamClosed | Done

  const ELICITATION := "mcpServer/elicitation/request"
  const CONFIRMED: Fields := map["confirmation" := Str("confirmed")]

  // ----- One message -----

  predicate IsServerRequest(m: Message) {
    m.id.Some? && m.rpc.Some? && m.rpc.value.Str?
  }

  predicate Answers(m: Message, id: int) {
    m.id.Some? && EqualsInt(m.id.value, id) && m.rpc.None?
  }

  // The members of `params`, if it is an object.
  function Members(m: Message): Option<Fields> {
    if m.params.Some? && m.params.value.Obj? then Some(m.params.value.fields) else None
  }

  function Content(fill: Filler, params: Option<Fields>): Fields {
    if fill.None? then CONFIRMED
    else fill.value(if params.Some? then params.value else map[])
  }

  function ReplyTo(fill: Filler, m: Message): Sent
    requires IsServerRequest(m)
  {
    if m.rpc.value.s == ELICITATION then Accepted(m.id.value, Content(fill, Members(m)))
    else Unsupported(m.id.value, m.rpc.value.s)
  }

  function Elicited(m: Message): seq<Fields>
    requires IsServerRequest(m)
  {
    if m.rpc.value.s == ELICITATION && Members(m).Some? then [Members(m).value] else []
  }

  // The reply a server request must get: under its own id, an accepted form for an elicitation and
  // the method's name in an error for anything else.
  predicate AnsweredBy(fill: Filler, m: Message, s: Sent) {
    && m.id.Some? && m.rpc.Some? && m.rpc.value.Str?
    && (m.rpc.value.s == "mcpServer/elicitation/request" ==>
          && s.Accepted? && s.id == m.id.value
          && s.content == if fill.None? then map["confirmation" := Str("confirmed")]
                          else if m.params.Some? && m.params.value.Obj? then fill.value(m.params.value.fields)
                          else fill.value(map[]))
    && (m.rpc.value.s != "mcpServer/elicitation/request" ==> s == Unsupported(m.id.value, m.rpc.value.s))
  }

  // Take the next message off the inbox and log it, answering it if the server asked.
  function Log(fill: Filler, c: Client, m: Message): Client
    requires c.inbox != []
  {
    var logged := c.(events := c.events + [m], inbox := c.inbox[1..]);
    if IsServerRequest(m)
    then logged.(elicitations := c.elicitations + Elicited(m), sent := c.sent + [ReplyTo(fill, m)])
    else logged
  }

  // ----- The two waits -----

  // Does the next arrival end the wait for the answer to `id`?
  predicate Ends(next: Arrival, id: int) {
    next.Closed? || Answers(next.m, id)
  }

  function End(c: Client): (Client, Outcome)
    requires c.inbox != []
  {
    match c.inbox[0]
    case Closed => (c.(inbox := c.inbox[1..]), StreamClosed)
    case Incoming(m) => (c.(inbox := c.inbox[1..], returned := c.returned + [m]), Returned(m))
  }

  function AwaitAnswer(fill: Filler, c: Client, id: int, patience: nat): (Client, Outcome)
    decreases patience
  {
    if patience == 0 || c.inbox == [] then (c, TimedOut)
    else if Ends(c.inbox[0], id) then End(c)
    else AwaitAnswer(fill, Log(fill, c, c.inbox[0].m), id, patience - 1)
  }

  function Asked(c: Client, rpc: string, params: Option<Fields>): Client {
    c.(nextId := c.nextId + 1, sent := c.sent + [SentRequest(c.nextId, rpc, params)])
  }

  function Request(fill: Filler, c: Client, rpc: string, params: Option<Fields>, patience: nat): (Client, Outcome) {
    AwaitAnswer(fill, Asked(c, rpc, params), c.nextId, patience)
  }

  type Condition = Fields -> bool

  predicate IsNotification(m: Message, rpc: string, accept: Condition) {
    m.rpc == Some(Str(rpc)) && Members(m).Some? && accept(Members(m).value)
  }

  function FirstLogged(events: seq<Message>, rpc: string, accept: Condition): Option<Message> {
    if events == [] then None
    else if IsNotification(events[0], rpc, accept) then Some(events[0])
    else FirstLogged(events[1..], rpc, accept)
  }

  function AwaitNotification(fill: Filler, c: Client, rpc: string, accept: Condition, patience: nat): (Client, Outcome)
    decreases patience
  {
    if patience == 0 || c.inbox == [] then (c, TimedOut)
    else match c.inbox[0]
      case Closed => (c.(inbox := c.inbox[1..]), StreamClosed)
      case Incoming(m) =>
        if !IsServerRequest(m) && IsNotification(m, rpc, accept) then (Log(fill, c, m), Returned(m))
        else AwaitNotification(fill, Log(fill, c, m), rpc, accept, patience - 1)
  }

  // Where a slice that starts at `after` begins: a negative start counts from the end.
  function From<T>(s: seq<T>, after: int): (i: nat)
    ensures i <= |s|
  {
    if after < -|s| then 0
    else if after < 0 then |s| + after
    else if after <= |s| then after
    else |s|
  }

  function WaitFor(fill: Filler, c: Client, rpc: string, accept: Condition, after: int, patience: nat): (Client, Outcome) {
    match FirstLogged(c.events[From(c.events, after)..], rpc, accept)
    case Some(m) => (c, Returned(m))
    case None => AwaitNotification(fill, c, rpc, accept, patience)
  }

  // ----- Runs -----

  datatype Call =
    | Ask(rpc: string, params: Option<Fields>, patience: nat)
    | Wait(rpc: string, accept: Condition, after: int, patience: nat)
    | Notify(rpc: string)

  function Notified(c: Client, rpc: string): Client {
    c.(sent := c.sent + [SentNotification(rpc)])
  }

  function Perform(fill: Filler, c: Client, call: Call): (Client, Outcome) {
    match call
    case Ask(rpc, params, patience) => Request(fill, c, rpc, params, patience)
    case Wait(rpc, accept, after, patience) => WaitFor(fill, c, rpc, accept, after, patience)
    case Notify(rpc) => (Notified(c, rpc), Done)
  }

  function Run(fill: Filler, c: Client, calls: seq<Call>): (Client, seq<Outcome>)
    decreases |calls|
  {
    if calls == [] then (c, [])
    else
      var (next, outcome) := Perform(fill, c, calls[0]);
      var (last, rest) := Run(fill, next, calls[1..]);
      (last, [outcome] + rest)
  }

  function Start(stream: seq<Arrival>): Client {
    Client(1, [], [], [], stream, [])
  }

  // ----- Induction over runs -----

  type Property = Client -> bool

  // Every single step a call is made of keeps the property.
  ghost predicate Inductive(fill: Filler, keeps: Property) {
    && (forall c: Client, m :: keeps(c) && c.inbox != [] && c.inbox[0] == Incoming(m) ==> keeps(Log(fill, c, m)))
    && (forall c: Client, id :: keeps(c) && c.inbox != [] && Ends(c.inbox[0], id) ==> keeps(End(c).0))
    && (forall c, rpc, params :: keeps(c) ==> keeps(Asked(c, rpc, params)))
    && (forall c, rpc :: keeps(c) ==> keeps(Notified(c, rpc)))
  }

  lemma {:induction false} AwaitAnswerKeeps(fill: Filler, keeps: Property, c: Client, id: int, patience: nat)
    requires Inductive(fill, keeps) && keeps(c)
    ensures keeps(AwaitAnswer(fill, c, id, patience).0)
    decreases patience
  {
    if patience > 0 && c.inbox != [] && !Ends(c.inbox[0], id) {
      AwaitAnswerKeeps(fill, keeps, Log(fill, c, c.inbox[0].m), id, patience - 1);
    }
  }

  lemma {:induction false} AwaitNotificationKeeps(
      fill: Filler, keeps: Property, c: Client, rpc: string, accept: Condition, patience: nat)
    requires Inductive(fill, keeps) && keeps(c)
    ensures keeps(AwaitNotification(fill, c, rpc, accept, patience).0)
    decreases patience
  {
    if patience > 0 && c.inbox != [] {
      if c.inbox[0].Closed? {
        assert Ends(c.inbox[0], 0) && End(c).0 == c.(inbox := c.inbox[1..]);
      } else {
        AwaitNotificationKeeps(fill, keeps, Log(fill, c, c.inbox[0].m), rpc, accept, patience - 1);
      }
    }
  }

  lemma {:induction false} RunKeeps(fill: Filler, keeps: Property, c: Client, calls: seq<Call>)
    requires Inductive(fill, keeps) && keeps(c)
    ensures keeps(Run(fill, c, calls).0)
    decreases |calls|
  {
    if calls != [] {
      match calls[0] {
        case Ask(rpc, params, patience) =>
          AwaitAnswerKeeps(fill, keeps, Asked(c, rpc, params), c.nextId, patience);
        case Wait(rpc, accept, after, patience) =>
          AwaitNotificationKeeps(fill, keeps, c, rpc, accept, patience);
        case Notify(rpc) =>
      }
      RunKeeps(fill, keeps, Perform(fill, c, calls[0]).0, calls[1..]);
    }
  }

  // ----- What every run keeps -----

  // `z` is `x` and `y` merged, each in its own order.
  ghost predicate Interleaves(z: seq<Message>, x: seq<Message>, y: seq<Message>)
    decreases |z|
  {
    if z == [] then x == [] && y == []
    else
      var n := |z| - 1;
      || (x != [] && x[|x| - 1] == z[n] && Interleaves(z[..n], x[..|x| - 1], y))
      || (y != [] && y[|y| - 1] == z[n] && Interleaves(z[..n], x, y[..|y| - 1]))
  }

  function Messages(arrivals: seq<Arrival>): seq<Message> {
    if arrivals == [] then []
    else
      var n := |arrivals| - 1;
      Messages(arrivals[..n]) + match arrivals[n] case Incoming(m) => [m] case Closed => []
  }

  function ServerRequests(ms: seq<Message>): (rs: seq<Message>)
    ensures forall m :: m in rs ==> IsServerRequest(m)
  {
    if ms == [] then []
    else
      var n := |ms| - 1;
      ServerRequests(ms[..n]) + if IsServerRequest(ms[n]) then [ms[n]] else []
  }

  function Replies(fill: Filler, rs: seq<Message>): seq<Sent>
    requires forall m :: m in rs ==> IsServerRequest(m)
  {
    seq(|rs|, i requires 0 <= i < |rs| => assert rs[i] in rs; ReplyTo(fill, rs[i]))
  }

  // The forms asked for, in order.
  function Forms(rs: seq<Message>): seq<Fields>
    requires forall m :: m in rs ==> IsServerRequest(m)
  {
    if rs == [] then []
    else
      var n := |rs| - 1;
      assert rs[n] in rs;
      Forms(rs[..n]) + Elicited(rs[n])
  }

  predicate IsReply(s: Sent) {
    s.Accepted? || s.Unsupported?
  }

  function RepliesSent(sent: seq<Sent>): seq<Sent> {
    if sent == [] then []
    else
      var n := |sent| - 1;
      RepliesSent(sent[..n]) + if IsReply(sent[n]) then [sent[n]] else []
  }

  // The part of `stream` already taken off the inbox.
  function Consumed(stream: seq<Arrival>, c: Client): seq<Message>
    requires |c.inbox| <= |stream|
  {
    Messages(stream[..|stream| - |c.inbox|])
  }

  // Every message read so far was logged or returned, in order.
  ghost predicate Accounted(stream: seq<Arrival>, c: Client) {
    && |c.inbox| <= |stream| && c.inbox == stream[|stream| - |c.inbox|..]
    && Interleaves(Consumed(stream, c), c.events, c.returned)
    && (forall m :: m in c.returned ==> m.rpc.None?)
  }

  // Every logged server request was answered, in order.
  ghost predicate Replied(fill: Filler, c: Client) {
    && RepliesSent(c.sent) == Replies(fill, ServerRequests(c.events))
    && c.elicitations == Forms(ServerRequests(c.events))
  }

  ghost predicate Kept(fill: Filler, stream: seq<Arrival>, c: Client) {
    Accounted(stream, c) && Replied(fill, c)
  }

  lemma ConsumeOne(stream: seq<Arrival>, inbox: seq<Arrival>)
    requires inbox != [] && |inbox| <= |stream| && inbox == stream[|stream| - |inbox|..]
    ensures var k := |stream| - |inbox|;
            && inbox[1..] == stream[k + 1..]
            && Messages(stream[..k + 1]) == Messages(stream[..k]) + match inbox[0] case Incoming(m) => [m] case Closed => []
  {
    var k := |stream| - |inbox|;
    assert stream[..k + 1][..k] == stream[..k] && stream[k] == inbox[0];
  }

  lemma InterleaveEvent(z: seq<Message>, x: seq<Message>, y: seq<Message>, m: Message)
    requires Interleaves(z, x, y)
    ensures Interleaves(z + [m], x + [m], y)
  {
    assert (z + [m])[..|z|] == z && (x + [m])[..|x|] == x;
  }

  lemma InterleaveAnswer(z: seq<Message>, x: seq<Message>, y: seq<Message>, m: Message)
    requires Interleaves(z, x, y)
    ensures Interleaves(z + [m], x, y + [m])
  {
    assert (z + [m])[..|z|] == z && (y + [m])[..|y|] == y;
  }

  lemma RequestsGrow(events: seq<Message>, m: Message)
    ensures ServerRequests(events + [m]) == ServerRequests(events) + if IsServerRequest(m) then [m] else []
  {
    assert (events + [m])[..|events|] == events;
  }

  lemma RequestRepliesGrow(fill: Filler, rs: seq<Message>, m: Message)
    requires (forall r :: r in rs ==> IsServerRequest(r)) && IsServerRequest(m)
    ensures Replies(fill, rs + [m]) == Replies(fill, rs) + [ReplyTo(fill, m)]
  {
  }

  lemma FormsGrow(rs: seq<Message>, m: Message)
    requires (forall r :: r in rs ==> IsServerRequest(r)) && IsServerRequest(m)
    ensures Forms(rs + [m]) == Forms(rs) + Elicited(m)
  {
    assert (rs + [m])[..|rs|] == rs;
  }

  lemma RepliesGrow(sent: seq<Sent>, s: Sent)
    ensures RepliesSent(sent + [s]) == RepliesSent(sent) + if IsReply(s) then [s] else []
  {
    assert (sent + [s])[..|sent|] == sent;
  }

  lemma LogAccounts(fill: Filler, stream: seq<Arrival>, c: Client, m: Message)
    requires Accounted(stream, c) && c.inbox != [] && c.inbox[0] == Incoming(m)
    ensures Accounted(stream, Log(fill, c, m))
  {
    ConsumeOne(stream, c.inbox);
    InterleaveEvent(Consumed(stream, c), c.events, c.returned, m);
  }

  lemma LogReplies(fill: Filler, c: Client, m: Message)
    requires Replied(fill, c) && c.inbox != []
    ensures Replied(fill, Log(fill, c, m))
  {
    var rs := ServerRequests(c.events);
    RequestsGrow(c.events, m);
    if IsServerRequest(m) {
      RequestRepliesGrow(fill, rs, m);
      FormsGrow(rs, m);
      RepliesGrow(c.sent, ReplyTo(fill, m));
    } else {
      assert rs + [] == rs;
    }
  }

  lemma LogKeeps(fill: Filler, stream: seq<Arrival>, c: Client, m: Message)
    requires Kept(fill, stream, c) && c.inbox != [] && c.inbox[0] == Incoming(m)
    ensures Kept(fill, stream, Log(fill, c, m))
  {
    LogAccounts(fill, stream, c, m);
    LogReplies(fill, c, m);
  }

  lemma CloseKeeps(fill: Filler, stream: seq<Arrival>, c: Client)
    requires Kept(fill, stream, c) && c.inbox != [] && c.inbox[0].Closed?
    ensures Kept(fill, stream, c.(inbox := c.inbox[1..]))
  {
    ConsumeOne(stream, c.inbox);
    assert Consumed(stream, c) + [] == Consumed(stream, c);
  }

  lemma EndKeeps(fill: Filler, stream: seq<Arrival>, c: Client, id: int)
    requires Kept(fill, stream, c) && c.inbox != [] && Ends(c.inbox[0], id)
    ensures Kept(fill, stream, End(c).0)
  {
    match c.inbox[0] {
      case Closed =>
        CloseKeeps(fill, stream, c);
      case Incoming(m) =>
        ConsumeOne(stream, c.inbox);
        InterleaveAnswer(Consumed(stream, c), c.events, c.returned, m);
    }
  }

  lemma SendKeeps(fill: Filler, stream: seq<Arrival>, c: Client, nextId: int, s: Sent)
    requires Kept(fill, stream, c) && !IsReply(s)
    ensures Kept(fill, stream, c.(nextId := nextId, sent := c.sent + [s]))
  {
    RepliesGrow(c.sent, s);
    assert Consumed(stream, c.(nextId := nextId, sent := c.sent + [s])) == Consumed(stream, c);
  }

  lemma KeptIsInductive(fill: Filler, stream: seq<Arrival>)
    ensures Inductive(fill, c => Kept(fill, stream, c))
  {
    forall c: Client, m | Kept(fill, stream, c) && c.inbox != [] && c.inbox[0] == Incoming(m)
      ensures Kept(fill, stream, Log(fill, c, m))
    {
      LogKeeps(fill, stream, c, m);
    }
    forall c: Client, id | Kept(fill, stream, c) && c.inbox != [] && Ends(c.inbox[0], id)
      ensures Kept(fill, stream, End(c).0)
    {
      EndKeeps(fill, stream, c, id);
    }
    forall c, rpc, params | Kept(fill, stream, c)
      ensures Kept(fill, stream, Asked(c, rpc, params))
    {
      SendKeeps(fill, stream, c, c.nextId + 1, SentRequest(c.nextId, rpc, params));
    }
    forall c, rpc | Kept(fill, stream, c)
      ensures Kept(fill, stream, Notified(c, rpc))
    {
      SendKeeps(fill, stream, c, c.nextId, SentNotification(rpc));
    }
  }

  // ----- What the calls of a run hand back -----

  // How many of the calls are requests.
  function Asks(calls: seq<Call>): nat {
    if calls == [] then 0 else (if calls[0].Ask? then 1 else 0) + Asks(calls[1..])
  }

  // The messages the requests of a run return, in order.
  function Handed(calls: seq<Call>, outcomes: seq<Outcome>): seq<Message>
    requires |calls| == |outcomes|
  {
    if calls == [] then []
    else
      (if calls[0].Ask? && outcomes[0].Returned? then [outcomes[0].m] else []) + Handed(calls[1..], outcomes[1..])
  }

  lemma {:induction false} AwaitAnswerHands(fill: Filler, c: Client, id: int, patience: nat)
    ensures var (l, o) := AwaitAnswer(fill, c, id, patience);
            && l.nextId == c.nextId
            && l.returned == c.returned + (if o.Returned? then [o.m] else [])
            && (o.Returned? ==> Answers(o.m, id))
    decreases patience
  {
    if patience > 0 && c.inbox != [] && !Ends(c.inbox[0], id) {
      AwaitAnswerHands(fill, Log(fill, c, c.inbox[0].m), id, patience - 1);
    }
  }

  lemma {:induction false} AwaitNotificationHandsNothing(
      fill: Filler, c: Client, rpc: string, accept: Condition, patience: nat)
    ensures var l := AwaitNotification(fill, c, rpc, accept, patience).0;
            l.nextId == c.nextId && l.returned == c.returned
    decreases patience
  {
    if patience > 0 && c.inbox != [] && c.inbox[0].Incoming? {
      AwaitNotificationHandsNothing(fill, Log(fill, c, c.inbox[0].m), rpc, accept, patience - 1);
    }
  }

  lemma PerformHands(fill: Filler, c: Client, call: Call)
    ensures var (l, o) := Perform(fill, c, call);
            && l.nextId == c.nextId + (if call.Ask? then 1 else 0)
            && l.returned == c.returned + (if call.Ask? && o.Returned? then [o.m] else [])
            && (call.Ask? && o.Returned? ==> Answers(o.m, c.nextId))
  {
    match call {
      case Ask(rpc, params, patience) =>
        AwaitAnswerHands(fill, Asked(c, rpc, params), c.nextId, patience);
      case Wait(rpc, accept, after, patience) =>
        AwaitNotificationHandsNothing(fill, c, rpc, accept, patience);
      case Notify(rpc) =>
    }
  }

  // A request that returns a message returns one that answers its own place among the requests.
  ghost predicate EachAnswersItsOwn(calls: seq<Call>, outcomes: seq<Outcome>, first: int)
    requires |calls| == |outcomes|
  {
    forall i :: 0 <= i < |calls| && calls[i].Ask? && outcomes[i].Returned? ==>
      Answers(outcomes[i].m, first + Asks(calls[..i]))
  }

  lemma AsksBefore(calls: seq<Call>, i: nat)
    requires 0 < i <= |calls|
    ensures Asks(calls[..i]) == (if calls[0].Ask? then 1 else 0) + Asks(calls[1..][..i - 1])
  {
    assert calls[..i][1..] == calls[1..][..i - 1];
  }

  lemma OwnAnswersStep(calls: seq<Call>, outcomes: seq<Outcome>, first: int)
    requires calls != [] && |calls| == |outcomes|
    requires calls[0].Ask? && outcomes[0].Returned? ==> Answers(outcomes[0].m, first)
    requires EachAnswersItsOwn(calls[1..], outcomes[1..], first + if calls[0].Ask? then 1 else 0)
    ensures EachAnswersItsOwn(calls, outcomes, first)
  {
    forall i | 0 <= i < |calls| && calls[i].Ask? && outcomes[i].Returned?
      ensures Answers(outcomes[i].m, first + Asks(calls[..i]))
    {
      if i > 0 {
        AsksBefore(calls, i);
        assert calls[1..][i - 1] == calls[i] && outcomes[1..][i - 1] == outcomes[i];
      }
    }
  }

  lemma HandedStep(calls: seq<Call>, o: Outcome, os: seq<Outcome>)
    requires calls != [] && |calls| == |os| + 1
    ensures Handed(calls, [o] + os) == (if calls[0].Ask? && o.Returned? then [o.m] else []) + Handed(calls[1..], os)
  {
    assert ([o] + os)[1..] == os;
  }

  // One call and the rest of the run, whatever they do to the client.
  lemma HandsBoth(calls: seq<Call>, o: Outcome, os: seq<Outcome>, c: Client, next: Client, l: Client)
    requires calls != [] && |calls| == |os| + 1
    requires next.nextId == c.nextId + (if calls[0].Ask? then 1 else 0)
    requires next.returned == c.returned + (if calls[0].Ask? && o.Returned? then [o.m] else [])
    requires calls[0].Ask? && o.Returned? ==> Answers(o.m, c.nextId)
    requires l.nextId == next.nextId + Asks(calls[1..]) && l.returned == next.returned + Handed(calls[1..], os)
    requires EachAnswersItsOwn(calls[1..], os, next.nextId)
    ensures l.nextId == c.nextId + Asks(calls) && l.returned == c.returned + Handed(calls, [o] + os)
    ensures EachAnswersItsOwn(calls, [o] + os, c.nextId)
  {
    assert ([o] + os)[1..] == os;
    OwnAnswersStep(calls, [o] + os, c.nextId);
    HandedStep(calls, o, os);
    Regroup(c.returned, if calls[0].Ask? && o.Returned? then [o.m] else [], Handed(calls[1..], os));
  }

  lemma {:induction false} RunHands(fill: Filler, c: Client, calls: seq<Call>)
    ensures var (l, os) := Run(fill, c, calls);
            && |os| == |calls|
            && l.nextId == c.nextId + Asks(calls)
            && l.returned == c.returned + Handed(calls, os)
            && EachAnswersItsOwn(calls, os, c.nextId)
    decreases |calls|
  {
    if calls == [] {
      assert c.returned + [] == c.returned;
    } else {
      PerformHands(fill, c, calls[0]);
      var (next, o) := Perform(fill, c, calls[0]);
      RunHands(fill, next, calls[1..]);
      var (l, os) := Run(fill, next, calls[1..]);
      HandsBoth(calls, o, os, c, next, l);
    }
  }

  // In every run each request that returns a message returns one without a method and with its own
  // id: the first request 1, the next 2, and so on.
  lemma EveryRequestReturnsItsOwnAnswer(fill: Filler, stream: seq<Arrival>, calls: seq<Call>, i: nat)
    requires i < |calls|
    ensures |Run(fill, Start(stream), calls).1| == |calls|
    ensures var o := Run(fill, Start(stream), calls).1[i];
            calls[i].Ask? && o.Returned? ==> Answers(o.m, 1 + Asks(calls[..i]))
  {
    RunHands(fill, Start(stream), calls);
  }

  // Whatever is called and whatever arrives, the consumed messages are the event log merged in
  // order with the messages the requests handed back, and the replies sent answer the consumed
  // server requests, one each and in order.
  lemma EveryRunAccountsForEveryMessage(fill: Filler, stream: seq<Arrival>, calls: seq<Call>)
    ensures var (c, os) := Run(fill, Start(stream), calls);
            && |c.inbox| <= |stream| && c.inbox == stream[|stream| - |c.inbox|..]
            && |os| == |calls|
            && Interleaves(Consumed(stream, c), c.events, Handed(calls, os))
            && |RepliesSent(c.sent)| == |ServerRequests(Consumed(stream, c))|
            && (forall i :: 0 <= i < |RepliesSent(c.sent)| ==>
                  AnsweredBy(fill, ServerRequests(Consumed(stream, c))[i], RepliesSent(c.sent)[i]))
            && c.elicitations == Forms(ServerRequests(Consumed(stream, c)))
  {
    var start := Start(stream);
    assert stream[..0] == [] && stream[0..] == stream;
    assert Kept(fill, stream, start);
    KeptIsInductive(fill, stream);
    RunKeeps(fill, c => Kept(fill, stream, c), start, calls);
    RunHands(fill, start, calls);
    var (c, os) := Run(fill, start, calls);
    assert c.returned == Handed(calls, os);
    AnswersAreNotRequests(Consumed(stream, c), c.events, c.returned);
    RepliesAreRight(fill, ServerRequests(c.events));
  }

  lemma RepliesAreRight(fill: Filler, rs: seq<Message>)
    requires forall m :: m in rs ==> IsServerRequest(m)
    ensures forall i :: 0 <= i < |rs| ==> AnsweredBy(fill, rs[i], Replies(fill, rs)[i])
  {
    forall i | 0 <= i < |rs|
      ensures AnsweredBy(fill, rs[i], Replies(fill, rs)[i])
    {
      assert rs[i] in rs;
    }
  }

  lemma {:induction false} AnswersAreNotRequests(z: seq<Message>, x: seq<Message>, y: seq<Message>)
    requires Interleaves(z, x, y) && forall m :: m in y ==> m.rpc.None?
    ensures ServerRequests(z) == ServerRequests(x)
    decreases |z|
  {
    if z != [] {
      var n := |z| - 1;
      if x != [] && x[|x| - 1] == z[n] && Interleaves(z[..n], x[..|x| - 1], y) {
        AnswersAreNotRequests(z[..n], x[..|x| - 1], y);
      } else {
        assert y[|y| - 1] in y;
        AnswersAreNotRequests(z[..n], x, y[..|y| - 1]);
      }
    }
  }

  // ----- Which message a request returns -----

  // The first message that answers `id` is at place `j`, before the stream ends.
  predicate FirstAnswerAt(inbox: seq<Arrival>, id: int, j: nat) {
    && j < |inbox| && inbox[j].Incoming? && Answers(inbox[j].m, id)
    && forall i :: 0 <= i < j ==> inbox[i].Incoming? && !Answers(inbox[i].m, id)
  }

  lemma {:induction false} AwaitReturnsFirstAnswer(fill: Filler, c: Client, id: int, patience: nat, j: nat)
    requires FirstAnswerAt(c.inbox, id, j)
    ensures AwaitAnswer(fill, c, id, patience).1 == if j < patience then Returned(c.inbox[j].m) else TimedOut
    decreases patience
  {
    if patience > 0 && j > 0 {
      var m := c.inbox[0].m;
      assert !Answers(m, id);
      var rest := c.inbox[1..];
      assert rest[j - 1] == c.inbox[j] && forall i :: 0 <= i < j - 1 ==> rest[i] == c.inbox[i + 1];
      AwaitReturnsFirstAnswer(fill, Log(fill, c, m), id, patience - 1, j - 1);
    }
  }

  lemma {:induction false} AwaitReturnsAnAnswer(fill: Filler, c: Client, id: int, patience: nat)
    requires AwaitAnswer(fill, c, id, patience).1.Returned?
    ensures exists j: nat :: j < patience && FirstAnswerAt(c.inbox, id, j)
    decreases patience
  {
    var m := c.inbox[0].m;
    if Answers(m, id) {
      assert FirstAnswerAt(c.inbox, id, 0);
    } else {
      var rest := c.inbox[1..];
      AwaitReturnsAnAnswer(fill, Log(fill, c, m), id, patience - 1);
      var j: nat :| j < patience - 1 && FirstAnswerAt(rest, id, j);
      assert forall i :: 0 < i < |c.inbox| ==> c.inbox[i] == rest[i - 1];
      assert FirstAnswerAt(c.inbox, id, j + 1);
    }
  }

  // A request returns the first arriving message with its id and no method, if that comes in
  // time; responses to other requests and server requests that reuse the id are passed over.
  lemma RequestReturnsItsAnswer(fill: Filler, c: Client, rpc: string, params: Option<Fields>, patience: nat, m: Message)
    ensures Request(fill, c, rpc, params, patience).1 == Returned(m) <==>
            exists j: nat :: j < patience && FirstAnswerAt(c.inbox, c.nextId, j) && c.inbox[j] == Incoming(m)
  {
    var asked := Asked(c, rpc, params);
    if Request(fill, c, rpc, params, patience).1 == Returned(m) {
      AwaitReturnsAnAnswer(fill, asked, c.nextId, patience);
      var j: nat :| j < patience && FirstAnswerAt(c.inbox, c.nextId, j);
      AwaitReturnsFirstAnswer(fill, asked, c.nextId, patience, j);
    }
    if exists j: nat :: j < patience && FirstAnswerAt(c.inbox, c.nextId, j) && c.inbox[j] == Incoming(m) {
      var j: nat :| j < patience && FirstAnswerAt(c.inbox, c.nextId, j) && c.inbox[j] == Incoming(m);
      AwaitReturnsFirstAnswer(fill, asked, c.nextId, patience, j);
    }
  }

  // ----- Which event a wait returns -----

  // Place `k` holds the first event from `start` on that the wait accepts; server requests that
  // arrive during the wait are never accepted, those already logged may be.
  predicate FirstEventAt(events: seq<Message>, start: nat, known: nat, rpc: string, accept: Condition, k: nat) {
    && start <= k < |events| && IsNotification(events[k], rpc, accept)
    && (k >= known ==> !IsServerRequest(events[k]))
    && forall i :: start <= i < k && IsNotification(events[i], rpc, accept) ==> i >= known && IsServerRequest(events[i])
  }

  lemma {:induction false} FirstLoggedIs(events: seq<Message>, start: nat, rpc: string, accept: Condition)
    requires start <= |events|
    ensures match FirstLogged(events[start..], rpc, accept)
            case Some(m) => exists k: nat :: FirstEventAt(events, start, |events|, rpc, accept, k) && events[k] == m
            case None => forall i :: start <= i < |events| ==> !IsNotification(events[i], rpc, accept)
    decreases |events| - start
  {
    if start < |events| {
      assert events[start..][1..] == events[start + 1..];
      if IsNotification(events[start], rpc, accept) {
        assert FirstEventAt(events, start, |events|, rpc, accept, start);
      } else {
        FirstLoggedIs(events, start + 1, rpc, accept);
        if FirstLogged(events[start + 1..], rpc, accept).Some? {
          var k: nat :| FirstEventAt(events, start + 1, |events|, rpc, accept, k)
            && events[k] == FirstLogged(events[start + 1..], rpc, accept).value;
          assert FirstEventAt(events, start, |events|, rpc, accept, k);
        }
      }
    }
  }

  lemma {:induction false} AwaitNotificationReturns(
      fill: Filler, c: Client, rpc: string, accept: Condition, patience: nat, start: nat, known: nat)
    requires start <= known <= |c.events|
    requires forall i :: start <= i < |c.events| && IsNotification(c.events[i], rpc, accept) ==>
               i >= known && IsServerRequest(c.events[i])
    requires AwaitNotification(fill, c, rpc, accept, patience).1.Returned?
    ensures var (l, o) := AwaitNotification(fill, c, rpc, accept, patience);
            l.events != [] && l.events[|l.events| - 1] == o.m
            && FirstEventAt(l.events, start, known, rpc, accept, |l.events| - 1)
    decreases patience
  {
    var m := c.inbox[0].m;
    var l := Log(fill, c, m);
    assert forall i :: 0 <= i < |c.events| ==> l.events[i] == c.events[i];
    if IsServerRequest(m) || !IsNotification(m, rpc, accept) {
      AwaitNotificationReturns(fill, l, rpc, accept, patience - 1, start, known);
    }
  }

  // A wait returns the earliest fitting event from its start index on, looking first at what was
  // logged and then at what arrives.
  lemma WaitReturnsTheFirstFittingEvent(fill: Filler, c: Client, rpc: string, accept: Condition, after: int, patience: nat)
    requires WaitFor(fill, c, rpc, accept, after, patience).1.Returned?
    ensures var (l, o) := WaitFor(fill, c, rpc, accept, after, patience);
            exists k: nat :: FirstEventAt(l.events, From(c.events, after), |c.events|, rpc, accept, k) && l.events[k] == o.m
  {
    var start := From(c.events, after);
    FirstLoggedIs(c.events, start, rpc, accept);
    if FirstLogged(c.events[start..], rpc, accept).None? {
      AwaitNotificationReturns(fill, c, rpc, accept, patience, start, |c.events|);
    }
  }

  // An arriving message that ends the wait.
  predicate Fits(m: Message, rpc: string, accept: Condition) {
    !IsServerRequest(m) && IsNotification(m, rpc, accept)
  }

  // The first arrival that fits is at place `j`, before the stream ends.
  predicate FirstFitAt(inbox: seq<Arrival>, rpc: string, accept: Condition, j: nat) {
    && j < |inbox| && inbox[j].Incoming? && Fits(inbox[j].m, rpc, accept)
    && forall i :: 0 <= i < j ==> inbox[i].Incoming? && !Fits(inbox[i].m, rpc, accept)
  }

  lemma {:induction false} AwaitReturnsFirstFit(
      fill: Filler, c: Client, rpc: string, accept: Condition, patience: nat, j: nat)
    requires FirstFitAt(c.inbox, rpc, accept, j)
    ensures AwaitNotification(fill, c, rpc, accept, patience).1 == if j < patience then Returned(c.inbox[j].m) else TimedOut
    decreases patience
  {
    if patience > 0 && j > 0 {
      var m, rest := c.inbox[0].m, c.inbox[1..];
      assert !Fits(m, rpc, accept);
      assert rest[j - 1] == c.inbox[j] && forall i :: 0 <= i < j - 1 ==> rest[i] == c.inbox[i + 1];
      AwaitReturnsFirstFit(fill, Log(fill, c, m), rpc, accept, patience - 1, j - 1);
    }
  }

  lemma {:induction false} AwaitReturnsAFit(fill: Filler, c: Client, rpc: string, accept: Condition, patience: nat)
    requires AwaitNotification(fill, c, rpc, accept, patience).1.Returned?
    ensures exists j: nat :: j < patience && FirstFitAt(c.inbox, rpc, accept, j)
    decreases patience
  {
    var m := c.inbox[0].m;
    if Fits(m, rpc, accept) {
      assert FirstFitAt(c.inbox, rpc, accept, 0);
    } else {
      var rest := c.inbox[1..];
      AwaitReturnsAFit(fill, Log(fill, c, m), rpc, accept, patience - 1);
      var j: nat :| j < patience - 1 && FirstFitAt(rest, rpc, accept, j);
      assert forall i :: 0 < i < |c.inbox| ==> c.inbox[i] == rest[i - 1];
      assert FirstFitAt(c.inbox, rpc, accept, j + 1);
    }
  }

  lemma AwaitReturnsIff(fill: Filler, c: Client, rpc: string, accept: Condition, patience: nat, m: Message)
    ensures AwaitNotification(fill, c, rpc, accept, patience).1 == Returned(m) <==>
            exists j: nat :: j < patience && FirstFitAt(c.inbox, rpc, accept, j) && c.inbox[j] == Incoming(m)
  {
    if AwaitNotification(fill, c, rpc, accept, patience).1 == Returned(m) {
      AwaitReturnsAFit(fill, c, rpc, accept, patience);
      var j: nat :| j < patience && FirstFitAt(c.inbox, rpc, accept, j);
      AwaitReturnsFirstFit(fill, c, rpc, accept, patience, j);
    }
    if exists j: nat :: j < patience && FirstFitAt(c.inbox, rpc, accept, j) && c.inbox[j] == Incoming(m) {
      var j: nat :| j < patience && FirstFitAt(c.inbox, rpc, accept, j) && c.inbox[j] == Incoming(m);
      AwaitReturnsFirstFit(fill, c, rpc, accept, patience, j);
    }
  }

  // Does the log hold an event the wait accepts, and is `m` the first one from `start` on?
  ghost predicate FirstInLog(events: seq<Message>, start: nat, rpc: string, accept: Condition, m: Message) {
    exists k: nat :: FirstEventAt(events, start, |events|, rpc, accept, k) && events[k] == m
  }

  lemma OneFirstEvent(events: seq<Message>, start: nat, rpc: string, accept: Condition, m: Message, n: Message)
    requires FirstInLog(events, start, rpc, accept, m) && FirstInLog(events, start, rpc, accept, n)
    ensures m == n
  {
    var k: nat :| FirstEventAt(events, start, |events|, rpc, accept, k) && events[k] == m;
    var l: nat :| FirstEventAt(events, start, |events|, rpc, accept, l) && events[l] == n;
  }

  // A wait returns a message exactly when that is the first fitting event logged from the start
  // index on or, if none is logged, the first fitting one to arrive in time.
  lemma WaitReturnsIff(fill: Filler, c: Client, rpc: string, accept: Condition, after: int, patience: nat, m: Message)
    ensures var start := From(c.events, after);
            WaitFor(fill, c, rpc, accept, after, patience).1 == Returned(m) <==>
            || FirstInLog(c.events, start, rpc, accept, m)
            || ((forall i :: start <= i < |c.events| ==> !IsNotification(c.events[i], rpc, accept))
                && exists j: nat :: j < patience && FirstFitAt(c.inbox, rpc, accept, j) && c.inbox[j] == Incoming(m))
  {
    var start := From(c.events, after);
    FirstLoggedIs(c.events, start, rpc, accept);
    match FirstLogged(c.events[start..], rpc, accept) {
      case Some(first) =>
        assert FirstInLog(c.events, start, rpc, accept, first);
        if FirstInLog(c.events, start, rpc, accept, m) {
          OneFirstEvent(c.events, start, rpc, accept, m, first);
        }
      case None =>
        AwaitReturnsIff(fill, c, rpc, accept, patience, m);
    }
  }

  // ----- Request ids are never reused -----

  function RequestIds(sent: seq<Sent>): seq<int> {
    if sent == [] then []
    else
      var n := |sent| - 1;
      RequestIds(sent[..n]) + if sent[n].SentRequest? then [sent[n].requestId] else []
  }

  ghost predicate Numbered(c: Client) {
    && c.nextId == 1 + |RequestIds(c.sent)|
    && forall i :: 0 <= i < |RequestIds(c.sent)| ==> RequestIds(c.sent)[i] == i + 1
  }

  lemma IdsGrow(sent: seq<Sent>, s: Sent)
    ensures RequestIds(sent + [s]) == RequestIds(sent) + if s.SentRequest? then [s.requestId] else []
  {
    assert (sent + [s])[..|sent|] == sent;
  }

  lemma LogKeepsNumbers(fill: Filler, c: Client, m: Message)
    requires c.inbox != []
    ensures var l := Log(fill, c, m); l.nextId == c.nextId && RequestIds(l.sent) == RequestIds(c.sent)
  {
    if IsServerRequest(m) {
      IdsGrow(c.sent, ReplyTo(fill, m));
    }
  }

  lemma AskKeepsNumbers(c: Client, rpc: string, params: Option<Fields>)
    requires Numbered(c)
    ensures Numbered(Asked(c, rpc, params))
  {
    IdsGrow(c.sent, SentRequest(c.nextId, rpc, params));
  }

  lemma NotifyKeepsNumbers(c: Client, rpc: string)
    requires Numbered(c)
    ensures Numbered(Notified(c, rpc))
  {
    IdsGrow(c.sent, SentNotification(rpc));
  }

  lemma NumberedIsInductive(fill: Filler)
    ensures Inductive(fill, c => Numbered(c))
  {
    forall c: Client, m | Numbered(c) && c.inbox != [] && c.inbox[0] == Incoming(m)
      ensures Numbered(Log(fill, c, m))
    {
      LogKeepsNumbers(fill, c, m);
    }
    forall c, rpc, params | Numbered(c)
      ensures Numbered(Asked(c, rpc, params))
    {
      AskKeepsNumbers(c, rpc, params);
    }
    forall c, rpc | Numbered(c)
      ensures Numbered(Notified(c, rpc))
    {
      NotifyKeepsNumbers(c, rpc);
    }
  }

  // Every run sends its requests under the ids 1, 2, 3, ..., and a message that answers one of
  // them answers no other.
  lemma EveryRunNumbersItsRequests(fill: Filler, stream: seq<Arrival>, calls: seq<Call>)
    ensures Numbered(Run(fill, Start(stream), calls).0)
    ensures forall m, a, b :: Answers(m, a) && Answers(m, b) ==> a == b
  {
    NumberedIsInductive(fill);
    RunKeeps(fill, c => Numbered(c), Start(stream), calls);
  }

  // ----- The client object -----

  class AppServerClient {
    const fill: Filler
    var nextId: int
    var events: seq<Message>
    var elicitationRequests: seq<Fields>
    var sent: seq<Sent>
    var messages: seq<Arrival>
    ghost var returned: seq<Message>

    ghost function State(): Client
      reads this
    {
      Client(nextId, events, elicitationRequests, sent, messages, returned)
    }

    constructor (fill: Filler, stream: seq<Arrival>)
      ensures this.fill == fill && State() == Start(stream)
    {
      this.fill := fill;
      nextId, events, elicitationRequests, sent, messages, returned := 1, [], [], [], stream, [];
    }

    // The message stays at the head of the queue until the caller drops it.
    method HandleServerRequest(m: Message)
      requires IsServerRequest(m) && messages != []
      modifies this`events, this`elicitationRequests, this`sent
      ensures events == old(events) + [m]
      ensures |sent| == |old(sent)| + 1 && old(sent) <= sent && AnsweredBy(fill, m, sent[|old(sent)|])
      ensures elicitationRequests == old(elicitationRequests) +
                (if m.rpc.value.s == "mcpServer/elicitation/request" && m.params.Some? && m.params.value.Obj?
                 then [m.params.value.fields] else [])
      ensures State().(inbox := messages[1..]) == Log(fill, old(State()), m)
    {
      events := events + [m];
      if m.rpc.value.s == ELICITATION {
        var params: Fields := map[];
        if m.params.Some? && m.params.value.Obj? {
          params := m.params.value.fields;
          elicitationRequests := elicitationRequests + [params];
        }
        var content := if fill.Some? then fill.value(params) else CONFIRMED;
        sent := sent + [Accepted(m.id.value, content)];
        return;
      }
      sent := sent + [Unsupported(m.id.value, m.rpc.value.s)];
    }

    method SendRequest(rpc: string, params: Option<Fields>, patience: nat) returns (outcome: Outcome)
      modifies this
      ensures (State(), outcome) == Request(fill, old(State()), rpc, params, patience)
    {
      var requestId := nextId;
      nextId := nextId + 1;
      sent := sent + [SentRequest(requestId, rpc, params)];
      var remaining := patience;
      ghost var target := AwaitAnswer(fill, State(), requestId, patience);
      while remaining > 0 && messages != []
        invariant AwaitAnswer(fill, State(), requestId, remaining) == target
        decreases remaining
      {
        match messages[0] {
          case Closed =>
            messages := messages[1..];
            return StreamClosed;
          case Incoming(m) =>
            if Answers(m, requestId) {
              messages := messages[1..];
              returned := returned + [m];
              return Returned(m);
            }
            if IsServerRequest(m) {
              HandleServerRequest(m);
            } else {
              events := events + [m];
            }
            messages := messages[1..];
            remaining := remaining - 1;
        }
      }
      return TimedOut;
    }

    method WaitForNotification(rpc: string, accept: Condition, after: int, patience: nat) returns (outcome: Outcome)
      modifies this
      ensures (State(), outcome) == WaitFor(fill, old(State()), rpc, accept, after, patience)
    {
      var i := From(events, after);
      ghost var first := FirstLogged(events[i..], rpc, accept);
      while i < |events|
        invariant i <= |events| && FirstLogged(events[i..], rpc, accept) == first
      {
        if IsNotification(events[i], rpc, accept) {
          return Returned(events[i]);
        }
        assert events[i..][1..] == events[i + 1..];
        i := i + 1;
      }
      var remaining := patience;
      ghost var target := AwaitNotification(fill, State(), rpc, accept, patience);
      while remaining > 0 && messages != []
        invariant AwaitNotification(fill, State(), rpc, accept, remaining) == target
        decreases remaining
      {
        match messages[0] {
          case Closed =>
            messages := messages[1..];
            return StreamClosed;
          case Incoming(m) =>
            if IsServerRequest(m) {
              HandleServerRequest(m);
              messages := messages[1..];
            } else {
              events := events + [m];
              messages := messages[1..];
              if IsNotification(m, rpc, accept) {
                return Returned(m);
              }
            }
            remaining := remaining - 1;
        }
      }
      return TimedOut;
    }
  }
}

/**
 * The application tasks of app.py, written as explicit state machines that
 * the scheduler drives one step at a time.
 *
 * Each awaitable helper (`async_accept`, `async_recv`, `async_send`) is one
 * `Can` suspension followed by one socket operation. A task's program
 * counter records which helper it is suspended in; resuming it performs
 * that helper's operation and runs on to the next suspension. The world a
 * task talks to is part of its state: a handler holds the chunks its client
 * will deliver to `recv`, the server holds the connections that `accept`
 * will return.
 */
module Tasks {
  import opened Base
  import opened Protocol
  import opened Scheduler

  /** A socket, identified by its descriptor. */
  type Handle = nat

  /** The byte count the handler passes to `recv`. */
  const ChunkSize: nat := 100

  /** The `(action, target)` pair a `Can` yields. */
  datatype Request = Request(action: Action, target: Handle)

  /** The socket operation a helper performs once it is resumed. */
  datatype Op =
    | Accept(listener: Handle)
    | Recv(client: Handle, num: nat)
    | SendData(client: Handle, data: Bytes)

  /** An awaited helper: the one suspension `Can` yields, then the operation. */
  datatype Awaitable = Awaitable(request: Request, op: Op)

  function Can(action: Action, target: Handle): Request {
    Request(action, target)
  }

  function AsyncAccept(sock: Handle): Awaitable {
    Awaitable(Can(Read, sock), Accept(sock))
  }

  function AsyncRecv(client: Handle, num: nat): Awaitable {
    Awaitable(Can(Read, client), Recv(client, num))
  }

  function AsyncSend(client: Handle, data: Bytes): Awaitable {
    Awaitable(Can(Send, client), SendData(client, data))
  }

  function OpTarget(op: Op): Handle {
    match op
    case Accept(l) => l
    case Recv(c, _) => c
    case SendData(c, _) => c
  }

  /** The readiness an operation needs so that it does not block. */
  function OpDirection(op: Op): Action {
    if op.SendData? then Send else Read
  }

  /** A helper suspends once, for the readiness its own operation needs, on
      the socket that operation uses. */
  predicate SuspendsForOwnOp(aw: Awaitable) {
    aw.request == Request(OpDirection(aw.op), OpTarget(aw.op))
  }

  /** `async_accept` and `async_recv` wait for Read and `async_send` for
      Send, each on the socket it was given. */
  lemma HelpersSuspendForOwnOp(sock: Handle, num: nat, data: Bytes)
    ensures SuspendsForOwnOp(AsyncAccept(sock)) && AsyncAccept(sock).request == Request(Read, sock)
    ensures SuspendsForOwnOp(AsyncRecv(sock, num)) && AsyncRecv(sock, num).request == Request(Read, sock)
    ensures SuspendsForOwnOp(AsyncSend(sock, data)) && AsyncSend(sock, data).request == Request(Send, sock)
  {
  }

  /** Where the body of `handler` is: not yet started, or suspended in
      `async_recv`, or suspended in `async_send` with the reply to send. */
  datatype HandlerPc = HandlerCreated | InRecv | InSend(reply: Bytes)

  /** A `handler(client)` coroutine. `inbox` holds what the client will
      deliver to successive `recv` calls; `received` what it has delivered;
      `log` the socket operations performed so far. When `resetAt` is
      `Some(k)`, the connection fails at the socket operation with index k
      in the log: that `recv` or `send` raises instead of completing. */
  datatype Handler = Handler(client: Handle, pc: HandlerPc, inbox: seq<Bytes>, received: seq<Bytes>, log: seq<Op>, resetAt: Option<nat>)

  /** Where the body of `server` is: not yet started, or suspended in
      `async_accept`. */
  datatype ServerPc = ServerCreated | InAccept

  /** A connection `accept` will return: the client socket, the chunks that
      client will send, and where (if anywhere) the connection fails. */
  datatype Connection = Connection(client: Handle, requests: seq<Bytes>, resetAt: Option<nat>)

  /** A `server(address)` coroutine on the listening socket `listener`. */
  datatype Server = Server(listener: Handle, pc: ServerPc, backlog: seq<Connection>, log: seq<Op>)

  datatype Task = Serving(server: Server) | Handling(handler: Handler)

  /** A fresh `handler(client)` coroutine, as `server` creates it. */
  function NewHandler(c: Connection): Handler {
    Handler(c.client, HandlerCreated, c.requests, [], [], c.resetAt)
  }

  /** The socket a task was given and owns. */
  function Owner(t: Task): Handle {
    match t
    case Serving(v) => v.listener
    case Handling(h) => h.client
  }

  function Log(t: Task): seq<Op> {
    match t
    case Serving(v) => v.log
    case Handling(h) => h.log
  }

  /** The helper a task is suspended in, if it has started. */
  function Awaited(t: Task): Option<Awaitable> {
    match t
    case Serving(v) => if v.pc == InAccept then Some(AsyncAccept(v.listener)) else None
    case Handling(h) =>
      match h.pc
      case HandlerCreated => None
      case InRecv => Some(AsyncRecv(h.client, ChunkSize))
      case InSend(reply) => Some(AsyncSend(h.client, reply))
  }

  /** The operations resuming `t` performs before it runs any further. */
  function AwaitedOps(t: Task): seq<Op> {
    match Awaited(t)
    case None => []
    case Some(aw) => [aw.op]
  }

  /** A task entering the helper `aw` yields that helper's request and is
      resumed as `resumed`. */
  function Yield(aw: Awaitable, resumed: Task): Status<Task, Handle> {
    Suspended(aw.request.action, aw.request.target, resumed)
  }

  /** What `recv` returns next: the next chunk, or `b''` once the client
      has nothing more to send. */
  function NextChunk(inbox: seq<Bytes>): Bytes {
    if inbox == [] then [] else inbox[0]
  }

  function RestOf(inbox: seq<Bytes>): seq<Bytes> {
    if inbox == [] then [] else inbox[1..]
  }

  /** The handler just after `recv` has returned the next chunk: the chunk
      is consumed, recorded and the `recv` logged. */
  function Received(h: Handler): Handler {
    h.(inbox := RestOf(h.inbox), received := h.received + [NextChunk(h.inbox)],
       log := h.log + [AsyncRecv(h.client, ChunkSize).op])
  }

  /** How the handler `h` carries on once it has computed `response` to the
      chunk it received: return, raise from `int()`, or enter `async_send`. */
  function Answer(h: Handler, response: Response): StepResult<Task, Handle> {
    match response
    case Close => StepResult([], Finished)
    case Fail => StepResult([], Raised("ValueError"))
    case Reply(data) => StepResult([], Yield(AsyncSend(h.client, data), Handling(h.(pc := InSend(data)))))
  }

  /** The handler suspends after a request only to send the reply to it. */
  lemma AnswerSuspendsToSend(h: Handler, response: Response)
    requires Answer(h, response).status.Suspended?
    ensures response.Reply?
    ensures Answer(h, response).status == Yield(AsyncSend(h.client, response.data), Handling(h.(pc := InSend(response.data))))
  {
  }

  /** The socket operation the handler is about to perform fails: the
      connection was reset or broken, and `recv` or `send` raises. */
  predicate Resets(h: Handler) {
    h.resetAt == Some(|h.log|)
  }

  /** One `send(None)` into a handler (app.py:73-81). Resumed in a helper,
      it first performs that helper's socket operation, which may raise. */
  function HandlerStep(h: Handler): StepResult<Task, Handle> {
    match h.pc
    case HandlerCreated =>
      StepResult([], Yield(AsyncRecv(h.client, ChunkSize), Handling(h.(pc := InRecv))))
    case InRecv =>
      if Resets(h) then StepResult([], Raised("OSError"))
      else Answer(Received(h), Respond(NextChunk(h.inbox)))
    case InSend(reply) =>
      if Resets(h) then StepResult([], Raised("OSError"))
      else
        var h' := h.(pc := InRecv, log := h.log + [AsyncSend(h.client, reply).op]);
        StepResult([], Yield(AsyncRecv(h.client, ChunkSize), Handling(h')))
  }

  /** One `send(None)` into the server (app.py:84-92): accept one pending
      connection, spawn its handler with `add_task`, and wait to accept
      again. */
  function ServerStep(v: Server): StepResult<Task, Handle> {
    match v.pc
    case ServerCreated =>
      StepResult([], Yield(AsyncAccept(v.listener), Serving(v.(pc := InAccept))))
    case InAccept =>
      if v.backlog == [] then
        StepResult([], Raised("OSError"))
      else
        var v' := v.(backlog := v.backlog[1..], log := v.log + [AsyncAccept(v.listener).op]);
        StepResult([Handling(NewHandler(v.backlog[0]))], Yield(AsyncAccept(v.listener), Serving(v')))
  }

  /** The step function the scheduler drives application tasks with. */
  function AppStep(t: Task): StepResult<Task, Handle> {
    match t
    case Serving(v) => ServerStep(v)
    case Handling(h) => HandlerStep(h)
  }

  /** Whatever helper a task is suspended in waits for the readiness its
      own operation needs, on the task's own socket. */
  lemma AwaitedOnOwner(t: Task)
    requires Awaited(t).Some?
    ensures SuspendsForOwnOp(Awaited(t).value)
    ensures Awaited(t).value.request.target == Owner(t)
    ensures Awaited(t).value.request.action in {Read, Send}
  {
  }

  /** A handler that suspends has entered one of its two helpers, on its own
      client, after performing exactly the operation of the helper it was
      resumed from. */
  lemma HandlerStepYields(h: Handler)
    requires HandlerStep(h).status.Suspended?
    ensures var st := HandlerStep(h).status;
      && st.resumed.Handling? && st.resumed.handler.client == h.client
      && Awaited(st.resumed).Some? && st == Yield(Awaited(st.resumed).value, st.resumed)
      && Log(st.resumed) == h.log + AwaitedOps(Handling(h))
  {
    match h.pc
    case HandlerCreated =>
    case InSend(_) =>
    case InRecv =>
      var response := Respond(NextChunk(h.inbox));
      AnswerSuspendsToSend(Received(h), response);
      var h' := Received(h).(pc := InSend(response.data));
      assert HandlerStep(h).status == Yield(AsyncSend(h.client, response.data), Handling(h'));
      assert Awaited(Handling(h')) == Some(AsyncSend(h.client, response.data));
  }

  /** A server that suspends is back in `async_accept` on its listening
      socket, after performing the accept it was resumed from. */
  lemma ServerStepYields(v: Server)
    requires ServerStep(v).status.Suspended?
    ensures var st := ServerStep(v).status;
      && st.resumed.Serving? && st.resumed.server.listener == v.listener
      && Awaited(st.resumed) == Some(AsyncAccept(v.listener)) && st == Yield(AsyncAccept(v.listener), st.resumed)
      && Log(st.resumed) == v.log + AwaitedOps(Serving(v))
  {
  }

  /** Every suspension of an application task is a Read or a Send (never an
      unexpected action) on the task's own socket, and it is the request of
      the helper the resumed task is now suspended in. */
  lemma SuspendsOnOwnHandle(t: Task)
    requires AppStep(t).status.Suspended?
    ensures var st := AppStep(t).status;
      && st.action in {Read, Send}
      && st.target == Owner(t)
      && Owner(st.resumed) == Owner(t)
      && Awaited(st.resumed).Some?
      && Awaited(st.resumed).value.request == Request(st.action, st.target)
      && SuspendsForOwnOp(Awaited(st.resumed).value)
  {
    match t
    case Serving(v) => ServerStepYields(v);
    case Handling(h) => HandlerStepYields(h);
    AwaitedOnOwner(AppStep(t).status.resumed);
  }

  /** Resuming a task performs exactly the operation of the helper it was
      suspended in, and nothing else, before it suspends again: every socket
      operation is preceded by exactly one suspension for it. */
  lemma ResumePerformsAwaitedOp(t: Task)
    requires AppStep(t).status.Suspended?
    ensures Log(AppStep(t).status.resumed) == Log(t) + AwaitedOps(t)
  {
    match t
    case Serving(v) => ServerStepYields(v);
    case Handling(h) => HandlerStepYields(h);
  }

  /** In the scheduler, a driven application task never triggers the
      unexpected-action error; when it suspends, it is filed under its own
      socket in the map for the direction it asked for. */
  lemma DispatchFilesUnderOwner(s: Sched<Task, Handle>)
    requires s.ready != [] && AppStep(s.ready[0]).status.Suspended?
    ensures var st := AppStep(s.ready[0]).status;
      var r := Dispatch(s, AppStep(s.ready[0]));
      && r.Success?
      && (st.action == Read ==> r.value.waitRead[Owner(s.ready[0])] == st.resumed)
      && (st.action == Send ==> r.value.waitSend[Owner(s.ready[0])] == st.resumed)
  {
    SuspendsOnOwnHandle(s.ready[0]);
    DispatchFiles(s, AppStep(s.ready[0]));
  }

  /** The handler finishes exactly when it is resumed from `async_recv`,
      the `recv` succeeds and the chunk received is blank (or the client has
      nothing more to send). It raises the socket error exactly when it is
      resumed in a helper whose operation fails, and `int()`'s error exactly
      when a received chunk is neither blank nor an integer; it raises in no
      other case. It never spawns a task. */
  lemma HandlerEnds(h: Handler)
    ensures HandlerStep(h).spawned == []
    ensures HandlerStep(h).status.Finished? <==> h.pc == InRecv && !Resets(h) && AllSpace(NextChunk(h.inbox))
    ensures HandlerStep(h).status == Raised("OSError") <==> h.pc != HandlerCreated && Resets(h)
    ensures HandlerStep(h).status == Raised("ValueError") <==>
      h.pc == InRecv && !Resets(h) && !AllSpace(NextChunk(h.inbox)) && ParseInt(NextChunk(h.inbox)).None?
    ensures HandlerStep(h).status.Raised? ==> HandlerStep(h).status.error in {"OSError", "ValueError"}
  {
  }

  /** The reply a request gets (nothing when it gets none). */
  function ReplyTo(request: Bytes): Bytes {
    match Respond(request)
    case Reply(data) => data
    case _ => []
  }

  /** `f` applied to each element of `xs`, in order. */
  function MapSeq<X, Y>(f: X -> Y, xs: seq<X>): (r: seq<Y>)
    ensures |r| == |xs|
    ensures forall i :: 0 <= i < |xs| ==> r[i] == f(xs[i])
  {
    if xs == [] then [] else MapSeq(f, xs[..|xs| - 1]) + [f(xs[|xs| - 1])]
  }

  lemma MapSeqAppend<X, Y>(f: X -> Y, a: seq<X>, b: seq<X>)
    ensures MapSeq(f, a + b) == MapSeq(f, a) + MapSeq(f, b)
  {
    var l, r := MapSeq(f, a + b), MapSeq(f, a) + MapSeq(f, b);
    forall i | 0 <= i < |l| ensures l[i] == r[i] {
      if i >= |a| { assert (a + b)[i] == b[i - |a|]; }
    }
  }

  /** The replies to a sequence of requests, in order. */
  function Replies(requests: seq<Bytes>): seq<Bytes> {
    MapSeq(ReplyTo, requests)
  }

  /** The data sent by a sequence of socket operations, in order. */
  function Sent(log: seq<Op>): seq<Bytes> {
    if log == [] then
      []
    else
      var last := log[|log| - 1];
      Sent(log[..|log| - 1]) + (if last.SendData? then [last.data] else [])
  }

  lemma RepliesPrefix(a: seq<Bytes>, b: seq<Bytes>)
    ensures Replies(a) == Replies(a + b)[..|a|]
  {
    MapSeqAppend(ReplyTo, a, b);
  }

  /** Every operation in `log` is a `recv` or a `send` on `client`. */
  predicate AllOnClient(log: seq<Op>, client: Handle) {
    forall i :: 0 <= i < |log| ==> !log[i].Accept? && OpTarget(log[i]) == client
  }

  lemma AllOnClientSnoc(log: seq<Op>, op: Op, client: Handle)
    requires AllOnClient(log, client) && !op.Accept? && OpTarget(op) == client
    ensures AllOnClient(log + [op], client)
  {
    var log' := log + [op];
    forall i | 0 <= i < |log'| ensures !log'[i].Accept? && OpTarget(log'[i]) == client {
      if i < |log| { assert log'[i] == log[i]; }
    }
  }

  /** What the handler has sent is exactly the replies to what it has
      received, except for the one reply it may be waiting to send. */
  predicate RepliedInOrder(h: Handler) {
    match h.pc
    case HandlerCreated => h.received == [] && h.log == []
    case InRecv => Sent(h.log) == Replies(h.received)
    case InSend(reply) => Sent(h.log) + [reply] == Replies(h.received)
  }

  /** What holds of a handler that started from the requests `requests`:
      it has consumed a prefix of them, every operation it performed was a
      `recv` or a `send` on its own client, and it has replied in order. */
  predicate HandlerInv(h: Handler, requests: seq<Bytes>) {
    && h.received + h.inbox == requests
    && AllOnClient(h.log, h.client)
    && RepliedInOrder(h)
  }

  lemma NewHandlerInv(c: Connection)
    ensures HandlerInv(NewHandler(c), c.requests)
  {
  }

  lemma SentSnoc(log: seq<Op>, op: Op)
    ensures Sent(log + [op]) == Sent(log) + (if op.SendData? then [op.data] else [])
  {
    assert (log + [op])[..|log|] == log;
  }

  lemma RepliesSnoc(requests: seq<Bytes>, request: Bytes)
    ensures Replies(requests + [request]) == Replies(requests) + [ReplyTo(request)]
  {
    MapSeqAppend(ReplyTo, requests, [request]);
  }

  /** Only a non-empty chunk gets a reply: `b''` closes the connection. */
  lemma ReplyNeedsChunk(inbox: seq<Bytes>, data: Bytes)
    requires Respond(NextChunk(inbox)) == Reply(data)
    ensures inbox != [] && ReplyTo(inbox[0]) == data
  {
    assert !AllSpace(NextChunk(inbox));
  }

  lemma ReceiveConsumes(h: Handler)
    requires h.inbox != []
    ensures Received(h).received + Received(h).inbox == h.received + h.inbox
  {
    assert h.inbox == [h.inbox[0]] + h.inbox[1..];
  }

  lemma ReceiveRepliesInOrder(h: Handler, data: Bytes)
    requires h.pc == InRecv && RepliedInOrder(h)
    requires h.inbox != [] && ReplyTo(h.inbox[0]) == data
    ensures RepliedInOrder(Received(h).(pc := InSend(data)))
  {
    SentSnoc(h.log, Recv(h.client, ChunkSize));
    RepliesSnoc(h.received, h.inbox[0]);
  }

  /** Receiving a request that gets a reply, and entering `async_send`
      with that reply, keeps the handler invariant. */
  lemma ReceiveKeepsInv(h: Handler, requests: seq<Bytes>, data: Bytes)
    requires HandlerInv(h, requests) && h.pc == InRecv
    requires h.inbox != [] && ReplyTo(h.inbox[0]) == data
    ensures HandlerInv(Received(h).(pc := InSend(data)), requests)
  {
    ReceiveConsumes(h);
    AllOnClientSnoc(h.log, Recv(h.client, ChunkSize), h.client);
    ReceiveRepliesInOrder(h, data);
  }

  /** Sending the pending reply, and entering `async_recv` again, keeps the
      handler invariant. */
  lemma SendKeepsInv(h: Handler, requests: seq<Bytes>)
    requires HandlerInv(h, requests) && h.pc.InSend?
    ensures HandlerInv(h.(pc := InRecv, log := h.log + [SendData(h.client, h.pc.reply)]), requests)
  {
    AllOnClientSnoc(h.log, SendData(h.client, h.pc.reply), h.client);
    SentSnoc(h.log, SendData(h.client, h.pc.reply));
  }

  /** Driving a handler one step keeps its invariant: it stays on its own
      client and keeps replying to exactly the requests it received. */
  lemma HandlerStepKeepsInv(h: Handler, requests: seq<Bytes>)
    requires HandlerInv(h, requests)
    requires HandlerStep(h).status.Suspended?
    ensures HandlerStep(h).status.resumed.Handling?
    ensures var h' := HandlerStep(h).status.resumed.handler;
      h'.client == h.client && HandlerInv(h', requests)
  {
    HandlerStepYields(h);
    match h.pc
    case HandlerCreated =>
      assert HandlerStep(h).status.resumed == Handling(h.(pc := InRecv));
    case InRecv =>
      var response := Respond(NextChunk(h.inbox));
      AnswerSuspendsToSend(Received(h), response);
      ReplyNeedsChunk(h.inbox, response.data);
      ReceiveKeepsInv(h, requests, response.data);
      assert HandlerStep(h).status.resumed == Handling(Received(h).(pc := InSend(response.data)));
    case InSend(reply) =>
      SendKeepsInv(h, requests);
      assert HandlerStep(h).status.resumed == Handling(h.(pc := InRecv, log := h.log + [SendData(h.client, reply)]));
  }

  /** No cross-talk: whatever a handler has sent went to its own client and
      is a prefix of the replies to that client's own requests. */
  lemma SentIsPrefixOfReplies(h: Handler, requests: seq<Bytes>)
    requires HandlerInv(h, requests)
    ensures forall i :: 0 <= i < |h.log| ==> OpTarget(h.log[i]) == h.client
    ensures |Sent(h.log)| <= |requests|
    ensures Sent(h.log) == Replies(requests)[..|Sent(h.log)|]
  {
    RepliesPrefix(h.received, h.inbox);
    var sent := Sent(h.log);
    var answered := Replies(h.received);
    assert answered == Replies(requests)[..|h.received|];
    var all := Replies(requests);
    match h.pc
    case HandlerCreated =>
      assert sent == [];
    case InRecv =>
      assert sent == answered;
      assert all[..|sent|] == answered;
    case InSend(reply) =>
      assert answered == sent + [reply];
      assert answered[..|sent|] == sent;
      assert all[..|sent|] == answered[..|sent|];
  }

  /** The server only ever accepts on its listening socket, and each step
      that accepts spawns exactly one fresh handler, for the connection it
      accepted, which starts out satisfying the handler invariant. */
  lemma ServerSpawnsHandlers(v: Server)
    requires forall i :: 0 <= i < |v.log| ==> v.log[i] == Accept(v.listener)
    ensures var r := ServerStep(v);
      && (r.status.Suspended? ==>
            && r.status.resumed.Serving?
            && forall i :: 0 <= i < |Log(r.status.resumed)| ==> Log(r.status.resumed)[i] == Accept(v.listener))
      && (r.spawned != [] ==>
            && v.pc == InAccept && v.backlog != []
            && r.spawned == [Handling(NewHandler(v.backlog[0]))]
            && Owner(r.spawned[0]) == v.backlog[0].client
            && HandlerInv(r.spawned[0].handler, v.backlog[0].requests))
      && (r.status.Raised? <==> v.pc == InAccept && v.backlog == [])
      && !r.status.Finished?
  {
    if v.pc == InAccept && v.backlog != [] {
      NewHandlerInv(v.backlog[0]);
    }
  }
}

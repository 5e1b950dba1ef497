# A cooperative socket scheduler and its echo-plus-42 service, in Dafny

`app.py` is a single-threaded TCP service built on a hand-written
cooperative scheduler. Coroutines wait for socket readiness by yielding an
`(Action, socket)` pair through the awaitable `Can`. The loop `run` keeps:

- a FIFO ready queue `TASKS`;
- two wait maps `WAIT_READ` and `WAIT_SEND`, each from a socket to the single task waiting on it;
- `select.select`, which wakes the waiters when the queue runs dry.

The `server` task accepts connections and spawns one `handler` per client.
The handler reads a request, closes the connection on a blank request,
parses any other request as a decimal integer `n`, and replies with the
decimal text of `n + 42` and a newline.

The model has four modules:

- `Base` (base.dfy): `Option` and `Result`.
- `Protocol` (protocol.dfy): the request logic of the handler.
  - `bytes.strip`, the base-10 subset of `int()`, `str()` on integers, `algorithm`.
  - `Respond`: what the handler does with one request.
  - The parse/format round trips in both directions.
- `Scheduler` (scheduler.dfy): `add_task` and `run` as a sequential state machine over `Sched(ready, waitRead, waitSend)`.
  - Tasks are abstract: a value of any type `T`.
  - One `send(None)` is a caller-supplied function `step`. Its result lists the tasks the step spawned with `add_task`, then whether the task finished, suspended on `(action, handle)`, or raised.
  - `select` is an oracle: a sequence of answers, consumed one per poll; an answer is the ready lists or an exception raised by `select`.
  - `Run` is the reference semantics, one transition at a time. `RunLoop` is the nested loops of `run` as written, and it is proved to compute the same history as `Run`.
- `Tasks` (tasks.dfy): the two coroutines as explicit state machines plugged into the scheduler.
  - `Can` and the three single-suspension helpers.
  - `handler`. Its connection may be given a `resetAt`, the index of the socket operation at which `recv` or `send` raises.
  - `server`.

## Model

| member | source | states |
|---|---|---|
| Protocol.TrimLeft | app.py:76 | the result is the suffix of the input after a whitespace-only prefix, and it does not start with whitespace |
| Protocol.TrimRight | app.py:76 | the result is the prefix of the input before a whitespace-only suffix, and it does not end with whitespace |
| Protocol.Strip | app.py:76 | `request.strip()` is empty exactly when the request is all whitespace; otherwise it neither starts nor ends with whitespace |
| Protocol.TrimLeftPadded | app.py:76 | trimming the left of a whitespace prefix followed by text that starts with a non-space leaves exactly that text |
| Protocol.TrimRightPadded | app.py:76 | trimming the right of text that ends with a non-space followed by whitespace leaves exactly that text |
| Protocol.StripPadded | app.py:76 | stripping whitespace-padded text whose ends are not whitespace gives back the text |
| Protocol.StripUnpadded | app.py:76 | stripping text whose ends are not whitespace leaves it unchanged |
| Protocol.DigitByte | app.py:81 | each digit value 0-9 maps to the ASCII digit of that value |
| Protocol.FormatNat | app.py:81 | the decimal text of a natural number is canonical digits (no leading zero), and those digits denote the number |
| Protocol.FormatInt | app.py:81 | `str(n)` is canonical integer text, and it starts with a minus sign exactly when n is negative |
| Protocol.ParseStripped | app.py:79 | `int()` of stripped text can only succeed on non-empty text; `StrippedLiteral` gives the exact set it accepts and the value it gives |
| Protocol.ParseInt | app.py:79 | `int(request)` never succeeds on a blank request; `ParseIntAccepts` gives the exact set it accepts and `ParseDigitsPadded` the value |
| Protocol.StrippedLiteral | app.py:79 | about `ParseStripped`: stripped text that `int()` accepts is an optional `+` or `-` followed by one or more ASCII digits, and its value is the signed value of those digits |
| Protocol.ParseDigitsPadded | app.py:79 | about `ParseInt`: whitespace, an optional `+` or `-`, one or more ASCII digits with any leading zeros, then whitespace, is always read as the signed value of the digits |
| Protocol.ParsedLiteral | app.py:79 | conversely, every request `int()` accepts has exactly that shape, and its value is the signed value of its digits |
| Protocol.ParseIntAccepts | app.py:79 | `int(request)` succeeds if and only if the request has that shape; every other request raises ValueError |
| Protocol.ParseLeadingZeros | app.py:79 | any number of zeros before the text of a natural number n, with trailing whitespace, is still read as n |
| Protocol.ParseSignedZeros | app.py:79 | a run of zeros is read as 0 whatever its sign and padding, so "-0" is 0 |
| Protocol.ExamplePlus | app.py:79 | "+5" is read as 5 |
| Protocol.CanonicalUnpadded | app.py:81 | integer text as `str()` writes it neither starts nor ends with whitespace |
| Protocol.ParseStrippedFormat | app.py:79-81 | `int()` reads the decimal text of every integer n back as n |
| Protocol.ParsePadded | app.py:79-81 | the text of n with any whitespace before and after it is read as n |
| Protocol.ParseFormat | app.py:79-81 | round trip: `int(str(n)) == n` for every integer n (Python's digit limit aside, see below) |
| Protocol.LeadingNonZeroPositive | app.py:81 | digits that do not start with zero denote a positive number, so a minus sign can precede them |
| Protocol.FormatDigitsValue | app.py:79-81 | canonical digits are the decimal text of the number they denote |
| Protocol.FormatParseDigits | app.py:79-81 | unsigned canonical text parses, and formatting the number gives the same text back |
| Protocol.FormatNegative | app.py:81 | the text of minus the value of canonical non-zero digits is a minus sign followed by those digits |
| Protocol.FormatParseNegative | app.py:79-81 | negative canonical text parses, and formatting the number gives the same text back |
| Protocol.FormatParse | app.py:79-81 | round trip in the other direction: every canonical integer text t parses, and `str(int(t)) == t` |
| Protocol.ReplyLineParses | app.py:81 | the reply line for m is read by `int()` as m, because the newline counts as whitespace |
| Protocol.ReplyLineShape | app.py:81 | a reply line is canonical integer text followed by one newline, and it reads back as the number it was made from |
| Protocol.Respond | app.py:76-81 | the handler closes exactly on a whitespace-only request, and raises exactly on a request that is not blank and is not an integer |
| Protocol.RespondReply | app.py:15-16 | about `Respond` and `Algorithm` (which models `algorithm`): whenever the handler replies, the request was an integer n, and the reply is a canonical text line that reads back as `algorithm(n)` = n + 42 |
| Protocol.RespondParsed | app.py:15-16 | a request that `int()` reads as n is answered with exactly the ASCII decimal text of `Algorithm(n)` = n + 42 and a newline |
| Protocol.RespondRoundTrip | app.py:75-81 | a request encoding n, with any whitespace around it, round-trips to the encoding of `Algorithm(n)` = n + 42 plus a newline |
| Protocol.RespondLine | app.py:75-81 | the request line "n\n" is answered with the line holding `Algorithm(n)` = n + 42, i.e. "(n+42)\n" |
| Protocol.FormatExamples | app.py:81 | the ASCII text of 5, 47, 100 and 142, each with a newline |
| Protocol.ExampleReplies | app.py:75-81 | "5\n" gets "47\n" and "100\n" gets "142\n" |
| Protocol.ExampleBlank | app.py:76-78 | "   \n" and the empty read `b''` close the connection without a reply |
| Protocol.RespondMalformed | app.py:79 | a non-blank request whose stripped text starts with neither a sign nor a digit makes `int()` raise |
| Protocol.ExampleMalformed | app.py:79 | "abc\n" makes `int()` raise |
| Protocol.RespondFails | app.py:76-79 | the handler raises on a request exactly when the request is not blank and does not have the shape `int()` accepts |
| Protocol.RespondNonDigit | app.py:79 | a request whose stripped text has a non-digit byte anywhere after its first byte makes `int()` raise |
| Protocol.ExampleLetter | app.py:79 | "5a\n" makes `int()` raise |
| Protocol.ExampleInnerSpace | app.py:79 | "4 2\n" makes `int()` raise |
| Protocol.ExampleSpacedSign | app.py:79 | "- 5\n" makes `int()` raise |
| Scheduler.AddTask | app.py:33-34 | the task joins at the tail, every queued task keeps its position, and neither wait map changes |
| Scheduler.AddTasks | app.py:33-34 | `add_task` on several tasks in turn appends them to the queue in their own order and leaves the maps alone |
| Scheduler.FitsAfterPop | app.py:41-44 | the remaining handles can be popped without KeyError after the first is popped exactly when all of them could be popped to begin with |
| Scheduler.DrainCons | app.py:41-44 | popping the first handle and then draining some of the rest pops that many more handles, in order, and removes exactly those keys |
| Scheduler.Drain | app.py:41-44 | a `for sock in hs: add_task(wait.pop(sock))` loop pops handles in order until the first one not in the map. It completes exactly when the handles are distinct waiting keys. The tasks popped so far are listed in handle order, and the map loses exactly their keys. On a KeyError, the handle it names is the next in the list and is not in the map left |
| Scheduler.Poll | app.py:40-44 | the woken tasks are always appended to the queue. One `select` and drain completes exactly when `select` returns and each answer lists distinct waiting keys. Then the woken tasks are every read-ready task in order, then every send-ready task. Each map loses exactly the reported keys, and every other entry is kept |
| Scheduler.PollAddsTasks | app.py:41-44 | the queue update of a poll, stopped or not, is exactly `add_task` applied to each woken task in the order its handle was popped |
| Scheduler.PollFault | app.py:40-44 | where a poll stops. An exception from `select` changes nothing. A KeyError in the read loop leaves the read-ready handles before the failing one drained and queued, with the send map untouched. A KeyError in the send loop leaves all read-ready handles and the send-ready ones before it drained. The failing handle is absent from its map at that moment |
| Scheduler.PollKeepsWaiters | app.py:39-44 | a poll that wakes nothing leaves both maps as they were, so the inner loop never reaches `select` with both maps empty |
| Scheduler.Popped | app.py:45 | `popleft` followed by the step's own `add_task` calls: the head is removed, the spawned tasks join the tail, and the maps are kept |
| Scheduler.PoppedAddsTasks | app.py:33-34 | the queue update of `Popped` is exactly `add_task` applied to each spawned task after `popleft` |
| Scheduler.Dispatch | app.py:45-55 | the head leaves the queue and spawned tasks join the tail. Filing succeeds exactly for a finished task or a Read/Send suspension. Any other action raises the unexpected-action error, and an exception from the task escapes |
| Scheduler.DispatchFiles | app.py:47-53 | a finished task is dropped and both maps stay unchanged. A `(Read, h)` suspension sets `WAIT_READ[h]` to the task, keeps every other read entry and leaves `WAIT_SEND` unchanged. `(Send, h)` is the mirror image |
| Scheduler.OverwriteOrphans | app.py:50-51 | filing on a handle that already has a waiter replaces the earlier task silently: the map does not grow, and h leads only to the new task |
| Scheduler.DriveConserves | app.py:45-53 | the driven head, then the queue accounting of the rest of the run, covers the queue plus the spawned tasks |
| Scheduler.PollConserves | app.py:39-44 | a poll from an empty queue keeps the queue accounting: the woken tasks are both the new queue and the newly enqueued |
| Scheduler.Run | app.py:37-55 | reference semantics of `run`. A crash leaves the state as it was when the exception was raised. Over a whole run, strict FIFO holds: the tasks driven, then the queue left over, equal the initial queue followed by everything spawned or woken, in order |
| Scheduler.PollsOnlyWhenStarved | app.py:38-40 | every call of `select` happens with an empty queue and at least one non-empty wait map |
| Scheduler.ExitsOnlyWhenIdle | app.py:38 | barring a crash, `run` returns exactly when the queue and both maps are empty; a run left waiting in `select` has an empty queue and a waiter |
| Scheduler.FuelAccounting | app.py:38-55 | the number of drives plus polls never exceeds the step budget, and equals it when the run stops for lack of budget |
| Scheduler.FifoDispatch | app.py:33-45 | of the tasks queued at the start, the first k to be driven are the first k of the queue, in order |
| Scheduler.NoTasksExitAtOnce | app.py:38 | with no task at all, `run` returns immediately without calling `select` |
| Scheduler.RunDrives | app.py:45-53 | from a non-empty queue, `run` drives the head, files it, and carries on from the resulting state |
| Scheduler.RunPolls | app.py:39-44 | from an empty queue with waiters, `run` polls, enqueues the woken tasks, and carries on |
| Scheduler.RunStops | app.py:38-55 | the ways `run` stops at once: exit when idle, and an unexpected action or a task exception at a dispatch, in the state after `popleft` and the task's own `add_task` calls (plus the model's own budget and oracle limits) |
| Scheduler.RunPollStep | app.py:39-44 | one poll of `run` from an empty queue with waiters: a stopped poll crashes the run in the state the poll left (partial drain included); otherwise the run carries on from a state that still has work, with the woken tasks enqueued |
| Scheduler.ExamplePartialDrain | app.py:41-42 | with task 7 waiting on handle 1 and `select` reporting handles 1 and 2, `pop(1)` queues task 7 before `pop(2)` raises KeyError. The run stops with task 7 queued and the read map empty |
| Scheduler.PollOnce | app.py:40-44 | one `select` plus drain, from an empty queue with waiters: either it stops the run exactly as the reference run stops, or the run continues from a state that still has work, with the woken tasks enqueued |
| Scheduler.AwaitWork | app.py:39-44 | the inner `while not TASKS` loop ends with a non-empty queue, and the polls made on the way are exactly those of the reference run; otherwise it reports the reference run's stop |
| Scheduler.DriveHead | app.py:45-55 | `popleft`, `send(None)` and the filing: the run continues with the head driven and its spawned tasks enqueued, or it stops exactly as the reference run does |
| Scheduler.Iterate | app.py:38-55 | one outer iteration consumes budget and agrees with the reference run on everything driven, enqueued and polled |
| Scheduler.RunLoop | app.py:37-55 | the nested loops of `run` as written compute exactly the history of the reference semantics `Run` |
| Tasks.HelpersSuspendForOwnOp | app.py:58-70 | about `Can`, `AsyncAccept`, `AsyncRecv` and `AsyncSend`: `async_accept` and `async_recv` yield `(Read, sock)` and `async_send` yields `(Send, sock)`, each on its own socket argument and for the readiness its own operation needs |
| Tasks.AwaitedOnOwner | app.py:58-70 | any helper a task is suspended in waits on the task's own socket, for Read or Send |
| Tasks.AnswerSuspendsToSend | app.py:76-81 | after a request, the handler suspends only to send the reply to that request |
| Tasks.HandlerStepYields | app.py:73-81 | about `HandlerStep`, which models `handler`: a handler that suspends has entered `async_recv` or `async_send` on its own client. It has performed exactly the operation of the helper it was resumed from, and no other |
| Tasks.ServerStepYields | app.py:89-92 | about `ServerStep`, which models `server`: a server that suspends is back in `async_accept` on its listening socket, having performed exactly the accept it was resumed from |
| Tasks.SuspendsOnOwnHandle | app.py:24-30 | each application task's suspension is one `Can` yield of Read or Send (never an unexpected action), on the task's own socket, matching the helper it is now in |
| Tasks.ResumePerformsAwaitedOp | app.py:58-70 | resuming a task performs exactly the one socket operation of the helper it was suspended in, so every socket operation is preceded by exactly one suspension |
| Tasks.DispatchFilesUnderOwner | app.py:50-53 | a driven application task never triggers the unexpected-action error. When it suspends, it is filed under its own socket, in the map of the direction it asked for |
| Tasks.HandlerEnds | app.py:73-81 | about `HandlerStep`: the handler never spawns a task. It finishes exactly when resumed from `async_recv` with a successful `recv` of a blank chunk. It raises the socket error exactly when the `recv` or `send` it is resumed into fails, and `int()`'s ValueError exactly when a received chunk is neither blank nor an integer. It raises nothing else |
| Tasks.RepliesPrefix | app.py:73-81 | the replies to a prefix of the requests are a prefix of the replies to all of them |
| Tasks.SentSnoc | app.py:81 | a logged send adds its data to what was sent, and any other operation adds nothing |
| Tasks.RepliesSnoc | app.py:75-81 | one more request adds its reply at the end |
| Tasks.AllOnClientSnoc | app.py:73-81 | appending an operation on the client keeps the log entirely on that client |
| Tasks.NewHandlerInv | app.py:92 | a freshly spawned handler has received nothing, sent nothing and performed nothing |
| Tasks.ReplyNeedsChunk | app.py:75-78 | a reply is produced only when `recv` returned a chunk (never for `b''`), and it is the reply to that chunk |
| Tasks.ReceiveConsumes | app.py:75 | `recv` consumes the next chunk: received then pending still equals the client's requests |
| Tasks.ReceiveRepliesInOrder | app.py:75-81 | after receiving a request that is answered, what was sent plus the pending reply equals the replies to everything received |
| Tasks.ReceiveKeepsInv | app.py:75-81 | receiving an answered request and entering `async_send` keeps the handler invariant |
| Tasks.SendKeepsInv | app.py:81 | sending the pending reply and entering `async_recv` keeps the handler invariant |
| Tasks.HandlerStepKeepsInv | app.py:73-81 | each step of a live handler keeps the handler invariant and its client: it has consumed a prefix of its client's requests, touched only its client, and sent exactly the replies to the requests it received, in order (allowing one pending reply) |
| Tasks.SentIsPrefixOfReplies | app.py:73-81 | no cross-talk: all a handler sent went to its own client and is a prefix of the in-order replies to that client's own requests |
| Tasks.ServerSpawnsHandlers | app.py:89-92 | about `ServerStep`: the server only ever accepts on its listening socket and never finishes. Each accepting step spawns exactly one fresh handler, for the accepted connection and owned by that client, which starts out satisfying the handler invariant |

## Left out

- Socket creation, `setsockopt`, `bind` and `listen` (app.py:85-88), the `print` of app.py:91 and the `__main__` entry (app.py:95-97) are not modelled.
- `select.select` is an oracle. Its answers are given as a sequence, and the model does not tie them to the state of the peers. An answer is either the ready lists or `SelectRaised`, an exception from `select` itself (for example a closed descriptor), which crashes the run as `SelectFailed`. An answer naming a handle that is not waiting produces the KeyError that `dict.pop` would raise, after the handles before it have been popped and queued.
- `accept` and `recv` are modelled by their results: the server holds the connections `accept` will return, and a handler holds the chunks `recv` will return. Once those run out, `recv` returns `b''`. A connection can fail at most once, at one chosen socket operation; since the handler dies there, once is enough.
- The 100-byte limit is passed to `recv` as a length only; chunk sizes are not bounded.
- Partial sends are not modelled: `send` is taken to send the whole reply, and its return value is ignored, as the handler ignores it.
- `client.close()` is not recorded; the handler just finishes.
- Generators and coroutines (`send(None)`, `StopIteration`) become step functions. The only concrete tasks are the two coroutines of app.py.
- Exceptions are tags. The handler raises "ValueError" from `int()`, and "OSError" when its connection fails at the `recv` or `send` chosen by `resetAt`. `select` raises whatever its oracle answer names. Exception subclasses and process-level crash semantics are not modelled.
- Tasks.ServerStep: an `accept` with no pending connection is modelled as raising "OSError". The real call would block, which a sequential model cannot express.
- Protocol.ParseFormat: CPython 3.11 and later make `int()` and `str()` raise ValueError beyond 4300 decimal digits. The model has no such limit. app.py cannot reach it, because `recv(100)` caps a request at 100 bytes and the number in a reply has at most one more digit than the number in its request. The model's chunks are unbounded (see the 100-byte line above), so its round trips hold for every length.
- Protocol.ParseInt: only the base-10 subset of Python's `int()` is modelled: surrounding ASCII whitespace, an optional sign, and ASCII digits with leading zeros allowed. Underscore separators and non-ASCII digits are not accepted.
- Scheduler.Run: a run is followed for at most `fuel` drives and polls. A longer or non-terminating run stops with `OutOfFuel`, and a run whose oracle has no answer left stops with `Blocked`. Both are limits of the model, not behaviour of `run`.

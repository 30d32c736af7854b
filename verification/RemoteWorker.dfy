/** The worker loop of the remote JSON-RPC client: client commands and wire messages over a map of
    pending requests (codex-rs/app-server-client/src/remote.rs:213-475). */
module RemoteWorker {
  import opened Protocol

  /** The `std::io::ErrorKind`s the worker uses; texts are not modelled. */
  datatype ErrorKind = InvalidInput | BrokenPipe | InvalidData | ConnectionAborted | UnexpectedEof | TimedOut | OtherKind

  /** What a caller waiting on its oneshot channel gets. */
  datatype Reply = RpcResult(result: string) | RpcError(code: int, message: string) | IoError(kind: ErrorKind) | Done

  datatype Command = Request(id: RequestId) | Notify | Resolve(id: RequestId) | Reject(id: RequestId, code: int) | Shutdown

  /** What arrives on the stream. `known` says whether the typed protocol recognises the message. */
  datatype Wire =
    | Response(id: RequestId, result: string)
    | ErrorResponse(id: RequestId, code: int, message: string)
    | Notification(name: string, known: bool)
    | ServerRequest(id: RequestId, name: string, known: bool)
    | InvalidJson
    | CloseFrame
    | IgnoredFrame
    | TransportError
    | EndOfStream

  /** What the consumer sees. */
  datatype Event = Notified(name: string) | Requested(id: RequestId, name: string) | Disconnected

  /** What is written to the stream, or tried. */
  datatype Outgoing =
    | OutRequest(id: RequestId)
    | OutNotification
    | OutResult(id: RequestId)
    | OutError(id: RequestId, code: int)
    | Unsupported(id: RequestId, code: int)

  /** JSON-RPC 2.0 section 5.1: method not found. */
  const METHOD_NOT_FOUND := -32601

  /** The worker's variables and the record of the run. A command's waiter is its index in `taken`;
      `replies` lists what each waiter was sent. */
  datatype Worker = Worker(
    running: bool,
    pending: map<RequestId, nat>,
    consumerOpen: bool,
    events: seq<Event>,
    writes: seq<Outgoing>,
    taken: seq<Command>,
    replies: map<nat, seq<Reply>>)

  const INIT := Worker(true, map[], true, [], [], [], map[])

  /** One turn of the loop, or the consumer dropping its receiver. `ok` says whether the write the
      turn makes, if any, succeeds. */
  datatype Action =
    | Take(command: Command, ok: bool)
    | CommandsClosed
    | Read(wire: Wire, ok: bool)
    | DropConsumer

  function RepliesTo(replies: map<nat, seq<Reply>>, waiter: nat): seq<Reply> {
    if waiter in replies then replies[waiter] else []
  }

  function Answer(replies: map<nat, seq<Reply>>, waiter: nat, reply: Reply): map<nat, seq<Reply>> {
    replies[waiter := RepliesTo(replies, waiter) + [reply]]
  }

  function Waiters(pending: map<RequestId, nat>): set<nat> {
    set id | id in pending :: pending[id]
  }

  /** Every pending waiter is told the worker is gone. */
  function Drained(replies: map<nat, seq<Reply>>, pending: map<RequestId, nat>, kind: ErrorKind): map<nat, seq<Reply>> {
    Told(replies, Waiters(pending), kind)
  }

  function Told(replies: map<nat, seq<Reply>>, told: set<nat>, kind: ErrorKind): map<nat, seq<Reply>> {
    map i | i in replies.Keys + told :: RepliesTo(replies, i) + (if i in told then [IoError(kind)] else [])
  }

  /** Leaving the loop. */
  function Exit(w: Worker, kind: ErrorKind): Worker {
    w.(running := false, pending := map[], replies := Drained(w.replies, w.pending, kind))
  }

  /** `deliver_event`, ignoring failure. */
  function Emit(w: Worker, e: Event): Worker {
    if w.consumerOpen then w.(events := w.events + [e]) else w
  }

  /** Leaving the loop with a `Disconnected` event. */
  function Disconnect(w: Worker, kind: ErrorKind): Worker {
    Exit(Emit(w, Disconnected), kind)
  }

  /** Delivering an event the consumer asked for; without a consumer the loop ends. */
  function Deliver(w: Worker, e: Event): Worker {
    if w.consumerOpen then Emit(w, e) else Exit(w, BrokenPipe)
  }

  function Written(w: Worker, out: Outgoing): Worker {
    w.(writes := w.writes + [out])
  }

  function WriteReply(ok: bool): Reply {
    if ok then Done else IoError(OtherKind)
  }

  function HandleCommand(w: Worker, command: Command, ok: bool): Worker {
    var waiter := |w.taken|;
    var w := w.(taken := w.taken + [command]);
    match command
    case Request(id) =>
      if id in w.pending then w.(replies := Answer(w.replies, waiter, IoError(InvalidInput)))
      else
        var sent := Written(w, OutRequest(id));
        if ok then sent.(pending := w.pending[id := waiter])
        else Disconnect(sent.(replies := Answer(w.replies, waiter, IoError(OtherKind))), BrokenPipe)
    case Notify => Written(w, OutNotification).(replies := Answer(w.replies, waiter, WriteReply(ok)))
    case Resolve(id) => Written(w, OutResult(id)).(replies := Answer(w.replies, waiter, WriteReply(ok)))
    case Reject(id, code) => Written(w, OutError(id, code)).(replies := Answer(w.replies, waiter, WriteReply(ok)))
    case Shutdown => Exit(w.(replies := Answer(w.replies, waiter, WriteReply(ok))), BrokenPipe)
  }

  /** A response goes to the waiter registered under its id, if there is one. */
  function Settle(w: Worker, id: RequestId, reply: Reply): Worker {
    if id in w.pending
    then w.(pending := w.pending - {id}, replies := Answer(w.replies, w.pending[id], reply))
    else w
  }

  function HandleMessage(w: Worker, wire: Wire, ok: bool): Worker {
    match wire
    case Response(id, result) => Settle(w, id, RpcResult(result))
    case ErrorResponse(id, code, message) => Settle(w, id, RpcError(code, message))
    case Notification(name, known) => if known then Deliver(w, Notified(name)) else w
    case ServerRequest(id, name, known) =>
      if known then Deliver(w, Requested(id, name))
      else
        var refused := Written(w, Unsupported(id, METHOD_NOT_FOUND));
        if ok then refused else Disconnect(refused, BrokenPipe)
    case InvalidJson => Disconnect(w, InvalidData)
    case CloseFrame => Disconnect(w, ConnectionAborted)
    case IgnoredFrame => w
    case TransportError => Disconnect(w, InvalidData)
    case EndOfStream => Disconnect(w, UnexpectedEof)
  }

  function Step(w: Worker, a: Action): Worker {
    if a.DropConsumer? then w.(consumerOpen := false)
    else if !w.running then w
    else
      match a
      case Take(command, ok) => HandleCommand(w, command, ok)
      case CommandsClosed => Exit(w, BrokenPipe)
      case Read(wire, ok) => HandleMessage(w, wire, ok)
      case DropConsumer => w
  }

  function Run(actions: seq<Action>): Worker {
    if actions == [] then INIT else Step(Run(actions[..|actions| - 1]), actions[|actions| - 1])
  }

  ghost predicate Injective(pending: map<RequestId, nat>) {
    forall a, b :: a in pending && b in pending && pending[a] == pending[b] ==> a == b
  }

  lemma RunOneMore(actions: seq<Action>, a: Action)
    ensures Run(actions + [a]) == Step(Run(actions), a)
  {
    assert (actions + [a])[..|actions|] == actions;
  }

  /** The worker task with its mutable variables. `history` is everything that has happened to it. */
  class WorkerTask {
    ghost var history: seq<Action>
    var running: bool
    var pendingRequests: map<RequestId, nat>
    var consumerOpen: bool
    var events: seq<Event>
    var writes: seq<Outgoing>
    var taken: seq<Command>
    var replies: map<nat, seq<Reply>>

    function Snapshot(): Worker
      reads this
    {
      Worker(running, pendingRequests, consumerOpen, events, writes, taken, replies)
    }

    /** No waiter is registered twice, and each is a command taken. */
    ghost predicate Registered()
      reads this
    {
      Injective(pendingRequests) && forall id :: id in pendingRequests ==> pendingRequests[id] < |taken|
    }

    /** Between two turns of the loop the variables are those of the run so far. */
    ghost predicate Valid()
      reads this
    {
      Registered() && Snapshot() == Run(history)
    }

    constructor ()
      ensures Valid() && history == []
    {
      history := [];
      running, pendingRequests, consumerOpen := true, map[], true;
      events, writes, taken, replies := [], [], [], map[];
    }

    method Send(waiter: nat, reply: Reply)
      modifies this`replies
      ensures replies == Answer(old(replies), waiter, reply)
    {
      replies := Answer(replies, waiter, reply);
    }

    method DeliverEvent(event: Event) returns (delivered: bool)
      modifies this`events
      ensures delivered == consumerOpen
      ensures events == if consumerOpen then old(events) + [event] else old(events)
    {
      delivered := consumerOpen;
      if consumerOpen {
        events := events + [event];
      }
    }

    /** Leaving the main loop. */
    method Leave(kind: ErrorKind)
      requires Registered()
      modifies this`running, this`pendingRequests, this`replies
      ensures Registered() && Snapshot() == Exit(old(Snapshot()), kind)
    {
      running := false;
      replies := AnswerPending(replies, pendingRequests, kind);
      pendingRequests := map[];
    }

    /** The arm that takes a client command. */
    method OnCommand(command: Command, ok: bool)
      requires Valid() && running
      modifies this
      ensures Valid() && history == old(history) + [Take(command, ok)] && Snapshot() == Step(old(Snapshot()), Take(command, ok))
    {
      RunOneMore(history, Take(command, ok));
      Obey(command, ok);
      history := history + [Take(command, ok)];
    }

    method Obey(command: Command, ok: bool)
      requires Registered()
      modifies this`running, this`pendingRequests, this`events, this`writes, this`taken, this`replies
      ensures Registered() && Snapshot() == HandleCommand(old(Snapshot()), command, ok)
    {
      var waiter := |taken|;
      taken := taken + [command];
      match command
      case Request(id) =>
        if id in pendingRequests {
          Send(waiter, IoError(InvalidInput));
          return;
        }
        writes := writes + [OutRequest(id)];
        if ok {
          pendingRequests := pendingRequests[id := waiter];
        } else {
          Send(waiter, IoError(OtherKind));
          var _ := DeliverEvent(Disconnected);
          Leave(BrokenPipe);
        }
      case Notify =>
        writes := writes + [OutNotification];
        Send(waiter, WriteReply(ok));
      case Resolve(id) =>
        writes := writes + [OutResult(id)];
        Send(waiter, WriteReply(ok));
      case Reject(id, code) =>
        writes := writes + [OutError(id, code)];
        Send(waiter, WriteReply(ok));
      case Shutdown =>
        Send(waiter, WriteReply(ok));
        Leave(BrokenPipe);
    }

    method Complete(id: RequestId, reply: Reply)
      requires Registered()
      modifies this`pendingRequests, this`replies
      ensures Registered() && Snapshot() == Settle(old(Snapshot()), id, reply)
    {
      if id in pendingRequests {
        var waiter := pendingRequests[id];
        pendingRequests := pendingRequests - {id};
        Send(waiter, reply);
      }
    }

    method LeaveDisconnected(kind: ErrorKind)
      requires Registered()
      modifies this`running, this`pendingRequests, this`events, this`replies
      ensures Registered() && Snapshot() == Disconnect(old(Snapshot()), kind)
    {
      var _ := DeliverEvent(Disconnected);
      Leave(kind);
    }

    method DeliverOrLeave(event: Event)
      requires Registered()
      modifies this`running, this`pendingRequests, this`events, this`replies
      ensures Registered() && Snapshot() == Deliver(old(Snapshot()), event)
    {
      var delivered := DeliverEvent(event);
      if !delivered {
        Leave(BrokenPipe);
      }
    }

    /** The arm that reads the stream. */
    method OnMessage(wire: Wire, ok: bool)
      requires Valid() && running
      modifies this
      ensures Valid() && history == old(history) + [Read(wire, ok)] && Snapshot() == Step(old(Snapshot()), Read(wire, ok))
    {
      RunOneMore(history, Read(wire, ok));
      Dispatch(wire, ok);
      history := history + [Read(wire, ok)];
    }

    method Dispatch(wire: Wire, ok: bool)
      requires Registered()
      modifies this`running, this`pendingRequests, this`events, this`writes, this`replies
      ensures Registered() && Snapshot() == HandleMessage(old(Snapshot()), wire, ok)
    {
      match wire
      case Response(id, result) => Complete(id, RpcResult(result));
      case ErrorResponse(id, code, message) => Complete(id, RpcError(code, message));
      case Notification(name, known) =>
        if known {
          DeliverOrLeave(Notified(name));
        }
      case ServerRequest(id, name, known) =>
        if known {
          DeliverOrLeave(Requested(id, name));
        } else {
          writes := writes + [Unsupported(id, METHOD_NOT_FOUND)];
          if !ok {
            LeaveDisconnected(BrokenPipe);
          }
        }
      case InvalidJson => LeaveDisconnected(InvalidData);
      case CloseFrame => LeaveDisconnected(ConnectionAborted);
      case IgnoredFrame =>
      case TransportError => LeaveDisconnected(InvalidData);
      case EndOfStream => LeaveDisconnected(UnexpectedEof);
    }

    /** Every handle of the client is gone. */
    method OnCommandsClosed()
      requires Valid() && running
      modifies this
      ensures Valid() && history == old(history) + [CommandsClosed] && Snapshot() == Step(old(Snapshot()), CommandsClosed)
    {
      RunOneMore(history, CommandsClosed);
      history := history + [CommandsClosed];
      Leave(BrokenPipe);
    }

    /** The receiver of the event channel is dropped. */
    method OnConsumerDropped()
      requires Valid()
      modifies this
      ensures Valid() && history == old(history) + [DropConsumer] && Snapshot() == Step(old(Snapshot()), DropConsumer)
    {
      RunOneMore(history, DropConsumer);
      history := history + [DropConsumer];
      consumerOpen := false;
    }
  }

  /** The loop after the main loop: every pending waiter is answered, in map order. */
  method AnswerPending(replies: map<nat, seq<Reply>>, pending: map<RequestId, nat>, kind: ErrorKind)
    returns (result: map<nat, seq<Reply>>)
    requires Injective(pending)
    ensures result == Drained(replies, pending, kind)
  {
    result := replies;
    var rest := pending;
    ToldNobody(replies, kind);
    assert Waiters(pending) - Waiters(rest) == {};
    while rest != map[]
      invariant Injective(rest) && Waiters(rest) <= Waiters(pending)
      invariant result == Told(replies, Waiters(pending) - Waiters(rest), kind)
      decreases rest.Keys
    {
      var id :| id in rest;
      DrainStep(replies, Waiters(pending), rest, id, kind);
      result := Answer(result, rest[id], IoError(kind));
      rest := rest - {id};
    }
    assert Waiters(pending) - Waiters(rest) == Waiters(pending);
  }

  lemma ToldNobody(replies: map<nat, seq<Reply>>, kind: ErrorKind)
    ensures Told(replies, {}, kind) == replies
  {
    assert replies.Keys + {} == replies.Keys;
    forall i | i in replies ensures Told(replies, {}, kind)[i] == replies[i] {
      assert replies[i] + [] == replies[i];
    }
  }

  lemma TellOne(replies: map<nat, seq<Reply>>, told: set<nat>, waiter: nat, kind: ErrorKind)
    requires waiter !in told
    ensures Answer(Told(replies, told, kind), waiter, IoError(kind)) == Told(replies, told + {waiter}, kind)
  {
    var before, after := Answer(Told(replies, told, kind), waiter, IoError(kind)), Told(replies, told + {waiter}, kind);
    assert before.Keys == after.Keys;
    assert RepliesTo(Told(replies, told, kind), waiter) == RepliesTo(replies, waiter);
  }

  lemma DrainStep(replies: map<nat, seq<Reply>>, all: set<nat>, rest: map<RequestId, nat>, id: RequestId, kind: ErrorKind)
    requires id in rest && Injective(rest) && Waiters(rest) <= all
    ensures Injective(rest - {id}) && Waiters(rest - {id}) <= all
    ensures Answer(Told(replies, all - Waiters(rest), kind), rest[id], IoError(kind)) ==
      Told(replies, all - Waiters(rest - {id}), kind)
  {
    WaitersRemoved(rest, id);
    var told := all - Waiters(rest);
    assert told + {rest[id]} == all - Waiters(rest - {id});
    TellOne(replies, told, rest[id], kind);
  }

  lemma WaitersRemoved(pending: map<RequestId, nat>, id: RequestId)
    requires id in pending && Injective(pending)
    ensures pending[id] in Waiters(pending) && Injective(pending - {id}) && Waiters(pending - {id}) == Waiters(pending) - {pending[id]}
  {
    var smaller := pending - {id};
    forall w | w in Waiters(pending) && w != pending[id] ensures w in Waiters(smaller) {
      var k :| k in pending && pending[k] == w;
      assert k in smaller;
    }
    forall w | w in Waiters(smaller) ensures w in Waiters(pending) && w != pending[id] {
      var k :| k in smaller && smaller[k] == w;
      assert k in pending;
    }
  }
}

/** Everything the remote worker does, read off what happened to it: when its loop ends and with which error,
    what it writes, what it tells the consumer and what every waiter is answered. Nothing here is computed by the
    turns of the loop; that the loop does the same is what is shown. */
module RemoteHistory {
  import opened Text
  import opened Protocol
  import opened RemoteWorker
  import opened RemoteReplies

  // ----- the end of the loop -----

  predicate Listening(actions: seq<Action>) {
    DropConsumer !in actions
  }

  predicate IsNews(wire: Wire) {
    (wire.Notification? || wire.ServerRequest?) && wire.known
  }

  /** A server request the protocol does not know. */
  predicate IsForeign(wire: Wire) {
    wire.ServerRequest? && !wire.known
  }

  /** A request under an id that nobody waits under. */
  predicate IsNew(actions: seq<Action>, command: Command) {
    command.Request? && Outstanding(actions, command.id).None?
  }

  /** The connection breaks: a request or a refusal cannot be written, or there is nothing more to read. */
  predicate Cuts(actions: seq<Action>, a: Action) {
    match a
    case Take(command, ok) => IsNew(actions, command) && !ok
    case Read(wire, ok) =>
      (IsForeign(wire) && !ok) || wire.InvalidJson? || wire.TransportError? || wire.CloseFrame? || wire.EndOfStream?
    case _ => false
  }

  /** The other ways to end: a shutdown, no client left, or news and no consumer. */
  predicate Quits(actions: seq<Action>, a: Action) {
    || (a.Take? && a.command.Shutdown?)
    || a.CommandsClosed?
    || (a.Read? && IsNews(a.wire) && !Listening(actions))
  }

  predicate Ends(actions: seq<Action>, a: Action) {
    Cuts(actions, a) || Quits(actions, a)
  }

  /** The error that those still waiting get. */
  function EndKind(a: Action): ErrorKind {
    if a.Read? && (a.wire.InvalidJson? || a.wire.TransportError?) then InvalidData
    else if a.Read? && a.wire.CloseFrame? then ConnectionAborted
    else if a.Read? && a.wire.EndOfStream? then UnexpectedEof
    else BrokenPipe
  }

  predicate Alive(actions: seq<Action>) {
    actions == [] || (Alive(actions[..|actions| - 1]) && !Ends(actions[..|actions| - 1], actions[|actions| - 1]))
  }

  // ----- what is written, told and answered -----

  /** One message per new request, notification, answer to the server and unknown server request. */
  function WriteOf(actions: seq<Action>, a: Action): seq<Outgoing> {
    match a
    case Take(Request(id), _) => if Outstanding(actions, id).None? then [OutRequest(id)] else []
    case Take(Notify, _) => [OutNotification]
    case Take(Resolve(id), _) => [OutResult(id)]
    case Take(Reject(id, code), _) => [OutError(id, code)]
    case Read(ServerRequest(id, _, known), _) => if known then [] else [Unsupported(id, -32601)]
    case _ => []
  }

  function WritesIn(actions: seq<Action>): seq<Outgoing> {
    if actions == [] then []
    else
      var front, last := actions[..|actions| - 1], actions[|actions| - 1];
      WritesIn(front) + (if Alive(front) then WriteOf(front, last) else [])
  }

  function NewsOf(actions: seq<Action>, a: Action): seq<Event> {
    if Cuts(actions, a) then [Disconnected]
    else
      match a
      case Read(Notification(name, known), _) => if known then [Notified(name)] else []
      case Read(ServerRequest(id, name, known), _) => if known then [Requested(id, name)] else []
      case _ => []
  }

  function NewsIn(actions: seq<Action>): seq<Event> {
    if actions == [] then []
    else
      var front, last := actions[..|actions| - 1], actions[|actions| - 1];
      NewsIn(front) + (if Alive(front) && Listening(front) then NewsOf(front, last) else [])
  }

  function CommandsIn(actions: seq<Action>): seq<Command> {
    if actions == [] then []
    else
      var front, last := actions[..|actions| - 1], actions[|actions| - 1];
      CommandsIn(front) + (if Alive(front) && last.Take? then [last.command] else [])
  }

  /** A command's own turn answers it unless it is a new request that could be written. `Done` says that the
      write succeeded. */
  function AtOnce(actions: seq<Action>, command: Command, ok: bool): Option<Reply> {
    if command.Request? && !IsNew(actions, command) then Some(IoError(InvalidInput))
    else if !ok then Some(IoError(OtherKind))
    else if command.Request? then None
    else Some(Done)
  }

  /** What the turn answers the waiter that is still without an answer. */
  function AnswerAt(actions: seq<Action>, a: Action, i: nat): Option<Reply> {
    if a.Take? && i == Takes(actions) then AtOnce(actions, a.command, a.ok)
    else if i >= Takes(actions) then None
    else
      match a
      case Read(Response(id, result), _) => if Outstanding(actions, id) == Some(i) then Some(RpcResult(result)) else None
      case Read(ErrorResponse(id, code, message), _) => if Outstanding(actions, id) == Some(i) then Some(RpcError(code, message)) else None
      case _ => if Ends(actions, a) then Some(IoError(EndKind(a))) else None
  }

  function AnswerIn(actions: seq<Action>, i: nat): Option<Reply> {
    if actions == [] then None
    else
      var front, last := actions[..|actions| - 1], actions[|actions| - 1];
      if AnswerIn(front, i).Some? || !Alive(front) then AnswerIn(front, i) else AnswerAt(front, last, i)
  }

  // ----- one turn -----

  /** The worker agrees with its history on everything the next turn looks at. */
  ghost predicate Agrees(w: Worker, actions: seq<Action>) {
    && w.running && |w.taken| == Takes(actions) && w.consumerOpen == Listening(actions) && Sound(w)
    && forall id :: Waiting(w, id) == Outstanding(actions, id)
  }

  lemma CommandTurn(actions: seq<Action>, w: Worker, command: Command, ok: bool, w': Worker)
    requires Agrees(w, actions) && w' == HandleCommand(w, command, ok)
    ensures var a := Take(command, ok);
      && w'.running == !Ends(actions, a) && w'.taken == w.taken + [command] && w'.writes == w.writes + WriteOf(actions, a)
      && w'.events == w.events + (if w.consumerOpen then NewsOf(actions, a) else [])
  {
    if command.Request? {
      assert Waiting(w, command.id) == Outstanding(actions, command.id);
    }
  }

  lemma MessageTurn(actions: seq<Action>, w: Worker, wire: Wire, ok: bool, w': Worker)
    requires Agrees(w, actions) && w' == HandleMessage(w, wire, ok)
    ensures var a := Read(wire, ok);
      && w'.running == !Ends(actions, a) && w'.taken == w.taken && w'.writes == w.writes + WriteOf(actions, a)
      && w'.events == w.events + (if w.consumerOpen then NewsOf(actions, a) else [])
  {
  }

  /** The answers so far of one waiter, as the list it was sent. */
  function AsList(reply: Option<Reply>): seq<Reply> {
    if reply.Some? then [reply.value] else []
  }

  lemma ExitTells(w: Worker, kind: ErrorKind, i: nat)
    requires Sound(w) && i < |w.taken|
    ensures RepliesTo(Exit(w, kind).replies, i) ==
      if RepliesTo(w.replies, i) == [] then [IoError(kind)] else RepliesTo(w.replies, i)
  {
    var replies := Exit(w, kind).replies;
    if i in Waiters(w.pending) {
      assert replies[i] == RepliesTo(w.replies, i) + [IoError(kind)];
    } else {
      assert i in w.replies;
      assert replies[i] == w.replies[i] + [];
    }
  }

  lemma NobodyElse(w: Worker, kind: ErrorKind, i: nat)
    requires Sound(w) && i >= |w.taken|
    ensures i !in w.replies && i !in Exit(w, kind).replies
  {
    ExitIsSound(w, kind);
  }

  /** The waiter was sent what its history says: nothing before its answer, and one answer at most. */
  ghost predicate Told(w: Worker, actions: seq<Action>, i: nat) {
    RepliesTo(w.replies, i) == AsList(AnswerIn(actions, i))
  }

  /** What a turn adds for a waiter that has no answer yet. */
  ghost predicate Adds(w: Worker, w': Worker, i: nat, reply: Option<Reply>) {
    RepliesTo(w'.replies, i) == if RepliesTo(w.replies, i) == [] then AsList(reply) else RepliesTo(w.replies, i)
  }

  lemma RefusedTurn(actions: seq<Action>, w: Worker, id: RequestId, ok: bool, w': Worker, i: nat)
    requires Agrees(w, actions) && Outstanding(actions, id).Some? && w' == HandleCommand(w, Request(id), ok)
    ensures Adds(w, w', i, AnswerAt(actions, Take(Request(id), ok), i))
  {
    assert Waiting(w, id) == Outstanding(actions, id);
    NobodyElse(w, BrokenPipe, |w.taken|);
    if i > |w.taken| {
      NobodyElse(w, BrokenPipe, i);
    }
  }

  /** A command answered with `reply` in a turn that then ends the loop. */
  lemma AnswerAndExit(w: Worker, t: Worker, command: Command, reply: Reply, kind: ErrorKind, w': Worker, i: nat)
    requires Sound(w) && w.running && t.pending == w.pending && t.replies == Answer(w.replies, |w.taken|, reply)
    requires t.taken == w.taken + [command] && t.running && w' == Exit(t, kind)
    ensures RepliesTo(w'.replies, i) ==
      if i == |w.taken| then [reply]
      else if i < |w.taken| && RepliesTo(w.replies, i) == [] then [IoError(kind)]
      else RepliesTo(w.replies, i)
  {
    TakeOpensWaiter(w, command);
    AnswerClosesWaiter(w.(taken := w.taken + [command]), |w.taken|, reply);
    assert Sound(t);
    if i < |t.taken| {
      ExitTells(t, kind, i);
    } else {
      NobodyElse(t, kind, i);
    }
    NobodyElse(w, kind, |w.taken|);
  }

  /** A command that is answered at once and ends the loop. */
  lemma LastCommandDecided(actions: seq<Action>, command: Command, ok: bool, reply: Reply, i: nat)
    requires AtOnce(actions, command, ok) == Some(reply) && Ends(actions, Take(command, ok))
    ensures AnswerAt(actions, Take(command, ok), i) ==
      if i == Takes(actions) then Some(reply) else if i < Takes(actions) then Some(IoError(BrokenPipe)) else None
  {
  }

  lemma LastTurn(actions: seq<Action>, w: Worker, t: Worker, command: Command, ok: bool, reply: Reply, w': Worker, i: nat)
    requires Agrees(w, actions) && AtOnce(actions, command, ok) == Some(reply) && Ends(actions, Take(command, ok))
    requires t.pending == w.pending && t.replies == Answer(w.replies, |w.taken|, reply) && t.taken == w.taken + [command] && t.running
    requires w' == Exit(t, BrokenPipe)
    ensures Adds(w, w', i, AnswerAt(actions, Take(command, ok), i))
  {
    LastCommandDecided(actions, command, ok, reply, i);
    AnswerAndExit(w, t, command, reply, BrokenPipe, w', i);
    if i >= |w.taken| {
      NobodyElse(w, BrokenPipe, i);
    }
  }

  lemma FailedTurn(actions: seq<Action>, w: Worker, id: RequestId, w': Worker, i: nat)
    requires Agrees(w, actions) && Outstanding(actions, id).None? && w' == HandleCommand(w, Request(id), false)
    ensures Adds(w, w', i, AnswerAt(actions, Take(Request(id), false), i))
  {
    assert Waiting(w, id) == Outstanding(actions, id);
    var command := Request(id);
    var t := Emit(Written(w.(taken := w.taken + [command]), OutRequest(id)).(replies := Answer(w.replies, |w.taken|, IoError(OtherKind))), Disconnected);
    LastTurn(actions, w, t, command, false, IoError(OtherKind), w', i);
  }

  lemma ShutdownTurn(actions: seq<Action>, w: Worker, ok: bool, w': Worker, i: nat)
    requires Agrees(w, actions) && w' == HandleCommand(w, Shutdown, ok)
    ensures Adds(w, w', i, AnswerAt(actions, Take(Shutdown, ok), i))
  {
    var t := w.(taken := w.taken + [Shutdown], replies := Answer(w.replies, |w.taken|, WriteReply(ok)));
    LastTurn(actions, w, t, Shutdown, ok, WriteReply(ok), w', i);
  }

  lemma CommandAnswers(actions: seq<Action>, w: Worker, command: Command, ok: bool, w': Worker, i: nat)
    requires Agrees(w, actions) && w' == HandleCommand(w, command, ok)
    ensures Adds(w, w', i, AnswerAt(actions, Take(command, ok), i))
  {
    match command
    case Request(id) =>
      assert Waiting(w, id) == Outstanding(actions, id);
      if Outstanding(actions, id).Some? {
        RefusedTurn(actions, w, id, ok, w', i);
      } else if !ok {
        FailedTurn(actions, w, id, w', i);
      } else if i >= |w.taken| {
        NobodyElse(w, BrokenPipe, i);
      }
    case Shutdown => ShutdownTurn(actions, w, ok, w', i);
    case _ =>
      if i >= |w.taken| {
        NobodyElse(w, BrokenPipe, i);
      }
  }

  /** A turn that ends the loop without taking a command. */
  lemma ExitAnswers(w: Worker, t: Worker, kind: ErrorKind, w': Worker, i: nat)
    requires Sound(w) && t.pending == w.pending && t.replies == w.replies && t.taken == w.taken && t.running == w.running
    requires w' == Exit(t, kind)
    ensures Adds(w, w', i, if i < |w.taken| then Some(IoError(kind)) else None)
  {
    if i < |w.taken| {
      ExitTells(t, kind, i);
    } else {
      NobodyElse(t, kind, i);
    }
  }

  lemma SettleAnswers(actions: seq<Action>, w: Worker, id: RequestId, reply: Reply, w': Worker, i: nat)
    requires Agrees(w, actions) && w' == Settle(w, id, reply)
    ensures Adds(w, w', i, if i < Takes(actions) && Outstanding(actions, id) == Some(i) then Some(reply) else None)
  {
    assert Waiting(w, id) == Outstanding(actions, id);
    if id in w.pending {
      assert w.pending[id] in Waiters(w.pending);
      assert RepliesTo(w.replies, w.pending[id]) == [];
    }
  }

  lemma NewsAnswers(actions: seq<Action>, w: Worker, wire: Wire, ok: bool, w': Worker, i: nat)
    requires Agrees(w, actions) && (wire.Notification? || wire.ServerRequest?) && w' == HandleMessage(w, wire, ok)
    ensures Adds(w, w', i, AnswerAt(actions, Read(wire, ok), i))
  {
    NewsDecided(actions, w, wire, ok, i);
    if IsNews(wire) && !w.consumerOpen {
      ExitAnswers(w, w, BrokenPipe, w', i);
    } else if IsForeign(wire) && !ok {
      ExitAnswers(w, Emit(Written(w, Unsupported(wire.id, METHOD_NOT_FOUND)), Disconnected), BrokenPipe, w', i);
    } else {
      assert w'.replies == w.replies;
      StillWaiting(w, w', i);
    }
  }

  lemma NewsDecided(actions: seq<Action>, w: Worker, wire: Wire, ok: bool, i: nat)
    requires |w.taken| == Takes(actions) && w.consumerOpen == Listening(actions) && (wire.Notification? || wire.ServerRequest?)
    ensures AnswerAt(actions, Read(wire, ok), i) ==
      if i < |w.taken| && ((IsNews(wire) && !w.consumerOpen) || (IsForeign(wire) && !ok)) then Some(IoError(BrokenPipe)) else None
  {
  }

  lemma BreakDecided(actions: seq<Action>, wire: Wire, ok: bool, i: nat)
    requires wire.InvalidJson? || wire.CloseFrame? || wire.TransportError? || wire.EndOfStream?
    ensures AnswerAt(actions, Read(wire, ok), i) == if i < Takes(actions) then Some(IoError(EndKind(Read(wire, ok)))) else None
  {
  }

  lemma StillWaiting(w: Worker, w': Worker, i: nat)
    requires w'.replies == w.replies
    ensures Adds(w, w', i, None)
  {
  }

  lemma BreakAnswers(actions: seq<Action>, w: Worker, wire: Wire, ok: bool, kind: ErrorKind, w': Worker, i: nat)
    requires Agrees(w, actions) && w' == Disconnect(w, kind) && kind == EndKind(Read(wire, ok))
    requires wire.InvalidJson? || wire.CloseFrame? || wire.TransportError? || wire.EndOfStream?
    ensures Adds(w, w', i, AnswerAt(actions, Read(wire, ok), i))
  {
    BreakDecided(actions, wire, ok, i);
    ExitAnswers(w, Emit(w, Disconnected), kind, w', i);
  }

  lemma MessageAnswers(actions: seq<Action>, w: Worker, wire: Wire, ok: bool, w': Worker, i: nat)
    requires Agrees(w, actions) && w' == HandleMessage(w, wire, ok)
    ensures Adds(w, w', i, AnswerAt(actions, Read(wire, ok), i))
  {
    match wire
    case Response(id, result) => SettleAnswers(actions, w, id, RpcResult(result), w', i);
    case ErrorResponse(id, code, message) => SettleAnswers(actions, w, id, RpcError(code, message), w', i);
    case Notification(_, _) => NewsAnswers(actions, w, wire, ok, w', i);
    case ServerRequest(_, _, _) => NewsAnswers(actions, w, wire, ok, w', i);
    case IgnoredFrame =>
    case _ => BreakAnswers(actions, w, wire, ok, EndKind(Read(wire, ok)), w', i);
  }

  lemma TurnAnswers(actions: seq<Action>, w: Worker, a: Action, w': Worker, i: nat)
    requires Agrees(w, actions) && w' == Step(w, a)
    ensures Adds(w, w', i, AnswerAt(actions, a, i))
  {
    match a
    case Take(command, ok) => CommandAnswers(actions, w, command, ok, w', i);
    case CommandsClosed => ExitAnswers(w, w, BrokenPipe, w', i);
    case Read(wire, ok) => MessageAnswers(actions, w, wire, ok, w', i);
    case DropConsumer =>
  }

  // ----- whole runs -----

  lemma AgreesWhileRunning(actions: seq<Action>)
    requires Run(actions).running && Run(actions).consumerOpen == Listening(actions)
    ensures Agrees(Run(actions), actions)
  {
    RunIsSound(actions);
    PendingIsOutstanding(actions, StringId(""));
    forall id ensures Waiting(Run(actions), id) == Outstanding(actions, id) {
      PendingIsOutstanding(actions, id);
    }
  }

  lemma {:induction false} ConsumerIsHistory(actions: seq<Action>)
    ensures Run(actions).consumerOpen == Listening(actions)
  {
    if actions != [] {
      var front, last := actions[..|actions| - 1], actions[|actions| - 1];
      ConsumerIsHistory(front);
      assert actions == front + [last];
      OnlyDroppingCloses(Run(front), last);
    }
  }

  lemma OnlyDroppingCloses(w: Worker, a: Action)
    ensures Step(w, a).consumerOpen == (w.consumerOpen && !a.DropConsumer?)
  {
  }

  /** In every run the loop is over exactly when an action ended it, and everything written, told to the consumer
      and taken off the queue is, in order, what the actions call for until then. */
  lemma {:induction false} RunIsHistory(actions: seq<Action>)
    ensures var w := Run(actions);
      && w.running == Alive(actions) && w.writes == WritesIn(actions) && w.events == NewsIn(actions)
      && w.taken == CommandsIn(actions)
  {
    if actions != [] {
      var front, last := actions[..|actions| - 1], actions[|actions| - 1];
      RunIsHistory(front);
      ConsumerIsHistory(front);
      var w := Run(front);
      if w.running {
        AgreesWhileRunning(front);
        match last
        case Take(command, ok) => CommandTurn(front, w, command, ok, Run(actions));
        case Read(wire, ok) => MessageTurn(front, w, wire, ok, Run(actions));
        case CommandsClosed =>
        case DropConsumer =>
      }
    }
  }

  /** Every waiter of every run is sent what its history says and nothing else. */
  lemma {:induction false} AnswersAreHistory(actions: seq<Action>, i: nat)
    ensures Told(Run(actions), actions, i)
  {
    if actions != [] {
      var front, last := actions[..|actions| - 1], actions[|actions| - 1];
      AnswersAreHistory(front, i);
      RunIsHistory(front);
      ConsumerIsHistory(front);
      if Run(front).running {
        AgreesWhileRunning(front);
        TurnAnswers(front, Run(front), last, Run(actions), i);
      }
    }
  }

  lemma AnswerNext(actions: seq<Action>, a: Action, longer: seq<Action>, i: nat)
    requires longer == actions + [a] && Alive(actions)
    ensures AnswerIn(longer, i) == if AnswerIn(actions, i).Some? then AnswerIn(actions, i) else AnswerAt(actions, a, i)
  {
    assert longer[..|actions|] == actions;
  }

  lemma AtOnceDecided(actions: seq<Action>, a: Action)
    requires a.Take? && !a.command.Request?
    ensures AnswerAt(actions, a, Takes(actions)) == Some(if a.ok then Done else IoError(OtherKind))
  {
  }

  lemma EndDecided(actions: seq<Action>, a: Action, i: nat)
    requires Ends(actions, a) && i < Takes(actions)
    ensures AnswerAt(actions, a, i) == Some(IoError(EndKind(a)))
  {
  }

  /** A notification, an answer to the server and a shutdown are answered `Done` exactly when the write succeeded. */
  lemma WritesAreConfirmed(actions: seq<Action>, a: Action, longer: seq<Action>)
    requires Alive(actions) && longer == actions + [a] && a.Take? && !a.command.Request?
    ensures RepliesTo(Run(longer).replies, Takes(actions)) == [if a.ok then Done else IoError(OtherKind)]
  {
    var i := Takes(actions);
    AnswersAreHistory(longer, i);
    NotYetTaken(actions, i);
    AnswerNext(actions, a, longer, i);
    AtOnceDecided(actions, a);
  }

  /** An action that ends the loop gives its own error to everybody still waiting. */
  lemma EndTellsEverybody(actions: seq<Action>, a: Action, longer: seq<Action>, i: nat)
    requires Alive(actions) && longer == actions + [a] && Ends(actions, a) && i < Takes(actions)
    requires RepliesTo(Run(actions).replies, i) == []
    ensures RepliesTo(Run(longer).replies, i) == [IoError(EndKind(a))]
  {
    AnswersAreHistory(actions, i);
    AnswersAreHistory(longer, i);
    AnswerNext(actions, a, longer, i);
    EndDecided(actions, a, i);
  }

  lemma NotYetTaken(actions: seq<Action>, i: nat)
    requires Alive(actions)
    ensures i >= Takes(actions) ==> AnswerIn(actions, i).None?
  {
    AnswersAreHistory(actions, i);
    RunIsHistory(actions);
    RunIsSound(actions);
    PendingIsOutstanding(actions, StringId(""));
  }

  /** The same of every task, whatever happened to it. */
  lemma TasksFollowHistory(task: WorkerTask, i: nat)
    requires task.Valid()
    ensures task.running == Alive(task.history) && task.writes == WritesIn(task.history) && task.events == NewsIn(task.history)
    ensures RepliesTo(task.replies, i) == AsList(AnswerIn(task.history, i))
  {
    RunIsHistory(task.history);
    AnswersAreHistory(task.history, i);
  }
}

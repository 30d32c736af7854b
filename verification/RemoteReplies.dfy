/** Exactly one reply for every command, on every interleaving of commands, wire messages and
    failures, and server results only for the waiter registered under their id. */
module RemoteReplies {
  import opened Text
  import opened Protocol
  import opened RemoteWorker

  /** What every turn keeps: pending entries are requests still waiting, every other waiter has
      exactly one reply, and a worker that left the loop has nobody pending. */
  ghost predicate Sound(w: Worker) {
    && Injective(w.pending)
    && (forall id :: id in w.pending ==> w.pending[id] < |w.taken| && w.taken[w.pending[id]] == Request(id))
    && (forall i :: i in w.replies ==> i < |w.taken|)
    && (forall i: nat :: i < |w.taken| ==> |RepliesTo(w.replies, i)| == if i in Waiters(w.pending) then 0 else 1)
    && (!w.running ==> w.pending == map[])
  }

  /** A waiter taken off the queue and not yet answered, besides the pending ones. */
  ghost predicate SoundExcept(w: Worker, waiter: nat) {
    && Injective(w.pending)
    && (forall id :: id in w.pending ==> w.pending[id] < |w.taken| && w.taken[w.pending[id]] == Request(id))
    && (forall i :: i in w.replies ==> i < |w.taken|)
    && waiter < |w.taken| && waiter !in Waiters(w.pending)
    && (forall i: nat :: i < |w.taken| ==>
          |RepliesTo(w.replies, i)| == if i in Waiters(w.pending) || i == waiter then 0 else 1)
    && w.running
  }

  lemma TakeOpensWaiter(w: Worker, command: Command)
    requires Sound(w) && w.running
    ensures SoundExcept(w.(taken := w.taken + [command]), |w.taken|)
  {
    assert |w.taken| !in w.replies;
    assert |w.taken| !in Waiters(w.pending);
  }

  lemma AnswerClosesWaiter(w: Worker, waiter: nat, reply: Reply)
    requires SoundExcept(w, waiter)
    ensures Sound(w.(replies := Answer(w.replies, waiter, reply)))
  {
  }

  lemma RegisterClosesWaiter(w: Worker, waiter: nat, id: RequestId)
    requires SoundExcept(w, waiter) && id !in w.pending && w.taken[waiter] == Request(id)
    ensures Sound(w.(pending := w.pending[id := waiter]))
  {
    var pending := w.pending[id := waiter];
    assert Waiters(pending) == Waiters(w.pending) + {waiter} by {
      forall i | i in Waiters(w.pending) ensures i in Waiters(pending) {
        var k :| k in w.pending && w.pending[k] == i;
        assert pending[k] == i;
      }
      assert pending[id] == waiter;
    }
  }

  lemma ExitIsSound(w: Worker, kind: ErrorKind)
    requires Sound(w)
    ensures Sound(Exit(w, kind))
  {
    var w' := Exit(w, kind);
    forall i: nat | i < |w.taken| ensures |RepliesTo(w'.replies, i)| == 1 {
      if i in Waiters(w.pending) {
        assert RepliesTo(w'.replies, i) == RepliesTo(w.replies, i) + [IoError(kind)];
      } else {
        assert i in w.replies;
        assert RepliesTo(w'.replies, i) == RepliesTo(w.replies, i) + [];
      }
    }
    assert Waiters(w'.pending) == {};
    forall i | i in w'.replies ensures i < |w.taken| {
      if i in Waiters(w.pending) {
        var k :| k in w.pending && w.pending[k] == i;
      }
    }
  }

  lemma SettleIsSound(w: Worker, id: RequestId, reply: Reply)
    requires Sound(w)
    ensures Sound(Settle(w, id, reply))
  {
    if id in w.pending {
      WaitersRemoved(w.pending, id);
    }
  }

  lemma CommandIsSound(w: Worker, command: Command, ok: bool)
    requires Sound(w) && w.running
    ensures Sound(HandleCommand(w, command, ok))
  {
    var waiter := |w.taken|;
    var t := w.(taken := w.taken + [command]);
    TakeOpensWaiter(w, command);
    match command
    case Request(id) =>
      if id in t.pending {
        AnswerClosesWaiter(t, waiter, IoError(InvalidInput));
      } else if ok {
        RegisterClosesWaiter(Written(t, OutRequest(id)), waiter, id);
      } else {
        var sent := Written(t, OutRequest(id));
        AnswerClosesWaiter(sent, waiter, IoError(OtherKind));
        ExitIsSound(Emit(sent.(replies := Answer(t.replies, waiter, IoError(OtherKind))), Disconnected), BrokenPipe);
      }
    case Notify => AnswerClosesWaiter(Written(t, OutNotification), waiter, WriteReply(ok));
    case Resolve(id) => AnswerClosesWaiter(Written(t, OutResult(id)), waiter, WriteReply(ok));
    case Reject(id, code) => AnswerClosesWaiter(Written(t, OutError(id, code)), waiter, WriteReply(ok));
    case Shutdown =>
      AnswerClosesWaiter(t, waiter, WriteReply(ok));
      ExitIsSound(t.(replies := Answer(t.replies, waiter, WriteReply(ok))), BrokenPipe);
  }

  lemma MessageIsSound(w: Worker, wire: Wire, ok: bool)
    requires Sound(w) && w.running
    ensures Sound(HandleMessage(w, wire, ok))
  {
    match wire
    case Response(id, result) => SettleIsSound(w, id, RpcResult(result));
    case ErrorResponse(id, code, message) => SettleIsSound(w, id, RpcError(code, message));
    case Notification(name, known) => ExitIsSound(w, BrokenPipe);
    case ServerRequest(id, name, known) =>
      ExitIsSound(w, BrokenPipe);
      ExitIsSound(Emit(Written(w, Unsupported(id, METHOD_NOT_FOUND)), Disconnected), BrokenPipe);
    case InvalidJson => ExitIsSound(Emit(w, Disconnected), InvalidData);
    case CloseFrame => ExitIsSound(Emit(w, Disconnected), ConnectionAborted);
    case IgnoredFrame =>
    case TransportError => ExitIsSound(Emit(w, Disconnected), InvalidData);
    case EndOfStream => ExitIsSound(Emit(w, Disconnected), UnexpectedEof);
  }

  lemma {:induction false} RunIsSound(actions: seq<Action>)
    ensures Sound(Run(actions))
  {
    if actions != [] {
      var k := |actions| - 1;
      RunIsSound(actions[..k]);
      var w := Run(actions[..k]);
      if w.running {
        match actions[k]
        case Take(command, ok) => CommandIsSound(w, command, ok);
        case CommandsClosed => ExitIsSound(w, BrokenPipe);
        case Read(wire, ok) => MessageIsSound(w, wire, ok);
        case DropConsumer =>
      }
    }
  }

  /** No command is ever answered twice, and when the worker has left its loop every command it took
      has been answered once. */
  lemma ExactlyOneReply(actions: seq<Action>)
    ensures var w := Run(actions);
      && (forall i: nat :: |RepliesTo(w.replies, i)| <= 1)
      && (!w.running ==> forall i: nat :: i < |w.taken| ==> |RepliesTo(w.replies, i)| == 1)
  {
    RunIsSound(actions);
    var w := Run(actions);
    if !w.running {
      assert Waiters(w.pending) == {};
    }
  }

  /** The same of every task, whatever happened to it. */
  lemma TasksReplyOnce(task: WorkerTask)
    requires task.Valid()
    ensures forall i: nat :: |RepliesTo(task.replies, i)| <= 1
    ensures !task.running ==> forall i: nat :: i < |task.taken| ==> |RepliesTo(task.replies, i)| == 1
  {
    ExactlyOneReply(task.history);
  }

  // ----- who is waiting under an id -----

  function Takes(actions: seq<Action>): nat {
    if actions == [] then 0
    else Takes(actions[..|actions| - 1]) + (if actions[|actions| - 1].Take? then 1 else 0)
  }

  /** The request and reply a wire message carries, if it answers one. */
  function WireReply(wire: Wire): Option<(RequestId, Reply)> {
    match wire
    case Response(id, result) => Some((id, RpcResult(result)))
    case ErrorResponse(id, code, message) => Some((id, RpcError(code, message)))
    case _ => None
  }

  /** Read off the history alone: the first unanswered request under `id`, by its waiter. */
  function Outstanding(actions: seq<Action>, id: RequestId): Option<nat> {
    if actions == [] then None
    else
      var front, last := actions[..|actions| - 1], actions[|actions| - 1];
      var before := Outstanding(front, id);
      match last
      case Take(Request(other), _) => if other == id && before.None? then Some(Takes(front)) else before
      case Read(wire, _) =>
        if WireReply(wire).Some? && WireReply(wire).value.0 == id then None else before
      case _ => before
  }

  function Waiting(w: Worker, id: RequestId): Option<nat> {
    if id in w.pending then Some(w.pending[id]) else None
  }

  lemma TakeKeepsPending(w: Worker, command: Command, ok: bool, id: RequestId)
    requires w.running && HandleCommand(w, command, ok).running
    ensures var w' := HandleCommand(w, command, ok);
      && |w'.taken| == |w.taken| + 1
      && Waiting(w', id) == if command == Request(id) && id !in w.pending then Some(|w.taken|) else Waiting(w, id)
  {
  }

  lemma ReadKeepsPending(w: Worker, wire: Wire, ok: bool, id: RequestId)
    requires w.running && HandleMessage(w, wire, ok).running
    ensures var w' := HandleMessage(w, wire, ok);
      && |w'.taken| == |w.taken|
      && Waiting(w', id) == if WireReply(wire).Some? && WireReply(wire).value.0 == id then None else Waiting(w, id)
  {
  }

  /** The pending map is exactly the unanswered requests of the history. */
  lemma {:induction false} PendingIsOutstanding(actions: seq<Action>, id: RequestId)
    requires Run(actions).running
    ensures Takes(actions) == |Run(actions).taken|
    ensures Outstanding(actions, id) == Waiting(Run(actions), id)
  {
    if actions != [] {
      var front, last := actions[..|actions| - 1], actions[|actions| - 1];
      PendingIsOutstanding(front, id);
      match last
      case Take(command, ok) => TakeKeepsPending(Run(front), command, ok, id);
      case Read(wire, ok) => ReadKeepsPending(Run(front), wire, ok, id);
      case _ =>
    }
  }

  /** A second request under an id that is still waiting is refused at once: nothing is written, the
      loop goes on, and the first waiter stays registered. */
  lemma DuplicateIsRefused(actions: seq<Action>, id: RequestId, ok: bool)
    requires Run(actions).running && Outstanding(actions, id).Some?
    ensures var w, w' := Run(actions), Run(actions + [Take(Request(id), ok)]);
      && w'.running && w'.pending == w.pending && w'.writes == w.writes && w'.events == w.events
      && RepliesTo(w'.replies, |w.taken|) == [IoError(InvalidInput)]
      && (forall i :: i != |w.taken| ==> RepliesTo(w'.replies, i) == RepliesTo(w.replies, i))
      && Outstanding(actions + [Take(Request(id), ok)], id) == Outstanding(actions, id)
  {
    var longer := actions + [Take(Request(id), ok)];
    assert longer[..|longer| - 1] == actions;
    PendingIsOutstanding(actions, id);
    RunIsSound(actions);
    assert |Run(actions).taken| !in Run(actions).replies;
  }

  /** The turn at `k` hands `reply` to waiter `i`: a response arrives while `i` is the one waiting
      under its id. */
  ghost predicate AnsweredAt(actions: seq<Action>, k: nat, i: nat, reply: Reply) {
    && k < |actions| && Run(actions[..k]).running
    && actions[k].Read? && WireReply(actions[k].wire).Some?
    && WireReply(actions[k].wire).value.1 == reply
    && Outstanding(actions[..k], WireReply(actions[k].wire).value.0) == Some(i)
  }

  predicate FromServer(reply: Reply) {
    reply.RpcResult? || reply.RpcError?
  }

  lemma AnswerKeepsServerReplies(replies: map<nat, seq<Reply>>, waiter: nat, other: Reply, i: nat, reply: Reply)
    requires FromServer(reply)
    ensures reply in RepliesTo(Answer(replies, waiter, other), i) <==>
      reply in RepliesTo(replies, i) || (reply == other && i == waiter)
  {
  }

  lemma ExitKeepsServerReplies(w: Worker, kind: ErrorKind, i: nat, reply: Reply)
    requires FromServer(reply)
    ensures reply in RepliesTo(Exit(w, kind).replies, i) <==> reply in RepliesTo(w.replies, i)
  {
    var replies := Exit(w, kind).replies;
    if i in Waiters(w.pending) {
      assert replies[i] == RepliesTo(w.replies, i) + [IoError(kind)];
    } else if i in w.replies {
      assert replies[i] == w.replies[i] + [];
    }
  }

  /** The turn settles a request of waiter `i` with `reply`. */
  ghost predicate Settles(w: Worker, wire: Wire, i: nat, reply: Reply) {
    WireReply(wire).Some? && WireReply(wire).value.1 == reply && Waiting(w, WireReply(wire).value.0) == Some(i)
  }

  lemma CommandServerReplies(w: Worker, command: Command, ok: bool, i: nat, reply: Reply)
    requires FromServer(reply)
    ensures reply in RepliesTo(HandleCommand(w, command, ok).replies, i) <==> reply in RepliesTo(w.replies, i)
  {
    var w' := HandleCommand(w, command, ok);
    var waiter := |w.taken|;
    var t := w.(taken := w.taken + [command]);
    match command
    case Request(id) =>
      if id in w.pending {
        AnswerKeepsServerReplies(w.replies, waiter, IoError(InvalidInput), i, reply);
      } else if !ok {
        AnswerKeepsServerReplies(w.replies, waiter, IoError(OtherKind), i, reply);
        var sent := Written(t, OutRequest(id)).(replies := Answer(w.replies, waiter, IoError(OtherKind)));
        ExitKeepsServerReplies(Emit(sent, Disconnected), BrokenPipe, i, reply);
      }
    case Shutdown =>
      AnswerKeepsServerReplies(w.replies, waiter, WriteReply(ok), i, reply);
      ExitKeepsServerReplies(t.(replies := Answer(w.replies, waiter, WriteReply(ok))), BrokenPipe, i, reply);
    case _ => AnswerKeepsServerReplies(w.replies, waiter, WriteReply(ok), i, reply);
  }

  lemma MessageServerReplies(w: Worker, wire: Wire, ok: bool, i: nat, reply: Reply)
    requires FromServer(reply)
    ensures reply in RepliesTo(HandleMessage(w, wire, ok).replies, i) <==>
      reply in RepliesTo(w.replies, i) || Settles(w, wire, i, reply)
  {
    match wire
    case Response(id, result) =>
      if id in w.pending {
        AnswerKeepsServerReplies(w.replies, w.pending[id], RpcResult(result), i, reply);
      }
    case ErrorResponse(id, code, message) =>
      if id in w.pending {
        AnswerKeepsServerReplies(w.replies, w.pending[id], RpcError(code, message), i, reply);
      }
    case Notification(name, known) => ExitKeepsServerReplies(w, BrokenPipe, i, reply);
    case ServerRequest(id, name, known) =>
      ExitKeepsServerReplies(w, BrokenPipe, i, reply);
      ExitKeepsServerReplies(Emit(Written(w, Unsupported(id, METHOD_NOT_FOUND)), Disconnected), BrokenPipe, i, reply);
    case InvalidJson => ExitKeepsServerReplies(Emit(w, Disconnected), InvalidData, i, reply);
    case CloseFrame => ExitKeepsServerReplies(Emit(w, Disconnected), ConnectionAborted, i, reply);
    case IgnoredFrame =>
    case TransportError => ExitKeepsServerReplies(Emit(w, Disconnected), InvalidData, i, reply);
    case EndOfStream => ExitKeepsServerReplies(Emit(w, Disconnected), UnexpectedEof, i, reply);
  }

  lemma StepServerReplies(w: Worker, a: Action, i: nat, reply: Reply)
    requires FromServer(reply)
    ensures reply in RepliesTo(Step(w, a).replies, i) <==>
      reply in RepliesTo(w.replies, i) || (w.running && a.Read? && Settles(w, a.wire, i, reply))
  {
    if w.running {
      match a
      case Take(command, ok) => CommandServerReplies(w, command, ok, i, reply);
      case CommandsClosed => ExitKeepsServerReplies(w, BrokenPipe, i, reply);
      case Read(wire, ok) => MessageServerReplies(w, wire, ok, i, reply);
      case DropConsumer =>
    }
  }

  /** A server result or error reaches a waiter exactly when it arrived while that waiter was the one
      registered under its id. */
  lemma {:induction false} ServerRepliesReachTheirWaiter(actions: seq<Action>, i: nat, reply: Reply)
    requires FromServer(reply)
    ensures reply in RepliesTo(Run(actions).replies, i) <==> exists k: nat :: AnsweredAt(actions, k, i, reply)
  {
    if actions != [] {
      var k := |actions| - 1;
      var front, a := actions[..k], actions[k];
      ServerRepliesReachTheirWaiter(front, i, reply);
      StepServerReplies(Run(front), a, i, reply);
      forall j: nat | j < k ensures AnsweredAt(actions, j, i, reply) <==> AnsweredAt(front, j, i, reply) {
        assert front[..j] == actions[..j];
      }
      assert AnsweredAt(actions, k, i, reply) <==> Run(front).running && a.Read? && Settles(Run(front), a.wire, i, reply) by {
        if Run(front).running && a.Read? && WireReply(a.wire).Some? {
          PendingIsOutstanding(front, WireReply(a.wire).value.0);
        }
      }
    }
  }
}

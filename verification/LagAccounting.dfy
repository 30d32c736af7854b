/** What every run of the forwarder keeps: exact lag accounting, lossless delivery in order,
    server requests delivered or rejected, and silence after the consumer is gone. */
module LagAccounting {
  import opened Forwarder

  /** Input events delivered, and drops announced, by a sequence of channel entries. */
  function Deliveries(sent: seq<Entry>): nat {
    if sent == [] then 0
    else Deliveries(sent[..|sent| - 1]) + (if sent[|sent| - 1].Passed? then 1 else 0)
  }

  function Announced(sent: seq<Entry>): nat {
    if sent == [] then 0
    else Announced(sent[..|sent| - 1]) + (if sent[|sent| - 1].Own? then sent[|sent| - 1].count else 0)
  }

  /** The events the channel entries stand for. */
  function Contents(sent: seq<Entry>, input: seq<Event>): seq<Event> {
    if sent == [] then []
    else
      var last := sent[|sent| - 1];
      Contents(sent[..|sent| - 1], input)
      + [if last.Own? then Lagged(last.count) else if last.index < |input| then input[last.index] else Lagged(0)]
  }

  /** How many input events were forwarded to the end with `Continue`. */
  function Handled(w: Worker): int {
    if w.phase == Idle && w.enabled then |w.input| else |w.input| - 1
  }

  // ----- the invariants -----

  ghost predicate Control(w: Worker) {
    && 1 <= w.capacity && |w.buffer| <= w.capacity
    && (w.phase != Idle ==> w.enabled && w.input != [])
    && (!w.enabled ==> !w.open && w.input != [])
    && (w.phase == AtMarker ==> w.skipped > 0)
    && (w.phase == AtEvent ==> w.skipped == 0)
  }

  ghost predicate Accounting(w: Worker) {
    && Deliveries(w.sent) + Announced(w.sent) + w.skipped == Handled(w)
    && |w.dropped| == Announced(w.sent) + w.skipped
    && (forall j :: 0 <= j < |w.sent| && w.sent[j].Passed? ==>
          w.sent[j].index == Deliveries(w.sent[..j]) + Announced(w.sent[..j]))
    && (forall i :: i in w.dropped ==> i < Handled(w))
  }

  ghost predicate Fates(w: Worker) {
    && (forall i :: i in w.dropped ==> i < Handled(w))
    && (forall i: nat :: Passed(i) in w.sent ==> i < Handled(w))
    && (forall i: nat :: i < Handled(w) ==> (Passed(i) in w.sent <==> i !in w.dropped))
    && (forall i :: i in w.dropped ==> i < |w.input| && !RequiresDelivery(w.input[i]))
    && (forall i :: i in w.rejected <==> i in w.dropped && i < |w.input| && w.input[i].ServerRequest?)
  }

  ghost predicate Ordered(sent: seq<Entry>) {
    forall j, k :: 0 <= j < k < |sent| && sent[j].Passed? && sent[k].Passed? ==> sent[j].index < sent[k].index
  }

  ghost predicate Stream(w: Worker) {
    && (forall i: nat :: Passed(i) in w.sent ==> i < |w.input|)
    && (w.open ==> w.received + w.buffer == Contents(w.sent, w.input))
    && (!w.open ==> w.received <= Contents(w.sent, w.input))
  }

  ghost predicate Closing(w: Worker) {
    && (w.open ==> w.afterClose == 0)
    && w.afterClose <= 1
    && (w.afterClose == 1 ==> w.phase != Idle || !w.enabled)
  }

  // ----- growth of the record -----

  lemma EntryAdded(sent: seq<Entry>, entry: Entry)
    ensures Deliveries(sent + [entry]) == Deliveries(sent) + (if entry.Passed? then 1 else 0)
    ensures Announced(sent + [entry]) == Announced(sent) + (if entry.Own? then entry.count else 0)
  {
    assert (sent + [entry])[..|sent|] == sent;
  }

  lemma {:induction false} ContentsGrow(sent: seq<Entry>, input: seq<Event>, e: Event)
    requires forall i: nat :: Passed(i) in sent ==> i < |input|
    ensures Contents(sent, input + [e]) == Contents(sent, input)
  {
    if sent != [] {
      var front, last := sent[..|sent| - 1], sent[|sent| - 1];
      ContentsGrow(front, input, e);
      if last.Passed? {
        assert last == Passed(last.index);
      }
    }
  }

  // ----- every action keeps them -----

  lemma KeepsControl(w: Worker, a: Action)
    requires Control(w)
    ensures Control(Step(w, a))
  {
  }

  lemma KeepsAccounting(w: Worker, a: Action)
    requires Control(w) && Accounting(w) && |Step(w, a).input| <= USIZE_MAX
    ensures Accounting(Step(w, a))
  {
    var w' := Step(w, a);
    if a.Proceed? && w.phase != Idle && w.open && Room(w) {
      PushKeepsAccounting(w, if w.phase == AtMarker then Own(w.skipped) else Passed(Last(w)));
    } else if a.Proceed? && w.phase != Idle && w.open && !RequiresDelivery(w.input[Last(w)]) {
      assert w.skipped < USIZE_MAX;
      assert |w.dropped + {Last(w)}| == |w.dropped| + 1;
    }
  }

  lemma PushKeepsAccounting(w: Worker, entry: Entry)
    requires Control(w) && Accounting(w) && w.phase != Idle
    requires entry == if w.phase == AtMarker then Own(w.skipped) else Passed(Last(w))
    ensures Accounting(w.(sent := w.sent + [entry], skipped := 0, phase := if w.phase == AtMarker then AtEvent else Idle))
  {
    var sent := w.sent + [entry];
    EntryAdded(w.sent, entry);
    forall j | 0 <= j < |sent| && sent[j].Passed?
      ensures sent[j].index == Deliveries(sent[..j]) + Announced(sent[..j])
    {
      assert sent[..j] == w.sent[..j];
      if j == |w.sent| {
        assert w.sent[..j] == w.sent;
      }
    }
  }

  lemma KeepsFates(w: Worker, a: Action)
    requires Control(w) && Fates(w)
    ensures Fates(Step(w, a))
  {
    var w' := Step(w, a);
    if a.Proceed? && w.phase != Idle && w.open && Room(w) {
      var entry := if w.phase == AtMarker then Own(w.skipped) else Passed(Last(w));
      assert w'.sent == w.sent + [entry];
      assert forall x :: x in w'.sent <==> x in w.sent || x == entry;
    }
  }

  lemma KeepsOrder(w: Worker, a: Action)
    requires Control(w) && Fates(w) && Ordered(w.sent)
    ensures Ordered(Step(w, a).sent)
  {
    var sent := Step(w, a).sent;
    forall j, k | 0 <= j < k < |sent| && sent[j].Passed? && sent[k].Passed? ensures sent[j].index < sent[k].index {
      assert sent[j] == w.sent[j] && w.sent[j] == Passed(w.sent[j].index);
    }
  }

  lemma PushKeepsStream(w: Worker, entry: Entry, e: Event, sent: seq<Entry>)
    requires Stream(w) && w.open && sent == w.sent + [entry] && (entry.Passed? ==> entry.index < |w.input|)
    requires e == if entry.Own? then Lagged(entry.count) else w.input[entry.index]
    ensures w.received + (w.buffer + [e]) == Contents(sent, w.input)
    ensures forall i: nat :: Passed(i) in sent ==> i < |w.input|
  {
    assert sent[..|w.sent|] == w.sent;
    assert w.received + (w.buffer + [e]) == w.received + w.buffer + [e];
    assert forall x :: x in sent <==> x in w.sent || x == entry;
  }

  lemma KeepsStream(w: Worker, a: Action)
    requires Control(w) && Stream(w)
    ensures Stream(Step(w, a))
  {
    var w' := Step(w, a);
    match a
    case Next(e) =>
      ContentsGrow(w.sent, w.input, e);
    case Proceed =>
      if w.phase != Idle && w.open && Room(w) {
        var entry := if w.phase == AtMarker then Own(w.skipped) else Passed(Last(w));
        PushKeepsStream(w, entry, if w.phase == AtMarker then Lagged(w.skipped) else w.input[Last(w)], w.sent + [entry]);
      }
    case Receive =>
      if w.open && w.buffer != [] {
        assert w.buffer == [w.buffer[0]] + w.buffer[1..];
        assert w.received + w.buffer == w.received + [w.buffer[0]] + w.buffer[1..];
      }
    case Close =>
  }

  lemma KeepsClosing(w: Worker, a: Action)
    requires Control(w) && Closing(w)
    ensures Closing(Step(w, a))
  {
  }

  lemma {:induction false} RunControl(capacity: nat, actions: seq<Action>)
    ensures Control(Run(capacity, actions)) && Fates(Run(capacity, actions))
    ensures Stream(Run(capacity, actions)) && Closing(Run(capacity, actions)) && Ordered(Run(capacity, actions).sent)
  {
    if actions != [] {
      var k := |actions| - 1;
      RunControl(capacity, actions[..k]);
      var w, a := Run(capacity, actions[..k]), actions[k];
      KeepsControl(w, a);
      KeepsFates(w, a);
      KeepsOrder(w, a);
      KeepsStream(w, a);
      KeepsClosing(w, a);
    }
  }

  lemma {:induction false} RunAccounting(capacity: nat, actions: seq<Action>)
    requires |Run(capacity, actions).input| <= USIZE_MAX
    ensures Accounting(Run(capacity, actions))
  {
    if actions != [] {
      var k := |actions| - 1;
      var w := Run(capacity, actions[..k]);
      assert |w.input| <= |Step(w, actions[k]).input|;
      RunAccounting(capacity, actions[..k]);
      RunControl(capacity, actions[..k]);
      KeepsAccounting(w, actions[k]);
    }
  }

  // ----- the theorems -----

  /** In every run, a delivered event's input index is the number of events delivered before it plus
      the drops announced before it; drops not yet announced are exactly the skip counter. */
  lemma ExactLagAccounting(capacity: nat, actions: seq<Action>)
    requires |Run(capacity, actions).input| <= USIZE_MAX
    ensures var w := Run(capacity, actions);
      && (forall j :: 0 <= j < |w.sent| && w.sent[j].Passed? ==>
            w.sent[j].index == Deliveries(w.sent[..j]) + Announced(w.sent[..j]))
      && Handled(w) == Deliveries(w.sent) + Announced(w.sent) + w.skipped
      && |w.dropped| - Announced(w.sent) == w.skipped
  {
    RunAccounting(capacity, actions);
  }

  /** Every lossless event whose forward is over was delivered, deliveries are in input order, and
      the consumer of an open channel has received or will receive exactly the channel's record. */
  lemma LosslessInOrder(capacity: nat, actions: seq<Action>)
    ensures var w := Run(capacity, actions);
      && (forall i: nat :: i < Handled(w) && RequiresDelivery(w.input[i]) ==> Passed(i) in w.sent)
      && Ordered(w.sent)
      && (w.open ==> w.received + w.buffer == Contents(w.sent, w.input))
      && (!w.open ==> w.received <= Contents(w.sent, w.input))
  {
    RunControl(capacity, actions);
  }

  /** A server request whose forward is over was delivered or rejected, never both, never neither. */
  lemma ServerRequestsAnswered(capacity: nat, actions: seq<Action>)
    ensures var w := Run(capacity, actions);
      forall i: nat :: i < Handled(w) && w.input[i].ServerRequest? ==> (Passed(i) in w.sent <==> i !in w.rejected)
  {
    RunControl(capacity, actions);
  }

  /** The same of every task, whatever happened to it. */
  lemma TasksAccountForLag(task: ForwarderTask)
    requires task.Valid() && |task.input| <= USIZE_MAX
    ensures Handled(task.Snapshot()) == Deliveries(task.sent) + Announced(task.sent) + task.skippedEvents
    ensures task.open ==> task.received + task.buffer == Contents(task.sent, task.input)
    ensures forall i: nat :: i < Handled(task.Snapshot()) && RequiresDelivery(task.input[i]) ==> Passed(i) in task.sent
  {
    RunControl(task.requested, task.history);
    ExactLagAccounting(task.requested, task.history);
    LosslessInOrder(task.requested, task.history);
  }

  lemma {:induction false} RunAppend(capacity: nat, before: seq<Action>, after: seq<Action>)
    ensures after != [] ==>
      Run(capacity, before + after) == Step(Run(capacity, before + after[..|after| - 1]), after[|after| - 1])
  {
    if after != [] {
      assert (before + after)[..|before + after| - 1] == before + after[..|after| - 1];
    }
  }

  /** Once the consumer is gone nothing more is sent, every forward ends the stream, and the worker
      takes at most one further event to forward. */
  lemma {:induction false} SilentAfterClose(capacity: nat, before: seq<Action>, after: seq<Action>)
    requires !Run(capacity, before).open
    ensures var w, w' := Run(capacity, before), Run(capacity, before + after);
      && !w'.open && w'.sent == w.sent && w'.dropped == w.dropped && w'.rejected == w.rejected
      && |w'.input| + w.afterClose == |w.input| + w'.afterClose <= |w.input| + 1
    ensures Run(capacity, before + after).phase != Idle ==> !Step(Run(capacity, before + after), Proceed).enabled
  {
    RunControl(capacity, before + after);
    if after == [] {
      assert before + after == before;
    } else {
      SilentAfterClose(capacity, before, after[..|after| - 1]);
      RunAppend(capacity, before, after);
    }
  }
}

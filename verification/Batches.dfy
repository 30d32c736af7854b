/** Batching of analytics events into requests (codex-rs/analytics/src/client.rs:519-540). */
module Batches {

  function Flatten<T>(batches: seq<seq<T>>): seq<T> {
    if batches == [] then [] else batches[0] + Flatten(batches[1..])
  }

  predicate Isolated<T>(batch: seq<T>, isolated: T -> bool) {
    |batch| == 1 && isolated(batch[0])
  }

  predicate AllPlain<T>(batch: seq<T>, isolated: T -> bool) {
    forall i :: 0 <= i < |batch| ==> !isolated(batch[i])
  }

  /** All events in order, none lost; no empty request; isolated events alone; and no more
      requests than that needs. */
  ghost predicate IsBatching<T>(batches: seq<seq<T>>, events: seq<T>, isolated: T -> bool) {
    && Flatten(batches) == events
    && (forall i :: 0 <= i < |batches| ==> Proper(batches[i], isolated))
    && NoPlainNeighbours(batches, isolated)
  }

  predicate Proper<T>(batch: seq<T>, isolated: T -> bool) {
    batch != [] && (Isolated(batch, isolated) || AllPlain(batch, isolated))
  }

  ghost predicate NoPlainNeighbours<T>(batches: seq<seq<T>>, isolated: T -> bool) {
    forall i, j :: 0 <= i < j == i + 1 < |batches| ==> Isolated(batches[i], isolated) || Isolated(batches[j], isolated)
  }

  lemma {:induction false} FlattenPush<T>(batches: seq<seq<T>>, batch: seq<T>)
    ensures Flatten(batches + [batch]) == Flatten(batches) + batch
  {
    if batches == [] {
      assert [batch][1..] == [];
      assert batches + [batch] == [batch];
      assert batch + [] == batch;
    } else {
      assert (batches + [batch])[1..] == batches[1..] + [batch];
      FlattenPush(batches[1..], batch);
      assert batches[0] + (Flatten(batches[1..]) + batch) == batches[0] + Flatten(batches[1..]) + batch;
    }
  }

  lemma PushKeepsNeighbours<T>(batches: seq<seq<T>>, batch: seq<T>, isolated: T -> bool)
    requires NoPlainNeighbours(batches, isolated)
    requires batches != [] ==> Isolated(batches[|batches| - 1], isolated) || Isolated(batch, isolated)
    ensures NoPlainNeighbours(batches + [batch], isolated)
  {
  }

  lemma PushKeepsBatching<T>(batches: seq<seq<T>>, batch: seq<T>, isolated: T -> bool)
    requires IsBatching(batches, Flatten(batches), isolated)
    requires Proper(batch, isolated)
    requires batches != [] ==> Isolated(batches[|batches| - 1], isolated) || Isolated(batch, isolated)
    ensures Flatten(batches + [batch]) == Flatten(batches) + batch
    ensures IsBatching(batches + [batch], Flatten(batches + [batch]), isolated)
  {
    FlattenPush(batches, batch);
    PushKeepsNeighbours(batches, batch, isolated);
  }

  /** `track_event_request_batches` */
  method TrackEventRequestBatches<T>(events: seq<T>, isolated: T -> bool) returns (batches: seq<seq<T>>)
    ensures IsBatching(batches, events, isolated)
  {
    batches := [];
    var current: seq<T> := [];
    for i := 0 to |events|
      invariant Flatten(batches) + current == events[..i]
      invariant AllPlain(current, isolated)
      invariant IsBatching(batches, Flatten(batches), isolated)
      invariant batches != [] ==> Isolated(batches[|batches| - 1], isolated)
    {
      var event := events[i];
      assert events[..i + 1] == events[..i] + [event];
      if isolated(event) {
        if current != [] {
          PushKeepsBatching(batches, current, isolated);
          batches := batches + [current];
          current := [];
        }
        PushKeepsBatching(batches, [event], isolated);
        batches := batches + [[event]];
      } else {
        current := current + [event];
      }
    }
    assert events[..|events|] == events;
    if current != [] {
      PushKeepsBatching(batches, current, isolated);
      batches := batches + [current];
    }
  }

  /** The batching is the only one with these properties. */
  lemma {:induction false} BatchingIsUnique<T>(a: seq<seq<T>>, b: seq<seq<T>>, events: seq<T>, isolated: T -> bool)
    requires IsBatching(a, events, isolated) && IsBatching(b, events, isolated)
    ensures a == b
    decreases |events|
  {
    if a == [] || b == [] {
      EmptyBatching(a, events, isolated);
      EmptyBatching(b, events, isolated);
    } else {
      FirstBatchNotShorter(a, b, events, isolated);
      FirstBatchNotShorter(b, a, events, isolated);
      assert a[0] == events[..|a[0]|] == b[0];
      var rest := events[|a[0]|..];
      RestOfBatching(a, events, isolated);
      RestOfBatching(b, events, isolated);
      BatchingIsUnique(a[1..], b[1..], rest, isolated);
      assert a == [a[0]] + a[1..] && b == [b[0]] + b[1..];
    }
  }

  lemma EmptyBatching<T>(a: seq<seq<T>>, events: seq<T>, isolated: T -> bool)
    requires IsBatching(a, events, isolated)
    ensures a == [] <==> events == []
  {
    if a != [] {
      assert events[0] == a[0][0];
    }
  }

  lemma RestOfBatching<T>(a: seq<seq<T>>, events: seq<T>, isolated: T -> bool)
    requires a != [] && IsBatching(a, events, isolated)
    ensures |a[0]| <= |events| && a[0] == events[..|a[0]|]
    ensures IsBatching(a[1..], events[|a[0]|..], isolated)
  {
    var rest := a[1..];
    assert Flatten(rest) == events[|a[0]|..];
    forall i | 0 <= i < |rest| - 1 ensures Isolated(rest[i], isolated) || Isolated(rest[i + 1], isolated) {
      assert rest[i] == a[i + 1] && rest[i + 1] == a[(i + 1) + 1];
    }
  }

  /** The first batch of one batching cannot be shorter than that of another. */
  lemma FirstBatchNotShorter<T>(a: seq<seq<T>>, b: seq<seq<T>>, events: seq<T>, isolated: T -> bool)
    requires a != [] && b != [] && IsBatching(a, events, isolated) && IsBatching(b, events, isolated)
    ensures |a[0]| >= |b[0]|
  {
    RestOfBatching(a, events, isolated);
    RestOfBatching(b, events, isolated);
    if |a[0]| < |b[0]| {
      assert b[0][0] == events[0] == a[0][0] && b[0][|a[0]|] == events[|a[0]|];
      var rest := events[|a[0]|..];
      EmptyBatching(a[1..], rest, isolated);
    }
  }
}

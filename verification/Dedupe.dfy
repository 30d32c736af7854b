/** The dedupe sets of the analytics queue (codex-rs/analytics/src/client.rs:52, 146-177). */
module Dedupe {
  import opened Text

  type Key = (string, string)

  /** `ANALYTICS_EVENT_DEDUPE_MAX_KEYS` */
  const MAX_KEYS := 4096

  /** The set after offering a key: a full set is cleared first, then the key is inserted. */
  function After(emitted: set<Key>, key: Key): set<Key> {
    (if |emitted| >= MAX_KEYS then {} else emitted) + {key}
  }

  /** Whether the key is let through. */
  predicate Admits(emitted: set<Key>, key: Key) {
    |emitted| >= MAX_KEYS || key !in emitted
  }

  /** The two shared sets. An app without a connector id is never deduplicated. */
  class EventsQueue {
    var appUsed: set<Key>
    var pluginUsed: set<Key>

    constructor ()
      ensures appUsed == {} && pluginUsed == {}
    {
      appUsed, pluginUsed := {}, {};
    }

    method ShouldEnqueueAppUsed(turnId: string, connectorId: Option<string>) returns (enqueue: bool)
      modifies this`appUsed
      ensures connectorId.None? ==> enqueue && appUsed == old(appUsed)
      ensures connectorId.Some? ==>
        && enqueue == Admits(old(appUsed), (turnId, connectorId.value))
        && appUsed == After(old(appUsed), (turnId, connectorId.value))
    {
      if connectorId.None? {
        return true;
      }
      if |appUsed| >= MAX_KEYS {
        appUsed := {};
      }
      enqueue := (turnId, connectorId.value) !in appUsed;
      appUsed := appUsed + {(turnId, connectorId.value)};
    }

    method ShouldEnqueuePluginUsed(turnId: string, pluginKey: string) returns (enqueue: bool)
      modifies this`pluginUsed
      ensures enqueue == Admits(old(pluginUsed), (turnId, pluginKey))
      ensures pluginUsed == After(old(pluginUsed), (turnId, pluginKey))
    {
      if |pluginUsed| >= MAX_KEYS {
        pluginUsed := {};
      }
      enqueue := (turnId, pluginKey) !in pluginUsed;
      pluginUsed := pluginUsed + {(turnId, pluginKey)};
    }
  }

  /** A run of calls on one set: the set, the admissions since it was last cleared, and those
      before, one group for each time it was cleared. */
  datatype History = History(emitted: set<Key>, current: seq<Key>, past: seq<seq<Key>>)

  function Step(h: History, key: Key): History {
    var cleared := |h.emitted| >= MAX_KEYS;
    var current := if cleared then [] else h.current;
    History(
      After(h.emitted, key),
      if Admits(h.emitted, key) then current + [key] else current,
      if cleared then h.past + [h.current] else h.past)
  }

  function Run(calls: seq<Key>): History {
    if calls == [] then History({}, [], []) else Step(Run(calls[..|calls| - 1]), calls[|calls| - 1])
  }

  function Count(keys: seq<Key>, key: Key): nat {
    if keys == [] then 0
    else Count(keys[..|keys| - 1], key) + (if keys[|keys| - 1] == key then 1 else 0)
  }

  function CountAll(groups: seq<seq<Key>>, key: Key): nat {
    if groups == [] then 0
    else CountAll(groups[..|groups| - 1], key) + Count(groups[|groups| - 1], key)
  }

  function TotalLength(groups: seq<seq<Key>>): nat {
    if groups == [] then 0 else TotalLength(groups[..|groups| - 1]) + |groups[|groups| - 1]|
  }

  /** How often a key was let through in a run, and how many admissions there were. */
  function Admissions(calls: seq<Key>, key: Key): nat {
    CountAll(Run(calls).past, key) + Count(Run(calls).current, key)
  }

  function TotalAdmissions(calls: seq<Key>): nat {
    TotalLength(Run(calls).past) + |Run(calls).current|
  }

  ghost predicate Distinct(keys: seq<Key>) {
    forall i, j :: 0 <= i < j < |keys| ==> keys[i] != keys[j]
  }

  /** What holds of every history. */
  ghost predicate Invariant(h: History) {
    && |h.emitted| <= MAX_KEYS
    && Distinct(h.current) && |h.current| == |h.emitted|
    && (forall k :: k in h.current <==> k in h.emitted)
    && (forall g :: g in h.past ==> Distinct(g) && |g| == MAX_KEYS)
  }

  lemma StepKeepsInvariant(h: History, key: Key)
    requires Invariant(h)
    ensures Invariant(Step(h, key))
  {
  }

  /** The set never holds more than 4096 keys, and no key is admitted twice between two clears. */
  lemma {:induction false} RunInvariant(calls: seq<Key>)
    ensures Invariant(Run(calls))
  {
    if calls != [] {
      RunInvariant(calls[..|calls| - 1]);
      StepKeepsInvariant(Run(calls[..|calls| - 1]), calls[|calls| - 1]);
    }
  }

  lemma {:induction false} DistinctCount(keys: seq<Key>, key: Key)
    requires Distinct(keys)
    ensures Count(keys, key) <= 1
    ensures key !in keys ==> Count(keys, key) == 0
  {
    if keys != [] {
      var front, last := keys[..|keys| - 1], keys[|keys| - 1];
      DistinctCount(front, key);
      if last == key {
        assert key !in front;
      }
    }
  }

  lemma {:induction false} GroupsCount(groups: seq<seq<Key>>, key: Key)
    requires forall g :: g in groups ==> Distinct(g) && |g| == MAX_KEYS
    ensures CountAll(groups, key) <= |groups|
    ensures TotalLength(groups) == MAX_KEYS * |groups|
  {
    if groups != [] {
      GroupsCount(groups[..|groups| - 1], key);
      assert groups[|groups| - 1] in groups;
      DistinctCount(groups[|groups| - 1], key);
    }
  }

  /** However the calls come, one key gets through at most once, plus once per 4096 admissions. */
  lemma AdmissionBound(calls: seq<Key>, key: Key)
    ensures Admissions(calls, key) <= 1 + TotalAdmissions(calls) / MAX_KEYS
  {
    RunInvariant(calls);
    var h := Run(calls);
    GroupsCount(h.past, key);
    DistinctCount(h.current, key);
    var total := MAX_KEYS * |h.past| + |h.current|;
    assert |h.past| <= total / MAX_KEYS;
  }
}

/** Which keys a dedupe set lets through, read off the keys it let through before: those of the current round of
    4096 are held back, and a new round starts when the last is full. */
module DedupeHistory {
  import opened Dedupe

  /** The admissions of the round under way. */
  function Round(admitted: seq<Key>): seq<Key> {
    admitted[|admitted| - |admitted| % 4096..]
  }

  /** The keys let through, in order. */
  function AdmittedIn(calls: seq<Key>): seq<Key> {
    if calls == [] then []
    else
      var before, key := AdmittedIn(calls[..|calls| - 1]), calls[|calls| - 1];
      if key in Round(before) then before else before + [key]
  }

  function Joined(groups: seq<seq<Key>>): seq<Key> {
    if groups == [] then [] else Joined(groups[..|groups| - 1]) + groups[|groups| - 1]
  }

  lemma JoinedNext(groups: seq<seq<Key>>, group: seq<Key>)
    ensures Joined(groups + [group]) == Joined(groups) + group
  {
    assert (groups + [group])[..|groups|] == groups;
  }

  lemma {:induction false} JoinedLength(groups: seq<seq<Key>>)
    requires forall g :: g in groups ==> |g| == 4096
    ensures |Joined(groups)| == 4096 * |groups|
  {
    if groups != [] {
      assert groups[|groups| - 1] in groups;
      JoinedLength(groups[..|groups| - 1]);
    }
  }

  /** The round is what was admitted since the set was last cleared, unless that is a whole round. */
  lemma RoundIs(h: History, admitted: seq<Key>)
    requires Invariant(h) && admitted == Joined(h.past) + h.current
    ensures Round(admitted) == if |h.current| == 4096 then [] else h.current
  {
    JoinedLength(h.past);
    assert |admitted| % 4096 == if |h.current| == 4096 then 0 else |h.current|;
  }

  lemma FullRecorded(h: History, key: Key, past: seq<seq<Key>>)
    requires |h.emitted| >= 4096 && past == h.past + [h.current]
    ensures Step(h, key).past == past && Step(h, key).current == [key]
    ensures Joined(past) == Joined(h.past) + h.current
  {
    JoinedNext(h.past, h.current);
  }

  lemma OpenRecorded(h: History, key: Key)
    requires Invariant(h) && |h.emitted| < 4096
    ensures Step(h, key).past == h.past
    ensures Step(h, key).current == if key in h.current then h.current else h.current + [key]
  {
  }

  lemma CallRecorded(h: History, key: Key, admitted: seq<Key>)
    requires Invariant(h) && admitted == Joined(h.past) + h.current
    ensures Joined(Step(h, key).past) + Step(h, key).current == if key in Round(admitted) then admitted else admitted + [key]
  {
    RoundIs(h, admitted);
    if |h.emitted| >= 4096 {
      FullRecorded(h, key, h.past + [h.current]);
    } else {
      OpenRecorded(h, key);
      Behind(Joined(h.past), h.current, key);
    }
  }

  lemma Behind(past: seq<Key>, current: seq<Key>, key: Key)
    ensures past + (current + [key]) == past + current + [key]
  {
  }

  lemma {:induction false} RunsAreRounds(calls: seq<Key>)
    ensures Joined(Run(calls).past) + Run(calls).current == AdmittedIn(calls)
  {
    if calls != [] {
      var front := calls[..|calls| - 1];
      RunsAreRounds(front);
      RunInvariant(front);
      CallRecorded(Run(front), calls[|calls| - 1], AdmittedIn(front));
    }
  }

  /** After every sequence of calls a key is let through exactly when the round under way does not have it. */
  lemma AdmittedExactly(calls: seq<Key>, key: Key)
    ensures Admits(Run(calls).emitted, key) <==> key !in Round(AdmittedIn(calls))
  {
    RunsAreRounds(calls);
    RunInvariant(calls);
    RoundIs(Run(calls), AdmittedIn(calls));
  }
}

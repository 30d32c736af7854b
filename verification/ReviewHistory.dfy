/** Review history is exact: what a tool event says about the reviews of its item is what the run's
    terminal reviews of that item, since its summary was last used up, say. */
module ReviewHistory {
  import opened Text
  import opened Protocol
  import opened AnalyticsModel
  import opened Reducer

  // ----- reviews in the history -----

  /** The review last asked for under an id and not answered since. */
  function PendingIn(inputs: seq<Input>, id: RequestId): Option<Review> {
    if inputs == [] then None
    else
      var before, fact := PendingIn(inputs[..|inputs| - 1], id), inputs[|inputs| - 1].fact;
      if fact.ReviewAsked? && fact.requestId == id then
        Or(Opened(id, fact.threadId, fact.turnId, fact.itemId, fact.startedAtMs, fact.ask), before)
      else if fact.ReviewAnswered? && fact.requestId == id then None
      else before
  }

  /** The review a fact brings to an end: an answer ends the pending one under its id. */
  function Ended(pending: Option<Review>, fact: Fact): Option<Terminal> {
    if fact.GuardianReviewed? then GuardianTerminal(fact)
    else if fact.ReviewAnswered? && pending.Some? then Some(Terminal(pending.value, User, VerdictOf(fact.answer)))
    else None
  }

  function EndedIn(inputs: seq<Input>, fact: Fact): Option<Terminal> {
    Ended(if fact.ReviewAnswered? then PendingIn(inputs, fact.requestId) else None, fact)
  }

  predicate Concerns(terminal: Option<Terminal>, key: ItemKey) {
    terminal.Some? && SummaryKey(terminal.value.review) == Some(key)
  }

  /** The fact completes the item in a state where its summary is used up. */
  predicate UsesUp(s: State, fact: Fact, key: ItemKey) {
    && fact.ItemCompleted? && TrackedId(fact.item).Some?
    && key == ItemKey(fact.threadId, fact.turnId, fact.item.id)
    && fact.turnId in s.turns && key in s.tools.itemsStarted && fact.completedAtMs >= 0
    && ThreadContext(s.directory, key.threadId).Some?
  }

  /** The terminal reviews of an item since its summary was last used up, in order. */
  function ReviewsOf(inputs: seq<Input>, key: ItemKey): seq<Terminal> {
    if inputs == [] then []
    else
      var front, fact := inputs[..|inputs| - 1], inputs[|inputs| - 1].fact;
      if UsesUp(Run(front).next, fact, key) then []
      else if Concerns(EndedIn(front, fact), key) then ReviewsOf(front, key) + [EndedIn(front, fact).value]
      else ReviewsOf(front, key)
  }

  function CountBy(reviews: seq<Terminal>, reviewer: Reviewer): nat {
    if reviews == [] then 0
    else CountBy(reviews[..|reviews| - 1], reviewer) + (if reviews[|reviews| - 1].reviewer == reviewer then 1 else 0)
  }

  ghost predicate AnyMorePermissions(reviews: seq<Terminal>) {
    exists i :: 0 <= i < |reviews| && reviews[i].review.morePermissions
  }

  ghost predicate AnyNetwork(reviews: seq<Terminal>) {
    exists i :: 0 <= i < |reviews| && reviews[i].review.network
  }

  function LastApproval(reviews: seq<Terminal>): Option<Approval> {
    if reviews == [] then None
    else
      var last := reviews[|reviews| - 1];
      Some(FinalApproval(last.reviewer, last.verdict))
  }

  /** The summary, computed from the whole list of reviews. */
  ghost predicate Summarises(summary: ReviewSummary, reviews: seq<Terminal>) {
    && summary.reviews == |reviews|
    && summary.guardianReviews == CountBy(reviews, Guardian)
    && summary.userReviews == CountBy(reviews, User)
    && summary.outcome == LastApproval(reviews)
    && (summary.morePermissions <==> AnyMorePermissions(reviews))
    && (summary.network <==> AnyNetwork(reviews))
  }

  lemma AnyOfOneMore(reviews: seq<Terminal>, t: Terminal)
    ensures AnyMorePermissions(reviews + [t]) <==> AnyMorePermissions(reviews) || t.review.morePermissions
    ensures AnyNetwork(reviews + [t]) <==> AnyNetwork(reviews) || t.review.network
  {
    var longer := reviews + [t];
    assert longer[|reviews|] == t;
    forall i | 0 <= i < |reviews| ensures longer[i] == reviews[i] {
    }
  }

  lemma CountedSummarises(summary: ReviewSummary, reviews: seq<Terminal>, t: Terminal)
    requires Summarises(summary, reviews)
    ensures Summarises(Counted(summary, t.reviewer, t.verdict, t.review), reviews + [t])
  {
    AnyOfOneMore(reviews, t);
    assert (reviews + [t])[..|reviews|] == reviews;
  }

  // ----- one step -----

  lemma StepPending(s: State, input: Input, id: RequestId, out: Out<State>)
    requires out == Step(s, input)
    ensures var fact, before := input.fact, Get(s.tools.pendingReviews, id);
      Get(out.next.tools.pendingReviews, id) ==
        if fact.ReviewAsked? && fact.requestId == id then
          Or(Opened(id, fact.threadId, fact.turnId, fact.itemId, fact.startedAtMs, fact.ask), before)
        else if fact.ReviewAnswered? && fact.requestId == id then None
        else before
  {
    if IsToolFact(input.fact) {
      ToolStepPending(s.directory, s.tools, input.fact, id, ToolStep(s.directory, s.tools, input.fact));
    }
  }

  lemma ToolStepPending(d: Directory, tools: Tools, fact: Fact, id: RequestId, out: Out<Tools>)
    requires IsToolFact(fact) && out == ToolStep(d, tools, fact)
    ensures var before := Get(tools.pendingReviews, id);
      Get(out.next.pendingReviews, id) ==
        if fact.ReviewAsked? && fact.requestId == id then
          Or(Opened(id, fact.threadId, fact.turnId, fact.itemId, fact.startedAtMs, fact.ask), before)
        else if fact.ReviewAnswered? && fact.requestId == id then None
        else before
  {
  }

  lemma {:induction false} PendingIsHistory(inputs: seq<Input>, id: RequestId)
    ensures Get(Run(inputs).next.tools.pendingReviews, id) == PendingIn(inputs, id)
  {
    if inputs != [] {
      var before, last := Run(inputs[..|inputs| - 1]).next, inputs[|inputs| - 1];
      PendingIsHistory(inputs[..|inputs| - 1], id);
      StepPending(before, last, id, Step(before, last));
    }
  }

  /** The summary after one more terminal review of the item, if the fact brings one. */
  function After(summary: Option<ReviewSummary>, terminal: Option<Terminal>, key: ItemKey): Option<ReviewSummary> {
    if !Concerns(terminal, key) then summary
    else
      var t := terminal.value;
      Some(Counted(OrElse(summary, NO_REVIEWS), t.reviewer, t.verdict, t.review))
  }

  function PendingUnder(tools: Tools, fact: Fact): Option<Review> {
    if fact.ReviewAnswered? then Get(tools.pendingReviews, fact.requestId) else None
  }

  lemma ToolStepSummaries(d: Directory, tools: Tools, fact: Fact, key: ItemKey, out: Out<Tools>)
    requires IsToolFact(fact) && out == ToolStep(d, tools, fact)
    ensures Get(out.next.summaries, key) == After(Get(tools.summaries, key), Ended(PendingUnder(tools, fact), fact), key)
  {
  }

  lemma ItemStepSummaries(s: State, fact: Fact, key: ItemKey, out: Out<State>)
    requires fact.ItemCompleted? && out == ItemStep(s, fact)
    ensures Get(out.next.tools.summaries, key) == if UsesUp(s, fact, key) then None else Get(s.tools.summaries, key)
  {
  }

  lemma StepSummaries(s: State, input: Input, key: ItemKey, out: Out<State>)
    requires out == Step(s, input)
    ensures Get(out.next.tools.summaries, key) ==
      if UsesUp(s, input.fact, key) then None
      else After(Get(s.tools.summaries, key), Ended(PendingUnder(s.tools, input.fact), input.fact), key)
  {
    if IsToolFact(input.fact) {
      ToolStepSummaries(s.directory, s.tools, input.fact, key, ToolStep(s.directory, s.tools, input.fact));
    } else if input.fact.ItemCompleted? {
      ItemStepSummaries(s, input.fact, key, out);
    }
  }

  // ----- whole runs -----

  /** A summary is kept for exactly the items with unused terminal reviews, and it summarises them. */
  lemma {:induction false} SummariesAreHistory(inputs: seq<Input>, key: ItemKey)
    ensures var summary, reviews := Get(Run(inputs).next.tools.summaries, key), ReviewsOf(inputs, key);
      && (summary.None? <==> reviews == [])
      && Summarises(OrElse(summary, NO_REVIEWS), reviews)
  {
    if inputs != [] {
      var front, last := inputs[..|inputs| - 1], inputs[|inputs| - 1];
      SummariesAreHistory(front, key);
      var before := Run(front).next;
      StepSummaries(before, last, key, Step(before, last));
      if last.fact.ReviewAnswered? {
        PendingIsHistory(front, last.fact.requestId);
      }
      if Concerns(EndedIn(front, last.fact), key) {
        CountedSummarises(OrElse(Get(before.tools.summaries, key), NO_REVIEWS), ReviewsOf(front, key), EndedIn(front, last.fact).value);
      }
    }
  }

  /** The tool event carries the review history of its item. */
  ghost predicate Carries(tool: ToolReport, reviews: seq<Terminal>) {
    && tool.reviewCount == |reviews|
    && tool.guardianReviewCount == CountBy(reviews, Guardian)
    && tool.userReviewCount == CountBy(reviews, User)
    && tool.finalApproval == OrElse(LastApproval(reviews), UnknownApproval)
    && (tool.morePermissions <==> AnyMorePermissions(reviews))
    && (tool.network <==> AnyNetwork(reviews))
  }

  lemma ToolEventsOfStep(s: State, input: Input, out: Out<State>, i: nat)
    requires out == Step(s, input) && i < |out.events| && out.events[i].ToolEvent?
    ensures var tool := out.events[i].tool;
      && UsesUp(s, input.fact, tool.key)
      && var summary := OrElse(Get(s.tools.summaries, tool.key), NO_REVIEWS);
         && tool.reviewCount == summary.reviews
         && tool.guardianReviewCount == summary.guardianReviews
         && tool.userReviewCount == summary.userReviews
         && tool.finalApproval == OrElse(summary.outcome, UnknownApproval)
         && tool.morePermissions == summary.morePermissions
         && tool.network == summary.network
  {
  }

  /** In every run the review fields of a tool event are those of its item's review history. */
  lemma ToolEventsCarryHistory(inputs: seq<Input>, input: Input, i: nat)
    requires var out := Step(Run(inputs).next, input); i < |out.events| && out.events[i].ToolEvent?
    ensures var tool := Step(Run(inputs).next, input).events[i].tool;
      UsesUp(Run(inputs).next, input.fact, tool.key) && Carries(tool, ReviewsOf(inputs, tool.key))
  {
    var s := Run(inputs).next;
    ToolEventsOfStep(s, input, Step(s, input), i);
    SummariesAreHistory(inputs, Step(s, input).events[i].tool.key);
  }
}

/** Connections and threads are history: what the reducer knows of them is settled by the facts that
    initialised connections, opened threads and started sub-agents. */
module DirectoryHistory {
  import opened Text
  import opened AnalyticsModel
  import opened Reducer

  /** The connection last initialised under an id. */
  function LastInitialized(inputs: seq<Input>, id: nat): Option<Connection> {
    if inputs == [] then None
    else
      var front, fact := inputs[..|inputs| - 1], inputs[|inputs| - 1].fact;
      if fact.Initialized? && fact.connectionId == id then Some(fact.connection) else LastInitialized(front, id)
  }

  datatype Opening = Opening(connectionId: nat, metadata: Metadata)

  /** What the last response said that opened the thread on a connection known by then. */
  function LastOpened(inputs: seq<Input>, threadId: string): Option<Opening> {
    if inputs == [] then None
    else
      var front, fact := inputs[..|inputs| - 1], inputs[|inputs| - 1].fact;
      if fact.ThreadOpened? && fact.thread.id == threadId && LastInitialized(front, fact.connectionId).Some? then
        var thread := fact.thread;
        Some(Opening(fact.connectionId,
          Metadata(thread.sessionId, thread.threadSource, fact.mode, thread.subagentSource, thread.parentThreadId)))
      else LastOpened(front, threadId)
  }

  /** What the first start of the thread as a sub-agent said. */
  function FirstStarted(inputs: seq<Input>, threadId: string): Option<Metadata> {
    if inputs == [] then None
    else
      var front, fact := inputs[..|inputs| - 1], inputs[|inputs| - 1].fact;
      Or(FirstStarted(front, threadId),
        if fact.SubAgentStarted? && fact.threadId == threadId
        then Some(Metadata(fact.sessionId, Some("subagent"), New, Some(fact.subagentSource), fact.parentThreadId)) else None)
  }

  /** The first connection a parent had to offer when the thread was started as its sub-agent. */
  function FirstInherited(inputs: seq<Input>, threadId: string): Option<nat>
    decreases |inputs|, 0
  {
    if inputs == [] then None
    else
      var front, fact := inputs[..|inputs| - 1], inputs[|inputs| - 1].fact;
      Or(FirstInherited(front, threadId),
        if fact.SubAgentStarted? && fact.threadId == threadId && fact.parentThreadId.Some?
        then ConnectionOfThread(front, fact.parentThreadId.value) else None)
  }

  /** An opened thread has the connection it was last opened on, any other the first one it inherited. */
  function ConnectionOfThread(inputs: seq<Input>, threadId: string): Option<nat>
    decreases |inputs|, 1
  {
    match LastOpened(inputs, threadId)
    case Some(opening) => Some(opening.connectionId)
    case None => FirstInherited(inputs, threadId)
  }

  function MetadataOfThread(inputs: seq<Input>, threadId: string): Option<Metadata> {
    match LastOpened(inputs, threadId)
    case Some(opening) => Some(opening.metadata)
    case None => FirstStarted(inputs, threadId)
  }

  // ----- one step -----

  lemma OnlySetupChangesDirectory(s: State, input: Input)
    requires !IsSetup(input.fact)
    ensures Step(s, input).next.directory == s.directory
  {
  }

  lemma {:induction false} ConnectionsAreHistory(inputs: seq<Input>, id: nat)
    ensures Get(Run(inputs).next.directory.connections, id) == LastInitialized(inputs, id)
  {
    if inputs != [] {
      var front, last := inputs[..|inputs| - 1], inputs[|inputs| - 1];
      ConnectionsAreHistory(front, id);
      if !IsSetup(last.fact) {
        OnlySetupChangesDirectory(Run(front).next, last);
      }
    }
  }

  /** The thread is known exactly when it was opened or started, and has the connection and metadata its
      facts settled. */
  ghost predicate ThreadMatches(d: Directory, inputs: seq<Input>, threadId: string) {
    && (threadId in d.threads <==> LastOpened(inputs, threadId).Some? || FirstStarted(inputs, threadId).Some?)
    && ThreadConnectionId(d, threadId) == ConnectionOfThread(inputs, threadId)
    && (threadId in d.threads ==> d.threads[threadId].metadata == MetadataOfThread(inputs, threadId))
    && (threadId !in d.threads ==> FirstInherited(inputs, threadId).None?)
  }

  lemma OpenedMatches(inputs: seq<Input>, front: seq<Input>, fact: Fact, threadId: string, d: Directory)
    requires inputs != [] && front == inputs[..|inputs| - 1] && fact == inputs[|inputs| - 1].fact && fact.ThreadOpened?
    requires ThreadMatches(d, front, threadId) && Get(d.connections, fact.connectionId) == LastInitialized(front, fact.connectionId)
    ensures ThreadMatches(SetupStep(d, fact).next, inputs, threadId)
  {
  }

  lemma StartedMatches(inputs: seq<Input>, front: seq<Input>, fact: Fact, threadId: string, d: Directory)
    requires inputs != [] && front == inputs[..|inputs| - 1] && fact == inputs[|inputs| - 1].fact && fact.SubAgentStarted?
    requires ThreadMatches(d, front, threadId)
    requires fact.parentThreadId.Some? ==> ThreadMatches(d, front, fact.parentThreadId.value)
    ensures ThreadMatches(SetupStep(d, fact).next, inputs, threadId)
  {
  }

  lemma OtherMatches(inputs: seq<Input>, front: seq<Input>, fact: Fact, threadId: string, d: Directory, d': Directory)
    requires inputs != [] && front == inputs[..|inputs| - 1] && fact == inputs[|inputs| - 1].fact
    requires !fact.ThreadOpened? && !fact.SubAgentStarted? && ThreadMatches(d, front, threadId) && d'.threads == d.threads
    ensures ThreadMatches(d', inputs, threadId)
  {
  }

  lemma {:induction false} ThreadsAreHistory(inputs: seq<Input>, threadId: string)
    ensures ThreadMatches(Run(inputs).next.directory, inputs, threadId)
    decreases |inputs|
  {
    if inputs != [] {
      var front, last := inputs[..|inputs| - 1], inputs[|inputs| - 1];
      var before := Run(front).next;
      ThreadsAreHistory(front, threadId);
      match last.fact
      case ThreadOpened(connectionId, _, _) =>
        ConnectionsAreHistory(front, connectionId);
        OpenedMatches(inputs, front, last.fact, threadId, before.directory);
      case SubAgentStarted(_, _, _, parent, _, _) =>
        if parent.Some? {
          ThreadsAreHistory(front, parent.value);
        }
        StartedMatches(inputs, front, last.fact, threadId, before.directory);
      case _ =>
        if !IsSetup(last.fact) {
          OnlySetupChangesDirectory(before, last);
        }
        OtherMatches(inputs, front, last.fact, threadId, before.directory, Run(inputs).next.directory);
    }
  }
}

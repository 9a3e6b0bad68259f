/**
  The walker of a flow: nodes run one after the other along the edges their outputs choose. Cycles
  are legal, so a step budget ends every run; a failure may jump, once, to the flow's error handler.
 */
module FlowWalker {
  import opened Wrappers
  import opened Text

  datatype Node = Node(id: string, pluginId: string)

  datatype Edge = Edge(fromNodeId: string, outputNumber: int, toNodeId: string)

  datatype Flow = Flow(nodes: seq<Node>, edges: seq<Edge>)

  datatype Meaning = Succeeds | Fails

  datatype Output = Output(number: int, meaning: Option<Meaning>)

  datatype Plugin = Plugin(name: string, isStart: bool, isErrorHandler: bool, outputs: seq<Output>)

  /** Every text the walker writes for an error. */
  datatype Message =
    | Said(text: string)
    | NoOutputNumber(pluginName: string)
    | ReportedFailure(pluginName: string, output: int)
    | NoStartNode
    | StartNodesFailed(failures: seq<(string, string, string)>)
    | OverBudget(steps: nat)
    | EdgeToNowhere(fromNodeId: string, toNodeId: string)
    | EndedWithoutRecovery

  datatype FlowError = FlowError(nodeId: string, pluginId: string, pluginName: string, message: Message)

  /** The variables a run carries; `rest` is whatever else plugins keep there. */
  datatype Variables = Variables(flowFailed: bool, flowError: Option<FlowError>, errorOutcome: Option<Meaning>, rest: string)

  /** What loading a node's plugin can do. An abort ends the run, whoever is asking. */
  datatype LoadResult = Loaded(plugin: Plugin) | LoadFailed(message: string) | LoadAborted(message: string)

  /** What running a plugin can do. */
  datatype RunResult =
    | Ran(outputNumber: int, path: string, variables: Option<Variables>)
    | RanBadly
    | Threw(message: string)
    | Held(reason: string)
    | RunAborted(message: string)

  datatype Step = Step(
    seq_: nat,
    nodeId: string,
    pluginId: string,
    pluginName: string,
    outputNumber: Option<int>,
    meaning: Option<Meaning>,
    log: string,
    error: Option<Message>
  )

  datatype StopReason = EndOfFlow | PluginError | StepBudget | MissingNode | NoStart | HeldForReview

  datatype Report = Report(
    steps: seq<Step>,
    variables: Variables,
    currentPath: string,
    failed: bool,
    stopReason: StopReason,
    error: Option<Message>,
    reviewReason: Option<string>
  )

  datatype Outcome = Finished(report: Report) | Aborted(message: string) | Rejected

  // ---- Looking things up -------------------------------------------------------------

  /** `nodesById`: of nodes with one id, the last. */
  function NodeById(nodes: seq<Node>, id: string): (r: Option<Node>)
    ensures r.Some? ==> r.value in nodes && r.value.id == id
    ensures r.None? ==> forall n :: n in nodes ==> n.id != id
  {
    if nodes == [] then None
    else if nodes[|nodes| - 1].id == id then Some(nodes[|nodes| - 1])
    else NodeById(nodes[..|nodes| - 1], id)
  }

  /** The first edge out of a node on an output. */
  function FirstEdge(edges: seq<Edge>, from: string, output: int): (r: Option<Edge>)
    ensures r.Some? ==> r.value in edges && r.value.fromNodeId == from && r.value.outputNumber == output
    ensures r.None? ==> forall e :: e in edges ==> e.fromNodeId != from || e.outputNumber != output
  {
    if edges == [] then None
    else if edges[0].fromNodeId == from && edges[0].outputNumber == output then Some(edges[0])
    else FirstEdge(edges[1..], from, output)
  }

  /** What a plugin declares the output it took to mean. */
  function MeaningOf(outputs: seq<Output>, number: int): Option<Meaning> {
    if outputs == [] then None
    else if outputs[0].number == number then outputs[0].meaning
    else MeaningOf(outputs[1..], number)
  }

  /** The first node, in the flow's order, known to be an error handler. */
  function FirstHandler(nodes: seq<Node>, loaded: map<string, Plugin>): (r: Option<Node>)
    ensures r.Some? ==> r.value in nodes && r.value.id in loaded && loaded[r.value.id].isErrorHandler
  {
    if nodes == [] then None
    else if nodes[0].id in loaded && loaded[nodes[0].id].isErrorHandler then Some(nodes[0])
    else FirstHandler(nodes[1..], loaded)
  }

  // ---- What a run owes ---------------------------------------------------------------

  /** Where a step sends the run when nothing fails. */
  function EdgeOf(flow: Flow, step: Step): Option<Edge> {
    if step.outputNumber.None? then None else FirstEdge(flow.edges, step.nodeId, step.outputNumber.value)
  }

  /** A failure the flow's author routed nowhere: an error, or a declared failure with no edge. */
  predicate Unrouted(flow: Flow, step: Step) {
    step.error.Some? || (step.meaning == Some(Fails) && step.outputNumber.Some? && EdgeOf(flow, step).None?)
  }

  /** The step was followed by this node along its first matching edge. */
  predicate AlongEdge(flow: Flow, step: Step, next: Node) {
    && step.error.None? && EdgeOf(flow, step).Some?
    && NodeById(flow.nodes, EdgeOf(flow, step).value.toNodeId) == Some(next)
  }

  /** The step failed with nowhere to go, and the run jumped to another node that handles errors. */
  predicate ToHandler(flow: Flow, loaded: map<string, Plugin>, step: Step, next: Node) {
    && Unrouted(flow, step) && next in flow.nodes && next.id != step.nodeId
    && next.id in loaded && loaded[next.id].isErrorHandler
  }

  /** Steps are numbered from one, each is its node's, and each but the last led to the next. */
  predicate WellWalked(flow: Flow, loaded: map<string, Plugin>, visited: seq<Node>, steps: seq<Step>, jump: Option<nat>) {
    && |visited| == |steps|
    && (forall k :: 0 <= k < |steps| ==> steps[k].seq_ == k + 1 && steps[k].nodeId == visited[k].id
                                         && steps[k].pluginId == visited[k].pluginId)
    && (forall k :: 0 <= k < |steps| - 1 ==>
          if jump == Some(k) then ToHandler(flow, loaded, steps[k], visited[k + 1])
          else AlongEdge(flow, steps[k], visited[k + 1]))
  }

  /** No handler is left for a step that failed: it was used, it is the step's own node, or there is none. */
  predicate NoHandlerLeft(flow: Flow, loaded: map<string, Plugin>, handlerUsed: bool, nodeId: string) {
    || handlerUsed
    || FirstHandler(flow.nodes, loaded).None?
    || FirstHandler(flow.nodes, loaded).value.id == nodeId
  }

  datatype Event = Load(nodeId: string, loading: LoadResult) | Run(node: Node, running: RunResult)

  /** No node's plugin is loaded again once it has loaded. */
  predicate LoadedOnce(trace: seq<Event>) {
    forall p, q :: 0 <= p < q < |trace| && trace[p].Load? && trace[p].loading.Loaded? && trace[q].Load?
      ==> trace[p].nodeId != trace[q].nodeId
  }

  lemma UnroutedJumps(flow: Flow, loaded: map<string, Plugin>, visited: seq<Node>, steps: seq<Step>, jump: Option<nat>, k: nat)
    requires WellWalked(flow, loaded, visited, steps, jump) && k < |steps| - 1 && Unrouted(flow, steps[k])
    ensures jump == Some(k)
  {
    assert jump != Some(k) ==> AlongEdge(flow, steps[k], visited[k + 1]);
  }

  /** A run survives at most one failure nobody routed, and nothing follows a step that neither failed nor chose an output. */
  lemma OneFailureIsSurvived(flow: Flow, loaded: map<string, Plugin>, visited: seq<Node>, steps: seq<Step>, jump: Option<nat>,
                             j: nat, k: nat)
    requires WellWalked(flow, loaded, visited, steps, jump) && j < |steps| - 1 && k < |steps| - 1
    ensures Unrouted(flow, steps[j]) && Unrouted(flow, steps[k]) ==> j == k
    ensures steps[j].error.Some? || steps[j].outputNumber.Some?
  {
    if Unrouted(flow, steps[j]) { UnroutedJumps(flow, loaded, visited, steps, jump, j); }
    if Unrouted(flow, steps[k]) { UnroutedJumps(flow, loaded, visited, steps, jump, k); }
    assert ToHandler(flow, loaded, steps[j], visited[j + 1]) || AlongEdge(flow, steps[j], visited[j + 1]);
  }

  /** Why a run may stop where it did. */
  predicate StopFits(flow: Flow, loaded: map<string, Plugin>, handlerUsed: bool, routeLoadErrors: bool, maxSteps: nat,
                     steps: seq<Step>, reason: StopReason)
  {
    if reason == NoStart then steps == []
    else if reason == StepBudget then |steps| == maxSteps
    else
      steps != [] &&
      var last := steps[|steps| - 1];
      match reason
      case MissingNode => last.error.None? && EdgeOf(flow, last).Some? && NodeById(flow.nodes, EdgeOf(flow, last).value.toNodeId).None?
      case HeldForReview => last.error.None? && last.outputNumber.None?
      case PluginError => last.error.Some? &&
        ((!routeLoadErrors && last.nodeId !in loaded) || NoHandlerLeft(flow, loaded, handlerUsed, last.nodeId))
      case _ =>
        && last.error.None? && last.outputNumber.Some? && EdgeOf(flow, last).None?
        && (last.meaning == Some(Fails) ==> NoHandlerLeft(flow, loaded, handlerUsed, last.nodeId))
  }

  /** A run with nothing to start from, or nothing left of its budget, may stop for that. */
  lemma EmptyOrSpentFits(flow: Flow, loaded: map<string, Plugin>, handlerUsed: bool, routeLoadErrors: bool, maxSteps: nat, steps: seq<Step>)
    ensures steps == [] ==> StopFits(flow, loaded, handlerUsed, routeLoadErrors, maxSteps, steps, NoStart)
    ensures |steps| == maxSteps ==> StopFits(flow, loaded, handlerUsed, routeLoadErrors, maxSteps, steps, StepBudget)
  {
  }

  lemma ErrorStopHasError(flow: Flow, loaded: map<string, Plugin>, handlerUsed: bool, routeLoadErrors: bool, maxSteps: nat, steps: seq<Step>)
    requires StopFits(flow, loaded, handlerUsed, routeLoadErrors, maxSteps, steps, PluginError)
    ensures steps != [] && steps[|steps| - 1].error.Some?
  {
  }

  /** Where a visit leaves the run. */
  datatype Next = GoTo(node: Node) | Stop(reason: StopReason, error: Option<Message>) | Abort(message: string) | Reject

  datatype Found = FoundNode(node: Node) | NotFound | FindAborted(message: string)

  function Blank(): Variables {
    Variables(false, None, None, "")
  }

  /** The variables after a failure: the first failure's own diagnostics are kept. */
  function WithFailure(v: Variables, error: FlowError): Variables {
    v.(flowFailed := true, flowError := if v.flowError.Some? then v.flowError else Some(error))
  }

  /** The plugins kept are exactly those the trace shows loading. */
  ghost predicate Kept(trace: seq<Event>, loaded: map<string, Plugin>) {
    && LoadedOnce(trace)
    && (forall id :: id in loaded ==> Load(id, Loaded(loaded[id])) in trace)
    && (forall p :: 0 <= p < |trace| && trace[p].Load? && trace[p].loading.Loaded? ==> trace[p].nodeId in loaded)
  }

  /** More plugins known unsay nothing that was walked. */
  lemma WalkedStays(flow: Flow, before: map<string, Plugin>, after: map<string, Plugin>, visited: seq<Node>, steps: seq<Step>, jump: Option<nat>)
    requires WellWalked(flow, before, visited, steps, jump) && Grows(before, after)
    ensures WellWalked(flow, after, visited, steps, jump)
  {
    hide AlongEdge, Unrouted;
    assert forall k :: 0 <= k < |steps| - 1 ==> ToHandler(flow, before, steps[k], visited[k + 1]) ==> ToHandler(flow, after, steps[k], visited[k + 1]);
    hide ToHandler;
  }

  /** A jump from the last step is no part of what was walked yet. */
  lemma JumpIsAhead(flow: Flow, loaded: map<string, Plugin>, visited: seq<Node>, steps: seq<Step>)
    requires WellWalked(flow, loaded, visited, steps, None) && steps != []
    ensures WellWalked(flow, loaded, visited, steps, Some(|steps| - 1))
  {
    hide AlongEdge, ToHandler;
  }

  lemma OneMoreLoad(trace: seq<Event>, loaded: map<string, Plugin>, id: string, r: LoadResult)
    requires Kept(trace, loaded) && id !in loaded
    ensures Kept(trace + [Load(id, r)], if r.Loaded? then loaded[id := r.plugin] else loaded)
  {
    var more := trace + [Load(id, r)];
    assert forall e :: e in trace ==> e in more;
    assert more[|trace|] == Load(id, r);
  }

  lemma OneMoreRun(trace: seq<Event>, loaded: map<string, Plugin>, node: Node, r: RunResult)
    requires Kept(trace, loaded)
    ensures Kept(trace + [Run(node, r)], loaded)
  {
    assert forall e :: e in trace ==> e in trace + [Run(node, r)];
  }

  // ---- The record is what the plugins answered ----------------------------------------

  /** The step records this answer: a plugin's, or a load's that failed. No step records an abort. */
  predicate Backs(e: Event, node: Node, step: Step) {
    match e
    case Load(id, loading) => id == node.id && loading.LoadFailed? && step.error == Some(Said(loading.message))
    case Run(n, r) =>
      && n == node && !r.RunAborted?
      && step.outputNumber == (if r.Ran? then Some(r.outputNumber) else None)
      && (step.error.Some? <==> r.RanBadly? || r.Threw?)
  }

  predicate Answers(e: Event) {
    e.Run? && !e.running.RunAborted?
  }

  /** Step `k` records the answer at `at[k]`, in order, and no plugin's answer goes unrecorded. */
  ghost predicate Exact(trace: seq<Event>, visited: seq<Node>, steps: seq<Step>, at: seq<nat>) {
    && |at| == |steps| == |visited|
    && (forall k :: 0 <= k < |at| ==> at[k] < |trace| && Backs(trace[at[k]], visited[k], steps[k]))
    && (forall j, k :: 0 <= j < k < |at| ==> at[j] < at[k])
    && (forall p: nat :: p < |trace| && Answers(trace[p]) ==> p in at)
  }

  lemma ExactFromNothing(visited: seq<Node>)
    requires visited == []
    ensures Exact([], visited, [], [])
  {
  }

  /** Nothing was recorded, and since then no plugin has answered. */
  lemma NothingAnswered(trace: seq<Event>, more: seq<Event>, visited: seq<Node>, steps: seq<Step>, at: seq<nat>)
    requires Exact(trace, visited, steps, at) && trace <= more
    requires forall p :: |trace| <= p < |more| ==> !Answers(more[p])
    ensures Exact(more, visited, steps, at)
  {
    hide Backs;
    forall p: nat | p < |more| && Answers(more[p]) ensures p in at {
      assert more[p] == trace[p];
    }
  }

  lemma RunIsAnswer(node: Node, step: Step, r: RunResult)
    requires !r.RunAborted? && step.outputNumber == (if r.Ran? then Some(r.outputNumber) else None)
    requires step.error.Some? <==> r.RanBadly? || r.Threw?
    ensures Backs(Run(node, r), node, step)
  {
  }

  lemma AbortIsNoAnswer(node: Node, r: RunResult)
    requires r.RunAborted?
    ensures !Answers(Run(node, r))
  {
  }

  lemma FailureIsAnswer(node: Node, step: Step, message: string)
    requires step.error == Some(Said(message))
    ensures Backs(Load(node.id, LoadFailed(message)), node, step)
  {
  }

  lemma OneRecorded(trace: seq<Event>, e: Event, visited: seq<Node>, node: Node, steps: seq<Step>, step: Step, at: seq<nat>)
    requires Exact(trace, visited, steps, at) && Backs(e, node, step)
    ensures Exact(trace + [e], visited + [node], steps + [step], at + [|trace|])
  {
    hide Backs;
    var more, at' := trace + [e], at + [|trace|];
    forall p: nat | p < |more| && Answers(more[p]) ensures p in at' {
      if p < |trace| { assert p in at; } else { assert at'[|at|] == p; }
    }
  }

  predicate Grows(before: map<string, Plugin>, after: map<string, Plugin>) {
    forall id :: id in before ==> id in after && after[id] == before[id]
  }

  predicate Handles(loaded: map<string, Plugin>, node: Node) {
    node.id in loaded && loaded[node.id].isErrorHandler
  }

  lemma {:induction false} NoHandlers(nodes: seq<Node>, loaded: map<string, Plugin>)
    requires forall k :: 0 <= k < |nodes| ==> !Handles(loaded, nodes[k])
    ensures FirstHandler(nodes, loaded).None?
  {
    if nodes != [] {
      assert !Handles(loaded, nodes[0]);
      NoHandlers(nodes[1..], loaded);
    }
  }

  lemma {:induction false} HandlerFound(nodes: seq<Node>, n: nat, loaded: map<string, Plugin>)
    requires n < |nodes| && Handles(loaded, nodes[n])
    requires forall k :: 0 <= k < n && Handles(loaded, nodes[k]) ==> nodes[k].id == nodes[n].id
    ensures FirstHandler(nodes, loaded).Some? && FirstHandler(nodes, loaded).value.id == nodes[n].id
  {
    if n > 0 && !Handles(loaded, nodes[0]) { HandlerFound(nodes[1..], n - 1, loaded); }
  }

  /** The search for a start went past this node: it loads as something else, or did not load. */
  ghost predicate PassedOver(loaded: map<string, Plugin>, trace: seq<Event>, id: string) {
    (id in loaded && !loaded[id].isStart) || exists message :: Load(id, LoadFailed(message)) in trace
  }

  /** In the flow's order, the first node that is a start. */
  ghost predicate FirstStart(nodes: seq<Node>, loaded: map<string, Plugin>, trace: seq<Event>, node: Node) {
    exists k :: 0 <= k < |nodes| && nodes[k] == node && node.id in loaded && loaded[node.id].isStart
                && forall j :: 0 <= j < k ==> PassedOver(loaded, trace, nodes[j].id)
  }

  lemma LoadedAsAnother(loaded: map<string, Plugin>, trace: seq<Event>, id: string)
    requires id in loaded && !loaded[id].isStart
    ensures PassedOver(loaded, trace, id)
  {
  }

  lemma FailedIsOver(loaded: map<string, Plugin>, trace: seq<Event>, id: string, message: string)
    requires trace != [] && trace[|trace| - 1] == Load(id, LoadFailed(message))
    ensures PassedOver(loaded, trace, id)
  {
    assert Load(id, LoadFailed(message)) in trace;
  }

  lemma OverStays(before: map<string, Plugin>, after: map<string, Plugin>, trace: seq<Event>, more: seq<Event>, id: string)
    requires PassedOver(before, trace, id) && Grows(before, after) && trace <= more
    ensures PassedOver(after, more, id)
  {
    assert forall e :: e in trace ==> e in more;
  }

  lemma FirstStartStays(
      nodes: seq<Node>, before: map<string, Plugin>, after: map<string, Plugin>, trace: seq<Event>, more: seq<Event>, node: Node)
    requires FirstStart(nodes, before, trace, node) && Grows(before, after) && trace <= more
    ensures FirstStart(nodes, after, more, node)
  {
    var k :| 0 <= k < |nodes| && nodes[k] == node && node.id in before && before[node.id].isStart
             && forall j :: 0 <= j < k ==> PassedOver(before, trace, nodes[j].id);
    forall j | 0 <= j < k ensures PassedOver(after, more, nodes[j].id) {
      OverStays(before, after, trace, more, nodes[j].id);
    }
  }

  /** At this place in the trace the node's plugin answered. */
  predicate AnsweredAt(trace: seq<Event>, p: nat, node: Node) {
    p < |trace| && Answers(trace[p]) && trace[p].node == node
  }

  /** The node's own calls, the first after `before`, came to an answer: its load failed, or its plugin answered. */
  predicate Answered(before: seq<Event>, after: seq<Event>, knew: bool, node: Node) {
    if knew then AnsweredAt(after, |before|, node)
    else
      && |before| < |after| && after[|before|].Load? && after[|before|].nodeId == node.id
      && (after[|before|].loading.LoadFailed? || (after[|before|].loading.Loaded? && AnsweredAt(after, |before| + 1, node)))
  }

  /** Nothing but loads came after. */
  predicate OnlyLoads(before: seq<Event>, after: seq<Event>) {
    before <= after && forall p :: |before| <= p < |after| ==> after[p].Load?
  }

  class Walk {
    const flow: Flow
    const initialPath: string
    const startNodeId: Option<string>
    const maxSteps: nat
    const routeLoadErrors: bool
    var loaded: map<string, Plugin>
    var variables: Variables
    var currentPath: string
    var steps: seq<Step>
    var reviewReason: Option<string>
    var handlerUsed: bool
    /** The nodes visited, the step that jumped to the handler, and every call made on the plugins. */
    ghost var visited: seq<Node>
    ghost var jump: Option<nat>
    ghost var trace: seq<Event>
    /** Where in the trace each step's answer is. */
    ghost var at: seq<nat>

    constructor (flow: Flow, initialPath: string, startNodeId: Option<string>, maxSteps: nat, routeLoadErrors: bool)
      ensures this.flow == flow && this.initialPath == initialPath && this.startNodeId == startNodeId
      ensures this.maxSteps == maxSteps && this.routeLoadErrors == routeLoadErrors
      ensures steps == [] && trace == [] && jump == None && variables == Blank() && Valid() && Recorded()
    {
      this.flow, this.initialPath, this.startNodeId := flow, initialPath, startNodeId;
      this.maxSteps, this.routeLoadErrors := maxSteps, routeLoadErrors;
      loaded, variables, currentPath, steps := map[], Blank(), initialPath, [];
      reviewReason, handlerUsed := None, false;
      visited, jump, trace, at := [], None, [], [];
    }

    ghost predicate Valid()
      reads this
    {
      && |visited| == |steps| <= maxSteps
      && WellWalked(flow, loaded, visited, steps, jump)
      && (handlerUsed <==> jump.Some?) && (jump.Some? ==> jump.value < |steps|)
      && Kept(trace, loaded)
    }

    /** The steps are exactly the answers the plugins gave. */
    ghost predicate Recorded()
      reads this
    {
      Exact(trace, visited, steps, at)
    }

    /** `node` is where the last step sent the run. */
    ghost predicate Leads(node: Node)
      reads this
    {
      steps != [] ==>
        var last := steps[|steps| - 1];
        if jump == Some(|steps| - 1) then ToHandler(flow, loaded, last, node) else AlongEdge(flow, last, node)
    }

    /** Host: load a plugin. What it answers is the host's. */
    method LoadPlugin(node: Node) returns (r: LoadResult)
      modifies `trace
      ensures trace == old(trace) + [Load(node.id, r)]
    {
      r := *;
      trace := trace + [Load(node.id, r)];
    }

    /** Host: run a plugin, and the log it wrote. `None` is a host that could not build its arguments. */
    method RunPlugin(node: Node) returns (r: Option<RunResult>, log: string)
      modifies `trace
      ensures trace == old(trace) + if r.Some? then [Run(node, r.value)] else []
    {
      r, log := *, *;
      if r.Some? { trace := trace + [Run(node, r.value)]; }
    }

    method LoadPluginOnce(node: Node) returns (r: LoadResult)
      requires Valid()
      modifies `loaded, `trace
      ensures Valid() && Grows(old(loaded), loaded)
      ensures r.Loaded? <==> node.id in loaded
      ensures r.Loaded? ==> loaded == old(loaded)[node.id := r.plugin]
      ensures !r.Loaded? ==> loaded == old(loaded)
      ensures trace == old(trace) + if node.id in old(loaded) then [] else [Load(node.id, r)]
    {
      hide WellWalked, Kept;
      if node.id in loaded { return Loaded(loaded[node.id]); }
      r := LoadPlugin(node);
      OneMoreLoad(old(trace), loaded, node.id, r);
      if r.Loaded? { WalkedStays(flow, loaded, loaded[node.id := r.plugin], visited, steps, jump); }
      if r.Loaded? { loaded := loaded[node.id := r.plugin]; }
    }

    /** An abort is the last thing that happened. */
    ghost predicate EndsInAbort(message: string)
      reads this
    {
      trace != [] && match trace[|trace| - 1]
                     case Load(_, r) => r == LoadAborted(message)
                     case Run(_, r) => r == RunAborted(message)
    }

    /** Where a run begins: the node asked for, or the first whose plugin says it is a start. */
    ghost predicate StartsAt(node: Node)
      reads this
    {
      if startNodeId.Some? then NodeById(flow.nodes, startNodeId.value) == Some(node)
      else FirstStart(flow.nodes, loaded, trace, node)
    }

    method FindStartNode() returns (r: Found, failures: seq<(string, string, string)>)
      requires Valid() && steps == []
      modifies `loaded, `trace
      ensures Valid() && (r.FindAborted? ==> EndsInAbort(r.message)) && OnlyLoads(old(trace), trace)
      ensures startNodeId.Some? ==> r == (match NodeById(flow.nodes, startNodeId.value) case Some(n) => FoundNode(n) case None => NotFound)
      ensures r.FoundNode? ==> StartsAt(r.node)
      ensures startNodeId.None? && r.NotFound? ==> forall n :: n in flow.nodes ==> PassedOver(loaded, trace, n.id)
      ensures startNodeId.None? && r.NotFound? ==>
        forall n :: n in flow.nodes && n.id in loaded ==> !loaded[n.id].isStart
      ensures startNodeId.None? && r.NotFound? && failures == [] ==> forall n :: n in flow.nodes ==> n.id in loaded
    {
      hide WellWalked, Kept, NodeById, PassedOver;
      failures := [];
      if startNodeId.Some? {
        var node := NodeById(flow.nodes, startNodeId.value);
        r := if node.Some? then FoundNode(node.value) else NotFound;
        return;
      }
      for k := 0 to |flow.nodes|
        invariant Valid() && steps == [] && OnlyLoads(old(trace), trace)
        invariant forall j :: 0 <= j < k ==> PassedOver(loaded, trace, flow.nodes[j].id)
        invariant forall j :: 0 <= j < k && flow.nodes[j].id in loaded ==> !loaded[flow.nodes[j].id].isStart
        invariant failures == [] ==> forall j :: 0 <= j < k ==> flow.nodes[j].id in loaded
      {
        var node := flow.nodes[k];
        ghost var before, known := trace, loaded;
        var load := LoadPluginOnce(node);
        forall j | 0 <= j < k ensures PassedOver(loaded, trace, flow.nodes[j].id) {
          OverStays(known, loaded, before, trace, flow.nodes[j].id);
        }
        match load {
          case Loaded(plugin) =>
            if plugin.isStart { r := FoundNode(node); return; }
            assert PassedOver(loaded, trace, node.id) by { LoadedAsAnother(loaded, trace, node.id); }
          case LoadFailed(message) =>
            FailedIsOver(loaded, trace, node.id, message);
            failures := failures + [(node.id, node.pluginId, message)];
          case LoadAborted(message) => r := FindAborted(message); return;
        }
      }
      r := NotFound;
    }

    method FindErrorHandler() returns (r: Found)
      requires Valid()
      modifies `loaded, `trace
      ensures Valid() && Grows(old(loaded), loaded) && OnlyLoads(old(trace), trace)
      ensures r.FindAborted? ==> EndsInAbort(r.message)
      ensures r.FoundNode? ==> r.node in flow.nodes && Handles(loaded, r.node)
      ensures r.FoundNode? ==> FirstHandler(flow.nodes, loaded).Some? && FirstHandler(flow.nodes, loaded).value.id == r.node.id
      ensures r.NotFound? ==> FirstHandler(flow.nodes, loaded).None?
    {
      hide WellWalked, Kept, FirstHandler;
      for k := 0 to |flow.nodes|
        invariant Valid() && Grows(old(loaded), loaded) && OnlyLoads(old(trace), trace)
        invariant forall j :: 0 <= j < k ==> !Handles(loaded, flow.nodes[j])
      {
        var node := flow.nodes[k];
        var load := LoadPluginOnce(node);
        if load.LoadAborted? { return FindAborted(load.message); }
        if load.Loaded? && load.plugin.isErrorHandler {
          HandlerFound(flow.nodes, k, loaded);
          return FoundNode(node);
        }
      }
      NoHandlers(flow.nodes, loaded);
      r := NotFound;
    }

    method Record(node: Node, step: Step)
      requires Valid() && |steps| < maxSteps && Leads(node)
      requires step.seq_ == |steps| + 1 && step.nodeId == node.id && step.pluginId == node.pluginId
      modifies `steps, `visited
      ensures Valid() && steps == old(steps) + [step] && visited == old(visited) + [node]
    {
      steps := steps + [step];
      visited := visited + [node];
    }

    /** The one jump a run may make: to the error handler, unless it was used or is the failing node itself. */
    method TryHandler(node: Node) returns (r: Found)
      requires Valid() && steps != [] && !handlerUsed
      requires var last := steps[|steps| - 1]; last.nodeId == node.id && Unrouted(flow, last)
      modifies `loaded, `trace, `handlerUsed, `jump
      ensures Valid() && Grows(old(loaded), loaded) && OnlyLoads(old(trace), trace)
      ensures r.FindAborted? ==> EndsInAbort(r.message)
      ensures r.FoundNode? ==> Leads(r.node)
      ensures r.NotFound? ==> handlerUsed == old(handlerUsed) && NoHandlerLeft(flow, loaded, handlerUsed, node.id)
    {
      hide WellWalked, Kept, FirstHandler, OnlyLoads, Unrouted;
      r := FindErrorHandler();
      if r.FoundNode? {
        if r.node.id == node.id { return NotFound; }
        JumpIsAhead(flow, loaded, visited, steps);
        handlerUsed, jump := true, Some(|steps| - 1);
      }
    }

    function Unloaded(node: Node, n: nat, message: string): Step {
      Step(n, node.id, node.pluginId, node.pluginId, None, None, "", Some(Said(message)))
    }

    /** The record of a load that failed. */
    method RecordUnloaded(node: Node, message: string)
      requires Valid() && |steps| < maxSteps && Leads(node)
      requires trace != [] && trace[|trace| - 1] == Load(node.id, LoadFailed(message))
      requires Exact(trace[..|trace| - 1], visited, steps, at)
      modifies `steps, `visited, `at
      ensures Valid() && Recorded()
      ensures steps == old(steps) + [Unloaded(node, |old(steps)| + 1, message)] && visited == old(visited) + [node]
    {
      hide Exact, Backs, WellWalked, Kept;
      var step := Unloaded(node, |steps| + 1, message);
      FailureIsAnswer(node, step, message);
      OneRecorded(trace[..|trace| - 1], trace[|trace| - 1], visited, node, steps, step, at);
      assert trace[..|trace| - 1] + [trace[|trace| - 1]] == trace;
      Record(node, step);
      at := at + [|trace| - 1];
    }

    /** A node whose plugin would not load is a failed step of its own. */
    method FailToLoad(node: Node, message: string) returns (next: Next)
      requires Valid() && |steps| < maxSteps && Leads(node) && node.id !in loaded
      requires trace != [] && trace[|trace| - 1] == Load(node.id, LoadFailed(message))
      requires Exact(trace[..|trace| - 1], visited, steps, at)
      modifies this
      ensures Valid() && Recorded() && Grows(old(loaded), loaded) && Stepped(old(steps), old(visited), node)
      ensures Outcomes(next) && OnlyLoads(old(trace), trace)
    {
      hide Exact, Backs, WellWalked, Kept, FirstHandler, NodeById, FirstEdge, WithFailure;
      RecordUnloaded(node, message);
      variables := WithFailure(variables, FlowError(node.id, node.pluginId, node.pluginId, Said(message)));
      if routeLoadErrors && !handlerUsed {
        ghost var before := trace;
        var handler := TryHandler(node);
        NothingAnswered(before, trace, visited, steps, at);
        match handler {
          case FoundNode(n) => return GoTo(n);
          case FindAborted(m) => return Abort(m);
          case NotFound =>
        }
      }
      next := Stop(PluginError, Some(Said(message)));
    }

    /** One step was recorded. */
    ghost predicate Stepped(before: seq<Step>, beforeVisited: seq<Node>, node: Node)
      reads this
    {
      |steps| == |before| + 1 && steps[..|before|] == before && visited == beforeVisited + [node]
    }

    /** Where a visit may leave the run. */
    ghost predicate Outcomes(next: Next)
      reads this
    {
      match next
      case GoTo(n) => Leads(n)
      case Stop(reason, error) =>
        && reason != NoStart && reason != StepBudget
        && StopFits(flow, loaded, handlerUsed, routeLoadErrors, maxSteps, steps, reason)
        && (reason == HeldForReview ==> EndsInHold())
        && (reason == PluginError ==> error == steps[|steps| - 1].error)
        && (reason == MissingNode ==> error.Some?)
      case Abort(message) => EndsInAbort(message)
      case Reject => true
    }

    /** A review hold is the last thing that happened. */
    ghost predicate EndsInHold()
      reads this
    {
      trace != [] && trace[|trace| - 1].Run? && reviewReason.Some?
      && trace[|trace| - 1].running == Held(reviewReason.value)
    }

    /** What a failure says of itself: the step's log, or the output it was declared on. */
    function FailureMessage(plugin: Plugin, step: Step): Message {
      if Trim(step.log) != [] then Said(Trim(step.log))
      else ReportedFailure(plugin.name, if step.outputNumber.Some? then step.outputNumber.value else 0)
    }

    /** The run's own record of its first failure. */
    method NoteFailure(node: Node, plugin: Plugin, step: Step)
      modifies `variables
      ensures step.meaning != Some(Fails) && step.error.None? ==> variables == old(variables)
      ensures step.meaning == Some(Fails) || step.error.Some? ==>
        variables == WithFailure(old(variables), FlowError(node.id, node.pluginId, plugin.name,
                                 if step.meaning == Some(Fails) then FailureMessage(plugin, step) else step.error.value))
    {
      if step.meaning == Some(Fails) {
        variables := WithFailure(variables, FlowError(node.id, node.pluginId, plugin.name, FailureMessage(plugin, step)));
      }
      if step.error.Some? {
        variables := WithFailure(variables, FlowError(node.id, node.pluginId, plugin.name, step.error.value));
      }
    }

    /** A failure with no edge of its own: the handler, or the end. */
    method RouteFailure(node: Node, step: Step) returns (next: Next)
      requires Valid() && steps != [] && steps[|steps| - 1] == step && step.nodeId == node.id && jump != Some(|steps| - 1)
      requires Unrouted(flow, step) && (step.error.Some? || step.outputNumber.Some?)
      modifies `loaded, `trace, `handlerUsed, `jump
      ensures Valid() && Grows(old(loaded), loaded) && OnlyLoads(old(trace), trace) && Outcomes(next)
    {
      if !handlerUsed {
        var handler := TryHandler(node);
        match handler {
          case FoundNode(n) => return GoTo(n);
          case FindAborted(m) => return Abort(m);
          case NotFound =>
        }
      }
      next := if step.error.Some? then Stop(PluginError, step.error) else Stop(EndOfFlow, None);
    }

    /** Where a recorded step sends the run. */
    method Route(node: Node, step: Step) returns (next: Next)
      requires Valid() && steps != [] && steps[|steps| - 1] == step && step.nodeId == node.id && jump != Some(|steps| - 1)
      requires step.error.Some? || step.outputNumber.Some?
      modifies `loaded, `trace, `handlerUsed, `jump
      ensures Valid() && Grows(old(loaded), loaded) && OnlyLoads(old(trace), trace) && Outcomes(next)
    {
      var edge := EdgeOf(flow, step);
      if step.error.Some? || (edge.None? && step.meaning == Some(Fails)) {
        next := RouteFailure(node, step);
        return;
      }
      if edge.None? { return Stop(EndOfFlow, None); }
      var to := NodeById(flow.nodes, edge.value.toNodeId);
      if to.None? { return Stop(MissingNode, Some(EdgeToNowhere(node.id, edge.value.toNodeId))); }
      next := GoTo(to.value);
    }

    /** What the plugin's answer changes, and the record of it. */
    method Settle(node: Node, plugin: Plugin, r: RunResult, log: string) returns (step: Step)
      requires !r.RunAborted?
      modifies `variables, `currentPath, `reviewReason
      ensures step.seq_ == |steps| + 1 && step.nodeId == node.id && step.pluginId == node.pluginId && step.log == log
      ensures step.outputNumber == if r.Ran? then Some(r.outputNumber) else None
      ensures step.meaning == if r.Ran? then MeaningOf(plugin.outputs, r.outputNumber) else None
      ensures step.error.Some? <==> r.RanBadly? || r.Threw?
      ensures r.Held? ==> reviewReason == Some(r.reason)
      ensures currentPath == if r.Ran? && r.path != [] then r.path else old(currentPath)
      ensures variables == if r.Ran? && r.variables.Some? then r.variables.value else old(variables)
    {
      var output: Option<int>, error: Option<Message> := None, None;
      match r {
        case Ran(number, path, changed) =>
          output := Some(number);
          if path != [] { currentPath := path; }
          if changed.Some? { variables := changed.value; }
        case RanBadly => error := Some(NoOutputNumber(plugin.name));
        case Threw(message) => error := Some(Said(message));
        case Held(reason) => reviewReason := Some(reason);
        case RunAborted(_) =>
      }
      step := Step(|steps| + 1, node.id, node.pluginId, plugin.name, output,
                   if output.Some? then MeaningOf(plugin.outputs, output.value) else None, log, error);
    }

    /** Run the plugin and record its step. An abort, or a host that cannot build the arguments, records nothing. */
    method RunStep(node: Node, plugin: Plugin) returns (r: Option<RunResult>, step: Option<Step>)
      requires Valid() && Recorded() && |steps| < maxSteps && Leads(node)
      modifies `trace, `variables, `currentPath, `reviewReason, `steps, `visited, `at
      ensures Valid() && Recorded()
      ensures step.Some? <==> r.Some? && !r.value.RunAborted?
      ensures step.Some? ==> steps == old(steps) + [step.value] && visited == old(visited) + [node] && step.value.nodeId == node.id
      ensures step.None? ==> steps == old(steps) && visited == old(visited)
      ensures trace == old(trace) + if r.Some? then [Run(node, r.value)] else []
      ensures step.Some? ==> (step.value.outputNumber.Some? <==> r.value.Ran?) && (step.value.error.Some? <==> r.value.RanBadly? || r.value.Threw?)
      ensures step.Some? && r.value.Held? ==> reviewReason == Some(r.value.reason)
    {
      hide Exact, Backs, WellWalked, Kept, FirstHandler, FirstEdge, NodeById, MeaningOf, AlongEdge, ToHandler, Answers;
      var log;
      r, log := RunPlugin(node);
      step := None;
      if r.None? {
        assert trace == old(trace);
        return;
      }
      OneMoreRun(old(trace), loaded, node, r.value);
      if r.value.RunAborted? {
        assert !Answers(Run(node, r.value)) by { AbortIsNoAnswer(node, r.value); }
        NothingAnswered(old(trace), trace, visited, steps, at);
        return;
      }
      var s := Settle(node, plugin, r.value, log);
      RunIsAnswer(node, s, r.value);
      OneRecorded(old(trace), Run(node, r.value), visited, node, steps, s, at);
      Record(node, s);
      at := at + [|trace| - 1];
      step := Some(s);
    }

    /**
      One iteration: load, run, record, route. A step is recorded exactly when the node failed to load or
      its plugin answered; an abort of either call records nothing.
     */
    method Visit(node: Node) returns (next: Next)
      requires Valid() && Recorded() && |steps| < maxSteps && Leads(node)
      modifies this
      ensures Valid() && Recorded() && Grows(old(loaded), loaded) && Outcomes(next) && old(trace) <= trace
      ensures Stepped(old(steps), old(visited), node) <==> Answered(old(trace), trace, node.id in old(loaded), node)
      ensures Stepped(old(steps), old(visited), node)
           || ((next.Abort? || next.Reject?) && steps == old(steps) && visited == old(visited))
    {
      hide Exact, Backs, WellWalked, Kept, FirstHandler, FirstEdge, NodeById, StopFits;
      ghost var before, knew := trace, node.id in loaded;
      var load := LoadPluginOnce(node);
      match load {
        case LoadAborted(message) =>
          NothingAnswered(before, trace, visited, steps, at);
          next := Abort(message);
        case LoadFailed(message) =>
          assert trace[..|trace| - 1] == before;
          next := FailToLoad(node, message);
          assert trace[|before|] == Load(node.id, load);
        case Loaded(plugin) =>
          NothingAnswered(before, trace, visited, steps, at);
          ghost var middle := trace;
          next := VisitLoaded(node, plugin);
          assert !knew ==> trace[|before|] == middle[|before|];
      }
    }

    method VisitLoaded(node: Node, plugin: Plugin) returns (next: Next)
      requires Valid() && Recorded() && |steps| < maxSteps && Leads(node)
      modifies this
      ensures Valid() && Recorded() && Grows(old(loaded), loaded) && Outcomes(next) && old(trace) <= trace
      ensures Stepped(old(steps), old(visited), node) <==> AnsweredAt(trace, |old(trace)|, node)
      ensures Stepped(old(steps), old(visited), node)
           || ((next.Abort? || next.Reject?) && steps == old(steps) && visited == old(visited))
    {
      hide Exact, Backs, WellWalked, Kept, FirstHandler, FirstEdge, NodeById, FailureMessage, WithFailure, MeaningOf, Trim, AlongEdge, ToHandler;
      var r, step := RunStep(node, plugin);
      if r.None? { return Reject; }
      if r.value.RunAborted? { return Abort(r.value.message); }
      if r.value.Held? { return Stop(HeldForReview, None); }
      NoteFailure(node, plugin, step.value);
      ghost var before := trace;
      next := Route(node, step.value);
      NothingAnswered(before, trace, visited, steps, at);
      assert trace[|old(trace)|] == before[|old(trace)|];
    }

    function Finish(reason: StopReason, error: Option<Message>): Report
      reads this
    {
      var failedBranch := variables.errorOutcome == Some(Fails);
      Report(steps, variables, currentPath, reason != EndOfFlow || failedBranch, reason,
             if error.Some? then error
             else if reason == EndOfFlow && failedBranch then
               Some(if variables.flowError.Some? then variables.flowError.value.message else EndedWithoutRecovery)
             else None,
             reviewReason)
    }

    /** A report fails exactly away from a clean end of the flow, and then says why unless it is held. */
    lemma FinishSays(reason: StopReason, error: Option<Message>)
      requires error.Some? || reason == HeldForReview || reason == EndOfFlow
      ensures var r := Finish(reason, error);
        && r.stopReason == reason && r.steps == steps && r == Finish(reason, r.error)
        && (!r.failed <==> reason == EndOfFlow && r.variables.errorOutcome != Some(Fails))
        && (r.failed ==> r.error.Some? || reason == HeldForReview)
    {
    }

    /**
      Every run ends, within its budget, having walked the flow: each step led to the next along its
      first matching edge, or by the one jump to the error handler; it stopped for the reason it gives;
      it is a success only at the end of the flow with no failed error branch; and nothing ran after an
      abort or a review hold. The steps are exactly the plugins' answers and the loads that failed when
      visited, each once and in order; an abort has none.
     */
    method RunFlow() returns (outcome: Outcome)
      requires Valid() && steps == [] && trace == [] && jump == None && at == []
      modifies this
      ensures Valid() && Recorded()
      ensures outcome.Aborted? ==> EndsInAbort(outcome.message)
      ensures outcome.Finished? ==>
        var r := outcome.report;
        && r == Finish(r.stopReason, r.error) && r.steps == steps
        && StopFits(flow, loaded, handlerUsed, routeLoadErrors, maxSteps, steps, r.stopReason)
        && (!r.failed <==> r.stopReason == EndOfFlow && r.variables.errorOutcome != Some(Fails))
        && (r.failed ==> r.error.Some? || r.stopReason == HeldForReview)
        && (r.stopReason == HeldForReview ==> EndsInHold())
      ensures steps != [] ==> StartsAt(visited[0])
    {
      hide Exact, Backs, WellWalked, Kept, FirstHandler, FirstEdge, NodeById, FirstStart, PassedOver, StopFits, Grows, AlongEdge, ToHandler, Finish;
      assert Recorded() by { ExactFromNothing(visited); }
      var start, failures := FindStartNode();
      NothingAnswered([], trace, visited, steps, at);
      match start {
        case FindAborted(message) => return Aborted(message);
        case NotFound =>
          EmptyOrSpentFits(flow, loaded, handlerUsed, routeLoadErrors, maxSteps, steps);
          var why := Some(if failures != [] then StartNodesFailed(failures) else NoStartNode);
          FinishSays(NoStart, why);
          return Finished(Finish(NoStart, why));
        case FoundNode(first) =>
          var current := first;
          while |steps| < maxSteps
            invariant Valid() && Recorded() && Leads(current)
            invariant StartsAt(if steps == [] then current else visited[0])
            decreases maxSteps - |steps|
          {
            ghost var known, before, origin := loaded, trace, if steps == [] then current else visited[0];
            var next := Visit(current);
            if startNodeId.None? { FirstStartStays(flow.nodes, known, loaded, before, trace, origin); }
            match next {
              case GoTo(node) => current := node;
              case Stop(reason, error) =>
                if reason == PluginError { ErrorStopHasError(flow, loaded, handlerUsed, routeLoadErrors, maxSteps, steps); }
                FinishSays(reason, error);
                return Finished(Finish(reason, error));
              case Abort(message) => return Aborted(message);
              case Reject => return Rejected;
            }
          }
          EmptyOrSpentFits(flow, loaded, handlerUsed, routeLoadErrors, maxSteps, steps);
          FinishSays(StepBudget, Some(OverBudget(maxSteps)));
          return Finished(Finish(StepBudget, Some(OverBudget(maxSteps))));
      }
    }
  }
}

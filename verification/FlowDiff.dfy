/** The graph diff of two flow definitions, and its agreement with the hash. */
module FlowDiff {
  import opened Wrappers
  import opened Order
  import opened JsonText
  import opened FlowDefinition

  datatype PluginChange = PluginChange(nodeId: Text, from: Text, to: Text)

  datatype InputChange = InputChange(nodeId: Text, key: Text, from: Option<Text>, to: Option<Text>)

  datatype Diff = Diff(
    nodesAdded: seq<Text>, nodesRemoved: seq<Text>,
    nodePluginChanged: seq<PluginChange>, inputsChanged: seq<InputChange>,
    edgesAdded: seq<FlowEdge>, edgesRemoved: seq<FlowEdge>)

  predicate IsEmptyDiff(d: Diff) {
    d.nodesAdded == [] && d.nodesRemoved == [] && d.nodePluginChanged == [] && d.inputsChanged == []
    && d.edgesAdded == [] && d.edgesRemoved == []
  }

  /** Later nodes of one id replace earlier ones, as they do in a `Map`. */
  function ById(nodes: seq<FlowNode>): map<Text, FlowNode> {
    if nodes == [] then map[]
    else var last := nodes[|nodes| - 1]; ById(nodes[..|nodes| - 1])[last.id := last]
  }

  function ByKey(edges: seq<FlowEdge>): map<Text, FlowEdge> {
    if edges == [] then map[]
    else var last := edges[|edges| - 1]; ByKey(edges[..|edges| - 1])[EdgeKey(last) := last]
  }

  /** The form values are compared in: nothing for a missing key, else the canonical text. */
  function CompareForm(j: Option<Json>): Option<Text> {
    if j.None? then None else Some(Print(j.value))
  }

  /** The form values are shown in: a string without its quotes. */
  function DisplayForm(j: Option<Json>): Option<Text> {
    if j.Some? && j.value.JStr? then Some(j.value.s) else CompareForm(j)
  }

  function InputChangeOf(nodeId: Text, key: Text, a: Option<Json>, b: Option<Json>): InputChange {
    if DisplayForm(a) == DisplayForm(b) then InputChange(nodeId, key, CompareForm(a), CompareForm(b))
    else InputChange(nodeId, key, DisplayForm(a), DisplayForm(b))
  }

  function VersionedName(n: FlowNode, versioned: bool): Text {
    if versioned then n.pluginId + [64] + n.pluginVersion else n.pluginId
  }

  function PluginChangeOf(a: FlowNode, b: FlowNode): PluginChange {
    var moved := a.pluginVersion != b.pluginVersion;
    PluginChange(b.id, VersionedName(a, moved), VersionedName(b, moved))
  }

  /** The keys of two records, each once, in the order a `Set` of both would hold them. */
  function UnionKeys(keys: seq<Text>, inputs: seq<Input>): seq<Text>
    decreases |inputs|
  {
    if inputs == [] then keys
    else UnionKeys(if inputs[0].key in keys then keys else keys + [inputs[0].key], inputs[1..])
  }

  // ---- Reading an input by its key -------------------------------------------------

  const PROTO: Text := Ascii("__proto__")

  /** What `Object.prototype` has beside `__proto__`: functions, which have no canonical text. */
  const INHERITED_FUNCTIONS := [
    "constructor", "hasOwnProperty", "isPrototypeOf", "propertyIsEnumerable", "toLocaleString", "toString", "valueOf",
    "__defineGetter__", "__defineSetter__", "__lookupGetter__", "__lookupSetter__"]

  predicate Spells(key: Text, name: string) {
    |key| == |name| && forall i :: 0 <= i < |key| ==> key[i] == name[i] as int
  }

  predicate NamesFunction(key: Text) {
    exists k :: 0 <= k < |INHERITED_FUNCTIONS| && Spells(key, INHERITED_FUNCTIONS[k])
  }

  predicate Owns(inputs: seq<Input>, key: Text) {
    exists i :: 0 <= i < |inputs| && inputs[i].key == key
  }

  /** `inputs[key]`: the own property, or what is inherited. `Object.prototype` itself reads as `{}`. */
  function Read(inputs: seq<Input>, key: Text): Option<Json> {
    if !Owns(inputs, key) && key == PROTO then Some(JObj([])) else Lookup(inputs, key)
  }

  /** `inputs[key]` is an inherited function. */
  predicate ReadsFunction(inputs: seq<Input>, key: Text) {
    !Owns(inputs, key) && NamesFunction(key)
  }

  /** A key named like an inherited function, on one side only. */
  ghost predicate NodeFaults(a: FlowNode, b: FlowNode) {
    exists key :: NamesFunction(key) && Owns(a.inputs, key) != Owns(b.inputs, key)
  }

  /** Some shared node has such a key. */
  ghost predicate DiffFaults(from: Flow, to: Flow) {
    NodesFault(to.nodes, ById(from.nodes))
  }

  ghost predicate NodesFault(nodes: seq<FlowNode>, other: map<Text, FlowNode>) {
    exists i :: 0 <= i < |nodes| && nodes[i].id in other && NodeFaults(other[nodes[i].id], nodes[i])
  }

  // ---- What each loop collects -----------------------------------------------------

  function Missing(nodes: seq<FlowNode>, other: map<Text, FlowNode>): seq<Text> {
    if nodes == [] then []
    else
      var before, n := Missing(nodes[..|nodes| - 1], other), nodes[|nodes| - 1];
      if n.id in other then before else before + [n.id]
  }

  function PluginChanges(nodes: seq<FlowNode>, other: map<Text, FlowNode>): seq<PluginChange> {
    if nodes == [] then []
    else
      var before, n := PluginChanges(nodes[..|nodes| - 1], other), nodes[|nodes| - 1];
      if n.id in other && (other[n.id].pluginId != n.pluginId || other[n.id].pluginVersion != n.pluginVersion)
      then before + [PluginChangeOf(other[n.id], n)] else before
  }

  function KeyChanges(a: FlowNode, b: FlowNode, keys: seq<Text>): seq<InputChange> {
    if keys == [] then []
    else
      var before, key := KeyChanges(a, b, keys[..|keys| - 1]), keys[|keys| - 1];
      var x, y := Read(a.inputs, key), Read(b.inputs, key);
      if CompareForm(x) != CompareForm(y) then before + [InputChangeOf(b.id, key, x, y)] else before
  }

  /** The keys of both, each once. */
  function BothKeys(a: FlowNode, b: FlowNode): seq<Text> {
    UnionKeys(UnionKeys([], a.inputs), b.inputs)
  }

  function InputChanges(nodes: seq<FlowNode>, other: map<Text, FlowNode>): seq<InputChange> {
    if nodes == [] then []
    else
      var before, n := InputChanges(nodes[..|nodes| - 1], other), nodes[|nodes| - 1];
      if n.id in other
      then before + KeyChanges(other[n.id], n, BothKeys(other[n.id], n))
      else before
  }

  function NewEdges(edges: seq<FlowEdge>, other: map<Text, FlowEdge>): seq<FlowEdge> {
    if edges == [] then []
    else
      var before, e := NewEdges(edges[..|edges| - 1], other), edges[|edges| - 1];
      if EdgeKey(e) in other then before else before + [e]
  }

  function TextKey(t: Text): Text {
    t
  }

  function PluginChangeKey(c: PluginChange): Text {
    c.nodeId
  }

  function InputChangeNode(c: InputChange): Text {
    c.nodeId
  }

  function InputChangeKey(c: InputChange): Text {
    c.key
  }

  /** The whole diff. Input changes are ordered by node and, within a node, by key. */
  function DiffOf(from: Flow, to: Flow): Diff {
    var fromNodes, toNodes := ById(from.nodes), ById(to.nodes);
    Diff(
      Sort(TextKey, Missing(to.nodes, fromNodes)),
      Sort(TextKey, Missing(from.nodes, toNodes)),
      Sort(PluginChangeKey, PluginChanges(to.nodes, fromNodes)),
      Sort(InputChangeNode, Sort(InputChangeKey, InputChanges(to.nodes, fromNodes))),
      Sort(EdgeKey, NewEdges(to.edges, ByKey(from.edges))),
      Sort(EdgeKey, NewEdges(from.edges, ByKey(to.edges))))
  }

  // ---- The loops -------------------------------------------------------------------

  method NodesById(nodes: seq<FlowNode>) returns (m: map<Text, FlowNode>)
    ensures m == ById(nodes)
  {
    m := map[];
    for i := 0 to |nodes|
      invariant m == ById(nodes[..i])
    {
      m := m[nodes[i].id := nodes[i]];
      assert nodes[..i + 1][..i] == nodes[..i];
    }
    assert nodes[..|nodes|] == nodes;
  }

  method EdgesByKey(edges: seq<FlowEdge>) returns (m: map<Text, FlowEdge>)
    ensures m == ByKey(edges)
  {
    m := map[];
    for i := 0 to |edges|
      invariant m == ByKey(edges[..i])
    {
      m := m[EdgeKey(edges[i]) := edges[i]];
      assert edges[..i + 1][..i] == edges[..i];
    }
    assert edges[..|edges|] == edges;
  }

  method CollectMissing(nodes: seq<FlowNode>, other: map<Text, FlowNode>) returns (ids: seq<Text>)
    ensures ids == Missing(nodes, other)
  {
    ids := [];
    for i := 0 to |nodes|
      invariant ids == Missing(nodes[..i], other)
    {
      assert nodes[..i + 1][..i] == nodes[..i];
      if nodes[i].id !in other { ids := ids + [nodes[i].id]; }
    }
    assert nodes[..|nodes|] == nodes;
  }

  method CollectNewEdges(edges: seq<FlowEdge>, other: map<Text, FlowEdge>) returns (found: seq<FlowEdge>)
    ensures found == NewEdges(edges, other)
  {
    found := [];
    for i := 0 to |edges|
      invariant found == NewEdges(edges[..i], other)
    {
      assert edges[..i + 1][..i] == edges[..i];
      if EdgeKey(edges[i]) !in other { found := found + [edges[i]]; }
    }
    assert edges[..|edges|] == edges;
  }

  /** An input whose value has no canonical text ends the diff. */
  datatype Fault = NotSerialisable(nodeId: Text, key: Text)

  method CollectKeyChanges(a: FlowNode, b: FlowNode) returns (r: Result<seq<InputChange>, Fault>)
    ensures r.Failure? <==> NodeFaults(a, b)
    ensures r.Success? ==> r.value == KeyChanges(a, b, BothKeys(a, b))
  {
    var keys, changes := BothKeys(a, b), [];
    for i := 0 to |keys|
      invariant changes == KeyChanges(a, b, keys[..i])
      invariant forall j :: 0 <= j < i ==> !ReadsFunction(a.inputs, keys[j]) && !ReadsFunction(b.inputs, keys[j])
    {
      assert keys[..i + 1][..i] == keys[..i];
      if ReadsFunction(a.inputs, keys[i]) || ReadsFunction(b.inputs, keys[i]) {
        OneSidedFaults(a, b, keys[i]);
        return Failure(NotSerialisable(b.id, keys[i]));
      }
      var x, y := Read(a.inputs, keys[i]), Read(b.inputs, keys[i]);
      if CompareForm(x) != CompareForm(y) { changes := changes + [InputChangeOf(b.id, keys[i], x, y)]; }
    }
    assert keys[..|keys|] == keys;
    FaultIsFound(a, b);
    r := Success(changes);
  }

  method CollectNodeChanges(nodes: seq<FlowNode>, other: map<Text, FlowNode>)
    returns (plugins: seq<PluginChange>, inputs: Result<seq<InputChange>, Fault>)
    ensures inputs.Failure? <==> NodesFault(nodes, other)
    ensures inputs.Success? ==> plugins == PluginChanges(nodes, other) && inputs.value == InputChanges(nodes, other)
  {
    hide NodeFaults, KeyChanges, BothKeys;
    var found;
    plugins, found := [], [];
    for i := 0 to |nodes|
      invariant plugins == PluginChanges(nodes[..i], other) && found == InputChanges(nodes[..i], other)
      invariant forall j :: 0 <= j < i && nodes[j].id in other ==> !NodeFaults(other[nodes[j].id], nodes[j])
    {
      assert nodes[..i + 1][..i] == nodes[..i];
      var n := nodes[i];
      if n.id in other {
        var a := other[n.id];
        if a.pluginId != n.pluginId || a.pluginVersion != n.pluginVersion {
          plugins := plugins + [PluginChangeOf(a, n)];
        }
        var changes := CollectKeyChanges(a, n);
        if changes.Failure? { return plugins, Failure(changes.error); }
        found := found + changes.value;
      }
    }
    assert nodes[..|nodes|] == nodes;
    inputs := Success(found);
  }

  /**
    The diff, or its fault: a shared node has a key named like an inherited function on one side only.
    The diff is empty exactly when the texts that are hashed agree without the `__proto__` inputs that
    one side of a shared node has alone, and each of those is an empty object.
   */
  method DiffFlowDefinitions(from: Flow, to: Flow) returns (r: Result<Diff, Fault>)
    ensures r.Failure? <==> DiffFaults(from, to)
    ensures r.Success? ==> r.value == DiffOf(from, to)
    ensures r.Success? && FlowFits(from) && FlowFits(to) && FlowIsGraph(from) && FlowIsGraph(to) ==>
      (IsEmptyDiff(r.value) <==>
        PreHashText(Levelled(from, to)) == PreHashText(Levelled(to, from)) && AloneAre(from, to, Plain(JObj([]))))
  {
    var fromNodes := NodesById(from.nodes);
    var toNodes := NodesById(to.nodes);
    var fromEdges := EdgesByKey(from.edges);
    var toEdges := EdgesByKey(to.edges);
    var nodesAdded := CollectMissing(to.nodes, fromNodes);
    var nodesRemoved := CollectMissing(from.nodes, toNodes);
    var plugins, changes := CollectNodeChanges(to.nodes, fromNodes);
    if changes.Failure? { return Failure(changes.error); }
    var inputs := changes.value;
    var edgesAdded := CollectNewEdges(to.edges, fromEdges);
    var edgesRemoved := CollectNewEdges(from.edges, toEdges);
    nodesAdded, nodesRemoved := Sort(TextKey, nodesAdded), Sort(TextKey, nodesRemoved);
    plugins := Sort(PluginChangeKey, plugins);
    inputs := Sort(InputChangeNode, Sort(InputChangeKey, inputs));
    edgesAdded, edgesRemoved := Sort(EdgeKey, edgesAdded), Sort(EdgeKey, edgesRemoved);
    r := Success(Diff(nodesAdded, nodesRemoved, plugins, inputs, edgesAdded, edgesRemoved));
    if FlowFits(from) && FlowFits(to) && FlowIsGraph(from) && FlowIsGraph(to) {
      EmptyDiffExactlyWhen(from, to);
    }
  }

  // ---- Each list is exactly what its name says -------------------------------------

  lemma {:induction false} ByIdHas(nodes: seq<FlowNode>, id: Text)
    ensures id in ById(nodes) <==> exists n :: n in nodes && n.id == id
    ensures id in ById(nodes) ==> ById(nodes)[id] in nodes && ById(nodes)[id].id == id
  {
    if nodes != [] {
      var init, last := nodes[..|nodes| - 1], nodes[|nodes| - 1];
      ByIdHas(init, id);
      assert nodes == init + [last];
      if id in ById(init) && id != last.id {
        var n :| n in init && n.id == id;
        assert n in nodes;
      }
      if last.id == id { assert last in nodes; }
    }
  }

  lemma {:induction false} ByIdUnique(nodes: seq<FlowNode>, n: FlowNode)
    requires DistinctKeys(NodeKey, nodes) && n in nodes
    ensures n.id in ById(nodes) && ById(nodes)[n.id] == n
  {
    ByIdHas(nodes, n.id);
    var m := ById(nodes)[n.id];
    var i :| 0 <= i < |nodes| && nodes[i] == n;
    var j :| 0 <= j < |nodes| && nodes[j] == m;
    assert NodeKey(nodes[i]) == NodeKey(nodes[j]);
  }

  lemma {:induction false} ByKeyHas(edges: seq<FlowEdge>, key: Text)
    ensures key in ByKey(edges) <==> exists e :: e in edges && EdgeKey(e) == key
  {
    if edges != [] {
      var init, last := edges[..|edges| - 1], edges[|edges| - 1];
      ByKeyHas(init, key);
      assert edges == init + [last];
      if EdgeKey(last) == key { assert last in edges; }
      if key in ByKey(init) {
        var e :| e in init && EdgeKey(e) == key;
        assert e in edges;
      }
    }
  }

  lemma {:induction false} MissingHas(nodes: seq<FlowNode>, other: map<Text, FlowNode>, id: Text)
    ensures id in Missing(nodes, other) <==> id !in other && exists n :: n in nodes && n.id == id
  {
    if nodes != [] {
      var init, last := nodes[..|nodes| - 1], nodes[|nodes| - 1];
      MissingHas(init, other, id);
      assert nodes == init + [last];
      if last.id == id { assert last in nodes; }
      if n :| n in init && n.id == id { assert n in nodes; }
    }
  }

  lemma {:induction false} PluginChangesEmpty(nodes: seq<FlowNode>, other: map<Text, FlowNode>)
    ensures PluginChanges(nodes, other) == [] <==>
      forall n :: n in nodes && n.id in other ==> other[n.id].pluginId == n.pluginId && other[n.id].pluginVersion == n.pluginVersion
  {
    if nodes != [] {
      var init, last := nodes[..|nodes| - 1], nodes[|nodes| - 1];
      PluginChangesEmpty(init, other);
      assert nodes == init + [last];
      assert last in nodes;
    }
  }

  /** A key is listed exactly when its two compared forms differ, with what is shown for them. */
  lemma {:induction false} KeyChangesHas(a: FlowNode, b: FlowNode, keys: seq<Text>, key: Text)
    ensures (exists c :: c in KeyChanges(a, b, keys) && c.key == key) <==>
      key in keys && CompareForm(Read(a.inputs, key)) != CompareForm(Read(b.inputs, key))
    ensures forall c :: c in KeyChanges(a, b, keys) ==> c.key in keys
  {
    if keys != [] {
      var init, last := keys[..|keys| - 1], keys[|keys| - 1];
      KeyChangesHas(a, b, init, key);
      assert keys == init + [last];
      var before := KeyChanges(a, b, init);
      var x, y := Read(a.inputs, last), Read(b.inputs, last);
      var c0 := InputChangeOf(b.id, last, x, y);
      assert c0.key == last;
      if c :| c in before && c.key == key { assert c in KeyChanges(a, b, keys); }
      if last == key && CompareForm(x) != CompareForm(y) { assert c0 in KeyChanges(a, b, keys); }
    }
  }

  lemma {:induction false} UnionKeysHas(keys: seq<Text>, inputs: seq<Input>, key: Text)
    ensures key in UnionKeys(keys, inputs) <==> key in keys || Owns(inputs, key)
    decreases |inputs|
  {
    if inputs != [] {
      var keys' := if inputs[0].key in keys then keys else keys + [inputs[0].key];
      UnionKeysHas(keys', inputs[1..], key);
      if i :| 0 <= i < |inputs[1..]| && inputs[1..][i].key == key { assert inputs[i + 1].key == key; }
      if i :| 0 <= i < |inputs| && inputs[i].key == key && i > 0 { assert inputs[1..][i - 1].key == key; }
    }
  }

  lemma BothKeysHas(a: FlowNode, b: FlowNode, key: Text)
    ensures key in BothKeys(a, b) <==> Owns(a.inputs, key) || Owns(b.inputs, key)
  {
    UnionKeysHas(UnionKeys([], a.inputs), b.inputs, key);
    UnionKeysHas([], a.inputs, key);
  }

  lemma OneSidedFaults(a: FlowNode, b: FlowNode, key: Text)
    requires key in BothKeys(a, b) && (ReadsFunction(a.inputs, key) || ReadsFunction(b.inputs, key))
    ensures NodeFaults(a, b)
  {
    BothKeysHas(a, b, key);
    hide Owns;
  }

  lemma FaultIsFound(a: FlowNode, b: FlowNode)
    ensures NodeFaults(a, b) ==>
      exists key :: key in BothKeys(a, b) && (ReadsFunction(a.inputs, key) || ReadsFunction(b.inputs, key))
  {
    hide Owns;
    if NodeFaults(a, b) {
      var key :| NamesFunction(key) && Owns(a.inputs, key) != Owns(b.inputs, key);
      BothKeysHas(a, b, key);
      assert ReadsFunction(a.inputs, key) || ReadsFunction(b.inputs, key);
    }
  }

  lemma {:induction false} LookupOutside(inputs: seq<Input>, key: Text)
    requires !Owns(inputs, key)
    ensures Lookup(inputs, key) == None
  {
    if Lookup(inputs, key).Some? { LookupHits(inputs, key); }
  }

  /** What is compared is the value itself: equal texts are equal values. */
  lemma CompareFormsAgree(a: Option<Json>, b: Option<Json>)
    requires a.Some? ==> NumbersFit(a.value)
    requires b.Some? ==> NumbersFit(b.value)
    ensures CompareForm(a) == CompareForm(b) <==> a == b
  {
    if a.Some? && b.Some? && Print(a.value) == Print(b.value) { PrintIsInjective(a.value, b.value); }
  }

  lemma {:induction false} LookupFits(inputs: seq<Input>, key: Text)
    requires InputsFit(inputs)
    ensures Lookup(inputs, key).Some? ==> NumbersFit(Lookup(inputs, key).value)
  {
    if Lookup(inputs, key).Some? { LookupHits(inputs, key); }
  }

  lemma ReadFits(inputs: seq<Input>, key: Text)
    requires InputsFit(inputs)
    ensures Read(inputs, key).Some? ==> NumbersFit(Read(inputs, key).value)
  {
    LookupFits(inputs, key);
  }

  /** No key of a node is listed exactly when each key either side has reads the same in both. */
  lemma {:induction false} NodeInputsUnchanged(a: FlowNode, b: FlowNode)
    requires InputsFit(a.inputs) && InputsFit(b.inputs)
    ensures KeyChanges(a, b, BothKeys(a, b)) == [] <==>
      forall key :: Owns(a.inputs, key) || Owns(b.inputs, key) ==> Read(a.inputs, key) == Read(b.inputs, key)
  {
    var keys := BothKeys(a, b);
    var changes := KeyChanges(a, b, keys);
    forall key ensures key in keys && CompareForm(Read(a.inputs, key)) != CompareForm(Read(b.inputs, key))
      <==> (Owns(a.inputs, key) || Owns(b.inputs, key)) && Read(a.inputs, key) != Read(b.inputs, key)
    {
      BothKeysHas(a, b, key);
      ReadFits(a.inputs, key);
      ReadFits(b.inputs, key);
      hide Owns, Read, BothKeys;
      CompareFormsAgree(Read(a.inputs, key), Read(b.inputs, key));
    }
    hide Owns, Read, BothKeys, CompareForm;
    if changes == [] {
      forall key | Owns(a.inputs, key) || Owns(b.inputs, key) ensures Read(a.inputs, key) == Read(b.inputs, key) {
        KeyChangesHas(a, b, keys, key);
      }
    } else {
      assert changes[0] in changes;
      KeyChangesHas(a, b, keys, changes[0].key);
    }
  }

  // ---- Inputs without what one side has alone -----------------------------------------

  function Without(inputs: seq<Input>, key: Text): seq<Input> {
    if inputs == [] then []
    else if inputs[0].key == key then Without(inputs[1..], key)
    else [inputs[0]] + Without(inputs[1..], key)
  }

  /** `a` without the `__proto__` that it has and `b` has not. */
  function Level(a: seq<Input>, b: seq<Input>): seq<Input> {
    if Owns(b, PROTO) then a else Without(a, PROTO)
  }

  /** If `a` has a `__proto__` and `b` has none, this is its value. */
  predicate AloneIs(a: seq<Input>, b: seq<Input>, value: InputValue) {
    Owns(a, PROTO) && !Owns(b, PROTO) ==> Input(PROTO, value) in a
  }

  lemma {:induction false} LookupWithout(inputs: seq<Input>, out: Text, key: Text)
    ensures Lookup(Without(inputs, out), key) == if key == out then None else Lookup(inputs, key)
  {
    if inputs != [] { LookupWithout(inputs[1..], out, key); }
  }

  lemma {:induction false} WithoutFits(inputs: seq<Input>, out: Text)
    requires InputsFit(inputs)
    ensures InputsFit(Without(inputs, out))
    ensures forall i :: i in Without(inputs, out) ==> i in inputs
  {
    if inputs != [] {
      WithoutFits(inputs[1..], out);
      var rest := Without(inputs[1..], out);
      forall j | 0 <= j < |rest| ensures InputKey(rest[j]) != InputKey(inputs[0]) {
        assert rest[j] in inputs[1..];
        var k :| 0 <= k < |inputs[1..]| && inputs[1..][k] == rest[j];
        assert InputKey(inputs[0]) != InputKey(inputs[k + 1]);
      }
    }
  }

  lemma LevelFits(a: seq<Input>, b: seq<Input>)
    requires InputsFit(a)
    ensures InputsFit(Level(a, b))
  {
    WithoutFits(a, PROTO);
  }

  lemma {:induction false} LevelReads(a: seq<Input>, b: seq<Input>, key: Text)
    ensures Lookup(Level(a, b), key) == if key == PROTO && !Owns(b, PROTO) then None else Lookup(a, key)
  {
    LookupWithout(a, PROTO, key);
  }

  /** An own property is what its one entry says. */
  lemma {:induction false} OwnReads(inputs: seq<Input>, key: Text, value: InputValue)
    requires DistinctKeys(InputKey, inputs) && Owns(inputs, key)
    ensures Input(key, value) in inputs <==>
      (value.Undefined? && Lookup(inputs, key) == None) || (value.Plain? && Lookup(inputs, key) == Some(value.json))
  {
    var i :| 0 <= i < |inputs| && inputs[i].key == key;
    LookupFinds(inputs, i);
    if Input(key, value) in inputs {
      var j :| 0 <= j < |inputs| && inputs[j] == Input(key, value);
      LookupFinds(inputs, j);
      assert i == j || InputKey(inputs[i]) == InputKey(inputs[j]);
    } else {
      assert inputs[i] in inputs;
    }
  }

  ghost predicate ReadAlike(a: seq<Input>, b: seq<Input>) {
    forall key :: Owns(a, key) || Owns(b, key) ==> Read(a, key) == Read(b, key)
  }

  /** At `__proto__`: what the two sides read, what they hold, and what is left of it. */
  lemma {:induction false} ProtoReads(a: seq<Input>, b: seq<Input>)
    requires DistinctKeys(InputKey, a) && DistinctKeys(InputKey, b) && Owns(a, PROTO) && !Owns(b, PROTO)
    ensures Lookup(Level(a, b), PROTO) == None && Lookup(Level(b, a), PROTO) == None && Lookup(b, PROTO) == None
    ensures Read(a, PROTO) == Read(b, PROTO) <==> AloneIs(a, b, Plain(JObj([])))
    ensures Lookup(a, PROTO) == Lookup(b, PROTO) <==> AloneIs(a, b, Undefined)
  {
    LevelReads(a, b, PROTO);
    LevelReads(b, a, PROTO);
    LookupOutside(b, PROTO);
    OwnReads(a, PROTO, Plain(JObj([])));
    OwnReads(a, PROTO, Undefined);
  }

  /** Away from what one side has alone, all three readings are one. */
  lemma {:induction false} ElsewhereReads(a: seq<Input>, b: seq<Input>, key: Text)
    requires key == PROTO ==> Owns(a, PROTO) == Owns(b, PROTO)
    ensures Lookup(Level(a, b), key) == Lookup(Level(b, a), key) <==> Lookup(a, key) == Lookup(b, key)
    ensures Owns(a, key) || Owns(b, key) ==> Read(a, key) == Lookup(a, key) && Read(b, key) == Lookup(b, key)
    ensures !Owns(a, key) && !Owns(b, key) ==> Lookup(a, key) == Lookup(b, key)
  {
    LevelReads(a, b, key);
    LevelReads(b, a, key);
    if !Owns(a, key) { LookupOutside(a, key); }
    if !Owns(b, key) { LookupOutside(b, key); }
  }

  /** The diff sees two inputs alike exactly when they are level alike, and what one has alone is `{}`. */
  lemma ReadAlikeExactly(a: seq<Input>, b: seq<Input>)
    requires DistinctKeys(InputKey, a) && DistinctKeys(InputKey, b)
    ensures ReadAlike(a, b) <==>
      SameReads(Level(a, b), Level(b, a)) && AloneIs(a, b, Plain(JObj([]))) && AloneIs(b, a, Plain(JObj([])))
  {
    var empty := Plain(JObj([]));
    assert empty == Plain(JObj([]));
    if Owns(a, PROTO) && !Owns(b, PROTO) { ProtoReads(a, b); }
    if Owns(b, PROTO) && !Owns(a, PROTO) { ProtoReads(b, a); }
    forall key | key == PROTO ==> Owns(a, PROTO) == Owns(b, PROTO)
      ensures (Owns(a, key) || Owns(b, key) ==> Read(a, key) == Read(b, key))
        <==> Lookup(Level(a, b), key) == Lookup(Level(b, a), key)
    {
      ElsewhereReads(a, b, key);
    }
    hide Owns, Read, Lookup, Level;
  }

  /** The hash sees them alike exactly when they are level alike, and what one has alone is undefined. */
  lemma SameReadsExactly(a: seq<Input>, b: seq<Input>)
    requires DistinctKeys(InputKey, a) && DistinctKeys(InputKey, b)
    ensures SameReads(a, b) <==> SameReads(Level(a, b), Level(b, a)) && AloneIs(a, b, Undefined) && AloneIs(b, a, Undefined)
  {
    if Owns(a, PROTO) && !Owns(b, PROTO) { ProtoReads(a, b); }
    if Owns(b, PROTO) && !Owns(a, PROTO) { ProtoReads(b, a); }
    forall key | key == PROTO ==> Owns(a, PROTO) == Owns(b, PROTO)
      ensures Lookup(a, key) == Lookup(b, key) <==> Lookup(Level(a, b), key) == Lookup(Level(b, a), key)
    {
      ElsewhereReads(a, b, key);
    }
    hide Owns, Read, Lookup, Level;
  }

  lemma {:induction false} InputChangesEmpty(nodes: seq<FlowNode>, other: map<Text, FlowNode>)
    requires forall n :: n in nodes ==> InputsFit(n.inputs)
    requires forall id :: id in other ==> InputsFit(other[id].inputs)
    ensures InputChanges(nodes, other) == [] <==>
      forall n :: n in nodes && n.id in other ==> ReadAlike(other[n.id].inputs, n.inputs)
  {
    if nodes != [] {
      var init, last := nodes[..|nodes| - 1], nodes[|nodes| - 1];
      assert nodes == init + [last];
      InputChangesEmpty(init, other);
      if last.id in other { NodeInputsUnchanged(other[last.id], last); }
      assert last in nodes;
      hide ReadAlike, KeyChanges, BothKeys;
    }
  }

  lemma {:induction false} NewEdgesHas(edges: seq<FlowEdge>, other: map<Text, FlowEdge>, e: FlowEdge)
    ensures e in NewEdges(edges, other) <==> e in edges && EdgeKey(e) !in other
  {
    if edges != [] {
      var init, last := edges[..|edges| - 1], edges[|edges| - 1];
      NewEdgesHas(init, other, e);
      assert edges == init + [last];
    }
  }

  /** An edge is listed as added exactly when the new flow has it and the old one has not. */
  lemma EdgesAddedExactly(from: Flow, to: Flow, e: FlowEdge)
    requires FlowFits(from) && FlowFits(to)
    ensures e in DiffOf(from, to).edgesAdded <==> e in to.edges && e !in from.edges
  {
    var other := ByKey(from.edges);
    InSort(EdgeKey, NewEdges(to.edges, other), e);
    NewEdgesHas(to.edges, other, e);
    ByKeyHas(from.edges, EdgeKey(e));
    if e in to.edges && EdgeKey(e) in other {
      var d :| d in from.edges && EdgeKey(d) == EdgeKey(e);
      EdgeKeysAgree(d, e);
    }
  }

  lemma {:induction false} SortEmpty<T>(key: T -> Text, xs: seq<T>)
    ensures Sort(key, xs) == [] <==> xs == []
  {
    SortKeeps(key, xs);
  }

  // ---- Flows without what one side has alone -------------------------------------------

  function LevelNode(n: FlowNode, other: map<Text, FlowNode>): (r: FlowNode)
    ensures r.id == n.id
  {
    if n.id in other then n.(inputs := Level(n.inputs, other[n.id].inputs)) else n
  }

  function LevelNodes(nodes: seq<FlowNode>, other: map<Text, FlowNode>): (r: seq<FlowNode>)
    ensures |r| == |nodes| && forall i :: 0 <= i < |nodes| ==> r[i] == LevelNode(nodes[i], other)
  {
    seq(|nodes|, i requires 0 <= i < |nodes| => LevelNode(nodes[i], other))
  }

  /** `f`, without the `__proto__` inputs that a node of it has and the node of that id in `g` has not. */
  function Levelled(f: Flow, g: Flow): Flow {
    Flow(LevelNodes(f.nodes, ById(g.nodes)), f.edges)
  }

  /** Every `__proto__` input that one side of a shared node has alone has this value. */
  predicate AloneAre(f: Flow, g: Flow, value: InputValue) {
    && (forall n :: n in f.nodes && n.id in ById(g.nodes) ==> AloneIs(n.inputs, ById(g.nodes)[n.id].inputs, value))
    && (forall n :: n in g.nodes && n.id in ById(f.nodes) ==> AloneIs(n.inputs, ById(f.nodes)[n.id].inputs, value))
  }

  lemma LevelledFits(f: Flow, g: Flow)
    requires FlowFits(f) && FlowIsGraph(f)
    ensures FlowFits(Levelled(f, g)) && FlowIsGraph(Levelled(f, g))
  {
    var other := ById(g.nodes);
    forall i | 0 <= i < |f.nodes| ensures InputsFit(LevelNode(f.nodes[i], other).inputs) {
      if f.nodes[i].id in other { LevelFits(f.nodes[i].inputs, other[f.nodes[i].id].inputs); }
    }
    var nodes := Levelled(f, g).nodes;
    forall i, j | 0 <= i < j < |nodes| ensures NodeKey(nodes[i]) != NodeKey(nodes[j]) {
      assert NodeKey(f.nodes[i]) != NodeKey(f.nodes[j]);
    }
  }

  ghost predicate SameIds(f: Flow, g: Flow) {
    forall id :: id in ById(f.nodes) <==> id in ById(g.nodes)
  }

  ghost predicate SameEdges(f: Flow, g: Flow) {
    forall e :: e in f.edges <==> e in g.edges
  }

  /** Every node of `g` that `f` has too is the same node there. */
  ghost predicate SameShared(f: Flow, g: Flow) {
    forall n :: n in g.nodes && n.id in ById(f.nodes) ==> SameNode(n, ById(f.nodes)[n.id])
  }

  lemma WithinMeansIds(f: Flow, g: Flow)
    requires NodesWithin(f.nodes, g.nodes)
    ensures forall id :: id in ById(f.nodes) ==> id in ById(g.nodes)
  {
    forall id | id in ById(f.nodes) ensures id in ById(g.nodes) {
      ByIdHas(f.nodes, id);
      var m := ById(f.nodes)[id];
      var n :| n in g.nodes && SameNode(m, n);
      ByIdHas(g.nodes, id);
    }
  }

  lemma SameNodeBack(m: FlowNode, n: FlowNode)
    requires SameNode(m, n)
    ensures SameNode(n, m)
  {
  }

  lemma GraphHasPairs(f: Flow, g: Flow)
    requires FlowIsGraph(f) && FlowIsGraph(g) && SameGraph(f, g)
    ensures SameIds(f, g) && SameEdges(f, g) && SameShared(f, g)
  {
    WithinMeansIds(f, g);
    WithinMeansIds(g, f);
    forall n | n in g.nodes && n.id in ById(f.nodes) ensures SameNode(n, ById(f.nodes)[n.id]) {
      var m :| m in f.nodes && SameNode(n, m);
      ByIdUnique(f.nodes, m);
      hide SameReads, ById;
    }
  }

  lemma PairsMakeGraph(f: Flow, g: Flow)
    requires FlowIsGraph(f) && FlowIsGraph(g) && SameIds(f, g) && SameEdges(f, g) && SameShared(f, g)
    ensures SameGraph(f, g)
  {
    hide SameNode, ById, FlowIsGraph;
    forall n | n in g.nodes ensures exists m :: m in f.nodes && SameNode(n, m) {
      ByIdHas(g.nodes, n.id);
      ByIdHas(f.nodes, n.id);
      assert SameNode(n, ById(f.nodes)[n.id]);
    }
    forall m | m in f.nodes ensures exists n :: n in g.nodes && SameNode(m, n) {
      IdIsUnique(f, m);
      ByIdHas(g.nodes, m.id);
      var n := ById(g.nodes)[m.id];
      SameNodeBack(n, m);
    }
  }

  lemma IdIsUnique(f: Flow, m: FlowNode)
    requires FlowIsGraph(f) && m in f.nodes
    ensures m.id in ById(f.nodes) && ById(f.nodes)[m.id] == m
  {
    ByIdUnique(f.nodes, m);
  }

  /** Two graphs are the same exactly when their ids and edges are, and every pair of one id. */
  lemma GraphByPairs(f: Flow, g: Flow)
    requires FlowIsGraph(f) && FlowIsGraph(g)
    ensures SameGraph(f, g) <==> SameIds(f, g) && SameEdges(f, g) && SameShared(f, g)
  {
    hide SameGraph, SameIds, SameEdges, SameShared, FlowIsGraph;
    if SameGraph(f, g) { GraphHasPairs(f, g); }
    if SameIds(f, g) && SameEdges(f, g) && SameShared(f, g) { PairsMakeGraph(f, g); }
  }

  lemma {:induction false} LevelledById(nodes: seq<FlowNode>, other: map<Text, FlowNode>, id: Text)
    ensures id in ById(LevelNodes(nodes, other)) <==> id in ById(nodes)
    ensures id in ById(nodes) ==> ById(LevelNodes(nodes, other))[id] == LevelNode(ById(nodes)[id], other)
  {
    hide Level;
    if nodes != [] {
      var init := nodes[..|nodes| - 1];
      LevelledById(init, other, id);
      assert LevelNodes(nodes, other)[..|nodes| - 1] == LevelNodes(init, other);
    }
  }

  /** Two nodes of one id, one in each flow. */
  ghost predicate Pair(f: Flow, g: Flow, m: FlowNode, n: FlowNode) {
    m in f.nodes && n in g.nodes && m.id == n.id
  }

  /** A pair, levelled, is the same node exactly when the plugins are and the levelled inputs read alike. */
  ghost predicate LevelAlike(m: FlowNode, n: FlowNode) {
    m.pluginId == n.pluginId && m.pluginVersion == n.pluginVersion
    && SameReads(Level(n.inputs, m.inputs), Level(m.inputs, n.inputs))
  }

  lemma LevelledPair(f: Flow, g: Flow, m: FlowNode, n: FlowNode)
    requires FlowIsGraph(f) && FlowIsGraph(g) && Pair(f, g, m, n)
    ensures n.id in ById(f.nodes) && ById(f.nodes)[n.id] == m && m.id in ById(g.nodes) && ById(g.nodes)[m.id] == n
    ensures var f', g' := Levelled(f, g), Levelled(g, f);
      && LevelNode(n, ById(f.nodes)) in g'.nodes && n.id in ById(f'.nodes)
      && (SameNode(LevelNode(n, ById(f.nodes)), ById(f'.nodes)[n.id]) <==> LevelAlike(m, n))
  {
    ByIdUnique(f.nodes, m);
    ByIdUnique(g.nodes, n);
    LevelledById(f.nodes, ById(g.nodes), n.id);
    var i :| 0 <= i < |g.nodes| && g.nodes[i] == n;
    assert Levelled(g, f).nodes[i] == LevelNode(n, ById(f.nodes));
    hide Level, SameReads;
  }

  lemma LevelledIds(f: Flow, g: Flow)
    ensures SameIds(Levelled(f, g), Levelled(g, f)) <==> SameIds(f, g)
  {
    var f', g' := Levelled(f, g), Levelled(g, f);
    forall id ensures (id in ById(f'.nodes) <==> id in ById(f.nodes)) && (id in ById(g'.nodes) <==> id in ById(g.nodes)) {
      LevelledById(f.nodes, ById(g.nodes), id);
      LevelledById(g.nodes, ById(f.nodes), id);
    }
    hide ById, LevelNodes;
  }

  ghost predicate PairsLevelAlike(f: Flow, g: Flow) {
    forall m, n :: Pair(f, g, m, n) ==> LevelAlike(m, n)
  }

  lemma LevelledShared(f: Flow, g: Flow)
    requires FlowIsGraph(f) && FlowIsGraph(g)
    ensures SameShared(Levelled(f, g), Levelled(g, f)) ==> PairsLevelAlike(f, g)
  {
    var f', g' := Levelled(f, g), Levelled(g, f);
    hide SameNode, LevelAlike, ById, LevelNode, LevelNodes, FlowIsGraph, Levelled;
    if SameShared(f', g') {
      forall m, n | Pair(f, g, m, n) ensures LevelAlike(m, n) { LevelledPair(f, g, m, n); }
    }
  }

  lemma SharedLevelled(f: Flow, g: Flow)
    requires FlowIsGraph(f) && FlowIsGraph(g) && PairsLevelAlike(f, g)
    ensures SameShared(Levelled(f, g), Levelled(g, f))
  {
    var f', g' := Levelled(f, g), Levelled(g, f);
    forall n' | n' in g'.nodes && n'.id in ById(f'.nodes) ensures SameNode(n', ById(f'.nodes)[n'.id]) {
      var i :| 0 <= i < |g'.nodes| && g'.nodes[i] == n';
      LevelledById(f.nodes, ById(g.nodes), n'.id);
      ByIdHas(f.nodes, n'.id);
      hide SameNode, LevelAlike, ById, FlowIsGraph;
      var m, n := ById(f.nodes)[n'.id], g.nodes[i];
      assert Pair(f, g, m, n);
      LevelledPair(f, g, m, n);
    }
  }

  /** The levelled flows are one graph exactly when ids and edges are the same and every pair is level alike. */
  lemma LevelledGraphs(f: Flow, g: Flow)
    requires FlowFits(f) && FlowFits(g) && FlowIsGraph(f) && FlowIsGraph(g)
    ensures SameGraph(Levelled(f, g), Levelled(g, f)) <==> SameIds(f, g) && SameEdges(f, g) && PairsLevelAlike(f, g)
  {
    assert SameEdges(Levelled(f, g), Levelled(g, f)) <==> SameEdges(f, g);
    hide FlowFits, FlowIsGraph, SameGraph, SameIds, SameEdges, SameShared, PairsLevelAlike, Levelled;
    LevelledFits(f, g);
    LevelledFits(g, f);
    GraphByPairs(Levelled(f, g), Levelled(g, f));
    LevelledIds(f, g);
    LevelledShared(f, g);
    if PairsLevelAlike(f, g) { SharedLevelled(f, g); }
  }

  /** A graph's nodes of one id, as pairs. */
  lemma SharedByPairs(f: Flow, g: Flow)
    requires FlowIsGraph(f) && FlowIsGraph(g)
    ensures SameShared(f, g) <==> forall m, n :: Pair(f, g, m, n) ==> SameNode(n, m)
  {
    hide SameNode, ById;
    if SameShared(f, g) {
      forall m, n | Pair(f, g, m, n) ensures SameNode(n, m) { ByIdUnique(f.nodes, m); }
    }
    if forall m, n :: Pair(f, g, m, n) ==> SameNode(n, m) {
      forall n | n in g.nodes && n.id in ById(f.nodes) ensures SameNode(n, ById(f.nodes)[n.id]) {
        ByIdHas(f.nodes, n.id);
        assert Pair(f, g, ById(f.nodes)[n.id], n);
      }
    }
  }

  lemma AloneByPairs(f: Flow, g: Flow, value: InputValue)
    requires FlowIsGraph(f) && FlowIsGraph(g)
    ensures AloneAre(f, g, value) <==>
      forall m, n :: Pair(f, g, m, n) ==> AloneIs(m.inputs, n.inputs, value) && AloneIs(n.inputs, m.inputs, value)
  {
    hide AloneIs, ById;
    if AloneAre(f, g, value) {
      forall m, n | Pair(f, g, m, n) ensures AloneIs(m.inputs, n.inputs, value) && AloneIs(n.inputs, m.inputs, value) {
        ByIdUnique(f.nodes, m);
        ByIdUnique(g.nodes, n);
      }
    } else {
      if n :| n in f.nodes && n.id in ById(g.nodes) && !AloneIs(n.inputs, ById(g.nodes)[n.id].inputs, value) {
        ByIdHas(g.nodes, n.id);
        assert Pair(f, g, n, ById(g.nodes)[n.id]);
      } else {
        var n :| n in g.nodes && n.id in ById(f.nodes) && !AloneIs(n.inputs, ById(f.nodes)[n.id].inputs, value);
        ByIdHas(f.nodes, n.id);
        assert Pair(f, g, ById(f.nodes)[n.id], n);
      }
    }
  }

  // ---- When the diff is empty, and when the hash is unchanged ---------------------------

  lemma EdgeListEmpty(f: Flow, g: Flow)
    requires FlowFits(f) && FlowFits(g)
    ensures NewEdges(g.edges, ByKey(f.edges)) == [] <==> forall e :: e in g.edges ==> e in f.edges
  {
    forall e ensures e in NewEdges(g.edges, ByKey(f.edges)) <==> e in g.edges && e !in f.edges {
      EdgesAddedExactly(f, g, e);
      InSort(EdgeKey, NewEdges(g.edges, ByKey(f.edges)), e);
    }
    if NewEdges(g.edges, ByKey(f.edges)) != [] {
      assert NewEdges(g.edges, ByKey(f.edges))[0] in NewEdges(g.edges, ByKey(f.edges));
    }
  }

  lemma MissingEmpty(f: Flow, g: Flow)
    ensures Missing(g.nodes, ById(f.nodes)) == [] <==> forall id :: id in ById(g.nodes) ==> id in ById(f.nodes)
  {
    forall id ensures id in Missing(g.nodes, ById(f.nodes)) <==> id in ById(g.nodes) && id !in ById(f.nodes) {
      MissingHas(g.nodes, ById(f.nodes), id);
      ByIdHas(g.nodes, id);
    }
    if Missing(g.nodes, ById(f.nodes)) != [] {
      assert Missing(g.nodes, ById(f.nodes))[0] in Missing(g.nodes, ById(f.nodes));
    }
  }

  ghost predicate DiffAlike(m: FlowNode, n: FlowNode) {
    m.pluginId == n.pluginId && m.pluginVersion == n.pluginVersion && ReadAlike(m.inputs, n.inputs)
  }

  lemma ChangesEmpty(f: Flow, g: Flow)
    requires FlowFits(f) && FlowFits(g) && FlowIsGraph(f) && FlowIsGraph(g)
    ensures PluginChanges(g.nodes, ById(f.nodes)) == [] && InputChanges(g.nodes, ById(f.nodes)) == []
      <==> forall m, n :: Pair(f, g, m, n) ==> DiffAlike(m, n)
  {
    var other := ById(f.nodes);
    assert forall n :: n in f.nodes || n in g.nodes ==> InputsFit(n.inputs);
    forall id | id in other ensures InputsFit(other[id].inputs) { ByIdHas(f.nodes, id); }
    PluginChangesEmpty(g.nodes, other);
    InputChangesEmpty(g.nodes, other);
    hide PluginChanges, InputChanges, ReadAlike, ById, InputsFit;
    forall m, n | Pair(f, g, m, n) ensures n.id in other && other[n.id] == m { ByIdUnique(f.nodes, m); }
    forall n | n in g.nodes && n.id in other ensures Pair(f, g, other[n.id], n) { ByIdHas(f.nodes, n.id); }
  }

  lemma EmptyByPairs(f: Flow, g: Flow)
    requires FlowFits(f) && FlowFits(g) && FlowIsGraph(f) && FlowIsGraph(g)
    ensures IsEmptyDiff(DiffOf(f, g)) <==>
      SameIds(f, g) && SameEdges(f, g) && forall m, n :: Pair(f, g, m, n) ==> DiffAlike(m, n)
  {
    var fromNodes, toNodes := ById(f.nodes), ById(g.nodes);
    SortEmpty(TextKey, Missing(g.nodes, fromNodes));
    SortEmpty(TextKey, Missing(f.nodes, toNodes));
    SortEmpty(PluginChangeKey, PluginChanges(g.nodes, fromNodes));
    SortEmpty(InputChangeKey, InputChanges(g.nodes, fromNodes));
    SortEmpty(InputChangeNode, Sort(InputChangeKey, InputChanges(g.nodes, fromNodes)));
    SortEmpty(EdgeKey, NewEdges(g.edges, ByKey(f.edges)));
    SortEmpty(EdgeKey, NewEdges(f.edges, ByKey(g.edges)));
    hide Missing, PluginChanges, InputChanges, NewEdges, ById, ByKey, Sort, DiffAlike, Pair;
    MissingEmpty(f, g);
    MissingEmpty(g, f);
    ChangesEmpty(f, g);
    EdgeListEmpty(f, g);
    EdgeListEmpty(g, f);
  }

  /**
    The diff is empty exactly when the two flows are one graph without the `__proto__` inputs that one
    side of a shared node has alone, and each of those is an empty object.
   */
  lemma EmptyDiffIsSameGraph(f: Flow, g: Flow)
    requires FlowFits(f) && FlowFits(g) && FlowIsGraph(f) && FlowIsGraph(g)
    ensures IsEmptyDiff(DiffOf(f, g)) <==>
      SameGraph(Levelled(f, g), Levelled(g, f)) && AloneAre(f, g, Plain(JObj([])))
  {
    EmptyByPairs(f, g);
    LevelledGraphs(f, g);
    AloneByPairs(f, g, Plain(JObj([])));
    forall m, n | Pair(f, g, m, n)
      ensures DiffAlike(m, n) <==>
        LevelAlike(m, n) && AloneIs(m.inputs, n.inputs, Plain(JObj([]))) && AloneIs(n.inputs, m.inputs, Plain(JObj([])))
    {
      ReadAlikeExactly(m.inputs, n.inputs);
    }
    hide DiffAlike, LevelAlike, AloneIs, AloneAre, SameGraph, IsEmptyDiff, DiffOf, Levelled, SameIds, SameEdges, Pair, FlowFits,
         FlowIsGraph;
  }

  lemma EmptyDiffExactlyWhen(f: Flow, g: Flow)
    requires FlowFits(f) && FlowFits(g) && FlowIsGraph(f) && FlowIsGraph(g)
    ensures IsEmptyDiff(DiffOf(f, g)) <==>
      PreHashText(Levelled(f, g)) == PreHashText(Levelled(g, f)) && AloneAre(f, g, Plain(JObj([])))
  {
    LevelledFits(f, g);
    LevelledFits(g, f);
    hide FlowFits, FlowIsGraph, SameGraph, PreHashText, AloneAre, Levelled, DiffOf, IsEmptyDiff;
    EmptyDiffIsSameGraph(f, g);
    TextIsTheGraph(Levelled(f, g), Levelled(g, f));
  }

  lemma SameByPairs(f: Flow, g: Flow)
    requires FlowFits(f) && FlowFits(g) && FlowIsGraph(f) && FlowIsGraph(g)
    ensures (forall m, n :: Pair(f, g, m, n) ==> SameNode(n, m)) <==> PairsLevelAlike(f, g) && AloneAre(f, g, Undefined)
  {
    AloneByPairs(f, g, Undefined);
    forall m, n | Pair(f, g, m, n)
      ensures SameNode(n, m) <==>
        LevelAlike(m, n) && AloneIs(m.inputs, n.inputs, Undefined) && AloneIs(n.inputs, m.inputs, Undefined)
    {
      SameReadsExactly(n.inputs, m.inputs);
    }
    hide SameNode, LevelAlike, AloneIs, AloneAre, Pair, FlowFits, FlowIsGraph;
  }

  /** The hashed text is unchanged exactly when it is without those inputs, and each of them is undefined. */
  lemma EqualTextExactlyWhen(f: Flow, g: Flow)
    requires FlowFits(f) && FlowFits(g) && FlowIsGraph(f) && FlowIsGraph(g)
    ensures PreHashText(f) == PreHashText(g) <==>
      PreHashText(Levelled(f, g)) == PreHashText(Levelled(g, f)) && AloneAre(f, g, Undefined)
  {
    hide FlowFits, FlowIsGraph, SameGraph, SameIds, SameEdges, SameShared, PairsLevelAlike, Levelled, PreHashText, AloneAre,
         SameNode, Pair;
    LevelledFits(f, g);
    LevelledFits(g, f);
    TextIsTheGraph(f, g);
    TextIsTheGraph(Levelled(f, g), Levelled(g, f));
    GraphByPairs(f, g);
    SharedByPairs(f, g);
    LevelledGraphs(f, g);
    SameByPairs(f, g);
  }

  /**
    An empty diff means an unchanged text, and the other way round, exactly when this holds of the two
    flows: if they agree without the `__proto__` inputs one side of a shared node has alone, then those
    are all `{}` just if they are all undefined; so there is none, or they are of several kinds.
   */
  lemma EmptyDiffIsEqualText(f: Flow, g: Flow)
    requires FlowFits(f) && FlowFits(g) && FlowIsGraph(f) && FlowIsGraph(g)
    ensures (IsEmptyDiff(DiffOf(f, g)) <==> PreHashText(f) == PreHashText(g)) <==>
      (PreHashText(Levelled(f, g)) == PreHashText(Levelled(g, f)) ==>
        (AloneAre(f, g, Plain(JObj([]))) <==> AloneAre(f, g, Undefined)))
  {
    hide FlowFits, FlowIsGraph, PreHashText, AloneAre, Levelled, DiffOf, IsEmptyDiff;
    EmptyDiffExactlyWhen(f, g);
    EqualTextExactlyWhen(f, g);
  }

  /** No shared node has a `__proto__` input on one side only. */
  predicate ProtoShared(f: Flow, g: Flow) {
    && (forall n :: n in f.nodes && n.id in ById(g.nodes) && Owns(n.inputs, PROTO) ==> Owns(ById(g.nodes)[n.id].inputs, PROTO))
    && (forall n :: n in g.nodes && n.id in ById(f.nodes) && Owns(n.inputs, PROTO) ==> Owns(ById(f.nodes)[n.id].inputs, PROTO))
  }

  /** So for flows that leave `__proto__` alone an empty diff is an unchanged hash. */
  lemma ProtoSharedIsEnough(f: Flow, g: Flow)
    requires FlowFits(f) && FlowFits(g) && FlowIsGraph(f) && FlowIsGraph(g) && ProtoShared(f, g)
    ensures IsEmptyDiff(DiffOf(f, g)) <==> PreHashText(f) == PreHashText(g)
  {
    hide FlowFits, FlowIsGraph, PreHashText, Levelled, DiffOf, IsEmptyDiff, Owns, ById;
    EmptyDiffIsEqualText(f, g);
    assert AloneAre(f, g, Undefined) && AloneAre(f, g, Plain(JObj([])));
  }

  /** One node, with `__proto__: {}` among its inputs in one flow and no inputs in the other. */
  function WithProto(n: FlowNode, value: InputValue): Flow {
    Flow([n.(inputs := [Input(PROTO, value)])], [])
  }

  lemma WithProtoIsGraph(n: FlowNode)
    ensures var f, g := WithProto(n, Plain(JObj([]))), Flow([n.(inputs := [])], []);
      FlowFits(f) && FlowFits(g) && FlowIsGraph(f) && FlowIsGraph(g)
  {
    hide PROTO;
  }

  lemma {:induction false} OneById(n: FlowNode)
    ensures ById([n]) == map[n.id := n]
  {
    assert [n][..0] == [];
  }

  /** What the one node of each flow has alone. */
  lemma {:induction false} ProtoAlone(key: Text, value: InputValue)
    ensures var a := [Input(key, value)];
      Owns(a, key) && !Owns([], key) && Without(a, key) == [] && forall v :: Input(key, v) in a <==> v == value
    ensures forall other :: other != key ==> !Owns([Input(key, value)], other)
    ensures forall other :: !Owns([], other)
  {
    var a := [Input(key, value)];
    assert a[0].key == key && a[1..] == [];
  }

  lemma {:induction false} ProtoLevels(n: FlowNode)
    ensures var f, g := WithProto(n, Plain(JObj([]))), Flow([n.(inputs := [])], []);
      && Levelled(f, g) == Levelled(g, f) && AloneAre(f, g, Plain(JObj([]))) && !AloneAre(f, g, Undefined) && !DiffFaults(f, g)
  {
    var f, g := WithProto(n, Plain(JObj([]))), Flow([n.(inputs := [])], []);
    var a, b := f.nodes[0], g.nodes[0];
    OneById(a);
    OneById(b);
    ProtoAlone(PROTO, Plain(JObj([])));
    ProtoIsNoFunction();
    hide PROTO, NamesFunction, ById, Owns, Without;
    assert !NodeFaults(a, b);
    assert Level(a.inputs, b.inputs) == [] && Level(b.inputs, a.inputs) == [];
    assert LevelNodes(f.nodes, ById(g.nodes)) == [b] && LevelNodes(g.nodes, ById(f.nodes)) == [b];
    assert a in f.nodes && !AloneIs(a.inputs, b.inputs, Undefined);
  }

  /** The diff of the two is empty, and their hashed texts differ. */
  lemma {:induction false} ProtoIsNotSeen(n: FlowNode)
    ensures var f, g := WithProto(n, Plain(JObj([]))), Flow([n.(inputs := [])], []);
      && !DiffFaults(f, g) && FlowFits(f) && FlowFits(g) && FlowIsGraph(f) && FlowIsGraph(g)
      && IsEmptyDiff(DiffOf(f, g)) && PreHashText(f) != PreHashText(g)
  {
    hide PreHashText, DiffOf, IsEmptyDiff, Levelled, AloneAre, DiffFaults, FlowFits, FlowIsGraph, WithProto;
    var f, g := WithProto(n, Plain(JObj([]))), Flow([n.(inputs := [])], []);
    WithProtoIsGraph(n);
    ProtoLevels(n);
    EmptyDiffExactlyWhen(f, g);
    EqualTextExactlyWhen(f, g);
  }

  lemma ProtoIsNoFunction()
    ensures !NamesFunction(PROTO)
  {
    assert |PROTO| == 9;
    var names := INHERITED_FUNCTIONS;
    assert |names[0]| == 11 && |names[1]| == 14 && |names[2]| == 13 && |names[3]| == 20 && |names[4]| == 14 && |names[5]| == 8;
    assert |names[6]| == 7 && |names[7]| == 16 && |names[8]| == 16 && |names[9]| == 16 && |names[10]| == 16;
  }
}

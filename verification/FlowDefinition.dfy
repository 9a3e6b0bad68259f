/** Flow definitions, and the text their hash is taken of. */
module FlowDefinition {
  import opened Wrappers
  import opened Order
  import opened JsonText

  /** The value of a node input: a JSON value in normal form, or a property that is undefined. */
  datatype InputValue = Undefined | Plain(json: Json)

  datatype Input = Input(key: Text, value: InputValue)

  datatype FlowNode = FlowNode(id: Text, pluginId: Text, pluginVersion: Text, inputs: seq<Input>)

  /** `outputNumber` is the text of a number. */
  datatype FlowEdge = FlowEdge(fromNodeId: Text, outputNumber: Text, toNodeId: Text)

  datatype Flow = Flow(nodes: seq<FlowNode>, edges: seq<FlowEdge>)

  function Ascii(s: string): (t: Text)
    requires forall i :: 0 <= i < |s| ==> s[i] < 128 as char
    ensures |t| == |s| && forall i :: 0 <= i < |s| ==> t[i] == s[i] as int
  {
    seq(|s|, i requires 0 <= i < |s| => s[i] as int)
  }

  function InputKey(i: Input): Text {
    i.key
  }

  function MemberKey(m: Member): Text {
    m.key
  }

  function Defined(inputs: seq<Input>): seq<Member> {
    if inputs == [] then []
    else if inputs[0].value == Undefined then Defined(inputs[1..])
    else [Member(inputs[0].key, inputs[0].value.json)] + Defined(inputs[1..])
  }

  /** The normal form of a record: keys sorted, undefined dropped. */
  function Record(inputs: seq<Input>): Json {
    JObj(Defined(Sort(InputKey, inputs)))
  }

  function NodeInputs(n: FlowNode): seq<Input> {
    [Input(Ascii("id"), Plain(JStr(n.id))),
     Input(Ascii("pluginId"), Plain(JStr(n.pluginId))),
     Input(Ascii("pluginVersion"), Plain(JStr(n.pluginVersion))),
     Input(Ascii("inputs"), Plain(Record(n.inputs)))]
  }

  function NodeJson(n: FlowNode): Json {
    Record(NodeInputs(n))
  }

  function EdgeInputs(e: FlowEdge): seq<Input> {
    [Input(Ascii("fromNodeId"), Plain(JStr(e.fromNodeId))),
     Input(Ascii("outputNumber"), Plain(JNum(e.outputNumber))),
     Input(Ascii("toNodeId"), Plain(JStr(e.toNodeId)))]
  }

  function EdgeJson(e: FlowEdge): Json {
    Record(EdgeInputs(e))
  }

  function NodeKey(n: FlowNode): Text {
    n.id
  }

  function EdgeKey(e: FlowEdge): Text {
    Print(JArr([JStr(e.fromNodeId), JNum(e.outputNumber), JStr(e.toNodeId)]))
  }

  function NodeJsons(nodes: seq<FlowNode>): (js: seq<Json>)
    ensures |js| == |nodes| && forall i :: 0 <= i < |nodes| ==> js[i] == NodeJson(nodes[i])
  {
    if nodes == [] then [] else [NodeJson(nodes[0])] + NodeJsons(nodes[1..])
  }

  function EdgeJsons(edges: seq<FlowEdge>): (js: seq<Json>)
    ensures |js| == |edges| && forall i :: 0 <= i < |edges| ==> js[i] == EdgeJson(edges[i])
  {
    if edges == [] then [] else [EdgeJson(edges[0])] + EdgeJsons(edges[1..])
  }

  function FlowInputs(flow: Flow): seq<Input> {
    [Input(Ascii("nodes"), Plain(JArr(NodeJsons(Sort(NodeKey, flow.nodes))))),
     Input(Ascii("edges"), Plain(JArr(EdgeJsons(Sort(EdgeKey, flow.edges)))))]
  }

  /** The canonical text that `flowDefinitionHash` hashes. */
  function PreHashText(flow: Flow): Text {
    Print(Record(FlowInputs(flow)))
  }

  // ---- What makes a flow well formed --------------------------------------------

  predicate InputsFit(inputs: seq<Input>) {
    && DistinctKeys(InputKey, inputs)
    && forall i :: 0 <= i < |inputs| ==> inputs[i].value.Plain? ==> NumbersFit(inputs[i].value.json)
  }

  /** Inputs are records of JSON values, and output numbers are numbers. */
  predicate FlowFits(flow: Flow) {
    && (forall i :: 0 <= i < |flow.nodes| ==> InputsFit(flow.nodes[i].inputs))
    && (forall i :: 0 <= i < |flow.edges| ==> IsNumber(flow.edges[i].outputNumber))
  }

  /** Node ids are unique and no edge is listed twice. */
  predicate FlowIsGraph(flow: Flow) {
    && DistinctKeys(NodeKey, flow.nodes)
    && forall i, j :: 0 <= i < j < |flow.edges| ==> flow.edges[i] != flow.edges[j]
  }

  // ---- Records are equal exactly when every key reads the same --------------------

  /** `record[key]`, with an undefined property read as a missing one. */
  function Lookup(inputs: seq<Input>, key: Text): Option<Json> {
    if inputs == [] then None
    else if inputs[0].key == key then (if inputs[0].value == Undefined then None else Some(inputs[0].value.json))
    else Lookup(inputs[1..], key)
  }

  lemma {:induction false} LookupFinds(inputs: seq<Input>, i: nat)
    requires DistinctKeys(InputKey, inputs) && i < |inputs|
    ensures Lookup(inputs, inputs[i].key) == if inputs[i].value == Undefined then None else Some(inputs[i].value.json)
  {
    if i > 0 {
      assert InputKey(inputs[0]) != InputKey(inputs[i]);
      LookupFinds(inputs[1..], i - 1);
    }
  }

  lemma {:induction false} LookupHits(inputs: seq<Input>, key: Text)
    requires Lookup(inputs, key).Some?
    ensures Input(key, Plain(Lookup(inputs, key).value)) in inputs
  {
    if inputs[0].key != key { LookupHits(inputs[1..], key); }
  }

  lemma {:induction false} DefinedHas(inputs: seq<Input>, m: Member)
    ensures m in Defined(inputs) <==> Input(m.key, Plain(m.value)) in inputs
  {
    if inputs != [] { DefinedHas(inputs[1..], m); }
  }

  lemma {:induction false} DefinedAscends(inputs: seq<Input>)
    requires StrictlyAscending(InputKey, inputs)
    ensures StrictlyAscending(MemberKey, Defined(inputs))
  {
    if inputs != [] {
      DefinedAscends(inputs[1..]);
      var rest := Defined(inputs[1..]);
      forall i | 0 <= i < |rest| ensures Less(inputs[0].key, rest[i].key) {
        DefinedHas(inputs[1..], rest[i]);
        var k :| 0 <= k < |inputs[1..]| && inputs[1..][k] == Input(rest[i].key, Plain(rest[i].value));
        assert InputKey(inputs[k + 1]) == rest[i].key;
      }
    }
  }

  /** The members of a record are its defined properties, each once. */
  lemma {:induction false} RecordHas(inputs: seq<Input>, m: Member)
    requires DistinctKeys(InputKey, inputs)
    ensures m in Record(inputs).members <==> Lookup(inputs, m.key) == Some(m.value)
    ensures StrictlyAscending(MemberKey, Record(inputs).members)
  {
    var sorted := Sort(InputKey, inputs);
    var i := Input(m.key, Plain(m.value));
    SortKeeps(InputKey, inputs);
    SortIsStrict(InputKey, inputs);
    DefinedHas(sorted, m);
    DefinedAscends(sorted);
    assert i in sorted <==> i in multiset(sorted);
    assert i in inputs <==> i in multiset(inputs);
    if i in inputs {
      var k :| 0 <= k < |inputs| && inputs[k] == i;
      LookupFinds(inputs, k);
    }
    if Lookup(inputs, m.key) == Some(m.value) { LookupHits(inputs, m.key); }
  }

  ghost predicate SameReads(a: seq<Input>, b: seq<Input>) {
    forall key :: Lookup(a, key) == Lookup(b, key)
  }

  lemma EqualRecordsRead(a: seq<Input>, b: seq<Input>)
    requires DistinctKeys(InputKey, a) && DistinctKeys(InputKey, b) && Record(a) == Record(b)
    ensures SameReads(a, b)
  {
    forall key ensures Lookup(a, key) == Lookup(b, key) {
      if Lookup(a, key).Some? {
        RecordHas(a, Member(key, Lookup(a, key).value));
        RecordHas(b, Member(key, Lookup(a, key).value));
      }
      if Lookup(b, key).Some? {
        RecordHas(a, Member(key, Lookup(b, key).value));
        RecordHas(b, Member(key, Lookup(b, key).value));
      }
    }
  }

  lemma EqualReadsRecord(a: seq<Input>, b: seq<Input>)
    requires DistinctKeys(InputKey, a) && DistinctKeys(InputKey, b) && SameReads(a, b)
    ensures Record(a) == Record(b)
  {
    var ma, mb := Record(a).members, Record(b).members;
    forall m ensures m in ma <==> m in mb {
      RecordHas(a, m);
      RecordHas(b, m);
    }
    RecordHas(a, Member([], JNull));
    RecordHas(b, Member([], JNull));
    AscendingIsUnique(MemberKey, ma, mb);
  }

  lemma RecordsAgree(a: seq<Input>, b: seq<Input>)
    requires DistinctKeys(InputKey, a) && DistinctKeys(InputKey, b)
    ensures Record(a) == Record(b) <==> SameReads(a, b)
  {
    if Record(a) == Record(b) { EqualRecordsRead(a, b); }
    if SameReads(a, b) { EqualReadsRecord(a, b); }
  }

  // ---- Equal texts mean equal graphs ---------------------------------------------

  /** The keys written out by `NodeInputs`, `EdgeInputs` and `FlowInputs` are distinct. */
  lemma FixedKeysDiffer(n: FlowNode, e: FlowEdge, flow: Flow)
    ensures DistinctKeys(InputKey, NodeInputs(n)) && DistinctKeys(InputKey, EdgeInputs(e)) && DistinctKeys(InputKey, FlowInputs(flow))
  {
    hide Record, NodeJsons, EdgeJsons, Sort;
    assert |Ascii("id")| == 2 && |Ascii("pluginId")| == 8 && |Ascii("pluginVersion")| == 13 && |Ascii("inputs")| == 6;
    assert |Ascii("fromNodeId")| == 10 && |Ascii("outputNumber")| == 12 && |Ascii("toNodeId")| == 8;
    assert Ascii("nodes")[0] == 110 && Ascii("edges")[0] == 101;
  }

  /** The same node, as far as the hash sees: inputs are compared by what each key reads. */
  ghost predicate SameNode(a: FlowNode, b: FlowNode) {
    && a.id == b.id && a.pluginId == b.pluginId && a.pluginVersion == b.pluginVersion
    && SameReads(a.inputs, b.inputs)
  }

  lemma NodeLookups(n: FlowNode)
    ensures Lookup(NodeInputs(n), Ascii("id")) == Some(JStr(n.id))
    ensures Lookup(NodeInputs(n), Ascii("pluginId")) == Some(JStr(n.pluginId))
    ensures Lookup(NodeInputs(n), Ascii("pluginVersion")) == Some(JStr(n.pluginVersion))
    ensures Lookup(NodeInputs(n), Ascii("inputs")) == Some(Record(n.inputs))
  {
    FixedKeysDiffer(n, FlowEdge([], [], []), Flow([], []));
    LookupFinds(NodeInputs(n), 0);
    LookupFinds(NodeInputs(n), 1);
    LookupFinds(NodeInputs(n), 2);
    LookupFinds(NodeInputs(n), 3);
  }

  /** What the four fixed keys of a node read. */
  lemma NodeFieldsAgree(a: FlowNode, b: FlowNode)
    requires SameReads(NodeInputs(a), NodeInputs(b))
    ensures a.id == b.id && a.pluginId == b.pluginId && a.pluginVersion == b.pluginVersion && Record(a.inputs) == Record(b.inputs)
  {
    NodeLookups(a);
    NodeLookups(b);
    hide NodeInputs, Record, Lookup, Ascii;
    assert Lookup(NodeInputs(a), Ascii("id")) == Lookup(NodeInputs(b), Ascii("id"));
    assert Lookup(NodeInputs(a), Ascii("pluginId")) == Lookup(NodeInputs(b), Ascii("pluginId"));
    assert Lookup(NodeInputs(a), Ascii("pluginVersion")) == Lookup(NodeInputs(b), Ascii("pluginVersion"));
    assert Lookup(NodeInputs(a), Ascii("inputs")) == Lookup(NodeInputs(b), Ascii("inputs"));
  }

  lemma NodeJsonsAgree(a: FlowNode, b: FlowNode)
    requires DistinctKeys(InputKey, a.inputs) && DistinctKeys(InputKey, b.inputs)
    ensures NodeJson(a) == NodeJson(b) <==> SameNode(a, b)
  {
    FixedKeysDiffer(a, FlowEdge([], [], []), Flow([], []));
    FixedKeysDiffer(b, FlowEdge([], [], []), Flow([], []));
    hide Record, Lookup, DistinctKeys, SameReads, Ascii;
    RecordsAgree(NodeInputs(a), NodeInputs(b));
    RecordsAgree(a.inputs, b.inputs);
    if NodeJson(a) == NodeJson(b) { NodeFieldsAgree(a, b); }
    if SameNode(a, b) { assert NodeInputs(a) == NodeInputs(b); }
  }

  lemma EdgeJsonsAgree(a: FlowEdge, b: FlowEdge)
    ensures EdgeJson(a) == EdgeJson(b) ==> a == b
  {
    FixedKeysDiffer(FlowNode([], [], [], []), a, Flow([], []));
    FixedKeysDiffer(FlowNode([], [], [], []), b, Flow([], []));
    RecordsAgree(EdgeInputs(a), EdgeInputs(b));
    LookupFinds(EdgeInputs(a), 0);
    LookupFinds(EdgeInputs(b), 0);
    LookupFinds(EdgeInputs(a), 1);
    LookupFinds(EdgeInputs(b), 1);
    LookupFinds(EdgeInputs(a), 2);
    LookupFinds(EdgeInputs(b), 2);
  }

  lemma EdgeKeysAgree(a: FlowEdge, b: FlowEdge)
    requires IsNumber(a.outputNumber) && IsNumber(b.outputNumber)
    ensures EdgeKey(a) == EdgeKey(b) ==> a == b
  {
    if EdgeKey(a) == EdgeKey(b) {
      var ja := JArr([JStr(a.fromNodeId), JNum(a.outputNumber), JStr(a.toNodeId)]);
      var jb := JArr([JStr(b.fromNodeId), JNum(b.outputNumber), JStr(b.toNodeId)]);
      PrintIsInjective(ja, jb);
      assert ja.items[0] == jb.items[0] && ja.items[1] == jb.items[1] && ja.items[2] == jb.items[2];
    }
  }

  lemma {:induction false} InSort<T>(key: T -> Text, xs: seq<T>, x: T)
    ensures x in Sort(key, xs) <==> x in xs
  {
    SortKeeps(key, xs);
    assert x in Sort(key, xs) <==> x in multiset(Sort(key, xs));
    assert x in xs <==> x in multiset(xs);
  }

  /** A node list as the hash sees it: ids with the nodes' texts, in order of id. */
  function Keyed(nodes: seq<FlowNode>): (ms: seq<Member>)
    ensures |ms| == |nodes| && forall i :: 0 <= i < |nodes| ==> ms[i] == Member(nodes[i].id, NodeJson(nodes[i]))
  {
    if nodes == [] then [] else [Member(nodes[0].id, NodeJson(nodes[0]))] + Keyed(nodes[1..])
  }

  ghost predicate NodesWithin(a: seq<FlowNode>, b: seq<FlowNode>) {
    forall m :: m in a ==> exists n :: n in b && SameNode(m, n)
  }

  lemma {:induction false} NodeTextsToNodes(a: seq<FlowNode>, b: seq<FlowNode>)
    requires forall n :: n in a || n in b ==> InputsFit(n.inputs)
    requires NodeJsons(Sort(NodeKey, a)) == NodeJsons(Sort(NodeKey, b))
    ensures NodesWithin(a, b)
  {
    var sa, sb := Sort(NodeKey, a), Sort(NodeKey, b);
    forall m | m in a ensures exists n :: n in b && SameNode(m, n) {
      InSort(NodeKey, a, m);
      var p :| 0 <= p < |sa| && sa[p] == m;
      assert NodeJsons(sa)[p] == NodeJsons(sb)[p];
      InSort(NodeKey, b, sb[p]);
      NodeJsonsAgree(m, sb[p]);
    }
  }

  lemma {:induction false} KeyedWithin(a: seq<FlowNode>, b: seq<FlowNode>, x: Member)
    requires forall n :: n in a || n in b ==> InputsFit(n.inputs)
    requires NodesWithin(a, b) && x in Keyed(Sort(NodeKey, a))
    ensures x in Keyed(Sort(NodeKey, b))
  {
    var sa, sb := Sort(NodeKey, a), Sort(NodeKey, b);
    hide Sort, NodeJson, SameReads;
    var p :| 0 <= p < |sa| && Keyed(sa)[p] == x;
    InSort(NodeKey, a, sa[p]);
    var n :| n in b && SameNode(sa[p], n);
    NodeJsonsAgree(sa[p], n);
    InSort(NodeKey, b, n);
    var q :| 0 <= q < |sb| && sb[q] == n;
    assert Keyed(sb)[q] == x;
  }

  lemma {:induction false} KeyedAscends(nodes: seq<FlowNode>)
    requires DistinctKeys(NodeKey, nodes)
    ensures StrictlyAscending(MemberKey, Keyed(Sort(NodeKey, nodes)))
  {
    SortIsStrict(NodeKey, nodes);
    var sorted := Sort(NodeKey, nodes);
    forall i, j | 0 <= i < j < |sorted| ensures Less(MemberKey(Keyed(sorted)[i]), MemberKey(Keyed(sorted)[j])) {
      assert Less(NodeKey(sorted[i]), NodeKey(sorted[j]));
    }
  }

  lemma {:induction false} KeyedDetermines(a: seq<FlowNode>, b: seq<FlowNode>)
    requires Keyed(a) == Keyed(b)
    ensures NodeJsons(a) == NodeJsons(b)
  {
    assert |a| == |Keyed(a)| == |b|;
    forall p | 0 <= p < |a| ensures NodeJsons(a)[p] == NodeJsons(b)[p] {
      assert Keyed(a)[p] == Keyed(b)[p];
    }
  }

  lemma {:induction false} NodesToNodeTexts(a: seq<FlowNode>, b: seq<FlowNode>)
    requires forall n :: n in a || n in b ==> InputsFit(n.inputs)
    requires DistinctKeys(NodeKey, a) && DistinctKeys(NodeKey, b)
    requires NodesWithin(a, b) && NodesWithin(b, a)
    ensures NodeJsons(Sort(NodeKey, a)) == NodeJsons(Sort(NodeKey, b))
  {
    KeyedAscends(a);
    KeyedAscends(b);
    var ka, kb := Keyed(Sort(NodeKey, a)), Keyed(Sort(NodeKey, b));
    forall x ensures x in ka <==> x in kb {
      if x in ka { KeyedWithin(a, b, x); }
      if x in kb { KeyedWithin(b, a, x); }
    }
    AscendingIsUnique(MemberKey, ka, kb);
    KeyedDetermines(Sort(NodeKey, a), Sort(NodeKey, b));
  }

  lemma EdgeKeysDistinct(edges: seq<FlowEdge>)
    requires forall i :: 0 <= i < |edges| ==> IsNumber(edges[i].outputNumber)
    requires forall i, j :: 0 <= i < j < |edges| ==> edges[i] != edges[j]
    ensures DistinctKeys(EdgeKey, edges)
  {
    forall i, j | 0 <= i < j < |edges| ensures EdgeKey(edges[i]) != EdgeKey(edges[j]) {
      EdgeKeysAgree(edges[i], edges[j]);
    }
  }

  lemma {:induction false} EdgeTextsToEdges(a: seq<FlowEdge>, b: seq<FlowEdge>, e: FlowEdge)
    requires EdgeJsons(Sort(EdgeKey, a)) == EdgeJsons(Sort(EdgeKey, b)) && e in a
    ensures e in b
  {
    var sa, sb := Sort(EdgeKey, a), Sort(EdgeKey, b);
    InSort(EdgeKey, a, e);
    var p :| 0 <= p < |sa| && sa[p] == e;
    assert EdgeJsons(sa)[p] == EdgeJsons(sb)[p];
    EdgeJsonsAgree(e, sb[p]);
    InSort(EdgeKey, b, sb[p]);
  }

  lemma {:induction false} EdgesToEdgeTexts(a: seq<FlowEdge>, b: seq<FlowEdge>)
    requires DistinctKeys(EdgeKey, a) && DistinctKeys(EdgeKey, b)
    requires forall e :: e in a <==> e in b
    ensures EdgeJsons(Sort(EdgeKey, a)) == EdgeJsons(Sort(EdgeKey, b))
  {
    SortIsStrict(EdgeKey, a);
    SortIsStrict(EdgeKey, b);
    forall e ensures e in Sort(EdgeKey, a) <==> e in Sort(EdgeKey, b) {
      InSort(EdgeKey, a, e);
      InSort(EdgeKey, b, e);
    }
    AscendingIsUnique(EdgeKey, Sort(EdgeKey, a), Sort(EdgeKey, b));
  }

  lemma {:induction false} DefinedFits(inputs: seq<Input>, m: Member)
    requires forall i :: i in inputs && i.value.Plain? ==> NumbersFit(i.value.json)
    requires m in Defined(inputs)
    ensures NumbersFit(m.value)
  {
    DefinedHas(inputs, m);
  }

  lemma RecordFits(inputs: seq<Input>)
    requires forall i :: i in inputs && i.value.Plain? ==> NumbersFit(i.value.json)
    ensures NumbersFit(Record(inputs))
  {
    forall i ensures i in Sort(InputKey, inputs) <==> i in inputs { InSort(InputKey, inputs, i); }
    forall k | 0 <= k < |Record(inputs).members| ensures NumbersFit(Record(inputs).members[k].value) {
      DefinedFits(Sort(InputKey, inputs), Record(inputs).members[k]);
    }
  }

  lemma NodeJsonFits(n: FlowNode)
    requires InputsFit(n.inputs)
    ensures NumbersFit(NodeJson(n))
  {
    RecordFits(n.inputs);
    RecordFits(NodeInputs(n));
  }

  lemma NodeListFits(flow: Flow)
    requires FlowFits(flow)
    ensures NumbersFit(JArr(NodeJsons(Sort(NodeKey, flow.nodes))))
  {
    var nodes := Sort(NodeKey, flow.nodes);
    forall i | 0 <= i < |nodes| ensures NumbersFit(NodeJsons(nodes)[i]) {
      InSort(NodeKey, flow.nodes, nodes[i]);
      NodeJsonFits(nodes[i]);
    }
  }

  lemma EdgeJsonFits(e: FlowEdge)
    requires IsNumber(e.outputNumber)
    ensures NumbersFit(EdgeJson(e))
  {
    var inputs := EdgeInputs(e);
    assert forall i :: i in inputs && i.value.Plain? ==> NumbersFit(i.value.json);
    hide Record, NumbersFit, EdgeInputs;
    RecordFits(inputs);
  }

  lemma EdgeListFits(flow: Flow)
    requires FlowFits(flow)
    ensures NumbersFit(JArr(EdgeJsons(Sort(EdgeKey, flow.edges))))
  {
    var edges := Sort(EdgeKey, flow.edges);
    hide EdgeJson, Sort, IsNumber;
    forall i | 0 <= i < |edges| ensures NumbersFit(EdgeJsons(edges)[i]) {
      InSort(EdgeKey, flow.edges, edges[i]);
      EdgeJsonFits(edges[i]);
    }
  }

  lemma FlowJsonFits(flow: Flow)
    requires FlowFits(flow)
    ensures NumbersFit(Record(FlowInputs(flow)))
  {
    NodeListFits(flow);
    EdgeListFits(flow);
    var inputs := FlowInputs(flow);
    hide NumbersFit, NodeJsons, EdgeJsons, Sort, Record, FlowFits, Ascii;
    InputsAre(flow);
    assert NumbersFit(inputs[0].value.json) && NumbersFit(inputs[1].value.json);
    hide FlowInputs;
    TwoInputsFit(inputs);
  }

  lemma InputsAre(flow: Flow)
    ensures var inputs := FlowInputs(flow);
      && |inputs| == 2 && inputs[0].value == Plain(JArr(NodeJsons(Sort(NodeKey, flow.nodes))))
      && inputs[1].value == Plain(JArr(EdgeJsons(Sort(EdgeKey, flow.edges))))
  {
    hide Sort, NodeJsons, EdgeJsons, Ascii;
  }

  lemma TwoInputsFit(inputs: seq<Input>)
    requires |inputs| == 2 && inputs[0].value.Plain? && inputs[1].value.Plain?
    requires NumbersFit(inputs[0].value.json) && NumbersFit(inputs[1].value.json)
    ensures NumbersFit(Record(inputs))
  {
    hide NumbersFit, Record;
    RecordFits(inputs);
  }

  lemma FlowLookups(flow: Flow)
    ensures DistinctKeys(InputKey, FlowInputs(flow))
    ensures Lookup(FlowInputs(flow), Ascii("nodes")) == Some(JArr(NodeJsons(Sort(NodeKey, flow.nodes))))
    ensures Lookup(FlowInputs(flow), Ascii("edges")) == Some(JArr(EdgeJsons(Sort(EdgeKey, flow.edges))))
  {
    FixedKeysDiffer(FlowNode([], [], [], []), FlowEdge([], [], []), flow);
    LookupFinds(FlowInputs(flow), 0);
    LookupFinds(FlowInputs(flow), 1);
  }

  lemma NodesLookup(flow: Flow)
    ensures Lookup(FlowInputs(flow), Ascii("nodes")) == Some(JArr(NodeJsons(Sort(NodeKey, flow.nodes))))
  {
    FlowLookups(flow);
  }

  lemma EdgesLookup(flow: Flow)
    ensures Lookup(FlowInputs(flow), Ascii("edges")) == Some(JArr(EdgeJsons(Sort(EdgeKey, flow.edges))))
  {
    FlowLookups(flow);
  }

  lemma TextsToRecords(f: Flow, g: Flow)
    requires FlowFits(f) && FlowFits(g) && PreHashText(f) == PreHashText(g)
    ensures Record(FlowInputs(f)) == Record(FlowInputs(g))
  {
    FlowJsonFits(f);
    FlowJsonFits(g);
    PrintIsInjective(Record(FlowInputs(f)), Record(FlowInputs(g)));
  }

  lemma {:induction false} RecordsToReads(f: Flow, g: Flow, key: Text)
    requires Record(FlowInputs(f)) == Record(FlowInputs(g))
    ensures Lookup(FlowInputs(f), key) == Lookup(FlowInputs(g), key)
  {
    FlowLookups(f);
    FlowLookups(g);
    EqualRecordsRead(FlowInputs(f), FlowInputs(g));
  }

  lemma RecordsToNodeLists(f: Flow, g: Flow)
    requires Record(FlowInputs(f)) == Record(FlowInputs(g))
    ensures NodeJsons(Sort(NodeKey, f.nodes)) == NodeJsons(Sort(NodeKey, g.nodes))
  {
    NodesLookup(f);
    NodesLookup(g);
    RecordsToReads(f, g, Ascii("nodes"));
    hide *;
  }

  lemma RecordsToEdgeLists(f: Flow, g: Flow)
    requires Record(FlowInputs(f)) == Record(FlowInputs(g))
    ensures EdgeJsons(Sort(EdgeKey, f.edges)) == EdgeJsons(Sort(EdgeKey, g.edges))
  {
    EdgesLookup(f);
    EdgesLookup(g);
    RecordsToReads(f, g, Ascii("edges"));
    hide *;
  }

  /** One text: the two sorted lists it is made of are equal. */
  lemma TextsToLists(f: Flow, g: Flow)
    requires FlowFits(f) && FlowFits(g) && PreHashText(f) == PreHashText(g)
    ensures NodeJsons(Sort(NodeKey, f.nodes)) == NodeJsons(Sort(NodeKey, g.nodes))
    ensures EdgeJsons(Sort(EdgeKey, f.edges)) == EdgeJsons(Sort(EdgeKey, g.edges))
  {
    TextsToRecords(f, g);
    RecordsToNodeLists(f, g);
    RecordsToEdgeLists(f, g);
  }

  ghost predicate SameGraph(f: Flow, g: Flow) {
    && NodesWithin(f.nodes, g.nodes) && NodesWithin(g.nodes, f.nodes)
    && forall e :: e in f.edges <==> e in g.edges
  }

  lemma FitNodes(f: Flow, g: Flow)
    requires FlowFits(f) && FlowFits(g)
    ensures forall n :: n in f.nodes || n in g.nodes ==> InputsFit(n.inputs)
  {
  }

  lemma OneTextOneGraph(f: Flow, g: Flow)
    requires FlowFits(f) && FlowFits(g) && PreHashText(f) == PreHashText(g)
    ensures SameGraph(f, g)
  {
    TextsToLists(f, g);
    FitNodes(f, g);
    NodeTextsToNodes(f.nodes, g.nodes);
    NodeTextsToNodes(g.nodes, f.nodes);
    forall e ensures e in f.edges <==> e in g.edges {
      if e in f.edges { EdgeTextsToEdges(f.edges, g.edges, e); }
      if e in g.edges { EdgeTextsToEdges(g.edges, f.edges, e); }
    }
  }

  lemma OneGraphOneText(f: Flow, g: Flow)
    requires FlowFits(f) && FlowFits(g) && FlowIsGraph(f) && FlowIsGraph(g) && SameGraph(f, g)
    ensures PreHashText(f) == PreHashText(g)
  {
    FitNodes(f, g);
    NodesToNodeTexts(f.nodes, g.nodes);
    EdgeKeysDistinct(f.edges);
    EdgeKeysDistinct(g.edges);
    EdgesToEdgeTexts(f.edges, g.edges);
  }

  /** The text changes exactly when the graph does. */
  lemma TextIsTheGraph(f: Flow, g: Flow)
    requires FlowFits(f) && FlowFits(g) && FlowIsGraph(f) && FlowIsGraph(g)
    ensures PreHashText(f) == PreHashText(g) <==> SameGraph(f, g)
  {
    if PreHashText(f) == PreHashText(g) { OneTextOneGraph(f, g); }
    if SameGraph(f, g) { OneGraphOneText(f, g); }
  }

  /** Reordering nodes and edges never changes the text. */
  lemma TextForgetsOrder(f: Flow, g: Flow)
    requires FlowFits(f) && FlowIsGraph(f)
    requires multiset(f.nodes) == multiset(g.nodes) && multiset(f.edges) == multiset(g.edges)
    ensures PreHashText(f) == PreHashText(g)
  {
    EdgeKeysDistinct(f.edges);
    SortForgetsOrder(NodeKey, f.nodes, g.nodes);
    SortForgetsOrder(EdgeKey, f.edges, g.edges);
  }
}

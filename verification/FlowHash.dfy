/**
  The text a flow's hash is taken of is what the serialiser makes of the object the hash builds: the
  specification of `FlowDefinition` and the traversal of `CanonicalJson` are about one text.
 */
module FlowHash {
  import opened Wrappers
  import opened Order
  import opened JsonText
  import opened CanonicalJson
  import opened FlowDefinition

  /** On the way from the root, the heap's value stands for this input value. */
  predicate Holds(h: Heap, v: Val, value: InputValue, ancestors: set<Ref>) {
    match value
    case Undefined => v == VUndefined
    case Plain(json) => v != VUndefined && Normal(h, v, ancestors) == Success(json)
  }

  /** An object's own properties, in insertion order, stand for a record's inputs. */
  predicate HoldsAll(h: Heap, props: seq<Prop>, inputs: seq<Input>, ancestors: set<Ref>) {
    |props| == |inputs| && forall i :: 0 <= i < |props| ==>
      props[i].key == inputs[i].key && Holds(h, props[i].value, inputs[i].value, ancestors)
  }

  lemma {:induction false} InsertHolds(h: Heap, p: Prop, i: Input, props: seq<Prop>, inputs: seq<Input>, ancestors: set<Ref>)
    requires HoldsAll(h, props, inputs, ancestors) && p.key == i.key && Holds(h, p.value, i.value, ancestors)
    ensures HoldsAll(h, InsertBefore(KeyOf, p, props), InsertBefore(InputKey, i, inputs), ancestors)
  {
    hide Holds, Less;
    if props != [] && Less(props[0].key, p.key) {
      InsertHolds(h, p, i, props[1..], inputs[1..], ancestors);
    }
  }

  /** Sorted by key, properties and inputs stay side by side. */
  lemma {:induction false} SortHolds(h: Heap, props: seq<Prop>, inputs: seq<Input>, ancestors: set<Ref>)
    requires HoldsAll(h, props, inputs, ancestors)
    ensures HoldsAll(h, Sort(KeyOf, props), Sort(InputKey, inputs), ancestors)
  {
    hide Holds, Less;
    if props != [] {
      SortHolds(h, props[1..], inputs[1..], ancestors);
      InsertHolds(h, props[0], inputs[0], Sort(KeyOf, props[1..]), Sort(InputKey, inputs[1..]), ancestors);
    }
  }

  lemma {:induction false} PropsNormal(h: Heap, props: seq<Prop>, inputs: seq<Input>, ancestors: set<Ref>)
    requires HoldsAll(h, props, inputs, ancestors)
    ensures NormalProps(h, props, ancestors) == Success(Defined(inputs))
    decreases |props|
  {
    hide Normal;
    if props != [] {
      PropsNormal(h, props[1..], inputs[1..], ancestors);
      assert Holds(h, props[0].value, inputs[0].value, ancestors);
    }
  }

  /** The object at this place has properties that stand for these inputs. */
  predicate IsRecord(h: Heap, r: Ref, inputs: seq<Input>, ancestors: set<Ref>) {
    r in h && r !in ancestors && h[r].OPlain? && HoldsAll(h, h[r].props, inputs, ancestors + {r})
  }

  lemma {:induction false} RecordNormal(h: Heap, r: Ref, inputs: seq<Input>, ancestors: set<Ref>)
    requires IsRecord(h, r, inputs, ancestors)
    ensures Normal(h, VRef(r), ancestors) == Success(Record(inputs))
  {
    SortHolds(h, h[r].props, inputs, ancestors + {r});
    PropsNormal(h, Sort(KeyOf, h[r].props), Sort(InputKey, inputs), ancestors + {r});
  }

  lemma {:induction false} ItemsNormal(h: Heap, items: seq<Val>, js: seq<Json>, ancestors: set<Ref>)
    requires |items| == |js|
    requires forall i :: 0 <= i < |items| ==> items[i] != VUndefined && Normal(h, items[i], ancestors) == Success(js[i])
    ensures NormalItems(h, items, ancestors) == Success(js)
    decreases |items|
  {
    hide Normal;
    if items != [] {
      ItemsNormal(h, items[1..], js[1..], ancestors);
      assert js == [js[0]] + js[1..];
    }
  }

  // ---- The object the hash builds -----------------------------------------------------

  function NodeProps(n: FlowNode, inputs: Ref): seq<Prop> {
    [Prop(Ascii("id"), VString(n.id)), Prop(Ascii("pluginId"), VString(n.pluginId)),
     Prop(Ascii("pluginVersion"), VString(n.pluginVersion)), Prop(Ascii("inputs"), VRef(inputs))]
  }

  /** The object made of one node. Its inputs are the node's own object, whatever that shares. */
  predicate IsNode(h: Heap, r: Ref, n: FlowNode, ancestors: set<Ref>) {
    && r in h && r !in ancestors && h[r].OPlain? && |h[r].props| == 4 && h[r].props[3].value.VRef?
    && h[r].props == NodeProps(n, h[r].props[3].value.ref)
    && IsRecord(h, h[r].props[3].value.ref, n.inputs, ancestors + {r})
  }

  predicate IsEdge(h: Heap, r: Ref, e: FlowEdge, ancestors: set<Ref>) {
    && r in h && r !in ancestors
    && h[r] == OPlain([Prop(Ascii("fromNodeId"), VString(e.fromNodeId)), Prop(Ascii("outputNumber"), VNumber(e.outputNumber)),
                       Prop(Ascii("toNodeId"), VString(e.toNodeId))])
  }

  predicate IsNodeList(h: Heap, r: Ref, nodes: seq<FlowNode>, ancestors: set<Ref>) {
    && r in h && r !in ancestors && h[r].OArray? && |h[r].items| == |nodes|
    && forall i :: 0 <= i < |nodes| ==> h[r].items[i].VRef? && IsNode(h, h[r].items[i].ref, nodes[i], ancestors + {r})
  }

  predicate IsEdgeList(h: Heap, r: Ref, edges: seq<FlowEdge>, ancestors: set<Ref>) {
    && r in h && r !in ancestors && h[r].OArray? && |h[r].items| == |edges|
    && forall i :: 0 <= i < |edges| ==> h[r].items[i].VRef? && IsEdge(h, h[r].items[i].ref, edges[i], ancestors + {r})
  }

  /** What `flowDefinitionHash` passes to `canonicalJson`: nodes and edges sorted, each with the fields it lists. */
  predicate IsFlow(h: Heap, root: Ref, nodes: Ref, edges: Ref, flow: Flow) {
    && root in h && h[root] == OPlain([Prop(Ascii("nodes"), VRef(nodes)), Prop(Ascii("edges"), VRef(edges))])
    && IsNodeList(h, nodes, Sort(NodeKey, flow.nodes), {root}) && IsEdgeList(h, edges, Sort(EdgeKey, flow.edges), {root})
  }

  lemma {:induction false} StringHolds(h: Heap, s: Text, ancestors: set<Ref>)
    ensures Holds(h, VString(s), Plain(JStr(s)), ancestors)
  {
  }

  lemma {:induction false} NumberHolds(h: Heap, number: Text, ancestors: set<Ref>)
    ensures Holds(h, VNumber(number), Plain(JNum(number)), ancestors)
  {
  }

  lemma {:induction false} RefHolds(h: Heap, r: Ref, json: Json, ancestors: set<Ref>)
    requires Normal(h, VRef(r), ancestors) == Success(json)
    ensures Holds(h, VRef(r), Plain(json), ancestors)
  {
  }

  lemma {:induction false} NodeNormal(h: Heap, r: Ref, n: FlowNode, ancestors: set<Ref>)
    requires IsNode(h, r, n, ancestors)
    ensures Normal(h, VRef(r), ancestors) == Success(NodeJson(n))
  {
    hide Holds, Normal, Record;
    var inner, inputs := ancestors + {r}, h[r].props[3].value.ref;
    RecordNormal(h, inputs, n.inputs, inner);
    StringHolds(h, n.id, inner);
    StringHolds(h, n.pluginId, inner);
    StringHolds(h, n.pluginVersion, inner);
    RefHolds(h, inputs, Record(n.inputs), inner);
    assert HoldsAll(h, h[r].props, NodeInputs(n), inner);
    RecordNormal(h, r, NodeInputs(n), ancestors);
  }

  lemma {:induction false} EdgeNormal(h: Heap, r: Ref, e: FlowEdge, ancestors: set<Ref>)
    requires IsEdge(h, r, e, ancestors)
    ensures Normal(h, VRef(r), ancestors) == Success(EdgeJson(e))
  {
    hide Holds, Normal, Record;
    var inner := ancestors + {r};
    StringHolds(h, e.fromNodeId, inner);
    NumberHolds(h, e.outputNumber, inner);
    StringHolds(h, e.toNodeId, inner);
    assert HoldsAll(h, h[r].props, EdgeInputs(e), inner);
    RecordNormal(h, r, EdgeInputs(e), ancestors);
  }

  lemma {:induction false} NodesNormal(h: Heap, r: Ref, nodes: seq<FlowNode>, ancestors: set<Ref>)
    requires IsNodeList(h, r, nodes, ancestors)
    ensures Normal(h, VRef(r), ancestors) == Success(JArr(NodeJsons(nodes)))
  {
    forall i | 0 <= i < |nodes| ensures Normal(h, h[r].items[i], ancestors + {r}) == Success(NodeJson(nodes[i])) {
      NodeNormal(h, h[r].items[i].ref, nodes[i], ancestors + {r});
    }
    ItemsNormal(h, h[r].items, NodeJsons(nodes), ancestors + {r});
  }

  lemma {:induction false} EdgesNormal(h: Heap, r: Ref, edges: seq<FlowEdge>, ancestors: set<Ref>)
    requires IsEdgeList(h, r, edges, ancestors)
    ensures Normal(h, VRef(r), ancestors) == Success(JArr(EdgeJsons(edges)))
  {
    forall i | 0 <= i < |edges| ensures Normal(h, h[r].items[i], ancestors + {r}) == Success(EdgeJson(edges[i])) {
      EdgeNormal(h, h[r].items[i].ref, edges[i], ancestors + {r});
    }
    ItemsNormal(h, h[r].items, EdgeJsons(edges), ancestors + {r});
  }

  /** The pre-hash text is the canonical text of the object the hash builds. */
  lemma {:induction false} PreHashIsCanonical(h: Heap, root: Ref, nodes: Ref, edges: Ref, flow: Flow)
    requires IsFlow(h, root, nodes, edges, flow)
    ensures TextOf(Normal(h, VRef(root), {})) == Success(PreHashText(flow))
  {
    hide Holds, Normal, Record, IsNodeList, IsEdgeList, Sort;
    NodesNormal(h, nodes, Sort(NodeKey, flow.nodes), {root});
    EdgesNormal(h, edges, Sort(EdgeKey, flow.edges), {root});
    RefHolds(h, nodes, JArr(NodeJsons(Sort(NodeKey, flow.nodes))), {root});
    RefHolds(h, edges, JArr(EdgeJsons(Sort(EdgeKey, flow.edges))), {root});
    assert {} + {root} == {root};
    assert HoldsAll(h, h[root].props, FlowInputs(flow), {root});
    RecordNormal(h, root, FlowInputs(flow), {});
  }

  /** So is the key an edge is sorted by. */
  lemma {:induction false} EdgeKeyIsCanonical(h: Heap, r: Ref, e: FlowEdge)
    requires r in h && h[r] == OArray([VString(e.fromNodeId), VNumber(e.outputNumber), VString(e.toNodeId)])
    ensures TextOf(Normal(h, VRef(r), {})) == Success(EdgeKey(e))
  {
    ItemsNormal(h, h[r].items, [JStr(e.fromNodeId), JNum(e.outputNumber), JStr(e.toNodeId)], {} + {r});
  }

  /** Two flows, in whatever heaps, are serialised to one text exactly when they are the same graph. */
  lemma {:induction false} SerialisedAlikeIsSameGraph(
      f: Flow, h1: Heap, r1: Ref, n1: Ref, e1: Ref, g: Flow, h2: Heap, r2: Ref, n2: Ref, e2: Ref)
    requires IsFlow(h1, r1, n1, e1, f) && IsFlow(h2, r2, n2, e2, g)
    requires FlowFits(f) && FlowFits(g) && FlowIsGraph(f) && FlowIsGraph(g)
    ensures TextOf(Normal(h1, VRef(r1), {})) == TextOf(Normal(h2, VRef(r2), {})) <==> SameGraph(f, g)
  {
    PreHashIsCanonical(h1, r1, n1, e1, f);
    PreHashIsCanonical(h2, r2, n2, e2, g);
    TextIsTheGraph(f, g);
  }
}

/**
  The deterministic serialiser behind every hash: `canonicalJson`, over object graphs that may
  share objects and may be cyclic.
 */
module CanonicalJson {
  import opened Wrappers
  import opened Order
  import opened JsonText

  type Ref = nat

  /** A JavaScript value. Functions and symbols are `VOpaque`; objects are references into a heap. */
  datatype Val =
    | VNull
    | VUndefined
    | VBool(b: bool)
    | VNumber(number: Text)
    | VNonFinite
    | VString(s: Text)
    | VBigInt(digits: Text)
    | VOpaque
    | VRef(ref: Ref)

  datatype Prop = Prop(key: Text, value: Val)

  /** An object: an array, a plain object with its own properties in insertion order, or any other. */
  datatype Obj = OArray(items: seq<Val>) | OPlain(props: seq<Prop>) | OExotic

  type Heap = map<Ref, Obj>

  datatype Fault = NotSerialisable | NotPlain | Circular

  function KeyOf(p: Prop): Text {
    p.key
  }

  /**
    The normal form of a value, or the first fault the traversal meets. `ancestors` are the objects
    on the way from the root; since they only grow towards the whole heap, the recursion ends on
    cyclic graphs too.
   */
  function Normal(h: Heap, v: Val, ancestors: set<Ref>): Result<Json, Fault>
    decreases h.Keys - ancestors, 0, 0
  {
    match v
    case VNull => Success(JNull)
    case VBool(b) => Success(JBool(b))
    case VNumber(number) => Success(JNum(number))
    case VString(s) => Success(JStr(s))
    case VBigInt(digits) => Success(JStr(digits))
    case VRef(r) =>
      if r !in h || h[r].OExotic? then Failure(NotPlain)
      else if r in ancestors then Failure(Circular)
      else
        assert r in h.Keys - ancestors && r !in h.Keys - (ancestors + {r});
        (match h[r]
         case OArray(items) =>
           (match NormalItems(h, items, ancestors + {r})
            case Failure(e) => Failure(e)
            case Success(js) => Success(JArr(js)))
         case OPlain(props) =>
           (match NormalProps(h, Sort(KeyOf, props), ancestors + {r})
            case Failure(e) => Failure(e)
            case Success(ms) => Success(JObj(ms))))
    case _ => Failure(NotSerialisable)
  }

  /** An array keeps its order; an undefined entry becomes null. */
  function NormalItems(h: Heap, items: seq<Val>, ancestors: set<Ref>): Result<seq<Json>, Fault>
    decreases h.Keys - ancestors, 1, |items|
  {
    if items == [] then Success([])
    else
      match (if items[0] == VUndefined then Success(JNull) else Normal(h, items[0], ancestors))
      case Failure(e) => Failure(e)
      case Success(j) =>
        match NormalItems(h, items[1..], ancestors)
        case Failure(e) => Failure(e)
        case Success(js) => Success([j] + js)
  }

  /** An undefined property is dropped. */
  function NormalProps(h: Heap, props: seq<Prop>, ancestors: set<Ref>): Result<seq<Member>, Fault>
    decreases h.Keys - ancestors, 1, |props|
  {
    if props == [] then Success([])
    else if props[0].value == VUndefined then NormalProps(h, props[1..], ancestors)
    else
      match Normal(h, props[0].value, ancestors)
      case Failure(e) => Failure(e)
      case Success(j) =>
        match NormalProps(h, props[1..], ancestors)
        case Failure(e) => Failure(e)
        case Success(ms) => Success([Member(props[0].key, j)] + ms)
  }

  /** The canonical text of a value, or the fault. */
  function TextOf(r: Result<Json, Fault>): Result<Text, Fault> {
    match r
    case Failure(e) => Failure(e)
    case Success(j) => Success(Print(j))
  }

  /** What a loop has still to add: the part done, in front of the part to do. */
  function After<T>(done: seq<T>, rest: Result<seq<T>, Fault>): Result<seq<T>, Fault> {
    match rest
    case Failure(e) => Failure(e)
    case Success(more) => Success(done + more)
  }

  lemma {:induction false} PrintEachSnoc(done: seq<Json>, j: Json)
    ensures PrintEach(done + [j]) == PrintEach(done) + [Print(j)]
  {
    if done == [] {
      assert done + [j] == [j];
    } else {
      PrintEachSnoc(done[1..], j);
      assert (done + [j])[1..] == done[1..] + [j];
    }
  }

  lemma {:induction false} PrintMembersSnoc(done: seq<Member>, m: Member)
    ensures PrintMembers(done + [m]) == PrintMembers(done) + [PrintMember(m)]
  {
    if done == [] {
      assert done + [m] == [m];
    } else {
      PrintMembersSnoc(done[1..], m);
      assert (done + [m])[1..] == done[1..] + [m];
    }
  }

  /** The normal form of a first property that is defined, in front of the others'. */
  function WithFirst(h: Heap, props: seq<Prop>, ancestors: set<Ref>): Result<seq<Member>, Fault>
    requires props != []
  {
    match Normal(h, props[0].value, ancestors)
    case Failure(e) => Failure(e)
    case Success(j) => After([Member(props[0].key, j)], NormalProps(h, props[1..], ancestors))
  }

  lemma {:induction false} PropsStep(h: Heap, props: seq<Prop>, ancestors: set<Ref>)
    requires props != []
    ensures props[0].value == VUndefined ==> NormalProps(h, props, ancestors) == NormalProps(h, props[1..], ancestors)
    ensures props[0].value != VUndefined ==> NormalProps(h, props, ancestors) == WithFirst(h, props, ancestors)
  {
    hide Normal;
  }

  lemma {:induction false} NoMembers(h: Heap, ancestors: set<Ref>)
    ensures NormalProps(h, [], ancestors) == Success([]) && PrintMembers([]) == []
  {
  }

  lemma AfterMore<T>(done: seq<T>, x: T, rest: Result<seq<T>, Fault>)
    ensures After(done, After([x], rest)) == After(done + [x], rest)
  {
    if rest.Success? { assert done + ([x] + rest.value) == (done + [x]) + rest.value; }
  }

  /** One traversal: the set of ancestors is shared by all its recursive calls. */
  class Serialiser {
    const heap: Heap
    var ancestors: set<Ref>

    constructor (heap: Heap)
      ensures this.heap == heap && ancestors == {}
    {
      this.heap := heap;
      ancestors := {};
    }

    /** The text of the normal form, or its fault. On every exit `ancestors` is as it was. */
    method Inner(v: Val) returns (r: Result<Text, Fault>)
      modifies this
      ensures ancestors == old(ancestors)
      ensures r == TextOf(Normal(heap, v, ancestors))
      decreases heap.Keys - ancestors, 1
    {
      match v
      case VNull => return Success(NULL_TEXT);
      case VBool(b) => return Success(if b then TRUE_TEXT else FALSE_TEXT);
      case VNumber(number) => return Success(number);
      case VString(s) => return Success(Quoted(s));
      case VBigInt(digits) => return Success(Quoted(digits));
      case VRef(ref) =>
        if ref !in heap || heap[ref].OExotic? { return Failure(NotPlain); }
        if ref in ancestors { return Failure(Circular); }
        ghost var before := ancestors;
        assert ref in heap.Keys - before;
        ancestors := ancestors + {ref};
        match heap[ref] {
        case OArray(items) =>
          var inner := Items(items);
          r := match inner case Failure(e) => Failure(e) case Success(t) => Success([OPEN_ARRAY] + t + [CLOSE_ARRAY]);
        case OPlain(props) =>
          var inner := Props(Sort(KeyOf, props));
          r := match inner case Failure(e) => Failure(e) case Success(t) => Success([OPEN_OBJECT] + t + [CLOSE_OBJECT]);
        }
        ancestors := ancestors - {ref};
        assert ancestors == before;
      case _ => return Failure(NotSerialisable);
    }

    method Items(items: seq<Val>) returns (r: Result<Text, Fault>)
      modifies this
      ensures ancestors == old(ancestors)
      ensures r == match NormalItems(heap, items, ancestors)
                   case Failure(e) => Failure(e)
                   case Success(js) => Success(Join(PrintEach(js)))
      decreases heap.Keys - ancestors, 2
    {
      ghost var done: seq<Json> := [];
      var parts, i := [], 0;
      assert items[0..] == items && forall more: seq<Json> :: [] + more == more;
      while i < |items|
        invariant 0 <= i <= |items| && ancestors == old(ancestors)
        invariant parts == PrintEach(done)
        invariant NormalItems(heap, items, ancestors) == After(done, NormalItems(heap, items[i..], ancestors))
      {
        var part := Success(NULL_TEXT);
        if items[i] != VUndefined { part := Inner(items[i]); }
        if part.Failure? { return part; }
        ghost var j := if items[i] == VUndefined then JNull else Normal(heap, items[i], ancestors).value;
        PrintEachSnoc(done, j);
        assert items[i..][1..] == items[i + 1..];
        assert forall more: seq<Json> :: done + ([j] + more) == (done + [j]) + more;
        parts, done, i := parts + [part.value], done + [j], i + 1;
      }
      assert done + [] == done;
      r := Success(Join(parts));
    }

    method Props(props: seq<Prop>) returns (r: Result<Text, Fault>)
      modifies this
      ensures ancestors == old(ancestors)
      ensures r == match NormalProps(heap, props, ancestors)
                   case Failure(e) => Failure(e)
                   case Success(ms) => Success(Join(PrintMembers(ms)))
      decreases heap.Keys - ancestors, 2
    {
      hide Normal, NormalProps, PrintMembers, Join;
      ghost var done: seq<Member> := [];
      var parts, i := [], 0;
      assert props[0..] == props && forall more: seq<Member> :: [] + more == more;
      NoMembers(heap, ancestors);
      while i < |props|
        invariant 0 <= i <= |props| && ancestors == old(ancestors)
        invariant parts == PrintMembers(done)
        invariant NormalProps(heap, props, ancestors) == After(done, NormalProps(heap, props[i..], ancestors))
      {
        PropsStep(heap, props[i..], ancestors);
        assert props[i..][1..] == props[i + 1..];
        if props[i].value != VUndefined {
          var part := Inner(props[i].value);
          if part.Failure? { return part; }
          ghost var m := Member(props[i].key, Normal(heap, props[i].value, ancestors).value);
          PrintMembersSnoc(done, m);
          AfterMore(done, m, NormalProps(heap, props[i + 1..], ancestors));
          parts, done := parts + [Quoted(props[i].key) + [COLON] + part.value], done + [m];
        }
        i := i + 1;
      }
      assert done + [] == done;
      r := Success(Join(parts));
    }
  }

  /** `canonicalJson`: a traversal that starts with no ancestors. */
  method CanonicalJson(h: Heap, v: Val) returns (r: Result<Text, Fault>)
    ensures r == TextOf(Normal(h, v, {}))
  {
    var s := new Serialiser(h);
    r := s.Inner(v);
  }

  // ---- The text determines the normal form --------------------------------------

  predicate ValFits(v: Val) {
    v.VNumber? ==> IsNumber(v.number)
  }

  /** Every number is spelled as RFC 8259 allows, and no object has a key twice. */
  predicate HeapFits(h: Heap) {
    forall r :: r in h ==>
      match h[r]
      case OArray(items) => forall i :: 0 <= i < |items| ==> ValFits(items[i])
      case OPlain(props) => DistinctKeys(KeyOf, props) && forall i :: 0 <= i < |props| ==> ValFits(props[i].value)
      case OExotic => true
  }

  function MemberKey(m: Member): Text {
    m.key
  }

  /** In normal form: numbers fit, and the keys of every object strictly ascend. */
  predicate InNormalForm(j: Json) {
    match j
    case JNum(number) => IsNumber(number)
    case JArr(items) => forall i :: 0 <= i < |items| ==> InNormalForm(items[i])
    case JObj(members) => StrictlyAscending(MemberKey, members) && forall i :: 0 <= i < |members| ==> InNormalForm(members[i].value)
    case _ => true
  }

  lemma {:induction false} NormalFormFits(j: Json)
    requires InNormalForm(j)
    ensures NumbersFit(j)
  {
    match j
    case JArr(items) => forall i | 0 <= i < |items| { NormalFormFits(items[i]); }
    case JObj(members) => forall i | 0 <= i < |members| { NormalFormFits(members[i].value); }
    case _ =>
  }

  lemma {:induction false} NormalIsInNormalForm(h: Heap, v: Val, ancestors: set<Ref>)
    requires HeapFits(h) && ValFits(v) && Normal(h, v, ancestors).Success?
    ensures InNormalForm(Normal(h, v, ancestors).value)
    decreases h.Keys - ancestors, 0, 0
  {
    if v.VRef? {
      assert v.ref in h.Keys - ancestors;
      match h[v.ref]
      case OArray(items) => ItemsAreInNormalForm(h, items, ancestors + {v.ref});
      case OPlain(props) =>
        SortIsStrict(KeyOf, props);
        SortKeeps(KeyOf, props);
        forall i | 0 <= i < |props| ensures ValFits(Sort(KeyOf, props)[i].value) {
          assert Sort(KeyOf, props)[i] in multiset(props);
        }
        PropsAreInNormalForm(h, Sort(KeyOf, props), ancestors + {v.ref});
    }
  }

  lemma {:induction false} ItemsAreInNormalForm(h: Heap, items: seq<Val>, ancestors: set<Ref>)
    requires HeapFits(h) && NormalItems(h, items, ancestors).Success?
    requires forall i :: 0 <= i < |items| ==> ValFits(items[i])
    ensures forall j :: j in NormalItems(h, items, ancestors).value ==> InNormalForm(j)
    decreases h.Keys - ancestors, 1, |items|
  {
    if items != [] {
      if items[0] != VUndefined { NormalIsInNormalForm(h, items[0], ancestors); }
      ItemsAreInNormalForm(h, items[1..], ancestors);
    }
  }

  lemma {:induction false} PropsAreInNormalForm(h: Heap, props: seq<Prop>, ancestors: set<Ref>)
    requires HeapFits(h) && NormalProps(h, props, ancestors).Success?
    requires forall i :: 0 <= i < |props| ==> ValFits(props[i].value)
    requires StrictlyAscending(KeyOf, props)
    ensures var ms := NormalProps(h, props, ancestors).value;
      && StrictlyAscending(MemberKey, ms)
      && (forall m :: m in ms ==> InNormalForm(m.value) && exists p :: p in props && p.key == m.key)
    decreases h.Keys - ancestors, 1, |props|
  {
    if props != [] {
      PropsAreInNormalForm(h, props[1..], ancestors);
      if props[0].value != VUndefined {
        NormalIsInNormalForm(h, props[0].value, ancestors);
        var rest := NormalProps(h, props[1..], ancestors).value;
        forall i | 0 <= i < |rest| ensures Less(props[0].key, rest[i].key) {
          assert rest[i] in rest;
          var p :| p in props[1..] && p.key == rest[i].key;
          var k :| 0 <= k < |props[1..]| && props[1..][k] == p;
          assert props[k + 1] == p;
        }
      }
    }
  }

  /** Parsing a canonical text gives back the normal form of the value it was made from. */
  lemma {:induction false} ParseRecoversNormalForm(h: Heap, v: Val)
    requires HeapFits(h) && ValFits(v) && Normal(h, v, {}).Success?
    ensures Parse(TextOf(Normal(h, v, {})).value) == Some(Normal(h, v, {}).value)
    ensures InNormalForm(Normal(h, v, {}).value)
  {
    NormalIsInNormalForm(h, v, {});
    NormalFormFits(Normal(h, v, {}).value);
    ParseInvertsPrint(Normal(h, v, {}).value);
  }

  /** Two values, in whatever graphs, have one text exactly when they have one normal form. */
  lemma {:induction false} EqualTextsMeanEqualValues(h1: Heap, v1: Val, h2: Heap, v2: Val)
    requires HeapFits(h1) && ValFits(v1) && Normal(h1, v1, {}).Success?
    requires HeapFits(h2) && ValFits(v2) && Normal(h2, v2, {}).Success?
    ensures TextOf(Normal(h1, v1, {})) == TextOf(Normal(h2, v2, {})) <==> Normal(h1, v1, {}) == Normal(h2, v2, {})
  {
    ParseRecoversNormalForm(h1, v1);
    ParseRecoversNormalForm(h2, v2);
  }

  // ---- When it refuses ----------------------------------------------------------

  /** The values an object serialises, in some order. */
  function Children(h: Heap, r: Ref): seq<Val> {
    if r !in h then []
    else match h[r]
      case OArray(items) => items
      case OPlain(props) => Values(props)
      case OExotic => []
  }

  function Values(props: seq<Prop>): (vs: seq<Val>)
    ensures |vs| == |props| && forall i :: 0 <= i < |vs| ==> vs[i] == props[i].value
  {
    if props == [] then [] else [props[0].value] + Values(props[1..])
  }

  /** A walk from a value down through objects. */
  predicate IsWalk(h: Heap, v: Val, walk: seq<Ref>)
    decreases |walk|
  {
    && walk != [] && v == VRef(walk[0])
    && (|walk| == 1 || exists k :: 0 <= k < |Children(h, walk[0])| && IsWalk(h, Children(h, walk[0])[k], walk[1..]))
  }

  /** A value `canonicalJson` has no text for, wherever it stands. */
  predicate Textless(v: Val) {
    v.VNonFinite? || v.VOpaque?
  }

  /** Not a plain object or array, or one that holds a textless value. */
  predicate Unfit(h: Heap, r: Ref) {
    r !in h || h[r].OExotic? || exists k :: 0 <= k < |Children(h, r)| && Textless(Children(h, r)[k])
  }

  /** A walk ends badly at an unfit object, or at one it has been through: a cycle. */
  predicate EndsBadly(h: Heap, walk: seq<Ref>, ancestors: set<Ref>)
    requires walk != []
  {
    var last := walk[|walk| - 1];
    Unfit(h, last) || last in ancestors || last in walk[..|walk| - 1]
  }

  lemma {:induction false} FailingItem(h: Heap, items: seq<Val>, ancestors: set<Ref>) returns (k: nat)
    requires NormalItems(h, items, ancestors).Failure?
    ensures k < |items| && items[k] != VUndefined && Normal(h, items[k], ancestors).Failure?
    decreases |items|
  {
    if items[0] != VUndefined && Normal(h, items[0], ancestors).Failure? { return 0; }
    k := FailingItem(h, items[1..], ancestors);
    k := k + 1;
  }

  lemma {:induction false} FailingProp(h: Heap, props: seq<Prop>, ancestors: set<Ref>) returns (k: nat)
    requires NormalProps(h, props, ancestors).Failure?
    ensures k < |props| && props[k].value != VUndefined && Normal(h, props[k].value, ancestors).Failure?
    decreases |props|
  {
    if props[0].value != VUndefined && Normal(h, props[0].value, ancestors).Failure? { return 0; }
    k := FailingProp(h, props[1..], ancestors);
    k := k + 1;
  }

  /** An object whose content fails has a child that fails. */
  lemma FailingChild(h: Heap, r: Ref, ancestors: set<Ref>) returns (k: nat)
    requires r in h && r !in ancestors && !h[r].OExotic? && Normal(h, VRef(r), ancestors).Failure?
    ensures k < |Children(h, r)| && Children(h, r)[k] != VUndefined
    ensures Normal(h, Children(h, r)[k], ancestors + {r}).Failure?
  {
    match h[r]
    case OArray(items) => k := FailingItem(h, items, ancestors + {r});
    case OPlain(props) =>
      var sorted := Sort(KeyOf, props);
      var i := FailingProp(h, sorted, ancestors + {r});
      SortKeeps(KeyOf, props);
      assert sorted[i] in multiset(props);
      k :| 0 <= k < |props| && props[k] == sorted[i];
  }

  lemma {:induction false} FaultHasWalk(h: Heap, v: Val, ancestors: set<Ref>) returns (walk: seq<Ref>)
    requires v.VRef? && Normal(h, v, ancestors).Failure?
    ensures IsWalk(h, v, walk) && EndsBadly(h, walk, ancestors)
    decreases h.Keys - ancestors
  {
    var r := v.ref;
    walk := [r];
    if r in h && !h[r].OExotic? && r !in ancestors {
      var k := FailingChild(h, r, ancestors);
      var child := Children(h, r)[k];
      assert r in h.Keys - ancestors;
      if child.VRef? {
        var rest := FaultHasWalk(h, child, ancestors + {r});
        walk := [r] + rest;
        assert walk[1..] == rest;
        var n := |rest| - 1;
        assert walk[..n + 1] == [r] + rest[..n];
        if rest[n] == r { assert walk[0] == r; }
      } else {
        assert Textless(child);
      }
    }
  }

  lemma {:induction false} ItemsSucceed(h: Heap, items: seq<Val>, ancestors: set<Ref>, k: nat)
    requires NormalItems(h, items, ancestors).Success? && k < |items|
    ensures items[k] == VUndefined || Normal(h, items[k], ancestors).Success?
    decreases |items|
  {
    if k > 0 { ItemsSucceed(h, items[1..], ancestors, k - 1); }
  }

  lemma {:induction false} PropsSucceed(h: Heap, props: seq<Prop>, ancestors: set<Ref>, k: nat)
    requires NormalProps(h, props, ancestors).Success? && k < |props|
    ensures props[k].value == VUndefined || Normal(h, props[k].value, ancestors).Success?
    decreases |props|
  {
    if k > 0 { PropsSucceed(h, props[1..], ancestors, k - 1); }
  }

  lemma {:induction false} ChildrenSucceed(h: Heap, r: Ref, ancestors: set<Ref>, k: nat)
    requires Normal(h, VRef(r), ancestors).Success? && k < |Children(h, r)|
    ensures var child := Children(h, r)[k]; child == VUndefined || Normal(h, child, ancestors + {r}).Success?
  {
    match h[r]
    case OArray(items) => ItemsSucceed(h, items, ancestors + {r}, k);
    case OPlain(props) =>
      var sorted := Sort(KeyOf, props);
      SortKeeps(KeyOf, props);
      assert props[k] in multiset(sorted);
      var i :| 0 <= i < |sorted| && sorted[i] == props[k];
      PropsSucceed(h, sorted, ancestors + {r}, i);
  }

  lemma {:induction false} SuccessHasNoBadWalk(h: Heap, v: Val, ancestors: set<Ref>, walk: seq<Ref>)
    requires Normal(h, v, ancestors).Success? && IsWalk(h, v, walk)
    ensures !EndsBadly(h, walk, ancestors)
    ensures forall i :: 0 <= i < |walk| ==> walk[i] !in ancestors
    decreases |walk|
  {
    var r := walk[0];
    forall k | 0 <= k < |Children(h, r)| ensures !Textless(Children(h, r)[k]) {
      ChildrenSucceed(h, r, ancestors, k);
    }
    if |walk| > 1 {
      var k :| 0 <= k < |Children(h, r)| && IsWalk(h, Children(h, r)[k], walk[1..]);
      ChildrenSucceed(h, r, ancestors, k);
      var rest := walk[1..];
      SuccessHasNoBadWalk(h, Children(h, r)[k], ancestors + {r}, rest);
      assert walk == [r] + rest;
      var n := |rest| - 1;
      assert walk[..n + 1] == [r] + rest[..n];
      assert rest[n] !in ancestors + {r};
      forall i | 0 <= i < |walk| ensures walk[i] !in ancestors {
        if i > 0 { assert walk[i] == rest[i - 1]; }
      }
    }
  }

  /**
    It returns a text exactly when the value itself has one and no walk from it reaches an unfit
    object or closes a cycle. An object reached twice by different ways is not a cycle.
   */
  lemma {:induction false} RefusesExactlyBadGraphs(h: Heap, v: Val)
    ensures Normal(h, v, {}).Success? <==>
      !Textless(v) && v != VUndefined && forall walk :: IsWalk(h, v, walk) ==> !EndsBadly(h, walk, {})
  {
    if v.VRef? {
      if Normal(h, v, {}).Failure? {
        var walk := FaultHasWalk(h, v, {});
      } else {
        forall walk | IsWalk(h, v, walk) ensures !EndsBadly(h, walk, {}) {
          SuccessHasNoBadWalk(h, v, {}, walk);
        }
      }
    }
  }
}

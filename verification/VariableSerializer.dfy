/** Bounded unfolding of a possibly cyclic graph of variables (src/inspection/VariableSerializer.ts). */
module VariableSerializer {
  import opened Basics

  /** A variable as the adapter reports it; `ref` is positive when it has children. */
  datatype DapVariable = DapVariable(name: string, value: string, ref: int, named: Option<nat>, indexed: Option<nat>)

  datatype ObjectFields = Deep | Shallow | Preview | NoFields

  datatype Config = Config(maxItems: nat, maxDepth: int, maxString: nat, objectFields: ObjectFields, redacts: string -> bool)

  /** The adapter's answer for each reference; it fails for one that is absent. */
  type Adapter = map<int, seq<DapVariable>>

  datatype VariableNode = VariableNode(
    name: string,
    summary: string,
    raw: Option<string>,
    ref: Option<int>,
    parentRef: Option<int>,
    path: seq<string>,
    expandable: bool,
    truncated: bool,
    complete: Option<bool>,
    childrenCount: Option<nat>,
    cycle: bool,
    redacted: bool,
    children: Children)

  datatype Children = Unopened | Opened(nodes: seq<VariableNode>)

  /** A node, or a failure of the adapter; either way with the set of references that is left open. */
  datatype NodeOutcome = Built(node: VariableNode, seen: set<int>) | Failed(seen: set<int>)

  datatype NodesOutcome = AllBuilt(nodes: seq<VariableNode>, seen: set<int>) | AllFailed(seen: set<int>)

  // ---------------------------------------------------------------- small parts

  function Truncate(text: string, limit: nat): (r: string)
  {
    if |text| <= limit then text else text[..limit] + "..."
  }

  function DeclaredChildren(v: DapVariable): (r: Option<nat>)
  {
    if v.named.None? && v.indexed.None? then None
    else Some((if v.named.Some? then v.named.value else 0) + if v.indexed.Some? then v.indexed.value else 0)
  }

  function DepthLimit(c: Config): (r: int)
  {
    if c.objectFields.Shallow? then 1 else c.maxDepth
  }

  function BaseNode(c: Config, v: DapVariable, parentRef: Option<int>, parentPath: seq<string>): (r: VariableNode)
  {
    var redacted := c.redacts(v.name);
    var cut := !redacted && |v.value| > c.maxString;
    var hasRef := v.ref > 0;
    VariableNode(
      v.name,
      if redacted then "[REDACTED]" else Truncate(v.value, c.maxString),
      if hasRef || redacted then None else Some(Truncate(v.value, c.maxString)),
      if hasRef then Some(v.ref) else None,
      parentRef,
      parentPath + [v.name],
      hasRef,
      cut,
      if cut then Some(false) else if !hasRef then Some(true) else None,
      DeclaredChildren(v),
      false,
      redacted,
      Unopened)
  }

  function Cut(node: VariableNode): (r: VariableNode)
  {
    node.(truncated := true, complete := Some(false))
  }

  /** The entry that stands for the variables beyond the limit. */
  function Sentinel(parentPath: seq<string>): (r: VariableNode)
  {
    VariableNode("__truncated__", "", None, None, None, parentPath + ["__truncated__"], false, true, None, None, false, false, Unopened)
  }

  /** What children say about completeness: one is known to be incomplete, or one is not known to be complete. */
  datatype Evidence = Evidence(knownIncomplete: bool, unknown: bool)

  predicate KnownIncomplete(child: VariableNode)
  {
    child.truncated || child.complete == Some(false)
  }

  function ChildEvidence(children: seq<VariableNode>): (r: Evidence)
  {
    if exists i | 0 <= i < |children| :: KnownIncomplete(children[i]) then Evidence(true, false)
    else Evidence(false, exists i | 0 <= i < |children| :: children[i].complete != Some(true))
  }

  function WithCompleteness(node: VariableNode, returned: nat, limit: nat, declared: Option<nat>, evidence: Evidence): (r: VariableNode)
  {
    if node.truncated then node.(complete := Some(false))
    else if evidence.knownIncomplete then Cut(node)
    else if returned > limit || (declared.Some? && returned < declared.value) then Cut(node)
    else if evidence.unknown then node.(complete := None)
    else if declared.Some? then node.(complete := Some(true))
    else node
  }

  // ------------------------------------------------------------------ unfolding

  function NodeOf(c: Config, adapter: Adapter, v: DapVariable, depth: nat, seen: set<int>,
                  parentRef: Option<int>, parentPath: seq<string>): (r: NodeOutcome)
    ensures r.Built? ==> r.seen == seen
    ensures r.Failed? ==> seen < r.seen
    decreases adapter.Keys - seen, 0, 0
  {
    var node := BaseNode(c, v, parentRef, parentPath);
    if node.redacted || v.ref <= 0 then Built(node, seen)
    else if c.objectFields.NoFields? || c.objectFields.Preview? then Built(Cut(node), seen)
    else if depth >= DepthLimit(c) then Built(Cut(node).(children := Opened([])), seen)
    else if v.ref in seen then
      Built(Cut(node).(cycle := true, summary := "[Circular]", raw := None, children := Opened([])), seen)
    else if v.ref !in adapter then Failed(seen + {v.ref})
    else
      var vs := adapter[v.ref];
      assert v.ref in adapter.Keys - seen && v.ref !in adapter.Keys - (seen + {v.ref});
      var kids := NodesOf(c, adapter, vs, depth + 1, seen + {v.ref}, Some(v.ref), node.path);
      if kids.AllFailed? then Failed(kids.seen)
      else
        Built(WithCompleteness(node.(children := Opened(kids.nodes)), |vs|, c.maxItems, DeclaredChildren(v), ChildEvidence(kids.nodes)),
              kids.seen - {v.ref})
  }

  function EachNode(c: Config, adapter: Adapter, vs: seq<DapVariable>, depth: nat, seen: set<int>,
                    parentRef: Option<int>, parentPath: seq<string>): (r: NodesOutcome)
    ensures r.AllBuilt? ==> r.seen == seen && |r.nodes| == |vs|
    ensures r.AllFailed? ==> seen < r.seen
    decreases adapter.Keys - seen, 1, |vs|
  {
    if vs == [] then AllBuilt([], seen)
    else
      var first := NodeOf(c, adapter, vs[0], depth, seen, parentRef, parentPath);
      if first.Failed? then AllFailed(first.seen)
      else
        var rest := EachNode(c, adapter, vs[1..], depth, first.seen, parentRef, parentPath);
        if rest.AllFailed? then rest else AllBuilt([first.node] + rest.nodes, rest.seen)
  }

  function Limited(c: Config, vs: seq<DapVariable>): (r: seq<DapVariable>)
  {
    if |vs| > c.maxItems then vs[..c.maxItems] else vs
  }

  function NodesOf(c: Config, adapter: Adapter, vs: seq<DapVariable>, depth: nat, seen: set<int>,
                   parentRef: Option<int>, parentPath: seq<string>): (r: NodesOutcome)
    ensures r.AllBuilt? ==> r.seen == seen
    ensures r.AllFailed? ==> seen < r.seen
    decreases adapter.Keys - seen, 2, 0
  {
    var r := EachNode(c, adapter, Limited(c, vs), depth, seen, parentRef, parentPath);
    if r.AllBuilt? && |vs| > c.maxItems then AllBuilt(r.nodes + [Sentinel(parentPath)], r.seen) else r
  }

  /** The i-th node of a list is the i-th variable's own node, started from the same open references. */
  lemma {:induction false} EachNodeAt(c: Config, adapter: Adapter, vs: seq<DapVariable>, depth: nat, seen: set<int>,
                                      parentRef: Option<int>, parentPath: seq<string>, i: nat)
    requires EachNode(c, adapter, vs, depth, seen, parentRef, parentPath).AllBuilt? && i < |vs|
    ensures NodeOf(c, adapter, vs[i], depth, seen, parentRef, parentPath)
         == Built(EachNode(c, adapter, vs, depth, seen, parentRef, parentPath).nodes[i], seen)
    decreases |vs|
  {
    if i > 0 {
      EachNodeAt(c, adapter, vs[1..], depth, seen, parentRef, parentPath, i - 1);
    }
  }

  // --------------------------------------------------------------------- depth

  /** No chain of children is longer than `n`. */
  predicate HeightAtMost(node: VariableNode, n: nat)
    decreases node
  {
    node.children.Opened? && node.children.nodes != [] ==>
      n > 0 && forall i | 0 <= i < |node.children.nodes| :: HeightAtMost(node.children.nodes[i], n - 1)
  }

  function Remaining(c: Config, depth: nat): (r: nat)
  {
    if depth >= DepthLimit(c) then 0 else DepthLimit(c) - depth
  }

  /** The tree built for a variable never reaches below the depth limit. */
  lemma {:induction false} DepthIsBounded(c: Config, adapter: Adapter, v: DapVariable, depth: nat, seen: set<int>,
                                          parentRef: Option<int>, parentPath: seq<string>)
    requires NodeOf(c, adapter, v, depth, seen, parentRef, parentPath).Built?
    ensures HeightAtMost(NodeOf(c, adapter, v, depth, seen, parentRef, parentPath).node, Remaining(c, depth))
    decreases adapter.Keys - seen
  {
    if Opens(c, adapter, v, depth, seen) {
      var path, vs := parentPath + [v.name], adapter[v.ref];
      assert v.ref in adapter.Keys - seen && v.ref !in adapter.Keys - (seen + {v.ref});
      var kids := EachNode(c, adapter, Limited(c, vs), depth + 1, seen + {v.ref}, Some(v.ref), path);
      var nodes := NodesOf(c, adapter, vs, depth + 1, seen + {v.ref}, Some(v.ref), path).nodes;
      forall i | 0 <= i < |nodes| ensures HeightAtMost(nodes[i], Remaining(c, depth + 1)) {
        if i < |kids.nodes| {
          EachNodeAt(c, adapter, Limited(c, vs), depth + 1, seen + {v.ref}, Some(v.ref), path, i);
          DepthIsBounded(c, adapter, Limited(c, vs)[i], depth + 1, seen + {v.ref}, Some(v.ref), path);
        }
      }
    }
  }

  /** Whether a variable's children are asked for and come. */
  predicate Opens(c: Config, adapter: Adapter, v: DapVariable, depth: nat, seen: set<int>)
  {
    && !c.redacts(v.name) && v.ref > 0 && (c.objectFields.Deep? || c.objectFields.Shallow?)
    && depth < DepthLimit(c) && v.ref !in seen && v.ref in adapter
  }

  // ------------------------------------------------------- completeness and cycles

  predicate MayOpen(c: Config, node: VariableNode, depth: nat)
  {
    node.ref.Some? && !node.redacted && (c.objectFields.Deep? || c.objectFields.Shallow?) && depth < DepthLimit(c)
  }

  /** A truncated node is not complete, a node known to be incomplete is marked truncated, and a cycle is marked on a
      reference exactly when it is open above the node. */
  predicate Honest(c: Config, node: VariableNode, depth: nat, open: set<int>)
    decreases node
  {
    && (node.truncated ==> node.complete != Some(true))
    && (node.complete == Some(false) ==> node.truncated)
    && (node.cycle ==> node.ref.Some? && node.ref.value in open)
    && (MayOpen(c, node, depth) && node.ref.value in open ==> node.cycle)
    && (node.children.Opened? ==> forall i | 0 <= i < |node.children.nodes| ::
          Honest(c, node.children.nodes[i], depth + 1, open + (if node.ref.Some? then {node.ref.value} else {})))
  }

  lemma {:induction false} NodesAreHonest(c: Config, adapter: Adapter, v: DapVariable, depth: nat, seen: set<int>,
                                          parentRef: Option<int>, parentPath: seq<string>)
    requires NodeOf(c, adapter, v, depth, seen, parentRef, parentPath).Built?
    ensures Honest(c, NodeOf(c, adapter, v, depth, seen, parentRef, parentPath).node, depth, seen)
    decreases adapter.Keys - seen
  {
    if Opens(c, adapter, v, depth, seen) {
      var path, vs := parentPath + [v.name], adapter[v.ref];
      assert v.ref in adapter.Keys - seen && v.ref !in adapter.Keys - (seen + {v.ref});
      var kids := EachNode(c, adapter, Limited(c, vs), depth + 1, seen + {v.ref}, Some(v.ref), path);
      var nodes := NodesOf(c, adapter, vs, depth + 1, seen + {v.ref}, Some(v.ref), path).nodes;
      forall i | 0 <= i < |nodes| ensures Honest(c, nodes[i], depth + 1, seen + {v.ref}) {
        if i < |kids.nodes| {
          EachNodeAt(c, adapter, Limited(c, vs), depth + 1, seen + {v.ref}, Some(v.ref), path, i);
          NodesAreHonest(c, adapter, Limited(c, vs)[i], depth + 1, seen + {v.ref}, Some(v.ref), path);
        }
      }
    }
  }

  /** The variables there really are behind each reference. */
  type Graph = map<int, seq<DapVariable>>

  /** A declared count, if any, is the number of children there are. */
  predicate CountIsTrue(graph: Graph, v: DapVariable)
  {
    v.ref > 0 && DeclaredChildren(v).Some? ==> v.ref in graph && |graph[v.ref]| == DeclaredChildren(v).value
  }

  /** The adapter answers with a first part of what there is, and declares true counts. */
  ghost predicate Truthful(adapter: Adapter, graph: Graph)
  {
    && (forall ref | ref in adapter :: ref in graph && adapter[ref] <= graph[ref])
    && (forall ref | ref in graph :: CountsAreTrue(graph, graph[ref]))
  }

  ghost predicate CountsAreTrue(graph: Graph, vs: seq<DapVariable>)
  {
    forall i | 0 <= i < |vs| :: CountIsTrue(graph, vs[i])
  }

  /** The node shows everything there is below the variable, except what is redacted: nothing shortened, no child missing,
      no cycle cut, and every descendant complete. */
  predicate IsFullUnfolding(c: Config, graph: Graph, v: DapVariable, node: VariableNode, path: seq<string>)
    decreases node
  {
    && node.name == v.name && node.path == path + [v.name]
    && !node.truncated && !node.cycle && node.complete == Some(true)
    && (node.redacted <==> c.redacts(v.name))
    && (node.redacted ==> node.ref.None? && node.children.Unopened?)
    && (!node.redacted ==> node.summary == v.value)
    && (!node.redacted && v.ref <= 0 ==> node.ref.None? && node.raw == Some(v.value) && node.children.Unopened?)
    && (!node.redacted && v.ref > 0 ==>
          && node.ref == Some(v.ref) && v.ref in graph && node.children.Opened?
          && |node.children.nodes| == |graph[v.ref]|
          && forall i | 0 <= i < |graph[v.ref]| ::
               node.children.nodes[i].parentRef == Some(v.ref)
               && IsFullUnfolding(c, graph, graph[v.ref][i], node.children.nodes[i], node.path))
  }

  /** When a node that was opened comes out complete, all its children came, and all are complete. */
  lemma CompleteMeansAllChildren(c: Config, adapter: Adapter, graph: Graph, v: DapVariable, depth: nat, seen: set<int>,
                                 parentRef: Option<int>, parentPath: seq<string>)
    requires Truthful(adapter, graph) && CountIsTrue(graph, v) && Opens(c, adapter, v, depth, seen)
    requires var r := NodeOf(c, adapter, v, depth, seen, parentRef, parentPath);
             r.Built? && r.node.complete == Some(true)
    ensures var r := NodeOf(c, adapter, v, depth, seen, parentRef, parentPath);
            var kids := EachNode(c, adapter, graph[v.ref], depth + 1, seen + {v.ref}, Some(v.ref), parentPath + [v.name]);
            && adapter[v.ref] == graph[v.ref] && Limited(c, graph[v.ref]) == graph[v.ref]
            && kids.AllBuilt? && r.node.children == Opened(kids.nodes)
            && !r.node.truncated && !r.node.cycle
            && (forall i | 0 <= i < |kids.nodes| :: kids.nodes[i].complete == Some(true))
  {
    var kids := NodesOf(c, adapter, adapter[v.ref], depth + 1, seen + {v.ref}, Some(v.ref), parentPath + [v.name]);
    assert !ChildEvidence(kids.nodes).knownIncomplete && !ChildEvidence(kids.nodes).unknown;
  }

  /** Completeness is sound: from truthful counts, a node marked complete is the whole unfolding. */
  lemma {:induction false} CompleteIsSound(c: Config, adapter: Adapter, graph: Graph, v: DapVariable, depth: nat, seen: set<int>,
                                           parentRef: Option<int>, parentPath: seq<string>)
    requires Truthful(adapter, graph) && CountIsTrue(graph, v)
    requires var r := NodeOf(c, adapter, v, depth, seen, parentRef, parentPath);
             r.Built? && r.node.complete == Some(true)
    ensures IsFullUnfolding(c, graph, v, NodeOf(c, adapter, v, depth, seen, parentRef, parentPath).node, parentPath)
    decreases adapter.Keys - seen
  {
    if Opens(c, adapter, v, depth, seen) {
      CompleteMeansAllChildren(c, adapter, graph, v, depth, seen, parentRef, parentPath);
      var path, vs := parentPath + [v.name], graph[v.ref];
      assert v.ref in adapter.Keys - seen && v.ref !in adapter.Keys - (seen + {v.ref});
      var nodes := EachNode(c, adapter, vs, depth + 1, seen + {v.ref}, Some(v.ref), path).nodes;
      assert CountsAreTrue(graph, vs);
      forall i | 0 <= i < |vs|
        ensures nodes[i].parentRef == Some(v.ref) && IsFullUnfolding(c, graph, vs[i], nodes[i], path)
      {
        EachNodeAt(c, adapter, vs, depth + 1, seen + {v.ref}, Some(v.ref), path, i);
        CompleteIsSound(c, adapter, graph, vs[i], depth + 1, seen + {v.ref}, Some(v.ref), path);
        ParentIsKept(c, adapter, vs[i], depth + 1, seen + {v.ref}, Some(v.ref), path);
      }
    }
  }

  lemma ParentIsKept(c: Config, adapter: Adapter, v: DapVariable, depth: nat, seen: set<int>,
                     parentRef: Option<int>, parentPath: seq<string>)
    requires NodeOf(c, adapter, v, depth, seen, parentRef, parentPath).Built?
    ensures NodeOf(c, adapter, v, depth, seen, parentRef, parentPath).node.parentRef == parentRef
  {
  }

  // ------------------------------------------------------------ every node, complete or not

  /** The children of a variable are to be shown: it has a reference, is not redacted, and lies above the depth limit of a
      mode that unfolds. */
  predicate Unfolds(c: Config, v: DapVariable, depth: nat)
  {
    && v.ref > 0 && !c.redacts(v.name)
    && !c.objectFields.NoFields? && !c.objectFields.Preview?
    && (c.objectFields.Shallow? ==> depth < 1) && (c.objectFields.Deep? ==> depth < c.maxDepth)
  }

  /** The text of a value: as it is when short enough, otherwise its beginning and three dots. */
  predicate ShownText(text: string, value: string, limit: nat)
  {
    if |value| <= limit then text == value else text == value[..limit] + "..."
  }

  /** What a node says of its own variable. */
  predicate SaysOwn(c: Config, v: DapVariable, node: VariableNode, depth: nat, open: set<int>, parentRef: Option<int>, parentPath: seq<string>)
  {
    && node.name == v.name && node.path == parentPath + [v.name] && node.parentRef == parentRef
    && (node.redacted <==> c.redacts(v.name)) && (node.expandable <==> v.ref > 0)
    && (v.ref > 0 ==> node.ref == Some(v.ref)) && (v.ref <= 0 ==> node.ref == None)
    && (v.named.None? && v.indexed.None? ==> node.childrenCount == None)
    && (v.named.Some? && v.indexed.None? ==> node.childrenCount == v.named)
    && (v.named.None? && v.indexed.Some? ==> node.childrenCount == v.indexed)
    && (v.named.Some? && v.indexed.Some? ==> node.childrenCount == Some(v.named.value + v.indexed.value))
    && (node.cycle <==> Unfolds(c, v, depth) && v.ref in open)
    && (node.redacted ==> node.summary == "[REDACTED]" && node.raw == None)
    && (node.cycle ==> node.summary == "[Circular]" && node.raw == None)
    && (!node.redacted && !node.cycle ==> ShownText(node.summary, v.value, c.maxString))
    && (!node.redacted && v.ref <= 0 ==> node.raw.Some? && ShownText(node.raw.value, v.value, c.maxString))
    && (v.ref > 0 ==> node.raw == None)
  }

  /** The node stands for what has been left out of its list. */
  predicate StandsForRest(node: VariableNode, parentPath: seq<string>)
  {
    && node.name == "__truncated__" && node.path == parentPath + ["__truncated__"] && node.truncated
    && node.children.Unopened? && node.ref.None? && !node.expandable && node.complete == None
  }

  /** Why a node is marked truncated. */
  predicate CutShort(c: Config, adapter: Adapter, v: DapVariable, node: VariableNode, depth: nat, open: set<int>)
  {
    || (!c.redacts(v.name) && |v.value| > c.maxString)
    || (!c.redacts(v.name) && v.ref > 0 && (!Unfolds(c, v, depth) || v.ref in open))
    || (Unfolds(c, v, depth) && v.ref !in open && v.ref in adapter && node.children.Opened?
        && (|adapter[v.ref]| > c.maxItems
            || (node.childrenCount.Some? && |adapter[v.ref]| < node.childrenCount.value)
            || exists i :: 0 <= i < |node.children.nodes|
                           && (node.children.nodes[i].truncated || node.children.nodes[i].complete == Some(false))))
  }

  /** When a node is marked complete. */
  predicate Whole(c: Config, v: DapVariable, node: VariableNode, depth: nat, open: set<int>)
  {
    !node.truncated
    && (v.ref > 0 ==>
          && Unfolds(c, v, depth) && v.ref !in open && node.childrenCount.Some? && node.children.Opened?
          && forall i | 0 <= i < |node.children.nodes| :: node.children.nodes[i].complete == Some(true))
  }

  /** The node of a variable, as a tree: its children are opened exactly when they are to be shown and their reference is not
      open already; then there is one node for each of the first `maxItems` variables the adapter gave, in order, each
      again such a tree, and one more exactly when there are more variables. */
  predicate IsNodeOf(c: Config, adapter: Adapter, v: DapVariable, node: VariableNode, depth: nat, open: set<int>,
                     parentRef: Option<int>, parentPath: seq<string>)
    decreases node
  {
    && SaysOwn(c, v, node, depth, open, parentRef, parentPath)
    && (node.truncated <==> CutShort(c, adapter, v, node, depth, open))
    && (node.complete == Some(false) <==> node.truncated)
    && (node.complete == Some(true) <==> Whole(c, v, node, depth, open))
    && (if Unfolds(c, v, depth) && v.ref !in open then
          && v.ref in adapter && node.children.Opened?
          && |node.children.nodes| == (if |adapter[v.ref]| > c.maxItems then c.maxItems + 1 else |adapter[v.ref]|)
          && (forall i | 0 <= i < |adapter[v.ref]| && i < c.maxItems ::
                IsNodeOf(c, adapter, adapter[v.ref][i], node.children.nodes[i], depth + 1, open + {v.ref}, Some(v.ref), node.path))
          && (|adapter[v.ref]| > c.maxItems ==> StandsForRest(node.children.nodes[c.maxItems], node.path))
        else if c.redacts(v.name) || v.ref <= 0 || c.objectFields.NoFields? || c.objectFields.Preview? then node.children == Unopened
        else node.children == Opened([]))
  }

  lemma PlainLeafIsNodeOf(c: Config, adapter: Adapter, v: DapVariable, node: VariableNode, depth: nat, seen: set<int>,
                          parentRef: Option<int>, parentPath: seq<string>)
    requires (c.redacts(v.name) || v.ref <= 0) && node == BaseNode(c, v, parentRef, parentPath)
    ensures IsNodeOf(c, adapter, v, node, depth, seen, parentRef, parentPath)
  {
    assert SaysOwn(c, v, node, depth, seen, parentRef, parentPath);
  }

  lemma CutLeafIsNodeOf(c: Config, adapter: Adapter, v: DapVariable, node: VariableNode, depth: nat, seen: set<int>,
                        parentRef: Option<int>, parentPath: seq<string>)
    requires !c.redacts(v.name) && v.ref > 0 && !Unfolds(c, v, depth)
    requires node == Cut(BaseNode(c, v, parentRef, parentPath)).(
      children := if c.objectFields.NoFields? || c.objectFields.Preview? then Unopened else Opened([]))
    ensures IsNodeOf(c, adapter, v, node, depth, seen, parentRef, parentPath)
  {
    assert SaysOwn(c, v, node, depth, seen, parentRef, parentPath);
  }

  lemma CycleIsNodeOf(c: Config, adapter: Adapter, v: DapVariable, node: VariableNode, depth: nat, seen: set<int>,
                      parentRef: Option<int>, parentPath: seq<string>)
    requires Unfolds(c, v, depth) && v.ref in seen
    requires node == Cut(BaseNode(c, v, parentRef, parentPath)).(cycle := true, summary := "[Circular]", raw := None, children := Opened([]))
    ensures IsNodeOf(c, adapter, v, node, depth, seen, parentRef, parentPath)
  {
    assert SaysOwn(c, v, node, depth, seen, parentRef, parentPath);
  }

  /** What the marks of an opened node come to. */
  lemma MarksOfOpened(c: Config, adapter: Adapter, v: DapVariable, node: VariableNode, depth: nat, seen: set<int>, nodes: seq<VariableNode>,
                      parentRef: Option<int>, parentPath: seq<string>)
    requires Opens(c, adapter, v, depth, seen)
    requires node == WithCompleteness(BaseNode(c, v, parentRef, parentPath).(children := Opened(nodes)), |adapter[v.ref]|, c.maxItems,
                                      DeclaredChildren(v), ChildEvidence(nodes))
    ensures node.children == Opened(nodes) && node.path == parentPath + [v.name]
    ensures SaysOwn(c, v, node, depth, seen, parentRef, parentPath)
    ensures node.truncated <==> CutShort(c, adapter, v, node, depth, seen)
    ensures node.complete == Some(false) <==> node.truncated
    ensures node.complete == Some(true) <==> Whole(c, v, node, depth, seen)
  {
    var evidence := ChildEvidence(nodes);
    assert evidence.knownIncomplete <==> exists i :: 0 <= i < |nodes| && (nodes[i].truncated || nodes[i].complete == Some(false)) by {
      if i :| 0 <= i < |nodes| && KnownIncomplete(nodes[i]) {
        assert nodes[i].truncated || nodes[i].complete == Some(false);
      }
      if i :| 0 <= i < |nodes| && (nodes[i].truncated || nodes[i].complete == Some(false)) {
        assert KnownIncomplete(nodes[i]);
      }
    }
  }

  /** Every node that is built is the tree of its variable. */
  lemma {:induction false} EveryNodeIsItsTree(c: Config, adapter: Adapter, v: DapVariable, depth: nat, seen: set<int>,
                                              parentRef: Option<int>, parentPath: seq<string>)
    requires NodeOf(c, adapter, v, depth, seen, parentRef, parentPath).Built?
    ensures IsNodeOf(c, adapter, v, NodeOf(c, adapter, v, depth, seen, parentRef, parentPath).node, depth, seen, parentRef, parentPath)
    decreases adapter.Keys - seen
  {
    if Opens(c, adapter, v, depth, seen) {
      var path, vs := parentPath + [v.name], adapter[v.ref];
      assert v.ref in adapter.Keys - seen && v.ref !in adapter.Keys - (seen + {v.ref});
      var kids := EachNode(c, adapter, Limited(c, vs), depth + 1, seen + {v.ref}, Some(v.ref), path);
      var nodes := NodesOf(c, adapter, vs, depth + 1, seen + {v.ref}, Some(v.ref), path).nodes;
      forall i | 0 <= i < |vs| && i < c.maxItems
        ensures IsNodeOf(c, adapter, vs[i], nodes[i], depth + 1, seen + {v.ref}, Some(v.ref), path)
      {
        EachNodeAt(c, adapter, Limited(c, vs), depth + 1, seen + {v.ref}, Some(v.ref), path, i);
        EveryNodeIsItsTree(c, adapter, Limited(c, vs)[i], depth + 1, seen + {v.ref}, Some(v.ref), path);
      }
      var node := NodeOf(c, adapter, v, depth, seen, parentRef, parentPath).node;
      MarksOfOpened(c, adapter, v, node, depth, seen, nodes, parentRef, parentPath);
    } else {
      var node := NodeOf(c, adapter, v, depth, seen, parentRef, parentPath).node;
      if c.redacts(v.name) || v.ref <= 0 {
        PlainLeafIsNodeOf(c, adapter, v, node, depth, seen, parentRef, parentPath);
      } else if !Unfolds(c, v, depth) {
        CutLeafIsNodeOf(c, adapter, v, node, depth, seen, parentRef, parentPath);
      } else {
        CycleIsNodeOf(c, adapter, v, node, depth, seen, parentRef, parentPath);
      }
    }
  }

  /** Nothing is cut anywhere, and every reference that is shown declares how many children it has. */
  predicate UncutAndCounted(node: VariableNode)
    decreases node
  {
    && !node.truncated && (node.ref.Some? ==> !node.redacted && node.childrenCount.Some?)
    && (node.children.Opened? ==> forall i | 0 <= i < |node.children.nodes| :: UncutAndCounted(node.children.nodes[i]))
  }

  /** The converse of soundness: an unfolding with nothing cut and all counts declared is marked complete throughout. */
  lemma {:induction false} UncutIsComplete(c: Config, adapter: Adapter, v: DapVariable, node: VariableNode, depth: nat, open: set<int>,
                                           parentRef: Option<int>, parentPath: seq<string>)
    requires IsNodeOf(c, adapter, v, node, depth, open, parentRef, parentPath) && UncutAndCounted(node)
    ensures node.complete == Some(true)
    decreases node
  {
    if v.ref > 0 && Unfolds(c, v, depth) && v.ref !in open {
      var vs := adapter[v.ref];
      if |vs| <= c.maxItems {
        forall i | 0 <= i < |vs| ensures node.children.nodes[i].complete == Some(true) {
          UncutIsComplete(c, adapter, vs[i], node.children.nodes[i], depth + 1, open + {v.ref}, Some(v.ref), node.path);
        }
      }
    }
  }

  /** The adapter can answer for every reference that its own answers mention. */
  predicate Answers(adapter: Adapter, vs: seq<DapVariable>)
  {
    forall i | 0 <= i < |vs| :: vs[i].ref > 0 ==> vs[i].ref in adapter
  }

  predicate AnswersAll(adapter: Adapter)
  {
    forall ref | ref in adapter :: Answers(adapter, adapter[ref])
  }

  /** When it can, unfolding does not fail. */
  lemma {:induction false} BuiltWhenAnswered(c: Config, adapter: Adapter, v: DapVariable, depth: nat, seen: set<int>,
                                             parentRef: Option<int>, parentPath: seq<string>)
    requires AnswersAll(adapter) && (v.ref > 0 ==> v.ref in adapter)
    ensures NodeOf(c, adapter, v, depth, seen, parentRef, parentPath).Built?
    decreases adapter.Keys - seen, 0, 0
  {
    if Opens(c, adapter, v, depth, seen) {
      assert v.ref in adapter.Keys - seen && v.ref !in adapter.Keys - (seen + {v.ref});
      assert Answers(adapter, adapter[v.ref]);
      EachBuiltWhenAnswered(c, adapter, Limited(c, adapter[v.ref]), depth + 1, seen + {v.ref}, Some(v.ref), parentPath + [v.name]);
    }
  }

  lemma {:induction false} EachBuiltWhenAnswered(c: Config, adapter: Adapter, vs: seq<DapVariable>, depth: nat, seen: set<int>,
                                                 parentRef: Option<int>, parentPath: seq<string>)
    requires AnswersAll(adapter) && Answers(adapter, vs)
    ensures EachNode(c, adapter, vs, depth, seen, parentRef, parentPath).AllBuilt?
    decreases adapter.Keys - seen, 1, |vs|
  {
    if vs != [] {
      BuiltWhenAnswered(c, adapter, vs[0], depth, seen, parentRef, parentPath);
      assert forall i | 0 <= i < |vs[1..]| :: vs[1..][i] == vs[i + 1];
      EachBuiltWhenAnswered(c, adapter, vs[1..], depth, seen, parentRef, parentPath);
    }
  }

  // --------------------------------------------------------------- the serializer

  /** `seen` is the set handed down the recursion and written in place. */
  class VariableSerializer {
    const config: Config
    const adapter: Adapter
    var seen: set<int>

    constructor (config: Config, adapter: Adapter)
      ensures this.config == config && this.adapter == adapter && seen == {}
    {
      this.config, this.adapter, seen := config, adapter, {};
    }

    /** Early exit on the first child known to be incomplete; otherwise remember whether one is unknown. */
    method CollectEvidence(children: seq<VariableNode>) returns (evidence: Evidence)
      ensures evidence == ChildEvidence(children)
    {
      var unknown := false;
      var i := 0;
      while i < |children|
        invariant i <= |children|
        invariant forall j | 0 <= j < i :: !KnownIncomplete(children[j])
        invariant unknown <==> exists j | 0 <= j < i :: children[j].complete != Some(true)
      {
        if KnownIncomplete(children[i]) {
          return Evidence(true, false);
        }
        if children[i].complete != Some(true) {
          unknown := true;
        }
        i := i + 1;
      }
      evidence := Evidence(false, unknown);
    }

    method SerializeVariableNodes(vs: seq<DapVariable>, depth: nat, parentRef: Option<int>, parentPath: seq<string>)
      returns (r: Option<seq<VariableNode>>)
      modifies this
      ensures var spec := NodesOf(config, adapter, vs, depth, old(seen), parentRef, parentPath);
              && seen == spec.seen && (r.Some? <==> spec.AllBuilt?) && (r.Some? ==> r.value == spec.nodes)
      decreases adapter.Keys - seen, 2, 0
    {
      var limited := if |vs| > config.maxItems then vs[..config.maxItems] else vs;
      var nodes := [];
      var i := 0;
      ghost var spec := EachNode(config, adapter, limited, depth, seen, parentRef, parentPath);
      NodesBegin(spec);
      assert limited[0..] == limited;
      while i < |limited|
        invariant i <= |limited| && seen == old(seen)
        invariant spec == Prepend(nodes, EachNode(config, adapter, limited[i..], depth, seen, parentRef, parentPath))
      {
        EachNodeUnfolds(config, adapter, limited, i, depth, seen, parentRef, parentPath, nodes);
        var node := SerializeVariableNode(limited[i], depth, parentRef, parentPath);
        if node.None? {
          return None;
        }
        nodes := nodes + [node.value];
        i := i + 1;
      }
      NodesEnd(nodes, seen);
      assert limited[i..] == [];
      if |vs| > |limited| {
        nodes := nodes + [Sentinel(parentPath)];
      }
      return Some(nodes);
    }

    method SerializeVariableNode(v: DapVariable, depth: nat, parentRef: Option<int>, parentPath: seq<string>)
      returns (r: Option<VariableNode>)
      modifies this
      ensures var spec := NodeOf(config, adapter, v, depth, old(seen), parentRef, parentPath);
              && seen == spec.seen && (r.Some? <==> spec.Built?) && (r.Some? ==> r.value == spec.node)
      decreases adapter.Keys - seen, 0, 0
    {
      var node := BaseNode(config, v, parentRef, parentPath);
      if node.redacted || v.ref <= 0 {
        return Some(node);
      }
      if config.objectFields.NoFields? || config.objectFields.Preview? {
        return Some(Cut(node));
      }
      if depth >= DepthLimit(config) {
        return Some(Cut(node).(children := Opened([])));
      }
      if v.ref in seen {
        return Some(Cut(node).(cycle := true, summary := "[Circular]", raw := None, children := Opened([])));
      }
      seen := seen + {v.ref};
      if v.ref !in adapter {
        return None;
      }
      assert v.ref in adapter.Keys - old(seen) && v.ref !in adapter.Keys - seen;
      var children := SerializeVariableNodes(adapter[v.ref], depth + 1, Some(v.ref), node.path);
      if children.None? {
        return None;
      }
      var evidence := CollectEvidence(children.value);
      node := WithCompleteness(node.(children := Opened(children.value)), |adapter[v.ref]|, config.maxItems, DeclaredChildren(v), evidence);
      seen := seen - {v.ref};
      return Some(node);
    }
  }

  function Prepend(nodes: seq<VariableNode>, rest: NodesOutcome): (r: NodesOutcome)
  {
    if rest.AllBuilt? then AllBuilt(nodes + rest.nodes, rest.seen) else rest
  }

  lemma NodesBegin(outcome: NodesOutcome)
    ensures outcome == Prepend([], outcome)
  {
  }

  lemma NodesEnd(nodes: seq<VariableNode>, seen: set<int>)
    ensures Prepend(nodes, AllBuilt([], seen)) == AllBuilt(nodes, seen)
  {
    assert nodes + [] == nodes;
  }

  lemma EachNodeUnfolds(c: Config, adapter: Adapter, vs: seq<DapVariable>, i: nat, depth: nat, seen: set<int>,
                        parentRef: Option<int>, parentPath: seq<string>, nodes: seq<VariableNode>)
    requires i < |vs|
    ensures var first := NodeOf(c, adapter, vs[i], depth, seen, parentRef, parentPath);
            var now := Prepend(nodes, EachNode(c, adapter, vs[i..], depth, seen, parentRef, parentPath));
            && (first.Failed? ==> now == AllFailed(first.seen))
            && (first.Built? ==> now == Prepend(nodes + [first.node], EachNode(c, adapter, vs[i + 1..], depth, seen, parentRef, parentPath)))
  {
    assert vs[i..][1..] == vs[i + 1..];
    var first := NodeOf(c, adapter, vs[i], depth, seen, parentRef, parentPath);
    var rest := EachNode(c, adapter, vs[i + 1..], depth, seen, parentRef, parentPath);
    if first.Built? && rest.AllBuilt? {
      assert nodes + ([first.node] + rest.nodes) == (nodes + [first.node]) + rest.nodes;
    }
  }
}

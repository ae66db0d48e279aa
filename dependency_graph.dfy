/** src/components/DependencyGraph.tsx: the prerequisite graph of the subjects, split
    into completed, ready ("safe") and locked ("risky") nodes from the completion
    status, which is keyed here by subject name. Only hard parents block a node. */
module DependencyGraph {
  import opened Common
  import opened Model
  import opened Storage

  /** One node of the graph: its hard parents, its weak parents and its position. */
  datatype NodeDef = NodeDef(id: Subject, parents: seq<Subject>, weakParents: seq<Subject>, x: int, y: int)

  /** `DAG_NODES`, in declaration order. */
  const DagNodes: seq<NodeDef> := [
    NodeDef(EM, [], [], 150, 80),
    NodeDef(DM, [], [], 380, 80),
    NodeDef(DS, [], [], 620, 80),
    NodeDef(DLD, [], [], 850, 80),
    NodeDef(TOC, [DM], [], 250, 250),
    NodeDef(ALGO, [DM, DS], [], 500, 250),
    NodeDef(COA, [DLD], [], 850, 250),
    NodeDef(DBMS, [], [DS], 700, 400),
    NodeDef(CD, [TOC, DS], [], 300, 450),
    NodeDef(OS, [DS, COA], [], 850, 450),
    NodeDef(CN, [OS], [EM], 600, 600)
  ]

  /** `currentStatus[s]?.completed`. */
  predicate Done(status: Status, s: Subject) {
    IsCompleted(status, Name(s))
  }

  /** The hard parents not yet completed, in declaration order
      (`node.parents.filter(p => !currentStatus[p]?.completed)`). */
  function Missing(n: NodeDef, status: Status): seq<Subject> {
    MissingOf(n.parents, status)
  }

  function MissingOf(ps: seq<Subject>, status: Status): seq<Subject>
    decreases |ps|
  {
    if ps == [] then [] else (if Done(status, ps[0]) then [] else [ps[0]]) + MissingOf(ps[1..], status)
  }

  /** The missing parents are exactly the hard parents not completed. */
  lemma {:induction false} MissingOfSpec(ps: seq<Subject>, status: Status)
    ensures forall p :: p in MissingOf(ps, status) <==> p in ps && !Done(status, p)
    decreases |ps|
  {
    if ps != [] {
      MissingOfSpec(ps[1..], status);
      assert forall p :: p in ps <==> p == ps[0] || p in ps[1..];
    }
  }

  /** Where one node goes. */
  datatype Verdict = DoneNode | SafeNode | RiskyNode(missing: seq<Subject>)

  /** `analyzeDAG`'s test for one node. */
  function Classify(n: NodeDef, status: Status): Verdict {
    if Done(status, n.id) then DoneNode
    else
      var m := Missing(n, status);
      if |m| == 0 then SafeNode else RiskyNode(m)
  }

  /** A completed node is done; otherwise it is safe exactly when every hard parent is
      completed, and risky with a non-empty list of missing parents when not. */
  lemma ClassifySpec(n: NodeDef, status: Status)
    ensures Classify(n, status).DoneNode? <==> Done(status, n.id)
    ensures Classify(n, status).SafeNode? <==> !Done(status, n.id) && forall p :: p in n.parents ==> Done(status, p)
    ensures Classify(n, status).RiskyNode? ==>
      Classify(n, status).missing == Missing(n, status) && Classify(n, status).missing != [] &&
      forall p :: p in Classify(n, status).missing <==> p in n.parents && !Done(status, p)
  {
    var m := Missing(n, status);
    MissingOfSpec(n.parents, status);
    if m != [] {
      assert m[0] in n.parents && !Done(status, m[0]);
    }
  }

  /** The ids of a list of nodes. */
  function Ids(nodes: seq<NodeDef>): (r: seq<Subject>)
    ensures |r| == |nodes| && forall i :: 0 <= i < |nodes| ==> r[i] == nodes[i].id
  {
    if nodes == [] then [] else Ids(nodes[..|nodes| - 1]) + [nodes[|nodes| - 1].id]
  }

  /** The two classes whose list holds bare ids. */
  datatype IdClass = DoneClass | SafeClass

  predicate InClass(v: Verdict, c: IdClass) {
    match c
    case DoneClass => v.DoneNode?
    case SafeClass => v.SafeNode?
  }

  /** The ids of the nodes of class `c`, in graph order. */
  function Kept(nodes: seq<NodeDef>, status: Status, c: IdClass): seq<Subject>
    decreases |nodes|
  {
    if nodes == [] then []
    else
      var last := nodes[|nodes| - 1];
      Kept(nodes[..|nodes| - 1], status, c) + (if InClass(Classify(last, status), c) then [last.id] else [])
  }

  /** A node that `analyzeDAG` reports as risky, with its missing hard parents. */
  datatype Risky = Risky(id: Subject, missing: seq<Subject>)

  /** The risky nodes with their missing parents, in graph order. */
  function RiskyKept(nodes: seq<NodeDef>, status: Status): seq<Risky>
    decreases |nodes|
  {
    if nodes == [] then []
    else
      var last := nodes[|nodes| - 1];
      RiskyKept(nodes[..|nodes| - 1], status) +
        (if Classify(last, status).RiskyNode? then [Risky(last.id, Missing(last, status))] else [])
  }

  /** The reference lists of the three classes. */
  function DoneList(nodes: seq<NodeDef>, status: Status): seq<Subject> {
    Kept(nodes, status, DoneClass)
  }

  function SafeList(nodes: seq<NodeDef>, status: Status): seq<Subject> {
    Kept(nodes, status, SafeClass)
  }

  function RiskyList(nodes: seq<NodeDef>, status: Status): seq<Risky> {
    RiskyKept(nodes, status)
  }

  /** One more node adds its id to exactly the list of its class. */
  lemma ListsStep(prefix: seq<NodeDef>, n: NodeDef, status: Status)
    ensures DoneList(prefix + [n], status) == DoneList(prefix, status) + (if Classify(n, status).DoneNode? then [n.id] else [])
    ensures SafeList(prefix + [n], status) == SafeList(prefix, status) + (if Classify(n, status).SafeNode? then [n.id] else [])
    ensures RiskyList(prefix + [n], status) ==
      RiskyList(prefix, status) + (if Classify(n, status).RiskyNode? then [Risky(n.id, Missing(n, status))] else [])
  {
    assert (prefix + [n])[..|prefix|] == prefix;
  }

  /** `ListsStep` for the prefixes of one list. */
  lemma ListsAt(nodes: seq<NodeDef>, i: nat, status: Status)
    requires i < |nodes|
    ensures DoneList(nodes[..i + 1], status) == DoneList(nodes[..i], status) + (if Classify(nodes[i], status).DoneNode? then [nodes[i].id] else [])
    ensures SafeList(nodes[..i + 1], status) == SafeList(nodes[..i], status) + (if Classify(nodes[i], status).SafeNode? then [nodes[i].id] else [])
    ensures RiskyList(nodes[..i + 1], status) ==
      RiskyList(nodes[..i], status) + (if Classify(nodes[i], status).RiskyNode? then [Risky(nodes[i].id, Missing(nodes[i], status))] else [])
  {
    TakeOneMore(nodes, i);
    ListsStep(nodes[..i], nodes[i], status);
  }

  /** `analyzeDAG`: one pass over the nodes, pushing each id onto the list of its class. */
  method AnalyzeDag(nodes: seq<NodeDef>, status: Status) returns (safe: seq<Subject>, risky: seq<Risky>, done: seq<Subject>)
    ensures safe == SafeList(nodes, status) && risky == RiskyList(nodes, status) && done == DoneList(nodes, status)
  {
    safe, risky, done := [], [], [];
    var i := 0;
    while i < |nodes|
      invariant 0 <= i <= |nodes|
      invariant safe == SafeList(nodes[..i], status)
      invariant risky == RiskyList(nodes[..i], status)
      invariant done == DoneList(nodes[..i], status)
    {
      var node := nodes[i];
      ListsAt(nodes, i, status);
      if Done(status, node.id) {
        assert Classify(node, status) == DoneNode;
        done := done + [node.id];
      } else {
        var missingParents := Missing(node, status);
        if |missingParents| == 0 {
          assert Classify(node, status) == SafeNode;
          safe := safe + [node.id];
        } else {
          assert Classify(node, status) == RiskyNode(missingParents);
          risky := risky + [Risky(node.id, missingParents)];
        }
      }
      i := i + 1;
    }
    assert nodes[..i] == nodes;
  }

  // ---------------------------------------------------------------------------
  // Properties of the classification
  // ---------------------------------------------------------------------------

  /** The lists keep graph order: the list of a concatenation is the concatenation of
      the lists. */
  lemma {:induction false} KeptConcat(a: seq<NodeDef>, b: seq<NodeDef>, status: Status, c: IdClass)
    ensures Kept(a + b, status, c) == Kept(a, status, c) + Kept(b, status, c)
    decreases |b|
  {
    if b == [] {
      assert a + b == a;
    } else {
      var m := |b| - 1;
      assert (a + b)[..|a + b| - 1] == a + b[..m];
      KeptConcat(a, b[..m], status, c);
    }
  }

  function RiskyIds(r: seq<Risky>): (ids: seq<Subject>)
    ensures |ids| == |r| && forall i :: 0 <= i < |r| ==> ids[i] == r[i].id
  {
    if r == [] then [] else RiskyIds(r[..|r| - 1]) + [r[|r| - 1].id]
  }

  lemma RiskyIdsAppend(a: seq<Risky>, b: seq<Risky>)
    requires |b| <= 1
    ensures RiskyIds(a + b) == RiskyIds(a) + RiskyIds(b)
  {
    if |b| == 1 {
      assert (a + b)[..|a + b| - 1] == a;
    } else {
      assert a + b == a;
    }
  }

  /** Every node lands in exactly one of the three lists: together they hold each id of
      the graph as often as the graph does. */
  lemma {:induction false} AnalysisPartitions(nodes: seq<NodeDef>, status: Status)
    ensures multiset(DoneList(nodes, status)) + multiset(SafeList(nodes, status)) + multiset(RiskyIds(RiskyList(nodes, status)))
      == multiset(Ids(nodes))
    decreases |nodes|
  {
    if nodes != [] {
      var last := |nodes| - 1;
      var prefix := nodes[..last];
      var n := nodes[last];
      assert nodes == prefix + [n];
      AnalysisPartitions(prefix, status);
      PartitionStep(prefix, n, status);
      assert Ids(nodes) == Ids(prefix) + [n.id];
    }
  }

  /** The three lists of one more node hold its id once more, together. */
  lemma PartitionStep(prefix: seq<NodeDef>, n: NodeDef, status: Status)
    ensures multiset(DoneList(prefix + [n], status)) + multiset(SafeList(prefix + [n], status)) +
      multiset(RiskyIds(RiskyList(prefix + [n], status))) ==
      multiset(DoneList(prefix, status)) + multiset(SafeList(prefix, status)) +
      multiset(RiskyIds(RiskyList(prefix, status))) + multiset{n.id}
  {
    ListsStep(prefix, n, status);
    var r, r' := RiskyList(prefix, status), RiskyList(prefix + [n], status);
    var v := Classify(n, status);
    if v.RiskyNode? {
      RiskyIdsAppend(r, [Risky(n.id, Missing(n, status))]);
    } else {
      assert r' == r;
    }
    AddToOne(DoneList(prefix, status), SafeList(prefix, status), RiskyIds(r),
             DoneList(prefix + [n], status), SafeList(prefix + [n], status), RiskyIds(r'), n.id);
  }

  /** Adding `x` to exactly one of three lists adds it once to their union. */
  lemma AddToOne(d: seq<Subject>, sf: seq<Subject>, r: seq<Subject>, d': seq<Subject>, sf': seq<Subject>, r': seq<Subject>, x: Subject)
    requires (d' == d + [x] && sf' == sf && r' == r) || (d' == d && sf' == sf + [x] && r' == r) ||
             (d' == d && sf' == sf && r' == r + [x])
    ensures multiset(d') + multiset(sf') + multiset(r') == multiset(d) + multiset(sf) + multiset(r) + multiset{x}
  {
  }

  /** Ids are unique in a graph. */
  predicate UniqueIds(nodes: seq<NodeDef>) {
    forall i, j :: 0 <= i < j < |nodes| ==> nodes[i].id != nodes[j].id
  }

  /** Every id a list holds is the id of a node. */
  lemma {:induction false} KeptIds(nodes: seq<NodeDef>, status: Status, c: IdClass, x: Subject)
    ensures x in Kept(nodes, status, c) ==> x in Ids(nodes)
    decreases |nodes|
  {
    if nodes != [] {
      var init := nodes[..|nodes| - 1];
      KeptIds(init, status, c, x);
      assert Ids(nodes) == Ids(init) + [nodes[|nodes| - 1].id];
    }
  }

  /** In a graph with unique ids, a node's id is in the list of a class exactly when the
      node is of that class. */
  lemma {:induction false} InKept(nodes: seq<NodeDef>, k: nat, status: Status, c: IdClass)
    requires UniqueIds(nodes) && k < |nodes|
    ensures nodes[k].id in Kept(nodes, status, c) <==> InClass(Classify(nodes[k], status), c)
    decreases |nodes|
  {
    var m := |nodes| - 1;
    var init := nodes[..m];
    UniqueInit(nodes);
    if k == m {
      KeptIds(init, status, c, nodes[k].id);
    } else {
      InKept(init, k, status, c);
      assert init[k] == nodes[k];
      KeptStep(nodes, k, status, c);
    }
  }

  /** The step of `InKept` for a node before the last. */
  lemma KeptStep(nodes: seq<NodeDef>, k: nat, status: Status, c: IdClass)
    requires UniqueIds(nodes) && k < |nodes| - 1
    requires nodes[k].id in Kept(nodes[..|nodes| - 1], status, c) <==> InClass(Classify(nodes[k], status), c)
    ensures nodes[k].id in Kept(nodes, status, c) <==> InClass(Classify(nodes[k], status), c)
  {
    assert nodes[k].id != nodes[|nodes| - 1].id;
  }

  /** Every risky entry comes from a risky node. */
  lemma {:induction false} RiskyFrom(nodes: seq<NodeDef>, status: Status, e: Risky)
    requires e in RiskyKept(nodes, status)
    ensures exists j :: (0 <= j < |nodes| && nodes[j].id == e.id && Classify(nodes[j], status).RiskyNode? &&
                         e.missing == Missing(nodes[j], status))
    decreases |nodes|
  {
    var m := |nodes| - 1;
    if e in RiskyKept(nodes[..m], status) {
      RiskyFrom(nodes[..m], status, e);
      var j :| 0 <= j < m && nodes[..m][j].id == e.id && Classify(nodes[..m][j], status).RiskyNode? &&
        e.missing == Missing(nodes[..m][j], status);
      assert nodes[j] == nodes[..m][j];
    } else {
      assert e == Risky(nodes[m].id, Missing(nodes[m], status));
    }
  }

  /** In a graph with unique ids, a node has its entry in the risky list exactly when it
      is risky. */
  lemma {:induction false} InRiskyKept(nodes: seq<NodeDef>, status: Status, k: nat)
    requires UniqueIds(nodes) && k < |nodes|
    ensures Risky(nodes[k].id, Missing(nodes[k], status)) in RiskyKept(nodes, status) <==> Classify(nodes[k], status).RiskyNode?
    decreases |nodes|
  {
    var m := |nodes| - 1;
    UniqueInit(nodes);
    if k == m {
      RiskyLast(nodes, status);
    } else {
      InRiskyKept(nodes[..m], status, k);
      assert nodes[..m][k] == nodes[k];
      RiskyStep(nodes, status, k);
    }
  }

  /** The case of `InRiskyKept` for the last node. */
  lemma RiskyLast(nodes: seq<NodeDef>, status: Status)
    requires nodes != [] && nodes[|nodes| - 1].id !in Ids(nodes[..|nodes| - 1])
    ensures var n := nodes[|nodes| - 1];
      Risky(n.id, Missing(n, status)) in RiskyKept(nodes, status) <==> Classify(n, status).RiskyNode?
  {
    var n := nodes[|nodes| - 1];
    var e := Risky(n.id, Missing(n, status));
    RiskyKeptIds(nodes[..|nodes| - 1], status, e);
    RiskyKeptLast(nodes, status, e);
  }

  /** The step of `InRiskyKept` for a node before the last. */
  lemma RiskyStep(nodes: seq<NodeDef>, status: Status, k: nat)
    requires UniqueIds(nodes) && k < |nodes| - 1
    requires Risky(nodes[k].id, Missing(nodes[k], status)) in RiskyKept(nodes[..|nodes| - 1], status) <==>
      Classify(nodes[k], status).RiskyNode?
    ensures Risky(nodes[k].id, Missing(nodes[k], status)) in RiskyKept(nodes, status) <==> Classify(nodes[k], status).RiskyNode?
  {
    RiskyKeptLast(nodes, status, Risky(nodes[k].id, Missing(nodes[k], status)));
    assert nodes[k].id != nodes[|nodes| - 1].id;
  }

  /** All nodes but the last still have unique ids, none of them the last one's. */
  lemma UniqueInit(nodes: seq<NodeDef>)
    requires UniqueIds(nodes) && nodes != []
    ensures UniqueIds(nodes[..|nodes| - 1])
    ensures nodes[|nodes| - 1].id !in Ids(nodes[..|nodes| - 1])
  {
    var init := nodes[..|nodes| - 1];
    assert forall j :: 0 <= j < |init| ==> Ids(init)[j] == nodes[j].id;
  }

  /** Every risky entry bears the id of a node. */
  lemma {:induction false} RiskyKeptIds(nodes: seq<NodeDef>, status: Status, e: Risky)
    ensures e in RiskyKept(nodes, status) ==> e.id in Ids(nodes)
    decreases |nodes|
  {
    if nodes != [] {
      var init := nodes[..|nodes| - 1];
      RiskyKeptIds(init, status, e);
      RiskyKeptLast(nodes, status, e);
      assert Ids(nodes) == Ids(init) + [nodes[|nodes| - 1].id];
    }
  }

  /** The risky list of a graph is that of all nodes but the last, plus the last when it
      is risky. */
  lemma RiskyKeptLast(nodes: seq<NodeDef>, status: Status, e: Risky)
    requires nodes != []
    ensures e in RiskyKept(nodes, status) <==>
      e in RiskyKept(nodes[..|nodes| - 1], status) ||
      (Classify(nodes[|nodes| - 1], status).RiskyNode? && e == Risky(nodes[|nodes| - 1].id, Missing(nodes[|nodes| - 1], status)))
  {
  }

  /** The classification of node `k`, read off the three lists: done iff completed,
      safe iff not completed with all hard parents completed, risky otherwise with its
      missing parents. */
  lemma Classification(nodes: seq<NodeDef>, status: Status, k: nat)
    requires UniqueIds(nodes) && k < |nodes|
    ensures nodes[k].id in DoneList(nodes, status) <==> Done(status, nodes[k].id)
    ensures nodes[k].id in SafeList(nodes, status) <==>
      !Done(status, nodes[k].id) && forall p :: p in nodes[k].parents ==> Done(status, p)
    ensures Risky(nodes[k].id, Missing(nodes[k], status)) in RiskyList(nodes, status) <==>
      !Done(status, nodes[k].id) && exists p :: p in nodes[k].parents && !Done(status, p)
  {
    InKept(nodes, k, status, DoneClass);
    InKept(nodes, k, status, SafeClass);
    InRiskyKept(nodes, status, k);
    ClassifySpec(nodes[k], status);
    var v := Classify(nodes[k], status);
    if v.RiskyNode? {
      assert v.missing[0] in nodes[k].parents && !Done(status, v.missing[0]);
    }
  }

  /** Every risky entry names a node that is not completed, and its missing parents are
      a non-empty list of its uncompleted hard parents. */
  lemma RiskyEntries(nodes: seq<NodeDef>, status: Status, e: Risky)
    requires e in RiskyList(nodes, status)
    ensures !Done(status, e.id) && e.missing != []
    ensures exists n :: n in nodes && n.id == e.id && e.missing == Missing(n, status)
  {
    RiskyFrom(nodes, status, e);
    var j :| 0 <= j < |nodes| && nodes[j].id == e.id && Classify(nodes[j], status).RiskyNode? &&
      e.missing == Missing(nodes[j], status);
    ClassifySpec(nodes[j], status);
  }

  /** A node without hard parents is never risky. */
  lemma RootsNeverRisky(nodes: seq<NodeDef>, status: Status, e: Risky)
    requires e in RiskyList(nodes, status)
    ensures forall n :: n in nodes && n.id == e.id && e.missing == Missing(n, status) ==> n.parents != []
  {
    RiskyEntries(nodes, status, e);
  }

  /** Weak parents never matter: graphs that agree on ids and hard parents are analysed
      alike, whatever their weak parents and positions. */
  lemma {:induction false} WeakParentsIgnored(nodes: seq<NodeDef>, other: seq<NodeDef>, status: Status)
    requires |nodes| == |other|
    requires forall i :: 0 <= i < |nodes| ==> nodes[i].id == other[i].id && nodes[i].parents == other[i].parents
    ensures DoneList(nodes, status) == DoneList(other, status)
    ensures SafeList(nodes, status) == SafeList(other, status)
    ensures RiskyList(nodes, status) == RiskyList(other, status)
  {
    if nodes != [] {
      var last := |nodes| - 1;
      assert nodes == nodes[..last] + [nodes[last]];
      assert other == other[..last] + [other[last]];
      WeakParentsIgnored(nodes[..last], other[..last], status);
      ListsStep(nodes[..last], nodes[last], status);
      ListsStep(other[..last], other[last], status);
      assert Missing(nodes[last], status) == Missing(other[last], status);
    }
  }

  // ---------------------------------------------------------------------------
  // Node state and highlighting
  // ---------------------------------------------------------------------------

  datatype NodeState = CompletedState | ReadyState | LockedState

  /** `getNodeState`: COMPLETED if completed, else READY if listed as safe, else LOCKED. */
  function GetNodeState(status: Status, safeNodes: seq<Subject>, id: Subject): NodeState {
    if Done(status, id) then CompletedState
    else if id in safeNodes then ReadyState
    else LockedState
  }

  /** Computed from the same status as the analysis, the state of a node is its class. */
  lemma NodeStateAgrees(nodes: seq<NodeDef>, status: Status, k: nat)
    requires UniqueIds(nodes) && k < |nodes|
    ensures var st := GetNodeState(status, SafeList(nodes, status), nodes[k].id);
      match Classify(nodes[k], status)
      case DoneNode => st == CompletedState
      case SafeNode => st == ReadyState
      case RiskyNode(_) => st == LockedState
  {
    Classification(nodes, status, k);
    ClassifySpec(nodes[k], status);
  }

  /** A hard or weak edge from `a` into `b`. */
  predicate Joined(nodes: seq<NodeDef>, a: Subject, b: Subject) {
    exists i :: 0 <= i < |nodes| && nodes[i].id == b && (a in nodes[i].parents || a in nodes[i].weakParents)
  }

  /** `n => n.id === id`. */
  function HasId(id: Subject): NodeDef -> bool {
    (n: NodeDef) => n.id == id
  }

  /** `n => n.id === nodeId && (n.parents.includes(h) || n.weakParents.includes(h))`. */
  function ChildOf(nodeId: Subject, h: Subject): NodeDef -> bool {
    (n: NodeDef) => n.id == nodeId && (h in n.parents || h in n.weakParents)
  }

  /** The hovered node `h` names `nodeId` among its parents. */
  predicate ParentOfHovered(nodes: seq<NodeDef>, h: Subject, nodeId: Subject) {
    var node := FindFirst(nodes, HasId(h));
    node.Some? && (nodeId in nodes[node.value].parents || nodeId in nodes[node.value].weakParents)
  }

  /** `isHighlighted(nodeId)` for the hovered node `hovered`. */
  function IsHighlighted(nodes: seq<NodeDef>, hovered: Option<Subject>, nodeId: Subject): bool {
    if hovered.None? then false
    else if hovered.value == nodeId then true
    else if ParentOfHovered(nodes, hovered.value, nodeId) then true
    else FindFirst(nodes, ChildOf(nodeId, hovered.value)).Some?
  }

  /** Nothing is highlighted without a hovered node; otherwise a node is highlighted
      exactly when it is the hovered one or joined to it by an edge either way. */
  lemma HighlightedExactly(nodes: seq<NodeDef>, hovered: Option<Subject>, nodeId: Subject)
    requires UniqueIds(nodes)
    ensures IsHighlighted(nodes, hovered, nodeId) <==>
      hovered.Some? && (hovered.value == nodeId || Joined(nodes, nodeId, hovered.value) || Joined(nodes, hovered.value, nodeId))
  {
    if hovered.Some? && hovered.value != nodeId {
      ParentFound(nodes, hovered.value, nodeId);
      ChildFound(nodes, hovered.value, nodeId);
    }
  }

  /** With unique ids, the parent test holds exactly when there is an edge from `nodeId`
      into the hovered node. */
  lemma ParentFound(nodes: seq<NodeDef>, h: Subject, nodeId: Subject)
    requires UniqueIds(nodes)
    ensures ParentOfHovered(nodes, h, nodeId) <==> Joined(nodes, nodeId, h)
  {
    var node := FindFirst(nodes, HasId(h));
    if Joined(nodes, nodeId, h) {
      var i :| 0 <= i < |nodes| && nodes[i].id == h && (nodeId in nodes[i].parents || nodeId in nodes[i].weakParents);
      assert HasId(h)(nodes[i]);
      assert node.value == i;
    }
    if node.Some? {
      assert HasId(h)(nodes[node.value]);
    }
  }

  /** The child test holds exactly when there is an edge from the hovered node into
      `nodeId`. */
  lemma ChildFound(nodes: seq<NodeDef>, h: Subject, nodeId: Subject)
    ensures FindFirst(nodes, ChildOf(nodeId, h)).Some? <==> Joined(nodes, h, nodeId)
  {
    var child := FindFirst(nodes, ChildOf(nodeId, h));
    if Joined(nodes, h, nodeId) {
      var i :| 0 <= i < |nodes| && nodes[i].id == nodeId && (h in nodes[i].parents || h in nodes[i].weakParents);
      assert ChildOf(nodeId, h)(nodes[i]);
    }
    if child.Some? {
      assert ChildOf(nodeId, h)(nodes[child.value]);
    }
  }

  // ---------------------------------------------------------------------------
  // The graph data
  // ---------------------------------------------------------------------------

  /** Every hard parent comes earlier in the list than its child. */
  predicate ParentsFirst(nodes: seq<NodeDef>) {
    forall k, p :: 0 <= k < |nodes| && p in nodes[k].parents ==> p in Ids(nodes[..k])
  }

  /** Every hard or weak parent names a node of the graph. */
  predicate Closed(nodes: seq<NodeDef>) {
    forall k, p :: 0 <= k < |nodes| && (p in nodes[k].parents || p in nodes[k].weakParents) ==> p in Ids(nodes)
  }

  /** The position of each subject in `DAG_NODES`; the one subject outside the graph
      comes after all of them. */
  function Rank(s: Subject): nat {
    match s
    case EM => 0 case DM => 1 case DS => 2 case DLD => 3 case TOC => 4 case ALGO => 5
    case COA => 6 case DBMS => 7 case CD => 8 case OS => 9 case CN => 10 case GA => 11
  }

  /** Every subject named in `ps` lies at a position before `k`. */
  predicate RankedBefore(ps: seq<Subject>, k: nat) {
    forall p :: p in ps ==> Rank(p) < k
  }

  lemma DagNodesRanked()
    ensures |DagNodes| == 11
    ensures forall k :: 0 <= k < 11 ==> Rank(DagNodes[k].id) == k
    ensures forall k :: 0 <= k < 11 ==> RankedBefore(DagNodes[k].parents, k) && RankedBefore(DagNodes[k].weakParents, 11)
  {
  }

  /** `DAG_NODES` has unique ids, names only its own nodes and lists every hard parent
      before its children. */
  lemma DagNodesWellFormed()
    ensures UniqueIds(DagNodes) && Closed(DagNodes) && ParentsFirst(DagNodes)
  {
    DagNodesRanked();
    DagNodesClosed();
    DagParentsFirst();
  }

  lemma DagNodesClosed()
    ensures Closed(DagNodes)
  {
    DagNodesRanked();
    var ids := Ids(DagNodes);
    forall k, p | 0 <= k < |DagNodes| && (p in DagNodes[k].parents || p in DagNodes[k].weakParents)
      ensures p in ids
    {
      var r := Rank(p);
      assert r < 11;
      RankDetermines(p, DagNodes[r].id);
      assert ids[r] == p;
    }
  }

  lemma DagParentsFirst()
    ensures ParentsFirst(DagNodes)
  {
    DagNodesRanked();
    forall k, p | 0 <= k < |DagNodes| && p in DagNodes[k].parents
      ensures p in Ids(DagNodes[..k])
    {
      var r := Rank(p);
      assert r < k;
      RankDetermines(p, DagNodes[r].id);
      assert Ids(DagNodes[..k])[r] == p;
    }
  }

  lemma RankDetermines(a: Subject, b: Subject)
    requires Rank(a) == Rank(b)
    ensures a == b
  {
  }

  /** A hard edge from `a` into `b`. */
  predicate HardEdge(nodes: seq<NodeDef>, a: Subject, b: Subject) {
    exists i :: 0 <= i < |nodes| && nodes[i].id == b && a in nodes[i].parents
  }

  /** A chain of hard edges. */
  predicate HardPath(nodes: seq<NodeDef>, path: seq<Subject>) {
    forall k :: 0 <= k < |path| - 1 ==> HardEdge(nodes, path[k], path[k + 1])
  }

  /** The first position of an id. */
  function Position(nodes: seq<NodeDef>, s: Subject): (r: Option<nat>)
    ensures r.Some? ==> r.value < |nodes| && nodes[r.value].id == s
    ensures r.None? ==> s !in Ids(nodes)
  {
    FindFirst(nodes, HasId(s))
  }

  /** Along a hard edge the position strictly grows. */
  lemma EdgeGrows(nodes: seq<NodeDef>, a: Subject, b: Subject)
    requires UniqueIds(nodes) && ParentsFirst(nodes) && HardEdge(nodes, a, b)
    ensures Position(nodes, a).Some? && Position(nodes, b).Some?
    ensures Position(nodes, a).value < Position(nodes, b).value
  {
    var i :| 0 <= i < |nodes| && nodes[i].id == b && a in nodes[i].parents;
    assert a in Ids(nodes[..i]);
    var j :| 0 <= j < i && Ids(nodes[..i])[j] == a;
    assert nodes[j].id == a;
    assert a in Ids(nodes);
    assert b in Ids(nodes);
    assert Position(nodes, a).value == j;
    assert Position(nodes, b).value == i;
  }

  /** Along a chain of two or more nodes the position strictly grows. */
  lemma {:induction false} PathGrows(nodes: seq<NodeDef>, path: seq<Subject>)
    requires UniqueIds(nodes) && ParentsFirst(nodes) && HardPath(nodes, path) && |path| >= 2
    ensures Position(nodes, path[0]).Some? && Position(nodes, path[|path| - 1]).Some?
    ensures Position(nodes, path[0]).value < Position(nodes, path[|path| - 1]).value
  {
    EdgeGrows(nodes, path[0], path[1]);
    if |path| > 2 {
      var rest := path[1..];
      assert HardPath(nodes, rest) by {
        forall k | 0 <= k < |rest| - 1
          ensures HardEdge(nodes, rest[k], rest[k + 1])
        {
          assert rest[k] == path[k + 1] && rest[k + 1] == path[k + 2];
        }
      }
      PathGrows(nodes, rest);
    }
  }

  /** The hard-parent relation of `DAG_NODES` is acyclic: no chain of hard edges
      returns to where it started. */
  lemma DagAcyclic(path: seq<Subject>)
    requires HardPath(DagNodes, path) && |path| >= 2
    ensures path[0] != path[|path| - 1]
  {
    DagNodesWellFormed();
    PathGrows(DagNodes, path);
  }

  // ---------------------------------------------------------------------------
  // The component
  // ---------------------------------------------------------------------------

  class Graph {
    var status: Status
    var safeNodes: seq<Subject>
    var riskyNodes: seq<Risky>
    var completedNodes: seq<Subject>
    var activeSubject: Option<Subject>
    var hoveredNode: Option<Subject>

    /** The mount effect: the status is read once and analysed. */
    constructor (data: LocalStorage)
      ensures status == GetSyllabusStatus(data)
      ensures safeNodes == SafeList(DagNodes, status) && riskyNodes == RiskyList(DagNodes, status)
      ensures completedNodes == DoneList(DagNodes, status)
      ensures activeSubject == None && hoveredNode == None
    {
      var s := GetSyllabusStatus(data);
      var safe, risky, done := AnalyzeDag(DagNodes, s);
      status := s;
      safeNodes, riskyNodes, completedNodes := safe, risky, done;
      activeSubject, hoveredNode := None, None;
    }

    function NodeState(id: Subject): NodeState
      reads this
    {
      GetNodeState(status, safeNodes, id)
    }

    function Highlighted(id: Subject): bool
      reads this
    {
      IsHighlighted(DagNodes, hoveredNode, id)
    }

    /** `onMouseEnter` / `onMouseLeave`. */
    method Hover(n: Option<Subject>)
      modifies this
      ensures hoveredNode == n && activeSubject == old(activeSubject) && status == old(status)
      ensures safeNodes == old(safeNodes) && riskyNodes == old(riskyNodes) && completedNodes == old(completedNodes)
    {
      hoveredNode := n;
    }

    /** `onClick` on a node or a listed subject. */
    method Select(n: Subject)
      modifies this
      ensures activeSubject == Some(n) && hoveredNode == old(hoveredNode) && status == old(status)
      ensures safeNodes == old(safeNodes) && riskyNodes == old(riskyNodes) && completedNodes == old(completedNodes)
    {
      activeSubject := Some(n);
    }
  }
}

/**
 * The call graph a simulation records: one node per entry-point call and per error, numbered in the
 * order of creation, with node 0 standing for the top level.
 */
module CallTraces {
  datatype Trace = Trace(graph: map<nat, seq<nat>>, labels: map<nat, string>, counter: nat, current: nat)

  function NewTrace(): Trace {
    Trace(map[], map[0 := "top"], 0, 0)
  }

  function ChildrenOf(t: Trace, id: nat): seq<nat> {
    if id in t.graph then t.graph[id] else []
  }

  /** Adds a child below the current node. */
  function AddChild(t: Trace, name: string): Trace {
    var id := t.counter + 1;
    t.(graph := t.graph[t.current := ChildrenOf(t, t.current) + [id]], labels := t.labels[id := name], counter := id)
  }

  /** Opens a call: the new child becomes the current node. */
  function Begin(t: Trace, name: string): Trace {
    var t' := AddChild(t, name);
    t'.(current := t'.counter)
  }

  function End(t: Trace, parent: nat): Trace {
    t.(current := parent)
  }

  /** Records an error: a child that never becomes current. */
  function Fail(t: Trace, name: string): Trace {
    AddChild(t, name)
  }

  // ---------------------------------------------------------------- the shape of the graph

  ghost predicate Increasing(s: seq<nat>) {
    forall i, j :: 0 <= i < j < |s| ==> s[i] < s[j]
  }

  ghost predicate Edge(t: Trace, p: nat, c: nat) {
    p in t.graph && c in t.graph[p]
  }

  ghost predicate HasParent(t: Trace, c: nat) {
    exists p: nat :: Edge(t, p, c)
  }

  /** The graph is a tree rooted at 0 whose nodes are exactly the numbers handed out so far. */
  ghost predicate Tree(t: Trace) {
    && t.current <= t.counter
    && (forall id: nat :: id in t.labels <==> id <= t.counter)
    && (forall p :: p in t.graph ==> Increasing(t.graph[p]))
    && (forall p: nat, c: nat :: Edge(t, p, c) ==> p < c <= t.counter)
    && (forall p: nat, q: nat, c: nat :: Edge(t, p, c) && Edge(t, q, c) ==> p == q)
    && (forall c: nat :: 0 < c <= t.counter ==> HasParent(t, c))
  }

  lemma NewIsTree()
    ensures Tree(NewTrace())
  {
  }

  lemma ChildEdges(t: Trace, name: string, p: nat, c: nat)
    ensures Edge(AddChild(t, name), p, c) <==> Edge(t, p, c) || (p == t.current && c == t.counter + 1)
  {
    var t' := AddChild(t, name);
    if p == t.current {
      assert t'.graph[p] == ChildrenOf(t, p) + [t.counter + 1];
    }
  }

  /** Creating a node keeps the tree. */
  lemma AddChildKeepsTree(t: Trace, name: string)
    requires Tree(t)
    ensures Tree(AddChild(t, name))
  {
    var t' := AddChild(t, name);
    forall p: nat, c: nat
      ensures Edge(t', p, c) <==> Edge(t, p, c) || (p == t.current && c == t'.counter)
    {
      ChildEdges(t, name, p, c);
    }
    forall p | p in t'.graph
      ensures Increasing(t'.graph[p])
    {
      if p == t.current {
        var kids := ChildrenOf(t, p);
        assert forall i :: 0 <= i < |kids| ==> Edge(t, p, kids[i]);
      }
    }
    forall c: nat | 0 < c <= t'.counter
      ensures HasParent(t', c)
    {
      if c == t'.counter {
        assert Edge(t', t.current, c);
      } else {
        assert HasParent(t, c);
        var p :| Edge(t, p, c);
        assert Edge(t', p, c);
      }
    }
  }

  lemma BeginKeepsTree(t: Trace, name: string)
    requires Tree(t)
    ensures Tree(Begin(t, name))
  {
    AddChildKeepsTree(t, name);
    var t', t'' := AddChild(t, name), Begin(t, name);
    assert forall p: nat, c: nat :: Edge(t'', p, c) <==> Edge(t', p, c);
    assert forall c: nat :: HasParent(t', c) ==> HasParent(t'', c);
  }

  lemma EndKeepsTree(t: Trace, parent: nat)
    requires Tree(t) && parent <= t.counter
    ensures Tree(End(t, parent))
  {
    var t' := End(t, parent);
    assert forall p: nat, c: nat :: Edge(t', p, c) <==> Edge(t, p, c);
    assert forall c: nat :: HasParent(t, c) ==> HasParent(t', c);
  }

  /** A path from the root, as the nodes it visits. */
  ghost predicate RootPath(t: Trace, path: seq<nat>, id: nat) {
    && path != [] && path[0] == 0 && path[|path| - 1] == id
    && forall i :: 0 < i < |path| ==> Edge(t, path[i - 1], path[i])
  }

  lemma LastEdge(t: Trace, path: seq<nat>, id: nat)
    requires RootPath(t, path, id)
    ensures |path| == 1 || Edge(t, path[|path| - 2], id)
  {
    assert |path| > 1 ==> Edge(t, path[|path| - 2], path[|path| - 1]);
  }

  /** Every node of a tree is reached from the root, and by one path only. */
  lemma {:induction false} OnePathFromRoot(t: Trace, id: nat) returns (path: seq<nat>)
    requires Tree(t) && id <= t.counter
    ensures RootPath(t, path, id)
    ensures forall other :: RootPath(t, other, id) ==> other == path
    decreases id
  {
    if id == 0 {
      path := [0];
      forall other | RootPath(t, other, id)
        ensures other == path
      {
        LastEdge(t, other, id);
      }
    } else {
      assert HasParent(t, id);
      var p :| Edge(t, p, id);
      var up := OnePathFromRoot(t, p);
      path := up + [id];
      forall other | RootPath(t, other, id)
        ensures other == path
      {
        LastEdge(t, other, id);
        var init := other[..|other| - 1];
        assert RootPath(t, init, p);
        assert other == init + [id];
      }
    }
  }

  // ---------------------------------------------------------------- the recorder

  /** The recorder of one simulation. */
  class CallTrace {
    var callGraph: map<nat, seq<nat>>
    var callGraphLabels: map<nat, string>
    var callIdCounter: nat
    var currentCallId: nat

    ghost function Value(): Trace
      reads this
    {
      Trace(callGraph, callGraphLabels, callIdCounter, currentCallId)
    }

    constructor ()
      ensures Value() == NewTrace()
    {
      callGraph, callGraphLabels, callIdCounter, currentCallId := map[], map[0 := "top"], 0, 0;
    }

    /** A recorder with the same contents, sharing nothing with this one. */
    method Clone() returns (c: CallTrace)
      ensures fresh(c) && c.Value() == Value()
    {
      c := new CallTrace();
      c.callGraph, c.callGraphLabels, c.callIdCounter, c.currentCallId :=
        callGraph, callGraphLabels, callIdCounter, currentCallId;
    }

    /** Returns the id of the caller, to be handed back to `EndCall`. */
    method BeginCall(contextName: string) returns (parentCallId: nat)
      modifies this
      ensures parentCallId == old(currentCallId)
      ensures Value() == Begin(old(Value()), contextName)
      ensures Tree(old(Value())) ==> Tree(Value())
    {
      BeginKeepsTreeIf(Value(), contextName);
      callIdCounter := callIdCounter + 1;
      var callId := callIdCounter;
      parentCallId := currentCallId;
      var children := if parentCallId in callGraph then callGraph[parentCallId] else [];
      callGraph := callGraph[parentCallId := children + [callId]];
      currentCallId := callId;
      callGraphLabels := callGraphLabels[callId := contextName];
    }

    method EndCall(parentCallId: nat)
      modifies this
      ensures Value() == End(old(Value()), parentCallId)
    {
      currentCallId := parentCallId;
    }

    method Error(errorStr: string)
      modifies this
      ensures Value() == Fail(old(Value()), errorStr)
      ensures Tree(old(Value())) ==> Tree(Value())
    {
      FailKeepsTreeIf(Value(), errorStr);
      callIdCounter := callIdCounter + 1;
      var callId := callIdCounter;
      var parentCallId := currentCallId;
      var children := if parentCallId in callGraph then callGraph[parentCallId] else [];
      callGraph := callGraph[parentCallId := children + [callId]];
      callGraphLabels := callGraphLabels[callId := errorStr];
    }
  }

  lemma BeginKeepsTreeIf(t: Trace, name: string)
    ensures Tree(t) ==> Tree(Begin(t, name))
  {
    if Tree(t) {
      BeginKeepsTree(t, name);
    }
  }

  lemma FailKeepsTreeIf(t: Trace, name: string)
    ensures Tree(t) ==> Tree(Fail(t, name))
  {
    if Tree(t) {
      AddChildKeepsTree(t, name);
    }
  }
}

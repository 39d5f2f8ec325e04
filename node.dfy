/** The render-tree node of project/src/Node.cpp and Node.h: a named node with a parent pointer
    and an ordered child list, compiled and rendered recursively. A pass reports the calls it
    makes, in order. The dynamic type of a node (what `dynamic_cast` tests) is the set of class
    names it is an instance of. */
module Nodes {
  import opened SeqUtil
  import opened Exceptions

  /** The render context passed down a render pass (a graphics-manager handle); only its
      identity matters here. */
  class RenderContext {
    constructor ()
    {
    }
  }

  /** One call a pass makes on a node. */
  datatype NodeCall = CompileNode(node: Node) | RenderNode(node: Node, context: RenderContext)

  class Node {
    const name: string
    const types: set<string>
    var parent: Node?
    var children: seq<Node>

    /** Records the parent pointer only: the parent's list does not gain the new node. */
    constructor (name: string, parent: Node?, types: set<string>)
      ensures this.name == name && this.types == types && this.parent == parent && children == []
      ensures parent != null ==> this !in parent.children
    {
      this.name := name;
      this.types := types;
      this.parent := parent;
      children := [];
    }

    function GetName(): string
    {
      name
    }

    function GetParent(): Node?
      reads this
    {
      parent
    }

    /** Detaches `node` when this is its parent: erases its first occurrence and clears its
        parent pointer. Otherwise nothing changes. */
    method RemoveChild(node: Node)
      modifies this`children, node`parent
      ensures old(node.parent) != this ==> children == old(children) && node.parent == old(node.parent)
      ensures old(node.parent) == this ==> children == RemoveFirst(old(children), node) && node.parent == null
    {
      if node.parent != this {
        return;
      }
      var i := 0;
      while i < |children| && children[i] != node
        invariant 0 <= i <= |children| && node !in children[..i]
      {
        i := i + 1;
      }
      if i < |children| {
        IndexOfAt(children, node, i);
        children := children[..i] + children[i + 1..];
      } else {
        assert children[..i] == children;
        RemoveFirstFacts(children, node, node);
      }
      node.parent := null;
    }

    /** Detaches `node` from its old parent, then parents it here and appends it last. When the
        old parent listed it once, that list no longer holds it, so it is listed only here. */
    method AddChild(node: Node)
      modifies this`children, node`parent, (if node.parent != null then {node.parent} else {})`children
      ensures node.parent == this
      ensures old(node.parent) == this ==> children == RemoveFirst(old(children), node) + [node]
      ensures old(node.parent) != this ==> children == old(children) + [node]
      ensures old(node.parent) != null && old(node.parent) != this ==>
        old(node.parent).children == RemoveFirst(old(node.parent.children), node)
      ensures old(node.parent) != null && old(node.parent) != this && Count(old(node.parent.children), node) == 1 ==>
        node !in old(node.parent).children
    {
      ghost var p := node.parent;
      if node.parent != null {
        node.parent.RemoveChild(node);
        if p != this && Count(old(p.children), node) == 1 {
          RemoveOnly(old(p.children), node);
        }
      }
      node.parent := this;
      children := children + [node];
    }

    /** `CreateChild`: a new node parented here and appended last. */
    method CreateChild(name: string, types: set<string>) returns (node: Node)
      modifies this`children
      ensures fresh(node) && node.name == name && node.types == types
      ensures node.parent == this && node.children == []
      ensures children == old(children) + [node]
    {
      node := new Node(name, null, types);
      node.parent := this;
      children := children + [node];
    }

    /** `GetChild<T>(name)`: the first child whose name equals this node's own name (the
        argument only names the exception), cast to T; NodeNotFoundException when none does. */
    method GetChild(name: string, t: string) returns (r: Result<Node?>)
      ensures NameIndex(children, this.name).Some? ==>
        var i := NameIndex(children, this.name).value;
        i < |children| && r == Ok(Cast(children[i], t))
      ensures NameIndex(children, this.name).None? ==>
        r == Throw(Thrown("NodeNotFoundException", "Node does not exist: " + name))
    {
      var i := 0;
      while i < |children|
        invariant 0 <= i <= |children|
        invariant forall j :: 0 <= j < i ==> children[j].name != this.name
      {
        if children[i].name == this.name {
          FirstWhereAt(children, (c: Node) => c.name == this.name, i);
          return Ok(Cast(children[i], t));
        }
        i := i + 1;
      }
      FirstWhereNone(children, (c: Node) => c.name == this.name);
      return Throw(Thrown("NodeNotFoundException", "Node does not exist: " + name));
    }

    /** `GetChildren<T>(name)`: every child whose name equals this node's own name, in order,
        each cast to T; empty rather than an exception when none does. */
    method GetChildren(name: string, t: string) returns (r: seq<Node?>)
      ensures r == CastAll(Named(children, this.name), t)
    {
      r := [];
      for i := 0 to |children|
        invariant r == CastAll(Named(children[..i], this.name), t)
      {
        assert children[..i + 1][..i] == children[..i];
        if children[i].name == this.name {
          r := r + [Cast(children[i], t)];
        }
      }
      assert children[..|children|] == children;
    }

    /** `GetChild<T>()`: the first child of type T; NodeNotFoundException, naming the type, when
        none is. */
    method GetChildOfType(t: string, typeName: string) returns (r: Result<Node>)
      ensures TypeIndex(children, t).Some? ==>
        var i := TypeIndex(children, t).value;
        i < |children| && r == Ok(children[i]) && t in children[i].types
      ensures TypeIndex(children, t).None? <==> r.Throw?
      ensures r.Throw? ==> r.error == Thrown("NodeNotFoundException", "Node does not exist: " + typeName)
    {
      var i := 0;
      while i < |children|
        invariant 0 <= i <= |children|
        invariant forall j :: 0 <= j < i ==> t !in children[j].types
      {
        if t in children[i].types {
          FirstWhereAt(children, (c: Node) => t in c.types, i);
          return Ok(children[i]);
        }
        i := i + 1;
      }
      FirstWhereNone(children, (c: Node) => t in c.types);
      return Throw(Thrown("NodeNotFoundException", "Node does not exist: " + typeName));
    }

    /** The nodes a pass from here reaches: every child, then what the child's own pass
        reaches, in list order. */
    method Traverse(ghost rank: map<Node, nat>) returns (visited: seq<Node>)
      requires this in rank && Ranked(rank)
      ensures visited == Visits(this, rank)
      decreases rank[this]
    {
      visited := [];
      for i := 0 to |children|
        invariant visited == ChildVisits(children[..i], rank, rank[this])
      {
        var c := children[i];
        assert children[..i + 1][..i] == children[..i];
        var sub := c.Traverse(rank);
        visited := visited + ([c] + sub);
      }
      assert children[..|children|] == children;
    }

    /** Compiles every descendant once, in list order. */
    method Compile(ghost rank: map<Node, nat>) returns (calls: seq<NodeCall>)
      requires this in rank && Ranked(rank)
      ensures |calls| == |Visits(this, rank)|
      ensures forall i :: 0 <= i < |calls| ==> calls[i] == CompileNode(Visits(this, rank)[i])
    {
      var visited := Traverse(rank);
      calls := seq(|visited|, i requires 0 <= i < |visited| => CompileNode(visited[i]));
    }

    /** Renders every descendant once, in list order, handing each the same context. */
    method Render(context: RenderContext, ghost rank: map<Node, nat>) returns (calls: seq<NodeCall>)
      requires this in rank && Ranked(rank)
      ensures |calls| == |Visits(this, rank)|
      ensures forall i :: 0 <= i < |calls| ==> calls[i] == RenderNode(Visits(this, rank)[i], context)
    {
      var visited := Traverse(rank);
      calls := seq(|visited|, i requires 0 <= i < |visited| => RenderNode(visited[i], context));
    }

    /** The destructor: a linked node first leaves its parent's list, then every descendant is
        destroyed (in the order their destructors start) and the child list is cleared. */
    method Destroy(ghost rank: map<Node, nat>) returns (destroyed: seq<Node>)
      requires this in rank && Ranked(rank)
      modifies this`children, this`parent, (if parent != null then {parent} else {})`children
      ensures destroyed == old(Visits(this, rank))
      ensures children == [] && parent == null
      ensures old(parent) != null && old(parent) != this ==>
        old(parent).children == RemoveFirst(old(parent.children), this)
    {
      destroyed := Traverse(rank);
      if parent != null {
        parent.RemoveChild(this);
      }
      children := [];
    }
  }

  /** `dynamic_cast<T *>`: the node when it is a T, null otherwise. */
  function Cast(n: Node, t: string): (r: Node?)
    ensures r != null <==> t in n.types
    ensures r != null ==> r == n
  {
    if t in n.types then n else null
  }

  function CastAll(ns: seq<Node>, t: string): (r: seq<Node?>)
    ensures |r| == |ns| && forall i :: 0 <= i < |ns| ==> r[i] == Cast(ns[i], t)
  {
    if ns == [] then [] else CastAll(ns[..|ns| - 1], t) + [Cast(ns[|ns| - 1], t)]
  }

  /** The nodes named `name`, in order. */
  function Named(ns: seq<Node>, name: string): seq<Node>
  {
    if ns == [] then []
    else Named(ns[..|ns| - 1], name) + (if ns[|ns| - 1].name == name then [ns[|ns| - 1]] else [])
  }

  /** `Named` keeps exactly the nodes with the name, in their order. */
  lemma {:induction false} NamedExactly(ns: seq<Node>, name: string)
    ensures forall n :: n in Named(ns, name) <==> n in ns && n.name == name
    ensures |Named(ns, name)| <= |ns|
    ensures NameIndex(ns, name).None? <==> Named(ns, name) == []
  {
    if ns != [] {
      NamedExactly(ns[..|ns| - 1], name);
      var last := ns[|ns| - 1];
      assert ns == ns[..|ns| - 1] + [last];
      if NameIndex(ns, name).None? {
        FirstWhereNone(ns, (c: Node) => c.name == name);
      } else {
        assert ns[NameIndex(ns, name).value] in ns;
      }
    }
  }

  function NameIndex(ns: seq<Node>, name: string): Option<nat>
  {
    FirstWhere(ns, (c: Node) => c.name == name)
  }

  function TypeIndex(ns: seq<Node>, t: string): Option<nat>
  {
    FirstWhere(ns, (c: Node) => t in c.types)
  }

  /** `rank` orders the nodes it holds so that every child ranks below its parent: the tree
      below them has no cycle. */
  ghost predicate Ranked(rank: map<Node, nat>)
    reads rank.Keys
  {
    forall x, c :: x in rank && c in x.children ==> c in rank && rank[c] < rank[x]
  }

  /** The nodes a pass from `n` reaches, in call order. */
  ghost function Visits(n: Node, rank: map<Node, nat>): seq<Node>
    requires n in rank && Ranked(rank)
    reads rank.Keys
    decreases rank[n], 1, 0
  {
    ChildVisits(n.children, rank, rank[n])
  }

  ghost function ChildVisits(cs: seq<Node>, rank: map<Node, nat>, bound: nat): seq<Node>
    requires Ranked(rank) && forall c :: c in cs ==> c in rank && rank[c] < bound
    reads rank.Keys
    decreases bound, 0, |cs|
  {
    if cs == [] then []
    else
      var c := cs[|cs| - 1];
      ChildVisits(cs[..|cs| - 1], rank, bound) + ([c] + Visits(c, rank))
  }

  /** Children that have no children of their own are reached exactly once each, in list order. */
  lemma {:induction false} ChildVisitsOfLeaves(cs: seq<Node>, rank: map<Node, nat>, bound: nat)
    requires Ranked(rank) && forall c :: c in cs ==> c in rank && rank[c] < bound && c.children == []
    ensures ChildVisits(cs, rank, bound) == cs
    decreases |cs|
  {
    if cs != [] {
      var last := cs[|cs| - 1];
      ChildVisitsOfLeaves(cs[..|cs| - 1], rank, bound);
      assert Visits(last, rank) == ChildVisits([], rank, rank[last]) == [];
      assert cs == cs[..|cs| - 1] + [last];
    }
  }

  /** A pass reaches every child, whatever else it reaches below them. */
  lemma {:induction false} VisitsCount(n: Node, rank: map<Node, nat>)
    requires n in rank && Ranked(rank)
    ensures |Visits(n, rank)| >= |n.children|
    ensures forall c :: c in n.children ==> c in Visits(n, rank)
  {
    ChildVisitsCover(n.children, rank, rank[n]);
  }

  lemma {:induction false} ChildVisitsCover(cs: seq<Node>, rank: map<Node, nat>, bound: nat)
    requires Ranked(rank) && forall c :: c in cs ==> c in rank && rank[c] < bound
    ensures |ChildVisits(cs, rank, bound)| >= |cs|
    ensures forall c :: c in cs ==> c in ChildVisits(cs, rank, bound)
    decreases |cs|
  {
    if cs != [] {
      var front, last := cs[..|cs| - 1], cs[|cs| - 1];
      ChildVisitsCover(front, rank, bound);
      assert cs == front + [last];
      assert ChildVisits(cs, rank, bound) == ChildVisits(front, rank, bound) + ([last] + Visits(last, rank));
      forall c | c in cs
        ensures c in ChildVisits(cs, rank, bound)
      {
        if c != last {
          assert c in front;
        }
      }
    }
  }

  /** Where each of `cs` lands in `ChildVisits(cs, ...)`: the length of what the children before
      it produced. */
  ghost function ChildStarts(cs: seq<Node>, rank: map<Node, nat>, bound: nat): seq<nat>
    requires Ranked(rank) && forall c :: c in cs ==> c in rank && rank[c] < bound
    reads rank.Keys
    decreases |cs|
  {
    if cs == [] then []
    else
      var front := cs[..|cs| - 1];
      ChildStarts(front, rank, bound) + [|ChildVisits(front, rank, bound)|]
  }

  /** Each child of the list is reached at its own position, and the positions rise in list order. */
  lemma {:induction false} ChildrenInOrder(cs: seq<Node>, rank: map<Node, nat>, bound: nat)
    requires Ranked(rank) && forall c :: c in cs ==> c in rank && rank[c] < bound
    ensures var starts, visits := ChildStarts(cs, rank, bound), ChildVisits(cs, rank, bound);
      && |starts| == |cs|
      && (forall i :: 0 <= i < |cs| ==> starts[i] < |visits| && visits[starts[i]] == cs[i])
      && (forall i, j :: 0 <= i < j < |cs| ==> starts[i] < starts[j])
    decreases |cs|
  {
    if cs != [] {
      var front, last := cs[..|cs| - 1], cs[|cs| - 1];
      ChildrenInOrder(front, rank, bound);
      var frontStarts, frontVisits := ChildStarts(front, rank, bound), ChildVisits(front, rank, bound);
      var starts, visits := ChildStarts(cs, rank, bound), ChildVisits(cs, rank, bound);
      assert starts == frontStarts + [|frontVisits|];
      assert visits == frontVisits + ([last] + Visits(last, rank));
      forall i | 0 <= i < |cs|
        ensures starts[i] < |visits| && visits[starts[i]] == cs[i]
      {
        if i < |front| {
          assert starts[i] == frontStarts[i];
          assert visits[starts[i]] == frontVisits[frontStarts[i]] == front[i];
        }
      }
    }
  }

  /** A pass from `n` reaches its direct children in list order, each at its own position. */
  lemma VisitsChildrenInOrder(n: Node, rank: map<Node, nat>)
    requires n in rank && Ranked(rank)
    ensures var starts, visits := ChildStarts(n.children, rank, rank[n]), Visits(n, rank);
      && |starts| == |n.children|
      && (forall i :: 0 <= i < |starts| ==> starts[i] < |visits| && visits[starts[i]] == n.children[i])
      && (forall i, j :: 0 <= i < j < |starts| ==> starts[i] < starts[j])
  {
    ChildrenInOrder(n.children, rank, rank[n]);
  }
}

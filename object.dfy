/** The scene-graph object of project/src/Object.cpp and Object.h: a named object with an active
    flag, a parent pointer and an ordered child list. Frames of reference and transforms are not
    modelled; an update or render pass reports which objects it reached, in call order. The
    dynamic type of an object (what `dynamic_cast` tests) is the set of class names it is an
    instance of. */
module Objects {
  import opened SeqUtil
  import opened Exceptions

  class Object {
    const name: string
    const types: set<string>
    var active: bool
    var parent: Object?
    var children: seq<Object>

    /** Active, with the given parent pointer and no children; the parent's list is not touched,
        so the new object is not among its children. */
    constructor (name: string, parent: Object?, types: set<string>)
      ensures this.name == name && this.types == types && this.parent == parent
      ensures active && children == []
      ensures parent != null ==> this !in parent.children
    {
      this.name := name;
      this.types := types;
      active := true;
      this.parent := parent;
      children := [];
    }

    function GetName(): string
    {
      name
    }

    function IsActive(): bool
      reads this
    {
      active
    }

    function GetParent(): Object?
      reads this
    {
      parent
    }

    method SetActive(active: bool)
      modifies this`active
      ensures this.active == active
    {
      this.active := active;
    }

    /** Detaches `obj` when this is its parent: erases its first occurrence from the child list
        and clears its parent pointer. Otherwise nothing changes. */
    method RemoveChild(obj: Object)
      modifies this`children, obj`parent
      ensures old(obj.parent) != this ==> children == old(children) && obj.parent == old(obj.parent)
      ensures old(obj.parent) == this ==> children == RemoveFirst(old(children), obj) && obj.parent == null
    {
      if obj.parent != this {
        return;
      }
      var i := 0;
      while i < |children| && children[i] != obj
        invariant 0 <= i <= |children| && obj !in children[..i]
      {
        i := i + 1;
      }
      if i < |children| {
        IndexOfAt(children, obj, i);
        children := children[..i] + children[i + 1..];
      } else {
        assert children[..i] == children;
        RemoveFirstFacts(children, obj, obj);
      }
      obj.parent := null;
    }

    /** Detaches `obj` from its old parent, then makes this its parent and appends it last; a
        child added again moves to the end. */
    method AddChild(obj: Object)
      modifies this`children, obj`parent, (if obj.parent != null then {obj.parent} else {})`children
      ensures obj.parent == this
      ensures old(obj.parent) == this ==> children == RemoveFirst(old(children), obj) + [obj]
      ensures old(obj.parent) != this ==> children == old(children) + [obj]
      ensures old(obj.parent) != null && old(obj.parent) != this ==>
        old(obj.parent).children == RemoveFirst(old(obj.parent.children), obj)
    {
      if obj.parent != null {
        obj.parent.RemoveChild(obj);
      }
      obj.parent := this;
      children := children + [obj];
    }

    /** `CreateChild`: a new active object, parented here and appended last. */
    method CreateChild(name: string, types: set<string>) returns (obj: Object)
      modifies this`children
      ensures fresh(obj) && obj.name == name && obj.types == types
      ensures obj.parent == this && obj.active && obj.children == []
      ensures children == old(children) + [obj]
    {
      obj := new Object(name, null, types);
      obj.parent := this;
      children := children + [obj];
    }

    /** `GetChild<T>(name)`: the first child whose name equals this object's own name (the
        argument only names the exception), cast to T; ObjectNotFoundException when none does. */
    method GetChild(name: string, t: string) returns (r: Result<Object?>)
      ensures NameIndex(children, this.name).Some? ==>
        var i := NameIndex(children, this.name).value;
        i < |children| && r == Ok(Cast(children[i], t))
      ensures NameIndex(children, this.name).None? ==>
        r == Throw(Thrown("ObjectNotFoundException", "Object does not exist: " + name))
    {
      var i := 0;
      while i < |children|
        invariant 0 <= i <= |children|
        invariant forall j :: 0 <= j < i ==> children[j].name != this.name
      {
        if children[i].name == this.name {
          FirstWhereAt(children, (c: Object) => c.name == this.name, i);
          return Ok(Cast(children[i], t));
        }
        i := i + 1;
      }
      FirstWhereNone(children, (c: Object) => c.name == this.name);
      return Throw(Thrown("ObjectNotFoundException", "Object does not exist: " + name));
    }

    /** `GetChild<T>()`: the first child of type T; ObjectNotFoundException, naming the type,
        when none is. */
    method GetChildOfType(t: string, typeName: string) returns (r: Result<Object>)
      ensures TypeIndex(children, t).Some? ==>
        var i := TypeIndex(children, t).value;
        i < |children| && r == Ok(children[i]) && t in children[i].types
      ensures TypeIndex(children, t).None? <==> r.Throw?
      ensures r.Throw? ==> r.error == Thrown("ObjectNotFoundException", "Object does not exist: " + typeName)
    {
      var i := 0;
      while i < |children|
        invariant 0 <= i <= |children|
        invariant forall j :: 0 <= j < i ==> t !in children[j].types
      {
        if t in children[i].types {
          FirstWhereAt(children, (c: Object) => t in c.types, i);
          return Ok(children[i]);
        }
        i := i + 1;
      }
      FirstWhereNone(children, (c: Object) => t in c.types);
      return Throw(Thrown("ObjectNotFoundException", "Object does not exist: " + typeName));
    }

    /** The loop of `Update` and `Render` (gated: only active children) and of `Shutdown`
        (every child); returns the objects whose method was called, in call order. */
    method Traverse(ghost rank: map<Object, nat>, gated: bool) returns (calls: seq<Object>)
      requires this in rank && Ranked(rank)
      ensures calls == Calls(this, rank, gated)
      decreases rank[this]
    {
      calls := [];
      for i := 0 to |children|
        invariant calls == ChildCalls(children[..i], rank, gated, rank[this])
      {
        var c := children[i];
        assert children[..i + 1][..i] == children[..i];
        if !gated || c.active {
          var sub := c.Traverse(rank, gated);
          calls := calls + ([c] + sub);
        }
      }
      assert children[..|children|] == children;
    }

    /** Updates every active child, recursively; inactive children and everything below them
        are skipped, and this object's own flag is not consulted. */
    method Update(ghost rank: map<Object, nat>) returns (calls: seq<Object>)
      requires this in rank && Ranked(rank)
      ensures calls == Calls(this, rank, true)
    {
      calls := Traverse(rank, true);
    }

    /** Renders with the same gating as `Update`. */
    method Render(ghost rank: map<Object, nat>) returns (calls: seq<Object>)
      requires this in rank && Ranked(rank)
      ensures calls == Calls(this, rank, true)
    {
      calls := Traverse(rank, true);
    }

    /** Shuts down every descendant, active or not. */
    method Shutdown(ghost rank: map<Object, nat>) returns (calls: seq<Object>)
      requires this in rank && Ranked(rank)
      ensures calls == Calls(this, rank, false)
    {
      calls := Traverse(rank, false);
    }

    /** The destructor: every descendant is destroyed, in the order their destructors start,
        and the child list is cleared; unlike a node, it leaves its parent's list as it was. */
    method Destroy(ghost rank: map<Object, nat>) returns (destroyed: seq<Object>)
      requires this in rank && Ranked(rank)
      modifies this`children
      ensures destroyed == old(Calls(this, rank, false))
      ensures children == []
      ensures parent != null && parent != this ==> parent.children == old(parent.children)
    {
      destroyed := Traverse(rank, false);
      children := [];
    }
  }

  /** `dynamic_cast<T *>`: the object when it is a T, null otherwise. */
  function Cast(o: Object, t: string): (r: Object?)
    ensures r != null <==> t in o.types
    ensures r != null ==> r == o
  {
    if t in o.types then o else null
  }

  function NameIndex(cs: seq<Object>, name: string): Option<nat>
  {
    FirstWhere(cs, (c: Object) => c.name == name)
  }

  function TypeIndex(cs: seq<Object>, t: string): Option<nat>
  {
    FirstWhere(cs, (c: Object) => t in c.types)
  }

  /** `rank` orders the objects it holds so that every child ranks below its parent: the
      hierarchy below them has no cycle. */
  ghost predicate Ranked(rank: map<Object, nat>)
    reads rank.Keys
  {
    forall x, c :: x in rank && c in x.children ==> c in rank && rank[c] < rank[x]
  }

  /** The objects a pass starting at `o` calls, in order: each child that passes the gate,
      followed by what its own pass calls. */
  ghost function Calls(o: Object, rank: map<Object, nat>, gated: bool): seq<Object>
    requires o in rank && Ranked(rank)
    reads rank.Keys
    decreases rank[o], 1, 0
  {
    ChildCalls(o.children, rank, gated, rank[o])
  }

  ghost function ChildCalls(cs: seq<Object>, rank: map<Object, nat>, gated: bool, bound: nat): seq<Object>
    requires Ranked(rank) && forall c :: c in cs ==> c in rank && rank[c] < bound
    reads rank.Keys
    decreases bound, 0, |cs|
  {
    if cs == [] then []
    else
      var c := cs[|cs| - 1];
      ChildCalls(cs[..|cs| - 1], rank, gated, bound) +
      (if !gated || c.active then [c] + Calls(c, rank, gated) else [])
  }

  /** A gated pass reaches only active objects. */
  lemma {:induction false} GatedReachesOnlyActive(o: Object, rank: map<Object, nat>)
    requires o in rank && Ranked(rank)
    ensures forall x :: x in Calls(o, rank, true) ==> x.active
    decreases rank[o], 1
  {
    ChildCallsActive(o.children, rank, rank[o]);
  }

  lemma {:induction false} ChildCallsActive(cs: seq<Object>, rank: map<Object, nat>, bound: nat)
    requires Ranked(rank) && forall c :: c in cs ==> c in rank && rank[c] < bound
    ensures forall x :: x in ChildCalls(cs, rank, true, bound) ==> x.active
    decreases bound, 0, |cs|
  {
    if cs != [] {
      var c := cs[|cs| - 1];
      ChildCallsActive(cs[..|cs| - 1], rank, bound);
      if c.active {
        GatedReachesOnlyActive(c, rank);
      }
    }
  }

  /** A child that passes the gate is called, and so is everything its own pass calls. */
  lemma {:induction false} ChildPassIncluded(o: Object, c: Object, rank: map<Object, nat>, gated: bool)
    requires o in rank && Ranked(rank) && c in o.children && (!gated || c.active)
    ensures c in Calls(o, rank, gated)
    ensures forall x :: x in Calls(c, rank, gated) ==> x in Calls(o, rank, gated)
  {
    ChildCallsInclude(o.children, c, rank, gated, rank[o]);
  }

  lemma {:induction false} ChildCallsInclude(cs: seq<Object>, c: Object, rank: map<Object, nat>, gated: bool, bound: nat)
    requires Ranked(rank) && forall d :: d in cs ==> d in rank && rank[d] < bound
    requires c in cs && (!gated || c.active)
    ensures c in ChildCalls(cs, rank, gated, bound)
    ensures forall x :: x in Calls(c, rank, gated) ==> x in ChildCalls(cs, rank, gated, bound)
    decreases |cs|
  {
    var last := cs[|cs| - 1];
    if c != last {
      assert c in cs[..|cs| - 1] by {
        var k :| 0 <= k < |cs| && cs[k] == c;
        assert cs[..|cs| - 1][k] == c;
      }
      ChildCallsInclude(cs[..|cs| - 1], c, rank, gated, bound);
    }
  }

  /** Every descendant, active or not, is reached by an ungated pass: reachability is closed
      under taking children. */
  lemma {:induction false} ShutdownReachesGrandchildren(o: Object, c: Object, g: Object, rank: map<Object, nat>)
    requires o in rank && Ranked(rank) && c in o.children && g in c.children
    ensures c in Calls(o, rank, false) && g in Calls(o, rank, false)
  {
    ChildPassIncluded(o, c, rank, false);
    ChildPassIncluded(c, g, rank, false);
  }
}

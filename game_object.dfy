/** The game object of project/src/GameObject.h: a named, always-active object with a transform
    matrix, a parent pointer and a list of shared children, updated, rendered, audio-rendered and
    shut down recursively. The owning game is not modelled. A pass reports the objects it
    reached, in call order. The dynamic type of an object (what `dynamic_pointer_cast` tests) is
    the set of class names it is an instance of. */
module GameObjects {
  import opened SeqUtil

  class GameObject {
    const name: string
    const types: set<string>
    const active: bool
    var transform: seq<real>
    var parent: GameObject?
    var children: seq<GameObject>

    /** Active, with no parent and no children. The transform is left to glm's default
        constructor, whose value depends on the glm version and is not stated here. */
    constructor (name: string, types: set<string>)
      ensures this.name == name && this.types == types
      ensures active && parent == null && children == []
    {
      this.name := name;
      this.types := types;
      active := true;
      parent := null;
      children := [];
      transform := [];
    }

    function GetName(): string
    {
      name
    }

    function IsActive(): bool
    {
      active
    }

    function GetTransform(): seq<real>
      reads this
    {
      transform
    }

    method SetTransform(m: seq<real>)
      modifies this`transform
      ensures transform == m
    {
      transform := m;
    }

    function GetParent(): GameObject?
      reads this
    {
      parent
    }

    /** `CreateChild`: a new object parented here and appended last. */
    method CreateChild(name: string, types: set<string>) returns (go: GameObject)
      modifies this`children
      ensures fresh(go) && go.name == name && go.types == types && go.active
      ensures go.parent == this && go.children == []
      ensures children == old(children) + [go]
    {
      go := new GameObject(name, types);
      go.parent := this;
      children := children + [go];
    }

    /** Parents `go` here and appends it last, without taking it out of any previous parent's
        list. */
    method AddChild(go: GameObject)
      modifies this`children, go`parent
      ensures go.parent == this && children == old(children) + [go]
    {
      go.parent := this;
      children := children + [go];
    }

    /** `GetChild<T>(name)`: the first child whose name equals this object's own name (not the
        argument), cast to T; null when none does. */
    method GetChild(name: string, t: string) returns (r: GameObject?)
      ensures NameIndex(children, this.name).Some? ==>
        var i := NameIndex(children, this.name).value;
        i < |children| && r == Cast(children[i], t)
      ensures NameIndex(children, this.name).None? ==> r == null
    {
      var i := 0;
      while i < |children|
        invariant 0 <= i <= |children|
        invariant forall j :: 0 <= j < i ==> children[j].name != this.name
      {
        if children[i].name == this.name {
          FirstWhereAt(children, (c: GameObject) => c.name == this.name, i);
          return Cast(children[i], t);
        }
        i := i + 1;
      }
      FirstWhereNone(children, (c: GameObject) => c.name == this.name);
      return null;
    }

    /** `GetChild<T>()`: the first child of type T, or null. */
    method GetChildOfType(t: string) returns (r: GameObject?)
      ensures TypeIndex(children, t).Some? ==>
        var i := TypeIndex(children, t).value;
        i < |children| && r == children[i] && t in r.types
      ensures TypeIndex(children, t).None? <==> r == null
    {
      var i := 0;
      while i < |children|
        invariant 0 <= i <= |children|
        invariant forall j :: 0 <= j < i ==> t !in children[j].types
      {
        if t in children[i].types {
          FirstWhereAt(children, (c: GameObject) => t in c.types, i);
          return children[i];
        }
        i := i + 1;
      }
      FirstWhereNone(children, (c: GameObject) => t in c.types);
      return null;
    }

    /** The loop shared by `Update`, `Render`, `RenderAudio` and `Shutdown`: every child, then
        what the child's own pass reaches, with no active check. */
    method Traverse(ghost rank: map<GameObject, nat>) returns (visited: seq<GameObject>)
      requires this in rank && Ranked(rank)
      ensures visited == Visits(this, rank)
      decreases rank[this]
    {
      visited := [];
      for i := 0 to |children|
        invariant visited == ChildVisits(children[..i], rank, rank[this])
      {
        var c := children[i];
        assert children[..i + 1][..i] == children[..i];
        var sub := c.Traverse(rank);
        visited := visited + ([c] + sub);
      }
      assert children[..|children|] == children;
    }

    method Update(ghost rank: map<GameObject, nat>) returns (visited: seq<GameObject>)
      requires this in rank && Ranked(rank)
      ensures visited == Visits(this, rank)
    {
      visited := Traverse(rank);
    }

    method Render(ghost rank: map<GameObject, nat>) returns (visited: seq<GameObject>)
      requires this in rank && Ranked(rank)
      ensures visited == Visits(this, rank)
    {
      visited := Traverse(rank);
    }

    method RenderAudio(ghost rank: map<GameObject, nat>) returns (visited: seq<GameObject>)
      requires this in rank && Ranked(rank)
      ensures visited == Visits(this, rank)
    {
      visited := Traverse(rank);
    }

    method Shutdown(ghost rank: map<GameObject, nat>) returns (visited: seq<GameObject>)
      requires this in rank && Ranked(rank)
      ensures visited == Visits(this, rank)
    {
      visited := Traverse(rank);
    }
  }

  /** `std::dynamic_pointer_cast<T>`: the object when it is a T, null otherwise. */
  function Cast(go: GameObject, t: string): (r: GameObject?)
    ensures r != null <==> t in go.types
    ensures r != null ==> r == go
  {
    if t in go.types then go else null
  }

  function NameIndex(gs: seq<GameObject>, name: string): Option<nat>
  {
    FirstWhere(gs, (c: GameObject) => c.name == name)
  }

  function TypeIndex(gs: seq<GameObject>, t: string): Option<nat>
  {
    FirstWhere(gs, (c: GameObject) => t in c.types)
  }

  /** `rank` orders the objects it holds so that every child ranks below its parent. */
  ghost predicate Ranked(rank: map<GameObject, nat>)
    reads rank.Keys
  {
    forall x, c :: x in rank && c in x.children ==> c in rank && rank[c] < rank[x]
  }

  /** The objects a pass from `go` reaches, in call order. */
  ghost function Visits(go: GameObject, rank: map<GameObject, nat>): seq<GameObject>
    requires go in rank && Ranked(rank)
    reads rank.Keys
    decreases rank[go], 1, 0
  {
    ChildVisits(go.children, rank, rank[go])
  }

  ghost function ChildVisits(cs: seq<GameObject>, rank: map<GameObject, nat>, bound: nat): seq<GameObject>
    requires Ranked(rank) && forall c :: c in cs ==> c in rank && rank[c] < bound
    reads rank.Keys
    decreases bound, 0, |cs|
  {
    if cs == [] then []
    else
      var c := cs[|cs| - 1];
      ChildVisits(cs[..|cs| - 1], rank, bound) + ([c] + Visits(c, rank))
  }

  /** A child added to two parents in turn is listed by both, and its parent pointer names only
      the second: the lists and the pointers disagree. */
  method AddedTwice() returns (first: GameObject, second: GameObject, child: GameObject)
    ensures child in first.children && child in second.children && first != second
    ensures child.parent == second
  {
    first := new GameObject("first", {});
    second := new GameObject("second", {});
    child := new GameObject("child", {});
    first.AddChild(child);
    second.AddChild(child);
  }

  /** A pass reaches every child, active or not. */
  lemma {:induction false} VisitsEveryChild(go: GameObject, rank: map<GameObject, nat>)
    requires go in rank && Ranked(rank)
    ensures forall c :: c in go.children ==> c in Visits(go, rank)
  {
    ChildVisitsCover(go.children, rank, rank[go]);
  }

  lemma {:induction false} ChildVisitsCover(cs: seq<GameObject>, rank: map<GameObject, nat>, bound: nat)
    requires Ranked(rank) && forall c :: c in cs ==> c in rank && rank[c] < bound
    ensures forall c :: c in cs ==> c in ChildVisits(cs, rank, bound)
    decreases |cs|
  {
    if cs != [] {
      var front, last := cs[..|cs| - 1], cs[|cs| - 1];
      ChildVisitsCover(front, rank, bound);
      assert cs == front + [last];
      forall c | c in cs
        ensures c in ChildVisits(cs, rank, bound)
      {
        if c != last {
          assert c in front;
        }
      }
    }
  }
}

/** The callback lists of project/src/Utility/Event.h. A callback is a `std::function` taking the
    argument by reference; here it is an identity (standing for the callable it wraps) and the
    change it makes to the argument. The mutex is not part of this model: every call is
    sequential. */
module Events {
  import opened SeqUtil

  /** `EventArgs`: a default-constructed one is not cancelled. */
  datatype EventArgs = EventArgs(cancel: bool)

  function NewEventArgs(): (e: EventArgs)
    ensures !e.cancel
  {
    EventArgs(false)
  }

  datatype Callback<!A> = Callback(id: nat, effect: A -> A)

  /** One call made by `Trigger`: which callback, and the argument as that callback saw it. */
  datatype Invocation<A> = Invocation(id: nat, arg: A)

  /** The argument after the callbacks have run on it in turn (they share one copy by reference). */
  function Threaded<A>(callbacks: seq<Callback<A>>, arg: A): A
  {
    if callbacks == [] then arg
    else callbacks[|callbacks| - 1].effect(Threaded(callbacks[..|callbacks| - 1], arg))
  }

  /** The calls `Trigger` makes over a snapshot of the list. */
  function Trace<A>(callbacks: seq<Callback<A>>, arg: A): seq<Invocation<A>>
  {
    if callbacks == [] then []
    else
      var n := |callbacks| - 1;
      Trace(callbacks[..n], arg) + [Invocation(callbacks[n].id, Threaded(callbacks[..n], arg))]
  }

  /** Every callback is called exactly once, in registration order, whatever the callbacks do to
      the argument (setting `cancel` included): call i is callback i. */
  lemma {:induction false} TraceCallsEachOnce<A>(callbacks: seq<Callback<A>>, arg: A)
    ensures |Trace(callbacks, arg)| == |callbacks|
    ensures forall i :: 0 <= i < |callbacks| ==> Trace(callbacks, arg)[i].id == callbacks[i].id
  {
    if callbacks != [] {
      var n := |callbacks| - 1;
      TraceCallsEachOnce(callbacks[..n], arg);
    }
  }

  /** The first callback sees the argument exactly as passed to `Trigger`. */
  lemma FirstSeesArgument<A>(callbacks: seq<Callback<A>>, arg: A)
    requires callbacks != []
    ensures Trace(callbacks, arg)[0] == Invocation(callbacks[0].id, arg)
  {
    TraceCallsEachOnce(callbacks, arg);
    TracePrefix(callbacks, 1, arg);
    assert callbacks[..1][..0] == [];
  }

  /** The calls for the first k callbacks are the first k calls. */
  lemma {:induction false} TracePrefix<A>(callbacks: seq<Callback<A>>, k: nat, arg: A)
    requires k <= |callbacks|
    ensures |Trace(callbacks[..k], arg)| == k
    ensures k <= |Trace(callbacks, arg)| && Trace(callbacks, arg)[..k] == Trace(callbacks[..k], arg)
    decreases |callbacks|
  {
    TraceCallsEachOnce(callbacks, arg);
    TraceCallsEachOnce(callbacks[..k], arg);
    if k < |callbacks| {
      var n := |callbacks| - 1;
      assert callbacks[..n][..k] == callbacks[..k];
      TracePrefix(callbacks[..n], k, arg);
      TraceCallsEachOnce(callbacks[..n], arg);
      assert Trace(callbacks, arg)[..n] == Trace(callbacks[..n], arg);
    } else {
      assert callbacks[..k] == callbacks;
    }
  }

  /** The position of the callback `Remove` should erase: the first one wrapping the same
      callable. */
  function MatchIndex<A>(callbacks: seq<Callback<A>>, function_: Callback<A>): Option<nat>
  {
    FirstWhere(callbacks, (c: Callback<A>) => c.id == function_.id)
  }

  /** The list after erasing the first callback wrapping the same callable (none: unchanged). */
  function Removed<A>(callbacks: seq<Callback<A>>, function_: Callback<A>): seq<Callback<A>>
  {
    match MatchIndex(callbacks, function_)
    case None => callbacks
    case Some(i) => callbacks[..i] + callbacks[i + 1..]
  }

  /** Removal takes out at most one callback, only one wrapping the same callable, keeps the rest
      in order, and changes nothing when no callback matches. */
  lemma RemovedErasesOneMatch<A>(callbacks: seq<Callback<A>>, function_: Callback<A>)
    ensures (forall c :: c in callbacks ==> c.id != function_.id) ==> Removed(callbacks, function_) == callbacks
    ensures (exists c :: c in callbacks && c.id == function_.id) ==>
      |Removed(callbacks, function_)| == |callbacks| - 1 &&
      exists i :: 0 <= i < |callbacks| && callbacks[i].id == function_.id &&
        (forall j :: 0 <= j < i ==> callbacks[j].id != function_.id) &&
        Removed(callbacks, function_) == callbacks[..i] + callbacks[i + 1..]
  {
    if forall c :: c in callbacks ==> c.id != function_.id {
      FirstWhereNone(callbacks, (c: Callback<A>) => c.id == function_.id);
    } else {
      var c :| c in callbacks && c.id == function_.id;
      var k :| 0 <= k < |callbacks| && callbacks[k] == c;
      assert MatchIndex(callbacks, function_).Some?;
    }
  }

  /** `target<TFunction>()` with `TFunction` a call signature such as `void(EventArgs &)`:
      a `std::function` never stores an object of function type, so the answer is always null. */
  function TargetOfSignature<A>(c: Callback<A>): Option<nat>
  {
    None
  }

  /** `Remove` as written: erase the first callback whose target pointer equals the argument's. */
  function RemovedAsWritten<A>(callbacks: seq<Callback<A>>, function_: Callback<A>): (r: seq<Callback<A>>)
    ensures |r| <= |callbacks| <= |r| + 1
    ensures multiset(r) <= multiset(callbacks)
  {
    match FirstWhere(callbacks, (c: Callback<A>) => TargetOfSignature(c) == TargetOfSignature(function_))
    case None => callbacks
    case Some(i) =>
      assert callbacks == callbacks[..i] + [callbacks[i]] + callbacks[i + 1..];
      callbacks[..i] + callbacks[i + 1..]
  }

  /** As written, both target pointers are null, so the first callback is erased whichever one
      was asked for. */
  lemma AsWrittenRemovesFirst<A>(callbacks: seq<Callback<A>>, function_: Callback<A>)
    requires callbacks != []
    ensures RemovedAsWritten(callbacks, function_) == callbacks[1..]
  {
    FirstWhereAt(callbacks, (c: Callback<A>) => TargetOfSignature(c) == TargetOfSignature(function_), 0);
  }

  /** With callbacks 1 and 2 registered, removing callback 2 erases callback 1 instead. */
  lemma AsWrittenRemovesWrongCallback(f: int -> int, g: int -> int)
    ensures RemovedAsWritten([Callback(1, f), Callback(2, g)], Callback(2, g)) == [Callback(2, g)]
    ensures Removed([Callback(1, f), Callback(2, g)], Callback(2, g)) == [Callback(1, f)]
  {
    var cbs := [Callback(1, f), Callback(2, g)];
    AsWrittenRemovesFirst(cbs, Callback(2, g));
    FirstWhereAt(cbs, (c: Callback<int>) => c.id == 2, 1);
  }

  class Event<A> {
    var callbacks: seq<Callback<A>>

    constructor ()
      ensures callbacks == []
    {
      callbacks := [];
    }

    /** Appends the callback last. */
    method Add(function_: Callback<A>)
      modifies this
      ensures callbacks == old(callbacks) + [function_]
    {
      callbacks := callbacks + [function_];
    }

    /** Erases the first callback wrapping the same callable, if there is one. */
    method Remove(function_: Callback<A>)
      modifies this
      ensures callbacks == Removed(old(callbacks), function_)
    {
      var i := 0;
      while i < |callbacks|
        invariant 0 <= i <= |callbacks|
        invariant forall j :: 0 <= j < i ==> callbacks[j].id != function_.id
      {
        if callbacks[i].id == function_.id {
          FirstWhereAt(callbacks, (c: Callback<A>) => c.id == function_.id, i);
          callbacks := callbacks[..i] + callbacks[i + 1..];
          return;
        }
        i := i + 1;
      }
      FirstWhereNone(callbacks, (c: Callback<A>) => c.id == function_.id);
    }

    /** Empties the list. */
    method Clear()
      modifies this
      ensures callbacks == []
    {
      callbacks := [];
    }

    /** Copies the list, then calls every callback of the copy in order on one shared argument. */
    method Trigger(arg: A) returns (calls: seq<Invocation<A>>)
      ensures calls == Trace(callbacks, arg)
      ensures |calls| == |callbacks| && forall i :: 0 <= i < |calls| ==> calls[i].id == callbacks[i].id
    {
      var snapshot := callbacks;
      var current := arg;
      calls := [];
      for i := 0 to |snapshot|
        invariant calls == Trace(snapshot[..i], arg) && current == Threaded(snapshot[..i], arg)
      {
        assert snapshot[..i + 1][..i] == snapshot[..i];
        calls := calls + [Invocation(snapshot[i].id, current)];
        current := snapshot[i].effect(current);
      }
      assert snapshot[..|snapshot|] == snapshot;
      TraceCallsEachOnce(snapshot, arg);
    }

    /** `operator()`: the same as `Trigger`. */
    method Call(arg: A) returns (calls: seq<Invocation<A>>)
      ensures calls == Trace(callbacks, arg)
    {
      calls := Trigger(arg);
    }
  }
}

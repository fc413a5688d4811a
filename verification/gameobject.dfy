/** A game object: an ordered list of components, a list of components
    waiting to be removed at the end of its update, and the hooks it calls
    on them (gameobject.go). */
module GameObjects {
  import opened Prelude
  import opened Slices

  /** A component as the game object handles it: an identity (components
      are compared by reference) and its integer type tag. */
  class Component {
    const kind: int

    constructor (k: int)
      ensures kind == k
    {
      kind := k;
    }
  }

  /** The component hooks a game object calls: `OnAdd`, `OnRemove` and
      `Update`. */
  datatype Hook = Added | Removed | Updated

  datatype Event = Event(hook: Hook, component: Component)

  /** One `hook` call per component of `cs`, in order. */
  function Log(hook: Hook, cs: seq<Component>): seq<Event>
  {
    if cs == [] then [] else Log(hook, cs[..|cs| - 1]) + [Event(hook, cs[|cs| - 1])]
  }

  /** The `OnRemove` calls of `Remove(ts...)` on the list `s`: one for each
      element of `ts` that is still in the list when its turn comes. */
  function RemoveLog(s: seq<Component>, ts: seq<Component>): seq<Event>
    decreases ts
  {
    if ts == [] then []
    else (if ts[0] in s then [Event(Removed, ts[0])] else []) + RemoveLog(DeleteFirst(s, ts[0]), ts[1..])
  }

  /** `Get`: the first component with the given tag, if any. */
  function FirstOfKind(cs: seq<Component>, kind: int): (r: Option<Component>)
    ensures r.None? <==> forall i :: 0 <= i < |cs| ==> cs[i].kind != kind
    ensures r.Some? ==>
      exists i :: 0 <= i < |cs| && cs[i] == r.value && cs[i].kind == kind &&
        (forall j :: 0 <= j < i ==> cs[j].kind != kind)
  {
    if cs == [] then None
    else if cs[0].kind == kind then Some(cs[0])
    else
      var r := FirstOfKind(cs[1..], kind);
      if r.Some? then
        var i :| 0 <= i < |cs[1..]| && cs[1..][i] == r.value && cs[1..][i].kind == kind &&
          (forall j :: 0 <= j < i ==> cs[1..][j].kind != kind);
        assert cs[i + 1] == r.value && forall j :: 0 <= j < i + 1 ==> cs[j].kind != kind;
        r
      else r
  }

  /** One round of `Remove`'s outer loop: the first listed component is
      handled, then the rest. */
  lemma RemoveStep(s: seq<Component>, ts: seq<Component>, k: nat)
    requires k < |ts|
    ensures DeleteEach(s, ts[k..]) == DeleteEach(DeleteFirst(s, ts[k]), ts[k + 1..])
    ensures RemoveLog(s, ts[k..]) ==
      (if ts[k] in s then [Event(Removed, ts[k])] else []) + RemoveLog(DeleteFirst(s, ts[k]), ts[k + 1..])
  {
    assert ts[k..][0] == ts[k] && ts[k..][1..] == ts[k + 1..];
  }

  /** Each `OnRemove` call of `Remove` is for a component that was both
      listed and present; over a list without repetitions every listed
      component that is present gets its call. */
  lemma {:induction false} RemoveLogExact(s: seq<Component>, ts: seq<Component>)
    requires Distinct(s)
    ensures forall e :: e in RemoveLog(s, ts) ==> e.hook == Removed && e.component in s && e.component in ts
    ensures forall t :: t in ts && t in s ==> Event(Removed, t) in RemoveLog(s, ts)
    ensures |RemoveLog(s, ts)| <= |ts|
    decreases ts
  {
    if ts != [] {
      var s1 := DeleteFirst(s, ts[0]);
      DeleteFirstDistinct(s, ts[0]);
      FilterOutDistinct(s, [ts[0]]);
      RemoveLogExact(s1, ts[1..]);
      forall x | x in s1
        ensures x in s && x != ts[0]
      {
        FilterOutMember(s, [ts[0]], x);
      }
      forall t | t in ts && t in s
        ensures Event(Removed, t) in RemoveLog(s, ts)
      {
        if t != ts[0] {
          FilterOutMember(s, [ts[0]], t);
          assert t in ts[1..];
        }
      }
    }
  }

  /** Appending fresh components keeps the list free of repetitions. */
  lemma AddKeepsDistinct(s: seq<Component>, cs: seq<Component>)
    requires Distinct(s) && Distinct(cs)
    requires forall c :: c in cs ==> c !in s
    ensures Distinct(s + cs)
  {
    forall i, j | 0 <= i < j < |s + cs|
      ensures (s + cs)[i] != (s + cs)[j]
    {
      if j >= |s| && i < |s| {
        assert (s + cs)[j] in cs;
      }
    }
  }

  class GameObject {
    var components: seq<Component>
    var toRemove: seq<Component>
    /** Every hook called so far, in order. */
    ghost var events: seq<Event>

    /** `NewGameObject`: no components, nothing to remove. */
    constructor ()
      ensures components == [] && toRemove == [] && events == []
    {
      components := [];
      toRemove := [];
      events := [];
    }

    /** `Add`: for each component in argument order, `OnAdd` and then the
        append. */
    method Add(cs: seq<Component>)
      modifies this
      ensures components == old(components) + cs
      ensures events == old(events) + Log(Added, cs)
      ensures toRemove == old(toRemove)
    {
      var k := 0;
      while k < |cs|
        invariant 0 <= k <= |cs|
        invariant components == old(components) + cs[..k]
        invariant events == old(events) + Log(Added, cs[..k])
        invariant toRemove == old(toRemove)
      {
        assert cs[..k + 1][..k] == cs[..k];
        events := events + [Event(Added, cs[k])];
        components := components + [cs[k]];
        k := k + 1;
      }
      assert cs[..k] == cs;
    }

    /** The inner loop of `Remove`: the first identical component gets
        `OnRemove` and is spliced out, then the loop breaks. */
    method RemoveFirst(c: Component)
      modifies this
      ensures components == DeleteFirst(old(components), c)
      ensures events == old(events) + (if c in old(components) then [Event(Removed, c)] else [])
      ensures toRemove == old(toRemove)
    {
      var i := 0;
      while i < |components|
        invariant 0 <= i <= |components|
        invariant c !in components[..i]
        invariant components == old(components) && events == old(events)
        invariant toRemove == old(toRemove)
      {
        if components[i] == c {
          IndexOfUnique(components, i);
          events := events + [Event(Removed, c)];
          components := components[..i] + components[i + 1..];
          return;
        }
        assert components[..i + 1] == components[..i] + [components[i]];
        i := i + 1;
      }
      assert components[..i] == components;
    }

    /** `Remove`: the first occurrence of each listed component, in
        argument order; absent ones are ignored. */
    method Remove(cs: seq<Component>)
      modifies this
      ensures components == DeleteEach(old(components), cs)
      ensures events == old(events) + RemoveLog(old(components), cs)
      ensures toRemove == old(toRemove)
    {
      ghost var left := DeleteEach(components, cs);
      ghost var log := events + RemoveLog(components, cs);
      var k := 0;
      assert cs[k..] == cs;
      while k < |cs|
        invariant 0 <= k <= |cs|
        invariant left == DeleteEach(components, cs[k..])
        invariant log == events + RemoveLog(components, cs[k..])
        invariant toRemove == old(toRemove)
      {
        RemoveStep(components, cs, k);
        ghost var hook := if cs[k] in components then [Event(Removed, cs[k])] else [];
        ghost var tail := RemoveLog(DeleteFirst(components, cs[k]), cs[k + 1..]);
        AppendAssoc(events, hook, tail);
        ghost var before := events;
        RemoveFirst(cs[k]);
        assert events == before + hook;
        k := k + 1;
      }
      assert cs[k..] == [];
    }

    /** `Get`: the first component whose tag matches, or nil. */
    method Get(kind: int) returns (r: Component?)
      ensures r == null <==> FirstOfKind(components, kind).None?
      ensures r != null ==> FirstOfKind(components, kind) == Some(r)
    {
      var i := 0;
      while i < |components|
        invariant 0 <= i <= |components|
        invariant FirstOfKind(components, kind) == FirstOfKind(components[i..], kind)
      {
        if components[i].kind == kind {
          return components[i];
        }
        assert components[i..][1..] == components[i + 1..];
        i := i + 1;
      }
      return null;
    }

    /** `Clear`: `OnRemove` on every component in order, then an empty
        list. */
    method Clear()
      modifies this
      ensures components == []
      ensures events == old(events) + Log(Removed, old(components))
      ensures toRemove == old(toRemove)
    {
      var k := 0;
      while k < |components|
        invariant 0 <= k <= |components|
        invariant components == old(components)
        invariant events == old(events) + Log(Removed, components[..k])
        invariant toRemove == old(toRemove)
      {
        assert components[..k + 1][..k] == components[..k];
        events := events + [Event(Removed, components[k])];
        k := k + 1;
      }
      assert components[..k] == components;
      components := [];
    }

    /** `Update`: every component's `Update` in list order, then the
        deferred removals (one `range` splice per queued component), then
        an empty queue.  Components are never added twice, so the list has
        no repetitions. */
    method Update()
      requires Distinct(components)
      modifies this
      ensures events == old(events) + Log(Updated, old(components))
      ensures components == FilterOut(old(components), old(toRemove))
      ensures toRemove == []
    {
      var k := 0;
      while k < |components|
        invariant 0 <= k <= |components|
        invariant components == old(components) && toRemove == old(toRemove)
        invariant events == old(events) + Log(Updated, components[..k])
      {
        assert components[..k + 1][..k] == components[..k];
        events := events + [Event(Updated, components[k])];
        k := k + 1;
      }
      assert components[..k] == components;
      var rest, _ := RangeSpliceAll(components, toRemove);
      RemovalPassFilters(components, toRemove);
      components := rest;
      toRemove := [];
    }
  }
}

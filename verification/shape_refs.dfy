/** The shared `shapeRefsMap` every shape renderer writes to, so that a
    multi-select drag can address any selected node whatever its kind.

    Each renderer runs one effect keyed on its shape id: when it has a drawn
    node it sets `refs[id]` and returns a cleanup that deletes `refs[id]`;
    when it drew nothing (its ref is null) it registers nothing and returns no
    cleanup. React runs the previous cleanup before re-running the effect for
    a new id, and runs the last cleanup on unmount. */
module ShapeRefs {
  import opened Optional

  /** A drawn Konva node, by identity. */
  type Handle = nat

  type RefMap = map<string, Handle>

  /** Where one renderer component is in its lifecycle; `cleanup` is the id
      its pending cleanup will delete, if any. */
  datatype Component = Unmounted | Mounted(id: string, cleanup: Option<string>)

  /** What React does to the component: mount it for a shape, re-render it
      with a different shape id, or unmount it. `node` is the drawn node, or
      None when the renderer returned nothing. */
  datatype Event = Mount(id: string, node: Option<Handle>) | ChangeId(id: string, node: Option<Handle>) | Unmount

  /** The effect body: register the node under the shape id if there is one. */
  function Register(refs: RefMap, id: string, node: Option<Handle>): (r: (RefMap, Option<string>))
    ensures node.Some? ==> r.0 == refs[id := node.value] && r.1 == Some(id)
    ensures node.None? ==> r.0 == refs && r.1 == None
  {
    if node.Some? then (refs[id := node.value], Some(id)) else (refs, None)
  }

  /** The cleanup the effect returned, if any. */
  function Cleanup(refs: RefMap, cleanup: Option<string>): (r: RefMap)
    ensures cleanup.Some? ==> r.Keys == refs.Keys - {cleanup.value}
    ensures forall k :: k in r ==> k in refs && r[k] == refs[k]
    ensures cleanup.None? ==> r == refs
  {
    if cleanup.Some? then refs - {cleanup.value} else refs
  }

  /** Registration followed by its own cleanup removes exactly that id and
      touches no other entry. */
  lemma RegisterThenCleanup(refs: RefMap, id: string, node: Option<Handle>)
    ensures var (r1, c) := Register(refs, id, node);
            Cleanup(r1, c) == if node.Some? then refs - {id} else refs
  {
  }

  /** One lifecycle step of a renderer component. */
  function Step(refs: RefMap, c: Component, e: Event): (RefMap, Component) {
    match e
    case Mount(id, node) =>
      if c.Mounted? then (refs, c)
      else var (r1, cl) := Register(refs, id, node); (r1, Mounted(id, cl))
    case ChangeId(id, node) =>
      if c.Unmounted? || c.id == id then (refs, c)
      else var (r1, cl) := Register(Cleanup(refs, c.cleanup), id, node); (r1, Mounted(id, cl))
    case Unmount =>
      if c.Unmounted? then (refs, c)
      else (Cleanup(refs, c.cleanup), Unmounted)
  }

  function Run(refs: RefMap, c: Component, es: seq<Event>): (RefMap, Component)
    decreases |es|
  {
    if es == [] then (refs, c)
    else var (r1, c1) := Step(refs, c, es[0]); Run(r1, c1, es[1..])
  }

  /** The ids a sequence of events mounts the component under. */
  function EventIds(es: seq<Event>): (r: set<string>)
    ensures forall i :: 0 <= i < |es| && !es[i].Unmount? ==> es[i].id in r
  {
    if es == [] then {}
    else (if es[0].Unmount? then {} else {es[0].id}) + EventIds(es[1..])
  }

  /** The map holds the entries it started with plus, at most, the one the
      component currently owns. */
  predicate Owns(base: RefMap, refs: RefMap, c: Component) {
    && (c.Mounted? ==> c.id !in base)
    && (c.Mounted? && c.cleanup.Some? ==> c.cleanup.value == c.id && refs.Keys == base.Keys + {c.id})
    && (c.Unmounted? || c.cleanup.None? ==> refs.Keys == base.Keys)
    && (forall k :: k in base ==> refs[k] == base[k])
  }

  /** Whatever sequence of mounts, id changes and unmounts the component goes
      through, the entries registered by others are never touched, and the
      map never holds more than the one entry the component currently owns. */
  lemma {:induction false} RunKeepsOwnership(base: RefMap, refs: RefMap, c: Component, es: seq<Event>)
    requires EventIds(es) !! base.Keys
    requires Owns(base, refs, c)
    ensures Owns(base, Run(refs, c, es).0, Run(refs, c, es).1)
    decreases |es|
  {
    if es != [] {
      var (r1, c1) := Step(refs, c, es[0]);
      assert EventIds(es[1..]) <= EventIds(es);
      if !es[0].Unmount? { assert es[0].id in EventIds(es); }
      RunKeepsOwnership(base, r1, c1, es[1..]);
    }
  }

  /** No entry outlives its component: after the component unmounts, the map
      is exactly what it was before the component first mounted. */
  lemma LifecycleLeavesNoEntry(base: RefMap, es: seq<Event>)
    requires EventIds(es) !! base.Keys
    ensures var (r, c) := Run(base, Unmounted, es + [Unmount]);
            c == Unmounted && r == base
  {
    var (r0, c0) := Run(base, Unmounted, es);
    RunKeepsOwnership(base, base, Unmounted, es);
    RunAppend(base, Unmounted, es, [Unmount]);
    var r := Step(r0, c0, Unmount).0;
    assert r.Keys == base.Keys;
    assert forall k :: k in r ==> r[k] == base[k];
  }

  lemma {:induction false} RunAppend(refs: RefMap, c: Component, es: seq<Event>, more: seq<Event>)
    ensures Run(refs, c, es + more) == var (r1, c1) := Run(refs, c, es); Run(r1, c1, more)
    decreases |es|
  {
    if es == [] {
      assert es + more == more;
    } else {
      var (r1, c1) := Step(refs, c, es[0]);
      assert (es + more)[0] == es[0];
      assert (es + more)[1..] == es[1..] + more;
      RunAppend(r1, c1, es[1..], more);
    }
  }
}

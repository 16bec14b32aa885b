/** Whole `use_namespace` blocks: enter, a body that binds names, exit.

    A body is modelled by the bindings it makes, in order: plain top-level
    assignments, which store into the globals, and item or attribute
    writes through `G` or through one namespace object. An exception in
    the body only cuts the sequence short; the exit runs all the same, so
    ScopedBlock, UnscopedBlock and DisabledBlock, which hold for every
    sequence, cover that case. */
module Protocol {
  import opened Values
  import opened AttributeDicts
  import opened Namespaces

  /** One binding made by the body of a block. */
  datatype Write =
    | Assign(key: string, value: Value)        // `key = value` in the cell
    | ThroughG(key: string, value: Value)      // `G[key] = value`, or `G.key = value` for a key other than `__dict__`
    | ThroughScope(key: string, value: Value)  // the same through a namespace object

  /** The effect of one write; `via` is the namespace written through,
      None when the body has no namespace object at hand. */
  function Apply(s: State, w: Write, via: Option<ScopeId>): (r: State)
    requires via.Some? ==> via.value in s.scopes
    requires w.ThroughScope? ==> via.Some?
    ensures r.scopes.Keys == s.scopes.Keys
    ensures r.registry == s.registry && r.nextId == s.nextId && r.phase == s.phase
  {
    match w
    case Assign(k, v) => s.(main := s.main[k := v])
    case ThroughG(k, v) => SetItem(s, G, k, v)
    case ThroughScope(k, v) => SetItem(s, Scope(via.value), k, v)
  }

  /** Whether every write of `ws` can be made in `s` through `via`: a
      namespace that exists, or none and then no write through one. */
  predicate Fits(s: State, ws: seq<Write>, via: Option<ScopeId>)
  {
    match via
    case Some(id) => id in s.scopes
    case None => forall w :: w in ws ==> !w.ThroughScope?
  }

  /** The effect of a body. */
  function Run(s: State, ws: seq<Write>, via: Option<ScopeId>): (r: State)
    requires Fits(s, ws, via)
    ensures r.scopes.Keys == s.scopes.Keys
    ensures r.registry == s.registry && r.nextId == s.nextId && r.phase == s.phase
    ensures Valid(s) ==> Valid(r)
    decreases |ws|
  {
    if ws == [] then s
    else
      assert ws[0] in ws;
      Run(Apply(s, ws[0], via), ws[1..], via)
  }

  /** Whether the table written through `via` is write-through. */
  predicate ScopeWritesThrough(s: State, via: Option<ScopeId>)
    requires via.Some? ==> via.value in s.scopes
  {
    via.Some? && s.scopes[via.value].writeThrough
  }

  /** The namespace tables after `written` is made through `via`. */
  function ScopesAfter(s: State, via: Option<ScopeId>, written: Dict): (r: map<ScopeId, Table>)
    requires via.Some? ==> via.value in s.scopes
    ensures r.Keys == s.scopes.Keys
  {
    match via
    case None => s.scopes
    case Some(id) => s.scopes[id := Table(s.scopes[id].entries + written, s.scopes[id].writeThrough)]
  }

  /** Whether a write is of a kind the three flags select. */
  predicate Selected(w: Write, throughG: bool, throughScope: bool, assigns: bool)
  {
    match w
    case Assign(_, _) => assigns
    case ThroughG(_, _) => throughG
    case ThroughScope(_, _) => throughScope
  }

  /** The binding a write makes, if the three flags select its kind. */
  function Binding(w: Write, throughG: bool, throughScope: bool, assigns: bool): (r: Dict)
  {
    if Selected(w, throughG, throughScope, assigns) then map[w.key := w.value] else map[]
  }

  /** The bindings made by the selected writes, a later write of a key
      winning over an earlier one. */
  function Writes(ws: seq<Write>, throughG: bool, throughScope: bool, assigns: bool): (r: Dict)
  {
    if ws == [] then map[]
    else Binding(ws[0], throughG, throughScope, assigns) + Writes(ws[1..], throughG, throughScope, assigns)
  }

  lemma UnionAssociates(a: Dict, b: Dict, c: Dict)
    ensures (a + b) + c == a + (b + c)
  {
  }

  lemma UnionUnit(s: State, via: Option<ScopeId>)
    requires via.Some? ==> via.value in s.scopes
    ensures s.g.entries + map[] == s.g.entries && s.main + map[] == s.main
    ensures ScopesAfter(s, via, map[]) == s.scopes
  {
    if via.Some? {
      var t := s.scopes[via.value];
      assert t.entries + map[] == t.entries;
      assert Table(t.entries + map[], t.writeThrough) == t;
    }
  }

  /** One write, in the terms of Writes. */
  lemma ApplyEffect(s: State, w: Write, via: Option<ScopeId>)
    requires via.Some? ==> via.value in s.scopes
    requires w.ThroughScope? ==> via.Some?
    ensures var r := Apply(s, w, via);
      && r.g == Table(s.g.entries + Binding(w, true, false, false), s.g.writeThrough)
      && r.scopes == ScopesAfter(s, via, Binding(w, false, true, false))
      && r.main == s.main + Binding(w, s.g.writeThrough, ScopeWritesThrough(s, via), true)
  {
    UnionUnit(s, via);
    match w
    case Assign(k, v) =>
      assert s.main[k := v] == s.main + map[k := v];
    case ThroughG(k, v) =>
      assert s.g.entries[k := v] == s.g.entries + map[k := v];
      assert s.main[k := v] == s.main + map[k := v];
    case ThroughScope(k, v) =>
      var t := s.scopes[via.value];
      assert t.entries[k := v] == t.entries + map[k := v];
      assert s.main[k := v] == s.main + map[k := v];
  }

  /** A body changes G's table by exactly its writes through G, the
      namespace's table by exactly its writes through the namespace, and
      the globals by its assignments and by its writes through whichever
      of the two tables is write-through. Nothing else changes. */
  lemma {:induction false} RunEffect(s: State, ws: seq<Write>, via: Option<ScopeId>)
    requires Fits(s, ws, via)
    ensures var r := Run(s, ws, via);
      && r.g == Table(s.g.entries + Writes(ws, true, false, false), s.g.writeThrough)
      && r.scopes == ScopesAfter(s, via, Writes(ws, false, true, false))
      && r.main == s.main + Writes(ws, s.g.writeThrough, ScopeWritesThrough(s, via), true)
      && r.registry == s.registry && r.nextId == s.nextId && r.phase == s.phase
    decreases |ws|
  {
    var gw, sw := s.g.writeThrough, ScopeWritesThrough(s, via);
    if ws == [] {
      UnionUnit(s, via);
    } else {
      var w := ws[0];
      assert w in ws;
      var s' := Apply(s, w, via);
      ApplyEffect(s, w, via);
      assert ScopeWritesThrough(s', via) == sw;
      assert Fits(s', ws[1..], via) by {
        if via.None? {
          forall w' | w' in ws[1..] ensures !w'.ThroughScope? {
            assert w' in ws;
          }
        }
      }
      RunEffect(s', ws[1..], via);
      assert Run(s, ws, via) == Run(s', ws[1..], via);
      UnionAssociates(s.g.entries, Binding(w, true, false, false), Writes(ws[1..], true, false, false));
      UnionAssociates(s.main, Binding(w, gw, sw, true), Writes(ws[1..], gw, sw, true));
      ScopesStep(s, s', ws, via);
    }
  }

  /** The namespace tables after the first write of `ws` and then the
      rest are those after all of `ws`. */
  lemma ScopesStep(s: State, s': State, ws: seq<Write>, via: Option<ScopeId>)
    requires ws != [] && (via.Some? ==> via.value in s.scopes)
    requires s'.scopes == ScopesAfter(s, via, Binding(ws[0], false, true, false))
    ensures ScopesAfter(s', via, Writes(ws[1..], false, true, false)) == ScopesAfter(s, via, Writes(ws, false, true, false))
  {
    if via.Some? {
      var id := via.value;
      var t := s.scopes[id];
      UnionAssociates(t.entries, Binding(ws[0], false, true, false), Writes(ws[1..], false, true, false));
    }
  }

  /** An enabled block on namespace `id`: inside, the globals are the
      entry globals overridden by the namespace's bindings; after the exit
      the namespace holds its bindings plus those written through it,
      and is plain again, while the globals are the entry globals plus
      what was written through G. Plain assignments and the namespace's
      own bindings are gone from the globals. */
  lemma ScopedBlock(s: State, id: ScopeId, ws: seq<Write>)
    requires Valid(s) && s.phase.Idle? && id in s.scopes
    ensures var e := Enter(s, true, None, Some(id));
      && e.yielded == Some(id)
      && e.state.main == s.main + s.scopes[id].entries
      && var x := Exit(Run(e.state, ws, Some(id)), None);
      && x.outcome == Completed
      && x.state.main == s.main + Writes(ws, true, false, false)
      && x.state.scopes == s.scopes[id := Table(s.scopes[id].entries + Writes(ws, false, true, false), false)]
      && x.state.g == EmptyTable && x.state.phase == Idle
      && x.state.registry == s.registry
  {
    var e := Enter(s, true, None, Some(id));
    RunEffect(e.state, ws, Some(id));
  }

  /** An enabled block without a namespace: after the exit the globals
      are the entry globals plus what was written through G, whatever the
      body assigned or wrote through a namespace object `via` it holds,
      which keeps those writes. `via` is None when the body writes through
      no namespace, as in a session that has none. */
  lemma UnscopedBlock(s: State, via: Option<ScopeId>, ws: seq<Write>)
    requires Valid(s) && s.phase.Idle? && Fits(s, ws, via)
    ensures var e := Enter(s, true, None, None);
      && e.yielded == None
      && e.state.main == s.main
      && var x := Exit(Run(e.state, ws, via), None);
      && x.outcome == Completed
      && x.state.main == s.main + Writes(ws, true, false, false)
      && x.state.scopes == ScopesAfter(s, via, Writes(ws, false, true, false))
      && x.state.g == EmptyTable && x.state.phase == Idle
  {
    var e := Enter(s, true, None, None);
    RunEffect(e.state, ws, via);
  }

  /** A disabled block merges nothing on entry and restores nothing on
      exit: the globals after the exit are those at the end of the body,
      that is the entry globals plus every assignment and every write
      through G (and through the namespace `via` if its table is
      write-through). The exit only deletes G's table. */
  lemma DisabledBlock(s: State, ns: Option<ScopeId>, via: Option<ScopeId>, ws: seq<Write>)
    requires Valid(s) && s.phase.Idle? && Fits(s, ws, via)
    requires ns.Some? ==> ns.value in s.scopes
    ensures var e := Enter(s, false, None, ns);
      && e.yielded == None
      && e.state.main == s.main && e.state.scopes == s.scopes
      && var b := Run(e.state, ws, via);
      && var x := Exit(b, None);
      && x.outcome == Completed
      && x.state.main == b.main
      && x.state.main == s.main + Writes(ws, true, ScopeWritesThrough(s, via), true)
      && x.state.scopes == ScopesAfter(s, via, Writes(ws, false, true, false))
      && x.state.g == EmptyTable && x.state.phase == Idle
  {
    var e := Enter(s, false, None, ns);
    RunEffect(e.state, ws, via);
  }

  /** Right after import there is no namespace object, and an enabled
      block without one still brings back the import-time globals plus
      what was written through G. */
  lemma BlockAfterImport(globals: Dict, ws: seq<Write>)
    requires forall w :: w in ws ==> !w.ThroughScope?
    ensures var s := State(globals, EmptyTable, map[], map[], 0, Idle);
      && var x := Exit(Run(Enter(s, true, None, None).state, ws, None), None);
      && x.outcome == Completed
      && x.state == State(globals + Writes(ws, true, false, false), EmptyTable, map[], map[], 0, Idle)
  {
    var s := State(globals, EmptyTable, map[], map[], 0, Idle);
    UnscopedBlock(s, None, ws);
  }

  /** Restoring right after a snapshot gives the globals back unchanged
      and leaves G's table deleted; nothing else changes. */
  lemma SnapshotThenRestore(s: State)
    ensures Restore(Snapshot(s), None) == Restored(s.(g := EmptyTable), Completed)
  {
  }

  /** When both are given, `use_namespace` works on `namespaces[name]`
      and ignores `ns`. */
  lemma NameWins(s: State, enable: bool, name: string, ns: Option<ScopeId>)
    requires Valid(s) && s.phase.Idle?
    requires ns.Some? ==> ns.value in s.scopes
    ensures var c := Resolve(s, name);
      Enter(s, enable, Some(name), ns) == Enter(c.state, enable, None, Some(c.id))
  {
  }

  /** Looking a name up twice gives the same namespace, and the second
      lookup changes nothing. */
  lemma ResolveTwice(s: State, name: string)
    requires Valid(s)
    ensures var c := Resolve(s, name);
      Resolve(c.state, name) == c
  {
  }

  /** Bindings made through a named namespace persist: after a block on
      `namespaces[name]` that writes `key` through it, a later lookup of
      `name` finds the same namespace with `key` bound to `value`. */
  lemma NamedBindingPersists(s: State, name: string, key: string, value: Value)
    requires Valid(s) && s.phase.Idle?
    ensures var e := Enter(s, true, Some(name), None);
      && e.yielded.Some?
      && var x := Exit(Run(e.state, [ThroughScope(key, value)], e.yielded), None);
      && var again := Resolve(x.state, name);
      && again.id == e.yielded.value
      && again.state == x.state
      && Get(TableOf(x.state, Scope(again.id)), key) == Ok(value)
  {
  }

  /** A plain assignment inside an enabled block on a namespace is seen
      by the body but is neither kept in the globals nor absorbed into
      the namespace. */
  lemma AssignmentNotAbsorbed(s: State, id: ScopeId, key: string, value: Value)
    requires Valid(s) && s.phase.Idle? && id in s.scopes
    ensures var e := Enter(s, true, None, Some(id));
      && var b := Run(e.state, [Assign(key, value)], Some(id));
      && key in b.main && b.main[key] == value
      && var x := Exit(b, None);
      && x.state.main == s.main
      && x.state.scopes[id] == Table(s.scopes[id].entries, false)
  {
  }
}

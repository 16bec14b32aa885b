/** The state of the namespace module and, as functions over it, what each
    of its operations does.

    The state is the global table of `__main__`, the table of the `G`
    object, the `namespaces` registry, the table of every `Namespace`
    object, and the phase of the one `use_namespace` block that may be
    running. */
module Namespaces {
  import opened Values
  import opened AttributeDicts

  /** An object whose attributes live in a table: `G` or a `Namespace`. */
  datatype Owner = G | Scope(id: ScopeId)

  /** `Idle` outside a `use_namespace` block; inside one, whether it was
      enabled and which namespace it was given. */
  datatype Phase = Idle | Active(enabled: bool, ns: Option<ScopeId>)

  datatype State = State(
    main: Dict,                        // vars(__main__)
    g: Table,                          // G.__dict__
    registry: map<string, ScopeId>,    // namespaces.__dict__
    scopes: map<ScopeId, Table>,       // the __dict__ of each Namespace object
    nextId: ScopeId,                   // the identity the next Namespace() gets
    phase: Phase)

  ghost predicate Valid(s: State)
  {
    && (forall n :: n in s.registry ==> s.registry[n] in s.scopes)
    && (forall id :: id in s.scopes ==> id < s.nextId)
    && (s.phase.Active? && s.phase.ns.Some? ==> s.phase.ns.value in s.scopes)
  }

  predicate Owns(s: State, o: Owner)
  {
    o.G? || o.id in s.scopes
  }

  function TableOf(s: State, o: Owner): (r: Table)
    requires Owns(s, o)
  {
    if o.G? then s.g else s.scopes[o.id]
  }

  /** `s` with the attribute table of `o` replaced by `t`. */
  function WithTable(s: State, o: Owner, t: Table): (r: State)
    requires Owns(s, o)
    ensures Owns(r, o) && TableOf(r, o) == t
    ensures forall o' :: Owns(s, o') && o' != o ==> Owns(r, o') && TableOf(r, o') == TableOf(s, o')
    ensures r.main == s.main && r.registry == s.registry && r.nextId == s.nextId && r.phase == s.phase
    ensures r.scopes.Keys == s.scopes.Keys
  {
    if o.G? then s.(g := t) else s.(scopes := s.scopes[o.id := t])
  }

  /** `obj[key] = value` (AttributeDict.__setitem__) on `G` or a namespace:
      the key is rebound in the object's table and nowhere else, except
      that a write-through table also rebinds it in the globals. */
  function SetItem(s: State, o: Owner, key: string, value: Value): (r: State)
    requires Owns(s, o)
    ensures Owns(r, o) && Get(TableOf(r, o), key) == Ok(value)
    ensures forall k :: k != key ==> Get(TableOf(r, o), k) == Get(TableOf(s, o), k)
    ensures TableOf(r, o).writeThrough == TableOf(s, o).writeThrough
    ensures TableOf(s, o).writeThrough ==> Rebinds(s.main, key, value, r.main)
    ensures !TableOf(s, o).writeThrough ==> r.main == s.main
    ensures forall o' :: Owns(s, o') && o' != o ==> Owns(r, o') && TableOf(r, o') == TableOf(s, o')
    ensures r.registry == s.registry && r.nextId == s.nextId && r.phase == s.phase
    ensures r.scopes.Keys == s.scopes.Keys
  {
    var st := Store(TableOf(s, o), s.main, key, value);
    WithTable(s, o, st.table).(main := st.main)
  }

  /** `obj.name = value` (GlobalNamespace.__setattr__, inherited by
      Namespace): an item write for every name but `__dict__`; assigning
      `__dict__` replaces the whole table by the given dictionary, and
      raises TypeError for anything else. */
  function SetAttr(s: State, o: Owner, name: string, value: Value): (r: Result<State>)
    requires Owns(s, o)
    ensures name != DictAttr ==> r == Ok(SetItem(s, o, name, value))
    ensures name == DictAttr && value.DictObject? ==>
      r.Ok? && Owns(r.value, o) && TableOf(r.value, o) == value.table && r.value.main == s.main
    ensures name == DictAttr && value.DictObject? ==>
      forall o' :: Owns(s, o') && o' != o ==> Owns(r.value, o') && TableOf(r.value, o') == TableOf(s, o')
    ensures name == DictAttr && value.DictObject? ==>
      && r.value.registry == s.registry && r.value.nextId == s.nextId && r.value.phase == s.phase
      && r.value.scopes.Keys == s.scopes.Keys
    ensures r.Ok? && Valid(s) ==> Valid(r.value)
    ensures name == DictAttr && !value.DictObject? ==> r == Err(TypeError)
  {
    if name != DictAttr then Ok(SetItem(s, o, name, value))
    else if value.DictObject? then Ok(WithTable(s, o, value.table))
    else Err(TypeError)
  }

  /** A new namespace and the state that holds it. */
  datatype Created = Created(state: State, id: ScopeId)

  /** `Namespace()`: a new object with an empty plain table. */
  function NewNamespace(s: State): (r: Created)
    requires Valid(s)
    ensures Valid(r.state)
    ensures r.id !in s.scopes && r.state.scopes == s.scopes[r.id := EmptyTable]
    ensures r.state.main == s.main && r.state.g == s.g
    ensures r.state.registry == s.registry && r.state.phase == s.phase
  {
    Created(s.(scopes := s.scopes[s.nextId := EmptyTable], nextId := s.nextId + 1), s.nextId)
  }

  /** `namespaces[name]` (NamespaceHolder.__getitem__): the namespace
      registered under `name`, registering a new empty one first when the
      name is unseen. */
  function Resolve(s: State, name: string): (r: Created)
    requires Valid(s)
    ensures Valid(r.state)
    ensures name in r.state.registry && r.state.registry[name] == r.id && r.id in r.state.scopes
    ensures name in s.registry ==> r.state == s && r.id == s.registry[name]
    ensures name !in s.registry ==>
      && r.id !in s.scopes
      && r.state.scopes == s.scopes[r.id := EmptyTable]
      && r.state.registry == s.registry[name := r.id]
    ensures r.state.main == s.main && r.state.g == s.g && r.state.phase == s.phase
  {
    if name in s.registry then Created(s, s.registry[name])
    else
      var c := NewNamespace(s);
      Created(c.state.(registry := c.state.registry[name := c.id]), c.id)
  }

  /** `name in namespaces` (AttributeDict.__contains__ on the registry):
      holds exactly when looking the name up would not register anything. */
  predicate Registered(s: State, name: string)
    ensures Valid(s) ==> (Registered(s, name) <==> Resolve(s, name).state == s)
  {
    name in s.registry
  }

  /** `globals_snapshot()`: G's table becomes a write-through copy of the
      globals; the globals themselves are not written. */
  function Snapshot(s: State): (r: State)
    ensures r.g.entries == s.main && r.g.writeThrough
    ensures r == s.(g := r.g)
  {
    s.(g := Table(s.main, true))
  }

  /** What `globals_restore()` and the exit of a block leave behind. */
  datatype Restored = Restored(state: State, outcome: Outcome)

  /** `globals_restore()`. The globals are cleared and refilled from G's
      table. `fault` says whether the refill raised, and if so which of
      G's bindings it had written by then; the handler then writes the
      copy of the globals taken beforehand over them and re-raises. G's
      table is deleted in every case. */
  function Restore(s: State, fault: Option<Dict>): (r: Restored)
    requires fault.Some? ==> SubDict(fault.value, s.g.entries)
    ensures r.state.g == EmptyTable
    ensures fault.None? ==> r.outcome == Completed && r.state.main == s.g.entries
    ensures fault.Some? ==> r.outcome == Raised(UpdateFailed)
    ensures fault.Some? ==> forall k :: k in s.main ==> k in r.state.main && r.state.main[k] == s.main[k]
    ensures fault.Some? ==> r.state.main.Keys == s.main.Keys + fault.value.Keys
    ensures fault.Some? ==>
      forall k :: k in fault.value && k !in s.main ==> r.state.main[k] == fault.value[k]
    ensures r.state == s.(main := r.state.main, g := EmptyTable)
  {
    var fallback := s.main;
    match fault
    case None => Restored(s.(main := s.g.entries, g := EmptyTable), Completed)
    case Some(written) => Restored(s.(main := written + fallback, g := EmptyTable), Raised(UpdateFailed))
  }

  /** The state inside a block and the value bound by its `as` clause. */
  datatype Entered = Entered(state: State, yielded: Option<ScopeId>)

  /** The namespace a block works on: `namespaces[name]` when a name is
      given (the name wins over `ns`), else `ns`. */
  function Target(s: State, name: Option<string>, ns: Option<ScopeId>): (r: Entered)
    requires Valid(s)
    requires ns.Some? ==> ns.value in s.scopes
    ensures Valid(r.state)
    ensures r.yielded.Some? ==> r.yielded.value in r.state.scopes
  {
    if name.Some? then
      var c := Resolve(s, name.value);
      Entered(c.state, Some(c.id))
    else Entered(s, ns)
  }

  /** Entering `with use_namespace(enable, name, ns)`. The globals are
      always snapshotted into G. An enabled block with a namespace turns
      the namespace's table into a write-through copy and writes its
      bindings over the globals, and binds the namespace; otherwise
      nothing else changes and None is bound. */
  function Enter(s: State, enable: bool, name: Option<string>, ns: Option<ScopeId>): (r: Entered)
    requires Valid(s) && s.phase.Idle?
    requires ns.Some? ==> ns.value in s.scopes
    ensures Valid(r.state) && r.state.phase.Active? && r.state.phase.enabled == enable
    ensures r.state.phase.ns == Target(s, name, ns).yielded
    ensures r.state.g == Table(s.main, true)
    ensures r.state.registry == Target(s, name, ns).state.registry
    ensures r.state.nextId == Target(s, name, ns).state.nextId
    ensures enable && r.state.phase.ns.Some? ==>
      var id := r.state.phase.ns.value;
      var t := Target(s, name, ns).state.scopes[id];
      && r.yielded == Some(id)
      && r.state.scopes == Target(s, name, ns).state.scopes[id := Table(t.entries, true)]
      && r.state.main == s.main + t.entries
    ensures !(enable && r.state.phase.ns.Some?) ==>
      && r.yielded == None
      && r.state.scopes == Target(s, name, ns).state.scopes
      && r.state.main == s.main
  {
    var target := Target(s, name, ns);
    var s1 := Snapshot(target.state);
    if enable && target.yielded.Some? then
      var id := target.yielded.value;
      var t := s1.scopes[id];
      var s2 := s1.(scopes := s1.scopes[id := Table(t.entries, true)]);
      Entered(s2.(main := s2.main + t.entries, phase := Active(true, target.yielded)), target.yielded)
    else
      Entered(s1.(phase := Active(enable, target.yielded)), None)
  }

  /** Leaving the block, normally or by an exception from its body (the
      `finally` clauses). An enabled block turns the namespace's table
      back into a plain copy of itself and then restores the globals from
      G; a disabled block only deletes G's table. */
  function Exit(s: State, fault: Option<Dict>): (r: Restored)
    requires Valid(s) && s.phase.Active?
    requires fault.Some? ==> SubDict(fault.value, s.g.entries)
    ensures Valid(r.state) && r.state.phase == Idle && r.state.g == EmptyTable
    ensures r.state.registry == s.registry && r.state.nextId == s.nextId
    ensures s.phase.enabled && s.phase.ns.Some? ==>
      var id := s.phase.ns.value;
      r.state.scopes == s.scopes[id := Table(s.scopes[id].entries, false)]
    ensures !(s.phase.enabled && s.phase.ns.Some?) ==> r.state.scopes == s.scopes
    ensures s.phase.enabled && fault.None? ==> r.outcome == Completed && r.state.main == s.g.entries
    ensures s.phase.enabled && fault.Some? ==>
      && r.outcome == Raised(UpdateFailed)
      && (forall k :: k in s.main ==> k in r.state.main && r.state.main[k] == s.main[k])
      && r.state.main.Keys == s.main.Keys + fault.value.Keys
      && (forall k :: k in fault.value && k !in s.main ==> r.state.main[k] == fault.value[k])
    ensures !s.phase.enabled ==> r.outcome == Completed && r.state.main == s.main
  {
    if s.phase.enabled then
      var s1 :=
        if s.phase.ns.Some? then
          var id := s.phase.ns.value;
          s.(scopes := s.scopes[id := Table(s.scopes[id].entries, false)])
        else s;
      var restored := Restore(s1, fault);
      restored.(state := restored.state.(phase := Idle))
    else
      Restored(s.(g := EmptyTable, phase := Idle), Completed)
  }
}

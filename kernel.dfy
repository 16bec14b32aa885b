/** The namespace module as it runs: one object holding the mutable
    dictionaries the Python code changes in place. Each method performs
    the statements of one operation, and its contract ties the new state
    to the function in module Namespaces that describes the operation. */
module Kernel {
  import opened Values
  import N = Namespaces

  class Session {
    var main: Dict                      // vars(__main__)
    var g: Table                        // G.__dict__
    var registry: map<string, ScopeId>  // namespaces.__dict__
    var scopes: map<ScopeId, Table>     // Namespace objects' __dict__
    var nextId: ScopeId
    var phase: N.Phase

    function Abs(): N.State
      reads this
    {
      N.State(main, g, registry, scopes, nextId, phase)
    }

    ghost predicate Valid()
      reads this
    {
      N.Valid(Abs())
    }

    /** Importing the module into an interpreter whose globals are
        `globals`: `G = GlobalNamespace()` and `namespaces =
        NamespaceHolder()` both start with empty plain tables. */
    constructor (globals: Dict)
      ensures Valid()
      ensures Abs() == N.State(globals, EmptyTable, map[], map[], 0, N.Idle)
    {
      main := globals;
      g := EmptyTable;
      registry := map[];
      scopes := map[];
      nextId := 0;
      phase := N.Idle;
    }

    /** `obj[key] = value`. The dictionary's own `__setitem__` runs: a
        `GDict` writes the globals first, then itself. */
    method SetItem(o: N.Owner, key: string, value: Value)
      requires Valid() && N.Owns(Abs(), o)
      modifies this
      ensures Valid()
      ensures Abs() == N.SetItem(old(Abs()), o, key, value)
    {
      var t := N.TableOf(Abs(), o);
      if t.writeThrough {
        main := main[key := value];
      }
      t := t.(entries := t.entries[key := value]);
      if o.G? {
        g := t;
      } else {
        scopes := scopes[o.id := t];
      }
    }

    /** `obj.name = value`: an item write, except that `__dict__` replaces
        the whole table (TypeError, and no change, for a non-dictionary). */
    method SetAttr(o: N.Owner, name: string, value: Value) returns (outcome: Outcome)
      requires Valid() && N.Owns(Abs(), o)
      modifies this
      ensures Valid()
      ensures N.SetAttr(old(Abs()), o, name, value).Ok? ==>
        outcome == Completed && Abs() == N.SetAttr(old(Abs()), o, name, value).value
      ensures N.SetAttr(old(Abs()), o, name, value).Err? ==>
        outcome == Raised(TypeError) && Abs() == old(Abs())
    {
      if name != DictAttr {
        SetItem(o, name, value);
        outcome := Completed;
      } else if value.DictObject? {
        if o.G? {
          g := value.table;
        } else {
          scopes := scopes[o.id := value.table];
        }
        outcome := Completed;
      } else {
        outcome := Raised(TypeError);
      }
    }

    /** `Namespace()`. */
    method NewNamespace() returns (id: ScopeId)
      requires Valid()
      modifies this
      ensures Valid()
      ensures id !in old(scopes) && scopes == old(scopes)[id := EmptyTable]
      ensures N.Created(Abs(), id) == N.NewNamespace(old(Abs()))
    {
      id := nextId;
      scopes := scopes[id := EmptyTable];
      nextId := nextId + 1;
    }

    /** `namespaces[name]` (NamespaceHolder.__getitem__). */
    method Resolve(name: string) returns (id: ScopeId)
      requires Valid()
      modifies this
      ensures Valid()
      ensures N.Created(Abs(), id) == N.Resolve(old(Abs()), name)
    {
      if name !in registry {
        var created := NewNamespace();
        registry := registry[name := created];
      }
      id := registry[name];
    }

    /** `namespaces.name` (NamespaceHolder.__getattr__) for a name that
        ordinary attribute lookup does not find: it forwards to the item
        lookup. */
    method GetAttr(name: string) returns (id: ScopeId)
      requires Valid()
      modifies this
      ensures Valid()
      ensures N.Created(Abs(), id) == N.Resolve(old(Abs()), name)
    {
      id := Resolve(name);
    }

    /** `globals_snapshot()`. */
    method Snapshot()
      modifies this
      ensures old(Valid()) ==> Valid()
      ensures Abs() == N.Snapshot(old(Abs()))
    {
      g := Table(main, true);
    }

    /** `globals_restore()`; `fault` as in Namespaces.Restore. */
    method Restore(fault: Option<Dict>) returns (outcome: Outcome)
      requires fault.Some? ==> SubDict(fault.value, g.entries)
      modifies this
      ensures old(Valid()) ==> Valid()
      ensures N.Restored(Abs(), outcome) == N.Restore(old(Abs()), fault)
    {
      var fallback := main;
      main := map[];
      match fault {
        case None =>
          main := main + g.entries;
          outcome := Completed;
        case Some(written) =>
          main := main + written;
          main := main + fallback;
          outcome := Raised(UpdateFailed);
      }
      g := EmptyTable;
    }

    /** Entering `with use_namespace(enable, name, ns) as yielded`. */
    method Enter(enable: bool, name: Option<string>, ns: Option<ScopeId>) returns (yielded: Option<ScopeId>)
      requires Valid() && phase.Idle?
      requires ns.Some? ==> ns.value in scopes
      modifies this
      ensures Valid()
      ensures N.Entered(Abs(), yielded) == N.Enter(old(Abs()), enable, name, ns)
    {
      var target := ns;
      if name.Some? {
        var id := Resolve(name.value);
        target := Some(id);
      }
      Snapshot();
      if enable && target.Some? {
        var id := target.value;
        var t := scopes[id];
        scopes := scopes[id := Table(t.entries, true)];
        main := main + t.entries;
        phase := N.Active(true, target);
        yielded := target;
      } else {
        phase := N.Active(enable, target);
        yielded := None;
      }
    }

    /** `with ns():` (Namespace.__call__): an enabled block on `ns`. */
    method Call(id: ScopeId) returns (yielded: Option<ScopeId>)
      requires Valid() && phase.Idle? && id in scopes
      modifies this
      ensures Valid()
      ensures N.Entered(Abs(), yielded) == N.Enter(old(Abs()), true, None, Some(id))
    {
      yielded := Enter(true, None, Some(id));
    }

    /** Leaving the block, whether or not its body raised. */
    method Exit(fault: Option<Dict>) returns (outcome: Outcome)
      requires Valid() && phase.Active?
      requires fault.Some? ==> SubDict(fault.value, g.entries)
      modifies this
      ensures Valid()
      ensures N.Restored(Abs(), outcome) == N.Exit(old(Abs()), fault)
    {
      if phase.enabled {
        if phase.ns.Some? {
          var id := phase.ns.value;
          scopes := scopes[id := Table(scopes[id].entries, false)];
        }
        outcome := Restore(fault);
      } else {
        g := EmptyTable;
        outcome := Completed;
      }
      phase := N.Idle;
    }
  }
}

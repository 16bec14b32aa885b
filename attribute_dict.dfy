/** Item access on an object's attribute table (`AttributeDict`), and the
    item write of a dictionary object, which a `GDict` forwards to the
    global table. */
module AttributeDicts {
  import opened Values

  /** `obj[key]`: the bound value, or `KeyError` when `key` is not bound. */
  function Get(t: Table, key: string): (r: Result<Value>)
    ensures r.Ok? <==> key in t.entries
    ensures r.Ok? ==> r.value == t.entries[key]
    ensures r.Err? ==> r.error == KeyError(key)
  {
    if key in t.entries then Ok(t.entries[key]) else Err(KeyError(key))
  }

  /** `key in obj`: holds exactly when `obj[key]` does not raise. */
  predicate Contains(t: Table, key: string)
    ensures Contains(t, key) <==> Get(t, key).Ok?
  {
    key in t.entries
  }

  /** What an item write leaves behind: the written table and the globals. */
  datatype Stored = Stored(table: Table, main: Dict)

  /** `d[key] = value` on a dictionary object `d`, with `main` the global
      table: a `GDict` first writes the globals, then itself; a plain
      `dict` writes only itself. */
  function Store(t: Table, main: Dict, key: string, value: Value): (r: Stored)
    ensures Rebinds(t.entries, key, value, r.table.entries)
    ensures r.table.writeThrough == t.writeThrough
    ensures t.writeThrough ==> Rebinds(main, key, value, r.main)
    ensures !t.writeThrough ==> r.main == main
  {
    var main' := if t.writeThrough then main[key := value] else main;
    Stored(t.(entries := t.entries[key := value]), main')
  }
}

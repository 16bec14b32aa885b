/** Python objects as the namespace module sees them.

    The module only ever looks inside dictionaries: every other object is
    an opaque value known by its identity. A dictionary is either a plain
    `dict` or a `GDict`, whose item writes are also applied to the global
    table of `__main__`. */
module Values {

  /** Identity of a `Namespace` object. */
  type ScopeId = nat

  /** A Python value: an opaque object, or a dictionary object. */
  datatype Value = Object(id: int) | DictObject(table: Table)

  /** A dictionary object; `writeThrough` holds when it is a `GDict`. */
  datatype Table = Table(entries: Dict, writeThrough: bool)

  /** The contents of a dictionary with identifier keys. */
  type Dict = map<string, Value>

  /** The attribute name that stands for an object's own attribute table. */
  const DictAttr: string := "__dict__"

  /** The table an object gets after `del obj.__dict__`: empty, plain. */
  const EmptyTable: Table := Table(map[], false)

  /** The exceptions the module raises or lets through. */
  datatype Error =
    | KeyError(key: string)  // item read of an absent key
    | TypeError              // `__dict__` assigned something that is not a dictionary
    | UpdateFailed           // `dict.update` raised partway through the refill of the globals

  datatype Option<T> = None | Some(value: T)

  datatype Result<T> = Ok(value: T) | Err(error: Error)

  /** How a statement ends: normally, or with an exception. */
  datatype Outcome = Completed | Raised(error: Error)

  /** `after` is `before` with `key` bound to `value`, and nothing else changed. */
  ghost predicate Rebinds(before: Dict, key: string, value: Value, after: Dict)
  {
    && after.Keys == before.Keys + {key}
    && after[key] == value
    && forall k :: k in before && k != key ==> after[k] == before[k]
  }

  /** Every binding of `part` is also a binding of `whole`. */
  ghost predicate SubDict(part: Dict, whole: Dict)
  {
    forall k :: k in part ==> k in whole && part[k] == whole[k]
  }
}

# JupyterCellNamespaces in Dafny

`namespaces.py` lets the single global table of a Jupyter kernel
(`vars(__main__)`) stand in for several named namespaces. A namespace is
an object whose attribute table holds its bindings. `namespaces[name]`
creates namespaces on demand. `G` is an object that, during a block, holds
a write-through copy of the globals taken at entry. The context manager
`use_namespace` snapshots the globals into `G` and, when enabled with a
namespace, writes the namespace's bindings over the globals. On exit from an enabled block it
puts the globals back from `G`; a disabled block only deletes `G`'s table.

The model is split into these modules:

- `Values` (values.dfy): Python values. A dictionary is a `Table`, which
  is either a plain `dict` or a write-through `GDict`. Every other
  object is opaque. The module also holds the exceptions.
- `AttributeDicts` (attribute_dict.dfy): item reads and membership tests
  (`AttributeDict`), and the item write of a dictionary, which a `GDict`
  also applies to the globals.
- `Namespaces` (namespaces.dfy): the whole state of the module as a
  value. There is one function per operation, each with a contract that
  says what the operation does. The state is:
  - the globals;
  - `G`'s table;
  - the registry;
  - the table of every `Namespace` object, keyed by object identity;
  - the phase of the block.
- `Kernel` (kernel.dfy): class `Session`. It holds the same state in
  mutable fields, and its methods carry out the statements of the Python
  code in place. Each method's contract equates the new state with the
  matching function of `Namespaces` applied to the old state.
- `Protocol` (protocol.dfy): whole blocks. A block is an entry, a body
  and an exit. The body is a sequence of bindings: plain assignments,
  writes through `G`, and writes through a namespace. The lemmas state
  what each of the three kinds of block leaves in the globals, in `G`
  and in the namespace. An exception in the body only shortens that
  sequence, since the exit always runs. So `ScopedBlock`,
  `UnscopedBlock` and `DisabledBlock`, which hold for every body, cover
  the raising case as well.

Three behaviours of the code differ from what the docstrings and names
suggest (a block that "restores the original variables", a namespace
that absorbs what ran inside it). The model follows the code:

- On exit, a namespace keeps only its own table (namespaces.py:94). It
  does not absorb the globals present at exit. A plain assignment made
  inside the block therefore reaches neither the namespace nor the
  restored globals. This is `Protocol.AssignmentNotAbsorbed`. Only
  writes made through the namespace object persist, because its table
  is a `GDict` during the block.
- An enabled block does not bring back the pre-entry globals exactly.
  Writes made through `G` inside the block survive, because `G`'s table
  is what the globals are refilled from (namespaces.py:69). Without such
  writes the globals are the pre-entry ones.
- When the refill fails, the handler writes the saved globals over
  whatever the refill had already written (namespaces.py:71). Keys that
  the refill added and that the saved copy lacks remain. So every
  pre-restore global gets its old value back, but the table need not
  equal the saved copy.

## Model

| member | source | states |
|---|---|---|
| `AttributeDicts.Get` | namespaces.py:9-10 | `obj[key]` gives the bound value when `key` is bound, and raises `KeyError(key)` exactly when it is not |
| `AttributeDicts.Contains` | namespaces.py:15-16 | `key in obj` holds exactly when `obj[key]` does not raise |
| `AttributeDicts.Store` | namespaces.py:50-53 | an item write rebinds exactly that key in the dictionary and keeps its kind; a `GDict` also rebinds the key in the globals and changes nothing else there; a plain `dict` leaves the globals untouched |
| `Namespaces.SetItem` | namespaces.py:12-13 | after `obj[key] = value`, `obj[key]` reads `value`; every other key of `obj` reads as before; every other object's table is unchanged; the globals gain the binding exactly when `obj`'s table is write-through |
| `Namespaces.SetAttr` | namespaces.py:22-26 | assigning any name other than `__dict__` is the item write of that key; assigning a dictionary to `__dict__` replaces the whole table and changes no other table, the globals, the registry or the set of namespace objects; the invariant is kept; assigning anything else to `__dict__` raises TypeError |
| `Namespaces.NewNamespace` | namespaces.py:42 | `Namespace()` is a new object, distinct from every existing one, with an empty plain table; the invariant is kept |
| `Namespaces.Resolve` | namespaces.py:40-44 | a registered name yields its namespace and changes nothing; an unseen name is registered to a new empty namespace, with other registry entries and tables unchanged |
| `Namespaces.Registered` | namespaces.py:15-16 | `name in namespaces` holds exactly when looking the name up would change nothing |
| `Namespaces.Snapshot` | namespaces.py:56-58 | `G`'s table becomes a write-through table equal to the globals; the globals and everything else are unchanged |
| `Namespaces.Restore` | namespaces.py:61-74 | on success the globals equal `G`'s table exactly; on a failed refill every pre-restore global is back at its old value, the keys are the old keys plus those the refill had written, the extra keys carry the refilled values, and `UpdateFailed` is raised; `G`'s table is deleted in both cases |
| `Namespaces.Enter` | namespaces.py:77-90 | the snapshot is always taken of the pre-entry globals; a name wins over `ns`; enabled with a namespace, that namespace becomes write-through, the globals become the pre-entry globals overridden by its bindings, and it is yielded; otherwise the globals and tables are unchanged and None is yielded; the registry and the identity counter are those left by the name lookup, so the contract fixes the whole new state |
| `Namespaces.Exit` | namespaces.py:92-98 | enabled: the namespace's table turns plain with its contents kept, then the globals are restored from `G`: on success they equal `G`'s table; on a failed refill every pre-exit global is back at its old value, the keys are the old keys plus those the refill wrote, those extra keys carry the refilled values, and `UpdateFailed` is raised; disabled: the globals are left as they are; in every case `G`'s table is deleted and the block is over |
| `Kernel.Session.constructor` | namespaces.py:47-48 | at import, `G` and `namespaces` have empty plain tables and no block is active |
| `Kernel.Session.SetItem` | namespaces.py:12-13 | the in-place write leaves the state `Namespaces.SetItem` describes |
| `Kernel.Session.SetAttr` | namespaces.py:22-26 | the in-place attribute assignment leaves the state `Namespaces.SetAttr` describes, or raises TypeError and changes nothing |
| `Kernel.Session.NewNamespace` | namespaces.py:42 | allocates a fresh identity with an empty table, as `Namespaces.NewNamespace` |
| `Kernel.Session.Resolve` | namespaces.py:40-44 | the in-place registry lookup returns and leaves what `Namespaces.Resolve` describes |
| `Kernel.Session.GetAttr` | namespaces.py:37-38 | for a name that ordinary attribute lookup does not find, `namespaces.name` is `namespaces[name]` |
| `Kernel.Session.Snapshot` | namespaces.py:56-58 | leaves the state `Namespaces.Snapshot` describes |
| `Kernel.Session.Restore` | namespaces.py:61-74 | clears and refills the globals in place, falls back on failure, deletes `G`'s table, as `Namespaces.Restore` |
| `Kernel.Session.Enter` | namespaces.py:77-90 | the entry statements leave the state and yielded value that `Namespaces.Enter` describes |
| `Kernel.Session.Call` | namespaces.py:31-32 | `with ns():` is an enabled block on `ns` with no name |
| `Kernel.Session.Exit` | namespaces.py:92-98 | the `finally` statements leave the state and outcome that `Namespaces.Exit` describes |
| `Protocol.RunEffect` | namespaces.py:50-53 | a body changes `G`'s table by exactly its writes through `G` and the namespace's table by exactly its writes through it; the globals change by its assignments and by the writes through whichever tables are write-through, later writes winning |
| `Protocol.ScopedBlock` | namespaces.py:82-95 | enabled block on a namespace: inside, the globals are the pre-entry globals overridden by the namespace; after exit, the namespace holds its old bindings plus those written through it and is plain; the globals are the pre-entry globals plus the writes through `G`; `G`'s table is deleted |
| `Protocol.UnscopedBlock` | namespaces.py:83-95 | enabled block without a namespace, in any session, including one with no namespace object: nothing is merged; after exit, the globals are the pre-entry globals plus the writes through `G`, whatever else the body assigned; a namespace written through keeps those writes |
| `Protocol.BlockAfterImport` | namespaces.py:47-48 | right after import, an enabled block without a namespace leaves the import-time globals plus the writes through `G`, and the rest of the state as at import |
| `Protocol.DisabledBlock` | namespaces.py:96-98 | disabled block, in any session, including one with no namespace object: nothing is merged; the exit restores nothing, so the globals after it are those at the end of the body; only `G`'s table is deleted |
| `Protocol.SnapshotThenRestore` | namespaces.py:56-74 | a restore right after a snapshot gives back the same globals and changes nothing but `G`'s table |
| `Protocol.NameWins` | namespaces.py:79-80 | with both a name and `ns`, the block is the one on `namespaces[name]` |
| `Protocol.ResolveTwice` | namespaces.py:40-44 | a second lookup of a name returns the identical namespace and changes nothing |
| `Protocol.NamedBindingPersists` | namespaces.py:77-95 | a binding written through `namespaces[name]` inside its block is found in the same namespace by a later lookup of `name` |
| `Protocol.AssignmentNotAbsorbed` | namespaces.py:93-95 | a plain assignment in an enabled block on a namespace is visible in the body but is kept neither in the globals nor in the namespace |

## Left out

- Reflection on `__main__`: `vars(__main__)` is the explicit field `main`. The module object and the Jupyter/IPython kernel are not part of this model.
- `contextlib.contextmanager` and the generator protocol become the two steps `Enter` and `Exit`. The body's own exception is not a value here. Python re-raises it unchanged after `Exit`, unless the restore raises first.
- Object identity of dictionaries: tables are values. Assigning a dictionary to `__dict__` installs a copy, so a later change made through another reference to the same dict is not modelled. Reading `obj.__dict__` and the ordinary attribute reads `obj.x` are not modelled either (`obj[x]` is).
- Python values other than dictionaries are opaque objects known by an integer identity.
- Nested or overlapping blocks: `Enter` requires that no block is active. The single slot `G` would be overwritten.
- Why `dict.update` can fail is not modelled. A failed refill is given as the sub-dictionary of `G`'s table that was written before the exception.
- `del G.__dict__` is modelled as replacing `G`'s table by an empty plain one.
- Attribute lookup on `namespaces` finds the class's own attributes first (`namespaces.__doc__`, `namespaces.__dict__`, `namespaces.__getitem__`, ...), and those names never reach `__getattr__`. `Kernel.Session.GetAttr` models only the names that do.
- Item writes into the registry itself (`namespaces[k] = v`, inherited from `AttributeDict`) are not modelled. The registry holds only namespaces.
- The body of a block only binds names. Deleting a global inside a block is not modelled.

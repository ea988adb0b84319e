# Indexer schema, app simulator and mint genesis, modelled in Dafny

This project models four parts of a Cosmos SDK repository.

- **Module schema checks** (`schema/module_schema.go`):
  - `ModuleSchema.Validate` runs each type's own check in order. The types share one enum accumulator, created fresh for each call, and the run stops at the first error.
  - `ModuleSchema.ValidateObjectUpdate` finds the object type an update names and hands the update to that type's own check.
- **Schema-driven generators** (`indexer/testing/schemagen/field.go`):
  - random field kinds and fields;
  - random values for a field;
  - random keys and value payloads (a full value, or a partial update that may skip fields).

  The random engine becomes an explicit stream of integer choices. Every stream is a legal run, so each generator is a function of its stream.
- **The app simulator** (`indexer/testing/app_sim.go`):
  - It keeps a canonical store for every (module, object type), inside two levels of ordered maps.
  - It forwards schema initialization, block starts, object updates and commits to a listener.
  - It draws random blocks of updates, checks each update, applies it to the store and delivers it.

  `AppSimulator` is a class whose methods update its fields in place. Each method is proved against a pure function of the old state (`AfterInitialize`, `AfterApply`, `Block`, `AfterNextBlock`), and the lemmas state what those functions guarantee.
- **Mint genesis** (`x/mint/keeper/genesis.go`):
  - `InitGenesis` refuses a nil state. Otherwise it overwrites the minter's epoch provisions in the caller's state, then writes the minter, the params and the last reduction epoch, in that order, stopping at the first error.
  - `ExportGenesis` reads the three stores back in the same order.
  - A round-trip lemma ties the two together.

Files:
- `wrappers.dfy`: `Option`, `Outcome` (an error-or-nil return), `Result`, and the error values.
- `schema_types.dfy`: kinds, fields, object types, module schemas, updates, values, and which values a field accepts.
- `ordered_maps.dfy`: `btree.Map` as a map with keys kept in ascending lexicographic order.
- `module_schema.dfy`, `schemagen.dfy`, `app_sim.dfy`, `mint_genesis.dfy`: one per source file.

Code outside these files becomes parameters of the model:
- the listener: which hooks are set, and its answer to each call given the calls it received before;
- the random engine: functions of the block seed;
- `fmt.Sprintf("%v", key)`: any deterministic function, not assumed injective;
- the per-type validators;
- store faults: a fixed possible error for each store access.

## Model

| member | source | states |
|---|---|---|
| `ModuleSchemas.ValidateFrom` | schema/module_schema.go:13-19 | The validation loop from one type on, stopping at the first error. The lemmas below state what it returns. |
| `ModuleSchemas.Validate` | schema/module_schema.go:11-20 | Validation with a fresh, empty enum accumulator shared by all types. Specified by `ValidateReturnsFirstError`, `ValidatePassIffAllAccept` and `ValidateIgnoresLaterTypes`. |
| `ModuleSchemas.ValidateReturnsFirstError` | schema/module_schema.go:11-17 | If type `i` is the first to fail, `Validate` returns that type's error. The accumulator it used is the one the earlier types built, starting from an empty map. |
| `ModuleSchemas.ValidatePassIffAllAccept` | schema/module_schema.go:11-19 | `Validate` returns nil exactly when every type passes its check, each with the accumulator of the types before it. This covers an empty schema. |
| `ModuleSchemas.ValidateIgnoresLaterTypes` | schema/module_schema.go:13-16 | Types after the first failing one are never consulted. Replacing them does not change the result. |
| `ModuleSchemas.FindType` | schema/module_schema.go:24-28 | The loop's search returns the first index at or after `i` whose type carries the name, or none when no type there does. |
| `ModuleSchemas.ValidateObjectUpdate` | schema/module_schema.go:22-30 | Returns "not found" when no object type has the update's type name. Otherwise returns exactly the first matching type's own verdict. |
| `SchemaGen.IntRange` | indexer/testing/schemagen/field.go:92 | `rapid.IntRange(lo, hi)` always draws within `[lo, hi]`. |
| `SchemaGen.KindGen` | indexer/testing/schemagen/field.go:13-16 | Always a valid kind, strictly between `InvalidKind` and `MAX_VALID_KIND`. Every valid kind is reachable. |
| `SchemaGen.FieldGen` | indexer/testing/schemagen/field.go:20-37 | The drawn kind, name and nullability. An enum definition is present exactly for the enum kind, and an address prefix exactly for the address kind. |
| `SchemaGen.Chars` | indexer/testing/schemagen/field.go:52 | A string of exactly the drawn length. |
| `SchemaGen.Bytes` | indexer/testing/schemagen/field.go:54 | A byte slice of exactly the drawn length. |
| `SchemaGen.Digits` | indexer/testing/schemagen/field.go:76-78 | Exactly `n` characters, each a decimal digit. |
| `SchemaGen.IntegerString` | indexer/testing/schemagen/field.go:76 | Every drawn string matches the integer grammar: an optional minus sign, then one or more digits. |
| `SchemaGen.DecimalString` | indexer/testing/schemagen/field.go:78 | Every drawn string matches the decimal grammar: an integer, optionally followed by a point and digits. |
| `SchemaGen.IntBounds` | indexer/testing/schemagen/field.go:55-70 | The range drawn for each fixed-width integer kind is exactly that Go type's range. |
| `SchemaGen.BaseFieldValue` | indexer/testing/schemagen/field.go:49-99 | For every kind the generator handles, the value is non-null and fits the field's kind. |
| `SchemaGen.FieldValue` | indexer/testing/schemagen/field.go:39-47 | The value fits the field. A non-nullable field gets the base value. A nullable field gets null or the base value (`OneOf`). |
| `SchemaGen.DrawEach` | indexer/testing/schemagen/field.go:110-121 | One value per field, in field order, each fitting its own field. |
| `SchemaGen.KeyFieldsValue` | indexer/testing/schemagen/field.go:101-122 | Nil for no key fields, the bare value for one, a tuple of fitting values otherwise. |
| `SchemaGen.PartialUpdates` | indexer/testing/schemagen/field.go:136-146 | Every entry of a partial update is keyed by a value field's name, and its value fits that field. |
| `SchemaGen.ValueFieldsValue` | indexer/testing/schemagen/field.go:124-160 | Nil for no value fields. Otherwise either a partial update whose entries fit their fields, or the full value (bare for one field, a tuple in field order for more). |
| `SchemaGen.NullableFieldCanBeNull` | indexer/testing/schemagen/field.go:42-44 | Some run gives a nullable field the value null. |
| `SchemaGen.AddressLengthsCovered` | indexer/testing/schemagen/field.go:89-90 | Every address length from 20 to 64 bytes is drawn by some run. |
| `SchemaGen.EnumValuesCovered` | indexer/testing/schemagen/field.go:91-95 | Every value of an enum definition is drawn by some run. |
| `SchemaGen.PartialUpdatesAllSkipped` | indexer/testing/schemagen/field.go:138-142 | A run in which every field's coin says "skip" adds nothing to the partial update. |
| `SchemaGen.EmptyPartialUpdateReachable` | indexer/testing/schemagen/field.go:135-146 | The empty partial update is a reachable value payload whenever there are value fields. |
| `OrderedMaps.SortedStrict` | indexer/testing/app_sim.go:56 | The keys of a btree map are strictly ascending, so a scan visits each key once, in order. |
| `OrderedMaps.OrderedMap.Get` | indexer/testing/app_sim.go:113-121 | `Get` finds a value exactly when the key is present, and then it is the stored value. |
| `OrderedMaps.OrderedMap.Set` | indexer/testing/app_sim.go:35-43 | `Set` inserts or replaces the key's value and keeps the keys ascending. An existing key keeps its place. |
| `AppSim.InitialObjects` | indexer/testing/app_sim.go:36-44 | The object-state map of a new module is well formed: keys ascending, and exactly the keys of its entries. |
| `AppSim.InitialObjectsNames` | indexer/testing/app_sim.go:36-44 | A new module has an object state for exactly the names of its schema's object types. |
| `AppSim.InitialObjectsEmpty` | indexer/testing/app_sim.go:36-44 | Each new object state starts with an empty store, and its object type belongs to the schema and bears the entry's name. |
| `AppSim.NewModuleState` | indexer/testing/app_sim.go:31-44 | The inner construction loop builds exactly the initial module state of the schema. |
| `AppSim.StoreApply` | indexer/testing/app_sim.go:123-128 | A delete removes the rendered key. A write stores `Entry(key, value)` under it, replacing any previous entry wholesale. Every other key is untouched. |
| `AppSim.AfterApply` | indexer/testing/app_sim.go:112-135 | Applying an update keeps both levels of ordered maps well formed. |
| `AppSim.AfterApplyUnknown` | indexer/testing/app_sim.go:113-121 | An unknown module gives "module not found" and an unknown object type gives "object type not found in module". Either way nothing changes and the listener is not called. |
| `AppSim.AfterApplyKeepsShape` | indexer/testing/app_sim.go:112-128 | Applying an update never changes the module names, their order, their schemas or their object types. |
| `AppSim.AfterApplyUpdatesOneStore` | indexer/testing/app_sim.go:123-128 | A known update changes its own store as `StoreApply` says, and every other store is unchanged. |
| `AppSim.AfterApplyDelivers` | indexer/testing/app_sim.go:130-134 | With the hook set, a known update calls `OnObjectUpdate` once and returns its answer. Without the hook it calls nothing and returns nil. |
| `AppSim.DeleteAbsentIsNoOp` | indexer/testing/app_sim.go:124-125 | Deleting a key the store does not hold leaves the store unchanged. |
| `AppSim.LastTouch` | indexer/testing/app_sim.go:123-128 | Finds the last update whose key renders to `k`, or reports that none does. |
| `AppSim.ApplyAll` | indexer/testing/app_sim.go:123-128 | The store after a sequence of updates, each applied as `StoreApply` says. `ReplayKeepsLastWrite` states its outcome key by key. |
| `AppSim.ReplayKeepsLastWrite` | indexer/testing/app_sim.go:123-128 | After a sequence of updates, each key is absent if its last update was a delete, holds its last written entry otherwise, and is untouched if no update named it. |
| `AppSim.DeliverInOrder` | indexer/testing/app_sim.go:56-59 | A scan that hands each call to the listener and stops at the first error. Specified by `DeliverInOrderSpec` and `DeliverInOrderStopped`. |
| `AppSim.DeliverInOrderSpec` | indexer/testing/app_sim.go:56-59 | On success, every call was made in order and each was accepted. On failure, the calls were made up to and including the first rejected one, and its error is returned. |
| `AppSim.DeliverInOrderStopped` | indexer/testing/app_sim.go:58 | Once a call has been rejected, the scan makes no further calls. |
| `AppSim.InitCalls` | indexer/testing/app_sim.go:56-57 | One `InitializeModuleSchema(name, schema)` call per module, in the map's key order. |
| `AppSim.AfterInitialize` | indexer/testing/app_sim.go:53-63 | `Initialize` as a function of the state: no call without the hook, otherwise the scan of `InitCalls`. Specified by `InitializeVisitsModulesInOrder` and `InitializeWithoutHook`. |
| `AppSim.InitializeVisitsModulesInOrder` | indexer/testing/app_sim.go:53-63 | With the hook set, the calls name the modules in strictly ascending order. The result is nil when all calls succeed; otherwise the scan stops at the first failing module and returns its error. |
| `AppSim.InitializeWithoutHook` | indexer/testing/app_sim.go:54-62 | Without the hook, `Initialize` makes no call and returns nil. |
| `AppSim.MaxUpdates` | indexer/testing/app_sim.go:88-91 | The option when it is positive, and 100 otherwise. |
| `AppSim.NumUpdates` | indexer/testing/app_sim.go:92 | Each block has between 1 and `maxUpdates` updates. |
| `AppSim.DrawIndexAsWritten` | indexer/testing/app_sim.go:94-98 | The index drawn as written lies in `[0, Len]`, one past the last valid index included. |
| `AppSim.AsWrittenIndexCanOverrun` | indexer/testing/app_sim.go:94-98 | For every length, some run draws index `Len`, which is out of range for the slice access. |
| `AppSim.DrawIndex` | indexer/testing/app_sim.go:94-98 | The corrected draw is always a valid index, and every valid index is reachable. |
| `AppSim.Pick` | indexer/testing/app_sim.go:94-99 | The draws of one update: a module that is in the map, then one of its object types, then the drawn update. There is nothing to pick when the module map is empty. |
| `AppSim.PickTarget` | indexer/testing/app_sim.go:94-99 | There is nothing to pick exactly when the module map or the drawn module's object map is empty. Otherwise the picked object type is that of an object state of the drawn module. |
| `AppSim.BlockStep` | indexer/testing/app_sim.go:94-101 | One update of a block keeps the maps well formed. |
| `AppSim.BlockStepNoTarget` | indexer/testing/app_sim.go:94-99 | With an empty module or object map, the step fails on the slice index and changes nothing. |
| `AppSim.BlockStepRejects` | indexer/testing/app_sim.go:99-100 | An update the drawn object type's validator rejects ends the block with `RequireFailed`. Nothing is applied and no hook is called. |
| `AppSim.BlockStepAccepted` | indexer/testing/app_sim.go:100-101 | An accepted update leaves exactly the state `applyUpdate` leaves for the drawn module. The step fails with `RequireFailed` exactly when `applyUpdate` returned an error. |
| `AppSim.BlockStepKeepsShape` | indexer/testing/app_sim.go:94-101 | One update of a block changes the stores only. |
| `AppSim.BlockStepDelivers` | indexer/testing/app_sim.go:94-101 | One update makes at most one listener call, an `OnObjectUpdate`. If it succeeds, it made that call exactly when the hook is set. |
| `AppSim.BlockStepCallIsDrawnUpdate` | indexer/testing/app_sim.go:99-101 | A successful update that calls the listener calls `OnObjectUpdate` with exactly the module and the update it drew and applied. It makes that call only when the hook is set. |
| `AppSim.Block` | indexer/testing/app_sim.go:93-102 | The first `n` updates of a block keep the maps well formed. |
| `AppSim.BlockKeepsShape` | indexer/testing/app_sim.go:93-102 | A block changes the stores only. |
| `AppSim.BlockDelivers` | indexer/testing/app_sim.go:93-102 | A block only appends calls. A completed block of `n` updates appended exactly `n` `OnObjectUpdate` calls when that hook is set, and none otherwise. |
| `AppSim.BlockStopped` | indexer/testing/app_sim.go:100-101 | After a failed `require.NoError`, no later update runs: the block's result is that of the failing update. |
| `AppSim.BlockSeed` | indexer/testing/app_sim.go:75 | `Seed + int(blockNum)` wraps as a 64-bit Go `int`: the result is an int64, it differs from the plain sum by a multiple of 2^64, and it equals the plain sum when that sum is in range. |
| `AppSim.AfterNextBlock` | indexer/testing/app_sim.go:65-85 | A block keeps the maps well formed. |
| `AppSim.NextBlockKeepsShape` | indexer/testing/app_sim.go:65-85 | A whole block changes the stores only. |
| `AppSim.NextBlockCallOrder` | indexer/testing/app_sim.go:65-85 | A successful block calls `StartBlock(blockNum)` (if set), then one `OnObjectUpdate` per update of the seeded block (if set), then `Commit` (if set), and nothing else. |
| `AppSim.StartBlockFailureSkipsBlock` | indexer/testing/app_sim.go:68-73 | A failing `StartBlock` returns its error before any update and without `Commit`. |
| `AppSim.CommitFollowsBlock` | indexer/testing/app_sim.go:75-84 | Once `StartBlock` has accepted (or is not set), the block seeded with `Seed + blockNum` runs. A completed block is followed by `Commit` (when set), whose answer is returned. A failed block returns its error without `Commit`. |
| `AppSim.AppSimulator.constructor` | indexer/testing/app_sim.go:28-51 | There is one module state per schema entry, each holding one empty store per object type. The block number is 0 and no call has been made. |
| `AppSim.AppSimulator.Initialize` | indexer/testing/app_sim.go:53-63 | The returned error and the calls made are those of `AfterInitialize`. The modules and the block number are unchanged. |
| `AppSim.AppSimulator.ApplyUpdate` | indexer/testing/app_sim.go:112-135 | The returned error and the new stores and calls are those of `AfterApply`. |
| `AppSim.AppSimulator.UpdateOnce` | indexer/testing/app_sim.go:94-101 | One pass of the loop body takes the state after `i` updates to the state after `i + 1`. |
| `AppSim.AppSimulator.ActionNewBlock` | indexer/testing/app_sim.go:87-110 | The counted loop ends in the state and result of `Block` for the drawn number of updates. |
| `AppSim.AppSimulator.NextBlock` | indexer/testing/app_sim.go:65-85 | The block number increments modulo 2^64, and the result and new state are those of `AfterNextBlock`. |
| `MintGenesis.FirstError` | x/mint/keeper/genesis.go:18-30 | The first error of a sequence of steps that each return early: none exactly when every step succeeded, otherwise the error of the first that failed. |
| `MintGenesis.AfterInitGenesis` | x/mint/keeper/genesis.go:11-33 | `InitGenesis` as a function of the stores. Specified by `InitNilWritesNothing` and `InitGenesisWritesInOrder`. |
| `MintGenesis.InitNilWritesNothing` | x/mint/keeper/genesis.go:12-14 | A nil genesis state is an error and leaves every store as it was. |
| `MintGenesis.InitGenesisWritesInOrder` | x/mint/keeper/genesis.go:16-32 | `InitGenesis` returns the first write error. A store holds its new value exactly when its own write and every earlier one succeeded; the others keep what they held. |
| `MintGenesis.ReadItem` | x/mint/keeper/genesis.go:37-50 | A read returns the stored value unless the access fails or the store was never written. A never-written store gives "not found". |
| `MintGenesis.ExportedGenesis` | x/mint/keeper/genesis.go:36-53 | `ExportGenesis` as a function of the stores. Specified by `ExportReturnsFirstError` and `ExportAfterInit`. |
| `MintGenesis.ExportReturnsFirstError` | x/mint/keeper/genesis.go:36-53 | `ExportGenesis` fails exactly when some read fails, with the first read's error. Otherwise it returns exactly the three stored values. |
| `MintGenesis.ExportAfterInit` | x/mint/keeper/genesis.go:11-53 | After a successful `InitGenesis(g)`, with no read faults, `ExportGenesis` returns `g`'s params and epoch. Its minter is `g`'s minter with its epoch provisions set to `g.Params.GenesisEpochProvisions`. |
| `MintGenesis.GenesisState.constructor` | x/mint/keeper/genesis.go:52 | `NewGenesisState` holds exactly the given minter, params and epoch. |
| `MintGenesis.Keeper.SetMinter` | x/mint/keeper/genesis.go:18-20 | Writes the minter unless the write fails; on failure nothing changes. |
| `MintGenesis.Keeper.SetParams` | x/mint/keeper/genesis.go:22-24 | Writes the params unless the write fails; on failure nothing changes. |
| `MintGenesis.Keeper.SetLastReductionEpochNum` | x/mint/keeper/genesis.go:28-30 | Writes the epoch unless the write fails; on failure nothing changes. |
| `MintGenesis.Keeper.InitGenesis` | x/mint/keeper/genesis.go:11-33 | The caller's state has its minter's epoch provisions overwritten. The returned error and the new stores are those of `AfterInitGenesis`. |
| `MintGenesis.Keeper.GetMinter` | x/mint/keeper/genesis.go:37-40 | Reads the minter, failing on an access error or an unwritten store. |
| `MintGenesis.Keeper.GetParams` | x/mint/keeper/genesis.go:42-45 | Reads the params, failing on an access error or an unwritten store. |
| `MintGenesis.Keeper.GetLastReductionEpochNum` | x/mint/keeper/genesis.go:47-50 | Reads the epoch, failing on an access error or an unwritten store. |
| `MintGenesis.Keeper.ExportGenesis` | x/mint/keeper/genesis.go:36-53 | Returns a fresh genesis state and nil exactly when `ExportedGenesis` succeeds, holding its values. Otherwise returns nil and the first error. |

## Left out

**Validation**
- `ModuleSchema.Validate` ranges over the map `s.Types`, whose iteration order Go leaves unspecified. The model visits the object types in one fixed order, a sequence. "First error" means first in that order.
- The struct declares `Types` but `ValidateObjectUpdate` ranges over `s.ObjectTypes`. The model uses one sequence of object types for both operations.
- `Type.validate` and `ObjectType.ValidateObjectUpdate` have no bodies in the modelled files. They are parameters, so their own checks are not modelled.
- `kind.go` is not part of this model. The kind ordinals assume declaration order: `InvalidKind` is 0, the kinds from String to Enum are 1 to 19, and `MAX_VALID_KIND` is 20. The integer and decimal grammars are written out from the format names.

**Random generation**
- `SchemaGen.BaseFieldValue`: requires `Generatable`, which excludes the generator's two panics. A kind outside the switch panics at indexer/testing/schemagen/field.go:96-97. An enum with no values panics in `rapid.IntRange(0, -1)` at field.go:92. The model does not return these as errors.
- The `pgregory.net/rapid` engine is replaced by choice streams and seed functions:
  - the random number generator;
  - `Example(seed)` replay, including how `Example` handles a panic raised while it runs a block. That handling is what decides whether `Commit` still runs after a failed `require.NoError` or a slice overrun;
  - shrinking;
  - the exact distributions.
- The `Name` and `EnumDefinition` generators are not part of this model, so `FieldGen` takes their draws as given.
- Floats are kept as opaque bit patterns of the right width; no IEEE-754 behaviour is modelled.
- Times and durations are int64 nanoseconds; `time.Time` itself is not modelled.
- `schemagen.StatefulObjectUpdate` is not part of this model. Each update is an arbitrary draw of the seeded `Randomness`, which may depend on the current stores, and is checked by the given validator.

**App simulator**
- `AppSim.StoreApply` (and `AfterApply`): a partial update (`MapValueUpdates`) replaces the stored entry wholesale, as `applyUpdate` does. It is not merged field by field into the previous value, although merging is what a partial update suggests.
- `fmt.Sprintf("%v", key)` is an arbitrary deterministic `render`. Two keys may render alike, and then they share a store slot, as they do in the source.
- Listener internals are not modelled, only which hooks are set and how each answers. The error texts of `fmt.Errorf` are error constructors, not strings.
- `require.NoError` failing and an out-of-range slice access both panic inside the simulator. The model returns them from `NextBlock` as `RequireFailed(cause)` and `IndexOutOfRange`, skipping `Commit` and the rest of the block. `IndexOutOfRange` arises only when the module map is empty or the drawn module has no object types, because the block draws its indices with the corrected `DrawIndex`.
- `AppSim.BlockStep`: draws the module and object indices, through `Pick`, with the corrected `DrawIndex`, not the as-written inclusive draw. It therefore does not capture the overrun on a non-empty map that the Findings row records; `DrawIndexAsWritten` and `AsWrittenIndexCanOverrun` capture that on their own.
- `AppSim.AppSimulator.UpdateOnce`: uses the same corrected draw as `BlockStep`, so it never fails with `IndexOutOfRange` on a non-empty map.
- `AppSim.BlockDelivers`: a completed block is stated to append exactly `n` calls of the `OnObjectUpdate` kind. Which module and update each call carries is stated one update at a time, by `BlockStepCallIsDrawnUpdate`, not for the block as a whole in application order.
- `AppSim.NextBlockCallOrder`: places `StartBlock(blockNum)` and `Commit` exactly, but for the calls between them it states only their kind and number, as `BlockDelivers` does.
- `EventAlignedWrites` is an option the modelled code never reads.
- The Go structs hold their btree maps by reference, and the maps are modelled as values written back in place. One store is shared: at indexer/testing/app_sim.go:37-41 each object state's store is also handed to `schemagen.StatefulObjectUpdate`, which keeps it by reference. The model does not share it. Instead, `Randomness.step` receives the current stores at every draw, so the generator sees each write.

**Mint genesis**
- `ak.GetModuleAccount` (x/mint/keeper/genesis.go:26) has a side effect in the account keeper, which is not part of this model.
- Beyond an access fault, a store write or read has no other failure mode: whether an access fails does not depend on the value written.
- The collections' item names in `ItemNotFound` are the keeper's field names.
- `MintGenesis.ReadItem`: an unwritten store gives `ItemNotFound`, as a `collections.Item` does for the minter and the params. The body of `GetLastReductionEpochNum` is not part of this model, so the same behaviour for the epoch store is an assumption.
- `math.LegacyDec` values are integers here, because genesis only copies them.
- The other modules of the repository (the logger configuration, governance migrations) are not part of this model.

## Findings

| source | as written | input that shows it | evidently intended | confidence | as-written member | corrected member |
|---|---|---|---|---|---|---|
| indexer/testing/app_sim.go:94-98 | `moduleIdx` and `objectIdx` are drawn with `rapid.IntRange(0, Len())`, which includes `Len()`. The index then feeds `values[moduleIdx]` and `Values()[objectIdx]`. | Any map of length `n` with the draw choosing `n`, e.g. one module and `moduleIdx = 1`: `values[1]` is out of range and panics. | `rapid.IntRange(0, Len()-1)`: every draw is a valid index | not executed | `AppSim.DrawIndexAsWritten`, `AppSim.AsWrittenIndexCanOverrun` | `AppSim.DrawIndex` |

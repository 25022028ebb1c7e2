# mongoose-soft-delete, modelled in Dafny

The plugin gives every record of a mongoose schema a `deleted` flag, and
optionally `deletedAt` and `deletedBy`. It then wraps the model's query
and update statics so that records flagged as deleted are filtered out
unless the caller picks another variant. This project models the whole
plugin function of `index.js` and proves what it does:

- **`parseUpdateArguments`** (`UpdateArguments`). It normalises the call
  shapes `(cb)`, `(doc)`, `(doc, cb)`, `(cond, doc, cb)` and
  `(cond, doc, opts, cb)`.
  - It is an imperative method, proved equal to a specification: the
    truthy resolved slots, in order.
  - One lemma per call shape says what each shape sends on.
- **Schema configuration** (`SchemaConfig`): `parseIndexFields`,
  `createSchemaObject`, and which of the three paths the plugin adds with
  which definition.
- **The filter-injecting statics** (`Visibility`, `Statics`): `count`,
  `find`, `findOne`, `findOneAndUpdate` and `update`, each in the default,
  `…Deleted` and `…WithDeleted` variant.
  - A read wrapper passes its arguments through and adds a `where` clause.
  - A write wrapper normalises its arguments. The default and `…Deleted`
    variants write `{$ne: …}` into the first one, and throw when the
    normalised list is empty, that is when all four arguments are falsy.
    The `…WithDeleted` variant writes nothing and never throws.
- **The soft-delete operations** (`Payloads`, `Statics`, `Instance`): the
  pre-save hook, the instance `delete` and `restore`, and the statics
  `delete`, `findByIdAndDelete`, `findOneAndDelete` and `restore`.

JavaScript values are the datatype `JsValues.JsValue`, with `typeof`,
truthiness, `||`, and property reads and sloppy-mode property writes.

Calls into the store are not executed. `Statics.Model` logs each one in
`calls`, and `Instance.Document` logs the callback of each `save`. A record's
visibility under the injected predicate is `Visibility.Matches`, which is
the store's `$ne`.

Where the names of the statics and the code disagree, the model follows
the code:

- The read `countDeleted`, `findDeleted` and `findOneDeleted` add the same
  `{deleted: {$ne: true}}` clause as the default variants (index.js:94-96).
  They therefore never return a deleted record, although their `…Deleted`
  names, like those of the write `…Deleted` variants, suggest a view of the
  deleted records only.
  - `Visibility.ReadDeletedVariantHidesDeleted` proves this.
  - Only the write `…Deleted` variants use `{$ne: false}`.
- The pre-save hook runs before every save, not only before a record is
  first stored (index.js:129-135).

The following are proved consequences of the code as written:

- The statics `delete` and `restore` go through the wrapped
  `updateWithDeleted`, which normalises its arguments again.
  - Called without conditions, they send the payload in the conditions
    position: `Statics.FalsyConditionsMisplacePayload`.
  - The statics `delete` and `findOneAndDelete`, called with a function both
    as conditions and as `deletedBy`, send the store the conditions function
    alone. The payload and the callback passed as `deletedBy` are both lost:
    `Statics.PayloadUpdateIssued`.
- The static `delete(cb)` and `restore(cb)` (a function as the only
  argument) update every record with the conditions `{}`:
  `Statics.CallbackFirstUpdatesAll`.
- The default `update(doc)` and `findOneAndUpdate(doc)` (a lone object)
  write `deleted: {$ne: true}` into the update document itself, and send
  no conditions: `Statics.DocOnlyGetsPredicate`.
- `findByIdAndDelete` does no argument shifting and never passes its
  callback on: `Statics.Model.FindByIdAndDelete`.

## Model

| member | source | states |
|---|---|---|
| JsValues.TypeOf | index.js:7-23 | `typeof` of a modelled value yields one of six type strings (no symbols or BigInts), and "function" exactly for functions |
| JsValues.TypeOfTests | index.js:7-23 | each `typeof … === '…'` test is the predicate the model uses, and the tests exclude each other |
| JsValues.Or | index.js:75 | `a \|\| b` is one of its operands and is truthy exactly when either is, so `options \|\| {}` is always truthy and `a` wins when it is truthy |
| JsValues.Prop | index.js:49 | reading a property requires a value other than `null` and `undefined`, which throw; any other value that is not an object or a function yields `undefined`, and an object yields its own property |
| JsValues.SetProp | index.js:107 | `v[key] = x` stores `x` on an object or a function, is silently dropped on a primitive, and keeps truthiness and `typeof` |
| JsValues.SetPropKeepsOthers | index.js:115 | assigning `deleted` leaves every other property of the first argument as it was |
| UpdateArguments.CompactKeepsTruthyInOrder | index.js:31-38 | the pushed list is the truthy values at their positions in increasing order, none skipped |
| UpdateArguments.CompactKeepsOnlyTruthy | index.js:31-38 | the pushed list holds only truthy values taken from the slots and is never longer than they are |
| UpdateArguments.CompactFour | index.js:31-38 | pushing the four slots gives each truthy slot once, in the order conditions, doc, options, callback |
| UpdateArguments.ResolveCallShape | index.js:7-29 | the if-chain of reassignments leaves the four slots the recognised call shape calls for |
| UpdateArguments.NormalizedArgsPushed | index.js:31-38 | the normalised list is the truthy resolved slots pushed one by one |
| UpdateArguments.PushIfTruthy | index.js:33-36 | `if (x) args.push(x)` appends `x` exactly when it is truthy |
| UpdateArguments.ParseUpdateArguments | index.js:6-39 | the returned list is the normalised argument list of the call |
| UpdateArguments.ConditionsDocCallbackShape | index.js:7-10 | `(cond, doc, cb)` sends `[cond, doc, cb]`, dropping any fourth argument |
| UpdateArguments.DocCallbackShape | index.js:11-16 | `(doc, cb)` sends `[{}, doc, cb]` |
| UpdateArguments.CallbackOnlyShape | index.js:17-22 | `(cb)` sends `[cb]` alone, whatever followed it |
| UpdateArguments.DocOnlyShape | index.js:23-28 | `(doc)` with an object sends `[doc]`, and with `null` sends nothing |
| UpdateArguments.PositionalShape | index.js:31-38 | four truthy non-function arguments are sent as they are |
| UpdateArguments.ObjectDocAndOptions | index.js:6-39 | with an object as doc and as options, the list is the truthy conditions, doc, options and the truthy callback, or the conditions alone when they are a function |
| UpdateArguments.ObjectDocNotEmpty | index.js:6-39 | with an object as doc the normalised list is never empty |
| UpdateArguments.NormalizedArgsInSlotOrder | index.js:31-38 | the list is exactly the truthy resolved slots, in slot order, with no gaps and no padding |
| UpdateArguments.NormalizedArgsEmpty | index.js:6-39 | the normalised list is empty exactly when all four arguments are falsy |
| SchemaConfig.IndexOf | index.js:60-62 | `indexOf` gives -1 exactly when the value is absent, and otherwise its first position |
| SchemaConfig.ParseIndexFields | index.js:41-67 | for options other than `null` and `undefined` (which throw): a falsy option selects nothing; "all" or `true` selects all three; an array selects exactly the named fields; anything else selects nothing |
| SchemaConfig.CreateSchemaObject | index.js:69-72 | the definition is the given object with the type stored under the type key, overwriting it |
| SchemaConfig.Attach | index.js:74-85 | `deleted` and `deletedAt` are always added and `deletedBy` exactly when the option is `true`, each with its type, default and index flag |
| Visibility.PredicateOf | index.js:107-115 | decoding a `deleted` clause gives the predicate that encodes to it |
| Visibility.WhereClause | index.js:88-100 | a read wrapper's `where` clause is always an object |
| Visibility.WhereClauseStatesFilter | index.js:88-100 | the default and `…Deleted` read clauses are `{deleted: {$ne: true}}`, and `…WithDeleted` passes `{}` |
| Visibility.ReadDeletedVariantHidesDeleted | index.js:90-96 | the read `…Deleted` variant issues the same query as the default one, so both hide a deleted record |
| Visibility.DefaultHidesExactlyDeleted | index.js:87-127 | every default variant keeps exactly the records whose `deleted` is not `true`, a subset of `…WithDeleted` |
| Visibility.WriteVariantsCoverAll | index.js:103-118 | the default and `…Deleted` write variants together cover every record and overlap exactly where `deleted` is not a boolean |
| Visibility.InjectFilterLands | index.js:105-117 | injection throws exactly on an empty list, lands as `deleted` on an object or function, is lost on a primitive, and leaves the rest alone |
| Payloads.ShiftActorFindsCallback | index.js:160-169 | after the shift the actor is never a function; the callback is the first function among actor and conditions, else the given callback; a function actor leaves the conditions as they were; function conditions moved to the callback become `{}` with a null actor |
| Payloads.ShiftDeleteArguments | index.js:160-169 | the reassignments at the head of the static `delete` perform that shift |
| Payloads.ShiftRestore | index.js:243-247 | function conditions become the callback and the conditions become `{}`, so a callback given beside them is lost; otherwise both pass through unchanged |
| Payloads.ShiftRestoreArguments | index.js:243-247 | the reassignments at the head of the static `restore` perform that shift |
| Payloads.DeleteData | index.js:171-181 | the update document built field by field is the soft-delete payload |
| Payloads.DeletePayloadFields | index.js:171-181 | the payload sets `deleted` true, `deletedAt` when the schema has it, `deletedBy` when the schema has it, and nothing else |
| Payloads.SavedDeletedIdempotent | index.js:129-135 | after the hook `deleted` is `false` or the truthy value it had; running it twice changes nothing |
| Payloads.SoftDeleteHides | index.js:171-188 | a soft-deleted record drops out of every default variant, stays in the write `…Deleted` and the `…WithDeleted` variants, and keeps its other fields |
| Payloads.RestoreShows | index.js:249-259 | a restored record is back in every default variant, out of the write `…Deleted` variants, with `deletedAt` and `deletedBy` cleared |
| Statics.PayloadUpdateIssued | index.js:183-187 | handing the payload to `updateWithDeleted` never throws; the store receives conditions, payload, `{multi: true}` and callback, or the conditions alone when they are a function |
| Statics.FalsyConditionsMisplacePayload | index.js:183-184 | with falsy conditions the payload lands in the conditions position |
| Statics.WriteCallThrows | index.js:101-126 | a write wrapper throws exactly when its variant writes a predicate and all four arguments are falsy; `…WithDeleted` never throws |
| Statics.CallbackFirstUpdatesAll | index.js:160-260 | the static `delete(cb)` and `restore(cb)` send `({}, payload, {multi: true}, cb)`, so they update every record |
| Statics.DocOnlyGetsPredicate | index.js:23-28 | the default write wrapper called with a lone object `(doc)` writes `deleted: {$ne: true}` into that update document and sends no conditions |
| Statics.FindOneAndUpdateIssued | index.js:232 | the fallback `findOneAndUpdate(conditions, data, callback)` never throws |
| Statics.SetDeleted | index.js:107 | `args[0].deleted = {$ne: …}` throws on an empty list and otherwise is the injection of the predicate |
| Statics.Model.constructor | index.js:120-125 | the model always has `updateWithDeleted`, has `deletedAt` and `deletedBy` exactly where the plugin added those paths, and nothing has been sent to the store yet |
| Statics.Model.Static | index.js:87-127 | a read wrapper logs one query with its arguments and the variant's clause; a write wrapper logs the normalised, injected call, or throws |
| Statics.Model.WriteStatic | index.js:101-126 | a write wrapper logs exactly the call the normalised arguments and the variant's predicate give, and fails exactly when that throws |
| Statics.Model.Delete | index.js:160-188 | the static `delete` logs exactly one multi-document update of the shifted conditions with the payload, and never throws |
| Statics.Model.FindByIdAndDelete | index.js:190-204 | the static `findByIdAndDelete` logs one `findByIdAndUpdate` of the unshifted actor's payload |
| Statics.Model.FindOneAndDelete | index.js:206-234 | the static `findOneAndDelete` logs the same update as `delete`, or a `findOneAndUpdate` without `updateWithDeleted`, and never throws |
| Statics.Model.Restore | index.js:243-260 | the static `restore` logs exactly one multi-document update with the restore payload, and never throws |
| Statics.ApplyPlugin | index.js:74-85 | once the plugin is attached, every soft delete of the model stamps `deletedAt`, and records the actor exactly when the option `deletedBy` is `true` |
| Instance.Document.constructor | index.js:145-151 | a document has `deletedAt` and `deletedBy` exactly where the plugin added those paths |
| Instance.Document.PreSave | index.js:129-135 | the hook replaces a falsy `deleted` by `false` and changes nothing else |
| Instance.Document.Delete | index.js:137-158 | the instance `delete` sets `deleted`, stamps the time and actor where the schema has the paths, and saves with the right callback |
| Instance.Document.Restore | index.js:236-241 | the instance `restore` clears the three fields and saves |
| Instance.DeleteThenRestore | index.js:137-241 | deleting, restoring and saving a document leaves it visible and clean, after one save for each call, the first with the callback the shift picks |

## Left out

- The store itself is not executed. `find`, `update`, `findByIdAndUpdate` and the rest are recorded as `Statics.DelegateCall` values, and `Visibility.Matches` stands in for the store's `$ne`.
- `Payloads.ApplySet` models the store applying an update document without operators as a `$set`. What the store does with `undefined` values in such an update is not modelled.
- The store's own `findByIdAndUpdate` calls the wrapped `findOneAndUpdate` internally. That second wrapping is not modelled.
- `schema.add`, `schema.statics[...] = …`, `schema.methods`, `schema.pre` and `require` are left out. The model's classes hold the resulting members instead.
- `schema.path(...)` is the booleans `hasDeletedAt` and `hasDeletedBy`, taken from the paths `SchemaConfig.Attach` adds. This assumes the schema had no such paths of its own before the plugin was attached.
- `JsValues.JsValue` has no symbols and no BigInts, so `typeof` never yields "symbol" or "bigint" and the falsy `0n` cannot be written. No branch of `index.js` treats those values differently from other primitives.
- `new Date()` is a parameter `now`, because the clock is not modelled.
- Callbacks and `next()` are never called. They are recorded or passed on as values.
- The promise or query object each wrapper returns is not modelled.
- `Statics.Model.Static` reads only the first four elements of `arguments`. The read wrappers pass all of them on, and the write wrappers ignore the rest, as `parseUpdateArguments` does.
- Object identity and aliasing are left out. The write wrappers mutate the caller's first argument in place, which the model shows only as the value sent to the store.
- JsValues.SetProp: an assignment to a property of `null` or `undefined`, which throws, is modelled as dropped. The write wrappers never reach it, because the normalised list holds only truthy values (`UpdateArguments.NormalizedArgsInSlotOrder`).
- Properties of arrays, `String` objects and dates are not modelled: reading one gives `undefined`, and writing one is dropped.
- The special numbers `NaN` and `-0` are not modelled, so `0` is the only falsy number.
- `Statics.Model.constructor` always sets `hasUpdateWithDeleted`, because the plugin always defines `updateWithDeleted`. The `else` branches of the statics `delete`, `findOneAndDelete` and `restore` are still modelled and proved.
- `Instance.Document.PreSave` models the hook's effect on `deleted` only. Validation and the persistence of the document are not modelled.

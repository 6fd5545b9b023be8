# Self-service user handlers of the Natours API, in Dafny

This project models the "current user" handlers of the Natours REST API
(`controllers/userController.js`) and proves what they promise:

- `filterObj(obj, ...allowedFields)` is the whitelist filter. It walks the
  keys of the request body and copies every allowed key, with its value,
  into a fresh object.
- `getMe` points the `id` route parameter at the authenticated caller, so
  that the generic get-one handler reads the caller's own record.
- `updateMe` refuses any body with a truthy `password` or `passwordConfirm`
  (error 400, no update). Otherwise it merges only `name` and `email` into
  the caller's own record and answers 200 with the updated record.
- `deleteMe` is a soft delete. It sets `active: false` on the caller's
  record and answers 204 with `data: null`.
- `createUser` is a stub that always answers 500 and points to `/signup`.

Files:

- `js_values.dfy` (module `JsValues`): JSON-shaped JavaScript values and
  JavaScript truthiness. A plain object is the sequence of its own keys in
  `Object.keys` order, each paired with its value. Property lookup and
  conversion to a map live here too.
- `field_filter.dfy` (module `FieldFilter`): `filterObj` as a loop
  (`FilterObj`), proved against the specification function `Filter`, and
  lemmas about `Filter`. These cover keys, values, order, well-formedness,
  idempotence, and a uniqueness theorem that characterises `Filter`
  independently of its definition.
- `persistence.dfy` (module `Persistence`): the user collection as a class
  holding `map<Id, Record>`. `findByIdAndUpdate` merges fields into the
  record with the given id (`MergeById`).
- `user_controller.dfy` (module `UserController`): the four handlers, the
  request (`Request`, whose `params` the code updates in place), the
  response or forwarded error (`Outcome`), and lemmas on the frame of each
  update.

The caller identity (`req.user.id`) is a field of `Request` that the
authentication middleware fills in. No handler reads an id from the client
for a self-operation.

Two consequences of the code are worth stating. The filtered object
follows the body's `Object.keys` order, not the allow-list order
(`FilterIsSubsequence`, `FilterUnique`). The guard tests truthiness, not
whether the key is present: `password: ""` passes the guard and the filter
then drops it (`ScenarioFalsyPasswordPasses`, `ScenarioFalsyPasswordDropped`).

## Model

| member | source | states |
|---|---|---|
| `JsValues.Truthy` | controllers/userController.js:36 | the values the `if` treats as false are exactly `undefined`, `null`, `false`, `0` and `""`; every other value, including an empty array or object, is true |
| `JsValues.KeysOfAt` | controllers/userController.js:10 | `Object.keys(obj)` lists one key per entry: the i-th key is the key of the i-th entry |
| `JsValues.Lookup` | controllers/userController.js:11 | `obj[el]` finds a value exactly when `el` is one of the object's keys, and the value found is the one paired with that key |
| `JsValues.Get` | controllers/userController.js:36 | `req.body.password` reads `undefined` when the key is absent, and otherwise reads the stored value |
| `JsValues.ToMap` | controllers/userController.js:49 | the object handed to the data-access layer has exactly the object's keys, each with that key's value |
| `FieldFilter.Filter` | controllers/userController.js:8-14 | every entry of the result is an entry of the input whose key is allowed |
| `FieldFilter.FilterObj` | controllers/userController.js:8-14 | the key-by-key loop builds exactly `Filter(obj, allowed)`; reading any key of the result gives the input's value if the key is allowed and nothing otherwise |
| `FieldFilter.FilterAppend` | controllers/userController.js:10-12 | filtering a concatenation filters each part, so the loop may build the result one entry at a time |
| `FieldFilter.FilterKeys` | controllers/userController.js:10-11 | a key is in the result if and only if it is an input key and on the allow-list |
| `FieldFilter.FilterLookup` | controllers/userController.js:11 | each result value is the source value for that key; an allowed key the source lacks is absent from the result |
| `FieldFilter.FilterIsSubsequence` | controllers/userController.js:10-12 | the result is the input with entries deleted, so it keeps the input's key order |
| `FieldFilter.FilterDistinct` | controllers/userController.js:9-13 | filtering an object with distinct keys yields an object with distinct keys |
| `FieldFilter.FilterUnique` | controllers/userController.js:8-14 | on a well-formed object, the only order-preserving selection whose keys are the allowed input keys is the filter's result |
| `FieldFilter.FilterAllAllowed` | controllers/userController.js:10-11 | an object whose keys are all allowed passes through unchanged |
| `FieldFilter.FilterIdempotent` | controllers/userController.js:8-14 | filtering twice with the same allow-list equals filtering once |
| `Persistence.FindById` | controllers/userController.js:49-52 | a record is returned exactly when the id is stored, and it is the stored record |
| `Persistence.MergeById` | controllers/userController.js:49-52 | merging fields by id keeps the same set of ids and leaves every other record untouched; in the target record the given fields take the new values and the other fields keep theirs |
| `Persistence.UserStore.FindByIdAndUpdate` | controllers/userController.js:49-52 | the collection becomes the merge of the fields into the record with that id, and the call returns the record as it is after the update |
| `UserController.ResolveSelf` | controllers/userController.js:28-30 | afterwards `params.id` is the caller's id whatever it held before, and every other parameter is unchanged |
| `UserController.GetMe` | controllers/userController.js:28-31 | `req.params` is updated in place to `ResolveSelf` of its old value and the caller's id |
| `UserController.PasswordAttempt` | controllers/userController.js:36 | true exactly when `password` or `passwordConfirm` is a key of the body whose value is truthy; an absent key reads `undefined`, which is falsy, so it never trips the guard |
| `UserController.SelfUpdate` | controllers/userController.js:46 | the filtered body holds a field if and only if it is `name` or `email` and present in the body, with the body's value |
| `UserController.UpdateMe` | controllers/userController.js:34-60 | a truthy `password` or `passwordConfirm` yields error 400 and the collection is unchanged; otherwise the filtered body is merged into the caller's record and the response is 200 with the updated record |
| `UserController.UpdateMeFrame` | controllers/userController.js:46-52 | an accepted update changes only the caller's record, and in it only the `name` and `email` keys the body carries, set to the body's values; a `name` or `email` the body omits, `password`, `role` and all other fields and records are unchanged |
| `UserController.DeleteMe` | controllers/userController.js:63-70 | the collection becomes the merge of `active: false` into the caller's record; the response is 204 with `data: null` |
| `UserController.DeleteMeSoft` | controllers/userController.js:64 | deactivation removes no record; the caller's record has `active` false and its other fields as before, and other records are unchanged |
| `UserController.CreateUser` | controllers/userController.js:73-78 | whatever the request, the answer is 500 with the fixed "Please us /signup instead" error message |
| `UserController.ScenarioRolePasses` | controllers/userController.js:36 | the body `{name, email, role: "admin"}` does not trip the guard |
| `UserController.ScenarioRoleFiltered` | controllers/userController.js:46 | filtering that body keeps its `name` and `email` entries, in order, and drops `role` |
| `UserController.ScenarioRoleDropped` | controllers/userController.js:46-49 | from that body exactly `{name: "Ann", email: "a@x.com"}` is handed to the data-access layer |
| `UserController.ScenarioPasswordRejected` | controllers/userController.js:36-43 | the body `{password: "newpass"}` trips the guard |
| `UserController.ScenarioFalsyPasswordPasses` | controllers/userController.js:36 | `password: ""` and `passwordConfirm: null` are falsy, so the guard lets the body through |
| `UserController.ScenarioFalsyPasswordFiltered` | controllers/userController.js:46 | filtering that body keeps only its `email` entry |
| `UserController.ScenarioFalsyPasswordDropped` | controllers/userController.js:46-49 | from that body only `email` is handed to the data-access layer; neither password field is written |

## Left out

- `catchAsync`, `AppError` construction and the `next(...)` plumbing: an error forwarded to `next` is the value `Forward(AppError(message, 400))`. `AppError` (controllers/userController.js:3, 38) is modelled only as its message and status code. The error-handling middleware that turns a forwarded error into a response is not part of this model.
- Mongoose internals of `findByIdAndUpdate`: `runValidators` schema validation and its `ValidationError`, casting of values to the schema types, and stripping of `undefined` values. The model keeps the abstract "merge these fields into the record with this id" contract. It also keeps `new: true` (the post-update record is returned) and the "no record with that id" case (nothing changes and the result is null).
- `getMe`'s `next()`: the generic `factory.getOne` handler that runs after it lives in `handlerFactory.js`, which is not part of this model. So are `getAllUsers`, `getUser`, `updateUser` and `deleteUser` (controllers/userController.js:80-83), which are thin wrappers over that factory.
- How `req.user` is filled in (authentication middleware). The query-level hiding of inactive users belongs to the user model and is not part of this model either.
- JSON serialisation of responses and the HTTP transport. A response is a status plus a body value.
- Concurrency: each handler runs to completion as one atomic step. Interleaving of concurrent requests is not modelled.
- JavaScript numbers are modelled as reals. NaN cannot arise from a JSON body. `JSON.parse` turns an overflowing literal such as `1e400` into `Infinity`, which is not modelled; like every nonzero number it is truthy, so the guard behaves the same. The integer-like keys that `Object.keys` lists first are taken to be already in that order in the key sequence.
- Repeated keys: a JavaScript object never has them, but `JsObject` does not exclude them. On such a sequence, lookups read the first entry with the key.
- Prototype-chain lookups (`req.body.password` on an inherited property) are not modelled. Only own keys are seen.
- The commented-out legacy handlers (controllers/userController.js:100-127) are dead code.

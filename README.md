# password_police: role-to-password-strength map in Dafny

This project models `PasswordPolice::RoleToPasswordStrengthMap`. The class keeps an
in-memory dictionary from a role name to the minimum password strength that role
requires. A strength is a zxcvbn score from 0 to 4.

- **Construction.** `RoleToPasswordStrengthMap.new(role_map)` takes a Ruby hash whose
  keys may be Symbols or Strings. It checks, in this order:
  1. the hash is neither nil nor empty;
  2. every value is an Integer;
  3. at least one value lies in 0..4.

  Then `stringify_keys` rewrites every key to its `to_s` in place. The Dafny class
  cannot fail in its constructor, so construction is the static method `New`. It
  returns either the new object or the error that Ruby raises. Its specification
  is the function `Construct`.
- **Mutators.** `add_role`, `update_role` and `delete_role` check their conditions,
  change `@role_map` in place and return it. In the model they are the methods
  `AddRole`, `UpdateRole` and `DeleteRole` on the field `roleMap`. Each is specified
  by a pure function on maps: `AddedRole`, `UpdatedRole` and `DeletedRole`.
- **Query.** `password_strength_fulfilled?` compares a strength score with the stored
  requirement. The model's function is `PasswordStrengthFulfilled`.

Modelling choices:

- A hash key is a `Label`: either `Sym(name)` or `Str(text)`. `Label.ToS` is Ruby's `to_s`.
- A hash value is a `Value`: either `IntegerValue(n)` or `OtherValue` (any non-Integer object).
- The initial hash is a sequence of (key, value) pairs in insertion order. A Ruby hash
  never holds the same key twice, so `New` requires distinct keys.
- `nil` is `None`.
- Each `raise` is one variant of `Error`.
- The zxcvbn score of the password is passed in as an integer `score`.

Four behaviours of the code are easy to misread; the model follows the code in each:

- **Range check.** Construction requires only that *some* value is in 0..4, because
  the code uses `any?`. So `{admin: 5, user: 2}` is accepted and stores 5
  (`ExampleMixedRangeAccepted`).
- **String keys.** `stringify_keys` rejects *every* key that is already a String, not
  only keys that collide after `to_s`. The `to_s` of a String is the String itself,
  so it is always a key of the hash. Construction therefore succeeds only when
  every key is a Symbol (`StringifiedOkIffSymbols`). The error names the first key
  whose String form is a key of the original hash. For
  `{admin: 4, averagejoe: 0, 'admin' => 7}` that is the first key, `:admin`.
- **Query lookup.** `password_strength_fulfilled?` looks up the role as given, without
  `to_s`. Stored keys are Strings, so a Symbol role is never found.
- **Estimator call.** The query calls `PasswordPolice::CalulateStrength`, a misspelt
  constant. The model uses the intended comparison with the estimator's score.

## Model

| member | source | states |
|---|---|---|
| `PasswordPolice.StrengthInRange` | lib/password_police/role_to_password_strength_map.rb:53-55 | a strength passes exactly when it is one of the five scores 0, 1, 2, 3, 4 |
| `PasswordPolice.RoleMapStrengthsInRange` | lib/password_police/role_to_password_strength_map.rb:49-51 | the construction range check holds iff at least one strength is in 0..4 (`any?`, not "all") |
| `PasswordPolice.AnyNonInteger` | lib/password_police/role_to_password_strength_map.rb:9 | the non-Integer check fires iff some value of the hash is not an Integer |
| `PasswordPolice.StringifiedPrefix` | lib/password_police/role_to_password_strength_map.rb:57-63 | reference definition of `stringify_keys` on the first keys of a hash: every failure it gives is `DuplicateKey` of a name whose String form is a key of the original hash |
| `PasswordPolice.Stringified` | lib/password_police/role_to_password_strength_map.rb:57-63 | `stringify_keys` on a whole hash: succeeds iff no key's `to_s`, as a String, is a key of the hash; otherwise fails with `DuplicateKey` of such a name |
| `PasswordPolice.Construct` | lib/password_police/role_to_password_strength_map.rb:7-13 | the whole of `initialize`: a success implies a present, non-empty hash of Integer values with some value in 0..4; a `DuplicateKey` failure names a String that is a key of the input |
| `PasswordPolice.StringifyKeys` | lib/password_police/role_to_password_strength_map.rb:57-64 | the in-place loop checks each key against the live, partly rewritten hash; its outcome equals the reference definition `Stringified`, which checks against the original keys |
| `PasswordPolice.StringifyCheckAgrees` | lib/password_police/role_to_password_strength_map.rb:59 | before key i, "`to_s` is a key of the live hash" is equivalent to "the String form of `to_s` is a key of the original hash" |
| `PasswordPolice.StringifyStepKeeps` | lib/password_police/role_to_password_strength_map.rb:61 | deleting key i and re-inserting its value under `to_s` keeps the live hash in step with the reference result |
| `PasswordPolice.StringifiedPrefixOk` | lib/password_police/role_to_password_strength_map.rb:58-62 | stringifying a prefix of the keys succeeds iff none of its keys has its String form among the original keys |
| `PasswordPolice.StringifiedPrefixKeys` | lib/password_police/role_to_password_strength_map.rb:61 | after success, the keys are exactly the `to_s` of the input keys |
| `PasswordPolice.StringifiedPrefixValues` | lib/password_police/role_to_password_strength_map.rb:61 | after success, each input value sits under its key's `to_s` when no two keys share a `to_s` |
| `PasswordPolice.StringifiedPrefixError` | lib/password_police/role_to_password_strength_map.rb:59 | a failure is `DuplicateKey` naming the first key in insertion order whose String form is an original key |
| `PasswordPolice.StringifiedErrorPersists` | lib/password_police/role_to_password_strength_map.rb:59 | once a key raises, no later key changes the outcome |
| `PasswordPolice.StringifiedPrefixFails` | lib/password_police/role_to_password_strength_map.rb:59 | the first colliding key makes the whole conversion raise `DuplicateKey` with that key's name |
| `PasswordPolice.AddedRole` | lib/password_police/role_to_password_strength_map.rb:21-27 | succeeds iff the strength is in range and `role.to_s` is absent; the range error takes precedence over `AlreadyExists`; on success the keys are the old keys plus `role.to_s`, which maps to the strength, and every old entry is unchanged |
| `PasswordPolice.UpdatedRole` | lib/password_police/role_to_password_strength_map.rb:30-36 | succeeds iff the strength is in range and `role.to_s` is present; the range error takes precedence over `NotFound`; on success the key set is unchanged, `role.to_s` maps to the strength, and every other entry is unchanged |
| `PasswordPolice.DeletedRole` | lib/password_police/role_to_password_strength_map.rb:39-45 | succeeds iff `role.to_s` is present, else `NotFound`; on success exactly that key is gone and every other entry is unchanged |
| `PasswordPolice.RoleToPasswordStrengthMap.New` | lib/password_police/role_to_password_strength_map.rb:7-13 | returns a fresh object whose map is `Construct(input)` on success, and otherwise the error `Construct` gives |
| `PasswordPolice.RoleToPasswordStrengthMap.PasswordStrengthFulfilled` | lib/password_police/role_to_password_strength_map.rb:15-19 | `RoleNotFound` unless the role is a String key of the map; otherwise true iff the score is at least the stored requirement |
| `PasswordPolice.RoleToPasswordStrengthMap.AddRole` | lib/password_police/role_to_password_strength_map.rb:21-28 | returns `AddedRole` of the old map; the map becomes the returned map on success and is unchanged on error |
| `PasswordPolice.RoleToPasswordStrengthMap.UpdateRole` | lib/password_police/role_to_password_strength_map.rb:30-37 | returns `UpdatedRole` of the old map; the map becomes the returned map on success and is unchanged on error |
| `PasswordPolice.RoleToPasswordStrengthMap.DeleteRole` | lib/password_police/role_to_password_strength_map.rb:39-45 | returns `DeletedRole` of the old map; the map becomes the returned map on success and is unchanged on error |
| `RoleMapProperties.StringifiedOkIffSymbols` | lib/password_police/role_to_password_strength_map.rb:57-63 | stringifying succeeds iff every key is a Symbol, because a String key is always reported as a duplicate |
| `RoleMapProperties.StringifiedContents` | lib/password_police/role_to_password_strength_map.rb:57-63 | a successful result holds each input value under its key's name, and every result key is the name of some input Symbol |
| `RoleMapProperties.ConstructCheckOrder` | lib/password_police/role_to_password_strength_map.rb:7-10 | nil or empty gives `EmptyRoleMap` before anything else; then any non-Integer gives `NonIntegerStrength`; then all values out of range gives `StrengthOutOfRange` |
| `RoleMapProperties.ConstructOkIff` | lib/password_police/role_to_password_strength_map.rb:7-13 | construction succeeds iff the hash is non-empty, all values are Integers, some value is in 0..4, and all keys are Symbols |
| `RoleMapProperties.ConstructContents` | lib/password_police/role_to_password_strength_map.rb:12 | the constructed map is the input with each key replaced by its `to_s` and the values unchanged |
| `RoleMapProperties.ConstructNamesFirstDuplicate` | lib/password_police/role_to_password_strength_map.rb:12 | a `DuplicateKey` error names the first key in insertion order whose String form is a key of the input |
| `RoleMapProperties.ConstructRejectsNonSymbolKey` | lib/password_police/role_to_password_strength_map.rb:7-13 | a hash that passes the emptiness, Integer and range checks but has a non-Symbol key fails with `DuplicateKey` naming the first colliding key in insertion order |
| `RoleMapProperties.ConstructKeepsStrengthsInRange` | lib/password_police/role_to_password_strength_map.rb:7-13 | if every initial value is in 0..4, every stored requirement is too |
| `RoleMapProperties.ExampleOutOfRangeRejected` | spec/password_police/role_to_password_strength_map_spec.rb:20-26 | `{admin: 5}` is rejected with `StrengthOutOfRange` |
| `RoleMapProperties.ExampleAccepted` | spec/password_police/role_to_password_strength_map_spec.rb:28-34 | `{admin: 4, averagejoe: 0}` becomes `{'admin' => 4, 'averagejoe' => 0}` |
| `RoleMapProperties.ExampleDuplicateKey` | spec/password_police/role_to_password_strength_map_spec.rb:36-42 | `{admin: 4, averagejoe: 0, 'admin' => 7}` is rejected with `DuplicateKey("admin")` |
| `RoleMapProperties.ExampleMixedRangeAccepted` | lib/password_police/role_to_password_strength_map.rb:49-51 | `{admin: 5, user: 2}` is accepted and stores 5, an out-of-range requirement |
| `RoleMapProperties.ExampleStringKeyRejected` | lib/password_police/role_to_password_strength_map.rb:59 | `{'admin' => 4}` is rejected with `DuplicateKey("admin")` although nothing collides |
| `RoleMapProperties.AddThenDelete` | lib/password_police/role_to_password_strength_map.rb:21-45 | deleting a role that was just added restores the previous map |
| `RoleMapProperties.DeleteThenAdd` | lib/password_police/role_to_password_strength_map.rb:21-45 | re-adding a deleted role with its old in-range strength restores the previous map |
| `RoleMapProperties.UpdateThenRestore` | lib/password_police/role_to_password_strength_map.rb:30-36 | updating a role back to its old in-range strength undoes an update |
| `RoleMapProperties.MutatorsNormaliseRole` | lib/password_police/role_to_password_strength_map.rb:22 | the mutators treat a Symbol and the String with the same name as the same role |
| `RoleMapProperties.MutatorsKeepStrengthsInRange` | lib/password_police/role_to_password_strength_map.rb:21-45 | add, update and delete keep every stored requirement in 0..4 if it already was |
| `RoleMapProperties.ExampleAddRole` | spec/password_police/role_to_password_strength_map_spec.rb:45-75 | on `{'admin' => 4}`: adding `:user` with 2 gives `{'admin' => 4, 'user' => 2}`, adding `:admin` raises `AlreadyExists`, and adding strength 6 raises `StrengthOutOfRange` |
| `RoleMapProperties.ExampleDeleteLastRole` | spec/password_police/role_to_password_strength_map_spec.rb:109-126 | deleting `:admin` from `{'admin' => 3}` leaves an empty map; deleting `:user` raises `NotFound("user")` |
| `RoleMapProperties.SymbolRoleNeverFound` | lib/password_police/role_to_password_strength_map.rb:16 | the query with a Symbol role always raises `RoleNotFound` |
| `RoleMapProperties.FulfilledIsMonotone` | lib/password_police/role_to_password_strength_map.rb:18 | a score fulfils a role's requirement whenever a lower score does |
| `RoleMapProperties.ExampleQuery` | lib/password_police/role_to_password_strength_map.rb:15-19 | on `{'admin' => 4, 'user' => 0}` with score 0: `'user'` is fulfilled, `'admin'` is not, `'manager'` raises, and `:user` raises |

## Left out

- `lib/password_police/calculate_strength.rb` is a one-line call into the zxcvbn library. It is replaced by the integer `score` parameter of `PasswordStrengthFulfilled`. The password itself does not appear in the model.
- The misspelt constant `CalulateStrength` in the query would raise `NameError` in Ruby. The model uses the intended comparison instead.
- Error messages are not modelled, including the capital letter in the constructor's range message. Each `raise` is an `Error` variant.
- Aliasing is not modelled:
  - `stringify_keys` rewrites the caller's hash, and leaves it half-converted if it raises.
  - The mutators return the live `@role_map` object. The model returns a copy of the new map.
- Hash insertion order is not modelled after construction. The stored map is a Dafny `map`, and its equality ignores order, as Ruby's `Hash#==` does.
- Keys other than Symbols and Strings are not modelled.
- Non-Integer strengths passed to `add_role` or `update_role` (e.g. `2.5`, which `(0..4).include?` accepts) are not modelled. Strengths there are `int`.
- The default argument `role_map = {}` is the input `Some([])`. `ConstructCheckOrder` sends it to `EmptyRoleMap`, like `nil` (`None`).
- `RoleToPasswordStrengthMap.Wrap` is a helper constructor of `New` and not part of the Ruby interface. It stores any map without checks. Only `New` models `RoleToPasswordStrengthMap.new`, and Dafny cannot prevent other callers of `Wrap`.
- The `role_map` reader (`attr_reader`) is the field `roleMap` itself.

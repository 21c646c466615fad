/**
 * PasswordPolice::RoleToPasswordStrengthMap: an in-memory dictionary from role
 * name to the minimum password strength (a zxcvbn score, 0 to 4) that role needs.
 *
 * The hash given to the constructor may have Symbol or String keys; construction
 * validates it and rewrites every key to its String form. Afterwards the map is
 * changed in place by AddRole, UpdateRole and DeleteRole, and queried by
 * PasswordStrengthFulfilled.
 */
module PasswordPolice {
  import opened Wrappers

  /** A key of the hash given to the constructor: a Ruby Symbol or a Ruby String. */
  datatype Label = Sym(name: string) | Str(text: string) {
    /** Ruby's `to_s`: the name of a Symbol, the String itself. */
    function ToS(): string {
      match this
      case Sym(n) => n
      case Str(s) => s
    }
  }

  /** A value of the hash given to the constructor: an Integer, or any other object. */
  datatype Value = IntegerValue(n: int) | OtherValue

  /** One variant per `raise` of the class. */
  datatype Error =
    | EmptyRoleMap               // nil or empty hash at construction
    | NonIntegerStrength         // a value of the initial hash is not an Integer
    | StrengthOutOfRange         // no initial value in range, or a bad strength to add/update
    | DuplicateKey(key: string)  // `to_s` of a key is already a key while stringifying
    | RoleNotFound               // the query's role has no entry
    | AlreadyExists(role: string)
    | NotFound(role: string)

  const MinStrength: int := 0
  const MaxStrength: int := 4

  /** `strength_in_range?`: Ruby's `(0..4).include?`. */
  predicate StrengthInRange(strength: int)
    ensures StrengthInRange(strength) <==> strength in {0, 1, 2, 3, 4}
  {
    MinStrength <= strength <= MaxStrength
  }

  /** Every stored requirement is a valid score. */
  predicate AllStrengthsInRange(roleMap: map<string, int>) {
    forall role :: role in roleMap ==> StrengthInRange(roleMap[role])
  }

  /** `role_map_strengths_in_range?`: `any?`, so ONE in-range value suffices. */
  function RoleMapStrengthsInRange(strengths: seq<int>): (r: bool)
    ensures r <==> exists i :: 0 <= i < |strengths| && StrengthInRange(strengths[i])
  {
    if strengths == [] then false
    else if StrengthInRange(strengths[0]) then true
    else
      var rest := RoleMapStrengthsInRange(strengths[1..]);
      assert forall i :: 1 <= i < |strengths| ==> strengths[i] == strengths[1..][i - 1];
      rest
  }

  /** `role_map.values.any? { |value| !value.is_a?(Integer) }`. */
  function AnyNonInteger(values: seq<Value>): (r: bool)
    ensures r <==> exists i :: 0 <= i < |values| && !values[i].IntegerValue?
  {
    if values == [] then false
    else if !values[0].IntegerValue? then true
    else
      var rest := AnyNonInteger(values[1..]);
      assert forall i :: 1 <= i < |values| ==> values[i] == values[1..][i - 1];
      rest
  }

  /** `hash.values`, in insertion order. */
  function ValuesOf<V>(entries: seq<(Label, V)>): (r: seq<V>)
    ensures |r| == |entries| && forall i :: 0 <= i < |r| ==> r[i] == entries[i].1
  {
    seq(|entries|, i requires 0 <= i < |entries| => entries[i].1)
  }

  /** The keys of a hash given as its entries in insertion order. */
  function Keys<V>(entries: seq<(Label, V)>): set<Label> {
    set i | 0 <= i < |entries| :: entries[i].0
  }

  /** The entries are those of a Ruby hash: no key occurs twice. */
  predicate DistinctKeys<V>(entries: seq<(Label, V)>) {
    forall i, j :: 0 <= i < j < |entries| ==> entries[i].0 != entries[j].0
  }

  /** The initial hash once every value is known to be an Integer. */
  function IntegerEntries(entries: seq<(Label, Value)>): (r: seq<(Label, int)>)
    requires forall i :: 0 <= i < |entries| ==> entries[i].1.IntegerValue?
    ensures |r| == |entries|
    ensures forall i :: 0 <= i < |r| ==> r[i].0 == entries[i].0 && entries[i].1 == IntegerValue(r[i].1)
  {
    seq(|entries|, i requires 0 <= i < |entries| => (entries[i].0, entries[i].1.n))
  }

  /** The hash itself, as a dictionary. */
  function AsHash(entries: seq<(Label, int)>): (h: map<Label, int>)
    requires DistinctKeys(entries)
    ensures forall k :: k in h <==> exists i :: 0 <= i < |entries| && entries[i].0 == k
    ensures forall i :: 0 <= i < |entries| ==> h[entries[i].0] == entries[i].1
  {
    map i | 0 <= i < |entries| :: entries[i].0 := entries[i].1
  }

  /**
   * Reference definition of `stringify_keys` on the first |entries| keys of a hash
   * whose full key set is `keys`: a key fails when the String form of its `to_s`
   * is a key of the ORIGINAL hash. (A String key therefore always fails: it is
   * its own String form.)
   */
  function StringifiedPrefix(entries: seq<(Label, int)>, keys: set<Label>): (r: Result<map<string, int>, Error>)
    ensures r.Err? ==> r.error.DuplicateKey? && Str(r.error.key) in keys
  {
    if entries == [] then Ok(map[])
    else
      var prev := StringifiedPrefix(entries[..|entries| - 1], keys);
      var (k, v) := entries[|entries| - 1];
      if prev.Err? then prev
      else if Str(k.ToS()) in keys then Err(DuplicateKey(k.ToS()))
      else Ok(prev.value[k.ToS() := v])
  }

  /** The outcome of `stringify_keys` on a whole hash. */
  function Stringified(entries: seq<(Label, int)>): (r: Result<map<string, int>, Error>)
    ensures r.Ok? <==> forall i :: 0 <= i < |entries| ==> Str(entries[i].0.ToS()) !in Keys(entries)
    ensures r.Err? ==> r.error.DuplicateKey? && Str(r.error.key) in Keys(entries)
  {
    StringifiedPrefixOk(entries, Keys(entries));
    StringifiedPrefix(entries, Keys(entries))
  }

  /** Key `i` is the first whose String form is a key of the original hash. */
  predicate FirstCollision(entries: seq<(Label, int)>, keys: set<Label>, i: int) {
    0 <= i < |entries| && Str(entries[i].0.ToS()) in keys &&
    forall j :: 0 <= j < i ==> Str(entries[j].0.ToS()) !in keys
  }

  /** The prefix succeeds exactly when none of its keys collides. */
  lemma {:induction false} StringifiedPrefixOk(entries: seq<(Label, int)>, keys: set<Label>)
    ensures StringifiedPrefix(entries, keys).Ok? <==>
            forall i :: 0 <= i < |entries| ==> Str(entries[i].0.ToS()) !in keys
  {
    if entries != [] {
      var init := entries[..|entries| - 1];
      StringifiedPrefixOk(init, keys);
      assert forall i :: 0 <= i < |init| ==> init[i] == entries[i];
    }
  }

  /** A successful prefix has exactly the `to_s` of its keys as keys. */
  lemma {:induction false} StringifiedPrefixKeys(entries: seq<(Label, int)>, keys: set<Label>)
    ensures StringifiedPrefix(entries, keys).Ok? ==>
            forall s :: s in StringifiedPrefix(entries, keys).value <==>
                        exists i :: 0 <= i < |entries| && entries[i].0.ToS() == s
  {
    if entries != [] {
      var init := entries[..|entries| - 1];
      StringifiedPrefixKeys(init, keys);
      assert forall i :: 0 <= i < |init| ==> init[i] == entries[i];
    }
  }

  /** When no two keys share a `to_s`, a successful prefix keeps every value. */
  lemma {:induction false} StringifiedPrefixValues(entries: seq<(Label, int)>, keys: set<Label>)
    requires forall i, j :: 0 <= i < j < |entries| ==> entries[i].0.ToS() != entries[j].0.ToS()
    ensures StringifiedPrefix(entries, keys).Ok? ==>
            forall i :: 0 <= i < |entries| ==>
              entries[i].0.ToS() in StringifiedPrefix(entries, keys).value &&
              StringifiedPrefix(entries, keys).value[entries[i].0.ToS()] == entries[i].1
  {
    if entries != [] {
      var init := entries[..|entries| - 1];
      StringifiedPrefixValues(init, keys);
      assert forall i :: 0 <= i < |init| ==> init[i] == entries[i];
    }
  }

  /** A failing prefix names the first colliding key. */
  lemma {:induction false} StringifiedPrefixError(entries: seq<(Label, int)>, keys: set<Label>)
    ensures StringifiedPrefix(entries, keys).Err? ==>
            exists i :: FirstCollision(entries, keys, i) &&
                        StringifiedPrefix(entries, keys).error == DuplicateKey(entries[i].0.ToS())
  {
    if entries != [] {
      var init := entries[..|entries| - 1];
      assert forall i :: 0 <= i < |init| ==> init[i] == entries[i];
      StringifiedPrefixError(init, keys);
      if StringifiedPrefix(entries, keys).Ok? {
      } else if StringifiedPrefix(init, keys).Err? {
        var i :| FirstCollision(init, keys, i) &&
                 StringifiedPrefix(init, keys).error == DuplicateKey(init[i].0.ToS());
        assert FirstCollision(entries, keys, i);
      } else {
        StringifiedPrefixOk(init, keys);
        assert Str(entries[|entries| - 1].0.ToS()) in keys;
        assert FirstCollision(entries, keys, |entries| - 1);
      }
    }
  }

  /** The first colliding key makes the prefix that ends with it fail. */
  lemma StringifiedPrefixFails(entries: seq<(Label, int)>, keys: set<Label>, i: int)
    requires 0 <= i < |entries|
    requires StringifiedPrefix(entries[..i], keys).Ok?
    requires Str(entries[i].0.ToS()) in keys
    ensures StringifiedPrefix(entries, keys) == Err(DuplicateKey(entries[i].0.ToS()))
  {
    assert entries[..i + 1][..i] == entries[..i];
    StringifiedErrorPersists(entries, keys, i + 1);
  }

  /** Once a prefix fails, the whole hash fails with the same error. */
  lemma {:induction false} StringifiedErrorPersists(entries: seq<(Label, int)>, keys: set<Label>, i: int)
    requires 0 <= i <= |entries|
    requires StringifiedPrefix(entries[..i], keys).Err?
    ensures StringifiedPrefix(entries, keys) == StringifiedPrefix(entries[..i], keys)
  {
    if i < |entries| {
      var init := entries[..|entries| - 1];
      assert init[..i] == entries[..i];
      StringifiedErrorPersists(init, keys, i);
    } else {
      assert entries[..i] == entries;
    }
  }

  /**
   * The hash while `stringify_keys` runs, before key `i`: the keys already handled
   * sit under their String form with the values `done` gives them, and the keys
   * not yet handled are still there unchanged.
   */
  ghost predicate HashMidway(entries: seq<(Label, int)>, i: int, done: map<string, int>, hash: map<Label, int>) {
    0 <= i <= |entries| &&
    (forall j :: i <= j < |entries| ==> entries[j].0 in hash && hash[entries[j].0] == entries[j].1) &&
    (forall s :: s in done ==> Str(s) in hash && hash[Str(s)] == done[s]) &&
    (forall k :: k in hash ==> (k.Str? && k.text in done) || exists j :: i <= j < |entries| && entries[j].0 == k)
  }

  /** Before key `i`, "`to_s` is a key of the live hash" means "of the original hash". */
  lemma StringifyCheckAgrees(entries: seq<(Label, int)>, i: int, done: map<string, int>, hash: map<Label, int>)
    requires DistinctKeys(entries) && 0 <= i < |entries|
    requires StringifiedPrefix(entries[..i], Keys(entries)) == Ok(done)
    requires HashMidway(entries, i, done, hash)
    ensures Str(entries[i].0.ToS()) in hash <==> Str(entries[i].0.ToS()) in Keys(entries)
  {
    var keys := Keys(entries);
    var k := entries[i].0;
    StringifiedPrefixOk(entries[..i], keys);
    StringifiedPrefixKeys(entries[..i], keys);
    assert forall j :: 0 <= j < i ==> entries[..i][j] == entries[j];
  }

  /** Moving key `i` to its String form keeps the hash in step with the reference. */
  lemma StringifyStepKeeps(entries: seq<(Label, int)>, i: int, done: map<string, int>, hash: map<Label, int>)
    requires DistinctKeys(entries) && 0 <= i < |entries|
    requires StringifiedPrefix(entries[..i], Keys(entries)) == Ok(done)
    requires HashMidway(entries, i, done, hash)
    requires Str(entries[i].0.ToS()) !in Keys(entries)
    ensures entries[i].0 in hash
    ensures StringifiedPrefix(entries[..i + 1], Keys(entries)) == Ok(done[entries[i].0.ToS() := entries[i].1])
    ensures HashMidway(entries, i + 1, done[entries[i].0.ToS() := entries[i].1],
                       (hash - {entries[i].0})[Str(entries[i].0.ToS()) := hash[entries[i].0]])
  {
    var k := entries[i].0;
    assert entries[..i + 1][..i] == entries[..i];
    assert k.Sym?;
    var hash' := (hash - {k})[Str(k.ToS()) := hash[k]];
    var done' := done[k.ToS() := entries[i].1];
    forall j | i + 1 <= j < |entries|
      ensures entries[j].0 in hash' && hash'[entries[j].0] == entries[j].1
    {
      assert entries[j].0 != k;
      assert entries[j].0 != Str(k.ToS());
    }
  }

  /** Before the first key, the hash is the input hash. */
  lemma StringifyStarts(entries: seq<(Label, int)>)
    requires DistinctKeys(entries)
    ensures HashMidway(entries, 0, map[], AsHash(entries))
  {
  }

  /** A hash whose keys are all Strings, read as a map from String. */
  function StringKeyed(hash: map<Label, int>): map<string, int> {
    map k | k in hash && k.Str? :: k.text := hash[k]
  }

  /** After the last key, the hash holds exactly the stringified map. */
  lemma StringifyEnds(entries: seq<(Label, int)>, done: map<string, int>, hash: map<Label, int>)
    requires HashMidway(entries, |entries|, done, hash)
    ensures StringKeyed(hash) == done
  {
  }

  /**
   * `stringify_keys`: walks a snapshot of the keys in insertion order; for each
   * key, raises if its `to_s` is already a key of the (partly rewritten) hash,
   * and otherwise deletes the key and re-inserts its value under the `to_s`.
   * The check against the live hash agrees with the reference definition, which
   * checks against the original keys.
   */
  method StringifyKeys(entries: seq<(Label, int)>) returns (r: Result<map<string, int>, Error>)
    requires DistinctKeys(entries)
    ensures r == Stringified(entries)
  {
    ghost var done: map<string, int> := map[];
    var hash := AsHash(entries);
    StringifyStarts(entries);
    var i := 0;
    while i < |entries|
      invariant HashMidway(entries, i, done, hash)
      invariant StringifiedPrefix(entries[..i], Keys(entries)) == Ok(done)
    {
      var k := entries[i].0;
      StringifyCheckAgrees(entries, i, done, hash);
      if Str(k.ToS()) in hash {
        StringifiedPrefixFails(entries, Keys(entries), i);
        return Err(DuplicateKey(k.ToS()));
      }
      StringifyStepKeeps(entries, i, done, hash);
      var v := hash[k];
      hash := hash - {k};
      hash := hash[Str(k.ToS()) := v];
      done := done[k.ToS() := entries[i].1];
      i := i + 1;
    }
    assert entries[..i] == entries;
    assert Stringified(entries) == Ok(done);
    StringifyEnds(entries, done, hash);
    r := Ok(StringKeyed(hash));
  }

  /** The whole of `initialize`: its checks in order, then `stringify_keys`. */
  function Construct(input: Option<seq<(Label, Value)>>): (r: Result<map<string, int>, Error>)
    ensures r.Ok? ==> input.Some? && |input.value| > 0 &&
                      (forall i :: 0 <= i < |input.value| ==> input.value[i].1.IntegerValue?) &&
                      exists i :: 0 <= i < |input.value| && StrengthInRange(input.value[i].1.n)
    ensures r.Err? && r.error.DuplicateKey? ==> input.Some? && Str(r.error.key) in Keys(input.value)
  {
    if input.None? || |input.value| == 0 then Err(EmptyRoleMap)
    else if AnyNonInteger(ValuesOf(input.value)) then Err(NonIntegerStrength)
    else
      var entries := IntegerEntries(input.value);
      if !RoleMapStrengthsInRange(ValuesOf(entries)) then Err(StrengthOutOfRange)
      else Stringified(entries)
  }

  /** `add_role` on a map: range first, then absence of `role.to_s`. */
  function AddedRole(roleMap: map<string, int>, role: Label, strength: int): (r: Result<map<string, int>, Error>)
    ensures r.Ok? <==> StrengthInRange(strength) && role.ToS() !in roleMap
    ensures r.Err? ==> r.error == if StrengthInRange(strength) then AlreadyExists(role.ToS()) else StrengthOutOfRange
    ensures r.Ok? ==> r.value.Keys == roleMap.Keys + {role.ToS()} && r.value[role.ToS()] == strength &&
                      forall other :: other in roleMap ==> r.value[other] == roleMap[other]
  {
    var formatted := role.ToS();
    if !StrengthInRange(strength) then Err(StrengthOutOfRange)
    else if formatted in roleMap then Err(AlreadyExists(formatted))
    else Ok(roleMap[formatted := strength])
  }

  /** `update_role` on a map: range first, then presence of `role.to_s`. */
  function UpdatedRole(roleMap: map<string, int>, role: Label, strength: int): (r: Result<map<string, int>, Error>)
    ensures r.Ok? <==> StrengthInRange(strength) && role.ToS() in roleMap
    ensures r.Err? ==> r.error == if StrengthInRange(strength) then NotFound(role.ToS()) else StrengthOutOfRange
    ensures r.Ok? ==> r.value.Keys == roleMap.Keys && r.value[role.ToS()] == strength &&
                      forall other :: other in roleMap && other != role.ToS() ==> r.value[other] == roleMap[other]
  {
    var formatted := role.ToS();
    if !StrengthInRange(strength) then Err(StrengthOutOfRange)
    else if formatted !in roleMap then Err(NotFound(formatted))
    else Ok(roleMap[formatted := strength])
  }

  /** `delete_role` on a map: presence of `role.to_s`, then removal. */
  function DeletedRole(roleMap: map<string, int>, role: Label): (r: Result<map<string, int>, Error>)
    ensures r.Ok? <==> role.ToS() in roleMap
    ensures r.Err? ==> r.error == NotFound(role.ToS())
    ensures r.Ok? ==> r.value.Keys == roleMap.Keys - {role.ToS()} &&
                      forall other :: other in r.value ==> r.value[other] == roleMap[other]
  {
    var formatted := role.ToS();
    if formatted !in roleMap then Err(NotFound(formatted))
    else Ok(roleMap - {formatted})
  }

  class RoleToPasswordStrengthMap {
    /** `@role_map`: String role name to required strength. */
    var roleMap: map<string, int>

    /** Stores an already validated map; `New` is the only caller. */
    constructor Wrap(validated: map<string, int>)
      ensures roleMap == validated
    {
      roleMap := validated;
    }

    /**
     * `RoleToPasswordStrengthMap.new(role_map)`: nil or empty, then non-Integer
     * values, then "some value in range", then `stringify_keys`.
     */
    static method New(input: Option<seq<(Label, Value)>>) returns (r: Result<RoleToPasswordStrengthMap, Error>)
      requires input.Some? ==> DistinctKeys(input.value)
      ensures r.Err? ==> Construct(input) == Err(r.error)
      ensures r.Ok? ==> fresh(r.value) && Construct(input) == Ok(r.value.roleMap)
    {
      if input.None? || |input.value| == 0 {
        return Err(EmptyRoleMap);
      }
      var pairs := input.value;
      if AnyNonInteger(ValuesOf(pairs)) {
        return Err(NonIntegerStrength);
      }
      var entries := IntegerEntries(pairs);
      if !RoleMapStrengthsInRange(ValuesOf(entries)) {
        return Err(StrengthOutOfRange);
      }
      var stringified := StringifyKeys(entries);
      if stringified.Err? {
        return Err(stringified.error);
      }
      var policy := new RoleToPasswordStrengthMap.Wrap(stringified.value);
      return Ok(policy);
    }

    /**
     * `password_strength_fulfilled?(role, user_pwd)` with the estimator's score
     * for `user_pwd` passed in. The role is looked up as given, without `to_s`,
     * so a Symbol role never matches the String keys.
     */
    function PasswordStrengthFulfilled(role: Label, score: int): (r: Result<bool, Error>)
      reads this
      ensures r.Ok? <==> exists name :: role == Str(name) && name in roleMap
      ensures r.Err? ==> r.error == RoleNotFound
      ensures r == Ok(true) <==> role.Str? && role.text in roleMap && roleMap[role.text] <= score
    {
      match role
      case Str(name) =>
        if name in roleMap then Ok(score >= roleMap[name]) else Err(RoleNotFound)
      case Sym(_) => Err(RoleNotFound)
    }

    /** `add_role(role, pwd_strength)`: returns the updated map on success. */
    method AddRole(role: Label, strength: int) returns (r: Result<map<string, int>, Error>)
      modifies this
      ensures r == AddedRole(old(roleMap), role, strength)
      ensures roleMap == if r.Ok? then r.value else old(roleMap)
    {
      var formatted := role.ToS();
      if !StrengthInRange(strength) {
        return Err(StrengthOutOfRange);
      }
      if formatted in roleMap {
        return Err(AlreadyExists(formatted));
      }
      roleMap := roleMap[formatted := strength];
      return Ok(roleMap);
    }

    /** `update_role(role, pwd_strength)`: returns the updated map on success. */
    method UpdateRole(role: Label, strength: int) returns (r: Result<map<string, int>, Error>)
      modifies this
      ensures r == UpdatedRole(old(roleMap), role, strength)
      ensures roleMap == if r.Ok? then r.value else old(roleMap)
    {
      var formatted := role.ToS();
      if !StrengthInRange(strength) {
        return Err(StrengthOutOfRange);
      }
      if formatted !in roleMap {
        return Err(NotFound(formatted));
      }
      roleMap := roleMap[formatted := strength];
      return Ok(roleMap);
    }

    /** `delete_role(role)`: returns the updated map, possibly empty, on success. */
    method DeleteRole(role: Label) returns (r: Result<map<string, int>, Error>)
      modifies this
      ensures r == DeletedRole(old(roleMap), role)
      ensures roleMap == if r.Ok? then r.value else old(roleMap)
    {
      var formatted := role.ToS();
      if formatted !in roleMap {
        return Err(NotFound(formatted));
      }
      roleMap := roleMap - {formatted};
      return Ok(roleMap);
    }
  }
}

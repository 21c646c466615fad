/**
 * Properties of RoleToPasswordStrengthMap: what construction accepts and builds,
 * how the mutators relate to each other, and what the query answers.
 */
module RoleMapProperties {
  import opened Wrappers
  import opened PasswordPolice

  // ---------------------------------------------------------------------------
  // stringify_keys
  // ---------------------------------------------------------------------------

  /** Stringifying succeeds exactly when every key is a Symbol: a String key is always its own duplicate. */
  lemma {:induction false} StringifiedOkIffSymbols(entries: seq<(Label, int)>)
    ensures Stringified(entries).Ok? <==> forall i :: 0 <= i < |entries| ==> entries[i].0.Sym?
  {
  }

  /** A stringified hash holds every input value under the name of its Symbol key, and nothing else. */
  lemma {:induction false} StringifiedContents(entries: seq<(Label, int)>)
    requires DistinctKeys(entries)
    ensures Stringified(entries).Ok? ==>
              (forall i :: 0 <= i < |entries| ==>
                 entries[i].0.ToS() in Stringified(entries).value &&
                 Stringified(entries).value[entries[i].0.ToS()] == entries[i].1) &&
              (forall s :: s in Stringified(entries).value ==>
                 exists i :: 0 <= i < |entries| && entries[i].0 == Sym(s))
  {
    if Stringified(entries).Ok? {
      var keys := Keys(entries);
      StringifiedOkIffSymbols(entries);
      assert forall i, j :: 0 <= i < j < |entries| ==> entries[i].0.ToS() != entries[j].0.ToS() by {
        forall i, j | 0 <= i < j < |entries|
          ensures entries[i].0.ToS() != entries[j].0.ToS()
        {
          assert entries[i].0.Sym? && entries[j].0.Sym?;
        }
      }
      StringifiedPrefixValues(entries, keys);
      StringifiedPrefixKeys(entries, keys);
      forall s | s in Stringified(entries).value
        ensures exists i :: 0 <= i < |entries| && entries[i].0 == Sym(s)
      {
        var i :| 0 <= i < |entries| && entries[i].0.ToS() == s;
        assert entries[i].0 == Sym(s);
      }
    }
  }

  // ---------------------------------------------------------------------------
  // initialize
  // ---------------------------------------------------------------------------

  /** The keys of the initial hash do not change when its values are read as Integers. */
  lemma IntegerEntriesKeys(input: seq<(Label, Value)>)
    requires forall i :: 0 <= i < |input| ==> input[i].1.IntegerValue?
    ensures Keys(IntegerEntries(input)) == Keys(input)
    ensures DistinctKeys(input) ==> DistinctKeys(IntegerEntries(input))
  {
  }

  /** The checks of `initialize` come in a fixed order: emptiness, then Integer values, then range. */
  lemma ConstructCheckOrder(input: Option<seq<(Label, Value)>>)
    ensures input.None? || input.value == [] ==> Construct(input) == Err(EmptyRoleMap)
    ensures input.Some? && input.value != [] &&
            (exists i :: 0 <= i < |input.value| && !input.value[i].1.IntegerValue?) ==>
              Construct(input) == Err(NonIntegerStrength)
    ensures input.Some? && input.value != [] &&
            (forall i :: 0 <= i < |input.value| ==> input.value[i].1.IntegerValue?) &&
            (forall i :: 0 <= i < |input.value| ==> !StrengthInRange(input.value[i].1.n)) ==>
              Construct(input) == Err(StrengthOutOfRange)
  {
  }

  /**
   * Construction succeeds exactly when the hash is non-empty, every value is an
   * Integer, SOME value is in 0..4 (not every one), and every key is a Symbol.
   */
  lemma ConstructOkIff(input: Option<seq<(Label, Value)>>)
    ensures Construct(input).Ok? <==>
              input.Some? && |input.value| > 0 &&
              (forall i :: 0 <= i < |input.value| ==> input.value[i].1.IntegerValue?) &&
              (exists i :: 0 <= i < |input.value| && input.value[i].1.IntegerValue? &&
                           StrengthInRange(input.value[i].1.n)) &&
              (forall i :: 0 <= i < |input.value| ==> input.value[i].0.Sym?)
  {
  }

  /** A constructed map has the Symbol names as keys and the input values as values. */
  lemma ConstructContents(input: Option<seq<(Label, Value)>>)
    requires input.Some? ==> DistinctKeys(input.value)
    ensures Construct(input).Ok? ==>
              (forall i :: 0 <= i < |input.value| ==>
                 input.value[i].0.ToS() in Construct(input).value &&
                 input.value[i].1 == IntegerValue(Construct(input).value[input.value[i].0.ToS()])) &&
              (forall s :: s in Construct(input).value ==>
                 exists i :: 0 <= i < |input.value| && input.value[i].0 == Sym(s))
  {
    if Construct(input).Ok? {
      ConstructCheckOrder(input);
      var entries := IntegerEntries(input.value);
      IntegerEntriesKeys(input.value);
      StringifiedContents(entries);
    }
  }

  /** A failed construction with DuplicateKey names the first key whose String form is an input key. */
  lemma ConstructNamesFirstDuplicate(input: Option<seq<(Label, Value)>>, key: string)
    requires Construct(input) == Err(DuplicateKey(key))
    ensures input.Some? &&
            exists i :: 0 <= i < |input.value| && input.value[i].0.ToS() == key &&
                        Str(key) in Keys(input.value) &&
                        forall j :: 0 <= j < i ==> Str(input.value[j].0.ToS()) !in Keys(input.value)
  {
    ConstructCheckOrder(input);
    var entries := IntegerEntries(input.value);
    IntegerEntriesKeys(input.value);
    StringifiedPrefixError(entries, Keys(entries));
  }

  /**
   * A hash that passes the emptiness, Integer and range checks but has a key that
   * is not a Symbol fails with DuplicateKey, naming the first colliding key.
   */
  lemma ConstructRejectsNonSymbolKey(input: Option<seq<(Label, Value)>>)
    requires input.Some? && input.value != []
    requires forall i :: 0 <= i < |input.value| ==> input.value[i].1.IntegerValue?
    requires exists i :: 0 <= i < |input.value| && StrengthInRange(input.value[i].1.n)
    requires exists i :: 0 <= i < |input.value| && !input.value[i].0.Sym?
    ensures exists i :: FirstCollision(IntegerEntries(input.value), Keys(input.value), i) &&
                        Construct(input) == Err(DuplicateKey(input.value[i].0.ToS()))
  {
    ConstructOkIff(input);
    var entries := IntegerEntries(input.value);
    IntegerEntriesKeys(input.value);
    assert forall i :: 0 <= i < |entries| ==> ValuesOf(entries)[i] == input.value[i].1.n;
    assert Construct(input) == Stringified(entries);
    StringifiedPrefixError(entries, Keys(entries));
  }

  /** When every initial value is in range, so is every stored requirement. */
  lemma ConstructKeepsStrengthsInRange(input: Option<seq<(Label, Value)>>)
    requires input.Some? ==> DistinctKeys(input.value)
    requires input.Some? ==> forall i :: 0 <= i < |input.value| ==>
               input.value[i].1.IntegerValue? && StrengthInRange(input.value[i].1.n)
    ensures Construct(input).Ok? ==> AllStrengthsInRange(Construct(input).value)
  {
    ConstructContents(input);
  }

  /** `{admin: 5}` is rejected for range. */
  lemma ExampleOutOfRangeRejected()
    ensures Construct(Some([(Sym("admin"), IntegerValue(5))])) == Err(StrengthOutOfRange)
  {
  }

  /** `{admin: 4, averagejoe: 0}` becomes `{'admin' => 4, 'averagejoe' => 0}`. */
  lemma ExampleAccepted()
    ensures Construct(Some([(Sym("admin"), IntegerValue(4)), (Sym("averagejoe"), IntegerValue(0))]))
            == Ok(map["admin" := 4, "averagejoe" := 0])
  {
    var input := [(Sym("admin"), IntegerValue(4)), (Sym("averagejoe"), IntegerValue(0))];
    ConstructOkIff(Some(input));
    assert input[0].1.IntegerValue? && StrengthInRange(input[0].1.n);
    ConstructContents(Some(input));
    var m := Construct(Some(input)).value;
    assert input[0].0.ToS() == "admin" && input[1].0.ToS() == "averagejoe";
    assert m["admin"] == 4 && m["averagejoe"] == 0;
    assert m.Keys == {"admin", "averagejoe"} by {
      forall s | s in m ensures s == "admin" || s == "averagejoe" {
        var i :| 0 <= i < |input| && input[i].0 == Sym(s);
        assert i == 0 || i == 1;
      }
    }
    assert m == map["admin" := 4, "averagejoe" := 0];
  }

  /** `{admin: 4, averagejoe: 0, 'admin' => 7}` fails on its FIRST key, `:admin`. */
  lemma ExampleDuplicateKey()
    ensures Construct(Some([(Sym("admin"), IntegerValue(4)), (Sym("averagejoe"), IntegerValue(0)),
                            (Str("admin"), IntegerValue(7))]))
            == Err(DuplicateKey("admin"))
  {
  }

  /** `{admin: 5, user: 2}` is accepted and stores the out-of-range 5: the range check uses `any?`. */
  lemma ExampleMixedRangeAccepted()
    ensures Construct(Some([(Sym("admin"), IntegerValue(5)), (Sym("user"), IntegerValue(2))]))
            == Ok(map["admin" := 5, "user" := 2])
    ensures !AllStrengthsInRange(map["admin" := 5, "user" := 2])
  {
    var input := [(Sym("admin"), IntegerValue(5)), (Sym("user"), IntegerValue(2))];
    ConstructOkIff(Some(input));
    assert input[1].1.IntegerValue? && StrengthInRange(input[1].1.n);
    ConstructContents(Some(input));
    var m := Construct(Some(input)).value;
    assert input[0].0.ToS() == "admin" && input[1].0.ToS() == "user";
    assert m["admin"] == 5 && m["user"] == 2;
    assert m.Keys == {"admin", "user"} by {
      forall s | s in m ensures s == "admin" || s == "user" {
        var i :| 0 <= i < |input| && input[i].0 == Sym(s);
        assert i == 0 || i == 1;
      }
    }
    assert m == map["admin" := 5, "user" := 2];
    assert !StrengthInRange(map["admin" := 5, "user" := 2]["admin"]);
  }

  /** Even a hash whose only key is a String, `{'admin' => 4}`, is rejected as a duplicate. */
  lemma ExampleStringKeyRejected()
    ensures Construct(Some([(Str("admin"), IntegerValue(4))])) == Err(DuplicateKey("admin"))
  {
  }

  // ---------------------------------------------------------------------------
  // add_role, update_role, delete_role
  // ---------------------------------------------------------------------------

  /** Deleting a role just added gives back the map from before. */
  lemma AddThenDelete(roleMap: map<string, int>, role: Label, strength: int)
    requires AddedRole(roleMap, role, strength).Ok?
    ensures DeletedRole(AddedRole(roleMap, role, strength).value, role) == Ok(roleMap)
  {
    var added := AddedRole(roleMap, role, strength).value;
    assert added - {role.ToS()} == roleMap;
  }

  /** Adding back a role just deleted, with its old in-range strength, gives back the map from before. */
  lemma DeleteThenAdd(roleMap: map<string, int>, role: Label)
    requires DeletedRole(roleMap, role).Ok?
    requires StrengthInRange(roleMap[role.ToS()])
    ensures AddedRole(DeletedRole(roleMap, role).value, role, roleMap[role.ToS()]) == Ok(roleMap)
  {
    var deleted := DeletedRole(roleMap, role).value;
    assert deleted[role.ToS() := roleMap[role.ToS()]] == roleMap;
  }

  /** Updating a role back to its old in-range strength undoes an update. */
  lemma UpdateThenRestore(roleMap: map<string, int>, role: Label, strength: int)
    requires UpdatedRole(roleMap, role, strength).Ok?
    requires StrengthInRange(roleMap[role.ToS()])
    ensures UpdatedRole(UpdatedRole(roleMap, role, strength).value, role, roleMap[role.ToS()]) == Ok(roleMap)
  {
    var updated := UpdatedRole(roleMap, role, strength).value;
    assert updated[role.ToS() := roleMap[role.ToS()]] == roleMap;
  }

  /** A Symbol and the String with its name address the same entry. */
  lemma MutatorsNormaliseRole(roleMap: map<string, int>, name: string, strength: int)
    ensures AddedRole(roleMap, Sym(name), strength) == AddedRole(roleMap, Str(name), strength)
    ensures UpdatedRole(roleMap, Sym(name), strength) == UpdatedRole(roleMap, Str(name), strength)
    ensures DeletedRole(roleMap, Sym(name)) == DeletedRole(roleMap, Str(name))
  {
  }

  /** The mutators keep every stored requirement in 0..4 once it is so. */
  lemma MutatorsKeepStrengthsInRange(roleMap: map<string, int>, role: Label, strength: int)
    requires AllStrengthsInRange(roleMap)
    ensures AddedRole(roleMap, role, strength).Ok? ==> AllStrengthsInRange(AddedRole(roleMap, role, strength).value)
    ensures UpdatedRole(roleMap, role, strength).Ok? ==> AllStrengthsInRange(UpdatedRole(roleMap, role, strength).value)
    ensures DeletedRole(roleMap, role).Ok? ==> AllStrengthsInRange(DeletedRole(roleMap, role).value)
  {
  }

  /** `add_role(:user, 2)` on `{'admin' => 4}` gives `{'admin' => 4, 'user' => 2}`. */
  lemma ExampleAddRole()
    ensures AddedRole(map["admin" := 4], Sym("user"), 2) == Ok(map["admin" := 4, "user" := 2])
    ensures AddedRole(map["admin" := 4], Sym("admin"), 4) == Err(AlreadyExists("admin"))
    ensures AddedRole(map["admin" := 4], Sym("user"), 6) == Err(StrengthOutOfRange)
  {
  }

  /** `delete_role(:admin)` on `{'admin' => 3}` leaves an empty map; nothing re-checks emptiness. */
  lemma ExampleDeleteLastRole()
    ensures DeletedRole(map["admin" := 3], Sym("admin")) == Ok(map[])
    ensures DeletedRole(map["admin" := 3], Sym("user")) == Err(NotFound("user"))
  {
    assert map["admin" := 3] - {"admin"} == map[];
  }

  // ---------------------------------------------------------------------------
  // password_strength_fulfilled?
  // ---------------------------------------------------------------------------

  /** A Symbol role is never found: the lookup does not apply `to_s`. */
  lemma SymbolRoleNeverFound(policy: RoleToPasswordStrengthMap, name: string, score: int)
    ensures policy.PasswordStrengthFulfilled(Sym(name), score) == Err(RoleNotFound)
  {
  }

  /** A higher score fulfils whatever a lower one does. */
  lemma FulfilledIsMonotone(policy: RoleToPasswordStrengthMap, role: Label, low: int, high: int)
    requires low <= high
    requires policy.PasswordStrengthFulfilled(role, low) == Ok(true)
    ensures policy.PasswordStrengthFulfilled(role, high) == Ok(true)
  {
  }

  /** The query on `{'admin' => 4, 'user' => 0}` with the score 0 that `'apple'` gets. */
  lemma ExampleQuery(policy: RoleToPasswordStrengthMap)
    requires policy.roleMap == map["admin" := 4, "user" := 0]
    ensures policy.PasswordStrengthFulfilled(Str("user"), 0) == Ok(true)
    ensures policy.PasswordStrengthFulfilled(Str("admin"), 0) == Ok(false)
    ensures policy.PasswordStrengthFulfilled(Str("manager"), 0) == Err(RoleNotFound)
    ensures policy.PasswordStrengthFulfilled(Sym("user"), 0) == Err(RoleNotFound)
  {
  }
}

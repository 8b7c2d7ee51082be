/** Which fields get a default, which are required, and what a new account has to be given
    (defaults and check of backend/ent/account_create.go). */
module CreateDefaults {
  import opened AccountSchema
  import opened RowCodec
  import opened CreateSpecs

  // ---------------------------------------------------------------- which fields

  /** A field that a caller has to set. */
  predicate Demanded(c: Column) {
    c == Name || c == Platform || c == Type
  }

  /** Every other field that is not stored as a pointer has a default. */
  predicate HasDefault(c: Column) {
    IsScalar(c) && !SlotOf(c).Pointer? && !Demanded(c)
  }

  /** Times and JSON documents are made by functions. */
  predicate MadeByFunction(c: Column) {
    HasDefault(c) && (ScanKind(c) == TimeKind || ScanKind(c) == BytesKind)
  }

  predicate HasValidator(c: Column) {
    c == Name || c == Platform || c == Type || c == Status || c == SessionWindowStatus || c == QuotaDimension
  }

  lemma DefaultedHave(i: nat)
    requires i < |DEFAULTED|
    ensures HasDefault(DEFAULTED[i])
  {
  }

  lemma DefaultIsOne(c: Column)
    requires HasDefault(c)
    ensures c == CreatedAt || c == UpdatedAt || c == Credentials || c == Extra || c == Concurrency || c == Priority
            || c == RateMultiplier || c == Status || c == AutoPauseOnExpired || c == Schedulable || c == QuotaDimension
  {
  }

  lemma DefaultIsThere(c: Column)
    requires HasDefault(c)
    ensures c in DEFAULTED
  {
    hide IsScalar, SlotOf, HasDefault;
    DefaultIsOne(c);
    assert DEFAULTED[0] == CreatedAt && DEFAULTED[1] == UpdatedAt && DEFAULTED[2] == Credentials;
    assert DEFAULTED[3] == Extra && DEFAULTED[4] == Concurrency && DEFAULTED[5] == Priority;
    assert DEFAULTED[6] == RateMultiplier && DEFAULTED[7] == Status && DEFAULTED[8] == AutoPauseOnExpired;
    assert DEFAULTED[9] == Schedulable && DEFAULTED[10] == QuotaDimension;
  }

  lemma FunctionsAreThere(c: Column)
    requires HasDefault(c)
    ensures c in FROM_RUNTIME <==> MadeByFunction(c)
  {
  }

  lemma DefaultedExactly(c: Column)
    ensures c in DEFAULTED <==> HasDefault(c)
    ensures c in DEFAULTED && c in FROM_RUNTIME <==> MadeByFunction(c)
  {
    hide IsScalar, SlotOf, ScanKind, HasDefault, DEFAULTED, FROM_RUNTIME;
    if c in DEFAULTED {
      var i :| 0 <= i < |DEFAULTED| && DEFAULTED[i] == c;
      DefaultedHave(i);
    }
    if HasDefault(c) {
      DefaultIsThere(c);
      FunctionsAreThere(c);
    }
  }

  lemma DemandedIsThere(c: Column)
    requires Demanded(c)
    ensures Required(c) in CONDITIONS
  {
    if c == Name {
      assert CONDITIONS[2] == Required(c);
    } else if c == Platform {
      assert CONDITIONS[4] == Required(c);
    } else {
      assert CONDITIONS[6] == Required(c);
    }
  }

  lemma ValidatorIsThere(c: Column)
    requires HasValidator(c)
    ensures Validated(c) in CONDITIONS
  {
    if c == Name {
      assert CONDITIONS[3] == Validated(c);
    } else if c == Platform {
      assert CONDITIONS[5] == Validated(c);
    } else if c == Type {
      assert CONDITIONS[7] == Validated(c);
    } else if c == Status {
      assert CONDITIONS[14] == Validated(c);
    } else if c == SessionWindowStatus {
      assert CONDITIONS[17] == Validated(c);
    } else {
      assert CONDITIONS[19] == Validated(c);
    }
  }

  /** What check requires, and what it validates if it is set. */
  lemma RequiredExactly(c: Column)
    ensures Required(c) in CONDITIONS <==> HasDefault(c) || Demanded(c)
    ensures Validated(c) in CONDITIONS <==> HasValidator(c)
  {
    hide HasDefault, Demanded, HasValidator, CONDITIONS, DEFAULTED;
    if Demanded(c) {
      DemandedIsThere(c);
    }
    if HasValidator(c) {
      ValidatorIsThere(c);
    }
    if HasDefault(c) {
      DefaultIsThere(c);
      DefaultedAreRequired(c);
    }
    forall i | 0 <= i < |CONDITIONS|
      ensures CONDITIONS[i] == Required(c) ==> HasDefault(c) || Demanded(c)
      ensures CONDITIONS[i] == Validated(c) ==> HasValidator(c)
    {
      ConditionFits(i);
    }
  }

  lemma ConditionFits(i: nat)
    requires i < |CONDITIONS|
    ensures match CONDITIONS[i] case Required(c) => HasDefault(c) || Demanded(c) case Validated(c) => HasValidator(c)
  {
  }

  // ---------------------------------------------------------------- in which order

  /** Where the i-th field of the row stands in the table, which has the id and the two foreign keys besides. */
  function CreatedPlace(i: nat): nat {
    if i < 9 then i + 1 else if i < 28 then i + 2 else i + 3
  }

  const DEFAULT_PLACES: seq<nat> := [1, 2, 8, 9, 12, 14, 15, 16, 20, 21, 31]

  const CONDITION_PLACES: seq<nat> := [1, 2, 4, 4, 6, 6, 7, 7, 8, 9, 12, 14, 15, 16, 16, 20, 21, 29, 31, 31]

  /** Which conditions are validators; each comes after the field is required, if it is. */
  const VALIDATORS: set<int> := {3, 5, 7, 14, 17, 19}

  ghost predicate At(i: nat, c: Column) {
    i < |COLUMNS| && COLUMNS[i] == c
  }

  /** The row's fields, the defaults and the checks all go through the columns in the order of the table; a field is
      required before it is validated. */
  lemma InTableOrder()
    ensures |CREATED| == 29 && forall i :: 0 <= i < |CREATED| ==> At(CreatedPlace(i), CREATED[i])
    ensures |DEFAULTED| == |DEFAULT_PLACES|
    ensures forall i :: 0 <= i < |DEFAULTED| ==> At(DEFAULT_PLACES[i], DEFAULTED[i])
    ensures |CONDITIONS| == |CONDITION_PLACES|
    ensures forall i :: 0 <= i < |CONDITIONS| ==> At(CONDITION_PLACES[i], CONDITIONS[i].c)
    ensures forall i :: 0 <= i < |CONDITIONS| ==> (CONDITIONS[i].Validated? <==> i in VALIDATORS)
  {
    forall i | 0 <= i < |CREATED|
      ensures At(CreatedPlace(i), CREATED[i])
    {
      CreatedInOrder(i);
    }
    forall i | 0 <= i < |DEFAULTED|
      ensures At(DEFAULT_PLACES[i], DEFAULTED[i])
    {
      DefaultsInOrder(i);
    }
    forall i | 0 <= i < |CONDITIONS|
      ensures At(CONDITION_PLACES[i], CONDITIONS[i].c)
      ensures CONDITIONS[i].Validated? <==> i in VALIDATORS
    {
      ConditionsInOrder(i);
      ValidatorsInOrder(i);
    }
  }

  lemma CreatedInOrder(i: nat)
    requires i < |CREATED|
    ensures At(CreatedPlace(i), CREATED[i])
  {
    if i < 9 {
      FirstCreated(i);
    } else if i < 19 {
      MiddleCreated(i);
    } else if i < 24 {
      LaterCreated(i);
    } else {
      LastCreated(i);
    }
  }

  lemma FirstCreated(i: nat)
    requires i < 9
    ensures At(i + 1, CREATED[i])
  {
  }

  lemma MiddleCreated(i: nat)
    requires 9 <= i < 19
    ensures At(i + 2, CREATED[i])
  {
  }

  lemma LaterCreated(i: nat)
    requires 19 <= i < 24
    ensures At(i + 2, CREATED[i])
  {
  }

  lemma LastCreated(i: nat)
    requires 24 <= i < |CREATED|
    ensures At(CreatedPlace(i), CREATED[i])
  {
  }

  lemma DefaultsInOrder(i: nat)
    requires i < |DEFAULTED|
    ensures i < |DEFAULT_PLACES| && At(DEFAULT_PLACES[i], DEFAULTED[i])
  {
  }

  lemma ConditionsInOrder(i: nat)
    requires i < |CONDITIONS|
    ensures i < |CONDITION_PLACES| && At(CONDITION_PLACES[i], CONDITIONS[i].c)
  {
  }

  lemma ValidatorsInOrder(i: nat)
    requires i < |CONDITIONS|
    ensures CONDITIONS[i].Validated? <==> i in VALIDATORS
  {
  }

  // ---------------------------------------------------------------- what a new account has to be given

  /** No unset field waits for a function that is missing. */
  ghost predicate CanDefault(values: map<Column, Value>, rt: Runtime) {
    forall c :: MadeByFunction(c) && c !in values ==> c !in rt.missing
  }

  /** What a caller has to give, and the functions that make the rest. */
  ghost predicate Given(values: map<Column, Value>, rt: Runtime) {
    CanDefault(values, rt) && Name in values && Platform in values && Type in values
  }

  /** Every unset field that has a default holds it, and all others are as they were. */
  ghost predicate DefaultsSet(before: map<Column, Value>, after: map<Column, Value>, rt: Runtime) {
    && (forall c :: c in after <==> c in before || HasDefault(c))
    && (forall c :: c in after ==> after[c] == if c in before then before[c] else rt.value(c))
  }

  /** Defaults succeed exactly if every function they need is there. */
  lemma DefaultsExactly(values: map<Column, Value>, rt: Runtime)
    ensures var (after, err) := Defaulted(values, DEFAULTED, rt);
      && (err.None? <==> CanDefault(values, rt))
      && (err.None? ==> DefaultsSet(values, after, rt))
  {
    hide HasDefault, MadeByFunction, Defaulted;
    var (after, err) := Defaulted(values, DEFAULTED, rt);
    DefaultsFillIn(values, DEFAULTED, rt);
    forall c
      ensures c in DEFAULTED <==> HasDefault(c)
      ensures c in DEFAULTED && c in FROM_RUNTIME <==> MadeByFunction(c)
    {
      DefaultedExactly(c);
    }
    DefaultsSucceed(values, DEFAULTED, rt);
  }

  lemma {:induction false} DefaultsSucceed(values: map<Column, Value>, columns: seq<Column>, rt: Runtime)
    ensures Defaulted(values, columns, rt).1.None?
            <==> forall c :: c in columns && c !in values ==> !Uninitialized(rt, c)
    decreases |columns|
  {
    if columns != [] {
      var c := columns[0];
      assert forall x :: x in columns <==> x == c || x in columns[1..];
      if c in values {
        DefaultsSucceed(values, columns[1..], rt);
      } else if !Uninitialized(rt, c) {
        DefaultsSucceed(values[c := rt.value(c)], columns[1..], rt);
      }
    }
  }

  ghost predicate Validates(values: map<Column, Value>, valid: Validator) {
    forall c :: HasValidator(c) && c in values ==> valid(c, values[c])
  }

  lemma AcceptableExactly(values: map<Column, Value>, valid: Validator)
    ensures Acceptable(values, valid)
            <==> (forall c :: HasDefault(c) || Demanded(c) ==> c in values) && Validates(values, valid)
  {
    hide HasDefault, Demanded, HasValidator;
    forall c
      ensures Required(c) in CONDITIONS <==> HasDefault(c) || Demanded(c)
      ensures Validated(c) in CONDITIONS <==> HasValidator(c)
    {
      RequiredExactly(c);
    }
    if Acceptable(values, valid) {
      forall c | HasDefault(c) || Demanded(c)
        ensures c in values
      {
        assert Meets(values, Required(c), valid);
      }
      forall c | HasValidator(c) && c in values
        ensures valid(c, values[c])
      {
        assert Meets(values, Validated(c), valid);
      }
    }
    if (forall c :: HasDefault(c) || Demanded(c) ==> c in values) && Validates(values, valid) {
      forall k | k in CONDITIONS
        ensures Meets(values, k, valid)
      {
      }
    }
  }

  /** After the defaults, an account passes the check exactly if name, platform and type were set, no function was
      missing that was needed, and the validators accept what there is. */
  lemma GivenIsEnough(values: map<Column, Value>, rt: Runtime, valid: Validator)
    ensures var after := Defaulted(values, DEFAULTED, rt).0;
      Acceptable(after, valid) <==> Given(values, rt) && Validates(after, valid)
  {
    hide Acceptable, Defaulted, Validates, CanDefault;
    DefaultsExactly(values, rt);
    IgnoredDefaultsAreCaught(values, rt, valid);
    AcceptableExactly(Defaulted(values, DEFAULTED, rt).0, valid);
    assert Demanded(Name) && Demanded(Platform) && Demanded(Type);
    assert !HasDefault(Name) && !HasDefault(Platform) && !HasDefault(Type);
  }

  /** What is required and missing after the defaults is the name, the platform or the type. */
  lemma MissingIsDemanded(values: map<Column, Value>, rt: Runtime, c: Column)
    requires CanDefault(values, rt) && Required(c) in CONDITIONS && c !in Defaulted(values, DEFAULTED, rt).0
    ensures Demanded(c) && c !in values
  {
    hide Defaulted, HasDefault;
    DefaultsExactly(values, rt);
    RequiredExactly(c);
  }
}

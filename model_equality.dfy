/** Structural equality of the project's models (`BaseModel.is_eq`,
    synthmap/models/common.py): the fields of `self` are walked in
    declaration order and looked up in `other`; arrays compare element by
    element, nested models recursively, dicts of models entry by entry
    against `other`'s value subscripted by the same key, and everything
    else with `==`. Fields that only `other` has are never looked at, and a
    dict field with no entries never looks at `other`'s value. */
module ModelEquality {
  import opened Wrappers

  /** A field name of a model or a key of a dict. */
  datatype Key = Name(name: string) | Index(index: int)

  /** A field value. Strings are kept apart, since `dict()` and indexing
      treat them as sequences; other scalars (numbers, paths, None) are
      compared by `==` and kept as their text; arrays as their shape and
      elements. */
  datatype Value =
    | Str(text: string)
    | Atom(atom: string)
    | Arr(shape: seq<nat>, items: seq<string>)
    | Model(fields: seq<(Key, Value)>)
    | Dict(entries: seq<(Key, Value)>)

  datatype EqError =
    | TypeError        // `dict(other)` of a scalar, or subscripting a value that cannot be
    | ValueError       // `dict(s)` of a non-empty string: its items are not pairs
    | KeyError         // `od[key][idx]` with `idx` missing from other's dict
    | IndexError       // `od[key][idx]` on a string, `idx` out of range
    | AttributeError   // `item.is_eq` on a dict item that is not a model
    | Incomparable     // an array compared with something not of its shape

  /** `dict(pairs)`: a later pair with the same key overwrites. */
  function MapOf(pairs: seq<(Key, Value)>): (m: map<Key, Value>)
    ensures forall i :: 0 <= i < |pairs| ==> pairs[i].0 in m
    ensures forall k :: k in m ==> exists i :: 0 <= i < |pairs| && pairs[i].0 == k
    decreases |pairs|
  {
    if pairs == [] then map[]
    else
      var m := MapOf(pairs[..|pairs| - 1])[pairs[|pairs| - 1].0 := pairs[|pairs| - 1].1];
      assert forall i :: 0 <= i < |pairs| - 1 ==> pairs[..|pairs| - 1][i] == pairs[i];
      m
  }

  predicate DistinctKeys(pairs: seq<(Key, Value)>) {
    forall i, j :: 0 <= i < j < |pairs| ==> pairs[i].0 != pairs[j].0
  }

  /** With distinct keys, each key maps to its own value. */
  lemma {:induction false} MapOfDistinct(pairs: seq<(Key, Value)>)
    requires DistinctKeys(pairs)
    ensures forall i :: 0 <= i < |pairs| ==> MapOf(pairs)[pairs[i].0] == pairs[i].1
    decreases |pairs|
  {
    if pairs != [] {
      var init := pairs[..|pairs| - 1];
      MapOfDistinct(init);
      forall i | 0 <= i < |pairs| ensures MapOf(pairs)[pairs[i].0] == pairs[i].1 {
        if i < |init| {
          assert init[i] == pairs[i];
        }
      }
    }
  }

  /** `dict(other)`. The values this model treats as mappings are a model
      (its fields), a dict (its entries) and the empty string (no entries);
      a non-empty string's characters are not pairs, and any other value
      is not iterable as pairs. */
  function AsDict(other: Value): (r: Result<map<Key, Value>, EqError>)
    ensures r.Ok? <==> other.Model? || other.Dict? || other == Str("")
    ensures other.Str? && other.text != "" ==> r == Err(ValueError)
    ensures other == Str("") ==> r == Ok(map[])
  {
    match other
    case Model(fields) => Ok(MapOf(fields))
    case Dict(entries) => Ok(MapOf(entries))
    case Str(text) => if text == "" then Ok(map[]) else Err(ValueError)
    case _ => Err(TypeError)
  }

  /** `other[idx]`: a dict looks the key up; a string takes the character
      at an integer index, counting from the end when it is negative;
      anything else is not subscriptable. */
  function Subscript(other: Value, idx: Key): (r: Result<Value, EqError>)
    ensures other.Dict? ==> (r.Ok? <==> idx in MapOf(other.entries))
    ensures r.Ok? && other.Dict? ==> r.value == MapOf(other.entries)[idx]
    ensures r.Ok? ==> other.Dict? || other.Str?
  {
    match other
    case Dict(entries) =>
      var m := MapOf(entries);
      if idx in m then Ok(m[idx]) else Err(KeyError)
    case Str(text) =>
      (match idx
       case Index(n) =>
         if 0 <= n < |text| then Ok(Str([text[n]]))
         else if -|text| <= n < 0 then Ok(Str([text[|text| + n]]))
         else Err(IndexError)
       case Name(_) => Err(TypeError))
    case _ => Err(TypeError)
  }

  /** `(value == other).all()` for an array field. */
  function ArrayEq(value: Value, other: Value): (r: Result<bool, EqError>)
    requires value.Arr?
    ensures r.Ok? <==> other.Arr? && other.shape == value.shape && |other.items| == |value.items|
    ensures r == Ok(true) ==> other == value
  {
    if other.Arr? && other.shape == value.shape && |other.items| == |value.items| then
      Ok(forall k :: 0 <= k < |value.items| ==> value.items[k] == other.items[k])
    else Err(Incomparable)
  }

  /** `self.is_eq(other)` for a model `self`. */
  function IsEq(self: Value, other: Value): Result<bool, EqError>
    requires self.Model?
    decreases self, |self.fields| + 1
  {
    match AsDict(other)
    case Err(e) => Err(e)
    case Ok(od) => FieldsEq(self, 0, od)
  }

  /** The loop over `sd.items()` from field `i` on: the first field that is
      missing from `od` or fails its check ends it with False. */
  function FieldsEq(self: Value, i: nat, od: map<Key, Value>): Result<bool, EqError>
    requires self.Model? && i <= |self.fields|
    decreases self, |self.fields| - i
  {
    if i == |self.fields| then Ok(true)
    else
      var key := self.fields[i].0;
      if key !in od then Ok(false)
      else match FieldCheck(self, i, od[key])
        case Err(e) => Err(e)
        case Ok(pass) => if pass then FieldsEq(self, i + 1, od) else Ok(false)
  }

  /** The check of field i against `od[key]`, by the kind of its value. */
  function FieldCheck(self: Value, i: nat, other: Value): Result<bool, EqError>
    requires self.Model? && i < |self.fields|
    decreases self, 0
  {
    var value := self.fields[i].1;
    assert value < self by {
      assert self.fields[i] in self.fields;
    }
    match value
    case Arr(_, _) => ArrayEq(value, other)
    case Model(_) => IsEq(value, other)
    case Dict(_) => EntriesEq(value, 0, other)
    case Str(_) => Ok(value == other)
    case Atom(_) => Ok(value == other)
  }

  /** The loop over a dict field's items from entry `j` on. For each item,
      `item.is_eq` is looked up first, so an item that is not a model
      raises before `other` is touched; then `other[idx]` is taken, and the
      item must `is_eq` it. */
  function EntriesEq(dict: Value, j: nat, other: Value): Result<bool, EqError>
    requires dict.Dict? && j <= |dict.entries|
    decreases dict, |dict.entries| - j
  {
    if j == |dict.entries| then Ok(true)
    else
      var (idx, item) := dict.entries[j];
      assert item < dict by {
        assert dict.entries[j] in dict.entries;
      }
      if !item.Model? then Err(AttributeError)
      else match Subscript(other, idx)
        case Err(e) => Err(e)
        case Ok(o) =>
          match IsEq(item, o)
          case Err(e) => Err(e)
          case Ok(pass) => if pass then EntriesEq(dict, j + 1, other) else Ok(false)
  }

  /** Whether field i passes against `od`: present there, and its check
      holds. */
  predicate FieldPasses(self: Value, i: nat, od: map<Key, Value>)
    requires self.Model? && i < |self.fields|
  {
    self.fields[i].0 in od && FieldCheck(self, i, od[self.fields[i].0]) == Ok(true)
  }

  /** The walk is True exactly when every remaining field passes, and False
      exactly when it reaches a field that is missing from `od` or whose
      check is False, every field before it passing. */
  lemma FieldsEqMeaning(self: Value, i: nat, od: map<Key, Value>)
    requires self.Model? && i <= |self.fields|
    ensures FieldsEq(self, i, od) == Ok(true) <==> forall k :: i <= k < |self.fields| ==> FieldPasses(self, k, od)
    ensures FieldsEq(self, i, od) == Ok(false) <==>
              exists k :: i <= k < |self.fields| && (forall m :: i <= m < k ==> FieldPasses(self, m, od))
                          && (self.fields[k].0 !in od || FieldCheck(self, k, od[self.fields[k].0]) == Ok(false))
  {
    FieldsEqTrue(self, i, od);
    FieldsEqFalse(self, i, od);
  }

  lemma {:induction false} FieldsEqTrue(self: Value, i: nat, od: map<Key, Value>)
    requires self.Model? && i <= |self.fields|
    ensures FieldsEq(self, i, od) == Ok(true) <==> forall k :: i <= k < |self.fields| ==> FieldPasses(self, k, od)
    decreases |self.fields| - i
  {
    if i < |self.fields| {
      FieldsEqTrue(self, i + 1, od);
      FieldsEqStep(self, i, od);
    }
  }

  lemma {:induction false} FieldsEqFalse(self: Value, i: nat, od: map<Key, Value>)
    requires self.Model? && i <= |self.fields|
    ensures FieldsEq(self, i, od) == Ok(false) <==>
              exists k :: i <= k < |self.fields| && (forall m :: i <= m < k ==> FieldPasses(self, m, od))
                          && (self.fields[k].0 !in od || FieldCheck(self, k, od[self.fields[k].0]) == Ok(false))
    decreases |self.fields| - i
  {
    if i < |self.fields| {
      FieldsEqFalse(self, i + 1, od);
      FieldsEqStep(self, i, od);
      if FieldPasses(self, i, od) {
        if FieldsEq(self, i, od) == Ok(false) {
          var k :| i + 1 <= k < |self.fields| && (forall m :: i + 1 <= m < k ==> FieldPasses(self, m, od))
                   && (self.fields[k].0 !in od || FieldCheck(self, k, od[self.fields[k].0]) == Ok(false));
          assert forall m :: i <= m < k ==> FieldPasses(self, m, od);
        }
        if exists k :: i <= k < |self.fields| && (forall m :: i <= m < k ==> FieldPasses(self, m, od))
                       && (self.fields[k].0 !in od || FieldCheck(self, k, od[self.fields[k].0]) == Ok(false)) {
          var k :| i <= k < |self.fields| && (forall m :: i <= m < k ==> FieldPasses(self, m, od))
                   && (self.fields[k].0 !in od || FieldCheck(self, k, od[self.fields[k].0]) == Ok(false));
          assert k != i;
        }
      }
    }
  }

  /** One step of the walk: a passing field hands it on to the next one, a
      field missing from `od` or whose check is False ends it with False,
      and a check that raises makes it raise. */
  lemma FieldsEqStep(self: Value, i: nat, od: map<Key, Value>)
    requires self.Model? && i < |self.fields|
    ensures FieldPasses(self, i, od) ==> FieldsEq(self, i, od) == FieldsEq(self, i + 1, od)
    ensures self.fields[i].0 !in od || FieldCheck(self, i, od[self.fields[i].0]) == Ok(false) ==> FieldsEq(self, i, od) == Ok(false)
    ensures !FieldPasses(self, i, od) && self.fields[i].0 in od && FieldCheck(self, i, od[self.fields[i].0]) != Ok(false) ==> FieldsEq(self, i, od).Err?
  {
    var key := self.fields[i].0;
    if key in od {
      match FieldCheck(self, i, od[key])
      case Err(_) =>
      case Ok(_) =>
    }
  }

  /** `is_eq` is True exactly when `other` is a model or dict holding every
      field of `self` and each field's check passes; a field of `self`
      missing from `other` makes it False (when no check before it raised). */
  lemma IsEqMeaning(self: Value, other: Value)
    requires self.Model?
    ensures IsEq(self, other) == Ok(true) <==>
              AsDict(other).Ok? && forall k :: 0 <= k < |self.fields| ==> FieldPasses(self, k, AsDict(other).value)
    ensures IsEq(self, other) == Ok(true) ==>
              forall k :: 0 <= k < |self.fields| ==> self.fields[k].0 in AsDict(other).value
  {
    if AsDict(other).Ok? {
      FieldsEqMeaning(self, 0, AsDict(other).value);
    }
  }

  /** Whether entry j of a dict field passes against `other`: the item is
      a model, `other[idx]` exists, and the item is_eq it. */
  predicate EntryPasses(dict: Value, j: nat, other: Value)
    requires dict.Dict? && j < |dict.entries|
  {
    var (idx, item) := dict.entries[j];
    item.Model? && Subscript(other, idx).Ok? && IsEq(item, Subscript(other, idx).value) == Ok(true)
  }

  /** Entry i of distinct pairs is what `dict(pairs)` holds at its key. */
  lemma MapOfAt(pairs: seq<(Key, Value)>, i: nat)
    requires DistinctKeys(pairs) && i < |pairs|
    ensures pairs[i].0 in MapOf(pairs) && MapOf(pairs)[pairs[i].0] == pairs[i].1
  {
    MapOfDistinct(pairs);
  }

  /** The dict loop is True exactly when every remaining entry passes. */
  lemma {:induction false} EntriesEqMeaning(dict: Value, j: nat, other: Value)
    requires dict.Dict? && j <= |dict.entries|
    ensures EntriesEq(dict, j, other) == Ok(true) <==>
              forall k :: j <= k < |dict.entries| ==> EntryPasses(dict, k, other)
    decreases |dict.entries| - j
  {
    if j < |dict.entries| {
      EntriesEqMeaning(dict, j + 1, other);
      if EntryPasses(dict, j, other) {
        EntriesEqPasses(dict, j, other);
      } else {
        EntriesEqFails(dict, j, other);
      }
    }
  }

  /** A passing entry hands the loop on to the next one. */
  lemma EntriesEqPasses(dict: Value, j: nat, other: Value)
    requires dict.Dict? && j < |dict.entries| && EntryPasses(dict, j, other)
    ensures EntriesEq(dict, j, other) == EntriesEq(dict, j + 1, other)
  {
  }

  /** A failing entry stops the loop with something other than True. */
  lemma EntriesEqFails(dict: Value, j: nat, other: Value)
    requires dict.Dict? && j < |dict.entries| && !EntryPasses(dict, j, other)
    ensures EntriesEq(dict, j, other) != Ok(true)
  {
  }

  /** A dict field with no entries passes against any value of `other`,
      even one that is neither a dict nor subscriptable. */
  lemma EmptyDictFieldPasses(self: Value, i: nat, other: Value)
    requires self.Model? && i < |self.fields| && self.fields[i].1 == Dict([])
    ensures FieldCheck(self, i, other) == Ok(true)
  {
  }

  /** An item that is not a model raises AttributeError at `item.is_eq`
      before `other` is subscripted, whatever `other` is. */
  lemma NonModelItemRaisesFirst(self: Value, i: nat, other: Value)
    requires self.Model? && i < |self.fields| && self.fields[i].1.Dict?
    requires |self.fields[i].1.entries| > 0 && !self.fields[i].1.entries[0].1.Model?
    ensures FieldCheck(self, i, other) == Err(AttributeError)
  {
  }

  /** A model whose only field is an empty dict is_eq a model holding None
      under that name, and a model with no fields is_eq the empty string,
      which `dict()` turns into no entries. */
  lemma EmptyDictAgainstNone()
    ensures IsEq(Model([(Name("matches"), Dict([]))]), Model([(Name("matches"), Atom("None"))])) == Ok(true)
    ensures IsEq(Model([]), Str("")) == Ok(true)
    ensures IsEq(Model([]), Str("x")) == Err(ValueError)
  {
    var od := MapOf([(Name("matches"), Atom("None"))]);
    assert od[Name("matches")] == Atom("None");
    assert FieldCheck(Model([(Name("matches"), Dict([]))]), 0, Atom("None")) == Ok(true);
  }

  /** Fields that only `other` has are ignored, so `is_eq` is not
      symmetric: a model with one field is_eq a model with that field and
      another, but not the other way round. */
  lemma IsEqNotSymmetric()
    ensures var small := Model([(Name("a"), Atom("1"))]);
            var large := Model([(Name("a"), Atom("1")), (Name("b"), Atom("2"))]);
            IsEq(small, large) == Ok(true) && IsEq(large, small) == Ok(false)
  {
    var small := Model([(Name("a"), Atom("1"))]);
    var large := Model([(Name("a"), Atom("1")), (Name("b"), Atom("2"))]);
    var os := MapOf(small.fields);
    var ol := MapOf(large.fields);
    assert ol[Name("a")] == Atom("1") by {
      MapOfDistinct(large.fields);
    }
    assert FieldCheck(small, 0, ol[Name("a")]) == Ok(true);
    assert os[Name("a")] == Atom("1") by {
      MapOfDistinct(small.fields);
    }
    assert Name("b") !in os by {
      assert Name("a") != Name("b");
    }
    assert FieldsEq(large, 1, os) == Ok(false);
    assert FieldCheck(large, 0, os[Name("a")]) == Ok(true);
  }

  /** A model value as the loaders build it: distinct field names, dict
      fields holding models under distinct keys, and arrays whose element
      count matches their shape. */
  predicate WellFormed(v: Value)
    decreases v
  {
    match v
    case Str(_) => true
    case Atom(_) => true
    case Arr(shape, items) => true
    case Model(fields) =>
      DistinctKeys(fields) && forall i :: 0 <= i < |fields| ==> WellFormedField(v, i)
    case Dict(entries) =>
      DistinctKeys(entries) && forall j :: 0 <= j < |entries| ==> WellFormedEntry(v, j)
  }

  predicate WellFormedField(v: Value, i: nat)
    requires v.Model? && i < |v.fields|
    decreases v, 0
  {
    assert v.fields[i] in v.fields;
    WellFormed(v.fields[i].1)
  }

  predicate WellFormedEntry(v: Value, j: nat)
    requires v.Dict? && j < |v.entries|
    decreases v, 0
  {
    assert v.entries[j] in v.entries;
    v.entries[j].1.Model? && WellFormed(v.entries[j].1)
  }

  /** A well-formed model is_eq itself (its elements compared by text, so a
      NaN is equal to itself here). */
  lemma {:induction false} IsEqReflexive(v: Value)
    requires v.Model? && WellFormed(v)
    ensures IsEq(v, v) == Ok(true)
    decreases v, |v.fields| + 1
  {
    MapOfDistinct(v.fields);
    FieldsReflexive(v, 0);
  }

  lemma {:induction false} FieldsReflexive(v: Value, i: nat)
    requires v.Model? && WellFormed(v) && i <= |v.fields|
    ensures FieldsEq(v, i, MapOf(v.fields)) == Ok(true)
    decreases v, |v.fields| - i
  {
    if i < |v.fields| {
      MapOfDistinct(v.fields);
      var value := v.fields[i].1;
      assert MapOf(v.fields)[v.fields[i].0] == value;
      assert v.fields[i] in v.fields;
      assert WellFormedField(v, i);
      FieldsReflexive(v, i + 1);
      match value
      case Arr(_, _) =>
      case Str(_) =>
      case Atom(_) =>
      case Model(_) =>
        IsEqReflexive(value);
      case Dict(entries) =>
        MapOfDistinct(entries);
        EntriesReflexive(value, 0);
    }
  }

  lemma {:induction false} EntriesReflexive(d: Value, j: nat)
    requires d.Dict? && WellFormed(d) && j <= |d.entries|
    ensures EntriesEq(d, j, d) == Ok(true)
    decreases d, |d.entries| - j
  {
    if j < |d.entries| {
      var item := d.entries[j].1;
      MapOfAt(d.entries, j);
      assert Subscript(d, d.entries[j].0) == Ok(item);
      assert d.entries[j] in d.entries;
      assert WellFormedEntry(d, j);
      IsEqReflexive(item);
      assert EntryPasses(d, j, d);
      EntriesEqPasses(d, j, d);
      EntriesReflexive(d, j + 1);
    }
  }
}

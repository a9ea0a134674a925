/** Request and response bodies as the idempotency boundary treats them: brought into
    one canonical order for the fingerprint, and stripped of secrets for storage. */
module CanonicalBody {

  /** A body without arrays: every value that is not an object is a scalar. */
  datatype Json = Scalar(text: string) | Object(fields: seq<Field>)
  datatype Field = Field(key: string, value: Json)

  const MAX_DEPTH: nat := 4
  const REDACTED: Json := Scalar("[REDACTED]")

  predicate Sensitive(key: string) {
    key in {"xdr", "signature", "secret", "privateKey", "token", "password", "mnemonic", "seed"}
  }

  // ---- Key order ----

  predicate Less(a: string, b: string) {
    b != [] && (a == [] || a[0] < b[0] || (a[0] == b[0] && Less(a[1..], b[1..])))
  }

  lemma {:induction false} LessIsTotal(a: string, b: string)
    ensures Less(a, b) || a == b || Less(b, a)
    ensures !(Less(a, b) && Less(b, a)) && (Less(a, b) ==> a != b)
  {
    if a != [] && b != [] {
      LessIsTotal(a[1..], b[1..]);
      assert a == [a[0]] + a[1..] && b == [b[0]] + b[1..];
    }
  }

  lemma {:induction false} LessIsTransitive(a: string, b: string, c: string)
    requires Less(a, b) && Less(b, c)
    ensures Less(a, c)
  {
    if a != [] && a[0] == b[0] && b[0] == c[0] {
      LessIsTransitive(a[1..], b[1..], c[1..]);
    }
  }

  // ---- The canonical form ----

  function Insert(field: Field, fields: seq<Field>): seq<Field> {
    if fields == [] || Less(field.key, fields[0].key) then [field] + fields
    else [fields[0]] + Insert(field, fields[1..])
  }

  /** The body with the keys of every object in order, at every depth. */
  function SortedKeys(body: Json): Json {
    match body
    case Scalar(_) => body
    case Object(fields) => Object(SortedFields(fields))
  }

  function SortedFields(fields: seq<Field>): seq<Field> {
    if fields == [] then []
    else Insert(Field(fields[0].key, SortedKeys(fields[0].value)), SortedFields(fields[1..]))
  }

  predicate UniqueKeys(fields: seq<Field>) {
    forall i, j :: 0 <= i < j < |fields| ==> fields[i].key != fields[j].key
  }

  /** No object names a key twice, as is the case for every parsed body. */
  predicate WellFormed(body: Json) {
    match body
    case Scalar(_) => true
    case Object(fields) => UniqueKeys(fields) && forall i :: 0 <= i < |fields| ==> WellFormed(fields[i].value)
  }

  function Keys(fields: seq<Field>): set<string> {
    set i | 0 <= i < |fields| :: fields[i].key
  }

  /** Equal but for the order of the keys, at every depth. */
  predicate SameUpToOrder(a: Json, b: Json) {
    match (a, b)
    case (Scalar(x), Scalar(y)) => x == y
    case (Object(fs), Object(gs)) =>
      && Keys(fs) == Keys(gs)
      && forall i, j :: 0 <= i < |fs| && 0 <= j < |gs| && fs[i].key == gs[j].key
                        ==> SameUpToOrder(fs[i].value, gs[j].value)
    case _ => false
  }

  predicate Sorted(fields: seq<Field>) {
    forall i, j :: 0 <= i < j < |fields| ==> Less(fields[i].key, fields[j].key)
  }

  lemma {:induction false} InsertKeepsElements(field: Field, fields: seq<Field>)
    ensures forall f :: f in Insert(field, fields) <==> f == field || f in fields
  {
    if fields != [] && !Less(field.key, fields[0].key) {
      InsertKeepsElements(field, fields[1..]);
      assert fields == [fields[0]] + fields[1..];
    }
  }

  lemma {:induction false} InsertKeepsSorted(field: Field, fields: seq<Field>)
    requires Sorted(fields) && field.key !in Keys(fields)
    ensures Sorted(Insert(field, fields))
  {
    if fields != [] {
      LessIsTotal(field.key, fields[0].key);
      assert fields[0].key in Keys(fields);
      if Less(field.key, fields[0].key) {
        forall j | 1 <= j < |fields| ensures Less(field.key, fields[j].key) {
          LessIsTransitive(field.key, fields[0].key, fields[j].key);
        }
      } else {
        var rest := fields[1..];
        assert Keys(rest) <= Keys(fields);
        InsertKeepsSorted(field, rest);
        InsertKeepsElements(field, rest);
        forall j | 0 <= j < |Insert(field, rest)| ensures Less(fields[0].key, Insert(field, rest)[j].key) {
          assert Insert(field, rest)[j] in Insert(field, rest);
        }
      }
    }
  }

  /** Sorting keeps exactly the fields, each with its value brought into order. */
  lemma {:induction false} SortedFieldsKeepElements(fields: seq<Field>)
    ensures forall f :: f in SortedFields(fields)
                        <==> exists i :: 0 <= i < |fields| && f == Field(fields[i].key, SortedKeys(fields[i].value))
  {
    if fields != [] {
      var first, rest := Field(fields[0].key, SortedKeys(fields[0].value)), fields[1..];
      SortedFieldsKeepElements(rest);
      InsertKeepsElements(first, SortedFields(rest));
      forall f ensures f in SortedFields(fields)
                       <==> exists i :: 0 <= i < |fields| && f == Field(fields[i].key, SortedKeys(fields[i].value))
      {
        if f in SortedFields(rest) {
          var i :| 0 <= i < |rest| && f == Field(rest[i].key, SortedKeys(rest[i].value));
          assert fields[i + 1] == rest[i];
        }
        if i :| 0 <= i < |fields| && f == Field(fields[i].key, SortedKeys(fields[i].value)) {
          assert i == 0 || fields[i] == rest[i - 1];
        }
      }
    }
  }

  lemma SortedFieldsKeepKeys(fields: seq<Field>)
    ensures Keys(SortedFields(fields)) == Keys(fields)
  {
    hide SortedFields, SortedKeys;
    SortedFieldsKeepElements(fields);
    var sorted := SortedFields(fields);
    forall k | k in Keys(sorted) ensures k in Keys(fields) {
      var i :| 0 <= i < |sorted| && sorted[i].key == k;
      assert sorted[i] in sorted;
    }
    forall k | k in Keys(fields) ensures k in Keys(sorted) {
      var i :| 0 <= i < |fields| && fields[i].key == k;
      assert Field(fields[i].key, SortedKeys(fields[i].value)) in sorted;
    }
  }

  lemma {:induction false} SortedFieldsAreSorted(fields: seq<Field>)
    requires UniqueKeys(fields)
    ensures Sorted(SortedFields(fields))
  {
    if fields != [] {
      SortedFieldsAreSorted(fields[1..]);
      SortedFieldsKeepKeys(fields[1..]);
      InsertKeepsSorted(Field(fields[0].key, SortedKeys(fields[0].value)), SortedFields(fields[1..]));
    }
  }

  /** A sorted list is determined by its elements. */
  lemma {:induction false} SortedIsUnique(a: seq<Field>, b: seq<Field>)
    requires Sorted(a) && Sorted(b) && forall f :: f in a <==> f in b
    ensures a == b
  {
    if b != [] {
      assert b[0] in a;
    }
    if a != [] {
      assert a[0] in b;
      var i :| 0 <= i < |b| && b[i] == a[0];
      var j :| 0 <= j < |a| && a[j] == b[0];
      LessIsTotal(a[0].key, b[0].key);
      assert i == 0 && j == 0;
      forall f ensures f in a[1..] <==> f in b[1..] {
        NotAgain(a, f);
        NotAgain(b, f);
      }
      SortedIsUnique(a[1..], b[1..]);
      assert a == [a[0]] + a[1..] && b == [b[0]] + b[1..];
    }
  }

  lemma NotAgain(a: seq<Field>, f: Field)
    requires Sorted(a) && a != []
    ensures f in a[1..] <==> f in a && f != a[0]
  {
    assert a == [a[0]] + a[1..];
    if f in a[1..] {
      var i :| 0 <= i < |a| - 1 && a[1..][i] == f;
      LessIsTotal(a[0].key, a[i + 1].key);
    }
  }

  /** Two bodies have the same canonical form exactly when they are equal up to the
      order of their keys at every depth. */
  lemma {:induction false} CanonicalIff(a: Json, b: Json)
    requires WellFormed(a) && WellFormed(b)
    ensures SortedKeys(a) == SortedKeys(b) <==> SameUpToOrder(a, b)
    decreases a
  {
    if a.Object? && b.Object? {
      forall i, j | 0 <= i < |a.fields| && 0 <= j < |b.fields|
        ensures SortedKeys(a.fields[i].value) == SortedKeys(b.fields[j].value)
                <==> SameUpToOrder(a.fields[i].value, b.fields[j].value)
      {
        CanonicalIff(a.fields[i].value, b.fields[j].value);
      }
      if SortedKeys(a) == SortedKeys(b) {
        EqualFormsMatch(a.fields, b.fields);
      } else if SameUpToOrder(a, b) {
        MatchingFormsAreEqual(a.fields, b.fields);
      }
    }
  }

  lemma EqualFormsMatch(fs: seq<Field>, gs: seq<Field>)
    requires UniqueKeys(gs) && SortedFields(fs) == SortedFields(gs)
    ensures Keys(fs) == Keys(gs)
    ensures forall i, j :: 0 <= i < |fs| && 0 <= j < |gs| && fs[i].key == gs[j].key
                           ==> SortedKeys(fs[i].value) == SortedKeys(gs[j].value)
  {
    hide SortedFields, SortedKeys, Keys, UniqueKeys;
    SortedFieldsKeepKeys(fs);
    SortedFieldsKeepKeys(gs);
    forall i, j | 0 <= i < |fs| && 0 <= j < |gs| && fs[i].key == gs[j].key
      ensures SortedKeys(fs[i].value) == SortedKeys(gs[j].value)
    {
      SameKeySameValue(fs, gs, i, j);
    }
  }

  lemma SameKeySameValue(fs: seq<Field>, gs: seq<Field>, i: nat, j: nat)
    requires UniqueKeys(gs) && SortedFields(fs) == SortedFields(gs)
    requires i < |fs| && j < |gs| && fs[i].key == gs[j].key
    ensures SortedKeys(fs[i].value) == SortedKeys(gs[j].value)
  {
    hide SortedFields, SortedKeys;
    var f := Field(fs[i].key, SortedKeys(fs[i].value));
    assert f in SortedFields(fs) by { SortedFieldsKeepElements(fs); }
    SortedFieldsKeepElements(gs);
    var m :| 0 <= m < |gs| && f == Field(gs[m].key, SortedKeys(gs[m].value));
    assert m == j;
  }

  lemma MatchingFormsAreEqual(fs: seq<Field>, gs: seq<Field>)
    requires UniqueKeys(fs) && UniqueKeys(gs) && Keys(fs) == Keys(gs)
    requires forall i, j :: 0 <= i < |fs| && 0 <= j < |gs| && fs[i].key == gs[j].key
                            ==> SortedKeys(fs[i].value) == SortedKeys(gs[j].value)
    ensures SortedFields(fs) == SortedFields(gs)
  {
    hide SortedFields, SortedKeys, Sorted;
    SortedFieldsAreSorted(fs);
    SortedFieldsAreSorted(gs);
    Covered(fs, gs);
    Covered(gs, fs);
    SortedIsUnique(SortedFields(fs), SortedFields(gs));
  }

  lemma Covered(fs: seq<Field>, gs: seq<Field>)
    requires Keys(fs) == Keys(gs)
    requires forall i, j :: 0 <= i < |fs| && 0 <= j < |gs| && fs[i].key == gs[j].key
                            ==> SortedKeys(fs[i].value) == SortedKeys(gs[j].value)
    ensures forall f :: f in SortedFields(fs) ==> f in SortedFields(gs)
  {
    hide SortedFields, SortedKeys;
    SortedFieldsKeepElements(fs);
    SortedFieldsKeepElements(gs);
    forall f | f in SortedFields(fs) ensures f in SortedFields(gs) {
      var i :| 0 <= i < |fs| && f == Field(fs[i].key, SortedKeys(fs[i].value));
      assert fs[i].key in Keys(gs);
      var j :| 0 <= j < |gs| && gs[j].key == fs[i].key;
      assert f == Field(gs[j].key, SortedKeys(gs[j].value));
    }
  }

  /** The canonical form is well-formed, equal to the body up to key order, and does not
      change when it is taken again. */
  lemma {:induction false} CanonicalIsStable(body: Json)
    requires WellFormed(body)
    ensures WellFormed(SortedKeys(body)) && SortedKeys(SortedKeys(body)) == SortedKeys(body)
    decreases body
  {
    if body.Object? {
      var fs, sorted := body.fields, SortedFields(body.fields);
      forall i | 0 <= i < |fs|
        ensures WellFormed(SortedKeys(fs[i].value))
        ensures SortedKeys(SortedKeys(fs[i].value)) == SortedKeys(fs[i].value)
      {
        CanonicalIsStable(fs[i].value);
      }
      StableFields(fs);
    }
  }

  lemma StableFields(fs: seq<Field>)
    requires UniqueKeys(fs)
    requires forall i :: 0 <= i < |fs| ==> WellFormed(SortedKeys(fs[i].value))
    requires forall i :: 0 <= i < |fs| ==> SortedKeys(SortedKeys(fs[i].value)) == SortedKeys(fs[i].value)
    ensures WellFormed(Object(SortedFields(fs)))
    ensures SortedFields(SortedFields(fs)) == SortedFields(fs)
  {
    hide SortedFields, SortedKeys;
    var sorted := SortedFields(fs);
    SortedFieldsAreSorted(fs);
    SortedFieldsKeepElements(fs);
    forall f | f in sorted ensures SortedKeys(f.value) == f.value && WellFormed(f.value) {
    }
    forall i, j | 0 <= i < j < |sorted| ensures sorted[i].key != sorted[j].key {
      LessIsTotal(sorted[i].key, sorted[j].key);
    }
    forall i | 0 <= i < |sorted| ensures WellFormed(sorted[i].value) && SortedKeys(sorted[i].value) == sorted[i].value {
      assert sorted[i] in sorted;
    }
    SortedFieldsAreSorted(sorted);
    SortedFieldsKeepElements(sorted);
    forall f ensures f in SortedFields(sorted) <==> f in sorted {
      if f in sorted {
        var i :| 0 <= i < |sorted| && sorted[i] == f;
        assert f == Field(sorted[i].key, SortedKeys(sorted[i].value));
      }
    }
    SortedIsUnique(SortedFields(sorted), sorted);
  }

  // ---- Removing secrets ----

  /** The stored form of a response: secrets replaced, nothing below the depth limit. */
  function Sanitise(value: Json, depth: nat): Json
    decreases value
  {
    match value
    case Scalar(_) => Object([])
    case Object(fields) => if depth > MAX_DEPTH then Object([]) else Object(SanitisedFields(fields, depth))
  }

  function SanitisedValue(field: Field, depth: nat): Json
    decreases field, 0
  {
    if Sensitive(field.key) then REDACTED
    else if field.value.Object? then Sanitise(field.value, depth + 1)
    else field.value
  }

  function SanitisedFields(fields: seq<Field>, depth: nat): (out: seq<Field>)
    ensures |out| == |fields|
    decreases fields
  {
    if fields == [] then []
    else SanitisedFields(fields[..|fields| - 1], depth)
         + [Field(fields[|fields| - 1].key, SanitisedValue(fields[|fields| - 1], depth))]
  }

  /** The loop over the entries of an object, which calls itself for nested objects. */
  method SanitiseEntries(value: Json, depth: nat) returns (out: Json)
    ensures out == Sanitise(value, depth)
    decreases value
  {
    if value.Scalar? || depth > MAX_DEPTH { return Object([]); }
    var fields := [];
    for i := 0 to |value.fields|
      invariant fields == SanitisedFields(value.fields[..i], depth)
    {
      var entry := value.fields[i];
      assert value.fields[..i + 1][..i] == value.fields[..i];
      if Sensitive(entry.key) {
        fields := fields + [Field(entry.key, REDACTED)];
      } else if entry.value.Object? {
        var nested := SanitiseEntries(entry.value, depth + 1);
        fields := fields + [Field(entry.key, nested)];
      } else {
        fields := fields + [entry];
      }
    }
    assert value.fields[..|value.fields|] == value.fields;
    out := Object(fields);
  }

  lemma {:induction false} SanitisedFieldAt(fields: seq<Field>, depth: nat, i: nat)
    requires i < |fields|
    ensures SanitisedFields(fields, depth)[i] == Field(fields[i].key, SanitisedValue(fields[i], depth))
  {
    if i < |fields| - 1 {
      SanitisedFieldAt(fields[..|fields| - 1], depth, i);
    }
  }

  /** No sensitive key, at any depth, holds anything but the marker. */
  predicate Clean(value: Json) {
    match value
    case Scalar(_) => true
    case Object(fields) =>
      forall i :: 0 <= i < |fields| ==> if Sensitive(fields[i].key) then fields[i].value == REDACTED
                                        else Clean(fields[i].value)
  }

  lemma {:induction false} SanitisedIsClean(value: Json, depth: nat)
    ensures Clean(Sanitise(value, depth))
    decreases value
  {
    if value.Object? && depth <= MAX_DEPTH {
      var fields, out := value.fields, SanitisedFields(value.fields, depth);
      forall i | 0 <= i < |out|
        ensures if Sensitive(out[i].key) then out[i].value == REDACTED else Clean(out[i].value)
      {
        SanitisedFieldAt(fields, depth, i);
        if fields[i].value.Object? {
          SanitisedIsClean(fields[i].value, depth + 1);
        }
      }
    }
  }

  /** A field is a secret exactly if it has one of these eight names: then the marker is
      stored, whatever it held, and otherwise a scalar is stored as it is. */
  lemma SecretsByName(fields: seq<Field>, i: nat)
    requires i < |fields|
    ensures var out, key := Sanitise(Object(fields), 0), fields[i].key;
      && out.Object? && |out.fields| == |fields| && out.fields[i].key == key
      && (if key == "xdr" || key == "signature" || key == "secret" || key == "privateKey" || key == "token"
             || key == "password" || key == "mnemonic" || key == "seed"
          then out.fields[i].value == Scalar("[REDACTED]")
          else fields[i].value.Scalar? ==> out.fields[i] == fields[i])
  {
    hide SanitisedFields;
    SanitisedFieldAt(fields, 0, i);
  }

  /** What is stored does not change when it is sanitised again. */
  lemma {:induction false} SanitiseIsIdempotent(value: Json, depth: nat)
    ensures Sanitise(Sanitise(value, depth), depth) == Sanitise(value, depth)
    decreases value
  {
    if value.Object? && depth <= MAX_DEPTH {
      var fields, out := value.fields, SanitisedFields(value.fields, depth);
      var again := SanitisedFields(out, depth);
      forall i | 0 <= i < |out| ensures again[i] == out[i] {
        SanitisedFieldAt(fields, depth, i);
        SanitisedFieldAt(out, depth, i);
        if fields[i].value.Object? {
          SanitiseIsIdempotent(fields[i].value, depth + 1);
        }
      }
    }
  }

  /** The scalar that a path of positions leads to, with the keys along the way. */
  datatype Reading = Nothing | Reading(keys: seq<string>, scalar: Json)

  function Read(value: Json, path: seq<nat>): Reading {
    if path == [] then (if value.Scalar? then Reading([], value) else Nothing)
    else if value.Scalar? || path[0] >= |value.fields| then Nothing
    else
      match Read(value.fields[path[0]].value, path[1..])
      case Nothing => Nothing
      case Reading(keys, scalar) => Reading([value.fields[path[0]].key] + keys, scalar)
  }

  predicate NoSecret(keys: seq<string>) {
    forall k :: k in keys ==> !Sensitive(k)
  }

  /** Exactly the scalars that are reached without passing a sensitive key, within the
      depth limit, are stored unchanged; everything else that can be read is the marker,
      directly under a sensitive key. */
  lemma {:induction false} SanitiseKeepsTheRest(value: Json, depth: nat, path: seq<nat>)
    requires value.Object? && path != []
    ensures var before, after := Read(value, path), Read(Sanitise(value, depth), path);
      && (before.Reading? && NoSecret(before.keys) && depth + |path| <= 5 ==> after == before)
      && (after.Reading? && NoSecret(after.keys) ==> after == before && depth + |path| <= 5)
      && (after.Reading? && !NoSecret(after.keys)
          ==> after.scalar == REDACTED && Sensitive(after.keys[|after.keys| - 1]))
    decreases value
  {
    if depth <= MAX_DEPTH && path[0] < |value.fields| {
      var field := value.fields[path[0]];
      SanitisedFieldAt(value.fields, depth, path[0]);
      KeysOf(field.value, path[1..]);
      KeysOf(SanitisedValue(field, depth), path[1..]);
      if field.value.Object? && !Sensitive(field.key) && path[1..] != [] {
        SanitiseKeepsTheRest(field.value, depth + 1, path[1..]);
      }
    }
  }

  /** A reading has one key for each step of the path. */
  lemma {:induction false} KeysOf(value: Json, path: seq<nat>)
    ensures Read(value, path).Reading? ==> |Read(value, path).keys| == |path|
  {
    if path != [] && value.Object? && path[0] < |value.fields| {
      KeysOf(value.fields[path[0]].value, path[1..]);
    }
  }
}

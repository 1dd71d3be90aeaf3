/**
 Key conversion of JSON trees (gateway-core/src/utils.ts, `convertKeysToCamelCase`).
 An object is its list of properties in insertion order.
 */
module CamelCase {

  datatype Json =
    | Null
    | Bool(b: bool)
    | Number(n: real)
    | Str(s: string)
    | Arr(items: seq<Json>)
    | Obj(fields: seq<Field>)

  datatype Field = Field(key: string, value: Json)

  // ── Keys ──

  /** `\w`. */
  predicate IsWord(c: char) {
    'a' <= c <= 'z' || 'A' <= c <= 'Z' || '0' <= c <= '9' || c == '_'
  }

  function Upper(c: char): char {
    if 'a' <= c <= 'z' then c - 'a' + 'A' else c
  }

  /** `replace(/(_\w)/g, m => m[1].toUpperCase())`. */
  function Camel(key: string): string {
    if |key| >= 2 && key[0] == '_' && IsWord(key[1]) then [Upper(key[1])] + Camel(key[2..])
    else if key == "" then ""
    else [key[0]] + Camel(key[1..])
  }

  /** Two underscores before a word character: the first is spent on the second, which stays. */
  predicate HalfAt(key: string, i: int) {
    0 <= i < |key| - 2 && key[i] == '_' && key[i + 1] == '_' && IsWord(key[i + 2])
  }

  predicate HalfConverted(key: string) {
    exists i | 0 <= i < |key| - 2 :: HalfAt(key, i)
  }

  /** No underscore is followed by a word character: nothing left to convert. */
  predicate Converted(key: string) {
    forall i | 0 <= i < |key| - 1 :: key[i] == '_' ==> !IsWord(key[i + 1])
  }

  /** The first character stays, but for a leading underscore that takes part in a match. */
  lemma {:induction false} CamelStart(key: string)
    requires key != "" && !(|key| >= 2 && key[0] == '_' && IsWord(key[1]))
    ensures Camel(key) != "" && Camel(key)[0] == key[0]
  {
  }

  /** A word character in front stays a word character. */
  lemma {:induction false} CamelStartsWithWord(key: string)
    requires key != "" && IsWord(key[0])
    ensures Camel(key) != "" && IsWord(Camel(key)[0])
  {
  }

  lemma ConvertedCons(c: char, rest: string)
    ensures Converted([c] + rest) <==> Converted(rest) && (c == '_' && rest != "" ==> !IsWord(rest[0]))
  {
    var key := [c] + rest;
    assert key[0] == c && (rest != "" ==> key[1] == rest[0]);
    if Converted(key) {
      forall i | 0 <= i < |rest| - 1 ensures rest[i] == '_' ==> !IsWord(rest[i + 1]) {
        assert key[i + 1] == rest[i] && key[i + 2] == rest[i + 1];
      }
    }
    if Converted(rest) {
      forall i | 0 < i < |key| - 1 ensures key[i] == '_' ==> !IsWord(key[i + 1]) {
        assert key[i] == rest[i - 1] && key[i + 1] == rest[i];
      }
    }
  }

  /** What the scan has passed no longer matters. */
  lemma HalfConvertedTail(key: string, n: nat)
    requires n <= |key| && forall i | 0 <= i < n :: !HalfAt(key, i)
    ensures HalfConverted(key) <==> HalfConverted(key[n..])
  {
    var rest := key[n..];
    if HalfConverted(key) {
      var i :| 0 <= i < |key| - 2 && HalfAt(key, i);
      assert HalfAt(rest, i - n);
    }
    if HalfConverted(rest) {
      var i :| 0 <= i < |rest| - 2 && HalfAt(rest, i);
      assert HalfAt(key, i + n);
    }
  }

  /** One pass converts a key for good exactly when it has no two underscores before a word character. */
  lemma {:induction false} CamelIsConvertedIff(key: string)
    ensures Converted(Camel(key)) <==> !HalfConverted(key)
  {
    if |key| >= 2 && key[0] == '_' && IsWord(key[1]) {
      var rest := key[2..];
      CamelIsConvertedIff(rest);
      ConvertedCons(Upper(key[1]), Camel(rest));
      if key[1] == '_' && rest != "" && IsWord(rest[0]) {
        CamelStartsWithWord(rest);
        assert HalfAt(key, 0);
      } else {
        if key[1] == '_' && rest != "" { CamelStart(rest); }
        HalfConvertedTail(key, 2);
      }
    } else if key != "" {
      var rest := key[1..];
      CamelIsConvertedIff(rest);
      ConvertedCons(key[0], Camel(rest));
      if key[0] == '_' && rest != "" { CamelStart(rest); }
      HalfConvertedTail(key, 1);
    }
  }

  lemma {:induction false} CamelFixesConverted(key: string)
    requires Converted(key)
    ensures Camel(key) == key
  {
    if key != "" { CamelFixesConverted(key[1..]); }
  }

  lemma {:induction false} CamelShortens(key: string)
    ensures |Camel(key)| <= |key|
    ensures !Converted(key) ==> |Camel(key)| < |key|
  {
    if |key| >= 2 && key[0] == '_' && IsWord(key[1]) {
      CamelShortens(key[2..]);
    } else if key != "" {
      CamelShortens(key[1..]);
      ConvertedCons(key[0], key[1..]);
      assert key == [key[0]] + key[1..];
    }
  }

  /** Converting a key twice is converting it once exactly when no two underscores stand before a word character. */
  lemma CamelTwiceIff(key: string)
    ensures Camel(Camel(key)) == Camel(key) <==> !HalfConverted(key)
  {
    CamelIsConvertedIff(key);
    CamelShortens(Camel(key));
    if Converted(Camel(key)) { CamelFixesConverted(Camel(key)); }
  }

  /**
   Nothing changes before the first underscore; it is dropped and the character after it raised if
   that is a word character, and stays otherwise.
   */
  lemma {:induction false} CamelAt(before: string, c: char, rest: string)
    requires '_' !in before
    ensures Camel(before + ['_', c] + rest)
         == before + if IsWord(c) then [Raised(c)] + Camel(rest) else ['_'] + Camel([c] + rest)
  {
    if before == "" {
      assert before + ['_', c] + rest == ['_', c] + rest;
      CamelUnderscore(c, rest);
    } else {
      var tail := before[1..];
      assert before == [before[0]] + tail;
      CamelAt(tail, c, rest);
      CamelOther(before[0], tail + ['_', c] + rest);
      assert before + ['_', c] + rest == [before[0]] + (tail + ['_', c] + rest);
    }
  }

  lemma CamelUnderscore(c: char, rest: string)
    ensures Camel(['_', c] + rest) == if IsWord(c) then [Raised(c)] + Camel(rest) else ['_'] + Camel([c] + rest)
  {
    var key := ['_', c] + rest;
    assert key[2..] == rest && key[1..] == [c] + rest;
    RaisedIsUpper(c);
  }

  lemma CamelOther(b: char, rest: string)
    requires b != '_'
    ensures Camel([b] + rest) == [b] + Camel(rest)
  {
    assert ([b] + rest)[1..] == rest;
  }

  const LOWER := "abcdefghijklmnopqrstuvwxyz"
  const UPPER := "ABCDEFGHIJKLMNOPQRSTUVWXYZ"
  const DIGITS := "0123456789"

  lemma LowerAre(c: char)
    ensures c in LOWER <==> 'a' <= c <= 'z'
  {
    if 'a' <= c <= 'z' { assert LOWER[c as int - 97] == c; }
  }

  lemma UpperAre(c: char)
    ensures c in UPPER <==> 'A' <= c <= 'Z'
  {
    if 'A' <= c <= 'Z' { assert UPPER[c as int - 65] == c; }
  }

  lemma DigitsAre(c: char)
    ensures c in DIGITS <==> '0' <= c <= '9'
  {
    if '0' <= c <= '9' { assert DIGITS[c as int - 48] == c; }
  }

  /** Word characters are the letters and digits of ASCII and the underscore. */
  lemma WordCharactersAre(c: char)
    ensures IsWord(c) <==> c in LOWER || c in UPPER || c in DIGITS || c == '_'
  {
    LowerAre(c);
    UpperAre(c);
    DigitsAre(c);
  }

  /** A key without an underscore, or with one at its end, is as it should be. */
  lemma {:induction false} CamelStays(key: string)
    requires '_' !in key
    ensures Camel(key) == key && Camel(key + ['_']) == key + ['_']
  {
    if key == "" {
      assert key + ['_'] == ['_'] && ['_'][1..] == [];
    } else {
      assert key == [key[0]] + key[1..] && key + ['_'] == [key[0]] + (key[1..] + ['_']);
      CamelStays(key[1..]);
      CamelOther(key[0], key[1..]);
      CamelOther(key[0], key[1..] + ['_']);
    }
  }

  lemma RaisedIsUpper(c: char)
    ensures Upper(c) == Raised(c)
  {
  }

  /** The capital of a lower-case letter; digits, capitals and the underscore stay. */
  function Raised(c: char): char {
    if 'a' <= c <= 'z' then UPPER[c as int - 97] else c
  }

  // ── Trees ──

  /** `result[key] = value`: an existing property keeps its place and takes the new value. */
  function Put(fields: seq<Field>, key: string, value: Json): seq<Field> {
    if fields == [] then [Field(key, value)]
    else if fields[0].key == key then [Field(key, value)] + fields[1..]
    else [fields[0]] + Put(fields[1..], key, value)
  }

  function Convert(j: Json, preserve: set<string>): Json
    decreases j, 1
  {
    match j
    case Arr(items) => Arr(ConvertItems(items, preserve))
    case Obj(fields) => Obj(ConvertFields(fields, preserve))
    case _ => j
  }

  function ConvertItems(items: seq<Json>, preserve: set<string>): (r: seq<Json>)
    ensures |r| == |items|
    ensures forall i | 0 <= i < |items| :: r[i] == Convert(items[i], preserve)
    decreases items, 0
  {
    if items == [] then [] else [Convert(items[0], preserve)] + ConvertItems(items[1..], preserve)
  }

  /** A property as it is stored: under its new key, its value converted unless the old key is preserved. */
  function ConvertField(f: Field, preserve: set<string>): Field
    decreases f, 2
  {
    Field(Camel(f.key), if f.key in preserve then f.value else Convert(f.value, preserve))
  }

  /** The reduce over `Object.keys`: the fold of all properties but the last, then the last. */
  function ConvertFields(fields: seq<Field>, preserve: set<string>): seq<Field>
    decreases fields, 0
  {
    if fields == [] then []
    else
      var n := |fields| - 1;
      var last := ConvertField(fields[n], preserve);
      Put(ConvertFields(fields[..n], preserve), last.key, last.value)
  }

  // ── Objects without colliding keys ──

  predicate HasKey(fields: seq<Field>, key: string) {
    exists f | f in fields :: f.key == key
  }

  /** No two properties get the same new key. */
  ghost predicate KeysApart(fields: seq<Field>) {
    forall i, j | 0 <= i < j < |fields| :: Camel(fields[i].key) != Camel(fields[j].key)
  }

  function Mapped(fields: seq<Field>, preserve: set<string>): (r: seq<Field>)
    ensures |r| == |fields| && forall i | 0 <= i < |fields| :: r[i] == ConvertField(fields[i], preserve)
  {
    if fields == [] then []
    else Mapped(fields[..|fields| - 1], preserve) + [ConvertField(fields[|fields| - 1], preserve)]
  }

  lemma {:induction false} PutNew(fields: seq<Field>, key: string, value: Json)
    requires forall i | 0 <= i < |fields| :: fields[i].key != key
    ensures Put(fields, key, value) == fields + [Field(key, value)]
  {
    if fields != [] { PutNew(fields[1..], key, value); }
  }

  /** Without collisions an object is converted property by property. */
  lemma {:induction false} ConvertFieldsApart(fields: seq<Field>, preserve: set<string>)
    requires KeysApart(fields)
    ensures ConvertFields(fields, preserve) == Mapped(fields, preserve)
  {
    if fields != [] {
      var n := |fields| - 1;
      ConvertFieldsApart(fields[..n], preserve);
      var last := ConvertField(fields[n], preserve);
      PutNew(Mapped(fields[..n], preserve), last.key, last.value);
    }
  }

  /** A preserved property is copied verbatim under its new key, in place when no keys collide. */
  lemma PreservedVerbatim(fields: seq<Field>, preserve: set<string>, i: nat)
    requires i < |fields| && fields[i].key in preserve
    ensures Survives(fields, i) ==> Field(Camel(fields[i].key), fields[i].value) in ConvertFields(fields, preserve)
    ensures KeysApart(fields) ==>
              |ConvertFields(fields, preserve)| == |fields|
              && ConvertFields(fields, preserve)[i] == Field(Camel(fields[i].key), fields[i].value)
  {
    ConvertedFieldsAre(fields, preserve, ConvertField(fields[i], preserve));
    if KeysApart(fields) { ConvertFieldsApart(fields, preserve); }
  }

  // ── Idempotence ──

  /** Of properties with one new name the last is the one that is kept. */
  ghost predicate Survives(fields: seq<Field>, i: int)
    requires 0 <= i < |fields|
  {
    forall k | i < k < |fields| :: Camel(fields[k].key) != Camel(fields[i].key)
  }

  /** No key that one pass leaves half converted, but for those inside properties that get lost. */
  ghost predicate ConvertsAtOnce(j: Json) {
    match j
    case Arr(items) => forall i | 0 <= i < |items| :: ConvertsAtOnce(items[i])
    case Obj(fields) =>
      forall i | 0 <= i < |fields| ::
        !HalfConverted(fields[i].key) && (Survives(fields, i) ==> ConvertsAtOnce(fields[i].value))
    case _ => true
  }

  /** A tree that conversion leaves alone: converted, distinct keys all the way down. */
  ghost predicate Settled(j: Json) {
    match j
    case Arr(items) => forall i | 0 <= i < |items| :: Settled(items[i])
    case Obj(fields) => SettledFields(fields)
    case _ => true
  }

  ghost predicate SettledFields(fields: seq<Field>) {
    (forall i | 0 <= i < |fields| :: Converted(fields[i].key) && Settled(fields[i].value))
    && (forall i, j | 0 <= i < j < |fields| :: fields[i].key != fields[j].key)
  }

  ghost predicate DistinctKeys(fields: seq<Field>) {
    forall i, j | 0 <= i < j < |fields| :: fields[i].key != fields[j].key
  }

  lemma DistinctCons(f: Field, rest: seq<Field>)
    requires DistinctKeys(rest) && forall g | g in rest :: g.key != f.key
    ensures DistinctKeys([f] + rest)
  {
    var r := [f] + rest;
    assert forall i | 0 < i < |r| :: r[i] == rest[i - 1] && rest[i - 1] in rest;
  }

  lemma {:induction false} PutMembers(fields: seq<Field>, key: string, value: Json)
    requires DistinctKeys(fields)
    ensures DistinctKeys(Put(fields, key, value))
    ensures forall f :: f in Put(fields, key, value) <==> f == Field(key, value) || (f in fields && f.key != key)
  {
    if fields != [] {
      var first, rest := fields[0], fields[1..];
      assert fields == [first] + rest;
      assert forall f | f in rest :: f.key != first.key;
      if first.key == key {
        DistinctCons(Field(key, value), rest);
      } else {
        PutMembers(rest, key, value);
        DistinctCons(first, Put(rest, key, value));
      }
    }
  }

  /** An object converts to the converted survivors, under distinct keys. */
  lemma {:induction false} ConvertedFieldsAre(fields: seq<Field>, preserve: set<string>, f: Field)
    ensures DistinctKeys(ConvertFields(fields, preserve))
    ensures f in ConvertFields(fields, preserve)
       <==> exists i | 0 <= i < |fields| :: Survives(fields, i) && f == ConvertField(fields[i], preserve)
  {
    if fields != [] {
      var n := |fields| - 1;
      var before, last := fields[..n], ConvertField(fields[n], preserve);
      ConvertedFieldsAre(before, preserve, f);
      PutMembers(ConvertFields(before, preserve), last.key, last.value);
      forall i | 0 <= i < n
        ensures Survives(fields, i) <==> Survives(before, i) && Camel(fields[i].key) != last.key
      {
        SurvivesLonger(fields, i);
      }
      assert Survives(fields, n);
      if i :| 0 <= i < n && Survives(before, i) && f == ConvertField(before[i], preserve) {
        assert before[i] == fields[i];
      }
      if i :| 0 <= i < |fields| && Survives(fields, i) && f == ConvertField(fields[i], preserve) {
        if i < n { assert before[i] == fields[i]; }
      }
    }
  }

  lemma SurvivesLonger(fields: seq<Field>, i: nat)
    requires i < |fields| - 1
    ensures var n := |fields| - 1;
            Survives(fields, i) <==> Survives(fields[..n], i) && Camel(fields[i].key) != Camel(fields[n].key)
  {
  }

  lemma {:induction false} LastOfAName(fields: seq<Field>, i: nat) returns (k: nat)
    requires i < |fields|
    ensures i <= k < |fields| && Survives(fields, k) && Camel(fields[k].key) == Camel(fields[i].key)
    decreases |fields| - i
  {
    if Survives(fields, i) {
      k := i;
    } else {
      var next :| i < next < |fields| && Camel(fields[next].key) == Camel(fields[i].key);
      k := LastOfAName(fields, next);
    }
  }

  lemma {:induction false} SettlesIff(j: Json)
    ensures Settled(Convert(j, {})) <==> ConvertsAtOnce(j)
    decreases j, 1
  {
    match j
    case Arr(items) =>
      forall i | 0 <= i < |items| ensures Settled(ConvertItems(items, {})[i]) <==> ConvertsAtOnce(items[i]) {
        SettlesIff(items[i]);
      }
    case Obj(fields) => FieldsSettleIff(fields);
    case _ =>
  }

  lemma {:induction false} FieldsSettleIff(fields: seq<Field>)
    ensures SettledFields(ConvertFields(fields, {})) <==> ConvertsAtOnce(Obj(fields))
    decreases fields, 0
  {
    var r := ConvertFields(fields, {});
    forall i | 0 <= i < |fields|
      ensures Converted(ConvertField(fields[i], {}).key) <==> !HalfConverted(fields[i].key)
      ensures Settled(ConvertField(fields[i], {}).value) <==> ConvertsAtOnce(fields[i].value)
    {
      FieldSettlesIff(fields[i]);
    }
    if ConvertsAtOnce(Obj(fields)) {
      forall f | f in r ensures Converted(f.key) && Settled(f.value) { ConvertedFieldsAre(fields, {}, f); }
      if r != [] { ConvertedFieldsAre(fields, {}, r[0]); }
    }
    if SettledFields(r) {
      forall i | 0 <= i < |fields|
        ensures !HalfConverted(fields[i].key) && (Survives(fields, i) ==> ConvertsAtOnce(fields[i].value))
      {
        var k := LastOfAName(fields, i);
        ConvertedFieldsAre(fields, {}, ConvertField(fields[k], {}));
        ConvertedFieldsAre(fields, {}, ConvertField(fields[i], {}));
        CamelIsConvertedIff(fields[i].key);
      }
    }
  }

  lemma {:induction false} FieldSettlesIff(f: Field)
    ensures Converted(ConvertField(f, {}).key) <==> !HalfConverted(f.key)
    ensures Settled(ConvertField(f, {}).value) <==> ConvertsAtOnce(f.value)
    decreases f, 2
  {
    CamelIsConvertedIff(f.key);
    SettlesIff(f.value);
  }

  lemma {:induction false} SettledIsFixed(j: Json)
    requires Settled(j)
    ensures Convert(j, {}) == j
    decreases j, 1
  {
    match j
    case Arr(items) =>
      forall i | 0 <= i < |items| ensures ConvertItems(items, {})[i] == items[i] { SettledIsFixed(items[i]); }
    case Obj(fields) =>
      forall i | 0 <= i < |fields| ensures ConvertField(fields[i], {}) == fields[i] { SettledFieldIsFixed(fields[i]); }
      forall i, k | 0 <= i < k < |fields| ensures Camel(fields[i].key) != Camel(fields[k].key) {
        assert ConvertField(fields[i], {}) == fields[i] && ConvertField(fields[k], {}) == fields[k];
      }
      ConvertFieldsApart(fields, {});
      assert Mapped(fields, {}) == fields;
    case _ =>
  }

  lemma {:induction false} SettledFieldIsFixed(f: Field)
    requires Converted(f.key) && Settled(f.value)
    ensures ConvertField(f, {}) == f
    decreases f, 2
  {
    CamelFixesConverted(f.key);
    SettledIsFixed(f.value);
  }

  lemma {:induction false} FixedIsSettled(j: Json)
    requires Convert(j, {}) == j
    ensures Settled(j)
    decreases j, 1
  {
    match j
    case Arr(items) =>
      forall i | 0 <= i < |items| ensures Settled(items[i]) {
        assert ConvertItems(items, {})[i] == items[i];
        FixedIsSettled(items[i]);
      }
    case Obj(fields) =>
      CollisionLosesProperty(fields, {});
      ConvertFieldsApart(fields, {});
      forall i | 0 <= i < |fields|
        ensures Camel(fields[i].key) == fields[i].key && Converted(fields[i].key) && Settled(fields[i].value)
      {
        assert Mapped(fields, {})[i] == fields[i];
        FixedFieldIsSettled(fields[i]);
      }
    case _ =>
  }

  lemma {:induction false} FixedFieldIsSettled(f: Field)
    requires ConvertField(f, {}) == f
    ensures Converted(f.key) && Settled(f.value)
    decreases f, 2
  {
    CamelShortens(f.key);
    FixedIsSettled(f.value);
  }

  /**
   With nothing preserved, converting a tree twice is converting it once exactly when no key has
   two underscores before a word character, lost properties aside.
   */
  lemma ConvertTwiceIff(j: Json)
    ensures Convert(Convert(j, {}), {}) == Convert(j, {}) <==> ConvertsAtOnce(j)
  {
    SettlesIff(j);
    if Settled(Convert(j, {})) { SettledIsFixed(Convert(j, {})); }
    if Convert(Convert(j, {}), {}) == Convert(j, {}) { FixedIsSettled(Convert(j, {})); }
  }

  /** The plain sufficient condition: no such key anywhere in the tree. */
  ghost predicate NoneHalfConverted(j: Json) {
    match j
    case Arr(items) => forall i | 0 <= i < |items| :: NoneHalfConverted(items[i])
    case Obj(fields) =>
      forall i | 0 <= i < |fields| :: !HalfConverted(fields[i].key) && NoneHalfConverted(fields[i].value)
    case _ => true
  }

  lemma {:induction false} NoneIsAtOnce(j: Json)
    requires NoneHalfConverted(j)
    ensures ConvertsAtOnce(j)
  {
    match j
    case Arr(items) => forall i | 0 <= i < |items| ensures ConvertsAtOnce(items[i]) { NoneIsAtOnce(items[i]); }
    case Obj(fields) =>
      forall i | 0 <= i < |fields| ensures ConvertsAtOnce(fields[i].value) { NoneIsAtOnce(fields[i].value); }
    case _ =>
  }

  lemma ConvertIsIdempotent(j: Json)
    requires NoneHalfConverted(j)
    ensures Convert(Convert(j, {}), {}) == Convert(j, {})
  {
    NoneIsAtOnce(j);
    ConvertTwiceIff(j);
  }

  // ── Shape and leaves ──

  /** A tree with its keys forgotten: array lengths, property counts and leaf values. */
  datatype Shape = Leaf(j: Json) | Items(shapes: seq<Shape>) | Properties(shapes: seq<Shape>)

  function ShapeOf(j: Json): Shape
    decreases j, 1
  {
    match j
    case Arr(items) => Items(ShapesOf(items))
    case Obj(fields) => Properties(FieldShapes(fields))
    case _ => Leaf(j)
  }

  function ShapesOf(items: seq<Json>): (r: seq<Shape>)
    ensures |r| == |items| && forall i | 0 <= i < |items| :: r[i] == ShapeOf(items[i])
    decreases items, 0
  {
    if items == [] then [] else [ShapeOf(items[0])] + ShapesOf(items[1..])
  }

  function FieldShapes(fields: seq<Field>): (r: seq<Shape>)
    ensures |r| == |fields| && forall i | 0 <= i < |fields| :: r[i] == ShapeOfField(fields[i])
    decreases fields, 0
  {
    if fields == [] then [] else [ShapeOfField(fields[0])] + FieldShapes(fields[1..])
  }

  function ShapeOfField(f: Field): Shape
    decreases f, 2
  {
    ShapeOf(f.value)
  }

  /** No two sibling keys of the converted part collide. */
  ghost predicate CollisionFree(j: Json, preserve: set<string>) {
    match j
    case Arr(items) => forall i | 0 <= i < |items| :: CollisionFree(items[i], preserve)
    case Obj(fields) =>
      KeysApart(fields)
      && forall i | 0 <= i < |fields| :: fields[i].key in preserve || CollisionFree(fields[i].value, preserve)
    case _ => true
  }

  lemma {:induction false} PutFacts(fields: seq<Field>, key: string, value: Json)
    ensures |Put(fields, key, value)| == |fields| + if HasKey(fields, key) then 0 else 1
    ensures forall k :: HasKey(Put(fields, key, value), k) <==> HasKey(fields, k) || k == key
  {
    if fields == [] {
      assert Put(fields, key, value)[0].key == key;
    } else {
      var rest := fields[1..];
      PutFacts(rest, key, value);
      HasKeyCons(fields[0], rest);
      assert fields == [fields[0]] + rest;
      HasKeyCons(Field(key, value), rest);
      HasKeyCons(fields[0], Put(rest, key, value));
    }
  }

  lemma HasKeyCons(f: Field, rest: seq<Field>)
    ensures forall k :: HasKey([f] + rest, k) <==> f.key == k || HasKey(rest, k)
  {
    assert f in [f] + rest;
  }

  lemma {:induction false} ConvertedKeys(fields: seq<Field>, preserve: set<string>)
    ensures forall i | 0 <= i < |fields| :: HasKey(ConvertFields(fields, preserve), Camel(fields[i].key))
  {
    if fields != [] {
      var n := |fields| - 1;
      var last := ConvertField(fields[n], preserve);
      ConvertedKeys(fields[..n], preserve);
      PutFacts(ConvertFields(fields[..n], preserve), last.key, last.value);
      forall i | 0 <= i < n ensures HasKey(ConvertFields(fields[..n], preserve), Camel(fields[i].key)) {
        assert fields[..n][i] == fields[i];
      }
    }
  }

  lemma KeysApartSplit(fields: seq<Field>)
    requires fields != []
    ensures var n := |fields| - 1;
            KeysApart(fields)
            <==> KeysApart(fields[..n]) && forall i | 0 <= i < n :: Camel(fields[i].key) != Camel(fields[n].key)
  {
  }

  function KeysOf(fields: seq<Field>): seq<string> {
    if fields == [] then [] else [fields[0].key] + KeysOf(fields[1..])
  }

  /** The new names, each at its first occurrence. */
  function Names(fields: seq<Field>): seq<string> {
    if fields == [] then []
    else
      var n := |fields| - 1;
      var names := Names(fields[..n]);
      if Camel(fields[n].key) in names then names else names + [Camel(fields[n].key)]
  }

  lemma {:induction false} PutKeys(fields: seq<Field>, key: string, value: Json)
    ensures KeysOf(Put(fields, key, value)) == if key in KeysOf(fields) then KeysOf(fields) else KeysOf(fields) + [key]
  {
    if fields != [] && fields[0].key != key { PutKeys(fields[1..], key, value); }
  }

  /** Properties come in the order in which their new names first occur, whichever value each name ends with. */
  lemma {:induction false} ConvertedOrder(fields: seq<Field>, preserve: set<string>)
    ensures KeysOf(ConvertFields(fields, preserve)) == Names(fields)
  {
    if fields != [] {
      var n := |fields| - 1;
      var last := ConvertField(fields[n], preserve);
      ConvertedOrder(fields[..n], preserve);
      PutKeys(ConvertFields(fields[..n], preserve), last.key, last.value);
    }
  }

  lemma {:induction false} CollisionLosesProperty(fields: seq<Field>, preserve: set<string>)
    ensures |ConvertFields(fields, preserve)| <= |fields|
    ensures !KeysApart(fields) ==> |ConvertFields(fields, preserve)| < |fields|
  {
    if fields != [] {
      var n := |fields| - 1;
      var before := ConvertFields(fields[..n], preserve);
      CollisionLosesProperty(fields[..n], preserve);
      ConvertedKeys(fields[..n], preserve);
      PutFacts(before, ConvertField(fields[n], preserve).key, ConvertField(fields[n], preserve).value);
      KeysApartSplit(fields);
      if i :| 0 <= i < n && Camel(fields[i].key) == Camel(fields[n].key) {
        assert HasKey(before, Camel(fields[..n][i].key));
      }
    }
  }

  /**
   Array lengths, property counts and all leaf values survive the conversion if and only if
   no two sibling keys collide outside the preserved subtrees.
   */
  lemma {:induction false} ShapeKeptIffCollisionFree(j: Json, preserve: set<string>)
    ensures ShapeOf(Convert(j, preserve)) == ShapeOf(j) <==> CollisionFree(j, preserve)
    decreases j, 1
  {
    match j
    case Arr(items) =>
      var shapes, shapes' := ShapesOf(items), ShapesOf(ConvertItems(items, preserve));
      forall i | 0 <= i < |items| ensures shapes'[i] == shapes[i] <==> CollisionFree(items[i], preserve) {
        ShapeKeptIffCollisionFree(items[i], preserve);
      }
      assert shapes' == shapes <==> forall i | 0 <= i < |items| :: shapes'[i] == shapes[i];
    case Obj(fields) =>
      CollisionLosesProperty(fields, preserve);
      if KeysApart(fields) {
        ConvertFieldsApart(fields, preserve);
        var shapes, shapes' := FieldShapes(fields), FieldShapes(Mapped(fields, preserve));
        forall i | 0 <= i < |fields|
          ensures shapes'[i] == shapes[i] <==> fields[i].key in preserve || CollisionFree(fields[i].value, preserve)
        {
          FieldShapeKept(fields[i], preserve);
        }
        assert shapes' == shapes <==> forall i | 0 <= i < |fields| :: shapes'[i] == shapes[i];
      }
    case _ =>
  }

  lemma {:induction false} FieldShapeKept(f: Field, preserve: set<string>)
    ensures ShapeOfField(ConvertField(f, preserve)) == ShapeOfField(f)
       <==> f.key in preserve || CollisionFree(f.value, preserve)
    decreases f, 2
  {
    ShapeKeptIffCollisionFree(f.value, preserve);
  }
}

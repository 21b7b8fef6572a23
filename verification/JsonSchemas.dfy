/** Normalising a JSON schema for tool definitions.  Objects keep the order of their keys. */
module JsonSchemas {
  import opened Sequences

  datatype Json =
    | Null | Bool(b: bool) | Number(n: real) | Text(s: string)
    | List(items: seq<Json>)
    | Object(fields: seq<Field>)

  datatype Field = Field(key: string, value: Json)

  datatype TypeError = NotIterable

  // ----- ordered dictionaries -----

  function Get(fields: seq<Field>, key: string): Option<Json> {
    if fields == [] then None
    else if fields[0].key == key then Some(fields[0].value)
    else Get(fields[1..], key)
  }

  /** Python's `d[key] = value`: an existing key keeps its place. */
  function Put(fields: seq<Field>, key: string, value: Json): seq<Field> {
    if fields == [] then [Field(key, value)]
    else if fields[0].key == key then [Field(key, value)] + fields[1..]
    else [fields[0]] + Put(fields[1..], key, value)
  }

  predicate Distinct(fields: seq<Field>) {
    forall i, j :: 0 <= i < j < |fields| ==> fields[i].key != fields[j].key
  }

  // ----- the normaliser -----

  const PREFERRED: seq<string> := ["type", "description", "enum", "default", "items", "properties", "required"]

  predicate IsNullVariant(v: Json) {
    v.Object? && |v.fields| == 1 && Get(v.fields, "type") == Some(Text("null"))
  }

  function NonNull(items: seq<Json>): seq<Json> {
    if items == [] then []
    else (if IsNullVariant(items[0]) then [] else [items[0]]) + NonNull(items[1..])
  }

  predicate Iterable(v: Json) {
    v.List? || v.Object? || v.Text?
  }

  /** An `anyOf` that leaves a single mapping once the null variants are gone. */
  predicate Collapses(anyOf: Json) {
    anyOf.List? && |NonNull(anyOf.items)| == 1 && NonNull(anyOf.items)[0].Object?
  }

  /** The variant's entries, overridden and extended by the surrounding ones other than `anyOf`. */
  function Merge(variant: seq<Field>, outer: seq<Field>): seq<Field> {
    if outer == [] then variant
    else
      var last := outer[|outer| - 1];
      var merged := Merge(variant, outer[..|outer| - 1]);
      if last.key == "anyOf" then merged else Put(merged, last.key, last.value)
  }

  function Collapse(fields: seq<Field>): Result<seq<Field>, TypeError> {
    var anyOf := Get(fields, "anyOf");
    if anyOf.None? then Ok(fields)
    else if !Iterable(anyOf.value) then Err(NotIterable)
    else if Collapses(anyOf.value) then Ok(Merge(NonNull(anyOf.value.items)[0].fields, fields))
    else Ok(fields)
  }

  function Chosen(fields: seq<Field>, keys: seq<string>): seq<Field> {
    if keys == [] then []
    else
      var value := Get(fields, keys[0]);
      (if value.Some? then [Field(keys[0], value.value)] else []) + Chosen(fields, keys[1..])
  }

  function Others(fields: seq<Field>, keys: seq<string>): seq<Field> {
    if fields == [] then []
    else (if fields[0].key in keys then [] else [fields[0]]) + Others(fields[1..], keys)
  }

  function Ordered(fields: seq<Field>): seq<Field> {
    Chosen(fields, PREFERRED) + Others(fields, PREFERRED)
  }

  function Normalize(v: Json): Result<Json, TypeError>
    decreases v
  {
    match v
    case List(items) =>
      var all := NormalizeAll(items);
      if all.Err? then Err(all.error) else Ok(List(all.value))
    case Object(fields) =>
      var all := NormalizeFields(fields);
      if all.Err? then Err(all.error)
      else
        var collapsed := Collapse(all.value);
        if collapsed.Err? then Err(collapsed.error) else Ok(Object(Ordered(collapsed.value)))
    case _ => Ok(v)
  }

  function NormalizeAll(items: seq<Json>): (r: Result<seq<Json>, TypeError>)
    ensures r.Ok? ==> |r.value| == |items|
    decreases items
  {
    if items == [] then Ok([])
    else
      var before := NormalizeAll(items[..|items| - 1]);
      if before.Err? then before
      else
        var last := Normalize(items[|items| - 1]);
        if last.Err? then Err(last.error) else Ok(before.value + [last.value])
  }

  function NormalizeFields(fields: seq<Field>): Result<seq<Field>, TypeError>
    decreases fields
  {
    if fields == [] then Ok([])
    else
      var before := NormalizeFields(fields[..|fields| - 1]);
      if before.Err? then before
      else
        var field := fields[|fields| - 1];
        if field.key == "title" then before
        else
          var value := Normalize(field.value);
          if value.Err? then Err(value.error)
          else if field.key == "default" && value.value.Null? then before
          else Ok(Put(before.value, field.key, value.value))
  }

  // ----- dictionary facts -----

  lemma {:induction false} GetConcat(a: seq<Field>, b: seq<Field>, key: string)
    ensures Get(a + b, key) == if Get(a, key).Some? then Get(a, key) else Get(b, key)
  {
    if a == [] {
      assert a + b == b;
    } else {
      assert (a + b)[1..] == a[1..] + b;
      GetConcat(a[1..], b, key);
    }
  }

  lemma {:induction false} GetFinds(fields: seq<Field>, key: string) returns (i: nat)
    requires Get(fields, key).Some?
    ensures i < |fields| && fields[i] == Field(key, Get(fields, key).value)
  {
    if fields[0].key == key {
      i := 0;
    } else {
      i := GetFinds(fields[1..], key);
      i := i + 1;
    }
  }

  lemma {:induction false} GetAt(fields: seq<Field>, i: nat)
    requires Distinct(fields) && i < |fields|
    ensures Get(fields, fields[i].key) == Some(fields[i].value)
  {
    if i > 0 {
      GetAt(fields[1..], i - 1);
    }
  }

  lemma {:induction false} GetMisses(fields: seq<Field>, key: string)
    ensures Get(fields, key).None? <==> forall i :: 0 <= i < |fields| ==> fields[i].key != key
  {
    if fields != [] {
      GetMisses(fields[1..], key);
    }
  }

  lemma {:induction false} PutGet(fields: seq<Field>, key: string, value: Json, q: string)
    ensures Get(Put(fields, key, value), q) == if q == key then Some(value) else Get(fields, q)
  {
    if fields != [] && fields[0].key != key {
      PutGet(fields[1..], key, value, q);
    }
  }

  lemma {:induction false} PutDistinct(fields: seq<Field>, key: string, value: Json)
    requires Distinct(fields)
    ensures Distinct(Put(fields, key, value))
  {
    if fields != [] && fields[0].key != key {
      PutDistinct(fields[1..], key, value);
      var rest := Put(fields[1..], key, value);
      PutGet(fields[1..], key, value, fields[0].key);
      GetMisses(fields[1..], fields[0].key);
      GetMisses(rest, fields[0].key);
    }
  }

  lemma {:induction false} PutAppends(fields: seq<Field>, key: string, value: Json)
    requires Get(fields, key).None?
    ensures Put(fields, key, value) == fields + [Field(key, value)]
  {
    if fields != [] {
      PutAppends(fields[1..], key, value);
    }
  }

  // ----- ordering keeps every entry -----

  function Rank(keys: seq<string>, key: string): nat {
    if keys == [] || keys[0] == key then 0 else 1 + Rank(keys[1..], key)
  }

  /** Listed keys come first and in the listed order. */
  ghost predicate Ascends(fields: seq<Field>, keys: seq<string>) {
    forall i, j :: 0 <= i < j < |fields| ==> Rank(keys, fields[i].key) <= Rank(keys, fields[j].key)
  }

  ghost predicate DistinctKeys(keys: seq<string>) {
    forall i, j :: 0 <= i < j < |keys| ==> keys[i] != keys[j]
  }

  lemma {:induction false} RankInside(keys: seq<string>, key: string)
    ensures Rank(keys, key) <= |keys| && (Rank(keys, key) == |keys| <==> key !in keys)
  {
    if keys != [] {
      RankInside(keys[1..], key);
      assert keys == [keys[0]] + keys[1..];
    }
  }

  lemma {:induction false} ChosenGet(fields: seq<Field>, keys: seq<string>, q: string)
    ensures Get(Chosen(fields, keys), q) == if q in keys then Get(fields, q) else None
  {
    if keys != [] {
      ChosenGet(fields, keys[1..], q);
      assert keys == [keys[0]] + keys[1..];
      var head := if Get(fields, keys[0]).Some? then [Field(keys[0], Get(fields, keys[0]).value)] else [];
      GetConcat(head, Chosen(fields, keys[1..]), q);
    }
  }

  lemma ConsAscends(head: Field, rest: seq<Field>, keys: seq<string>)
    requires keys != [] && head.key == keys[0] && Distinct(rest) && Ascends(rest, keys[1..])
    requires forall i :: 0 <= i < |rest| ==> rest[i].key != keys[0]
    ensures Ascends(rest, keys) && Distinct([head] + rest) && Ascends([head] + rest, keys)
  {
    forall i, j | 0 <= i < j < |rest| ensures Rank(keys, rest[i].key) <= Rank(keys, rest[j].key) {
      assert Rank(keys[1..], rest[i].key) <= Rank(keys[1..], rest[j].key);
    }
  }

  lemma {:induction false} ChosenInside(fields: seq<Field>, keys: seq<string>, i: nat)
    requires i < |Chosen(fields, keys)|
    ensures Chosen(fields, keys)[i].key in keys
  {
    var rest := Chosen(fields, keys[1..]);
    if Get(fields, keys[0]).None? {
      ChosenInside(fields, keys[1..], i);
    } else if i > 0 {
      ChosenInside(fields, keys[1..], i - 1);
    }
  }

  lemma ChosenKeys(fields: seq<Field>, keys: seq<string>)
    ensures forall i :: 0 <= i < |Chosen(fields, keys)| ==> Chosen(fields, keys)[i].key in keys
  {
    forall i | 0 <= i < |Chosen(fields, keys)| ensures Chosen(fields, keys)[i].key in keys {
      ChosenInside(fields, keys, i);
    }
  }

  lemma TailKeys(keys: seq<string>)
    requires keys != [] && DistinctKeys(keys)
    ensures DistinctKeys(keys[1..]) && keys[0] !in keys[1..]
  {
  }

  lemma {:induction false} ChosenAscends(fields: seq<Field>, keys: seq<string>)
    requires DistinctKeys(keys)
    ensures Distinct(Chosen(fields, keys)) && Ascends(Chosen(fields, keys), keys)
  {
    if keys != [] {
      var value := Get(fields, keys[0]);
      TailKeys(keys);
      ChosenAscends(fields, keys[1..]);
      ChosenKeys(fields, keys[1..]);
      ConsAscends(Field(keys[0], if value.Some? then value.value else Null), Chosen(fields, keys[1..]), keys);
    }
  }

  lemma {:induction false} OthersGet(fields: seq<Field>, keys: seq<string>, q: string)
    ensures Get(Others(fields, keys), q) == if q in keys then None else Get(fields, q)
  {
    if fields != [] {
      OthersGet(fields[1..], keys, q);
      GetConcat(if fields[0].key in keys then [] else [fields[0]], Others(fields[1..], keys), q);
    }
  }

  lemma {:induction false} OthersDistinct(fields: seq<Field>, keys: seq<string>)
    requires Distinct(fields)
    ensures Distinct(Others(fields, keys))
    ensures forall i :: 0 <= i < |Others(fields, keys)| ==> Others(fields, keys)[i].key !in keys
  {
    if fields != [] {
      OthersDistinct(fields[1..], keys);
      OthersGet(fields[1..], keys, fields[0].key);
      GetMisses(fields[1..], fields[0].key);
      GetMisses(Others(fields[1..], keys), fields[0].key);
    }
  }

  lemma OrderedGet(fields: seq<Field>, q: string)
    ensures Get(Ordered(fields), q) == Get(fields, q)
  {
    ChosenGet(fields, PREFERRED, q);
    OthersGet(fields, PREFERRED, q);
    GetConcat(Chosen(fields, PREFERRED), Others(fields, PREFERRED), q);
  }

  lemma OrderedAscends(fields: seq<Field>)
    requires Distinct(fields)
    ensures Distinct(Ordered(fields)) && Ascends(Ordered(fields), PREFERRED)
  {
    ChosenAscends(fields, PREFERRED);
    ChosenKeys(fields, PREFERRED);
    OthersDistinct(fields, PREFERRED);
    var chosen, others := Chosen(fields, PREFERRED), Others(fields, PREFERRED);
    forall i | 0 <= i < |Ordered(fields)|
      ensures Rank(PREFERRED, Ordered(fields)[i].key) <= |PREFERRED|
      ensures Rank(PREFERRED, Ordered(fields)[i].key) == |PREFERRED| <==> i >= |chosen|
    {
      RankInside(PREFERRED, Ordered(fields)[i].key);
    }
  }

  lemma {:induction false} ChosenSkips(fields: seq<Field>, keys: seq<string>)
    requires fields != [] && fields[0].key !in keys
    ensures Chosen(fields, keys) == Chosen(fields[1..], keys)
  {
    if keys != [] {
      assert keys == [keys[0]] + keys[1..];
      ChosenSkips(fields, keys[1..]);
    }
  }

  lemma {:induction false} OthersSkips(fields: seq<Field>, keys: seq<string>)
    requires keys != [] && forall i :: 0 <= i < |fields| ==> fields[i].key != keys[0]
    ensures Others(fields, keys) == Others(fields, keys[1..])
  {
    if fields != [] {
      assert keys == [keys[0]] + keys[1..];
      OthersSkips(fields[1..], keys);
    }
  }

  /** Fields that are in order already stay as they are. */
  lemma {:induction false} OrderedAlready(fields: seq<Field>, keys: seq<string>)
    requires Distinct(fields) && Ascends(fields, keys) && DistinctKeys(keys)
    ensures Chosen(fields, keys) + Others(fields, keys) == fields
    decreases |keys|
  {
    if keys == [] {
      OthersNothing(fields);
    } else {
      assert forall i :: 0 <= i < |keys[1..]| ==> keys[1..][i] == keys[i + 1];
      GetMisses(fields, keys[0]);
      if fields != [] && fields[0].key == keys[0] {
        var rest := fields[1..];
        forall i, j | 0 <= i < j < |rest| ensures Rank(keys[1..], rest[i].key) <= Rank(keys[1..], rest[j].key) {
          assert Rank(keys, fields[i + 1].key) <= Rank(keys, fields[j + 1].key);
        }
        OrderedAlready(rest, keys[1..]);
        ChosenSkips(fields, keys[1..]);
        OthersSkips(rest, keys);
      } else {
        forall i | 0 <= i < |fields| ensures fields[i].key != keys[0] {
          if i > 0 {
            assert Rank(keys, fields[0].key) <= Rank(keys, fields[i].key);
          }
        }
        forall i, j | 0 <= i < j < |fields| ensures Rank(keys[1..], fields[i].key) <= Rank(keys[1..], fields[j].key) {
          assert Rank(keys, fields[i].key) <= Rank(keys, fields[j].key);
        }
        OrderedAlready(fields, keys[1..]);
        OthersSkips(fields, keys);
      }
    }
  }

  lemma {:induction false} OthersNothing(fields: seq<Field>)
    ensures Others(fields, []) == fields
  {
    if fields != [] {
      OthersNothing(fields[1..]);
    }
  }

  // ----- normal form -----

  /** No `title` key, no null `default`, no `anyOf` that would still collapse, keys in the preferred
      order, at every depth. */
  ghost predicate NormalForm(v: Json)
    decreases v
  {
    match v
    case List(items) => forall i :: 0 <= i < |items| ==> NormalForm(items[i])
    case Object(fields) =>
      && (forall i :: 0 <= i < |fields| ==> NormalForm(fields[i].value))
      && Distinct(fields) && Shape(fields) && Ascends(fields, PREFERRED)
    case _ => true
  }

  ghost predicate Clean(fields: seq<Field>) {
    Get(fields, "title").None? && Get(fields, "default") != Some(Null)
  }

  ghost predicate Settled(fields: seq<Field>) {
    var anyOf := Get(fields, "anyOf");
    anyOf.Some? ==> Iterable(anyOf.value) && !Collapses(anyOf.value)
  }

  ghost predicate Shape(fields: seq<Field>) {
    Clean(fields) && Settled(fields)
  }

  /** A Python dictionary has each key once. */
  ghost predicate WellFormed(v: Json)
    decreases v
  {
    match v
    case List(items) => forall i :: 0 <= i < |items| ==> WellFormed(items[i])
    case Object(fields) => Distinct(fields) && forall i :: 0 <= i < |fields| ==> WellFormed(fields[i].value)
    case _ => true
  }

  ghost predicate ValuesNormal(fields: seq<Field>) {
    forall i :: 0 <= i < |fields| ==> NormalForm(fields[i].value)
  }

  /** Whether all values are in normal form can be told by lookups. */
  lemma ValuesNormalByGet(fields: seq<Field>)
    requires Distinct(fields)
    requires forall key :: Get(fields, key).Some? ==> NormalForm(Get(fields, key).value)
    ensures ValuesNormal(fields)
  {
    forall i | 0 <= i < |fields| ensures NormalForm(fields[i].value) {
      GetAt(fields, i);
    }
  }

  lemma {:induction false} PutNormal(fields: seq<Field>, key: string, value: Json)
    requires ValuesNormal(fields) && NormalForm(value)
    ensures ValuesNormal(Put(fields, key, value))
  {
    if fields != [] && fields[0].key != key {
      PutNormal(fields[1..], key, value);
    }
  }

  lemma {:induction false} NonNullFrom(items: seq<Json>) returns (i: nat)
    requires NonNull(items) != []
    ensures i < |items| && items[i] == NonNull(items)[0]
  {
    if IsNullVariant(items[0]) {
      i := NonNullFrom(items[1..]);
      i := i + 1;
    } else {
      i := 0;
    }
  }

  lemma {:induction false} MergeLaws(variant: seq<Field>, outer: seq<Field>, q: string)
    requires Distinct(variant) && Distinct(outer)
    ensures Distinct(Merge(variant, outer))
    ensures Get(Merge(variant, outer), q) ==
            if q != "anyOf" && Get(outer, q).Some? then Get(outer, q) else Get(variant, q)
  {
    if outer != [] {
      var init, last := outer[..|outer| - 1], outer[|outer| - 1];
      MergeLaws(variant, init, q);
      PutDistinct(Merge(variant, init), last.key, last.value);
      PutGet(Merge(variant, init), last.key, last.value, q);
      assert outer == init + [last];
      GetConcat(init, [last], q);
      GetMisses(init, last.key);
    }
  }

  lemma {:induction false} MergeNormal(variant: seq<Field>, outer: seq<Field>)
    requires ValuesNormal(variant) && ValuesNormal(outer)
    ensures ValuesNormal(Merge(variant, outer))
  {
    if outer != [] {
      var last := outer[|outer| - 1];
      MergeNormal(variant, outer[..|outer| - 1]);
      PutNormal(Merge(variant, outer[..|outer| - 1]), last.key, last.value);
    }
  }

  /** Collapsing clean, normal fields gives clean, normal fields that do not collapse again: the one
      variant that is left was in normal form itself. */
  lemma CollapseNormal(fields: seq<Field>)
    requires Distinct(fields) && Clean(fields) && ValuesNormal(fields) && Collapse(fields).Ok?
    ensures var collapsed := Collapse(fields).value;
            Distinct(collapsed) && Shape(collapsed) && ValuesNormal(collapsed)
  {
    var anyOf := Get(fields, "anyOf");
    if anyOf.Some? && Collapses(anyOf.value) {
      var at := GetFinds(fields, "anyOf");
      var i := NonNullFrom(anyOf.value.items);
      var variant := anyOf.value.items[i].fields;
      assert NormalForm(anyOf.value.items[i]);
      MergeLaws(variant, fields, "title");
      MergeLaws(variant, fields, "default");
      MergeLaws(variant, fields, "anyOf");
      MergeNormal(variant, fields);
    }
  }

  lemma OrderedValuesNormal(fields: seq<Field>)
    requires Distinct(fields) && ValuesNormal(fields)
    ensures ValuesNormal(Ordered(fields))
  {
    OrderedAscends(fields);
    forall key | Get(Ordered(fields), key).Some? ensures NormalForm(Get(Ordered(fields), key).value) {
      OrderedGet(fields, key);
      var i := GetFinds(fields, key);
    }
    ValuesNormalByGet(Ordered(fields));
  }

  // ----- main results -----

  /** The result is in normal form. */
  lemma {:induction false} ResultIsNormal(v: Json)
    requires WellFormed(v) && Normalize(v).Ok?
    ensures NormalForm(Normalize(v).value)
    decreases v
  {
    match v
    case List(items) =>
      ItemsNormal(items);
    case Object(fields) =>
      FieldsNormal(fields);
      var all := NormalizeFields(fields).value;
      CollapseNormal(all);
      var collapsed := Collapse(all).value;
      OrderedAscends(collapsed);
      OrderedValuesNormal(collapsed);
      OrderedGet(collapsed, "title");
      OrderedGet(collapsed, "default");
      OrderedGet(collapsed, "anyOf");
    case _ =>
  }

  lemma {:induction false} ItemsNormal(items: seq<Json>)
    requires forall i :: 0 <= i < |items| ==> WellFormed(items[i])
    requires NormalizeAll(items).Ok?
    ensures forall i :: 0 <= i < |items| ==> NormalForm(NormalizeAll(items).value[i])
    decreases items
  {
    if items != [] {
      ItemsNormal(items[..|items| - 1]);
      ResultIsNormal(items[|items| - 1]);
    }
  }

  lemma {:induction false} FieldsNormal(fields: seq<Field>)
    requires forall i :: 0 <= i < |fields| ==> WellFormed(fields[i].value)
    requires NormalizeFields(fields).Ok?
    ensures var all := NormalizeFields(fields).value; Distinct(all) && Clean(all) && ValuesNormal(all)
    decreases fields
  {
    if fields != [] {
      var init, last := fields[..|fields| - 1], fields[|fields| - 1];
      FieldsNormal(init);
      if last.key != "title" {
        var before, value := NormalizeFields(init).value, Normalize(last.value).value;
        ResultIsNormal(last.value);
        PutDistinct(before, last.key, value);
        PutNormal(before, last.key, value);
        PutGet(before, last.key, value, "title");
        PutGet(before, last.key, value, "default");
      }
    }
  }

  /** What is in normal form is left exactly as it is, including the order of the keys. */
  lemma {:induction false} NormalIsFixed(v: Json)
    requires NormalForm(v)
    ensures Normalize(v) == Ok(v)
    decreases v
  {
    match v
    case List(items) =>
      ItemsFixed(items);
    case Object(fields) =>
      FieldsFixed(fields);
      OrderedAlready(fields, PREFERRED);
    case _ =>
  }

  lemma {:induction false} ItemsFixed(items: seq<Json>)
    requires forall i :: 0 <= i < |items| ==> NormalForm(items[i])
    ensures NormalizeAll(items) == Ok(items)
    decreases items
  {
    if items != [] {
      ItemsFixed(items[..|items| - 1]);
      NormalIsFixed(items[|items| - 1]);
      assert items == items[..|items| - 1] + [items[|items| - 1]];
    }
  }

  lemma {:induction false} FieldsFixed(fields: seq<Field>)
    requires Distinct(fields) && ValuesNormal(fields) && Clean(fields)
    ensures NormalizeFields(fields) == Ok(fields)
    decreases fields
  {
    if fields != [] {
      var init, last := fields[..|fields| - 1], fields[|fields| - 1];
      assert fields == init + [last];
      GetConcat(init, [last], "title");
      GetConcat(init, [last], "default");
      GetMisses(init, last.key);
      FieldsFixed(init);
      NormalIsFixed(last.value);
      PutAppends(init, last.key, last.value);
    }
  }

  lemma NormalizeIsIdempotent(v: Json)
    requires WellFormed(v) && Normalize(v).Ok?
    ensures Normalize(Normalize(v).value) == Normalize(v)
  {
    ResultIsNormal(v);
    NormalIsFixed(Normalize(v).value);
  }

  // ----- what an object means afterwards -----

  /** What normalising keeps of one entry. */
  function Kept(key: string, value: Json): Option<Json> {
    if key == "title" || Normalize(value).Err? then None
    else if key == "default" && Normalize(value).value.Null? then None
    else Some(Normalize(value).value)
  }

  lemma {:induction false} FieldsLookup(fields: seq<Field>, q: string)
    requires Distinct(fields) && NormalizeFields(fields).Ok?
    ensures Get(NormalizeFields(fields).value, q) ==
            if Get(fields, q).None? then None else Kept(q, Get(fields, q).value)
    decreases fields
  {
    if fields != [] {
      var init, last := fields[..|fields| - 1], fields[|fields| - 1];
      assert fields == init + [last];
      GetConcat(init, [last], q);
      GetMisses(init, last.key);
      FieldsLookup(init, q);
      if Kept(last.key, last.value).Some? {
        PutGet(NormalizeFields(init).value, last.key, Kept(last.key, last.value).value, q);
      }
    }
  }

  /** Each key of the result: the entry's own normalised value where there is one; and where the
      `anyOf` collapsed, the value of the single variant for the other keys. */
  lemma ObjectLookup(fields: seq<Field>, q: string)
    requires WellFormed(Object(fields)) && Normalize(Object(fields)).Ok?
    ensures Normalize(Object(fields)).value.Object?
    ensures var own := if Get(fields, q).None? then None else Kept(q, Get(fields, q).value);
            var anyOf := if Get(fields, "anyOf").None? then None else Kept("anyOf", Get(fields, "anyOf").value);
            Get(Normalize(Object(fields)).value.fields, q) ==
            if anyOf.Some? && Collapses(anyOf.value) && (q == "anyOf" || own.None?)
            then Get(NonNull(anyOf.value.items)[0].fields, q)
            else own
  {
    var all := NormalizeFields(fields).value;
    FieldsLookup(fields, q);
    FieldsLookup(fields, "anyOf");
    FieldsNormal(fields);
    var anyOf := Get(all, "anyOf");
    if anyOf.Some? && Collapses(anyOf.value) {
      var at := GetFinds(all, "anyOf");
      var i := NonNullFrom(anyOf.value.items);
      assert NormalForm(anyOf.value.items[i]);
      MergeLaws(anyOf.value.items[i].fields, all, q);
    }
    OrderedGet(Collapse(all).value, q);
  }

  /** The schema that a `None` leaves in an optional type. */
  const NULL_SCHEMA: Json := Object([Field("type", Text("null"))])

  /** Of these variants, only the i-th says anything but `None`. */
  ghost predicate OnlyVariant(variants: seq<Json>, i: nat) {
    && i < |variants| && variants[i].Object? && variants[i] != NULL_SCHEMA
    && forall j :: 0 <= j < |variants| && j != i ==> variants[j] == NULL_SCHEMA
  }

  lemma NullVariantIsNullSchema(v: Json)
    ensures IsNullVariant(v) <==> v == NULL_SCHEMA
  {
    if IsNullVariant(v) {
      assert v.fields[0].key == "type" || Get(v.fields[1..], "type").None?;
      assert v.fields == [v.fields[0]];
    }
  }

  lemma {:induction false} NonNullNone(items: seq<Json>)
    ensures NonNull(items) == [] <==> forall j :: 0 <= j < |items| ==> items[j] == NULL_SCHEMA
  {
    if items != [] {
      NullVariantIsNullSchema(items[0]);
      NonNullNone(items[1..]);
      assert forall j :: 1 <= j < |items| ==> items[j] == items[1..][j - 1];
    }
  }

  lemma {:induction false} NonNullOne(items: seq<Json>, i: nat)
    requires i < |items| && items[i] != NULL_SCHEMA
    ensures NonNull(items) == [items[i]] <==> forall j :: 0 <= j < |items| && j != i ==> items[j] == NULL_SCHEMA
    ensures |NonNull(items)| == 1 ==> NonNull(items) == [items[i]]
  {
    NullVariantIsNullSchema(items[0]);
    assert forall j :: 1 <= j < |items| ==> items[j] == items[1..][j - 1];
    if i == 0 {
      NonNullNone(items[1..]);
    } else {
      NonNullOne(items[1..], i - 1);
      NonNullNone(items[1..]);
      assert items[1..][i - 1] != NULL_SCHEMA;
    }
  }

  lemma CollapsesExactly(variants: seq<Json>)
    ensures Collapses(List(variants)) <==> exists i: nat :: OnlyVariant(variants, i)
    ensures forall i: nat :: OnlyVariant(variants, i) ==> NonNull(variants) == [variants[i]]
  {
    forall i: nat | OnlyVariant(variants, i) ensures NonNull(variants) == [variants[i]] {
      NonNullOne(variants, i);
    }
    if Collapses(List(variants)) {
      var i := NonNullFrom(variants);
      NullVariantIsNullSchema(variants[i]);
      NonNullKeeps(variants);
      NonNullOne(variants, i);
      assert OnlyVariant(variants, i);
    }
  }

  lemma {:induction false} NonNullKeeps(items: seq<Json>)
    ensures forall v :: v in NonNull(items) ==> !IsNullVariant(v)
  {
    if items != [] {
      NonNullKeeps(items[1..]);
    }
  }

  lemma {:induction false} ItemsLookup(items: seq<Json>)
    requires NormalizeAll(items).Ok?
    ensures forall i :: 0 <= i < |items| ==> Normalize(items[i]) == Ok(NormalizeAll(items).value[i])
    decreases |items|
  {
    if items != [] {
      ItemsLookup(items[..|items| - 1]);
    }
  }

  /** An `anyOf` list of which, normalised, all but one object are `{"type": "null"}` is gone from the
      result, which has that object's entries wherever it has none of its own; any other `anyOf` list is
      kept, with each of its variants normalised. */
  lemma OptionalCollapses(fields: seq<Field>, items: seq<Json>, q: string)
    requires WellFormed(Object(fields)) && Normalize(Object(fields)).Ok?
    requires Get(fields, "anyOf") == Some(List(items))
    ensures NormalizeAll(items).Ok?
    ensures var variants, result := NormalizeAll(items).value, Normalize(Object(fields)).value.fields;
            var own := if Get(fields, q).None? then None else Kept(q, Get(fields, q).value);
            && (forall i :: 0 <= i < |items| ==> Normalize(items[i]) == Ok(variants[i]))
            && (forall i: nat :: OnlyVariant(variants, i) ==>
                  Get(result, q) == if q == "anyOf" || own.None? then Get(variants[i].fields, q) else own)
            && ((forall i: nat :: !OnlyVariant(variants, i)) ==> Get(result, "anyOf") == Some(List(variants)))
  {
    AnyOfKept(fields, items);
    hide Normalize, NormalizeAll, Kept, Collapses, NonNull, WellFormed;
    ItemsLookup(items);
    var variants := NormalizeAll(items).value;
    CollapsesExactly(variants);
    ObjectLookup(fields, q);
    ObjectLookup(fields, "anyOf");
  }

  lemma AnyOfKept(fields: seq<Field>, items: seq<Json>)
    requires WellFormed(Object(fields)) && Normalize(Object(fields)).Ok?
    requires Get(fields, "anyOf") == Some(List(items))
    ensures NormalizeAll(items).Ok? && Kept("anyOf", List(items)) == Some(List(NormalizeAll(items).value))
  {
    FieldOk(fields, "anyOf");
  }

  lemma {:induction false} FieldOk(fields: seq<Field>, q: string)
    requires NormalizeFields(fields).Ok? && q != "title" && Get(fields, q).Some?
    ensures Normalize(Get(fields, q).value).Ok?
    decreases |fields|
  {
    var init, last := fields[..|fields| - 1], fields[|fields| - 1];
    assert fields == init + [last];
    GetConcat(init, [last], q);
    if Get(init, q).Some? {
      FieldOk(init, q);
    }
  }

  // ----- when it fails -----

  /** Somewhere outside a `title`, an `anyOf` is a null, a boolean or a number. */
  ghost predicate HasScalarAnyOf(v: Json)
    decreases v
  {
    match v
    case List(items) => exists i :: 0 <= i < |items| && HasScalarAnyOf(items[i])
    case Object(fields) =>
      exists i :: 0 <= i < |fields| && fields[i].key != "title" &&
                  (HasScalarAnyOf(fields[i].value) || (fields[i].key == "anyOf" && !Iterable(fields[i].value)))
    case _ => false
  }

  lemma {:induction false} FailsExactlyOnScalarAnyOf(v: Json)
    requires WellFormed(v)
    ensures Normalize(v).Err? <==> HasScalarAnyOf(v)
    ensures Normalize(v).Ok? ==> (Iterable(v) <==> Iterable(Normalize(v).value))
    decreases v
  {
    match v
    case List(items) =>
      ItemsFail(items);
    case Object(fields) =>
      FieldsFail(fields);
      if NormalizeFields(fields).Ok? {
        FieldsLookup(fields, "anyOf");
        if Get(fields, "anyOf").Some? {
          var i := GetFinds(fields, "anyOf");
          FailsExactlyOnScalarAnyOf(fields[i].value);
        } else {
          GetMisses(fields, "anyOf");
        }
      }
    case _ =>
  }

  lemma {:induction false} ItemsFail(items: seq<Json>)
    requires forall i :: 0 <= i < |items| ==> WellFormed(items[i])
    ensures NormalizeAll(items).Err? <==> exists i :: 0 <= i < |items| && HasScalarAnyOf(items[i])
    decreases items
  {
    if items != [] {
      ItemsFail(items[..|items| - 1]);
      FailsExactlyOnScalarAnyOf(items[|items| - 1]);
    }
  }

  lemma {:induction false} FieldsFail(fields: seq<Field>)
    requires forall i :: 0 <= i < |fields| ==> WellFormed(fields[i].value)
    ensures NormalizeFields(fields).Err? <==>
            exists i :: 0 <= i < |fields| && fields[i].key != "title" && HasScalarAnyOf(fields[i].value)
    decreases fields
  {
    if fields != [] {
      FieldsFail(fields[..|fields| - 1]);
      FailsExactlyOnScalarAnyOf(fields[|fields| - 1].value);
    }
  }

  // ----- the loops -----

  lemma {:induction false} ChosenSnoc(fields: seq<Field>, keys: seq<string>, key: string)
    ensures Chosen(fields, keys + [key]) ==
            Chosen(fields, keys) + if Get(fields, key).Some? then [Field(key, Get(fields, key).value)] else []
  {
    if keys == [] {
      assert [key][1..] == [];
      assert Chosen(fields, []) == [];
    } else {
      assert (keys + [key])[1..] == keys[1..] + [key];
      ChosenSnoc(fields, keys[1..], key);
      var head := if Get(fields, keys[0]).Some? then [Field(keys[0], Get(fields, keys[0]).value)] else [];
      var last := if Get(fields, key).Some? then [Field(key, Get(fields, key).value)] else [];
      assert head + (Chosen(fields, keys[1..]) + last) == head + Chosen(fields, keys[1..]) + last;
    }
  }

  lemma {:induction false} OthersSnoc(fields: seq<Field>, keys: seq<string>, key: string)
    ensures Others(fields, keys + [key]) == Others(Others(fields, keys), [key])
  {
    if fields != [] {
      OthersSnoc(fields[1..], keys, key);
      assert fields[0].key in keys + [key] <==> fields[0].key in keys || fields[0].key == key;
      if fields[0].key !in keys {
        assert ([fields[0]] + Others(fields[1..], keys))[1..] == Others(fields[1..], keys);
      } else {
        assert [] + Others(fields[1..], keys) == Others(fields[1..], keys);
      }
    }
  }

  /** The preferred keys first, each popped from what is left; then the rest. */
  method OrderKeys(fields: seq<Field>) returns (ordered: seq<Field>)
    ensures ordered == Ordered(fields)
  {
    ordered := [];
    var left := fields;
    OthersNothing(fields);
    for i := 0 to |PREFERRED|
      invariant ordered == Chosen(fields, PREFERRED[..i]) && left == Others(fields, PREFERRED[..i])
    {
      var key := PREFERRED[i];
      assert PREFERRED[..i + 1] == PREFERRED[..i] + [key];
      assert key !in PREFERRED[..i];
      ChosenSnoc(fields, PREFERRED[..i], key);
      OthersSnoc(fields, PREFERRED[..i], key);
      OthersGet(fields, PREFERRED[..i], key);
      var value := Get(left, key);
      if value.Some? {
        ordered := ordered + [Field(key, value.value)];
        left := Others(left, [key]);
      } else {
        GetMisses(left, key);
        OthersAll(left, key);
      }
    }
    assert PREFERRED[..|PREFERRED|] == PREFERRED;
    ordered := ordered + left;
  }

  lemma {:induction false} OthersAll(fields: seq<Field>, key: string)
    requires forall i :: 0 <= i < |fields| ==> fields[i].key != key
    ensures Others(fields, [key]) == fields
  {
    if fields != [] {
      OthersAll(fields[1..], key);
    }
  }

  method NonNullVariants(items: seq<Json>) returns (variants: seq<Json>)
    ensures variants == NonNull(items)
  {
    variants := [];
    for i := 0 to |items|
      invariant variants + NonNull(items[i..]) == NonNull(items)
    {
      if !IsNullVariant(items[i]) {
        variants := variants + [items[i]];
      }
      assert items[i..][1..] == items[i + 1..];
    }
  }

  method MergeInto(variant: seq<Field>, outer: seq<Field>) returns (merged: seq<Field>)
    ensures merged == Merge(variant, outer)
  {
    merged := variant;
    for i := 0 to |outer|
      invariant merged == Merge(variant, outer[..i])
    {
      assert outer[..i + 1][..i] == outer[..i];
      if outer[i].key != "anyOf" {
        merged := Put(merged, outer[i].key, outer[i].value);
      }
    }
    assert outer[..|outer|] == outer;
  }

  method NormalizeJsonSchema(value: Json) returns (result: Result<Json, TypeError>)
    ensures result == Normalize(value)
    decreases value
  {
    match value
    case List(items) =>
      var all: seq<Json> := [];
      for i := 0 to |items|
        invariant NormalizeAll(items[..i]) == Ok(all)
      {
        assert items[..i + 1][..i] == items[..i];
        var item := NormalizeJsonSchema(items[i]);
        if item.Err? {
          FailsOnPrefix(items, i + 1);
          return Err(item.error);
        }
        all := all + [item.value];
      }
      assert items[..|items|] == items;
      return Ok(List(all));
    case Object(fields) =>
      var normalized: seq<Field> := [];
      for i := 0 to |fields|
        invariant NormalizeFields(fields[..i]) == Ok(normalized)
      {
        assert fields[..i + 1][..i] == fields[..i];
        if fields[i].key != "title" {
          var item := NormalizeJsonSchema(fields[i].value);
          if item.Err? {
            FieldsFailOnPrefix(fields, i + 1);
            return Err(item.error);
          }
          if fields[i].key != "default" || !item.value.Null? {
            normalized := Put(normalized, fields[i].key, item.value);
          }
        }
      }
      assert fields[..|fields|] == fields;
      var anyOf := Get(normalized, "anyOf");
      if anyOf.Some? {
        if !Iterable(anyOf.value) {
          return Err(NotIterable);
        }
        if anyOf.value.List? {
          var variants := NonNullVariants(anyOf.value.items);
          if |variants| == 1 && variants[0].Object? {
            normalized := MergeInto(variants[0].fields, normalized);
          }
        }
      }
      var ordered := OrderKeys(normalized);
      return Ok(Object(ordered));
    case _ =>
      return Ok(value);
  }

  lemma {:induction false} FailsOnPrefix(items: seq<Json>, k: nat)
    requires k <= |items| && NormalizeAll(items[..k]).Err?
    ensures NormalizeAll(items) == NormalizeAll(items[..k])
    decreases |items|
  {
    if k < |items| {
      assert items[..|items| - 1][..k] == items[..k];
      FailsOnPrefix(items[..|items| - 1], k);
    } else {
      assert items[..k] == items;
    }
  }

  lemma {:induction false} FieldsFailOnPrefix(fields: seq<Field>, k: nat)
    requires k <= |fields| && NormalizeFields(fields[..k]).Err?
    ensures NormalizeFields(fields) == NormalizeFields(fields[..k])
    decreases |fields|
  {
    if k < |fields| {
      assert fields[..|fields| - 1][..k] == fields[..k];
      FieldsFailOnPrefix(fields[..|fields| - 1], k);
    } else {
      assert fields[..k] == fields;
    }
  }

  // ----- two cases -----

  lemma ScalarAnyOfFails()
    ensures Normalize(Object([Field("anyOf", Null)])) == Err(NotIterable)
  {
    var field := Field("anyOf", Null);
    assert [field][..0] == [] && [field][..|[field]| - 1] == [];
    assert NormalizeFields([field]) == Ok([field]);
  }

  /** A property that is named `title`: whatever its schema is, it is dropped as if it were a title. */
  lemma TitlePropertyIsDropped(schema: Json)
    ensures Normalize(Object([Field("properties", Object([Field("title", schema)]))])) ==
            Ok(Object([Field("properties", Object([]))]))
  {
    var title := Field("title", schema);
    assert [title][..|[title]| - 1] == [];
    assert NormalizeFields([title]) == Ok([]);
    EmptyObject();
    assert Normalize(Object([title])) == Ok(Object([]));
    OneProperty(Object([title]), Object([]));
  }

  lemma EmptyObject()
    ensures Ordered([]) == [] && Collapse([]) == Ok([])
  {
  }

  lemma OneProperty(before: Json, after: Json)
    requires Normalize(before) == Ok(after)
    ensures Normalize(Object([Field("properties", before)])) == Ok(Object([Field("properties", after)]))
  {
    var field, result := Field("properties", before), Field("properties", after);
    assert [field][..|[field]| - 1] == [];
    assert NormalizeFields([field]) == Ok([result]);
    assert [result][1..] == [];
    assert Get([result], "anyOf").None?;
    OrderedAlready([result], PREFERRED);
  }
}

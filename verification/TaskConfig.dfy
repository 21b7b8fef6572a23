/** Composing task configurations: file defaults, then the sample's values, then the runtime model. */
module TaskConfig {
  import opened Sequences

  /** A configuration value; lists and scalars are replaced whole, so they are atoms here. */
  datatype Value = Null | Text(s: string) | Atom(n: int) | Dict(entries: map<string, Value>)

  type Path = seq<string>

  function DeepMerge(base: Value, override: Value): Value
    decreases override
  {
    if !base.Dict? || !override.Dict? then override
    else
      Dict(map key | key in base.entries.Keys + override.entries.Keys ::
             if key !in override.entries then base.entries[key]
             else if key in base.entries then DeepMerge(base.entries[key], override.entries[key])
             else override.entries[key])
  }

  // ----- the law of paths -----

  function Lookup(v: Value, path: Path): Option<Value> {
    if path == [] then Some(v)
    else if v.Dict? && path[0] in v.entries then Lookup(v.entries[path[0]], path[1..])
    else None
  }

  /** An override is set at the path itself or, as something other than a dictionary, above it. */
  predicate Touches(v: Value, path: Path) {
    !v.Dict? || path == [] || (path[0] in v.entries && Touches(v.entries[path[0]], path[1..]))
  }

  lemma {:induction false} UntouchedIsAbsent(v: Value, path: Path)
    requires !Touches(v, path)
    ensures Lookup(v, path).None?
    decreases path
  {
    if path[0] in v.entries {
      UntouchedIsAbsent(v.entries[path[0]], path[1..]);
    }
  }

  /** What a merge holds at each path: the override's value, merged there with the base's if both are
      dictionaries; nothing below an override that is no dictionary; and the base's value where no
      override touches the path. */
  lemma {:induction false} PathLaw(base: Value, override: Value, path: Path)
    ensures Lookup(DeepMerge(base, override), path) ==
            if base.Dict? && !Touches(override, path) then Lookup(base, path)
            else if Lookup(override, path).None? then None
            else if Lookup(base, path).None? then Lookup(override, path)
            else Some(DeepMerge(Lookup(base, path).value, Lookup(override, path).value))
    decreases path
  {
    if !Touches(override, path) {
      UntouchedIsAbsent(override, path);
    }
    if path != [] && base.Dict? && override.Dict? {
      var key := path[0];
      if key in base.entries && key in override.entries {
        PathLaw(base.entries[key], override.entries[key], path[1..]);
      }
    }
  }

  /** An override that is no dictionary wins at its path. */
  lemma OverrideLeafWins(base: Value, override: Value, path: Path, leaf: Value)
    requires Lookup(override, path) == Some(leaf) && !leaf.Dict?
    ensures Lookup(DeepMerge(base, override), path) == Some(leaf)
  {
    PathLaw(base, override, path);
    if !Touches(override, path) {
      UntouchedIsAbsent(override, path);
    }
  }

  /** Merging the same overrides twice is merging them once. */
  lemma {:induction false} MergeIsIdempotent(base: Value, override: Value)
    ensures DeepMerge(DeepMerge(base, override), override) == DeepMerge(base, override)
    ensures DeepMerge(override, override) == override
    decreases override
  {
    if override.Dict? {
      forall key | key in override.entries
        ensures DeepMerge(override.entries[key], override.entries[key]) == override.entries[key]
        ensures base.Dict? && key in base.entries ==>
                  DeepMerge(DeepMerge(base.entries[key], override.entries[key]), override.entries[key]) ==
                  DeepMerge(base.entries[key], override.entries[key])
      {
        MergeIsIdempotent(if base.Dict? && key in base.entries then base.entries[key] else Null, override.entries[key]);
      }
      assert DeepMerge(override, override).entries == override.entries;
      if base.Dict? {
        assert DeepMerge(DeepMerge(base, override), override).entries == DeepMerge(base, override).entries;
      }
    }
  }

  /** Merging is not associative: a scalar in the middle cuts off what the first one had. */
  lemma ScalarCutsOff(key: string, a: Value, c: Value)
    requires a.Dict? && c.Dict? && DeepMerge(a, c) != c
    ensures var first, middle, last := Dict(map[key := a]), Dict(map[key := Null]), Dict(map[key := c]);
            DeepMerge(DeepMerge(first, middle), last) != DeepMerge(first, DeepMerge(middle, last))
  {
    var first, middle, last := Dict(map[key := a]), Dict(map[key := Null]), Dict(map[key := c]);
    assert Lookup(DeepMerge(DeepMerge(first, middle), last), [key]) == Some(c);
    assert Lookup(DeepMerge(first, DeepMerge(middle, last)), [key]) == Some(DeepMerge(a, c));
  }

  /** The middle one is no dictionary and the outer two are, here or below a key that all three have, and
      the last one alone is not what the outer two make together. */
  predicate CutsOff(a: Value, b: Value, c: Value)
    decreases c
  {
    a.Dict? && c.Dict? &&
    if !b.Dict? then DeepMerge(a, c) != c
    else exists key :: key in c.entries && key in a.entries && key in b.entries &&
                       CutsOff(a.entries[key], b.entries[key], c.entries[key])
  }

  /** Merging is associative exactly where nothing is cut off. */
  lemma {:induction false} AssociativeExactly(a: Value, b: Value, c: Value)
    ensures DeepMerge(DeepMerge(a, b), c) == DeepMerge(a, DeepMerge(b, c)) <==> !CutsOff(a, b, c)
    decreases c
  {
    if a.Dict? && b.Dict? && c.Dict? {
      var left, right := DeepMerge(DeepMerge(a, b), c), DeepMerge(a, DeepMerge(b, c));
      assert left.entries.Keys == right.entries.Keys;
      forall key | key in left.entries
        ensures left.entries[key] == right.entries[key] <==>
                !(key in c.entries && key in a.entries && key in b.entries &&
                  CutsOff(a.entries[key], b.entries[key], c.entries[key]))
      {
        AssociativeAt(a, b, c, key);
        if key in c.entries && key in a.entries && key in b.entries {
          AssociativeExactly(a.entries[key], b.entries[key], c.entries[key]);
        }
      }
      assert left == right <==> forall key :: key in left.entries ==> left.entries[key] == right.entries[key];
    }
  }

  lemma AssociativeAt(a: Value, b: Value, c: Value, key: string)
    requires a.Dict? && b.Dict? && c.Dict? && key in DeepMerge(DeepMerge(a, b), c).entries
    ensures key in DeepMerge(a, DeepMerge(b, c)).entries
    ensures var left, right := DeepMerge(DeepMerge(a, b), c), DeepMerge(a, DeepMerge(b, c));
            if key in a.entries && key in b.entries && key in c.entries then
              && left.entries[key] == DeepMerge(DeepMerge(a.entries[key], b.entries[key]), c.entries[key])
              && right.entries[key] == DeepMerge(a.entries[key], DeepMerge(b.entries[key], c.entries[key]))
            else left.entries[key] == right.entries[key]
  {
  }

  /** A copy of the base into which all overrides but those of the keys in `left` are merged. */
  ghost predicate Partly(base: map<string, Value>, overrides: map<string, Value>, expected: map<string, Value>,
                         left: set<string>, result: map<string, Value>)
  {
    && left <= overrides.Keys
    && (forall key :: key in result <==> key in base || (key in overrides && key !in left))
    && (forall key :: key in left && key in base ==> result[key] == base[key])
    && (forall key :: key in result && key !in left ==> key in expected && result[key] == expected[key])
  }

  lemma MergeOneKey(base: map<string, Value>, overrides: map<string, Value>, expected: map<string, Value>,
                    left: set<string>, result: map<string, Value>, key: string)
    requires Partly(base, overrides, expected, left, result) && key in left && key in expected
    ensures Partly(base, overrides, expected, left - {key}, result[key := expected[key]])
  {
  }

  /** The loop of the source: the overrides are merged into a copy of the base key by key. */
  method DeepMergeDicts(base: Value, override: Value) returns (merged: Value)
    ensures merged == DeepMerge(base, override)
    decreases override
  {
    hide DeepMerge;
    if !base.Dict? || !override.Dict? {
      NoDictReplaces(base, override);
      return override;
    }
    var result := base.entries;
    var left := override.entries.Keys;
    KeysOfMerge(base, override);
    ghost var expected := DeepMerge(base, override).entries;
    while left != {}
      invariant Partly(base.entries, override.entries, expected, left, result)
      decreases |left|
    {
      var key :| key in left;
      var value := override.entries[key];
      EntryOfMerge(base, override, key);
      MergeOneKey(base.entries, override.entries, expected, left, result, key);
      if value.Dict? && key in result && result[key].Dict? {
        value := DeepMergeDicts(result[key], value);
      }
      result := result[key := value];
      left := left - {key};
    }
    assert result == expected;
    return Dict(result);
  }

  lemma NoDictReplaces(base: Value, override: Value)
    requires !base.Dict? || !override.Dict?
    ensures DeepMerge(base, override) == override
  {
  }

  lemma KeysOfMerge(base: Value, override: Value)
    requires base.Dict? && override.Dict?
    ensures DeepMerge(base, override).Dict?
    ensures var expected := DeepMerge(base, override).entries;
            && expected.Keys == base.entries.Keys + override.entries.Keys
            && forall key :: key in expected && key !in override.entries ==> expected[key] == base.entries[key]
  {
  }

  lemma EntryOfMerge(base: Value, override: Value, key: string)
    requires base.Dict? && override.Dict? && key in override.entries
    ensures DeepMerge(base, override).Dict? && key in DeepMerge(base, override).entries
    ensures DeepMerge(base, override).entries[key] ==
            if key in base.entries && base.entries[key].Dict? && override.entries[key].Dict?
            then DeepMerge(base.entries[key], override.entries[key]) else override.entries[key]
  {
  }

  // ----- resolving a sample -----

  datatype Error = NameRequired | UnknownTask

  predicate Truthy(v: Value) {
    match v
    case Null => false
    case Text(s) => s != ""
    case Atom(n) => n != 0
    case Dict(entries) => entries != map[]
  }

  function Binding(runtimeModel: map<string, Value>): map<string, Value> {
    map key | key in runtimeModel && !runtimeModel[key].Null? :: runtimeModel[key]
  }

  function WithTemplate(resolved: map<string, Value>, defaults: map<string, Value>): map<string, Value> {
    if "prompt_template" in defaults then resolved["prompt_template" := defaults["prompt_template"]] else resolved
  }

  function RuntimeOverride(binding: map<string, Value>): Value {
    Dict(map["agent" := Dict(map["model" := Dict(binding)])])
  }

  function Composed(defaults: map<string, Value>, sample: map<string, Value>, binding: map<string, Value>): Value {
    var merged := DeepMerge(Dict(defaults), Dict(sample)).entries;
    var resolved := Dict(WithTemplate(merged, defaults));
    if binding == map[] then resolved else DeepMerge(resolved, RuntimeOverride(binding))
  }

  method Resolve(defaultsByName: map<string, map<string, Value>>, sample: map<string, Value>,
                 runtimeModel: map<string, Value>) returns (result: Result<Value, Error>)
    ensures result ==
            if "name" !in sample || !Truthy(sample["name"]) then Err(NameRequired)
            else if defaultsByName == map[] then Ok(Composed(map[], sample, Binding(runtimeModel)))
            else if !sample["name"].Text? || sample["name"].s !in defaultsByName then Err(UnknownTask)
            else Ok(Composed(defaultsByName[sample["name"].s], sample, Binding(runtimeModel)))
    ensures result == Err(NameRequired) <==>
            "name" in sample ==> sample["name"] in {Null, Text(""), Atom(0), Dict(map[])}
  {
    if "name" !in sample || !Truthy(sample["name"]) {
      return Err(NameRequired);
    }
    var name := sample["name"];
    if defaultsByName != map[] && (!name.Text? || name.s !in defaultsByName) {
      return Err(UnknownTask);
    }
    var defaults: map<string, Value> :=
      if name.Text? && name.s in defaultsByName then defaultsByName[name.s] else map[];
    var resolved := DeepMergeDicts(Dict(defaults), Dict(sample));
    if "prompt_template" in defaults {
      resolved := Dict(resolved.entries["prompt_template" := defaults["prompt_template"]]);
    }
    var binding := Binding(runtimeModel);
    if binding != map[] {
      resolved := DeepMergeDicts(resolved, Dict(map["agent" := Dict(map["model" := Dict(binding)])]));
    }
    return Ok(resolved);
  }

  /** A file's prompt template is taken as it is, whatever the sample and the runtime say. */
  lemma FileTemplateWins(defaults: map<string, Value>, sample: map<string, Value>, binding: map<string, Value>,
                         rest: Path)
    requires "prompt_template" in defaults
    ensures Lookup(Composed(defaults, sample, binding), ["prompt_template"] + rest) ==
            Lookup(defaults["prompt_template"], rest)
  {
    var path := ["prompt_template"] + rest;
    assert path[1..] == rest;
    if binding != map[] {
      PathLaw(Composed(defaults, sample, map[]), RuntimeOverride(binding), path);
    }
  }

  /** Every value of the runtime's model that is not null reaches the result: whatever is no dictionary
      in it wins at its path. */
  lemma RuntimeLeafWins(defaults: map<string, Value>, sample: map<string, Value>, runtimeModel: map<string, Value>,
                        key: string, rest: Path, leaf: Value)
    requires key in runtimeModel && !runtimeModel[key].Null?
    requires Lookup(runtimeModel[key], rest) == Some(leaf) && !leaf.Dict?
    ensures Lookup(Composed(defaults, sample, Binding(runtimeModel)), ["agent", "model", key] + rest) == Some(leaf)
  {
    var binding := Binding(runtimeModel);
    assert ([key] + rest)[1..] == rest && ["agent", "model", key] + rest == ["agent", "model"] + ([key] + rest);
    UnderModel(binding, [key] + rest);
    OverrideLeafWins(Composed(defaults, sample, map[]), RuntimeOverride(binding), ["agent", "model", key] + rest, leaf);
  }

  /** A null of the runtime's model changes nothing: its key is as it would be without the runtime. */
  lemma RuntimeNullIsIgnored(defaults: map<string, Value>, sample: map<string, Value>,
                             runtimeModel: map<string, Value>, key: string, rest: Path)
    requires key in runtimeModel ==> runtimeModel[key].Null?
    ensures Lookup(Composed(defaults, sample, Binding(runtimeModel)), ["agent", "model", key] + rest) ==
            Lookup(Composed(defaults, sample, map[]), ["agent", "model", key] + rest)
  {
    var binding := Binding(runtimeModel);
    assert ["agent", "model", key] + rest == ["agent", "model"] + ([key] + rest);
    UnderModel(binding, [key] + rest);
    PathLaw(Composed(defaults, sample, map[]), RuntimeOverride(binding), ["agent", "model", key] + rest);
  }

  lemma UnderModel(binding: map<string, Value>, rest: Path)
    ensures Lookup(RuntimeOverride(binding), ["agent", "model"] + rest) == Lookup(Dict(binding), rest)
    ensures Touches(RuntimeOverride(binding), ["agent", "model"] + rest) <==> Touches(Dict(binding), rest)
  {
    var path := ["agent", "model"] + rest;
    assert path[1..] == ["model"] + rest && path[1..][1..] == rest;
  }

  /** What one layer makes of the layers below it, at one path. */
  function Over(below: Option<Value>, layer: Value, path: Path): Option<Value> {
    if !Touches(layer, path) then below
    else if Lookup(layer, path).None? then None
    else if below.None? then Lookup(layer, path)
    else Some(DeepMerge(below.value, Lookup(layer, path).value))
  }

  /** All three layers at every path: the file's defaults, over them the sample (but not over a file's
      prompt template), and over both what the runtime binds. */
  lemma ComposedLaw(defaults: map<string, Value>, sample: map<string, Value>, binding: map<string, Value>, path: Path)
    requires path != []
    ensures var file := Lookup(Dict(defaults), path);
            var chosen := if path[0] == "prompt_template" && "prompt_template" in defaults then file
                          else Over(file, Dict(sample), path);
            Lookup(Composed(defaults, sample, binding), path) ==
            if binding == map[] then chosen else Over(chosen, RuntimeOverride(binding), path)
  {
    PathLaw(Dict(defaults), Dict(sample), path);
    if binding != map[] {
      PathLaw(Composed(defaults, sample, map[]), RuntimeOverride(binding), path);
    }
  }

  /** Where the runtime binds nothing, and for every key but a file's template, the sample ranks above
      the file: its leaves win, and a default survives where the sample does not touch its path. */
  lemma SampleRanksAboveFile(defaults: map<string, Value>, sample: map<string, Value>, binding: map<string, Value>,
                             path: Path)
    requires path != [] && (path[0] == "prompt_template" ==> "prompt_template" !in defaults)
    requires binding != map[] ==> !Touches(RuntimeOverride(binding), path)
    ensures Lookup(Composed(defaults, sample, binding), path) ==
            if !Touches(Dict(sample), path) then Lookup(Dict(defaults), path)
            else if Lookup(Dict(sample), path).None? then None
            else if Lookup(Dict(defaults), path).None? then Lookup(Dict(sample), path)
            else Some(DeepMerge(Lookup(Dict(defaults), path).value, Lookup(Dict(sample), path).value))
  {
    PathLaw(Dict(defaults), Dict(sample), path);
    if binding != map[] {
      PathLaw(Composed(defaults, sample, map[]), RuntimeOverride(binding), path);
    }
  }
}

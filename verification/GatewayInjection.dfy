/** Writing gateway addresses and model names into the configuration of an external multi-agent
    system, along dotted paths. */
module GatewayInjection {
  import opened Sequences
  import opened TaskConfig

  datatype InjectionError = NoRoles | EmptyPath | NotAMapping

  // ----- dotted paths -----

  /** Python's `split(".")`. */
  function Components(dotted: string): (parts: seq<string>)
    ensures |parts| >= 1
  {
    if dotted == "" then [""]
    else
      var rest := Components(dotted[1..]);
      if dotted[0] == '.' then [""] + rest else [[dotted[0]] + rest[0]] + rest[1..]
  }

  function NonEmpty(parts: seq<string>): seq<string> {
    if parts == [] then [] else (if parts[0] == "" then [] else [parts[0]]) + NonEmpty(parts[1..])
  }

  /** The keys a dotted path is written along; a lookup uses all `Components` instead. */
  function Keys(dotted: string): seq<string> {
    NonEmpty(Components(dotted))
  }

  ghost predicate WellFormedPath(dotted: string) {
    forall i :: 0 <= i < |Components(dotted)| ==> Components(dotted)[i] != ""
  }

  lemma {:induction false} NonEmptyIsIdentity(parts: seq<string>)
    ensures NonEmpty(parts) == parts <==> forall i :: 0 <= i < |parts| ==> parts[i] != ""
    ensures |NonEmpty(parts)| <= |parts|
  {
    if parts != [] {
      NonEmptyIsIdentity(parts[1..]);
      if parts[0] != "" {
        assert parts == [parts[0]] + parts[1..];
        assert NonEmpty(parts)[1..] == NonEmpty(parts[1..]);
      }
    }
  }

  /** Writing and reading agree on a dotted path exactly when it has no empty component. */
  lemma KeysAreComponents(dotted: string)
    ensures Keys(dotted) == Components(dotted) <==> WellFormedPath(dotted)
  {
    NonEmptyIsIdentity(Components(dotted));
  }

  // ----- setting one path -----

  /** What a key leads to when it is to be written below: a new mapping if it is absent or null. */
  function Child(root: Value, key: string): Value
    requires root.Dict?
  {
    if key in root.entries && !root.entries[key].Null? then root.entries[key] else Dict(map[])
  }

  function SetPath(root: Value, keys: Path, value: Value): Result<Value, InjectionError>
    decreases |keys|
  {
    if keys == [] then Err(EmptyPath)
    else if !root.Dict? then Err(NotAMapping)
    else if |keys| == 1 then Ok(Dict(root.entries[keys[0] := value]))
    else
      var child := Child(root, keys[0]);
      var inner := SetPath(child, keys[1..], value);
      if inner.Err? then inner else Ok(Dict(root.entries[keys[0] := inner.value]))
  }

  function GetNested(root: Value, dotted: string): Option<Value> {
    Lookup(root, Components(dotted))
  }

  ghost predicate Apart(p: Path, q: Path) {
    !(p <= q) && !(q <= p)
  }

  lemma {:induction false} SetThenLookup(root: Value, keys: Path, value: Value, rest: Path)
    requires SetPath(root, keys, value).Ok?
    ensures Lookup(SetPath(root, keys, value).value, keys + rest) == Lookup(value, rest)
    decreases |keys|
  {
    assert (keys + rest)[0] == keys[0] && (keys + rest)[1..] == keys[1..] + rest;
    if |keys| == 1 {
      assert (keys + rest)[1..] == rest;
    } else {
      var child := Child(root, keys[0]);
      SetThenLookup(child, keys[1..], value, rest);
    }
  }

  lemma ApartTail(p: Path, q: Path)
    requires Apart(p, q) && p[0] == q[0]
    ensures Apart(p[1..], q[1..])
  {
    assert p == [p[0]] + p[1..] && q == [q[0]] + q[1..];
  }

  /** Nothing changes at a path that neither leads to the written one nor below it. */
  lemma {:induction false} SetKeepsOthers(root: Value, keys: Path, value: Value, other: Path)
    requires SetPath(root, keys, value).Ok? && Apart(keys, other)
    ensures Lookup(SetPath(root, keys, value).value, other) == Lookup(root, other)
    decreases |keys|
  {
    if other[0] == keys[0] {
      ApartTail(keys, other);
      if |keys| > 1 {
        var child := Child(root, keys[0]);
        SetKeepsOthers(child, keys[1..], value, other[1..]);
        assert other[1..] != [];
      }
    }
  }

  /** Setting fails exactly when the path is empty or something on the way is set to a value that is
      neither null nor a mapping. */
  lemma {:induction false} SetFailsOnScalars(root: Value, keys: Path, value: Value)
    requires root.Dict?
    ensures SetPath(root, keys, value).Err? <==>
            keys == [] || exists n :: 0 < n < |keys| && Blocks(root, keys[..n])
    decreases |keys|
  {
    if |keys| > 1 {
      var child := Child(root, keys[0]);
      assert keys[..1][0] == keys[0] && keys[..1][1..] == [];
      if child.Dict? {
        SetFailsOnScalars(child, keys[1..], value);
        forall n | 0 < n < |keys|
          ensures Blocks(root, keys[..n]) <==> n > 1 && Blocks(child, keys[1..][..n - 1])
        {
          BlocksBelow(root, child, keys, n);
        }
        if n :| 0 < n < |keys[1..]| && Blocks(child, keys[1..][..n]) {
          assert keys[1..][..n] == keys[1..][..(n + 1) - 1];
          assert Blocks(root, keys[..n + 1]);
        }
      } else {
        assert Blocks(root, keys[..1]);
      }
    }
  }

  lemma BlocksBelow(root: Value, child: Value, keys: Path, n: nat)
    requires root.Dict? && child.Dict? && 0 < n < |keys|
    requires child == if keys[0] in root.entries && !root.entries[keys[0]].Null? then root.entries[keys[0]]
                      else Dict(map[])
    ensures Blocks(root, keys[..n]) <==> n > 1 && Blocks(child, keys[1..][..n - 1])
  {
    var path, below := keys[..n], keys[1..][..n - 1];
    assert path[0] == keys[0] && path[1..] == below;
    assert (n > 1) == (below != []);
    if keys[0] in root.entries {
      assert Lookup(root, path) == Lookup(root.entries[keys[0]], below);
    } else {
      assert Lookup(root, path).None?;
    }
  }

  predicate Blocks(root: Value, path: Path) {
    var at := Lookup(root, path);
    at.Some? && !at.value.Null? && !at.value.Dict?
  }

  /** For a path without empty components, a read after the write returns the written value. */
  lemma ReadAfterWrite(root: Value, dotted: string, value: Value)
    requires WellFormedPath(dotted) && SetPath(root, Keys(dotted), value).Ok?
    ensures GetNested(SetPath(root, Keys(dotted), value).value, dotted) == Some(value)
  {
    KeysAreComponents(dotted);
    SetThenLookup(root, Keys(dotted), value, []);
    assert Keys(dotted) + [] == Keys(dotted);
  }

  /** Along components of which some are empty, nothing is found of what was written along the others
      into an empty mapping. */
  lemma {:induction false} EmptyComponentMisses(parts: Path, value: Value)
    requires NonEmpty(parts) != parts && NonEmpty(parts) != [] && !value.Dict?
    ensures var written := SetPath(Dict(map[]), NonEmpty(parts), value);
            written.Ok? && Lookup(written.value, parts).None?
    decreases |parts|
  {
    var keys, rest := NonEmpty(parts), parts[1..];
    SetInEmpty(keys, value);
    if parts[0] == "" {
      NonEmptyHasNoEmpty(parts);
      assert keys[0] != "";
    } else {
      assert keys == [parts[0]] + NonEmpty(rest) && keys[1..] == NonEmpty(rest) && parts == [parts[0]] + rest;
      if NonEmpty(rest) == [] {
        assert rest != [];
        assert SetPath(Dict(map[]), keys, value) == Ok(Dict(map[keys[0] := value]));
      } else {
        EmptyComponentMisses(rest, value);
      }
    }
  }

  lemma {:induction false} SetInEmpty(keys: Path, value: Value)
    requires keys != []
    ensures SetPath(Dict(map[]), keys, value).Ok?
    ensures var written := SetPath(Dict(map[]), keys, value).value;
            written.Dict? && written.entries.Keys == {keys[0]}
  {
    if |keys| > 1 {
      SetInEmpty(keys[1..], value);
    }
  }

  lemma {:induction false} NonEmptyHasNoEmpty(parts: Path)
    ensures forall i :: 0 <= i < |NonEmpty(parts)| ==> NonEmpty(parts)[i] != ""
  {
    if parts != [] {
      NonEmptyHasNoEmpty(parts[1..]);
    }
  }

  /** A read after the write returns the written value, whatever the configuration and the value,
      exactly for the paths without empty components -- and for those that have only empty ones, which
      cannot be written at all. */
  lemma ReadsAfterWritesExactly(dotted: string)
    ensures (forall root, value :: SetPath(root, Keys(dotted), value).Ok? ==>
               GetNested(SetPath(root, Keys(dotted), value).value, dotted) == Some(value)) <==>
            WellFormedPath(dotted) || Keys(dotted) == []
  {
    if WellFormedPath(dotted) {
      forall root, value | SetPath(root, Keys(dotted), value).Ok?
        ensures GetNested(SetPath(root, Keys(dotted), value).value, dotted) == Some(value)
      {
        ReadAfterWrite(root, dotted, value);
      }
    } else if Keys(dotted) != [] {
      KeysAreComponents(dotted);
      EmptyComponentMisses(Components(dotted), Null);
      assert GetNested(SetPath(Dict(map[]), Keys(dotted), Null).value, dotted).None?;
    }
  }

  lemma {:induction false} ComponentsOfPlain(part: string)
    requires '.' !in part
    ensures Components(part) == [part]
  {
    if part != "" {
      ComponentsOfPlain(part[1..]);
      assert part == [part[0]] + part[1..];
    }
  }

  lemma {:induction false} ComponentsAtDot(part: string, rest: string)
    requires '.' !in part
    ensures Components(part + "." + rest) == [part] + Components(rest)
  {
    if part == "" {
      assert "" + "." + rest == "." + rest && ("." + rest)[1..] == rest;
    } else {
      assert (part + "." + rest)[1..] == part[1..] + "." + rest;
      ComponentsAtDot(part[1..], rest);
      assert part == [part[0]] + part[1..];
    }
  }

  /** The keys of a dotted path are its parts between the dots, in order, without the empty ones. */
  lemma KeysAtDot(part: string, rest: string)
    requires '.' !in part
    ensures Keys(part) == if part == "" then [] else [part]
    ensures Keys(part + "." + rest) == Keys(part) + Keys(rest)
  {
    ComponentsOfPlain(part);
    ComponentsAtDot(part, rest);
    assert [part][1..] == [] && NonEmpty([]) == [];
    assert NonEmpty([part]) == if part == "" then [] else [part];
    assert ([part] + Components(rest))[1..] == Components(rest);
  }

  // ----- when a path can be written -----

  /** Nothing on the way is set to a value that is neither null nor a mapping. */
  ghost predicate Open(root: Value, keys: Path) {
    keys != [] && forall n :: 0 < n < |keys| ==> !Blocks(root, keys[..n])
  }

  lemma {:induction false} WayIsMappings(root: Value, keys: Path, value: Value, n: nat)
    requires SetPath(root, keys, value).Ok? && n < |keys|
    ensures Lookup(SetPath(root, keys, value).value, keys[..n]).Some?
    ensures Lookup(SetPath(root, keys, value).value, keys[..n]).value.Dict?
    decreases |keys|
  {
    if n > 0 {
      assert keys[..n][0] == keys[0] && keys[..n][1..] == keys[1..][..n - 1];
      WayIsMappings(Child(root, keys[0]), keys[1..], value, n - 1);
    }
  }

  /** Writing one path neither blocks nor opens another that is apart from it. */
  lemma WriteKeepsOpen(root: Value, written: Path, value: Value, keys: Path)
    requires root.Dict? && SetPath(root, written, value).Ok? && Apart(written, keys)
    ensures Open(SetPath(root, written, value).value, keys) <==> Open(root, keys)
  {
    var after := SetPath(root, written, value).value;
    SetFailsOnScalars(root, written, value);
    forall n | 0 < n < |keys| ensures Blocks(after, keys[..n]) <==> Blocks(root, keys[..n]) {
      var way := keys[..n];
      if way <= written {
        assert way == written[..n] && n < |written|;
        WayIsMappings(root, written, value, n);
      } else {
        assert !(written <= way) by {
          assert written <= way ==> written <= keys;
        }
        SetKeepsOthers(root, written, value, way);
      }
    }
  }

  // ----- one gateway per role -----

  datatype Injection = Injection(
    globalPath: string, agentsPath: string, injectBase: bool, basePath: string, modelPath: string)

  /** The same with the dotted paths taken apart: the keys for writing, and the components for looking
      up the template's agents. */
  datatype Plan = Plan(
    global: Path, agents: Path, lookup: Path, injectBase: bool, base: Path, model: Path)

  function PlanOf(inj: Injection): Plan {
    Plan(Keys(inj.globalPath), Keys(inj.agentsPath), Components(inj.agentsPath), inj.injectBase,
         Keys(inj.basePath), Keys(inj.modelPath))
  }

  datatype Role = Role(name: string, url: string)

  type Agents = map<string, Value>

  function Configured(config: Value, role: Role, plan: Plan): Result<Value, InjectionError> {
    if !config.Dict? then Err(NotAMapping)
    else
      var based := if plan.injectBase then SetPath(config, plan.base, Text(role.url)) else Ok(config);
      if based.Err? then based else SetPath(based.value, plan.model, Text(role.name))
  }

  function AgentOr(agents: Agents, name: string): Value {
    if name in agents then agents[name] else Dict(map[])
  }

  function WithRoles(agents: Agents, roles: seq<Role>, plan: Plan): Result<Agents, InjectionError> {
    if roles == [] then Ok(agents)
    else
      var before := WithRoles(agents, roles[..|roles| - 1], plan);
      if before.Err? then before
      else
        var role := roles[|roles| - 1];
        var config := Configured(AgentOr(before.value, role.name), role, plan);
        if config.Err? then Err(config.error) else Ok(before.value[role.name := config.value])
  }

  /** The agents of the template, read along all components of the path. */
  function OriginalAgents(template: Value, components: seq<string>): Agents {
    var at := Lookup(template, components);
    if at.Some? && at.value.Dict? then at.value.entries else map[]
  }

  function Injected(template: Agents, roles: seq<Role>, plan: Plan): Result<Value, InjectionError> {
    if roles == [] then Err(NoRoles)
    else
      var global := SetPath(Dict(template), plan.global, Text(roles[0].url));
      if global.Err? then global
      else
        var placed := SetPath(global.value, plan.agents, Dict(map[]));
        if placed.Err? then placed
        else
          var agents := WithRoles(OriginalAgents(Dict(template), plan.lookup), roles, plan);
          if agents.Err? then Err(agents.error)
          else SetPath(global.value, plan.agents, Dict(agents.value))
  }

  ghost predicate DistinctRoles(roles: seq<Role>) {
    forall i, j :: 0 <= i < j < |roles| ==> roles[i].name != roles[j].name
  }

  lemma {:induction false} OtherAgentsStay(agents: Agents, roles: seq<Role>, plan: Plan, name: string)
    requires WithRoles(agents, roles, plan).Ok? && forall i :: 0 <= i < |roles| ==> roles[i].name != name
    ensures name in WithRoles(agents, roles, plan).value <==> name in agents
    ensures name in agents ==> WithRoles(agents, roles, plan).value[name] == agents[name]
  {
    if roles != [] {
      OtherAgentsStay(agents, roles[..|roles| - 1], plan, name);
    }
  }

  lemma {:induction false} RoleIsConfigured(agents: Agents, roles: seq<Role>, plan: Plan, k: nat)
    requires WithRoles(agents, roles, plan).Ok? && DistinctRoles(roles) && k < |roles|
    ensures var config := Configured(AgentOr(agents, roles[k].name), roles[k], plan);
            config.Ok? && roles[k].name in WithRoles(agents, roles, plan).value &&
            WithRoles(agents, roles, plan).value[roles[k].name] == config.value
  {
    var last := |roles| - 1;
    if k < last {
      RoleIsConfigured(agents, roles[..last], plan, k);
    } else {
      OtherAgentsStay(agents, roles[..last], plan, roles[last].name);
    }
  }

  /** Paths that do not get in each other's way, and agents that are read where they are written. */
  ghost predicate Sound(plan: Plan) {
    plan.agents == plan.lookup && Apart(plan.global, plan.agents) && (plan.injectBase ==> Apart(plan.base, plan.model))
  }

  lemma WellFormedPathsAreSound(inj: Injection)
    requires WellFormedPath(inj.agentsPath)
    requires Apart(Keys(inj.globalPath), Keys(inj.agentsPath))
    requires inj.injectBase ==> Apart(Keys(inj.basePath), Keys(inj.modelPath))
    ensures Sound(PlanOf(inj))
  {
    KeysAreComponents(inj.agentsPath);
  }

  /** The configuration of one role: its own address and model name, everything else kept. */
  lemma RoleConfig(config: Value, role: Role, plan: Plan, other: Path)
    requires Sound(plan) && Configured(config, role, plan).Ok?
    ensures var c := Configured(config, role, plan).value;
            && Lookup(c, plan.model) == Some(Text(role.name))
            && (plan.injectBase ==> Lookup(c, plan.base) == Some(Text(role.url)))
            && (Apart(plan.model, other) && (plan.injectBase ==> Apart(plan.base, other)) ==>
                  Lookup(c, other) == Lookup(config, other))
  {
    var based := if plan.injectBase then SetPath(config, plan.base, Text(role.url)) else Ok(config);
    SetThenLookup(based.value, plan.model, Text(role.name), []);
    assert plan.model + [] == plan.model;
    if plan.injectBase {
      SetThenLookup(config, plan.base, Text(role.url), []);
      assert plan.base + [] == plan.base;
      SetKeepsOthers(based.value, plan.model, Text(role.name), plan.base);
      if Apart(plan.base, other) {
        SetKeepsOthers(config, plan.base, Text(role.url), other);
      }
    }
    if Apart(plan.model, other) {
      SetKeepsOthers(based.value, plan.model, Text(role.name), other);
    }
  }

  /** Below the agents path the result holds the merged agents; elsewhere it is the template with the
      first role's address at the global path. */
  lemma InjectedLookup(template: Agents, roles: seq<Role>, plan: Plan, rest: Path, other: Path)
    requires Sound(plan) && Injected(template, roles, plan).Ok?
    ensures WithRoles(OriginalAgents(Dict(template), plan.lookup), roles, plan).Ok?
    ensures var agents := WithRoles(OriginalAgents(Dict(template), plan.lookup), roles, plan).value;
            var result := Injected(template, roles, plan).value;
            && Lookup(result, plan.lookup + rest) == Lookup(Dict(agents), rest)
            && Lookup(result, plan.global) == Some(Text(roles[0].url))
            && (Apart(plan.global, other) && Apart(plan.lookup, other) ==>
                  Lookup(result, other) == Lookup(Dict(template), other))
  {
    var g, a := plan.global, plan.lookup;
    var agents := WithRoles(OriginalAgents(Dict(template), a), roles, plan).value;
    var global := SetPath(Dict(template), g, Text(roles[0].url)).value;
    SetThenLookup(global, a, Dict(agents), rest);
    SetThenLookup(Dict(template), g, Text(roles[0].url), []);
    assert g + [] == g;
    SetKeepsOthers(global, a, Dict(agents), g);
    if Apart(g, other) && Apart(a, other) {
      SetKeepsOthers(global, a, Dict(agents), other);
      SetKeepsOthers(Dict(template), g, Text(roles[0].url), other);
    }
  }

  /** Can a role be configured here? */
  ghost predicate Configurable(config: Value, plan: Plan) {
    config.Dict? && (plan.injectBase ==> Open(config, plan.base)) && Open(config, plan.model)
  }

  lemma ConfiguredExactly(config: Value, role: Role, plan: Plan)
    requires plan.injectBase ==> Apart(plan.base, plan.model)
    ensures Configured(config, role, plan).Ok? <==> Configurable(config, plan)
    ensures Configured(config, role, plan) != Err(NoRoles)
  {
    if config.Dict? {
      SetFailsOnScalars(config, plan.base, Text(role.url));
      SetErrors(config, plan.base, Text(role.url));
      var based := if plan.injectBase then SetPath(config, plan.base, Text(role.url)) else Ok(config);
      if based.Ok? {
        assert based.value.Dict?;
        SetFailsOnScalars(based.value, plan.model, Text(role.name));
        SetErrors(based.value, plan.model, Text(role.name));
        if plan.injectBase {
          WriteKeepsOpen(config, plan.base, Text(role.url), plan.model);
        }
      }
    }
  }

  lemma {:induction false} SetErrors(root: Value, keys: Path, value: Value)
    ensures SetPath(root, keys, value) != Err(NoRoles)
    decreases |keys|
  {
    if |keys| > 1 && root.Dict? {
      SetErrors(Child(root, keys[0]), keys[1..], value);
    }
  }

  lemma {:induction false} WithRolesExactly(agents: Agents, roles: seq<Role>, plan: Plan)
    requires DistinctRoles(roles) && (plan.injectBase ==> Apart(plan.base, plan.model))
    ensures WithRoles(agents, roles, plan).Ok? <==>
            forall k :: 0 <= k < |roles| ==> Configurable(AgentOr(agents, roles[k].name), plan)
    ensures WithRoles(agents, roles, plan) != Err(NoRoles)
  {
    hide Configured, Configurable;
    if roles != [] {
      var last := |roles| - 1;
      WithRolesExactly(agents, roles[..last], plan);
      var before := WithRoles(agents, roles[..last], plan);
      if before.Ok? {
        OtherAgentsStay(agents, roles[..last], plan, roles[last].name);
        ConfiguredExactly(AgentOr(agents, roles[last].name), roles[last], plan);
      }
    }
  }

  /** The injection succeeds exactly if there is a role, the two root paths can be written into the
      template, and every role's own configuration, or an empty one, is a mapping that its paths can be
      written into. */
  lemma InjectionSucceedsExactly(template: Agents, roles: seq<Role>, plan: Plan)
    requires DistinctRoles(roles) && Apart(plan.global, plan.agents)
    requires plan.injectBase ==> Apart(plan.base, plan.model)
    ensures Injected(template, roles, plan).Ok? <==>
            && roles != [] && Open(Dict(template), plan.global) && Open(Dict(template), plan.agents)
            && forall k :: 0 <= k < |roles| ==>
                 Configurable(AgentOr(OriginalAgents(Dict(template), plan.lookup), roles[k].name), plan)
    ensures Injected(template, roles, plan) == Err(NoRoles) <==> roles == []
  {
    hide Configurable, SetPath, OriginalAgents, WithRoles, Apart, Open;
    if roles != [] {
      var root, url := Dict(template), Text(roles[0].url);
      var original := OriginalAgents(root, plan.lookup);
      CanBeWritten(root, plan.global, url);
      var global := SetPath(root, plan.global, url);
      if global.Ok? {
        WriteKeepsOpen(root, plan.global, url, plan.agents);
        forall value { CanBeWritten(global.value, plan.agents, value); }
        WithRolesExactly(original, roles, plan);
      }
    }
  }

  lemma CanBeWritten(root: Value, keys: Path, value: Value)
    requires root.Dict?
    ensures SetPath(root, keys, value).Ok? <==> Open(root, keys)
    ensures SetPath(root, keys, value).Ok? ==> SetPath(root, keys, value).value.Dict?
    ensures SetPath(root, keys, value) != Err(NoRoles)
  {
    SetFailsOnScalars(root, keys, value);
    SetErrors(root, keys, value);
  }

  /** What the result holds for a role is the role's configured template entry. */
  lemma UnderRole(template: Agents, roles: seq<Role>, plan: Plan, k: nat, path: Path)
    requires Sound(plan) && DistinctRoles(roles) && Injected(template, roles, plan).Ok? && k < |roles|
    ensures var a := plan.lookup;
            var config := Configured(AgentOr(OriginalAgents(Dict(template), a), roles[k].name), roles[k], plan);
            config.Ok? &&
            Lookup(Injected(template, roles, plan).value, a + [roles[k].name] + path) == Lookup(config.value, path)
  {
    var a := plan.lookup;
    var rest := [roles[k].name] + path;
    InjectedLookup(template, roles, plan, rest, []);
    RoleIsConfigured(OriginalAgents(Dict(template), a), roles, plan, k);
    assert a + rest == a + [roles[k].name] + path;
    assert rest[1..] == path;
  }

  lemma UnderTemplate(template: Agents, a: Path, name: string, path: Path)
    requires path != []
    ensures Lookup(AgentOr(OriginalAgents(Dict(template), a), name), path) ==
            Lookup(Dict(template), a + [name] + path)
  {
    var rest := [name] + path;
    LookupConcat(Dict(template), a, rest);
    assert a + rest == a + [name] + path;
    assert rest[1..] == path;
  }

  /** Each role gets its own address and model name, and keeps the rest of its configuration. */
  lemma EachRoleGetsItsOwn(template: Agents, roles: seq<Role>, plan: Plan, k: nat, other: Path)
    requires Sound(plan) && DistinctRoles(roles) && Injected(template, roles, plan).Ok? && k < |roles|
    ensures var at := plan.lookup + [roles[k].name];
            var result := Injected(template, roles, plan).value;
            && Lookup(result, at + plan.model) == Some(Text(roles[k].name))
            && (plan.injectBase ==> Lookup(result, at + plan.base) == Some(Text(roles[k].url)))
            && (other != [] && Apart(plan.model, other) &&
                (plan.injectBase ==> Apart(plan.base, other)) ==>
                  Lookup(result, at + other) == Lookup(Dict(template), at + other))
  {
    var a := plan.lookup;
    UnderRole(template, roles, plan, k, plan.model);
    UnderRole(template, roles, plan, k, plan.base);
    UnderRole(template, roles, plan, k, other);
    RoleConfig(AgentOr(OriginalAgents(Dict(template), a), roles[k].name), roles[k], plan, other);
    if other != [] {
      UnderTemplate(template, a, roles[k].name, other);
    }
  }

  lemma {:induction false} LookupConcat(v: Value, p: Path, q: Path)
    ensures Lookup(v, p + q) == if Lookup(v, p).Some? then Lookup(Lookup(v, p).value, q) else None
    decreases |p|
  {
    if p == [] {
      assert p + q == q;
    } else {
      assert (p + q)[0] == p[0] && (p + q)[1..] == p[1..] + q;
      if v.Dict? && p[0] in v.entries {
        LookupConcat(v.entries[p[0]], p[1..], q);
      }
    }
  }

  /** The configuration of an agent that is no role, and any key that is neither at, above nor below
      one of the two root paths, stays as it is in the template. */
  lemma OtherKeysStay(template: Agents, roles: seq<Role>, plan: Plan, agent: string, rest: Path, other: Path)
    requires Sound(plan) && Injected(template, roles, plan).Ok?
    requires forall i :: 0 <= i < |roles| ==> roles[i].name != agent
    requires Apart(plan.global, other) && Apart(plan.lookup, other)
    ensures var result := Injected(template, roles, plan).value;
            var path := plan.lookup + [agent] + rest;
            && Lookup(result, path) == Lookup(Dict(template), path)
            && Lookup(result, other) == Lookup(Dict(template), other)
            && Lookup(result, plan.global) == Some(Text(roles[0].url))
  {
    var a := plan.lookup;
    var original := OriginalAgents(Dict(template), a);
    InjectedLookup(template, roles, plan, [agent] + rest, other);
    OtherAgentsStay(original, roles, plan, agent);
    LookupConcat(Dict(template), a, [agent] + rest);
    assert a + ([agent] + rest) == a + [agent] + rest;
    assert ([agent] + rest)[1..] == rest;
  }

  /** With a dot at its end, such as `agents.`, the agents path is written and read at different places:
      the template's agents are lost. */
  lemma EmptyComponentLosesAgents(template: Agents, inj: Injection, key: string)
    requires key != "" && '.' !in key && inj.agentsPath == key + "."
    requires key in template && template[key].Dict? && "" !in template[key].entries
    ensures OriginalAgents(Dict(template), PlanOf(inj).lookup) == map[]
    ensures PlanOf(inj).agents == [key]
  {
    ComponentsAtDot(key, "");
    assert key + "." + "" == key + ".";
    var parts := Components(inj.agentsPath);
    assert parts[1..] == [""] && parts[1..][1..] == [];
    assert NonEmpty(parts[1..]) == [];
    assert Lookup(Dict(template), parts) == Lookup(template[key], parts[1..]);
    assert Lookup(template[key], parts[1..]).None?;
  }

  lemma {:induction false} FailsOnPrefix(agents: Agents, roles: seq<Role>, plan: Plan, k: nat)
    requires k <= |roles| && WithRoles(agents, roles[..k], plan).Err?
    ensures WithRoles(agents, roles, plan) == WithRoles(agents, roles[..k], plan)
    decreases |roles|
  {
    if k < |roles| {
      assert roles[..|roles| - 1][..k] == roles[..k];
      FailsOnPrefix(agents, roles[..|roles| - 1], plan, k);
    } else {
      assert roles[..k] == roles;
    }
  }
}

/** Bookkeeping of the gateway managers: which gateway owns which session (or session group), and
    how many each gateway carries.  Python coroutines yield only at awaits, so every interleaving is
    a sequence of the synchronous regions below, in any order. */
module GatewayManagers {
  import opened Sequences

  type Id = string

  /** How many ids a table assigns to one gateway. */
  ghost function Owned(table: map<Id, nat>, gateway: nat): nat {
    |set id | id in table && table[id] == gateway|
  }

  /** The counters say exactly what the table says. */
  ghost predicate Balanced(active: seq<int>, table: map<Id, nat>) {
    && (forall id :: id in table ==> table[id] < |active|)
    && (forall g :: 0 <= g < |active| ==> active[g] == Owned(table, g))
  }

  lemma OwnedAdd(table: map<Id, nat>, id: Id, gateway: nat, g: nat)
    requires id !in table
    ensures Owned(table[id := gateway], g) == Owned(table, g) + if g == gateway then 1 else 0
  {
    var added := table[id := gateway];
    var before := set i | i in table && table[i] == g;
    var after := set i | i in added && added[i] == g;
    assert after == if g == gateway then before + {id} else before;
  }

  lemma OwnedRemove(table: map<Id, nat>, id: Id, g: nat)
    requires id in table
    ensures Owned(table - {id}, g) == Owned(table, g) - if g == table[id] then 1 else 0
  {
    var left := table - {id};
    var before := set i | i in table && table[i] == g;
    var after := set i | i in left && left[i] == g;
    assert before == if g == table[id] then after + {id} else after;
  }

  lemma BalancedAdd(active: seq<int>, table: map<Id, nat>, id: Id, gateway: nat)
    requires Balanced(active, table) && gateway < |active| && id !in table
    ensures Balanced(active[gateway := active[gateway] + 1], table[id := gateway])
  {
    var added := active[gateway := active[gateway] + 1];
    forall g | 0 <= g < |active| ensures added[g] == Owned(table[id := gateway], g) {
      OwnedAdd(table, id, gateway, g);
    }
  }

  lemma BalancedRemove(active: seq<int>, table: map<Id, nat>, id: Id)
    requires Balanced(active, table) && id in table
    ensures Balanced(active[table[id] := active[table[id]] - 1], table - {id})
  {
    var g0 := table[id];
    var removed := active[g0 := active[g0] - 1];
    forall g | 0 <= g < |active| ensures removed[g] == Owned(table - {id}, g) {
      OwnedRemove(table, id, g);
    }
  }

  // ----- choosing a gateway -----

  /** `min(range(n), key=...)`: the first gateway with the least load. */
  ghost predicate IsLeastLoaded(active: seq<int>, gateway: nat) {
    && gateway < |active|
    && (forall g :: 0 <= g < |active| ==> active[gateway] <= active[g])
    && (forall g :: 0 <= g < gateway ==> active[gateway] < active[g])
  }

  function LeastLoaded(active: seq<int>): (gateway: nat)
    requires active != []
    ensures IsLeastLoaded(active, gateway)
  {
    var last := |active| - 1;
    if last == 0 then 0
    else
      var best := LeastLoaded(active[..last]);
      if active[last] < active[best] then last else best
  }

  method SelectGatewayIndex(active: seq<int>) returns (gateway: nat)
    requires active != []
    ensures gateway == LeastLoaded(active)
  {
    gateway := 0;
    for i := 1 to |active|
      invariant gateway < i && IsLeastLoaded(active[..i], gateway)
    {
      if active[i] < active[gateway] {
        gateway := i;
      }
    }
    assert active[..|active|] == active;
  }

  ghost predicate Even(active: seq<int>) {
    forall g, h :: 0 <= g < |active| && 0 <= h < |active| ==> active[g] - active[h] <= 1
  }

  // ----- the group manager -----

  datatype Role = Role(name: string, policy: string)

  datatype CreateError = ShutDown | DuplicateGroup | NoRoles | InvalidRole

  /** `gateways` is the size of the actor pool. */
  datatype Manager = Manager(
    gateways: nat, active: seq<int>, indices: map<Id, nat>, sessions: map<Id, seq<Role>>)

  ghost predicate Consistent(m: Manager) {
    && |m.active| == m.gateways
    && m.indices.Keys == m.sessions.Keys
    && Balanced(m.active, m.indices)
    && (forall id :: id in m.sessions ==> m.sessions[id] != [])
  }

  predicate ValidRoles(roles: seq<Role>) {
    forall r :: r in roles ==> r.name != "" && r.policy != ""
  }

  /** `create_session` up to its first await. */
  function Reserve(m: Manager, group: Id, roles: seq<Role>): Result<Manager, CreateError>
    requires |m.active| == m.gateways
  {
    if m.gateways == 0 then Err(ShutDown)
    else if group in m.indices then Err(DuplicateGroup)
    else if roles == [] then Err(NoRoles)
    else if !ValidRoles(roles) then Err(InvalidRole)
    else
      var g := LeastLoaded(m.active);
      Ok(m.(active := m.active[g := m.active[g] + 1],
            indices := m.indices[group := g], sessions := m.sessions[group := roles]))
  }

  function Drop(m: Manager, group: Id): Manager
    requires group in m.indices ==> m.indices[group] < |m.active|
  {
    var m' := m.(sessions := m.sessions - {group}, indices := m.indices - {group});
    if group in m.indices then
      var g := m.indices[group];
      m'.(active := m.active[g := m.active[g] - 1])
    else m'
  }

  const STOPPED := Manager(0, [], map[], map[])

  /** The group manager object; a method is one stretch of code between awaits. */
  class MultiAgentGatewayManager {
    var gateways: nat
    var active: seq<int>
    var groupGatewayIndices: map<Id, nat>
    var groupSessions: map<Id, seq<Role>>

    function State(): Manager
      reads this
    {
      Manager(gateways, active, groupGatewayIndices, groupSessions)
    }

    constructor (gatewayCount: nat)
      requires gatewayCount > 0
      ensures Consistent(State())
      ensures State() == Manager(gatewayCount, seq(gatewayCount, _ => 0), map[], map[])
    {
      gateways := gatewayCount;
      active := seq(gatewayCount, _ => 0);
      groupGatewayIndices, groupSessions := map[], map[];
    }

    method ReserveGroup(group: Id, roles: seq<Role>) returns (result: Result<nat, CreateError>)
      requires Consistent(State())
      modifies this
      ensures Consistent(State())
      ensures match result
              case Err(e) => State() == old(State()) && Reserve(old(State()), group, roles) == Err(e)
              case Ok(g) =>
                && IsLeastLoaded(old(active), g)
                && groupGatewayIndices == old(groupGatewayIndices)[group := g]
                && groupSessions == old(groupSessions)[group := roles]
                && active == old(active)[g := old(active)[g] + 1]
                && Reserve(old(State()), group, roles) == Ok(State())
      ensures result.Ok? <==>
              && old(gateways) != 0 && group !in old(groupGatewayIndices) && roles != []
              && forall r :: r in roles ==> r.name != "" && r.policy != ""
      ensures result == Err(ShutDown) <==> old(gateways) == 0
      ensures result == Err(DuplicateGroup) <==> old(gateways) != 0 && group in old(groupGatewayIndices)
      ensures result == Err(NoRoles) <==>
              old(gateways) != 0 && group !in old(groupGatewayIndices) && roles == []
    {
      hide Balanced, Owned;
      if gateways == 0 {
        return Err(ShutDown);
      }
      if group in groupGatewayIndices {
        return Err(DuplicateGroup);
      }
      if roles == [] {
        return Err(NoRoles);
      }
      var g := SelectGatewayIndex(active);
      for i := 0 to |roles|
        invariant ValidRoles(roles[..i])
        invariant State() == old(State())
      {
        if roles[i].name == "" || roles[i].policy == "" {
          assert roles[i] in roles;
          return Err(InvalidRole);
        }
      }
      assert roles[..|roles|] == roles;
      BalancedAdd(active, groupGatewayIndices, group, g);
      groupGatewayIndices := groupGatewayIndices[group := g];
      groupSessions := groupSessions[group := roles];
      active := active[g := active[g] + 1];
      return Ok(g);
    }

    method DropGroupState(group: Id)
      requires Consistent(State())
      modifies this
      ensures Consistent(State())
      ensures State() == Drop(old(State()), group)
      ensures groupSessions == old(groupSessions) - {group}
      ensures groupGatewayIndices == old(groupGatewayIndices) - {group}
    {
      groupSessions := groupSessions - {group};
      if group in groupGatewayIndices {
        var g := groupGatewayIndices[group];
        BalancedRemove(active, groupGatewayIndices, group);
        groupGatewayIndices := groupGatewayIndices - {group};
        active := active[g := active[g] - 1];
      }
      assert group !in old(groupGatewayIndices) ==> groupGatewayIndices - {group} == groupGatewayIndices;
    }

    /** The end of a shutdown whose awaits have all returned. */
    method FinishShutdown()
      modifies this
      ensures Consistent(State()) && State() == STOPPED
    {
      gateways, active := 0, [];
      groupSessions, groupGatewayIndices := map[], map[];
    }
  }

  // ----- every interleaving -----

  datatype Region = CreateStarts(group: Id, roles: seq<Role>) | GroupDropped(group: Id) | ShutdownEnds

  ghost function Execute(m: Manager, region: Region): Manager
    requires Consistent(m)
  {
    match region
    case CreateStarts(group, roles) =>
      var result := Reserve(m, group, roles);
      if result.Ok? then result.value else m
    case GroupDropped(group) => Drop(m, group)
    case ShutdownEnds => STOPPED
  }

  lemma ExecuteKeeps(m: Manager, region: Region)
    requires Consistent(m)
    ensures Consistent(Execute(m, region))
  {
    match region
    case CreateStarts(group, roles) =>
      if Reserve(m, group, roles).Ok? {
        BalancedAdd(m.active, m.indices, group, LeastLoaded(m.active));
      }
    case GroupDropped(group) =>
      if group in m.indices {
        BalancedRemove(m.active, m.indices, group);
      } else {
        assert m.indices - {group} == m.indices && m.sessions - {group} == m.sessions;
      }
    case ShutdownEnds =>
  }

  /** Whatever creates, finalizes, aborts (also repeated, also of an id that has been re-created) and
      shutdowns interleave, the two tables agree and every counter equals its number of groups. */
  ghost function ExecuteAll(m: Manager, regions: seq<Region>): (r: Manager)
    requires Consistent(m)
    ensures r.indices.Keys == r.sessions.Keys
    ensures |r.active| == r.gateways
    ensures forall g :: 0 <= g < r.gateways ==> r.active[g] == Owned(r.indices, g)
    ensures Consistent(r)
    decreases |regions|
  {
    if regions == [] then m
    else
      ExecuteKeeps(m, regions[0]);
      ExecuteAll(Execute(m, regions[0]), regions[1..])
  }

  /** A burst of creates never makes two gateways differ by more than one group. */
  lemma {:induction false} BurstStaysEven(m: Manager, regions: seq<Region>)
    requires Consistent(m) && Even(m.active)
    requires forall r :: r in regions ==> r.CreateStarts?
    ensures Even(ExecuteAll(m, regions).active)
    decreases |regions|
  {
    if regions != [] {
      assert regions[0].CreateStarts?;
      ExecuteKeeps(m, regions[0]);
      BurstStaysEven(Execute(m, regions[0]), regions[1..]);
    }
  }

  // ----- the single-session manager -----

  /** `create_session` and the release after `finalize_session` or `abort_session`.  Unlike the group
      manager, this one neither refuses a duplicate id nor checks, after its await, that the session
      is still routed. */
  datatype Routes = Routes(active: seq<int>, table: map<Id, nat>)

  function Route(r: Routes, id: Id): Routes
    requires r.active != []
  {
    var g := LeastLoaded(r.active);
    Routes(r.active[g := r.active[g] + 1], r.table[id := g])
  }

  /** `gateway` was read before the await. */
  function Release(r: Routes, id: Id, gateway: nat): Routes
    requires gateway < |r.active|
  {
    Routes(r.active[gateway := r.active[gateway] - 1], r.table - {id})
  }

  /** The counters stay right exactly when the new id was not routed yet. */
  lemma RouteKeepsBalance(r: Routes, id: Id)
    requires r.active != [] && Balanced(r.active, r.table)
    ensures Balanced(Route(r, id).active, Route(r, id).table) <==> id !in r.table
  {
    var g := LeastLoaded(r.active);
    if id !in r.table {
      BalancedAdd(r.active, r.table, id, g);
    } else {
      var moved := (r.table - {id})[id := g];
      assert r.table[id := g] == moved;
      OwnedRemove(r.table, id, g);
      OwnedAdd(r.table - {id}, id, g, g);
      var h := r.table[id];
      OwnedRemove(r.table, id, h);
      OwnedAdd(r.table - {id}, id, g, h);
    }
  }

  /** The counters stay right exactly when the session is still routed to the gateway that was read
      before the await; two overlapping aborts of one session therefore break them. */
  lemma ReleaseKeepsBalance(r: Routes, id: Id, gateway: nat)
    requires Balanced(r.active, r.table) && gateway < |r.active|
    ensures Balanced(Release(r, id, gateway).active, Release(r, id, gateway).table) <==>
            id in r.table && r.table[id] == gateway
  {
    if id in r.table {
      BalancedRemove(r.active, r.table, id);
      OwnedRemove(r.table, id, gateway);
    } else {
      assert r.table - {id} == r.table;
    }
  }

  /** A second create of a routed id leaves one session and two counted. */
  lemma DuplicateCreateCountsTwice(id: Id)
    ensures Route(Route(Routes([0], map[]), id), id) == Routes([2], map[id := 0])
  {
    assert LeastLoaded([0]) == 0 && LeastLoaded([1]) == 0;
    assert [0][0 := 1] == [1] && [1][0 := 2] == [2];
  }

  /** Two aborts of one session that both read its gateway before either goes on. */
  lemma OverlappingAbortsCountBelowZero(id: Id)
    ensures Release(Release(Route(Routes([0], map[]), id), id, 0), id, 0) == Routes([-1], map[])
  {
    assert LeastLoaded([0]) == 0;
    assert [0][0 := 1] == [1] && [1][0 := 0] == [0] && [0][0 := -1] == [-1];
    assert map[id := 0] - {id} == map[];
  }

  datatype RouteCall = Routed(id: Id) | Released(id: Id, gateway: nat)

  function RouteStep(r: Routes, call: RouteCall): Routes
    requires r.active != [] && (call.Released? ==> call.gateway < |r.active|)
  {
    match call
    case Routed(id) => Route(r, id)
    case Released(id, gateway) => Release(r, id, gateway)
  }

  predicate AtGateways(calls: seq<RouteCall>, gateways: nat) {
    forall call :: call in calls ==> (call.Released? ==> call.gateway < gateways)
  }

  /** A create of an id that is not routed, or a release of one that is, at its own gateway. */
  predicate Fits(r: Routes, call: RouteCall) {
    match call
    case Routed(id) => id !in r.table
    case Released(id, gateway) => id in r.table && r.table[id] == gateway
  }

  predicate FittingRun(r: Routes, calls: seq<RouteCall>)
    requires r.active != [] && AtGateways(calls, |r.active|)
    decreases |calls|
  {
    calls == [] || (Fits(r, calls[0]) && FittingRun(RouteStep(r, calls[0]), calls[1..]))
  }

  ghost predicate BalancedThroughout(r: Routes, calls: seq<RouteCall>)
    requires r.active != [] && AtGateways(calls, |r.active|)
    decreases |calls|
  {
    Balanced(r.active, r.table) && (calls != [] ==> BalancedThroughout(RouteStep(r, calls[0]), calls[1..]))
  }

  /** Over a whole run of the single-session manager its counters are right throughout exactly when
      every call fits. */
  lemma {:induction false} CountersRightExactly(r: Routes, calls: seq<RouteCall>)
    requires r.active != [] && AtGateways(calls, |r.active|) && Balanced(r.active, r.table)
    ensures BalancedThroughout(r, calls) <==> FittingRun(r, calls)
    decreases |calls|
  {
    if calls != [] {
      var next := RouteStep(r, calls[0]);
      match calls[0] {
        case Routed(id) => RouteKeepsBalance(r, id);
        case Released(id, gateway) => ReleaseKeepsBalance(r, id, gateway);
      }
      hide Balanced;
      if Fits(r, calls[0]) {
        CountersRightExactly(next, calls[1..]);
      }
    }
  }
}

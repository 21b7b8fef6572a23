/** Which placement groups a stage asks for, whether they can be placed, and in which order the
    standalone rollout runtimes are brought up. */
module StageRequests {
  import opened Sequences
  import opened StagePlacement

  datatype Stage = Training | Rollout

  datatype Pool = Pool(nnodes: int, gpusPerNode: int)

  datatype TrainingConfig = TrainingConfig(globalPool: Pool, rewardPool: Option<Pool>, teacherPool: Option<Pool>)

  datatype Disaggregation =
    Disaggregation(prefillReplicas: int, decodeTensorParallel: Option<int>, decodeReplicas: int)

  datatype RolloutConfig = RolloutConfig(
    nnodes: int, gpusPerNode: int,
    tensorParallel: int, dataParallel: int, pipelineParallel: int,
    disaggregation: Option<Disaggregation>)

  datatype PolicyConfig = PolicyConfig(name: string, training: TrainingConfig, rollout: RolloutConfig)

  datatype Request = Request(policy: string, pool: string, gpus: int)

  datatype StageError =
    | InvalidRequest(policy: string)
    | DivisionByZero
    | InsufficientGpus
    | NotStrictPackable
    | MissingPolicies

  type Requests = Result<seq<Request>, StageError>

  // ----- the request list -----

  /** `(request for _ in range(n))`: nothing for n <= 0. */
  function Repeat(request: Request, n: int): (r: seq<Request>)
    ensures |r| == if n <= 0 then 0 else n
    ensures forall i :: 0 <= i < |r| ==> r[i] == request
  {
    seq(if n <= 0 then 0 else n, _ => request)
  }

  function PoolRequests(policy: string, pool: string, size: Pool): Requests {
    if size.nnodes <= 0 || size.gpusPerNode <= 0 then Err(InvalidRequest(policy))
    else Ok(Repeat(Request(policy, pool, size.gpusPerNode), size.nnodes))
  }

  function OptionalPoolRequests(policy: string, pool: string, size: Option<Pool>): Requests {
    if size.None? then Ok([]) else PoolRequests(policy, pool, size.value)
  }

  function Join(first: Requests, second: Requests): Requests {
    if first.Err? then first
    else if second.Err? then second
    else Ok(first.value + second.value)
  }

  function TrainingRequests(policy: string, config: TrainingConfig): Requests {
    Join(Join(PoolRequests(policy, "global_pool", config.globalPool),
              OptionalPoolRequests(policy, "reward_pool", config.rewardPool)),
         OptionalPoolRequests(policy, "teacher_pool", config.teacherPool))
  }

  function RolloutWorldSize(config: RolloutConfig): int {
    (match config.disaggregation
     case None => config.tensorParallel
     case Some(d) =>
       var decodeParallel := if d.decodeTensorParallel.None? then config.tensorParallel
                             else d.decodeTensorParallel.value;
       config.tensorParallel * d.prefillReplicas + decodeParallel * d.decodeReplicas)
    * config.dataParallel * config.pipelineParallel
  }

  function Min(a: int, b: int): int {
    if b < a then b else a
  }

  /** The two divisions by a tested divisor are exact, so Euclidean and floor division agree. */
  function RolloutRequests(policy: string, config: RolloutConfig): Requests {
    var totalGpus := config.nnodes * config.gpusPerNode;
    var worldSize := RolloutWorldSize(config);
    if worldSize <= 0 || totalGpus % worldSize != 0 then Err(InvalidRequest(policy))
    else
      var replicas := totalGpus / worldSize;
      var perNode := Min(config.gpusPerNode, worldSize);
      if perNode == 0 then Err(DivisionByZero)
      else if worldSize % perNode != 0 then Err(InvalidRequest(policy))
      else
        var replicaNodes := worldSize / perNode;
        Ok(Repeat(Request(policy, "standalone_rollout", perNode), replicas * replicaNodes))
  }

  function PolicyRequests(stage: Stage, policy: PolicyConfig): Requests {
    match stage
    case Training => TrainingRequests(policy.name, policy.training)
    case Rollout => RolloutRequests(policy.name, policy.rollout)
  }

  /** All policies in configuration order; the first policy that is invalid decides the error. */
  function AllRequests(stage: Stage, policies: seq<PolicyConfig>): Requests {
    if policies == [] then Ok([])
    else Join(PolicyRequests(stage, policies[0]), AllRequests(stage, policies[1..]))
  }

  method GetStageResourceRequests(stage: Stage, policies: seq<PolicyConfig>) returns (result: Requests)
    ensures result == AllRequests(stage, policies)
  {
    hide PolicyRequests;
    var requests: seq<Request> := [];
    ghost var all := AllRequests(stage, policies);
    assert policies[0..] == policies && (all.Ok? ==> [] + all.value == all.value);
    for i := 0 to |policies|
      invariant AllRequests(stage, policies) == Join(Ok(requests), AllRequests(stage, policies[i..]))
    {
      assert policies[i..][1..] == policies[i + 1..];
      var more := PolicyRequests(stage, policies[i]);
      if more.Err? {
        return more;
      }
      ghost var rest := AllRequests(stage, policies[i + 1..]);
      assert rest.Ok? ==> requests + (more.value + rest.value) == (requests + more.value) + rest.value;
      requests := requests + more.value;
    }
    assert policies[|policies|..] == [] && requests + [] == requests;
    return Ok(requests);
  }

  // ----- what the requests add up to -----

  function Gpus(requests: seq<Request>): (r: seq<int>)
    ensures |r| == |requests|
    ensures forall i :: 0 <= i < |r| ==> r[i] == requests[i].gpus
  {
    seq(|requests|, i requires 0 <= i < |requests| => requests[i].gpus)
  }

  lemma {:induction false} SumConstant(s: seq<int>, x: int)
    requires forall i :: 0 <= i < |s| ==> s[i] == x
    ensures Sum(s) == |s| * x
  {
    if s != [] {
      SumConstant(s[1..], x);
    }
  }

  /** What counts as one replica.  Without disaggregation it is one model of `tensorParallel` GPUs; with it,
      every prefill replica adds `tensorParallel` GPUs and every decode replica the decode width, which is
      `tensorParallel` unless it is given; all of it once per data and pipeline rank. */
  lemma WorldSizeCounts(config: RolloutConfig, d: Disaggregation)
    ensures var size := (split: Disaggregation) =>
              RolloutWorldSize(config.(disaggregation := Some(split)));
            var ranks := config.dataParallel * config.pipelineParallel;
            && RolloutWorldSize(config.(disaggregation := None)) ==
               size(d.(prefillReplicas := 1, decodeReplicas := 0))
            && size(d.(prefillReplicas := 0, decodeReplicas := 0)) == 0
            && size(d.(prefillReplicas := d.prefillReplicas + 1)) == size(d) + config.tensorParallel * ranks
            && (d.decodeTensorParallel.Some? ==>
                  size(d.(decodeReplicas := d.decodeReplicas + 1)) ==
                  size(d) + d.decodeTensorParallel.value * ranks)
            && size(d.(decodeTensorParallel := None)) ==
               size(d.(decodeTensorParallel := Some(config.tensorParallel)))
  {
    var data, pipeline, tensor := config.dataParallel, config.pipelineParallel, config.tensorParallel;
    var decode := if d.decodeTensorParallel.None? then tensor else d.decodeTensorParallel.value;
    var before := tensor * d.prefillReplicas + decode * d.decodeReplicas;
    assert tensor * (d.prefillReplicas + 1) == tensor * d.prefillReplicas + tensor;
    assert decode * (d.decodeReplicas + 1) == decode * d.decodeReplicas + decode;
    RanksDistribute(before, tensor, data, pipeline);
    RanksDistribute(before, decode, data, pipeline);
  }

  lemma RanksDistribute(a: int, b: int, data: int, pipeline: int)
    ensures (a + b) * data * pipeline == a * data * pipeline + b * (data * pipeline)
  {
    assert (a + b) * data == a * data + b * data;
    assert (a * data + b * data) * pipeline == a * data * pipeline + b * data * pipeline;
    assert b * data * pipeline == b * (data * pipeline);
  }

  /** A rollout is accepted exactly when its GPUs are a whole number of replicas and a replica a whole
      number of the parts that it takes on a node; without GPUs on a node the division for the latter is
      by zero. */
  lemma RolloutAcceptedExactly(policy: string, config: RolloutConfig)
    ensures var world := RolloutWorldSize(config);
            var perNode := if config.gpusPerNode > world then world else config.gpusPerNode;
            && (RolloutRequests(policy, config).Ok? <==>
                && world > 0 && config.gpusPerNode != 0
                && (exists replicas :: config.nnodes * config.gpusPerNode == replicas * world)
                && (exists parts :: world == parts * perNode))
            && (RolloutRequests(policy, config).Err? ==>
                  RolloutRequests(policy, config).error ==
                  if world > 0 && config.gpusPerNode == 0 then DivisionByZero else InvalidRequest(policy))
  {
    var world, total := RolloutWorldSize(config), config.nnodes * config.gpusPerNode;
    var perNode := if config.gpusPerNode > world then world else config.gpusPerNode;
    if world > 0 && config.gpusPerNode != 0 {
      DividesExactly(total, world);
      DividesExactly(world, perNode);
    }
  }

  lemma DividesExactly(a: int, b: int)
    requires b != 0
    ensures a % b == 0 <==> exists q :: a == q * b
  {
    if a % b == 0 {
      assert a == (a / b) * b;
    }
    if q :| a == q * b {
      ExactQuotient(a, b, q);
    }
  }

  /** The replica split loses no GPU: the requests of a policy add up to nnodes times GPUs per node,
      all alike, each a node's GPUs or a whole replica where that is less -- unless nnodes is negative,
      when the policy silently asks for nothing.  A negative GPU count per node passes the checks too
      and yields negative requests. */
  lemma RolloutRequestsTotal(policy: string, config: RolloutConfig)
    requires RolloutRequests(policy, config).Ok?
    ensures var requests := RolloutRequests(policy, config).value;
            && (Sum(Gpus(requests)) == config.nnodes * config.gpusPerNode <==> config.nnodes >= 0)
            && (config.nnodes < 0 ==> requests == [])
            && (forall r :: r in requests ==> RolloutShare(r, policy, config))
            && ((exists r :: r in requests && r.gpus < 0) <==> config.gpusPerNode < 0 < config.nnodes)
  {
    var requests := RolloutRequests(policy, config).value;
    var total, world := config.nnodes * config.gpusPerNode, RolloutWorldSize(config);
    var replicas, perNode := total / world, Min(config.gpusPerNode, world);
    var replicaNodes := world / perNode;
    assert total == replicas * world && world == replicaNodes * perNode;
    ExactSplit(config.nnodes, config.gpusPerNode, world, replicas, perNode, replicaNodes);
    SumConstant(Gpus(requests), perNode);
    assert |requests| > 0 ==> requests[0] in requests;
  }

  /** A node's GPUs, or a whole replica where that is less. */
  ghost predicate RolloutShare(r: Request, policy: string, config: RolloutConfig) {
    && r.policy == policy && r.pool == "standalone_rollout"
    && r.gpus <= config.gpusPerNode && r.gpus <= RolloutWorldSize(config)
    && (r.gpus == config.gpusPerNode || r.gpus == RolloutWorldSize(config))
  }

  lemma ExactSplit(nnodes: int, gpusPerNode: int, world: int, replicas: int, perNode: int, replicaNodes: int)
    requires world > 0 && perNode == Min(gpusPerNode, world) && perNode != 0
    requires nnodes * gpusPerNode == replicas * world && world == replicaNodes * perNode
    ensures (replicas * replicaNodes) * perNode == nnodes * gpusPerNode
    ensures nnodes > 0 <==> replicas * replicaNodes > 0
    ensures nnodes < 0 <==> replicas * replicaNodes < 0
    ensures nnodes < 0 ==> nnodes * gpusPerNode != 0
  {
    var count := replicas * replicaNodes;
    assert count * perNode == replicas * (replicaNodes * perNode);
    SameSign(count, perNode, nnodes, gpusPerNode);
  }

  /** Equal products whose second factors have the same sign have first factors of the same sign. */
  lemma SameSign(a: int, x: int, b: int, y: int)
    requires a * x == b * y && ((x > 0 && y > 0) || (x < 0 && y < 0))
    ensures (a > 0 <==> b > 0) && (a < 0 <==> b < 0)
    ensures b < 0 ==> b * y != 0
  {
    ProductSign(a, x);
    ProductSign(b, y);
  }

  lemma ProductSign(a: int, x: int)
    requires x != 0
    ensures (a == 0 <==> a * x == 0)
    ensures x > 0 ==> (a > 0 <==> a * x > 0)
    ensures x < 0 ==> (a > 0 <==> a * x < 0)
  {
  }

  function PoolGpus(pool: Option<Pool>): int {
    if pool.None? then 0 else pool.value.nnodes * pool.value.gpusPerNode
  }

  predicate Positive(pool: Pool) {
    pool.nnodes > 0 && pool.gpusPerNode > 0
  }

  /** A training stage is refused exactly when one of its pools is not positive; otherwise its requests
      are positive and add up to the GPUs of all pools that it has. */
  lemma TrainingRequestsTotal(policy: string, config: TrainingConfig)
    ensures TrainingRequests(policy, config).Ok? <==>
            && Positive(config.globalPool) && (config.rewardPool.Some? ==> Positive(config.rewardPool.value))
            && (config.teacherPool.Some? ==> Positive(config.teacherPool.value))
    ensures TrainingRequests(policy, config).Ok? ==>
              var requests := TrainingRequests(policy, config).value;
              && (forall r :: r in requests ==> r.policy == policy && r.gpus > 0)
              && Sum(Gpus(requests)) ==
                 PoolGpus(Some(config.globalPool)) + PoolGpus(config.rewardPool) + PoolGpus(config.teacherPool)
    ensures TrainingRequests(policy, config).Err? ==>
              TrainingRequests(policy, config).error == InvalidRequest(policy)
  {
    if TrainingRequests(policy, config).Ok? {
      var global := PoolRequests(policy, "global_pool", config.globalPool).value;
      var reward := OptionalPoolRequests(policy, "reward_pool", config.rewardPool).value;
      var teacher := OptionalPoolRequests(policy, "teacher_pool", config.teacherPool).value;
      PoolTotal(policy, "global_pool", Some(config.globalPool));
      PoolTotal(policy, "reward_pool", config.rewardPool);
      PoolTotal(policy, "teacher_pool", config.teacherPool);
      GpusConcat(global, reward);
      GpusConcat(global + reward, teacher);
    }
  }

  /** The pools of a training stage by the name that their placement groups carry. */
  ghost function PoolNamed(config: TrainingConfig, name: string): Option<Pool> {
    if name == "global_pool" then Some(config.globalPool)
    else if name == "reward_pool" then config.rewardPool
    else if name == "teacher_pool" then config.teacherPool
    else None
  }

  /** How often a training stage has to ask for a group of so many GPUs in the pool of that name: once
      for each node of the pool, and always for all GPUs that the pool has on a node. */
  ghost function Asked(config: TrainingConfig, pool: string, gpus: int): int {
    var size := PoolNamed(config, pool);
    if size.Some? && size.value.gpusPerNode == gpus then size.value.nnodes else 0
  }

  /** A pool is asked for as one group per node, each of the GPUs that it has on a node. */
  lemma PoolGroups(policy: string, name: string, pool: Option<Pool>, r: Request)
    requires OptionalPoolRequests(policy, name, pool).Ok?
    ensures multiset(OptionalPoolRequests(policy, name, pool).value)[r] ==
            if pool.Some? && r == Request(policy, name, pool.value.gpusPerNode) then pool.value.nnodes else 0
  {
    if pool.Some? {
      var requests := OptionalPoolRequests(policy, name, pool).value;
      if r == Request(policy, name, pool.value.gpusPerNode) {
        CountConstant(requests, r);
      } else {
        assert r !in requests;
      }
    }
  }

  lemma {:induction false} CountConstant<T>(s: seq<T>, x: T)
    requires forall i :: 0 <= i < |s| ==> s[i] == x
    ensures multiset(s)[x] == |s|
  {
    if s != [] {
      CountConstant(s[1..], x);
      assert s == [s[0]] + s[1..];
    }
  }

  /** The groups of one policy, pool by pool. */
  lemma TrainingGroups(policy: string, config: TrainingConfig, pool: string, gpus: int)
    requires TrainingRequests(policy, config).Ok?
    ensures multiset(TrainingRequests(policy, config).value)[Request(policy, pool, gpus)] ==
            Asked(config, pool, gpus)
  {
    var r := Request(policy, pool, gpus);
    PoolGroups(policy, "global_pool", Some(config.globalPool), r);
    PoolGroups(policy, "reward_pool", config.rewardPool, r);
    PoolGroups(policy, "teacher_pool", config.teacherPool, r);
  }

  lemma PoolTotal(policy: string, name: string, pool: Option<Pool>)
    requires OptionalPoolRequests(policy, name, pool).Ok?
    ensures Sum(Gpus(OptionalPoolRequests(policy, name, pool).value)) == PoolGpus(pool)
  {
    if pool.Some? {
      SumConstant(Gpus(OptionalPoolRequests(policy, name, pool).value), pool.value.gpusPerNode);
    }
  }

  lemma GpusConcat(a: seq<Request>, b: seq<Request>)
    ensures Sum(Gpus(a + b)) == Sum(Gpus(a)) + Sum(Gpus(b))
  {
    assert Gpus(a + b) == Gpus(a) + Gpus(b);
    SumConcat(Gpus(a), Gpus(b));
  }

  function ForPolicy(requests: seq<Request>, policy: string): seq<Request> {
    if requests == [] then []
    else (if requests[0].policy == policy then [requests[0]] else []) + ForPolicy(requests[1..], policy)
  }

  ghost predicate DistinctNames(policies: seq<PolicyConfig>) {
    forall i, j :: 0 <= i < j < |policies| ==> policies[i].name != policies[j].name
  }

  lemma {:induction false} ForPolicyConcat(a: seq<Request>, b: seq<Request>, policy: string)
    ensures ForPolicy(a + b, policy) == ForPolicy(a, policy) + ForPolicy(b, policy)
  {
    if a == [] {
      assert a + b == b;
    } else {
      assert (a + b)[1..] == a[1..] + b && (a + b)[0] == a[0];
      ForPolicyConcat(a[1..], b, policy);
      var head := if a[0].policy == policy then [a[0]] else [];
      assert ForPolicy(a, policy) == head + ForPolicy(a[1..], policy);
      assert head + (ForPolicy(a[1..], policy) + ForPolicy(b, policy)) == ForPolicy(a, policy) + ForPolicy(b, policy);
    }
  }

  lemma {:induction false} ForPolicyAllOrNone(requests: seq<Request>, owner: string, policy: string)
    requires forall r :: r in requests ==> r.policy == owner
    ensures ForPolicy(requests, policy) == if owner == policy then requests else []
  {
    if requests != [] {
      ForPolicyAllOrNone(requests[1..], owner, policy);
      assert requests == [requests[0]] + requests[1..];
    }
  }

  lemma PolicyRequestsOwned(stage: Stage, policy: PolicyConfig)
    requires PolicyRequests(stage, policy).Ok?
    ensures forall r :: r in PolicyRequests(stage, policy).value ==> r.policy == policy.name
  {
    if stage.Training? {
      TrainingRequestsTotal(policy.name, policy.training);
    } else {
      RolloutRequestsTotal(policy.name, policy.rollout);
    }
  }

  lemma ForPolicyFirst(stage: Stage, policies: seq<PolicyConfig>, name: string)
    requires policies != [] && AllRequests(stage, policies).Ok?
    ensures PolicyRequests(stage, policies[0]).Ok? && AllRequests(stage, policies[1..]).Ok?
    ensures ForPolicy(AllRequests(stage, policies).value, name) ==
            (if policies[0].name == name then PolicyRequests(stage, policies[0]).value else []) +
            ForPolicy(AllRequests(stage, policies[1..]).value, name)
  {
    var first, rest := PolicyRequests(stage, policies[0]), AllRequests(stage, policies[1..]);
    ForPolicyConcat(first.value, rest.value, name);
    PolicyRequestsOwned(stage, policies[0]);
    ForPolicyAllOrNone(first.value, policies[0].name, name);
  }

  /** In the whole list, the requests of a policy are exactly its own, in order. */
  lemma {:induction false} RequestsOfPolicy(stage: Stage, policies: seq<PolicyConfig>, k: nat)
    requires DistinctNames(policies) && AllRequests(stage, policies).Ok? && k < |policies|
    ensures PolicyRequests(stage, policies[k]).Ok?
    ensures ForPolicy(AllRequests(stage, policies).value, policies[k].name) ==
            PolicyRequests(stage, policies[k]).value
  {
    ForPolicyFirst(stage, policies, policies[k].name);
    if k == 0 {
      NoRequestsOfOthers(stage, policies[1..], policies[k].name);
    } else {
      RequestsOfPolicy(stage, policies[1..], k - 1);
    }
  }

  lemma {:induction false} NoRequestsOfOthers(stage: Stage, policies: seq<PolicyConfig>, name: string)
    requires AllRequests(stage, policies).Ok? && forall p :: p in policies ==> p.name != name
    ensures ForPolicy(AllRequests(stage, policies).value, name) == []
  {
    if policies != [] {
      ForPolicyFirst(stage, policies, name);
      NoRequestsOfOthers(stage, policies[1..], name);
    }
  }

  /** The first policy that is refused decides the error; with none, every policy has its requests. */
  lemma {:induction false} FirstRefusedDecides(stage: Stage, policies: seq<PolicyConfig>)
    ensures AllRequests(stage, policies).Ok? <==> forall p :: p in policies ==> PolicyRequests(stage, p).Ok?
    ensures AllRequests(stage, policies).Err? ==>
              exists k :: 0 <= k < |policies| && PolicyRequests(stage, policies[k]).Err? &&
                PolicyRequests(stage, policies[k]).error == AllRequests(stage, policies).error &&
                forall j :: 0 <= j < k ==> PolicyRequests(stage, policies[j]).Ok?
  {
    hide PolicyRequests;
    if policies != [] {
      FirstRefusedDecides(stage, policies[1..]);
      assert policies == [policies[0]] + policies[1..];
      if PolicyRequests(stage, policies[0]).Ok? && AllRequests(stage, policies[1..]).Err? {
        var k :| 0 <= k < |policies[1..]| && PolicyRequests(stage, policies[1..][k]).Err? &&
          PolicyRequests(stage, policies[1..][k]).error == AllRequests(stage, policies).error &&
          forall j :: 0 <= j < k ==> PolicyRequests(stage, policies[1..][j]).Ok?;
        assert policies[k + 1] == policies[1..][k];
        assert forall j :: 0 < j < k + 1 ==> policies[j] == policies[1..][j - 1];
      }
    }
  }

  /** `groups` are the placement groups of a training stage in some order: for every policy and every
      pool that it has, one group per node of the pool with the GPUs of that node, and nothing else. */
  ghost predicate GroupsOfPools(groups: seq<Request>, policies: seq<PolicyConfig>) {
    && (forall p, pool, gpus :: p in policies ==>
          multiset(groups)[Request(p.name, pool, gpus)] == Asked(p.training, pool, gpus))
    && (forall r :: r in groups ==> exists p :: p in policies && p.name == r.policy)
  }

  lemma {:induction false} CountInPolicy(requests: seq<Request>, r: Request)
    ensures multiset(ForPolicy(requests, r.policy))[r] == multiset(requests)[r]
  {
    if requests != [] {
      CountInPolicy(requests[1..], r);
      assert requests == [requests[0]] + requests[1..];
    }
  }

  lemma {:induction false} RequestsAreOwned(stage: Stage, policies: seq<PolicyConfig>, r: Request)
    requires AllRequests(stage, policies).Ok? && r in AllRequests(stage, policies).value
    ensures exists p :: p in policies && p.name == r.policy
  {
    hide PolicyRequests;
    var first, rest := PolicyRequests(stage, policies[0]), AllRequests(stage, policies[1..]);
    if r in first.value {
      PolicyRequestsOwned(stage, policies[0]);
      assert policies[0] in policies;
    } else {
      RequestsAreOwned(stage, policies[1..], r);
    }
  }

  /** The requests of a training stage are the groups of its policies' pools. */
  lemma TrainingStageGroups(policies: seq<PolicyConfig>)
    requires DistinctNames(policies) && AllRequests(Training, policies).Ok?
    ensures GroupsOfPools(AllRequests(Training, policies).value, policies)
  {
    hide Asked, TrainingRequests, AllRequests, ForPolicy;
    var all := AllRequests(Training, policies).value;
    forall p, pool, gpus | p in policies
      ensures multiset(all)[Request(p.name, pool, gpus)] == Asked(p.training, pool, gpus)
    {
      var k :| 0 <= k < |policies| && policies[k] == p;
      RequestsOfPolicy(Training, policies, k);
      CountInPolicy(all, Request(p.name, pool, gpus));
      TrainingGroups(p.name, p.training, pool, gpus);
    }
    forall r | r in all ensures exists p :: p in policies && p.name == r.policy {
      RequestsAreOwned(Training, policies, r);
    }
  }

  lemma GroupsOfPoolsUnique(a: seq<Request>, b: seq<Request>, policies: seq<PolicyConfig>)
    requires GroupsOfPools(a, policies) && GroupsOfPools(b, policies)
    ensures multiset(a) == multiset(b)
  {
    forall r ensures multiset(a)[r] == multiset(b)[r] {
      if p :| p in policies && p.name == r.policy {
        assert r == Request(p.name, r.pool, r.gpus);
      } else {
        assert r !in a && r !in b;
      }
    }
  }

  // ----- the preflight check -----

  function NonNegativePart(s: seq<int>): seq<int> {
    if s == [] then []
    else if s[0] < 0 then NonNegativePart(s[1..])
    else [s[0]] + NonNegativePart(s[1..])
  }

  lemma {:induction false} NonNegativePartFacts(s: seq<int>)
    ensures NonNegative(NonNegativePart(s))
    ensures NonNegative(s) ==> NonNegativePart(s) == s
    ensures Sum(s) <= Sum(NonNegativePart(s))
  {
    if s != [] {
      NonNegativePartFacts(s[1..]);
      assert NonNegative(s) ==> NonNegative(s[1..]);
      assert s[0] >= 0 ==> NonNegativePart(s)[1..] == NonNegativePart(s[1..]);
      assert s == [s[0]] + s[1..];
    }
  }

  lemma {:induction false} NonNegativePartOfInsert(x: int, s: seq<int>)
    requires Descending(s)
    ensures NonNegativePart(InsertDescending(x, s)) ==
            if x >= 0 then InsertDescending(x, NonNegativePart(s)) else NonNegativePart(s)
  {
    if s == [] || x >= s[0] {
      assert ([x] + s)[1..] == s;
      if s != [] && s[0] >= 0 {
        assert NonNegativePart(s)[0] == s[0];
      } else if s != [] {
        AllNegative(s);
      }
    } else {
      var inserted := InsertDescending(x, s);
      assert inserted[1..] == InsertDescending(x, s[1..]);
      NonNegativePartOfInsert(x, s[1..]);
      assert s[0] >= 0 ==> NonNegativePart(s)[1..] == NonNegativePart(s[1..]);
    }
  }

  lemma {:induction false} AllNegative(s: seq<int>)
    requires forall i :: 0 <= i < |s| ==> s[i] < 0
    ensures NonNegativePart(s) == []
  {
    if s != [] {
      AllNegative(s[1..]);
    }
  }

  lemma {:induction false} SortNonNegativePart(s: seq<int>)
    ensures NonNegativePart(SortDescending(s)) == SortDescending(NonNegativePart(s))
  {
    if s != [] {
      SortNonNegativePart(s[1..]);
      NonNegativePartOfInsert(s[0], SortDescending(s[1..]));
      assert s[0] >= 0 ==> NonNegativePart(s)[1..] == NonNegativePart(s[1..]);
    }
  }

  lemma {:induction false} NonNegativePartIsPrefix(s: seq<int>) returns (k: nat)
    requires Descending(s)
    ensures k <= |s| && NonNegativePart(s) == s[..k]
    ensures forall i :: k <= i < |s| ==> s[i] < 0
  {
    if s == [] {
      k := 0;
    } else if s[0] < 0 {
      AllNegative(s);
      k := 0;
    } else {
      var rest := NonNegativePartIsPrefix(s[1..]);
      k := rest + 1;
    }
  }

  /** The search decides packability of the demands that are not negative. */
  lemma SearchDecides(demands: seq<int>, capacities: seq<int>)
    requires NonNegative(capacities)
    ensures Sum(demands) <= Sum(capacities) && Fits(SortDescending(demands), SortDescending(capacities)) <==>
            Packable(NonNegativePart(demands), capacities) && (capacities == [] ==> demands == [])
  {
    var sorted := SortDescending(demands);
    FitsOfPermutation(sorted, SortDescending(capacities), capacities);
    var k := NonNegativePartIsPrefix(sorted);
    NonNegativePartFacts(sorted);
    if capacities != [] {
      NegativeTailAlwaysFits(sorted, k, capacities);
    }
    SortNonNegativePart(demands);
    PackableSorted(NonNegativePart(demands), capacities);
    if Packable(NonNegativePart(demands), capacities) {
      PackableWithinTotal(NonNegativePart(demands), capacities);
      NonNegativePartFacts(demands);
    }
    if demands == [] {
      PackableNone(capacities);
    }
  }

  /** What a training stage needs of the nodes: every pool of every policy gets one group per node of
      the pool, each with all GPUs that the pool has on a node, and each group whole on one node. */
  ghost predicate PoolsFit(policies: seq<PolicyConfig>, capacities: seq<int>) {
    exists groups, nodeOf :: GroupsOfPools(groups, policies) && Assigns(nodeOf, Gpus(groups), capacities)
  }

  lemma {:induction false} GpusPermuted(a: seq<Request>, b: seq<Request>)
    requires multiset(a) == multiset(b)
    ensures multiset(Gpus(a)) == multiset(Gpus(b))
  {
    if a == [] {
      assert |multiset(b)| == 0;
    } else {
      var j := SameMultisetMember(a, b, 0);
      WithoutOne(a, 0);
      WithoutOne(b, j);
      GpusPermuted(a[1..], b[..j] + b[j + 1..]);
      GpusWithoutOne(a, 0);
      GpusWithoutOne(b, j);
    }
  }

  lemma GpusWithoutOne(s: seq<Request>, i: nat)
    requires i < |s|
    ensures multiset(Gpus(s)) == multiset(Gpus(s[..i] + s[i + 1..])) + multiset{s[i].gpus}
    ensures i == 0 ==> s[..i] + s[i + 1..] == s[1..]
  {
    assert Gpus(s[..i] + s[i + 1..]) == Gpus(s)[..i] + Gpus(s)[i + 1..];
    WithoutOne(Gpus(s), i);
  }

  lemma PackablePermuted(a: seq<int>, b: seq<int>, capacities: seq<int>)
    requires multiset(a) == multiset(b) && Packable(a, capacities)
    ensures Packable(b, capacities)
  {
    SortPermuted(a, b);
    PackableSorted(a, capacities);
    PackableSorted(b, capacities);
  }

  lemma TrainingStageFits(policies: seq<PolicyConfig>, capacities: seq<int>)
    requires DistinctNames(policies) && AllRequests(Training, policies).Ok?
    ensures Packable(Gpus(AllRequests(Training, policies).value), capacities) <==> PoolsFit(policies, capacities)
  {
    hide AllRequests, GroupsOfPools, Assigns;
    var all := AllRequests(Training, policies).value;
    TrainingStageGroups(policies);
    if Packable(Gpus(all), capacities) {
      var nodeOf :| Assigns(nodeOf, Gpus(all), capacities);
    }
    if PoolsFit(policies, capacities) {
      var groups, nodeOf :| GroupsOfPools(groups, policies) && Assigns(nodeOf, Gpus(groups), capacities);
      GroupsOfPoolsUnique(groups, all, policies);
      GpusPermuted(groups, all);
      PackablePermuted(Gpus(groups), Gpus(all), capacities);
    }
  }

  ghost predicate PoolsPositive(config: TrainingConfig) {
    forall name :: PoolNamed(config, name).Some? ==> Positive(PoolNamed(config, name).value)
  }

  lemma TrainingStageIsPositive(policies: seq<PolicyConfig>)
    ensures AllRequests(Training, policies).Ok? <==> forall p :: p in policies ==> PoolsPositive(p.training)
    ensures AllRequests(Training, policies).Ok? ==> NonNegative(Gpus(AllRequests(Training, policies).value))
  {
    hide AllRequests, TrainingRequests;
    FirstRefusedDecides(Training, policies);
    forall p | p in policies ensures PolicyRequests(Training, p).Ok? <==> PoolsPositive(p.training) {
      TrainingRequestsTotal(p.name, p.training);
      assert PoolNamed(p.training, "global_pool") == Some(p.training.globalPool);
      assert PoolNamed(p.training, "reward_pool") == p.training.rewardPool;
      assert PoolNamed(p.training, "teacher_pool") == p.training.teacherPool;
    }
    if AllRequests(Training, policies).Ok? {
      var all := AllRequests(Training, policies).value;
      forall i | 0 <= i < |all| ensures all[i].gpus >= 0 {
        TrainingRequestsPositive(policies, all[i]);
      }
    }
  }

  lemma {:induction false} TrainingRequestsPositive(policies: seq<PolicyConfig>, r: Request)
    requires AllRequests(Training, policies).Ok? && r in AllRequests(Training, policies).value
    ensures r.gpus > 0
  {
    hide TrainingRequests;
    if r in PolicyRequests(Training, policies[0]).value {
      TrainingRequestsTotal(policies[0].name, policies[0].training);
    } else {
      TrainingRequestsPositive(policies[1..], r);
    }
  }

  /** A pool that has more GPUs on a node than any node of the cluster cannot be placed, however many
      GPUs there are in all. */
  lemma LargePoolNeverFits(policies: seq<PolicyConfig>, capacities: seq<nat>, p: PolicyConfig, pool: string)
    requires (forall q :: q in policies ==> PoolsPositive(q.training)) && p in policies
    requires PoolNamed(p.training, pool).Some?
    requires forall n :: 0 <= n < |capacities| ==> capacities[n] < PoolNamed(p.training, pool).value.gpusPerNode
    ensures !PoolsFit(policies, capacities)
  {
    var size := PoolNamed(p.training, pool).value;
    if PoolsFit(policies, capacities) {
      var groups, nodeOf :| GroupsOfPools(groups, policies) && Assigns(nodeOf, Gpus(groups), capacities);
      var r := Request(p.name, pool, size.gpusPerNode);
      assert multiset(groups)[r] == Asked(p.training, pool, size.gpusPerNode) == size.nnodes > 0;
      assert r in groups;
      var i :| 0 <= i < |groups| && groups[i] == r;
      GroupsArePositive(groups, policies);
      LoadAtLeast(Gpus(groups), nodeOf, i);
      assert false;
    }
  }

  lemma GroupsArePositive(groups: seq<Request>, policies: seq<PolicyConfig>)
    requires (forall q :: q in policies ==> PoolsPositive(q.training)) && GroupsOfPools(groups, policies)
    ensures NonNegative(Gpus(groups))
  {
    forall i | 0 <= i < |groups| ensures groups[i].gpus >= 0 {
      var r := groups[i];
      assert r in groups;
      var q :| q in policies && q.name == r.policy;
      assert multiset(groups)[Request(q.name, r.pool, r.gpus)] == Asked(q.training, r.pool, r.gpus);
      assert r == Request(q.name, r.pool, r.gpus) && multiset(groups)[r] > 0;
    }
  }

  /** A node carries at least each of the demands that are on it. */
  lemma {:induction false} LoadAtLeast(demands: seq<int>, nodeOf: seq<nat>, i: nat)
    requires |nodeOf| == |demands| && NonNegative(demands) && i < |demands|
    ensures Load(demands, nodeOf, nodeOf[i]) >= demands[i]
  {
    assert NonNegative(demands[1..]);
    LoadNonNegative(demands[1..], nodeOf[1..], nodeOf[i]);
    if i > 0 {
      LoadAtLeast(demands[1..], nodeOf[1..], i - 1);
    }
  }

  lemma {:induction false} LoadNonNegative(demands: seq<int>, nodeOf: seq<nat>, node: nat)
    requires |nodeOf| == |demands| && NonNegative(demands)
    ensures Load(demands, nodeOf, node) >= 0
  {
    if demands != [] {
      LoadNonNegative(demands[1..], nodeOf[1..], node);
    }
  }

  lemma NothingPacksOnNoNodes(demands: seq<int>)
    ensures Packable(demands, []) <==> demands == []
  {
    if demands == [] {
      PackableNone([]);
    } else {
      PackableFirst(demands, []);
    }
  }

  /** One replica on one node: `size` GPUs asked for on a node that is configured with `gpusPerNode`. */
  function OneReplica(name: string, training: TrainingConfig, gpusPerNode: int, size: int): PolicyConfig {
    PolicyConfig(name, training, RolloutConfig(1, gpusPerNode, size, 1, 1, None))
  }

  /** A negative GPU count per node passes the divisibility checks and is asked for as it is. */
  lemma OneReplicaRequest(name: string, training: TrainingConfig, gpusPerNode: int, size: int)
    requires size > 0 && (gpusPerNode == size || gpusPerNode == -size)
    ensures PolicyRequests(Rollout, OneReplica(name, training, gpusPerNode, size)) ==
            Ok([Request(name, "standalone_rollout", gpusPerNode)])
  {
    var config := OneReplica(name, training, gpusPerNode, size).rollout;
    var total, perNode := config.nnodes * config.gpusPerNode, Min(gpusPerNode, size);
    assert RolloutWorldSize(config) == size && total == gpusPerNode && perNode == gpusPerNode;
    var sign := if gpusPerNode == size then 1 else -1;
    assert total == sign * size && size == sign * perNode;
    ExactQuotient(total, size, sign);
    ExactQuotient(size, perNode, sign);
    assert Repeat(Request(name, "standalone_rollout", gpusPerNode), 1) ==
           [Request(name, "standalone_rollout", gpusPerNode)];
  }

  lemma ExactQuotient(a: int, b: int, q: int)
    requires b != 0 && a == q * b
    ensures a % b == 0 && a / b == q
  {
    assert (q - a / b) * b == a % b;
    if q != a / b {
      MultipleIsLarge(q - a / b, b);
    }
  }

  lemma MultipleIsLarge(d: int, b: int)
    requires d != 0 && b != 0
    ensures d * b < 0 || (d * b >= b && d * b >= -b)
  {
  }

  /** With a negative number of nodes a policy passes the checks and asks for nothing. */
  lemma NegativeNodesAskForNothing(policy: string, size: int)
    requires size > 0
    ensures RolloutRequests(policy, RolloutConfig(-1, size, size, 1, 1, None)) == Ok([])
  {
    var config := RolloutConfig(-1, size, size, 1, 1, None);
    assert RolloutWorldSize(config) == size && config.nnodes * config.gpusPerNode == -1 * size;
    ExactQuotient(-1 * size, size, -1);
    ExactQuotient(size, size, 1);
    assert Repeat(Request(policy, "standalone_rollout", size), -1) == [];
  }

  /** A configuration that reaches the check with a negative request: two policies ask for 5 and for -5
      GPUs, one node without GPUs could hold both, and the search rejects them. */
  lemma NegativeRequestsAreRejected(training: TrainingConfig, a: string, b: string)
    ensures var policies := [OneReplica(a, training, 5, 5), OneReplica(b, training, -5, 5)];
            && AllRequests(Rollout, policies).Ok?
            && var demands := Gpus(AllRequests(Rollout, policies).value);
               && demands == [5, -5] && Packable(demands, [0]) && Sum(demands) <= Sum([0])
               && !Fits(SortDescending(demands), SortDescending([0]))
  {
    hide PolicyRequests, OneReplica;
    var first, second := OneReplica(a, training, 5, 5), OneReplica(b, training, -5, 5);
    var five, minus := Request(a, "standalone_rollout", 5), Request(b, "standalone_rollout", -5);
    OneReplicaRequest(a, training, 5, 5);
    OneReplicaRequest(b, training, -5, 5);
    assert [first, second][1..] == [second] && [second][1..] == [];
    assert AllRequests(Rollout, [second]) == Ok([minus] + []);
    assert AllRequests(Rollout, [first, second]) == Ok([five] + ([minus] + []));
    assert Gpus([five] + ([minus] + [])) == [5, -5];
    FiveAndMinusFive();
  }

  lemma FiveAndMinusFive()
    ensures Packable([5, -5], [0]) && Sum([5, -5]) <= Sum([0])
    ensures !Fits(SortDescending([5, -5]), SortDescending([0]))
  {
    assert [5, -5][1..] == [-5] && [-5][1..] == [] && [0][1..] == [];
    assert Sum([-5]) == -5 && Sum([5, -5]) == 0 && Sum([0]) == 0;
    assert SortDescending([0]) == [0];
    NegativeDemandCounterexample();
  }

  /** `capacities` are the per-node GPU counts of the Ray snapshot. */
  method ValidateStageResources(stage: Stage, policies: seq<PolicyConfig>, capacities: seq<nat>)
    returns (result: Result<(), StageError>)
    ensures AllRequests(stage, policies).Err? ==> result == Err(AllRequests(stage, policies).error)
    ensures AllRequests(stage, policies).Ok? ==>
              var demands := Gpus(AllRequests(stage, policies).value);
              && (result.Ok? <==> Packable(NonNegativePart(demands), capacities) &&
                                  (capacities == [] ==> demands == []))
              && (NonNegative(demands) ==> (result.Ok? <==> Packable(demands, capacities)))
              && (result == Err(InsufficientGpus) <==> Sum(demands) > Sum(capacities))
              && (result.Err? ==> result.error in {InsufficientGpus, NotStrictPackable})
    ensures stage == Training && DistinctNames(policies) ==>
              (result.Ok? <==> (forall p :: p in policies ==> PoolsPositive(p.training)) &&
                               PoolsFit(policies, capacities))
  {
    if stage == Training && DistinctNames(policies) {
      TrainingStageIsPositive(policies);
      if AllRequests(stage, policies).Ok? {
        TrainingStageFits(policies, capacities);
      }
    }
    var requests := GetStageResourceRequests(stage, policies);
    if requests.Err? {
      return Err(requests.error);
    }
    var demands := Gpus(requests.value);
    SearchDecides(demands, capacities);
    NonNegativePartFacts(demands);
    NothingPacksOnNoNodes(demands);
    if Sum(capacities) < Sum(demands) {
      return Err(InsufficientGpus);
    }
    var search := new StrictPackSearch(SortDescending(demands));
    var packed := search.CanStrictPack(0, SortDescending(capacities));
    assert search.demands[0..] == SortDescending(demands);
    return if packed then Ok(()) else Err(NotStrictPackable);
  }

  // ----- init waves -----

  datatype Wave = Wave(footprint: int, policies: seq<string>)

  /** The largest standalone rollout request of a policy; 0 when none exceeds it. */
  function Footprint(requests: seq<Request>, policy: string): int {
    if requests == [] then 0
    else
      var rest := Footprint(requests[..|requests| - 1], policy);
      var last := requests[|requests| - 1];
      if last.policy == policy && last.pool == "standalone_rollout" && last.gpus > rest then last.gpus else rest
  }

  predicate HasRollout(requests: seq<Request>, policy: string) {
    exists i :: 0 <= i < |requests| && requests[i].policy == policy && requests[i].pool == "standalone_rollout"
  }

  predicate RolloutOf(r: Request, policy: string) {
    r.policy == policy && r.pool == "standalone_rollout"
  }

  /** It bounds all of them, and is the size of one of them or 0. */
  lemma {:induction false} FootprintIsLargest(requests: seq<Request>, policy: string)
    ensures Footprint(requests, policy) >= 0
    ensures forall r :: r in requests && RolloutOf(r, policy) ==> r.gpus <= Footprint(requests, policy)
    ensures Footprint(requests, policy) == 0 ||
            exists r :: r in requests && RolloutOf(r, policy) && r.gpus == Footprint(requests, policy)
  {
    if requests != [] {
      var last := requests[|requests| - 1];
      FootprintIsLargest(requests[..|requests| - 1], policy);
      assert requests == requests[..|requests| - 1] + [last];
      assert last in requests;
    }
  }

  lemma {:induction false} ForPolicyMember(requests: seq<Request>, policy: string, r: Request)
    ensures r in ForPolicy(requests, policy) <==> r in requests && r.policy == policy
  {
    if requests != [] {
      ForPolicyMember(requests[1..], policy, r);
      assert requests == [requests[0]] + requests[1..];
    }
  }

  /** For a policy that has rollout requests, the footprint is the number of GPUs that one of its
      replicas takes on a node: the smaller of the node's GPUs and the replica's, if that is positive. */
  lemma FootprintOfPolicy(policies: seq<PolicyConfig>, policy: PolicyConfig)
    requires DistinctNames(policies) && AllRequests(Rollout, policies).Ok? && policy in policies
    requires HasRollout(AllRequests(Rollout, policies).value, policy.name)
    ensures var perNode := Min(policy.rollout.gpusPerNode, RolloutWorldSize(policy.rollout));
            Footprint(AllRequests(Rollout, policies).value, policy.name) == if perNode > 0 then perNode else 0
  {
    hide Footprint, AllRequests, ForPolicy, Min, RolloutWorldSize;
    var all, name := AllRequests(Rollout, policies).value, policy.name;
    var perNode := Min(policy.rollout.gpusPerNode, RolloutWorldSize(policy.rollout));
    var k :| 0 <= k < |policies| && policies[k] == policy;
    RequestsOfPolicy(Rollout, policies, k);
    forall r ensures r in all && RolloutOf(r, name) ==> r.gpus == perNode {
      ForPolicyMember(all, name, r);
    }
    FootprintIsLargest(all, name);
    var i :| 0 <= i < |all| && all[i].policy == name && all[i].pool == "standalone_rollout";
    assert all[i] in all && RolloutOf(all[i], name);
  }

  function WithFootprint(footprints: map<string, int>, policies: seq<string>, footprint: int): seq<string> {
    if policies == [] then []
    else
      var last := |policies| - 1;
      WithFootprint(footprints, policies[..last], footprint) +
      (if policies[last] in footprints && footprints[policies[last]] == footprint then [policies[last]] else [])
  }

  lemma {:induction false} WithFootprintMember(footprints: map<string, int>, policies: seq<string>, footprint: int)
    ensures forall p :: p in WithFootprint(footprints, policies, footprint) <==>
              p in policies && p in footprints && footprints[p] == footprint
  {
    if policies != [] {
      WithFootprintMember(footprints, policies[..|policies| - 1], footprint);
      assert policies == policies[..|policies| - 1] + [policies[|policies| - 1]];
    }
  }

  /** And they stand in configuration order. */
  lemma {:induction false} WithFootprintInOrder(footprints: map<string, int>, policies: seq<string>, footprint: int,
                                                a: nat, b: nat) returns (i: nat, j: nat)
    requires a < b < |WithFootprint(footprints, policies, footprint)|
    ensures i < j < |policies|
    ensures policies[i] == WithFootprint(footprints, policies, footprint)[a]
    ensures policies[j] == WithFootprint(footprints, policies, footprint)[b]
  {
    var last := |policies| - 1;
    var before := WithFootprint(footprints, policies[..last], footprint);
    if b < |before| {
      i, j := WithFootprintInOrder(footprints, policies[..last], footprint, a, b);
    } else {
      WithFootprintMember(footprints, policies[..last], footprint);
      assert before[a] in before;
      i :| 0 <= i < last && policies[..last][i] == before[a];
      j := last;
    }
  }

  /** The waves partition the policies by footprint, largest first, each in configuration order. */
  ghost predicate IsWaves(footprints: map<string, int>, policies: seq<string>, waves: seq<Wave>) {
    && (forall i, j :: 0 <= i < j < |waves| ==> waves[i].footprint > waves[j].footprint)
    && (forall i :: 0 <= i < |waves| ==>
          waves[i].policies != [] &&
          waves[i].policies == WithFootprint(footprints, policies, waves[i].footprint))
    && (forall p :: p in policies ==> exists i :: 0 <= i < |waves| && p in waves[i].policies)
  }

  /** A policy is brought up once: it is in one wave only. */
  lemma WavesPartition(footprints: map<string, int>, policies: seq<string>, waves: seq<Wave>)
    requires IsWaves(footprints, policies, waves)
    ensures forall p :: (exists i :: 0 <= i < |waves| && p in waves[i].policies) <==> p in policies
    ensures forall i, j, p :: 0 <= i < j < |waves| && p in waves[i].policies ==> p !in waves[j].policies
  {
    forall i | 0 <= i < |waves|
      ensures forall p :: p in waves[i].policies <==>
                p in policies && p in footprints && footprints[p] == waves[i].footprint
    {
      WithFootprintMember(footprints, policies, waves[i].footprint);
    }
  }

  method PolicyFootprints(requests: seq<Request>) returns (footprints: map<string, int>)
    ensures forall p :: p in footprints <==> HasRollout(requests, p)
    ensures forall p :: p in footprints ==> footprints[p] == Footprint(requests, p)
  {
    footprints := map[];
    for i := 0 to |requests|
      invariant forall p :: p in footprints <==> HasRollout(requests[..i], p)
      invariant forall p :: Footprint(requests[..i], p) == if p in footprints then footprints[p] else 0
    {
      var r := requests[i];
      FootprintStep(requests, i);
      if r.pool != "standalone_rollout" {
        continue;
      }
      var known := if r.policy in footprints then footprints[r.policy] else 0;
      footprints := footprints[r.policy := if r.gpus > known then r.gpus else known];
    }
    assert requests[..|requests|] == requests;
  }

  lemma FootprintStep(requests: seq<Request>, i: nat)
    requires i < |requests|
    ensures var r, before, after := requests[i], requests[..i], requests[..i + 1];
            forall p ::
              && (HasRollout(after, p) <==>
                  HasRollout(before, p) || (r.policy == p && r.pool == "standalone_rollout"))
              && Footprint(after, p) ==
                 if r.policy == p && r.pool == "standalone_rollout" && r.gpus > Footprint(before, p)
                 then r.gpus else Footprint(before, p)
  {
    var r, before, after := requests[i], requests[..i], requests[..i + 1];
    assert after[..i] == before && after[i] == r;
    forall p
      ensures HasRollout(after, p) <==>
              HasRollout(before, p) || (r.policy == p && r.pool == "standalone_rollout")
    {
      if j :| 0 <= j < |before| && before[j].policy == p && before[j].pool == "standalone_rollout" {
        assert after[j] == before[j];
      }
    }
  }

  ghost predicate IsGroup(footprints: map<string, int>, policies: seq<string>, f: int,
                          groups: map<int, seq<string>>)
  {
    WithFootprint(footprints, policies, f) == if f in groups then groups[f] else []
  }

  /** `groups` holds the non-empty groups of `policies`; `order` lists their keys, each once. */
  ghost predicate Grouped(footprints: map<string, int>, policies: seq<string>,
                          order: seq<int>, groups: map<int, seq<string>>)
  {
    && (forall f :: f in order <==> f in groups)
    && (forall i, j :: 0 <= i < j < |order| ==> order[i] != order[j])
    && (forall f :: IsGroup(footprints, policies, f, groups))
    && (forall f :: f in groups ==> groups[f] != [])
  }

  method GroupByFootprint(policies: seq<string>, footprints: map<string, int>)
    returns (order: seq<int>, groups: map<int, seq<string>>)
    requires forall p :: p in policies ==> p in footprints
    ensures Grouped(footprints, policies, order, groups)
  {
    order, groups := [], map[];
    for i := 0 to |policies|
      invariant Grouped(footprints, policies[..i], order, groups)
    {
      var footprint := footprints[policies[i]];
      GroupStep(footprints, policies, i, order, groups);
      if footprint !in groups {
        order, groups := order + [footprint], groups[footprint := [policies[i]]];
      } else {
        groups := groups[footprint := groups[footprint] + [policies[i]]];
      }
    }
    assert policies[..|policies|] == policies;
  }

  lemma GroupStep(footprints: map<string, int>, policies: seq<string>, i: nat,
                  order: seq<int>, groups: map<int, seq<string>>)
    requires i < |policies| && policies[i] in footprints
    requires Grouped(footprints, policies[..i], order, groups)
    ensures var f := footprints[policies[i]];
            if f in groups then Grouped(footprints, policies[..i + 1], order, groups[f := groups[f] + [policies[i]]])
            else Grouped(footprints, policies[..i + 1], order + [f], groups[f := [policies[i]]])
  {
    hide WithFootprint;
    var f := footprints[policies[i]];
    var newGroups := if f in groups then groups[f := groups[f] + [policies[i]]] else groups[f := [policies[i]]];
    var after := policies[..i + 1];
    forall g ensures IsGroup(footprints, after, g, newGroups) {
      WithFootprintStep(footprints, policies, i, g);
      assert IsGroup(footprints, policies[..i], g, groups);
    }
  }

  lemma WithFootprintStep(footprints: map<string, int>, policies: seq<string>, i: nat, g: int)
    requires i < |policies|
    ensures WithFootprint(footprints, policies[..i + 1], g) ==
            WithFootprint(footprints, policies[..i], g) +
            (if policies[i] in footprints && footprints[policies[i]] == g then [policies[i]] else [])
  {
    assert policies[..i + 1][..i] == policies[..i];
  }

  lemma SortedStrictly(s: seq<int>, sorted: seq<int>)
    requires multiset(s) == multiset(sorted) && Descending(sorted)
    requires forall i, j :: 0 <= i < j < |s| ==> s[i] != s[j]
    ensures forall i, j :: 0 <= i < j < |sorted| ==> sorted[i] > sorted[j]
  {
    forall i, j | 0 <= i < j < |sorted| ensures sorted[i] != sorted[j] {
      if sorted[i] == sorted[j] {
        CountedTwice(sorted, i, j);
        OccursTwice(s, sorted[i]);
      }
    }
  }

  lemma CountedTwice(s: seq<int>, i: nat, j: nat)
    requires i < j < |s| && s[i] == s[j]
    ensures multiset(s)[s[i]] >= 2
  {
    var x := s[i];
    assert s == s[..i] + [x] + s[i + 1..j] + [x] + s[j + 1..];
  }

  lemma {:induction false} OccursTwice(s: seq<int>, x: int)
    requires multiset(s)[x] >= 2
    ensures exists i, j :: 0 <= i < j < |s| && s[i] == s[j]
  {
    assert s == [s[0]] + s[1..];
    if s[0] == x {
      assert x in multiset(s[1..]);
      var j :| 0 <= j < |s[1..]| && s[1..][j] == x;
      assert s[0] == s[j + 1];
    } else {
      OccursTwice(s[1..], x);
      var i, j :| 0 <= i < j < |s[1..]| && s[1..][i] == s[1..][j];
      assert s[i + 1] == s[j + 1];
    }
  }

  method GetRolloutInitWaves(configs: seq<PolicyConfig>, policies: seq<string>)
    returns (result: Result<seq<Wave>, StageError>, ghost footprints: map<string, int>)
    ensures AllRequests(Rollout, configs).Err? ==> result == Err(AllRequests(Rollout, configs).error)
    ensures AllRequests(Rollout, configs).Ok? ==>
              var requests := AllRequests(Rollout, configs).value;
              && (forall p :: p in footprints <==> HasRollout(requests, p))
              && (forall p :: p in footprints ==> footprints[p] == Footprint(requests, p))
              && (result.Ok? <==> forall p :: p in policies ==> HasRollout(requests, p))
              && (result.Err? ==> result.error == MissingPolicies)
              && (result.Ok? ==> IsWaves(footprints, policies, result.value))
  {
    var all := GetStageResourceRequests(Rollout, configs);
    footprints := map[];
    if all.Err? {
      return Err(all.error), footprints;
    }
    var known := PolicyFootprints(all.value);
    footprints := known;
    if exists p :: p in policies && p !in known {
      return Err(MissingPolicies), footprints;
    }
    var order, groups := GroupByFootprint(policies, known);
    var waves := WavesByFootprint(known, policies, order, groups);
    return Ok(waves), footprints;
  }

  method WavesByFootprint(ghost footprints: map<string, int>, ghost policies: seq<string>,
                          order: seq<int>, groups: map<int, seq<string>>) returns (waves: seq<Wave>)
    requires Grouped(footprints, policies, order, groups)
    requires forall p :: p in policies ==> p in footprints
    ensures IsWaves(footprints, policies, waves)
  {
    var sorted := SortDescending(order);
    SortedStrictly(order, sorted);
    SameElements(order, sorted);
    assert forall i :: 0 <= i < |sorted| ==> sorted[i] in order;
    waves := MakeWaves(sorted, groups);
    WavesAreGroups(footprints, policies, order, groups, sorted);
  }

  lemma WavesAreGroups(footprints: map<string, int>, policies: seq<string>, order: seq<int>,
                       groups: map<int, seq<string>>, sorted: seq<int>)
    requires Grouped(footprints, policies, order, groups)
    requires forall p :: p in policies ==> p in footprints
    requires forall f :: f in order ==> f in sorted
    requires forall i :: 0 <= i < |sorted| ==> sorted[i] in groups
    requires forall i, j :: 0 <= i < j < |sorted| ==> sorted[i] > sorted[j]
    ensures IsWaves(footprints, policies, MakeWaves(sorted, groups))
  {
    var waves := MakeWaves(sorted, groups);
    forall i | 0 <= i < |waves|
      ensures waves[i].policies != [] &&
              waves[i].policies == WithFootprint(footprints, policies, waves[i].footprint)
    {
      assert IsGroup(footprints, policies, sorted[i], groups);
    }
    forall p | p in policies ensures exists i :: 0 <= i < |waves| && p in waves[i].policies {
      var f := footprints[p];
      WithFootprintMember(footprints, policies, f);
      assert IsGroup(footprints, policies, f, groups);
      var i :| 0 <= i < |sorted| && sorted[i] == f;
      assert p in waves[i].policies;
    }
  }

  lemma SameElements(a: seq<int>, b: seq<int>)
    requires multiset(a) == multiset(b)
    ensures forall x :: x in a <==> x in b
  {
    forall x ensures x in a <==> x in b {
      assert x in multiset(a) <==> x in multiset(b);
    }
  }

  function MakeWaves(footprints: seq<int>, groups: map<int, seq<string>>): (waves: seq<Wave>)
    requires forall i :: 0 <= i < |footprints| ==> footprints[i] in groups
    ensures |waves| == |footprints|
    ensures forall i :: 0 <= i < |waves| ==> waves[i] == Wave(footprints[i], groups[footprints[i]])
  {
    if footprints == [] then []
    else [Wave(footprints[0], groups[footprints[0]])] + MakeWaves(footprints[1..], groups)
  }
}

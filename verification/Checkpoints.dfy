/** Saving, publishing, pruning and resuming multi-policy checkpoints.  A process crash may come
    between any two disk operations, also in the middle of writing a part or of deleting a tree. */
module Checkpoints {
  import opened Sequences

  // ----- what is on disk -----

  datatype Part = ActorDir(policy: string) | CriticDir(policy: string) | DataFile | QueueDir

  datatype Component = Component(path: string, complete: bool)

  datatype PolicyManifest = PolicyManifest(actor: Option<Component>, critic: Option<Component>)

  datatype Manifest = Manifest(
    schemaVersion: int, globalStep: int, trainerMode: string, complete: bool,
    policies: map<string, PolicyManifest>, dataloader: Option<Component>, queue: Option<Component>)

  /** The parts that a directory listing shows, and those of them that are only partly written. */
  datatype Stored = Stored(present: set<Part>, torn: set<Part>)

  datatype Directory = Directory(stored: Stored, manifest: Option<Manifest>)

  function Full(stored: Stored): set<Part> {
    stored.present - stored.torn
  }

  /** The checkpoint root: `global_step_<n>` directories and the tracker file. */
  datatype Disk = Disk(dirs: map<nat, Directory>, tracker: Option<nat>)

  datatype Trainer = Trainer(name: string, useCritic: bool)

  datatype Config = Config(trainers: seq<Trainer>, mode: string, queueSupported: bool)

  ghost predicate DistinctTrainers(trainers: seq<Trainer>) {
    forall i, j :: 0 <= i < j < |trainers| ==> trainers[i].name != trainers[j].name
  }

  predicate SavesQueue(config: Config) {
    config.mode != "sync" && config.queueSupported
  }

  function TrainerParts(trainers: seq<Trainer>): set<Part> {
    (set i | 0 <= i < |trainers| :: ActorDir(trainers[i].name)) +
    (set i | 0 <= i < |trainers| && trainers[i].useCritic :: CriticDir(trainers[i].name))
  }

  function Parts(config: Config): set<Part> {
    TrainerParts(config.trainers) + {DataFile} + if SavesQueue(config) then {QueueDir} else {}
  }

  // ----- the manifest -----

  function ActorPath(policy: string): string { "policies/" + policy + "/actor" }

  function CriticPath(policy: string): string { "policies/" + policy + "/Critic" }

  function PolicyEntry(t: Trainer): PolicyManifest {
    PolicyManifest(Some(Component(ActorPath(t.name), true)),
                   if t.useCritic then Some(Component(CriticPath(t.name), true)) else None)
  }

  function PolicyEntries(trainers: seq<Trainer>): map<string, PolicyManifest> {
    if trainers == [] then map[]
    else
      var last := |trainers| - 1;
      PolicyEntries(trainers[..last])[trainers[last].name := PolicyEntry(trainers[last])]
  }

  function Built(step: nat, config: Config): Manifest {
    Manifest(1, step, config.mode, true, PolicyEntries(config.trainers), Some(Component("data.pt", true)),
             if SavesQueue(config) then Some(Component("transfer_queue", true)) else None)
  }

  method BuildManifest(step: nat, config: Config) returns (manifest: Manifest)
    ensures manifest == Built(step, config)
  {
    var policies: map<string, PolicyManifest> := map[];
    for i := 0 to |config.trainers|
      invariant policies == PolicyEntries(config.trainers[..i])
    {
      var t := config.trainers[i];
      assert config.trainers[..i + 1][..i] == config.trainers[..i];
      var critic := if t.useCritic then Some(Component(CriticPath(t.name), true)) else None;
      policies := policies[t.name := PolicyManifest(Some(Component(ActorPath(t.name), true)), critic)];
    }
    assert config.trainers[..|config.trainers|] == config.trainers;
    var queue := if SavesQueue(config) then Some(Component("transfer_queue", true)) else None;
    manifest := Manifest(1, step, config.mode, true, policies, Some(Component("data.pt", true)), queue);
  }

  lemma {:induction false} EntryOf(trainers: seq<Trainer>, k: nat)
    requires DistinctTrainers(trainers) && k < |trainers|
    ensures trainers[k].name in PolicyEntries(trainers)
    ensures PolicyEntries(trainers)[trainers[k].name] == PolicyEntry(trainers[k])
  {
    var last := |trainers| - 1;
    if k < last {
      EntryOf(trainers[..last], k);
    }
  }

  lemma {:induction false} EntryNames(trainers: seq<Trainer>)
    ensures PolicyEntries(trainers).Keys == Names(trainers)
  {
    if trainers != [] {
      EntryNames(trainers[..|trainers| - 1]);
      assert trainers == trainers[..|trainers| - 1] + [trainers[|trainers| - 1]];
    }
  }

  function Names(trainers: seq<Trainer>): set<string> {
    set i | 0 <= i < |trainers| :: trainers[i].name
  }

  // ----- what load accepts -----

  datatype LoadError =
    | MissingDirectory | UnsupportedSchema | Uncommitted | StepMismatch | ModeMismatch | PolicyMismatch
    | BadComponent | MissingPart | UnexpectedCritic | BadDataloader | BadQueue

  predicate GoodComponent(c: Option<Component>, path: string) {
    c == Some(Component(path, true))
  }

  predicate AcceptsPolicy(dir: Directory, t: Trainer, entry: PolicyManifest) {
    && GoodComponent(entry.actor, ActorPath(t.name)) && ActorDir(t.name) in dir.stored.present
    && if t.useCritic then GoodComponent(entry.critic, CriticPath(t.name)) && CriticDir(t.name) in dir.stored.present
       else entry.critic.None?
  }

  predicate AcceptsQueue(dir: Directory, config: Config, queue: Option<Component>) {
    config.mode == "sync" ||
    (if queue.None? then !config.queueSupported
     else GoodComponent(queue, "transfer_queue") && QueueDir in dir.stored.present)
  }

  /** A directory that passes validation under `config`: without an outer manifest it is a legacy
      checkpoint.  Parts only have to exist; whether they are written in full is not looked at. */
  predicate Accepts(dir: Directory, step: nat, config: Config) {
    dir.manifest.Some? ==>
      var m := dir.manifest.value;
      && m.schemaVersion == 1 && m.complete && m.globalStep == step && m.trainerMode == config.mode
      && m.policies.Keys == Names(config.trainers)
      && (forall i :: 0 <= i < |config.trainers| ==>
            config.trainers[i].name in m.policies &&
            AcceptsPolicy(dir, config.trainers[i], m.policies[config.trainers[i].name]))
      && GoodComponent(m.dataloader, "data.pt") && DataFile in dir.stored.present
      && AcceptsQueue(dir, config, m.queue)
  }

  method ValidateManifest(dir: Directory, step: nat, config: Config) returns (result: Result<(), LoadError>)
    ensures result.Ok? <==> Accepts(dir, step, config)
    ensures dir.manifest.None? ==> result.Ok?
    ensures dir.manifest.Some? ==>
              var m := dir.manifest.value;
              && (result == Err(UnsupportedSchema) <==> m.schemaVersion != 1)
              && (result == Err(Uncommitted) <==> m.schemaVersion == 1 && !m.complete)
              && (result == Err(StepMismatch) <==> m.schemaVersion == 1 && m.complete && m.globalStep != step)
              && (result == Err(ModeMismatch) <==>
                  m.schemaVersion == 1 && m.complete && m.globalStep == step && m.trainerMode != config.mode)
              && (result.Ok? ==>
                    && m.policies.Keys == Names(config.trainers) && DataFile in dir.stored.present
                    && forall t :: t in config.trainers ==>
                         && ActorDir(t.name) in dir.stored.present
                         && (t.useCritic ==> CriticDir(t.name) in dir.stored.present))
  {
    if dir.manifest.None? {
      return Ok(());
    }
    var m := dir.manifest.value;
    if m.schemaVersion != 1 { return Err(UnsupportedSchema); }
    if !m.complete { return Err(Uncommitted); }
    if m.globalStep != step { return Err(StepMismatch); }
    if m.trainerMode != config.mode { return Err(ModeMismatch); }
    if m.policies.Keys != Names(config.trainers) { return Err(PolicyMismatch); }
    for i := 0 to |config.trainers|
      invariant forall j :: 0 <= j < i ==>
                  config.trainers[j].name in m.policies &&
                  AcceptsPolicy(dir, config.trainers[j], m.policies[config.trainers[j].name])
    {
      var t := config.trainers[i];
      assert t.name in Names(config.trainers);
      var entry := m.policies[t.name];
      if !GoodComponent(entry.actor, ActorPath(t.name)) { return Err(BadComponent); }
      if ActorDir(t.name) !in dir.stored.present { return Err(MissingPart); }
      if t.useCritic {
        if !GoodComponent(entry.critic, CriticPath(t.name)) { return Err(BadComponent); }
        if CriticDir(t.name) !in dir.stored.present { return Err(MissingPart); }
      } else if entry.critic.Some? {
        return Err(UnexpectedCritic);
      }
    }
    if !GoodComponent(m.dataloader, "data.pt") { return Err(BadDataloader); }
    if DataFile !in dir.stored.present { return Err(MissingPart); }
    if config.mode != "sync" {
      if m.queue.None? {
        if config.queueSupported { return Err(BadQueue); }
      } else {
        if !GoodComponent(m.queue, "transfer_queue") { return Err(BadQueue); }
        if QueueDir !in dir.stored.present { return Err(MissingPart); }
      }
    }
    return Ok(());
  }

  /** `load` with resume mode "auto": the step to continue from, or none without a tracker. */
  method Resume(disk: Disk, config: Config) returns (result: Result<Option<nat>, LoadError>)
    ensures disk.tracker.None? ==> result == Ok(None)
    ensures disk.tracker.Some? ==>
              var step := disk.tracker.value;
              result == Ok(Some(step)) <==>
                step in disk.dirs && Accepts(disk.dirs[step], step, config) &&
                forall t :: t in config.trainers ==>
                  ActorDir(t.name) in disk.dirs[step].stored.present &&
                  (t.useCritic ==> CriticDir(t.name) in disk.dirs[step].stored.present)
    ensures disk.tracker.Some? ==> result.Err? || result == Ok(disk.tracker)
  {
    if disk.tracker.None? {
      return Ok(None);
    }
    var step := disk.tracker.value;
    if step !in disk.dirs {
      return Err(MissingDirectory);
    }
    var valid := ValidateManifest(disk.dirs[step], step, config);
    if valid.Err? {
      return Err(valid.error);
    }
    for i := 0 to |config.trainers|
      invariant forall j :: 0 <= j < i ==>
                  ActorDir(config.trainers[j].name) in disk.dirs[step].stored.present &&
                  (config.trainers[j].useCritic ==>
                     CriticDir(config.trainers[j].name) in disk.dirs[step].stored.present)
    {
      var t := config.trainers[i];
      if ActorDir(t.name) !in disk.dirs[step].stored.present { return Err(MissingPart); }
      if t.useCritic && CriticDir(t.name) !in disk.dirs[step].stored.present { return Err(MissingPart); }
    }
    return Ok(Some(step));
  }

  /** What a save leaves is accepted when it is loaded under the configuration that wrote it. */
  lemma CompleteSaveAccepted(dir: Directory, step: nat, config: Config)
    requires DistinctTrainers(config.trainers)
    requires dir.manifest == Some(Built(step, config)) && Parts(config) <= dir.stored.present
    ensures Accepts(dir, step, config)
    ensures forall t :: t in config.trainers ==>
              ActorDir(t.name) in dir.stored.present && (t.useCritic ==> CriticDir(t.name) in dir.stored.present)
  {
    EntryNames(config.trainers);
    forall i | 0 <= i < |config.trainers|
      ensures var t := config.trainers[i];
              ActorDir(t.name) in dir.stored.present && (t.useCritic ==> CriticDir(t.name) in dir.stored.present) &&
              t.name in PolicyEntries(config.trainers) &&
              AcceptsPolicy(dir, t, PolicyEntries(config.trainers)[t.name])
    {
      EntryOf(config.trainers, i);
      assert ActorDir(config.trainers[i].name) in Parts(config);
    }
  }

  /** The queue's state need not be there in the mode that has none, nor where it cannot be restored; if the
      manifest names it, it has to be whole. */
  ghost predicate QueueFits(dir: Directory, config: Config, queue: Option<Component>) {
    || config.mode == "sync"
    || (queue.None? && !config.queueSupported)
    || (queue == Some(Component("transfer_queue", true)) && QueueDir in dir.stored.present)
  }

  /** The only manifest that is accepted is the one that a save of this step under this configuration
      writes, but for the queue, and all parts have to be there. */
  lemma OnlyBuiltIsAccepted(dir: Directory, step: nat, config: Config)
    requires DistinctTrainers(config.trainers) && dir.manifest.Some?
    ensures var m := dir.manifest.value;
            Accepts(dir, step, config) <==>
            && m == Built(step, config).(queue := m.queue)
            && TrainerParts(config.trainers) + {DataFile} <= dir.stored.present
            && QueueFits(dir, config, m.queue)
  {
    var m, trainers := dir.manifest.value, config.trainers;
    EntryNames(trainers);
    forall i | 0 <= i < |trainers|
      ensures trainers[i].name in PolicyEntries(trainers)
      ensures PolicyEntries(trainers)[trainers[i].name] == PolicyEntry(trainers[i])
    {
      EntryOf(trainers, i);
    }
    if Accepts(dir, step, config) {
      SameEntries(dir, trainers, m.policies);
    }
    if m == Built(step, config).(queue := m.queue) && TrainerParts(trainers) + {DataFile} <= dir.stored.present {
      forall i | 0 <= i < |trainers| ensures AcceptsPolicy(dir, trainers[i], m.policies[trainers[i].name]) {
        TrainerPartsIn(trainers, i);
      }
    }
  }

  lemma SameEntries(dir: Directory, trainers: seq<Trainer>, policies: map<string, PolicyManifest>)
    requires DistinctTrainers(trainers) && policies.Keys == Names(trainers)
    requires forall i :: 0 <= i < |trainers| ==>
               trainers[i].name in policies && AcceptsPolicy(dir, trainers[i], policies[trainers[i].name])
    ensures policies == PolicyEntries(trainers) && TrainerParts(trainers) <= dir.stored.present
  {
    hide AcceptsPolicy, PolicyEntry, PolicyEntries, TrainerParts;
    EntryNames(trainers);
    forall i | 0 <= i < |trainers|
      ensures trainers[i].name in PolicyEntries(trainers)
      ensures PolicyEntries(trainers)[trainers[i].name] == policies[trainers[i].name]
      ensures PartsThere(trainers[i], dir.stored.present)
    {
      EntryOf(trainers, i);
      EntryFits(dir, trainers[i], policies[trainers[i].name]);
    }
    AllPartsThere(trainers, dir.stored.present);
    forall name | name in policies ensures PolicyEntries(trainers)[name] == policies[name] {
      var i :| 0 <= i < |trainers| && trainers[i].name == name;
    }
  }

  predicate PartsThere(t: Trainer, present: set<Part>) {
    ActorDir(t.name) in present && (t.useCritic ==> CriticDir(t.name) in present)
  }

  lemma EntryFits(dir: Directory, t: Trainer, entry: PolicyManifest)
    requires AcceptsPolicy(dir, t, entry)
    ensures entry == PolicyEntry(t) && PartsThere(t, dir.stored.present)
  {
  }

  lemma AllPartsThere(trainers: seq<Trainer>, present: set<Part>)
    requires forall i :: 0 <= i < |trainers| ==> PartsThere(trainers[i], present)
    ensures TrainerParts(trainers) <= present
  {
  }

  /** The same trainers by name, each with a critic in both or in neither. */
  ghost predicate SameTrainers(a: seq<Trainer>, b: seq<Trainer>) {
    && Names(a) == Names(b)
    && forall t, u :: t in a && u in b && t.name == u.name ==> t.useCritic == u.useCritic
  }

  /** A checkpoint that was saved as one step under one configuration is accepted as another step under
      another configuration exactly if the step, the mode and the trainers agree and the queue's state is
      not missed.  A queue that was saved is no obstacle where it cannot be restored. */
  lemma AcceptedExactly(dir: Directory, saved: nat, savedBy: Config, step: nat, config: Config)
    requires DistinctTrainers(savedBy.trainers) && DistinctTrainers(config.trainers)
    requires dir.manifest == Some(Built(saved, savedBy)) && Parts(savedBy) <= dir.stored.present
    ensures Accepts(dir, step, config) <==>
            && saved == step && savedBy.mode == config.mode && SameTrainers(savedBy.trainers, config.trainers)
            && (config.mode != "sync" && config.queueSupported ==> savedBy.queueSupported)
  {
    EntryNames(savedBy.trainers);
    if Names(savedBy.trainers) == Names(config.trainers) {
      assert TrainerParts(savedBy.trainers) <= dir.stored.present;
      hide PolicyEntries, AcceptsPolicy;
      EntriesAgree(dir, savedBy.trainers, config.trainers);
    }
  }

  lemma EntriesAgree(dir: Directory, saved: seq<Trainer>, now: seq<Trainer>)
    requires DistinctTrainers(saved) && TrainerParts(saved) <= dir.stored.present && Names(saved) == Names(now)
    ensures forall i :: 0 <= i < |now| ==> now[i].name in PolicyEntries(saved)
    ensures (forall i :: 0 <= i < |now| ==> AcceptsPolicy(dir, now[i], PolicyEntries(saved)[now[i].name])) <==>
            SameTrainers(saved, now)
  {
    forall i, j | 0 <= i < |now| && 0 <= j < |saved| && saved[j].name == now[i].name
      ensures && now[i].name in PolicyEntries(saved)
              && (AcceptsPolicy(dir, now[i], PolicyEntries(saved)[now[i].name]) <==>
                  saved[j].useCritic == now[i].useCritic)
    {
      EntryOf(saved, j);
      TrainerPartsIn(saved, j);
    }
    forall i | 0 <= i < |now| ensures exists j :: 0 <= j < |saved| && saved[j].name == now[i].name {
      assert now[i].name in Names(now);
    }
    TrainersAgree(dir, saved, now);
  }

  lemma TrainersAgree(dir: Directory, saved: seq<Trainer>, now: seq<Trainer>)
    requires Names(saved) == Names(now)
    requires forall i :: 0 <= i < |now| ==> now[i].name in PolicyEntries(saved)
    requires forall i, j :: 0 <= i < |now| && 0 <= j < |saved| && saved[j].name == now[i].name ==>
               (AcceptsPolicy(dir, now[i], PolicyEntries(saved)[now[i].name]) <==>
                saved[j].useCritic == now[i].useCritic)
    requires forall i :: 0 <= i < |now| ==> exists j :: 0 <= j < |saved| && saved[j].name == now[i].name
    ensures (forall i :: 0 <= i < |now| ==> AcceptsPolicy(dir, now[i], PolicyEntries(saved)[now[i].name])) <==>
            SameTrainers(saved, now)
  {
    hide AcceptsPolicy, PolicyEntries;
    if SameTrainers(saved, now) {
      forall i | 0 <= i < |now| ensures AcceptsPolicy(dir, now[i], PolicyEntries(saved)[now[i].name]) {
        var j :| 0 <= j < |saved| && saved[j].name == now[i].name;
        assert saved[j] in saved && now[i] in now;
      }
    }
    if forall i :: 0 <= i < |now| ==> AcceptsPolicy(dir, now[i], PolicyEntries(saved)[now[i].name]) {
      forall t, u | t in saved && u in now && t.name == u.name ensures t.useCritic == u.useCritic {
        var j :| 0 <= j < |saved| && saved[j] == t;
        var i :| 0 <= i < |now| && now[i] == u;
      }
    }
  }

  // ----- pruning -----

  predicate IsCommitted(disk: Disk, step: nat) {
    step in disk.dirs && disk.dirs[step].manifest.Some? &&
    disk.dirs[step].manifest.value.complete && disk.dirs[step].manifest.value.globalStep == step
  }

  function Committed(disk: Disk): set<nat> {
    set step | step in disk.dirs && IsCommitted(disk, step)
  }

  function Above(steps: set<nat>, step: nat): set<nat> {
    set s | s in steps && s > step
  }

  /** The committed steps that have at least `keep` committed steps above them. */
  function Expired(disk: Disk, keep: nat): set<nat> {
    set step | step in Committed(disk) && |Above(Committed(disk), step)| >= keep
  }

  function Delete(disk: Disk, steps: set<nat>): Disk {
    disk.(dirs := disk.dirs - steps)
  }

  datatype Limits = Limits(removePrevious: bool, maxActor: Option<int>, maxCritic: Option<int>)

  datatype Save = Save(step: nat, config: Config, limits: Limits)

  predicate AnyCritic(config: Config) {
    exists i :: 0 <= i < |config.trainers| && config.trainers[i].useCritic
  }

  function Positive(limit: Option<int>): Option<nat> {
    if limit.Some? && limit.value > 0 then Some(limit.value) else None
  }

  /** How many committed checkpoints a save keeps. */
  function RetentionLimit(save: Save): (keep: Option<nat>)
    ensures keep.Some? ==> keep.value >= 1
  {
    var actor := if save.limits.removePrevious then Some(1) else Positive(save.limits.maxActor);
    var critic := if !AnyCritic(save.config) then None
                  else if save.limits.removePrevious then Some(1) else Positive(save.limits.maxCritic);
    if actor.None? then critic
    else if critic.None? || actor.value <= critic.value then actor
    else critic
  }

  /** A limit that a save has to respect: a positive one of its own for actors, or for critics when
      some trainer has a critic; the deprecated option sets both to one. */
  predicate Applies(save: Save, limit: int) {
    limit > 0 &&
    if save.limits.removePrevious then limit == 1
    else
      || save.limits.maxActor == Some(limit)
      || (save.limits.maxCritic == Some(limit) && exists t :: t in save.config.trainers && t.useCritic)
  }

  /** It is the least limit that applies, and there is none exactly when no limit applies. */
  lemma RetentionIsLeastLimit(save: Save)
    ensures RetentionLimit(save).None? <==> forall limit :: !Applies(save, limit)
    ensures RetentionLimit(save).Some? ==>
              Applies(save, RetentionLimit(save).value) &&
              forall limit :: Applies(save, limit) ==> RetentionLimit(save).value <= limit
  {
    var keep := RetentionLimit(save);
    assert AnyCritic(save.config) <==> exists t :: t in save.config.trainers && t.useCritic;
    assert keep.Some? ==> Applies(save, keep.value);
  }

  ghost predicate Ascending(s: seq<nat>) {
    forall i, j :: 0 <= i < j < |s| ==> s[i] < s[j]
  }

  ghost function Elements(s: seq<nat>): set<nat> {
    set x | x in s
  }

  function Insert(x: nat, s: seq<nat>): seq<nat> {
    if s == [] || x <= s[0] then [x] + s else [s[0]] + Insert(x, s[1..])
  }

  lemma {:induction false} InsertElements(x: nat, s: seq<nat>)
    ensures forall y :: y in Insert(x, s) <==> y == x || y in s
  {
    if s != [] && s[0] < x {
      InsertElements(x, s[1..]);
      assert s == [s[0]] + s[1..];
    }
  }

  lemma {:induction false} InsertKeepsOrder(x: nat, s: seq<nat>)
    requires Ascending(s) && x !in s
    ensures Ascending(Insert(x, s))
    ensures Elements(Insert(x, s)) == Elements(s) + {x}
  {
    InsertElements(x, s);
    if s != [] && s[0] < x {
      InsertKeepsOrder(x, s[1..]);
      InsertElements(x, s[1..]);
      AscendingCons(s[0], Insert(x, s[1..]));
    }
  }

  lemma AscendingCons(x: nat, s: seq<nat>)
    requires Ascending(s) && forall y :: y in s ==> x < y
    ensures Ascending([x] + s)
  {
    assert forall i :: 0 <= i < |s| ==> s[i] in s;
  }

  lemma ElementsCons(x: nat, s: seq<nat>)
    ensures Elements([x] + s) == {x} + Elements(s)
  {
  }

  /** In an ascending list, the number of elements above the i-th is what remains behind it. */
  lemma {:induction false} AboveCount(s: seq<nat>, i: nat)
    requires Ascending(s) && i < |s|
    ensures |Above(Elements(s), s[i])| == |s| - 1 - i
    decreases |s| - i
  {
    var above := Above(Elements(s), s[i]);
    if i == |s| - 1 {
      assert above == {};
    } else {
      AboveCount(s, i + 1);
      assert above == Above(Elements(s), s[i + 1]) + {s[i + 1]};
    }
  }

  lemma ElementsSnoc(s: seq<nat>, x: nat)
    ensures Elements(s + [x]) == Elements(s) + {x}
  {
  }

  lemma ExpiredIsPrefix(committed: seq<nat>, surplus: nat, disk: Disk, keep: nat)
    requires Ascending(committed) && Elements(committed) == Committed(disk) && keep >= 1
    requires surplus == if |committed| < keep then 0 else |committed| - keep
    ensures Elements(committed[..surplus]) == Expired(disk, keep)
  {
    forall i | 0 <= i < |committed|
      ensures committed[i] in Expired(disk, keep) <==> i < surplus
    {
      assert committed[i] in Elements(committed);
      AboveCount(committed, i);
    }
    forall step | step in Expired(disk, keep) ensures step in Elements(committed[..surplus]) {
      assert step in Elements(committed);
      var i :| 0 <= i < |committed| && committed[i] == step;
      assert committed[..surplus][i] == step;
    }
  }

  /** Why a directory is no committed checkpoint. */
  predicate Unpublished(dir: Directory, step: nat) {
    dir.manifest.None? || !dir.manifest.value.complete || dir.manifest.value.globalStep != step
  }

  function WithDir(disk: Disk, step: nat, dir: Directory): Disk {
    disk.(dirs := disk.dirs[step := dir])
  }

  /** To pruning, such a directory is no different from none at all. */
  lemma UnpublishedIsInvisible(disk: Disk, step: nat, dir: Directory, keep: nat)
    requires step !in disk.dirs && Unpublished(dir, step)
    ensures Expired(WithDir(disk, step, dir), keep) == Expired(disk, keep)
    ensures step !in Expired(WithDir(disk, step, dir), keep)
  {
    assert Committed(WithDir(disk, step, dir)) == Committed(disk);
  }

  lemma DeleteCommitted(disk: Disk, steps: set<nat>)
    ensures Committed(Delete(disk, steps)) == Committed(disk) - steps
  {
    assert forall step :: step in Delete(disk, steps).dirs ==> Delete(disk, steps).dirs[step] == disk.dirs[step];
  }

  /** Pruning keeps exactly the highest committed checkpoints. */
  lemma PruneKeepsHighest(disk: Disk, keep: nat, committed: seq<nat>)
    requires keep >= 1 && Ascending(committed) && Elements(committed) == Committed(disk)
    ensures var kept := Committed(Delete(disk, Expired(disk, keep)));
            && kept == Committed(disk) - Expired(disk, keep)
            && |kept| == (if |committed| < keep then |committed| else keep)
            && (forall high, low :: high in kept && low in Expired(disk, keep) ==> low < high)
  {
    var surplus := if |committed| < keep then 0 else |committed| - keep;
    var expired := Expired(disk, keep);
    ExpiredIsPrefix(committed, surplus, disk, keep);
    DeleteCommitted(disk, expired);
    ElementsSplit(committed, surplus);
    ElementsCount(committed[surplus..]);
    SplitOrder(committed, surplus);
  }

  lemma SplitOrder(s: seq<nat>, k: nat)
    requires Ascending(s) && k <= |s|
    ensures forall high, low :: high in Elements(s[k..]) && low in Elements(s[..k]) ==> low < high
  {
    forall high, low | high in Elements(s[k..]) && low in Elements(s[..k]) ensures low < high {
      var i :| 0 <= i < |s[k..]| && s[k..][i] == high;
      var j :| 0 <= j < |s[..k]| && s[..k][j] == low;
      assert s[k + i] == high && s[j] == low;
    }
  }

  lemma ElementsSplit(s: seq<nat>, k: nat)
    requires Ascending(s) && k <= |s|
    ensures Elements(s[k..]) == Elements(s) - Elements(s[..k])
  {
    forall x | x in Elements(s) - Elements(s[..k]) ensures x in Elements(s[k..]) {
      var i :| 0 <= i < |s| && s[i] == x;
      assert forall j :: 0 <= j < k ==> s[..k][j] == s[j];
      assert k <= i;
      assert s[k..][i - k] == x;
    }
    forall x | x in Elements(s[k..]) ensures x in Elements(s) && x !in Elements(s[..k]) {
      var i :| 0 <= i < |s[k..]| && s[k..][i] == x;
      assert s[k + i] == x;
    }
  }

  lemma {:induction false} ElementsCount(s: seq<nat>)
    requires Ascending(s)
    ensures |Elements(s)| == |s|
  {
    if s == [] {
    } else {
      var last := |s| - 1;
      ElementsCount(s[..last]);
      assert s == s[..last] + [s[last]];
      ElementsSnoc(s[..last], s[last]);
      assert s[last] !in Elements(s[..last]);
    }
  }

  // ----- saving, with a crash possible between any two disk operations -----

  /** What a running save has reached.  `missing` are the parts not written in full; `todo` are the
      checkpoints still to be deleted, lowest first. */
  datatype Saver =
    | Idle
    | Writing(save: Save, missing: set<Part>)
    | Committing(save: Save)
    | Published(save: Save)
    | Pruning(todo: seq<nat>)

  /** `owner` is the configuration of the save that last wrote the tracker. */
  datatype System = System(disk: Disk, saver: Saver, owner: Option<Config>)

  datatype Event =
    | Begin(save: Save)
    | StartPart(part: Part)
    | FinishPart(part: Part)
    | PublishManifest
    | PublishTracker
    | ListExpired(todo: seq<nat>)
    | RemoveSome(left: Directory)
    | RemoveTree
    | Finish
    | Crash

  const EMPTY: Directory := Directory(Stored({}, {}), None)

  function WithStored(disk: Disk, step: nat, stored: Stored): Disk
    requires step in disk.dirs
  {
    disk.(dirs := disk.dirs[step := disk.dirs[step].(stored := stored)])
  }

  function WithDirectory(disk: Disk, step: nat): Disk {
    if step in disk.dirs then disk else disk.(dirs := disk.dirs[step := EMPTY])
  }

  function Started(stored: Stored, part: Part): Stored {
    Stored(stored.present + {part}, stored.torn + {part})
  }

  function Put(stored: Stored, parts: set<Part>): Stored {
    Stored(stored.present + parts, stored.torn - parts)
  }

  /** When a save gets to a part: a critic after its actor, in each of the parallel policies; the data
      loader's state after all policies; the queue last. */
  predicate Turn(config: Config, missing: set<Part>, part: Part) {
    part in missing &&
    match part
    case ActorDir(_) => true
    case CriticDir(policy) => ActorDir(policy) !in missing
    case DataFile => missing * TrainerParts(config.trainers) == {}
    case QueueDir => missing <= {QueueDir}
  }

  function ToDelete(disk: Disk, save: Save): set<nat> {
    var keep := RetentionLimit(save);
    if keep.None? then {} else Expired(disk, keep.value)
  }

  ghost predicate Enabled(s: System, e: Event) {
    match e
    case Begin(save) => s.saver.Idle? && DistinctTrainers(save.config.trainers)
    case StartPart(part) =>
      s.saver.Writing? && s.saver.save.step in s.disk.dirs && Turn(s.saver.save.config, s.saver.missing, part)
    case FinishPart(part) =>
      s.saver.Writing? && s.saver.save.step in s.disk.dirs && part in s.saver.missing &&
      part in s.disk.dirs[s.saver.save.step].stored.torn
    case PublishManifest => s.saver.Writing? && s.saver.save.step in s.disk.dirs && s.saver.missing == {}
    case PublishTracker => s.saver.Committing?
    case ListExpired(todo) =>
      s.saver.Published? && Ascending(todo) && Elements(todo) == ToDelete(s.disk, s.saver.save)
    case RemoveSome(left) =>
      s.saver.Pruning? && s.saver.todo != [] && s.saver.todo[0] in s.disk.dirs
    case RemoveTree => s.saver.Pruning? && s.saver.todo != []
    case Finish => s.saver.Pruning? && s.saver.todo == []
    case Crash => true
  }

  ghost function Step(s: System, e: Event): System
    requires Enabled(s, e)
  {
    match e
    case Begin(save) => s.(disk := WithDirectory(s.disk, save.step), saver := Writing(save, Parts(save.config)))
    case StartPart(part) =>
      var step := s.saver.save.step;
      s.(disk := WithStored(s.disk, step, Started(s.disk.dirs[step].stored, part)))
    case FinishPart(part) =>
      var step := s.saver.save.step;
      s.(disk := WithStored(s.disk, step, Put(s.disk.dirs[step].stored, {part})),
         saver := Writing(s.saver.save, s.saver.missing - {part}))
    case PublishManifest =>
      var step := s.saver.save.step;
      var dir := s.disk.dirs[step].(manifest := Some(Built(step, s.saver.save.config)));
      s.(disk := s.disk.(dirs := s.disk.dirs[step := dir]), saver := Committing(s.saver.save))
    case PublishTracker =>
      System(s.disk.(tracker := Some(s.saver.save.step)), Published(s.saver.save), Some(s.saver.save.config))
    case ListExpired(todo) => s.(saver := Pruning(todo))
    case RemoveSome(left) => s.(disk := s.disk.(dirs := s.disk.dirs[s.saver.todo[0] := left]))
    case RemoveTree => s.(disk := Delete(s.disk, {s.saver.todo[0]}), saver := Pruning(s.saver.todo[1..]))
    case Finish => s.(saver := Idle)
    case Crash => s.(saver := Idle)
  }

  ghost predicate Legal(s: System, events: seq<Event>)
    decreases |events|
  {
    events == [] || (Enabled(s, events[0]) && Legal(Step(s, events[0]), events[1..]))
  }

  ghost function After(s: System, events: seq<Event>): System
    requires Legal(s, events)
    decreases |events|
  {
    if events == [] then s else After(Step(s, events[0]), events[1..])
  }

  /** Every part is written and the manifest is the one this configuration builds. */
  ghost predicate Complete(disk: Disk, step: nat, config: Config) {
    && DistinctTrainers(config.trainers) && step in disk.dirs
    && disk.dirs[step].manifest == Some(Built(step, config)) && Parts(config) <= Full(disk.dirs[step].stored)
  }

  ghost predicate TrackerGood(s: System) {
    s.disk.tracker.Some? ==> s.owner.Some? && Complete(s.disk, s.disk.tracker.value, s.owner.value)
  }

  /** Fewer committed checkpoints lie above the step than a save keeps. */
  ghost predicate Room(disk: Disk, save: Save) {
    var keep := RetentionLimit(save);
    keep.Some? ==> |Above(Committed(disk), save.step)| < keep.value
  }

  /** When it is safe to save a step: it is not the step the tracker names, and it will not be
      pruned by its own save. */
  ghost predicate Safe(disk: Disk, save: Save) {
    disk.tracker != Some(save.step) && Room(disk, save)
  }

  ghost predicate SaverInv(s: System) {
    match s.saver
    case Idle => true
    case Writing(save, missing) =>
      && DistinctTrainers(save.config.trainers) && save.step in s.disk.dirs && Safe(s.disk, save)
      && Parts(save.config) - missing <= Full(s.disk.dirs[save.step].stored)
    case Committing(save) => Complete(s.disk, save.step, save.config) && Safe(s.disk, save)
    case Published(save) => s.disk.tracker == Some(save.step) && Room(s.disk, save)
    case Pruning(todo) => s.disk.tracker.Some? && s.disk.tracker.value !in todo
  }

  ghost predicate Inv(s: System) {
    TrackerGood(s) && SaverInv(s)
  }

  ghost predicate SafeRun(s: System, events: seq<Event>)
    requires Legal(s, events)
    decreases |events|
  {
    events == [] ||
    ((events[0].Begin? ==> Safe(s.disk, events[0].save)) && SafeRun(Step(s, events[0]), events[1..]))
  }

  lemma SameAbove(disk: Disk, disk': Disk, step: nat)
    requires disk.dirs - {step} == disk'.dirs - {step}
    ensures Above(Committed(disk), step) == Above(Committed(disk'), step)
  {
    forall other | other > step ensures IsCommitted(disk, other) <==> IsCommitted(disk', other) {
      assert other in disk.dirs <==> other in disk.dirs - {step};
      assert other in disk'.dirs <==> other in disk'.dirs - {step};
      if other in disk.dirs {
        assert (disk.dirs - {step})[other] == disk.dirs[other];
        assert (disk'.dirs - {step})[other] == disk'.dirs[other];
      }
    }
  }

  /** While it writes, a save changes no directory but its own, and the tracker names another. */
  lemma OwnDirectoryOnly(s: System, disk: Disk, save: Save)
    requires TrackerGood(s) && Safe(s.disk, save)
    requires disk.tracker == s.disk.tracker && disk.dirs - {save.step} == s.disk.dirs - {save.step}
    ensures TrackerGood(s.(disk := disk)) && Safe(disk, save)
  {
    SameAbove(s.disk, disk, save.step);
    if disk.tracker.Some? {
      var step := disk.tracker.value;
      assert step in s.disk.dirs - {save.step};
      assert step in disk.dirs - {save.step};
      assert (disk.dirs - {save.step})[step] == (s.disk.dirs - {save.step})[step];
    }
  }

  lemma FullParts(stored: Stored, part: Part)
    ensures Full(Started(stored, part)) == Full(stored) - {part}
    ensures Full(Put(stored, {part})) == Full(stored) + {part}
  {
  }

  lemma WritingKeepsInv(s: System, e: Event)
    requires Inv(s) && Enabled(s, e) && (e.Begin? || e.StartPart? || e.FinishPart?)
    requires e.Begin? ==> Safe(s.disk, e.save)
    ensures Inv(Step(s, e))
  {
    OwnDirectoryOnly(s, Step(s, e).disk, if e.Begin? then e.save else s.saver.save);
    if !e.Begin? {
      FullParts(s.disk.dirs[s.saver.save.step].stored, e.part);
    }
  }

  lemma PublishingKeepsInv(s: System, e: Event)
    requires Inv(s) && Enabled(s, e) && (e.PublishManifest? || e.PublishTracker?)
    ensures Inv(Step(s, e))
  {
    if e.PublishManifest? {
      OwnDirectoryOnly(s, Step(s, e).disk, s.saver.save);
    } else {
      assert Committed(s.disk) == Committed(Step(s, e).disk);
    }
  }

  lemma PruningKeepsInv(s: System, e: Event)
    requires Inv(s) && Enabled(s, e) && (e.ListExpired? || e.RemoveSome? || e.RemoveTree? || e.Finish? || e.Crash?)
    ensures Inv(Step(s, e))
  {
    if e.ListExpired? {
      assert s.disk.tracker.value !in ToDelete(s.disk, s.saver.save);
      assert s.disk.tracker.value !in Elements(e.todo);
    }
  }

  lemma StepKeepsInv(s: System, e: Event)
    requires Inv(s) && Enabled(s, e) && (e.Begin? ==> Safe(s.disk, e.save))
    ensures Inv(Step(s, e))
  {
    match e
    case Begin(_) => WritingKeepsInv(s, e);
    case StartPart(_) => WritingKeepsInv(s, e);
    case FinishPart(_) => WritingKeepsInv(s, e);
    case PublishManifest => PublishingKeepsInv(s, e);
    case PublishTracker => PublishingKeepsInv(s, e);
    case _ => PruningKeepsInv(s, e);
  }

  lemma {:induction false} RunKeepsInv(s: System, events: seq<Event>)
    requires Inv(s) && Legal(s, events) && SafeRun(s, events)
    ensures Inv(After(s, events))
    decreases |events|
  {
    if events != [] {
      StepKeepsInv(s, events[0]);
      RunKeepsInv(Step(s, events[0]), events[1..]);
    }
  }

  /** Wherever a safe run is cut off, the checkpoint that the tracker names is there, complete and
      accepted under the configuration that saved it. */
  lemma TrackerAlwaysResumable(s: System, events: seq<Event>)
    requires s.saver.Idle? && TrackerGood(s) && Legal(s, events) && SafeRun(s, events)
    ensures var s' := After(s, events);
            s'.disk.tracker.Some? ==>
              var step := s'.disk.tracker.value;
              && s'.owner.Some? && step in s'.disk.dirs
              && Parts(s'.owner.value) <= Full(s'.disk.dirs[step].stored)
              && s'.disk.dirs[step].manifest.Some?
              && Accepts(s'.disk.dirs[step], step, s'.owner.value)
  {
    RunKeepsInv(s, events);
    var s' := After(s, events);
    if s'.disk.tracker.Some? {
      var step := s'.disk.tracker.value;
      CompleteSaveAccepted(s'.disk.dirs[step], step, s'.owner.value);
    }
  }

  /** A step above every committed checkpoint and different from the tracker's is always safe. */
  lemma HigherStepIsSafe(disk: Disk, save: Save)
    requires disk.tracker != Some(save.step)
    requires forall step :: step in Committed(disk) ==> step <= save.step
    ensures Safe(disk, save)
  {
    assert Above(Committed(disk), save.step) == {};
  }

  /** Every save of the run is of a step that no committed checkpoint exceeds and that the tracker does
      not name. */
  ghost predicate SavesAhead(s: System, events: seq<Event>)
    requires Legal(s, events)
    decreases |events|
  {
    events == [] ||
    ((events[0].Begin? ==>
        s.disk.tracker != Some(events[0].save.step) &&
        forall step :: step in Committed(s.disk) ==> step <= events[0].save.step) &&
     SavesAhead(Step(s, events[0]), events[1..]))
  }

  /** So training that always saves further steps never loses its tracker's checkpoint, crashes or not. */
  lemma {:induction false} SavesAheadAreSafe(s: System, events: seq<Event>)
    requires Legal(s, events) && SavesAhead(s, events)
    ensures SafeRun(s, events)
    ensures s.saver.Idle? && TrackerGood(s) && After(s, events).disk.tracker.Some? ==>
              var s' := After(s, events);
              s'.owner.Some? && Complete(s'.disk, s'.disk.tracker.value, s'.owner.value)
    decreases |events|
  {
    AheadIsSafe(s, events);
    if s.saver.Idle? && TrackerGood(s) {
      RunKeepsInv(s, events);
    }
  }

  lemma {:induction false} AheadIsSafe(s: System, events: seq<Event>)
    requires Legal(s, events) && SavesAhead(s, events)
    ensures SafeRun(s, events)
    decreases |events|
  {
    if events != [] {
      if events[0].Begin? {
        HigherStepIsSafe(s.disk, events[0].save);
      }
      hide Safe, Step, Enabled;
      AheadIsSafe(Step(s, events[0]), events[1..]);
    }
  }

  // ----- a save that crashed before it was published -----

  /** `b` is `a` with one more directory, which was never published and which no running save is about. */
  ghost predicate Beside(a: System, b: System, step: nat, dir: Directory) {
    && step !in a.disk.dirs && Unpublished(dir, step)
    && b == a.(disk := WithDir(a.disk, step, dir))
    && match a.saver
       case Idle => true
       case Writing(save, _) => save.step != step
       case Committing(save) => save.step != step
       case Published(_) => true
       case Pruning(todo) => step !in todo
  }

  predicate OtherStep(e: Event, step: nat) {
    e.Begin? ==> e.save.step != step
  }

  lemma WithDirSame(a: Disk, b: Disk, step: nat, dir: Directory)
    requires b.tracker == a.tracker && b.dirs == a.dirs[step := dir]
    ensures b == WithDir(a, step, dir)
  {
  }

  /** Such a directory changes no step of another save, and no such step changes it. */
  lemma StepBeside(a: System, b: System, step: nat, dir: Directory, e: Event)
    requires Beside(a, b, step, dir) && OtherStep(e, step)
    ensures Enabled(a, e) <==> Enabled(b, e)
    ensures Enabled(a, e) ==> Beside(Step(a, e), Step(b, e), step, dir)
  {
    if e.ListExpired? && a.saver.Published? {
      ListsSame(a.disk, a.saver.save, step, dir);
      assert Enabled(a, e) ==> step !in Elements(e.todo);
    } else if Enabled(a, e) {
      WithDirSame(Step(a, e).disk, Step(b, e).disk, step, dir);
    }
  }

  lemma ListsSame(disk: Disk, save: Save, step: nat, dir: Directory)
    requires step !in disk.dirs && Unpublished(dir, step)
    ensures ToDelete(WithDir(disk, step, dir), save) == ToDelete(disk, save) && step !in ToDelete(disk, save)
  {
    var keep := RetentionLimit(save);
    if keep.Some? {
      UnpublishedIsInvisible(disk, step, dir, keep.value);
    }
  }

  lemma {:induction false} RunBeside(a: System, b: System, step: nat, dir: Directory, events: seq<Event>)
    requires Beside(a, b, step, dir) && forall e :: e in events ==> OtherStep(e, step)
    ensures Legal(a, events) <==> Legal(b, events)
    ensures Legal(a, events) ==> Beside(After(a, events), After(b, events), step, dir)
    decreases |events|
  {
    if events != [] {
      hide Beside, Enabled, Step, OtherStep;
      StepBeside(a, b, step, dir, events[0]);
      if Enabled(a, events[0]) {
        RunBeside(Step(a, events[0]), Step(b, events[0]), step, dir, events[1..]);
      }
    }
  }

  predicate Writes(e: Event) {
    e.StartPart? || e.FinishPart?
  }

  /** The save has made its directory and written into it, and has done nothing else. */
  ghost predicate OwnDirectory(s: System, s': System, save: Save, dir: Directory) {
    && dir.manifest.None? && s'.saver.Writing? && s'.saver.save == save
    && s'.disk == WithDir(s.disk, save.step, dir) && s'.owner == s.owner
  }

  lemma {:induction false} WritesOwnDirectory(s: System, s': System, dir: Directory, save: Save, writes: seq<Event>)
    returns (dir': Directory)
    requires OwnDirectory(s, s', save, dir)
    requires Legal(s', writes) && forall e :: e in writes ==> Writes(e)
    ensures OwnDirectory(s, After(s', writes), save, dir')
    decreases |writes|
  {
    if writes == [] {
      dir' := dir;
    } else {
      var next := Step(s', writes[0]);
      assert Writes(writes[0]);
      var more := next.disk.dirs[save.step];
      assert next.disk.dirs == s.disk.dirs[save.step := more];
      dir' := WritesOwnDirectory(s, next, more, save, writes[1..]);
    }
  }

  /** A save of a new step that dies before it has published its manifest leaves a directory that no later
      save of other steps ever deletes or changes, crashes or not; and everything else goes as if that
      save had never been begun. */
  lemma CrashedSaveIsLeftAlone(s: System, save: Save, writes: seq<Event>, more: seq<Event>)
    requires s.saver.Idle? && save.step !in s.disk.dirs
    requires Legal(s, [Begin(save)] + writes + [Crash]) && forall e :: e in writes ==> Writes(e)
    requires forall e :: e in more ==> OtherStep(e, save.step)
    ensures var crashed := After(s, [Begin(save)] + writes + [Crash]);
            && save.step in crashed.disk.dirs && crashed.disk.dirs[save.step].manifest.None?
            && (Legal(s, more) <==> Legal(crashed, more))
            && (Legal(s, more) ==>
                  var end := After(s, more);
                  && save.step !in end.disk.dirs
                  && After(crashed, more) ==
                     end.(disk := WithDir(end.disk, save.step, crashed.disk.dirs[save.step])))
  {
    var events := [Begin(save)] + writes + [Crash];
    assert events[0] == Begin(save) && events[1..] == writes + [Crash];
    var begun := Step(s, Begin(save));
    LegalSplit(begun, writes, [Crash]);
    assert begun.disk.dirs == s.disk.dirs[save.step := EMPTY];
    var dir := WritesOwnDirectory(s, begun, EMPTY, save, writes);
    var crashed := Step(After(begun, writes), Crash);
    assert [Crash][1..] == [] && After(begun, events[1..]) == crashed;
    assert crashed == s.(disk := WithDir(s.disk, save.step, dir));
    RunBeside(s, crashed, save.step, dir, more);
  }

  lemma {:induction false} LegalSplit(s: System, a: seq<Event>, b: seq<Event>)
    requires Legal(s, a + b)
    ensures Legal(s, a) && Legal(After(s, a), b) && After(s, a + b) == After(After(s, a), b)
    decreases |a|
  {
    if a == [] {
      assert a + b == b;
    } else {
      assert (a + b)[1..] == a[1..] + b;
      LegalSplit(Step(s, a[0]), a[1..], b);
    }
  }

  lemma {:induction false} LegalConcat(s: System, a: seq<Event>, b: seq<Event>)
    requires Legal(s, a) && Legal(After(s, a), b)
    ensures Legal(s, a + b) && After(s, a + b) == After(After(s, a), b)
    decreases |a|
  {
    if a == [] {
      assert a + b == b;
    } else {
      assert (a + b)[1..] == a[1..] + b;
      LegalConcat(Step(s, a[0]), a[1..], b);
    }
  }

  lemma LegalSnoc(s: System, events: seq<Event>, e: Event)
    requires Legal(s, events) && Enabled(After(s, events), e)
    ensures Legal(s, events + [e]) && After(s, events + [e]) == Step(After(s, events), e)
  {
    var next := After(s, events);
    assert [e][1..] == [];
    assert After(Step(next, e), []) == Step(next, e);
    assert Legal(next, [e]);
    LegalConcat(s, events, [e]);
  }

  /** Nothing else is safe: from a good state, a save that is not `Safe` has a run after which the
      tracker names a deleted directory, or one that validation accepts under the configuration that
      published it although a part is only partly written. */
  lemma UnsafeSaveLosesTracker(s: System, save: Save) returns (events: seq<Event>)
    requires s.saver.Idle? && TrackerGood(s) && DistinctTrainers(save.config.trainers) && !Safe(s.disk, save)
    ensures Legal(s, [Begin(save)] + events)
    ensures forall e :: e in events ==> !e.Begin?
    ensures var s' := After(s, [Begin(save)] + events);
            s'.saver.Idle? && s'.disk.tracker == Some(save.step) && s'.owner.Some? &&
            (save.step in s'.disk.dirs ==>
               var dir := s'.disk.dirs[save.step];
               dir.manifest.Some? && Accepts(dir, save.step, s'.owner.value) && DataFile in dir.stored.torn)
  {
    var begun := Step(s, Begin(save));
    if s.disk.tracker == Some(save.step) {
      events := TearAndCrash(begun);
      var dir := After(begun, events).disk.dirs[save.step];
      CompleteSaveAccepted(dir, save.step, s.owner.value);
    } else {
      SameAbove(s.disk, begun.disk, save.step);
      events := PruneItself(begun);
    }
    assert ([Begin(save)] + events)[1..] == events;
  }

  /** The policies are written again, then the process dies while it writes the data loader's state. */
  lemma TearAndCrash(s: System) returns (events: seq<Event>)
    requires s.saver.Writing? && s.saver.save.step in s.disk.dirs && s.saver.missing == Parts(s.saver.save.config)
    ensures forall e :: e in events ==> !e.Begin?
    ensures Legal(s, events)
    ensures var s', step := After(s, events), s.saver.save.step;
            && s'.saver.Idle? && s'.disk.tracker == s.disk.tracker && s'.owner == s.owner && step in s'.disk.dirs
            && s'.disk.dirs[step].manifest == s.disk.dirs[step].manifest
            && s.disk.dirs[step].stored.present <= s'.disk.dirs[step].stored.present
            && DataFile in s'.disk.dirs[step].stored.present * s'.disk.dirs[step].stored.torn
  {
    var writes := FinishAll(s, {DataFile, QueueDir});
    LegalSnoc(s, writes, StartPart(DataFile));
    LegalSnoc(s, writes + [StartPart(DataFile)], Crash);
    events := writes + [StartPart(DataFile)] + [Crash];
  }

  lemma PruneItself(s: System) returns (events: seq<Event>)
    requires s.saver.Writing? && s.saver.save.step in s.disk.dirs && s.saver.missing == Parts(s.saver.save.config)
    requires !Room(s.disk, s.saver.save)
    ensures forall e :: e in events ==> !e.Begin?
    ensures Legal(s, events) && After(s, events).saver.Idle?
    ensures After(s, events).disk.tracker == Some(s.saver.save.step)
    ensures After(s, events).owner == Some(s.saver.save.config)
    ensures s.saver.save.step !in After(s, events).disk.dirs
  {
    var save := s.saver.save;
    var writes := FinishAll(s, {});
    var s1 := After(s, writes);
    LegalSnoc(s, writes, PublishManifest);
    var s2 := Step(s1, PublishManifest);
    LegalSnoc(s, writes + [PublishManifest], PublishTracker);
    var s3 := Step(s2, PublishTracker);
    SameAbove(s.disk, s2.disk, save.step);
    assert Committed(s2.disk) == Committed(s3.disk);
    var todo := SortSteps(ToDelete(s3.disk, save));
    LegalSnoc(s, writes + [PublishManifest] + [PublishTracker], ListExpired(todo));
    var s4 := Step(s3, ListExpired(todo));
    var removals := RemoveAll(s4);
    var before := writes + [PublishManifest] + [PublishTracker] + [ListExpired(todo)];
    LegalConcat(s, before, removals);
    events := before + removals;
    assert IsCommitted(s3.disk, save.step) && save.step in ToDelete(s3.disk, save);
  }

  lemma NextPart(config: Config, missing: set<Part>, later: set<Part>) returns (part: Part)
    requires missing <= Parts(config) && missing - later != {}
    requires later == {} || later == {DataFile, QueueDir}
    ensures part in missing - later && Turn(config, missing, part)
  {
    if policy :| ActorDir(policy) in missing {
      part := ActorDir(policy);
    } else if policy :| CriticDir(policy) in missing {
      part := CriticDir(policy);
    } else {
      assert forall p :: p in missing ==> p == DataFile || p == QueueDir;
      part := if DataFile in missing then DataFile else QueueDir;
    }
  }

  /** What writing parts leaves alone. */
  ghost predicate OnlyWrites(s: System, s': System) {
    s.saver.Writing? && s'.saver.Writing? && s.saver.save.step in s.disk.dirs &&
    var step := s.saver.save.step;
    && s' == s.(disk := s'.disk, saver := s'.saver) && s'.saver.save == s.saver.save
    && s'.disk.tracker == s.disk.tracker && step in s'.disk.dirs
    && s'.disk.dirs - {step} == s.disk.dirs - {step}
    && s'.disk.dirs[step].manifest == s.disk.dirs[step].manifest
    && s.disk.dirs[step].stored.present <= s'.disk.dirs[step].stored.present
  }

  lemma MissingShrinks(missing: set<Part>, later: set<Part>, part: Part)
    requires part in missing - later
    ensures |(missing - {part}) - later| < |missing - later| && (missing - {part}) * later == missing * later
  {
    assert missing - later == ((missing - {part}) - later) + {part};
  }

  lemma FinishOne(s: System, part: Part)
    requires Enabled(s, StartPart(part))
    ensures Enabled(Step(s, StartPart(part)), FinishPart(part))
    ensures OnlyWrites(s, Step(Step(s, StartPart(part)), FinishPart(part)))
    ensures var next := Step(Step(s, StartPart(part)), FinishPart(part));
            next.saver == Writing(s.saver.save, s.saver.missing - {part}) && s.saver.save.step in next.disk.dirs
  {
    var step := s.saver.save.step;
    var next := Step(Step(s, StartPart(part)), FinishPart(part));
    assert next.disk.dirs - {step} == s.disk.dirs - {step};
  }

  lemma OnlyWritesTransitive(a: System, b: System, c: System)
    requires OnlyWrites(a, b) && OnlyWrites(b, c)
    ensures OnlyWrites(a, c)
  {
  }

  lemma TwoSteps(s: System, e: Event, e': Event, rest: seq<Event>)
    requires Enabled(s, e) && Enabled(Step(s, e), e') && Legal(Step(Step(s, e), e'), rest)
    ensures Legal(s, [e, e'] + rest) && After(s, [e, e'] + rest) == After(Step(Step(s, e), e'), rest)
  {
    assert ([e, e'] + rest)[1..] == [e'] + rest && ([e'] + rest)[1..] == rest;
  }

  ghost predicate CanWrite(s: System, later: set<Part>) {
    && s.saver.Writing? && s.saver.save.step in s.disk.dirs && s.saver.missing <= Parts(s.saver.save.config)
    && (later == {} || later == {DataFile, QueueDir})
  }

  /** The events write all missing parts but the `later` ones, and nothing else. */
  ghost predicate WritesAll(s: System, events: seq<Event>, later: set<Part>) {
    && (forall e :: e in events ==> !e.Begin?)
    && Legal(s, events) && OnlyWrites(s, After(s, events))
    && After(s, events).saver.missing == s.saver.missing * later
  }

  lemma WritesOneMore(s: System, part: Part, rest: seq<Event>, later: set<Part>)
    requires CanWrite(s, later) && part in s.saver.missing - later && Enabled(s, StartPart(part))
    requires Enabled(Step(s, StartPart(part)), FinishPart(part))
    requires WritesAll(Step(Step(s, StartPart(part)), FinishPart(part)), rest, later)
    ensures WritesAll(s, [StartPart(part), FinishPart(part)] + rest, later)
  {
    FinishOne(s, part);
    var next := Step(Step(s, StartPart(part)), FinishPart(part));
    MissingShrinks(s.saver.missing, later, part);
    TwoSteps(s, StartPart(part), FinishPart(part), rest);
    OnlyWritesTransitive(s, next, After(next, rest));
  }

  lemma WritesNothing(s: System, later: set<Part>)
    requires CanWrite(s, later) && s.saver.missing - later == {}
    ensures WritesAll(s, [], later)
  {
    assert s.saver.missing * later == s.saver.missing;
    assert After(s, []) == s;
  }

  lemma CanWriteOneMore(s: System, part: Part, later: set<Part>)
    requires CanWrite(s, later) && part in s.saver.missing - later && Enabled(s, StartPart(part))
    ensures Enabled(Step(s, StartPart(part)), FinishPart(part))
    ensures var next := Step(Step(s, StartPart(part)), FinishPart(part));
            CanWrite(next, later) && |next.saver.missing - later| < |s.saver.missing - later|
  {
    FinishOne(s, part);
    MissingShrinks(s.saver.missing, later, part);
  }

  /** The missing parts can be written, in an order the save takes. */
  lemma {:induction false} FinishAll(s: System, later: set<Part>) returns (events: seq<Event>)
    requires CanWrite(s, later)
    ensures WritesAll(s, events, later)
    decreases |s.saver.missing - later|
  {
    if s.saver.missing - later == {} {
      WritesNothing(s, later);
      events := [];
    } else {
      var part := NextPart(s.saver.save.config, s.saver.missing, later);
      CanWriteOneMore(s, part, later);
      hide *;
      var rest := FinishAll(Step(Step(s, StartPart(part)), FinishPart(part)), later);
      WritesOneMore(s, part, rest, later);
      events := [StartPart(part), FinishPart(part)] + rest;
    }
  }

  lemma {:induction false} RemoveAll(s: System) returns (events: seq<Event>)
    requires s.saver.Pruning?
    ensures forall e :: e in events ==> !e.Begin?
    ensures Legal(s, events) && After(s, events) == s.(disk := Delete(s.disk, Elements(s.saver.todo)), saver := Idle)
    decreases |s.saver.todo|
  {
    if s.saver.todo == [] {
      LegalSnoc(s, [], Finish);
      events := [] + [Finish];
    } else {
      var todo := s.saver.todo;
      var next := Step(s, RemoveTree);
      var rest := RemoveAll(next);
      events := [RemoveTree] + rest;
      assert events[1..] == rest;
      assert todo == [todo[0]] + todo[1..];
      ElementsCons(todo[0], todo[1..]);
      assert Delete(next.disk, Elements(todo[1..])).dirs == Delete(s.disk, Elements(todo)).dirs;
    }
  }

  lemma {:induction false} SortSteps(steps: set<nat>) returns (sorted: seq<nat>)
    ensures Ascending(sorted) && Elements(sorted) == steps
    decreases |steps|
  {
    if steps == {} {
      sorted := [];
    } else {
      var step :| step in steps;
      var rest := SortSteps(steps - {step});
      assert forall i :: 0 <= i < |rest| ==> rest[i] in Elements(rest);
      InsertKeepsOrder(step, rest);
      sorted := Insert(step, rest);
    }
  }

  lemma TrainerPartsSnoc(trainers: seq<Trainer>, i: nat)
    requires i < |trainers|
    ensures TrainerParts(trainers[..i + 1]) == TrainerParts(trainers[..i]) + {ActorDir(trainers[i].name)} +
                                               if trainers[i].useCritic then {CriticDir(trainers[i].name)} else {}
  {
    assert trainers[..i + 1] == trainers[..i] + [trainers[i]];
    var longer, shorter := trainers[..i + 1], trainers[..i];
    assert forall j :: 0 <= j < i ==> longer[j] == shorter[j];
    assert longer[i] == trainers[i];
  }

  lemma WithStoredTwice(disk: Disk, step: nat, a: Stored, b: Stored)
    requires step in disk.dirs
    ensures WithStored(WithStored(disk, step, a), step, b) == WithStored(disk, step, b)
  {
    assert WithStored(WithStored(disk, step, a), step, b).dirs == WithStored(disk, step, b).dirs;
  }

  lemma PutTwice(stored: Stored, a: set<Part>, b: set<Part>)
    ensures Put(Put(stored, a), b) == Put(stored, a + b)
  {
    assert stored.present + a + b == stored.present + (a + b);
    assert stored.torn - a - b == stored.torn - (a + b);
  }

  lemma TrainerPartsIn(trainers: seq<Trainer>, i: nat)
    requires i < |trainers|
    ensures ActorDir(trainers[i].name) in TrainerParts(trainers)
    ensures trainers[i].useCritic ==> CriticDir(trainers[i].name) in TrainerParts(trainers)
  {
  }

  /** The parts of a trainer are not among those of the trainers before it. */
  lemma TrainerPartsNew(trainers: seq<Trainer>, i: nat)
    requires DistinctTrainers(trainers) && i < |trainers|
    ensures ActorDir(trainers[i].name) !in TrainerParts(trainers[..i])
    ensures CriticDir(trainers[i].name) !in TrainerParts(trainers[..i])
  {
  }

  lemma DeleteNext(disk: Disk, todo: seq<nat>, i: nat)
    requires i < |todo|
    ensures Delete(Delete(disk, Elements(todo[..i])), {todo[i]}) == Delete(disk, Elements(todo[..i + 1]))
  {
    assert todo[..i + 1] == todo[..i] + [todo[i]];
    ElementsSnoc(todo[..i], todo[i]);
    assert disk.dirs - Elements(todo[..i]) - {todo[i]} == disk.dirs - Elements(todo[..i + 1]);
  }

  /** The save operation itself, uninterrupted.  The ghost fields record the steps of the protocol
      that it takes: `events` lead from `start` to `now`. */
  class CheckpointRoot {
    var disk: Disk
    ghost const start: System
    ghost var events: seq<Event>
    ghost var now: System

    ghost predicate Recorded()
      reads this
    {
      Legal(start, events) && After(start, events) == now
    }

    ghost predicate Valid()
      reads this
    {
      Recorded() && now.disk == disk
    }

    constructor (disk: Disk, ghost owner: Option<Config>)
      ensures Valid() && this.disk == disk && now == System(disk, Idle, owner)
    {
      this.disk := disk;
      start := System(disk, Idle, owner);
      now := System(disk, Idle, owner);
      events := [];
    }

    ghost method Take(e: Event)
      requires Recorded() && Enabled(now, e)
      modifies `now, `events
      ensures Recorded() && now == Step(old(now), e) && events == old(events) + [e]
    {
      LegalSnoc(start, events, e);
      now := Step(now, e);
      events := events + [e];
    }

    /** The committed checkpoints, lowest first, whatever order the directory is scanned in. */
    method ScanCommitted() returns (committed: seq<nat>)
      ensures Ascending(committed) && Elements(committed) == Committed(disk)
      ensures forall step :: step in committed <==>
                && step in disk.dirs && disk.dirs[step].manifest.Some?
                && disk.dirs[step].manifest.value.complete && disk.dirs[step].manifest.value.globalStep == step
    {
      committed := [];
      var unseen := disk.dirs.Keys;
      while unseen != {}
        invariant unseen <= disk.dirs.Keys
        invariant Ascending(committed) && Elements(committed) == Committed(disk) - unseen
        decreases |unseen|
      {
        var step :| step in unseen;
        if IsCommitted(disk, step) {
          assert step !in Elements(committed);
          assert forall k :: 0 <= k < |committed| ==> committed[k] in Elements(committed);
          InsertKeepsOrder(step, committed);
          committed := Insert(step, committed);
        }
        unseen := unseen - {step};
      }
      assert forall step :: step in committed <==> step in Elements(committed);
    }

    /** Deletes the trees of a list of checkpoints, one after the other. */
    method RemoveTrees(todo: seq<nat>)
      requires Valid() && now.saver == Pruning(todo)
      modifies this
      ensures Valid() && now == old(now).(disk := disk, saver := Pruning([]))
      ensures disk == Delete(old(disk), Elements(todo))
    {
      assert Elements(todo[..0]) == {} && Delete(disk, {}) == disk;
      for i := 0 to |todo|
        invariant Valid() && now == old(now).(disk := disk, saver := Pruning(todo[i..]))
        invariant disk == Delete(old(disk), Elements(todo[..i]))
      {
        DeleteNext(old(disk), todo, i);
        assert todo[i..][0] == todo[i] && todo[i..][1..] == todo[i + 1..];
        Take(RemoveTree);
        disk := Delete(disk, {todo[i]});
      }
      assert todo[..|todo|] == todo;
    }

    /** Deletes all but the `keep` highest committed checkpoints.  A directory without a manifest, with an
        incomplete one or with that of another step is left alone. */
    method Prune(keep: Option<nat>)
      requires Valid() && now.saver.Published? && RetentionLimit(now.saver.save) == keep
      modifies this
      ensures Valid() && now == old(now).(disk := disk, saver := Idle)
      ensures forall step :: step in old(disk).dirs && Unpublished(old(disk).dirs[step], step) ==>
                step in disk.dirs && disk.dirs[step] == old(disk).dirs[step]
      ensures disk == Delete(old(disk), if keep.None? then {} else Expired(old(disk), keep.value))
    {
      if keep.None? {
        Take(ListExpired([]));
        Take(Finish);
        return;
      }
      var committed := ScanCommitted();
      var surplus := if |committed| < keep.value then 0 else |committed| - keep.value;
      ExpiredIsPrefix(committed, surplus, disk, keep.value);
      Take(ListExpired(committed[..surplus]));
      RemoveTrees(committed[..surplus]);
      Take(Finish);
    }

    method WritePart(step: nat, part: Part)
      requires Valid() && now.saver.Writing? && now.saver.save.step == step && step in disk.dirs
      requires Turn(now.saver.save.config, now.saver.missing, part)
      modifies this
      ensures Valid() && now == old(now).(disk := disk, saver := now.saver)
      ensures now.saver == Writing(old(now).saver.save, old(now).saver.missing - {part})
      ensures disk == WithStored(old(disk), step, Put(old(disk).dirs[step].stored, {part}))
    {
      ghost var stored := disk.dirs[step].stored;
      WithStoredTwice(disk, step, Started(stored, part), Put(stored, {part}));
      assert Put(Started(stored, part), {part}) == Put(stored, {part});
      Take(StartPart(part));
      Take(FinishPart(part));
      disk := WithStored(disk, step, Put(disk.dirs[step].stored, {part}));
    }

    method WriteTrainer(save: Save, i: nat)
      requires Valid() && DistinctTrainers(save.config.trainers) && i < |save.config.trainers|
      requires now.saver == Writing(save, Parts(save.config) - TrainerParts(save.config.trainers[..i]))
      requires save.step in disk.dirs
      modifies this
      ensures Valid() && now == old(now).(disk := disk, saver := now.saver)
      ensures now.saver == Writing(save, Parts(save.config) - TrainerParts(save.config.trainers[..i + 1]))
      ensures disk == WithStored(old(disk), save.step, Put(old(disk).dirs[save.step].stored,
                                                          TrainerParts(save.config.trainers[..i + 1]) -
                                                          TrainerParts(save.config.trainers[..i])))
    {
      var t := save.config.trainers[i];
      ghost var stored := disk.dirs[save.step].stored;
      TrainerPartsSnoc(save.config.trainers, i);
      TrainerPartsIn(save.config.trainers, i);
      TrainerPartsNew(save.config.trainers, i);
      ghost var more := TrainerParts(save.config.trainers[..i + 1]) - TrainerParts(save.config.trainers[..i]);
      WritePart(save.step, ActorDir(t.name));
      if t.useCritic {
        WithStoredTwice(old(disk), save.step, Put(stored, {ActorDir(t.name)}),
                        Put(Put(stored, {ActorDir(t.name)}), {CriticDir(t.name)}));
        PutTwice(stored, {ActorDir(t.name)}, {CriticDir(t.name)});
        WritePart(save.step, CriticDir(t.name));
        assert more == {ActorDir(t.name)} + {CriticDir(t.name)};
      } else {
        assert more == {ActorDir(t.name)};
      }
      assert now.saver.missing == Parts(save.config) - TrainerParts(save.config.trainers[..i + 1]);
    }

    method WriteTrainers(save: Save)
      requires Valid() && DistinctTrainers(save.config.trainers)
      requires now.saver == Writing(save, Parts(save.config)) && save.step in disk.dirs
      modifies this
      ensures Valid() && now == old(now).(disk := disk, saver := now.saver)
      ensures now.saver == Writing(save, Parts(save.config) - TrainerParts(save.config.trainers))
      ensures disk == WithStored(old(disk), save.step,
                                 Put(old(disk).dirs[save.step].stored, TrainerParts(save.config.trainers)))
    {
      var trainers := save.config.trainers;
      ghost var stored := disk.dirs[save.step].stored;
      assert TrainerParts(trainers[..0]) == {} && Put(stored, {}) == stored;
      assert disk.dirs == WithStored(disk, save.step, stored).dirs;
      for i := 0 to |trainers|
        invariant Valid() && now == old(now).(disk := disk, saver := now.saver) && save.step in disk.dirs
        invariant now.saver == Writing(save, Parts(save.config) - TrainerParts(trainers[..i]))
        invariant disk == WithStored(old(disk), save.step, Put(stored, TrainerParts(trainers[..i])))
      {
        ghost var done, more := TrainerParts(trainers[..i]), TrainerParts(trainers[..i + 1]);
        TrainerPartsSnoc(trainers, i);
        PutTwice(stored, done, more - done);
        assert done + (more - done) == more;
        WithStoredTwice(old(disk), save.step, Put(stored, done), Put(stored, more));
        WriteTrainer(save, i);
      }
      assert trainers[..|trainers|] == trainers;
    }

    method WriteShared(save: Save)
      requires Valid() && save.step in disk.dirs
      requires now.saver == Writing(save, Parts(save.config) - TrainerParts(save.config.trainers))
      modifies this
      ensures Valid() && now == old(now).(disk := disk, saver := Writing(save, {}))
      ensures disk == WithStored(old(disk), save.step,
                                 Put(old(disk).dirs[save.step].stored,
                                     Parts(save.config) - TrainerParts(save.config.trainers)))
    {
      ghost var stored := disk.dirs[save.step].stored;
      ghost var shared := Parts(save.config) - TrainerParts(save.config.trainers);
      WritePart(save.step, DataFile);
      if SavesQueue(save.config) {
        WithStoredTwice(old(disk), save.step, Put(stored, {DataFile}), Put(Put(stored, {DataFile}), {QueueDir}));
        PutTwice(stored, {DataFile}, {QueueDir});
        WritePart(save.step, QueueDir);
        assert shared == {DataFile} + {QueueDir};
      } else {
        assert shared == {DataFile};
      }
      assert now.saver.missing == {};
    }

    method WriteParts(save: Save)
      requires Valid() && now.saver.Idle? && DistinctTrainers(save.config.trainers)
      modifies this
      ensures Valid() && now == old(now).(disk := disk, saver := Writing(save, {}))
      ensures disk == PartsWritten(old(disk), save)
    {
      Take(Begin(save));
      disk := WithDirectory(disk, save.step);
      ghost var begun := disk;
      ghost var stored := disk.dirs[save.step].stored;
      WriteTrainers(save);
      WriteShared(save);
      ghost var trainers := TrainerParts(save.config.trainers);
      PutTwice(stored, trainers, Parts(save.config) - trainers);
      assert trainers + (Parts(save.config) - trainers) == Parts(save.config);
      WithStoredTwice(begun, save.step, Put(stored, trainers), Put(stored, Parts(save.config)));
      assert disk.dirs == PartsWritten(old(disk), save).dirs;
    }

    method Save(save: Save)
      requires Valid() && now.saver.Idle? && DistinctTrainers(save.config.trainers)
      modifies this
      ensures Valid() && now == System(disk, Idle, Some(save.config))
      ensures disk == Saved(old(disk), save)
    {
      WriteParts(save);
      var manifest := BuildManifest(save.step, save.config);
      Take(PublishManifest);
      disk := disk.(dirs := disk.dirs[save.step := disk.dirs[save.step].(manifest := Some(manifest))]);
      Take(PublishTracker);
      disk := disk.(tracker := Some(save.step));
      assert disk.dirs == Written(old(disk), save).dirs;
      Prune(RetentionLimit(save));
    }
  }

  ghost function PartsWritten(disk: Disk, save: Save): Disk {
    var before := if save.step in disk.dirs then disk.dirs[save.step] else EMPTY;
    disk.(dirs := disk.dirs[save.step := before.(stored := Put(before.stored, Parts(save.config)))])
  }

  ghost function Written(disk: Disk, save: Save): Disk {
    var before := if save.step in disk.dirs then disk.dirs[save.step] else EMPTY;
    var dir := Directory(Put(before.stored, Parts(save.config)), Some(Built(save.step, save.config)));
    Disk(disk.dirs[save.step := dir], Some(save.step))
  }

  /** The disk an uninterrupted save leaves. */
  ghost function Saved(disk: Disk, save: Save): Disk {
    Delete(Written(disk, save), ToDelete(Written(disk, save), save))
  }

  lemma WrittenKeepsAbove(disk: Disk, save: Save)
    ensures IsCommitted(Written(disk, save), save.step)
    ensures Room(Written(disk, save), save) <==> Room(disk, save)
  {
    var written := Written(disk, save);
    assert written.dirs - {save.step} == disk.dirs - {save.step};
    SameAbove(disk, written, save.step);
  }

  /** An uninterrupted save leaves its own checkpoint complete exactly when it had room for it. */
  lemma SavedCheckpointSurvives(disk: Disk, save: Save)
    requires DistinctTrainers(save.config.trainers)
    ensures Complete(Saved(disk, save), save.step, save.config) <==> Room(disk, save)
    ensures save.step in Saved(disk, save).dirs <==> Room(disk, save)
  {
    WrittenKeepsAbove(disk, save);
    hide RetentionLimit, Built, Parts;
    assert Complete(Written(disk, save), save.step, save.config);
    assert save.step in ToDelete(Written(disk, save), save) <==> !Room(Written(disk, save), save);
  }
}

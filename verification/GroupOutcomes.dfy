/** When a session group returns its trajectories: exactly when nothing went wrong with it on the way. */
module GroupOutcomes {
  import opened Sequences
  import opened GatewayManagers
  import opened SessionGroups
  import opened GroupResults
  import opened LostSessions

  // ----- faults, as events -----

  /** The task is cancelled before it is over, its agent run fails, an actor refuses one of its creates,
      or one of its finalizes fails. */
  ghost predicate Fault(w: World, e: Event, group: Id)
    requires Enabled(w, e)
  {
    && group in w.tasks && !Done(w.tasks[group])
    && match e
       case Cancel(g) => g == group
       case RunEnds(g, ok) => g == group && !ok
       case ActorTakes(gateway, accepts) =>
         var call := w.actors[gateway].mailbox[0];
         call.Create? && call.sid.group == group && !accepts
       case ActorEnds(_, call, ok) => call.Finalize? && call.sid.group == group && !ok
       case _ => false
  }

  ghost predicate SawFault(w: World, events: seq<Event>, group: Id)
    requires Legal(w, events)
    decreases |events|
  {
    events != [] && (Fault(w, events[0], group) || SawFault(Step(w, events[0]), events[1..], group))
  }

  // ----- what a task without a fault relies on -----

  /** The task aborts, has aborted, or is about to. */
  predicate Hurt(t: Task) {
    || t.phase.Aborting? || t.phase.Raised?
    || ((t.phase.Creating? || t.phase.Finalizing?) && t.reply == Some(Failed))
  }

  /** Which role sessions the actor holds for a task that nothing went wrong with. */
  predicate Sound(t: Task, group: Id, sessions: map<Sid, seq<Trajectory>>) {
    match t.phase
    case Creating(k) =>
      forall r :: 0 <= r < |t.roles| ==> (Sid(group, r) in sessions <==> r < k || (r == k && t.reply.Some?))
    case Running => forall r :: 0 <= r < |t.roles| ==> Sid(group, r) in sessions
    case Finalizing(k, _, _) =>
      forall r :: k <= r < |t.roles| && (r == k ==> t.reply.None?) ==> Sid(group, r) in sessions
    case _ => true
  }

  /** All that is known of one group: how it stands to the manager and its actor, that its finalize calls
      are on their way as they should be, and that its sessions are in order unless something went wrong. */
  ghost predicate Healthy(w: World, group: Id, given: seq<seq<Trajectory>>) {
    && Inv(w) && ResultInv(w, group, 0, given)
    && (group in w.tasks && !Hurt(w.tasks[group]) ==>
          Sound(w.tasks[group], group, w.actors[w.tasks[group].gateway].sessions))
  }

  // ----- a step of the group's actor -----

  lemma TakeOutcome(failed: set<Sid>, gone: bool, group: Id, t: Task, a: Actor, accepts: bool)
    requires a.mailbox != [] && a.mailbox[0].sid.group == group && InRange(t)
    requires OwnerInv(failed, gone, group, t, a) && CallsFit(t, a, group)
    requires !Hurt(t) ==> Sound(t, group, a.sessions)
    ensures var call, (a', reply) := a.mailbox[0], Take(a, accepts);
            var t' := if reply.Some? then Answered(group, t, call, reply.value) else t;
            && (Hurt(t') <==> Hurt(t) || (call.Create? && !accepts && !Done(t)))
            && (!Hurt(t') ==> Sound(t', group, a'.sessions))
  {
    hide OwnerInv, CallsFit;
    var call := a.mailbox[0];
    HeadFits(failed, gone, group, t, a);
  }

  /** What the call at the head of the actor's mailbox can be. */
  lemma HeadFits(failed: set<Sid>, gone: bool, group: Id, t: Task, a: Actor)
    requires a.mailbox != [] && a.mailbox[0].sid.group == group && InRange(t)
    requires OwnerInv(failed, gone, group, t, a) && CallsFit(t, a, group)
    ensures var call := a.mailbox[0];
            match call
            case Create(sid) => (t.phase == Creating(sid.role) && t.reply.None?) || t.phase.Aborting?
            case Finalize(sid) =>
              (t.phase.Finalizing? && t.phase.role == sid.role && t.reply.None?) || t.phase.Aborting? || t.phase.Raised?
            case Abort(_) => t.phase.Aborting? || t.phase.Raised?
  {
    var call := a.mailbox[0];
    TakeFrame(a, true);
    FinalsOfTake(a, true, group);
    var mine, finals := Mine(Take(a, true).0.mailbox, group), Finals(Take(a, true).0.mailbox, group);
    if call.Finalize? {
      assert ([call] + finals)[0] == call;
    } else {
      HeadOfMine(group, t, call, Mine(a.mailbox, group), mine);
      assert ([call] + mine)[0] == call;
    }
  }

  lemma EndOutcome(failed: set<Sid>, gone: bool, group: Id, t: Task, a: Actor, call: Call, ok: bool)
    requires call in a.suspended && call.sid.group == group && InRange(t)
    requires ok && call.Finalize? ==> call.sid in a.sessions
    requires OwnerInv(failed, gone, group, t, a) && CallsFit(t, a, group)
    requires !Hurt(t) ==> Sound(t, group, a.sessions)
    ensures var t' := Answered(group, t, call, EndReply(a, call, ok));
            && (Hurt(t') <==> Hurt(t) || (call.Finalize? && !ok && !Done(t)))
            && (!Hurt(t') ==> Sound(t', group, End(a, call, ok).sessions))
  {
    assert !Hurt(t) ==> t.phase.Finalizing? && t.reply.None? && call == Finalize(Sid(group, t.phase.role)) by {
      SuspendedFits(failed, gone, group, t, a, call);
    }
  }

  lemma SuspendedFits(failed: set<Sid>, gone: bool, group: Id, t: Task, a: Actor, call: Call)
    requires call in a.suspended && call.sid.group == group && InRange(t)
    requires OwnerInv(failed, gone, group, t, a) && CallsFit(t, a, group)
    ensures !Hurt(t) ==> t.phase.Finalizing? && t.reply.None? && call == Finalize(Sid(group, t.phase.role))
  {
  }

  // ----- a step of the whole -----

  ghost predicate HurtIn(w: World, group: Id) {
    group in w.tasks && Hurt(w.tasks[group])
  }

  ghost predicate SoundIn(w: World, group: Id)
    requires WellFormed(w)
  {
    group in w.tasks && !Hurt(w.tasks[group]) ==>
      Sound(w.tasks[group], group, w.actors[w.tasks[group].gateway].sessions)
  }

  /** A step hurts the task exactly if it is a fault. */
  ghost predicate FaultsHurt(w: World, e: Event, group: Id)
    requires WellFormed(w) && Enabled(w, e)
  {
    && WellFormed(Step(w, e)) && SoundIn(Step(w, e), group)
    && (HurtIn(Step(w, e), group) <==> HurtIn(w, group) || Fault(w, e, group))
  }

  /** Entering a phase shows in its own task, and leaves all sessions alone.
      `w1` is `w` with the manager's tables and the interruption record already updated. */
  lemma EnterShows(w: World, w1: World, mover: Id, phase: Phase, fault: bool, group: Id)
    requires WellFormed(w) && SoundIn(w, group) && SameTasks(w, w1) && mover in w.tasks
    requires WellFormed(Enter(w1, mover, phase, fault))
    requires mover == group && !phase.Aborting? && !phase.Raised? ==>
               Sound(Entered(w.tasks[group], phase, fault), group, w.actors[w.tasks[group].gateway].sessions)
    ensures var w' := Enter(w1, mover, phase, fault);
            && SoundIn(w', group)
            && (mover != group ==> (HurtIn(w', group) <==> HurtIn(w, group)))
            && (mover == group ==> (HurtIn(w', group) <==> phase.Aborting? || phase.Raised?))
  {
  }

  lemma CancelOutcome(w: World, mover: Id, group: Id)
    requires WellFormed(w) && SoundIn(w, group) && mover in w.tasks && WellFormed(Cancelled(w, mover))
    ensures FaultsHurt(w, Cancel(mover), group)
  {
    hide Enter, Sound;
    match w.tasks[mover].phase
    case Creating(_) => EnterShows(w, w, mover, Aborting(0, CreateFailed), true, group);
    case Running => EnterShows(w, w, mover, Aborting(0, RunCancelled), true, group);
    case Finalizing(_, _, _) => EnterShows(w, w, mover, Aborting(0, FinalizeFailed), true, group);
    case Aborting(_, cause) =>
      if !Shielded(cause) {
        EnterShows(w, DropGroup(w, mover).(interrupted := w.interrupted + {mover}), mover, Raised, true, group);
      }
    case _ =>
  }

  lemma RunEndsOutcome(w: World, mover: Id, ok: bool, group: Id)
    requires WellFormed(w) && SoundIn(w, group) && Enabled(w, RunEnds(mover, ok))
    requires WellFormed(Step(w, RunEnds(mover, ok)))
    ensures FaultsHurt(w, RunEnds(mover, ok), group)
  {
    EnterShows(w, w, mover, if ok then Finalizing(0, [], []) else Aborting(0, RunFailed), !ok, group);
  }

  lemma ResumeOutcome(w: World, mover: Id, group: Id)
    requires WellFormed(w) && SoundIn(w, group) && Enabled(w, Resume(mover)) && WellFormed(Resumed(w, mover))
    ensures FaultsHurt(w, Resume(mover), group)
  {
    hide Enter, Sound;
    var t := w.tasks[mover];
    match t.phase {
      case Creating(k) =>
        var next := if t.reply.value.Failed? then Aborting(0, CreateFailed)
                    else if k + 1 < |t.roles| then Creating(k + 1) else Running;
        if mover == group && !next.Aborting? {
          CreatedIsSound(t, group, w.actors[t.gateway].sessions, next);
        }
        EnterShows(w, w, mover, next, next.Aborting?, group);
      case Finalizing(k, parts, output) =>
        if t.reply.value.Failed? {
          EnterShows(w, w, mover, Aborting(0, FinalizeFailed), true, group);
        } else {
          var parts' := parts + [t.reply.value.trajectories];
          var output' := output + Tags(mover, t.roles[k], t.reply.value.trajectories);
          var last := k + 1 == |t.roles|;
          var next := if last then Returned(parts', output') else Finalizing(k + 1, parts', output');
          if mover == group {
            FinalizedIsSound(t, group, w.actors[t.gateway].sessions, next);
          }
          EnterShows(w, if last then DropGroup(w, mover) else w, mover, next, false, group);
        }
      case Aborting(k, cause) =>
        if k + 1 < |t.roles| {
          EnterShows(w, w, mover, Aborting(k + 1, cause), false, group);
        } else {
          EnterShows(w, DropGroup(w, mover), mover, Raised, false, group);
        }
      case _ =>
    }
  }

  lemma CreatedIsSound(t: Task, group: Id, sessions: map<Sid, seq<Trajectory>>, next: Phase)
    requires Sound(t, group, sessions) && t.phase.Creating? && t.reply.Some? && InRange(t)
    requires next == if t.phase.role + 1 < |t.roles| then Creating(t.phase.role + 1) else Running
    ensures Sound(Entered(t, next, false), group, sessions)
  {
  }

  lemma FinalizedIsSound(t: Task, group: Id, sessions: map<Sid, seq<Trajectory>>, next: Phase)
    requires Sound(t, group, sessions) && t.phase.Finalizing?
    requires next.Returned? || (next.Finalizing? && next.role == t.phase.role + 1)
    ensures Sound(Entered(t, next, false), group, sessions)
  {
  }

  lemma BeginOutcome(w: World, mover: Id, roles: seq<Role>, group: Id)
    requires Inv(w) && SoundIn(w, group) && mover !in w.tasks && WellFormed(Begun(w, mover, roles))
    ensures FaultsHurt(w, Begin(mover, roles), group)
  {
    assert GroupInv(w, group);
  }

  /** An actor's step for another group leaves this group's sessions alone. */
  ghost predicate SameSessions(a: Actor, a': Actor, group: Id) {
    forall sid: Sid :: sid.group == group ==> (sid in a'.sessions <==> sid in a.sessions)
  }

  lemma OthersKeepSessions(a: Actor, group: Id)
    ensures forall accepts :: a.mailbox != [] && a.mailbox[0].sid.group != group ==>
              SameSessions(a, Take(a, accepts).0, group)
    ensures forall call: Call, ok :: call.sid.group != group ==> SameSessions(a, End(a, call, ok), group)
  {
  }

  lemma SoundReads(t: Task, group: Id, a: Actor, a': Actor)
    requires SameSessions(a, a', group)
    ensures Sound(t, group, a'.sessions) == Sound(t, group, a.sessions)
  {
  }

  /** The call that the actor starts or ends. */
  ghost function Handled(w: World, e: Event): Call
    requires Enabled(w, e) && (e.ActorTakes? || e.ActorEnds?)
  {
    if e.ActorTakes? then w.actors[e.gateway].mailbox[0] else e.call
  }

  lemma OthersOutcome(w: World, e: Event, group: Id)
    requires Inv(w) && SoundIn(w, group) && Enabled(w, e) && WellFormed(Step(w, e))
    requires (e.ActorTakes? || e.ActorEnds?) && Handled(w, e).sid.group != group
    ensures FaultsHurt(w, e, group)
  {
    hide Take, End, EndReply, Sound, Hurt, GroupInv;
    var a, a' := w.actors[e.gateway], Step(w, e).actors[e.gateway];
    OthersKeepSessions(a, group);
    if group in w.tasks {
      SoundReads(w.tasks[group], group, a, a');
    }
  }

  lemma ActorOutcome(w: World, e: Event, group: Id)
    requires Inv(w) && SoundIn(w, group) && Enabled(w, e) && WellFormed(Step(w, e))
    requires group in w.tasks ==> CallsFit(w.tasks[group], w.actors[w.tasks[group].gateway], group)
    requires e.ActorTakes? || e.ActorEnds?
    ensures FaultsHurt(w, e, group)
  {
    if Handled(w, e).sid.group == group {
      OwnActorOutcome(w, e, group);
    } else {
      OthersOutcome(w, e, group);
    }
  }

  lemma OwnActorOutcome(w: World, e: Event, group: Id)
    requires Inv(w) && SoundIn(w, group) && Enabled(w, e) && WellFormed(Step(w, e))
    requires group in w.tasks ==> CallsFit(w.tasks[group], w.actors[w.tasks[group].gateway], group)
    requires (e.ActorTakes? || e.ActorEnds?) && Handled(w, e).sid.group == group
    ensures FaultsHurt(w, e, group)
  {
    hide Take, End, EndReply, CallsFit, OwnerInv, Sound, Hurt;
    assert GroupInv(w, group);
    if group in w.tasks {
      var t, a := w.tasks[group], w.actors[e.gateway];
      if t.gateway != e.gateway {
        assert AbsentFrom(a, group);
      } else if e.ActorTakes? {
        TakeOutcome(w.failedAborts, group in w.interrupted, group, t, a, e.accepts);
      } else {
        EndOutcome(w.failedAborts, group in w.interrupted, group, t, a, e.call, e.ok);
      }
    }
  }

  lemma ChangeOutcome(w: World, e: Event, group: Id)
    requires WellFormed(w) && SoundIn(w, group) && Enabled(w, e) && WellFormed(Step(w, e)) && e.SessionChanges?
    ensures FaultsHurt(w, e, group)
  {
    if group in w.tasks {
      SoundReads(w.tasks[group], group, w.actors[e.gateway], Step(w, e).actors[e.gateway]);
    }
  }

  lemma StepOutcome(w: World, e: Event, group: Id, given: seq<seq<Trajectory>>)
    requires Healthy(w, group, given) && Enabled(w, e)
    ensures FaultsHurt(w, e, group)
    ensures Healthy(Step(w, e), group, given + Yield(w, e, Sid(group, 0)))
  {
    StepKeeps(w, e);
    StepKeepsResults(w, e, group, 0, given);
    hide Step, GroupInv, Sound;
    match e
    case Begin(mover, roles) => BeginOutcome(w, mover, roles, group);
    case RunEnds(mover, ok) => RunEndsOutcome(w, mover, ok, group);
    case Resume(mover) => ResumeOutcome(w, mover, group);
    case Cancel(mover) => CancelOutcome(w, mover, group);
    case SessionChanges(_, _, _) => ChangeOutcome(w, e, group);
    case ActorTakes(_, _) => ActorOutcome(w, e, group);
    case ActorEnds(_, _, _) => ActorOutcome(w, e, group);
  }

  // ----- runs -----

  lemma {:induction false} RunOutcome(w: World, events: seq<Event>, group: Id, given: seq<seq<Trajectory>>)
    requires Healthy(w, group, given) && Legal(w, events)
    ensures HurtIn(After(w, events), group) <==> HurtIn(w, group) || SawFault(w, events, group)
    decreases |events|
  {
    if events != [] {
      hide Healthy, Step, HurtIn, Fault, Enabled, WellFormed;
      StepOutcome(w, events[0], group, given);
      RunOutcome(Step(w, events[0]), events[1..], group, given + Yield(w, events[0], Sid(group, 0)));
    }
  }

  /** A task that is over has returned its trajectories exactly if, in the whole run, it was not cancelled
      before it was over, its agent run did not fail, no actor refused a create of the group and no finalize
      of the group failed. */
  lemma ReturnedExactly(gatewayCount: nat, events: seq<Event>, group: Id)
    requires Legal(Start(gatewayCount), events)
    requires group in After(Start(gatewayCount), events).tasks && Done(After(Start(gatewayCount), events).tasks[group])
    ensures After(Start(gatewayCount), events).tasks[group].phase.Returned? <==>
            !SawFault(Start(gatewayCount), events, group)
  {
    StartInv(gatewayCount);
    RunOutcome(Start(gatewayCount), events, group, []);
  }

  // ----- such a run -----

  /** Sessions that hold nothing yet, for the roles from `lo` up to `hi`. */
  function Empty(group: Id, lo: nat, hi: nat): map<Sid, seq<Trajectory>> {
    map r | lo <= r < hi :: Sid(group, r) := []
  }

  /** The task waits for the finalize of role k, with what it has collected so far. */
  function AtRole(m: Manager, group: Id, roles: seq<Role>, parts: seq<seq<Trajectory>>, output: seq<Tagged>): World {
    Alone(m, Actor([Finalize(Sid(group, |parts|))], Empty(group, |parts|, |roles|), {}), group, roles,
          Finalizing(|parts|, parts, output), None, 0)
  }

  lemma {:induction false} AllCreated(m: Manager, group: Id, roles: seq<Role>, k: nat, rest: seq<Event>)
    returns (events: seq<Event>)
    requires OneGateway(m) && k < |roles|
    requires Legal(Alone(m, Actor([], Empty(group, 0, |roles|), {}), group, roles, Running, None, 0), rest)
    ensures var a := Actor([Create(Sid(group, k))], Empty(group, 0, k), {});
            var w := Alone(m, a, group, roles, Creating(k), None, 0);
            var running := Alone(m, Actor([], Empty(group, 0, |roles|), {}), group, roles, Running, None, 0);
            Legal(w, events) && After(w, events) == After(running, rest)
    decreases |roles| - k
  {
    hide Alone, Legal, After;
    assert Empty(group, 0, k)[Sid(group, k) := []] == Empty(group, 0, k + 1);
    var next := NextCreate(roles, k);
    assert Post(Actor([], Empty(group, 0, k + 1), {}), CallsOf(group, next)).mailbox ==
           if next.Running? then [] else [Create(Sid(group, k + 1))];
    events := rest;
    if k + 1 < |roles| {
      events := AllCreated(m, group, roles, k + 1, rest);
    }
    events := RoleCreated(m, Empty(group, 0, k), group, roles, k, events);
  }

  lemma AloneChanges(m: Manager, group: Id, roles: seq<Role>, phase: Phase, k: nat, content: seq<Trajectory>)
    requires OneGateway(m) && k < |roles| && phase.Finalizing? && phase.role == k && |phase.parts| == k
    ensures var call, held := Finalize(Sid(group, k)), Empty(group, k, |roles|)[Sid(group, k) := content];
            var asked := Alone(m, Actor([call], Empty(group, k, |roles|), {}), group, roles, phase, None, 0);
            && WellFormed(asked) && Enabled(asked, SessionChanges(0, Sid(group, k), content))
            && Step(asked, SessionChanges(0, Sid(group, k), content)) ==
               Alone(m, Actor([call], held, {}), group, roles, phase, None, 0)
  {
    var call, none := Finalize(Sid(group, k)), Empty(group, k, |roles|);
    var asked, changed := Actor([call], none, {}), Actor([call], none[Sid(group, k) := content], {});
    assert [asked][0 := changed] == [changed];
  }

  lemma AloneEnds(m: Manager, group: Id, roles: seq<Role>, phase: Phase, k: nat, content: seq<Trajectory>)
    requires OneGateway(m) && k < |roles| && phase.Finalizing? && phase.role == k && |phase.parts| == k
    ensures var call, held := Finalize(Sid(group, k)), Empty(group, k, |roles|)[Sid(group, k) := content];
            var changed := Alone(m, Actor([call], held, {}), group, roles, phase, None, 0);
            var waiting := Alone(m, Actor([], held, {call}), group, roles, phase, None, 0);
            && WellFormed(changed) && Enabled(changed, ActorTakes(0, true))
            && Step(changed, ActorTakes(0, true)) == waiting
            && WellFormed(waiting) && Enabled(waiting, ActorEnds(0, call, true))
            && Step(waiting, ActorEnds(0, call, true)) ==
               Alone(m, Actor([], Empty(group, k + 1, |roles|), {}), group, roles, phase, Some(Succeeded(content)), 0)
  {
    var call, held := Finalize(Sid(group, k)), Empty(group, k, |roles|)[Sid(group, k) := content];
    assert [call][1..] == [] && {} + {call} == {call} && {call} - {call} == {};
    assert held - {Sid(group, k)} == Empty(group, k + 1, |roles|);
    var changed, waiting := Actor([call], held, {}), Actor([], held, {call});
    var ended := Actor([], Empty(group, k + 1, |roles|), {});
    assert Take(changed, true) == (waiting, None) && End(waiting, call, true) == ended;
    assert [changed][0 := waiting] == [waiting] && [waiting][0 := ended] == [ended];
  }

  /** What follows the last finalize, or the one before it. */
  function AfterFinalize(m: Manager, group: Id, roles: seq<Role>, parts: seq<seq<Trajectory>>, output: seq<Tagged>)
    : World
    requires ManagerOk(m)
  {
    if |parts| < |roles| then AtRole(m, group, roles, parts, output)
    else Alone(Drop(m, group), Actor([], map[], {}), group, roles, Returned(parts, output), None, 0)
  }

  lemma FinalizedResumes(m: Manager, group: Id, roles: seq<Role>, parts: seq<seq<Trajectory>>, output: seq<Tagged>,
                         content: seq<Trajectory>)
    requires OneGateway(m) && |parts| < |roles|
    ensures var k := |parts|;
            var phase, idle := Finalizing(k, parts, output), Actor([], Empty(group, k + 1, |roles|), {});
            var ended := Alone(m, idle, group, roles, phase, Some(Succeeded(content)), 0);
            && WellFormed(ended) && Enabled(ended, Resume(group))
            && Step(ended, Resume(group)) ==
               AfterFinalize(m, group, roles, parts + [content], output + Tags(group, roles[k], content))
  {
    var k, parts', output' := |parts|, parts + [content], output + Tags(group, roles[|parts|], content);
    var idle, phase := Actor([], Empty(group, k + 1, |roles|), {}), Finalizing(k, parts, output);
    var next := if k + 1 < |roles| then Finalizing(k + 1, parts', output') else Returned(parts', output');
    AloneEnters(m, idle, group, roles, phase, Some(Succeeded(content)), 0, next, false);
    AloneEnters(Drop(m, group), idle, group, roles, phase, Some(Succeeded(content)), 0, next, false);
    assert Post(idle, CallsOf(group, next)).mailbox == if k + 1 < |roles| then [Finalize(Sid(group, k + 1))] else [];
    assert k + 1 == |roles| ==> Empty(group, k + 1, |roles|) == map[];
  }

  /** The session of the next role gets its content and is finalized. */
  lemma RoleFinalized(m: Manager, group: Id, roles: seq<Role>, parts: seq<seq<Trajectory>>, output: seq<Tagged>,
                      content: seq<Trajectory>, rest: seq<Event>) returns (events: seq<Event>)
    requires OneGateway(m) && |parts| < |roles|
    requires var output' := output + Tags(group, roles[|parts|], content);
             Legal(AfterFinalize(m, group, roles, parts + [content], output'), rest)
    ensures var output' := output + Tags(group, roles[|parts|], content);
            var next := AfterFinalize(m, group, roles, parts + [content], output');
            && Legal(AtRole(m, group, roles, parts, output), events)
            && After(AtRole(m, group, roles, parts, output), events) == After(next, rest)
  {
    var k, phase := |parts|, Finalizing(|parts|, parts, output);
    AloneChanges(m, group, roles, phase, k, content);
    AloneEnds(m, group, roles, phase, k, content);
    FinalizedResumes(m, group, roles, parts, output, content);
    var asked := AtRole(m, group, roles, parts, output);
    hide Step, WellFormed, Enabled, Alone, AfterFinalize, AtRole, Empty;
    var held := Empty(group, k, |roles|)[Sid(group, k) := content];
    var call := Finalize(Sid(group, k));
    events := FirstStep(Alone(m, Actor([], Empty(group, k + 1, |roles|), {}), group, roles, phase,
                              Some(Succeeded(content)), 0), Resume(group), rest);
    events := FirstStep(Alone(m, Actor([], held, {call}), group, roles, phase, None, 0),
                        ActorEnds(0, call, true), events);
    events := FirstStep(Alone(m, Actor([call], held, {}), group, roles, phase, None, 0), ActorTakes(0, true), events);
    events := FirstStep(asked, SessionChanges(0, Sid(group, k), content), events);
  }

  /** The roles that are left are finalized one after the other. */
  lemma {:induction false} AllFinalized(m: Manager, group: Id, roles: seq<Role>, contents: seq<seq<Trajectory>>, k: nat)
    returns (events: seq<Event>)
    requires OneGateway(m) && |contents| == |roles| && k <= |roles|
    ensures var w := AfterFinalize(m, group, roles, contents[..k], Collected(group, roles, contents[..k]));
            && Legal(w, events)
            && After(w, events) == AfterFinalize(m, group, roles, contents, Collected(group, roles, contents))
    decreases |roles| - k
  {
    hide Legal, After, AfterFinalize;
    if k == |roles| {
      assert contents[..k] == contents;
      events := NoMore(AfterFinalize(m, group, roles, contents, Collected(group, roles, contents)));
    } else {
      assert contents[..k + 1] == contents[..k] + [contents[k]] && contents[..k + 1][..k] == contents[..k];
      events := AllFinalized(m, group, roles, contents, k + 1);
      var output := Collected(group, roles, contents[..k]);
      events := RoleFinalized(m, group, roles, contents[..k], output, contents[k], events);
      WaitsAtRole(m, group, roles, contents[..k], output);
    }
  }

  lemma NoMore(w: World) returns (events: seq<Event>)
    ensures Legal(w, events) && After(w, events) == w
  {
    events := [];
  }

  lemma WaitsAtRole(m: Manager, group: Id, roles: seq<Role>, parts: seq<seq<Trajectory>>, output: seq<Tagged>)
    requires ManagerOk(m) && |parts| < |roles|
    ensures AfterFinalize(m, group, roles, parts, output) == AtRole(m, group, roles, parts, output)
  {
  }

  /** For any roles and whatever their sessions end up holding there is a run that returns just that. */
  lemma ReturningRun(group: Id, roles: seq<Role>, contents: seq<seq<Trajectory>>) returns (events: seq<Event>)
    requires roles != [] && ValidRoles(roles) && |contents| == |roles|
    ensures Legal(Start(1), events)
    ensures var w := After(Start(1), events);
            && group in w.tasks
            && w.tasks[group].phase == Returned(contents, Collected(group, roles, contents))
  {
    var m := Begins(group, roles);
    var none := Actor([], Empty(group, 0, |roles|), {});
    events := AllFinalized(m, group, roles, contents, 0);
    assert contents[..0] == [];
    AloneEnters(m, none, group, roles, Running, None, 0, Finalizing(0, [], []), false);
    assert Post(none, CallsOf(group, Finalizing(0, [], []))).mailbox == [Finalize(Sid(group, 0))];
    events := FirstStep(Alone(m, none, group, roles, Running, None, 0), RunEnds(group, true), events);
    assert Empty(group, 0, 0) == map[];
    events := AllCreated(m, group, roles, 0, events);
    events := FirstStep(Start(1), Begin(group, roles), events);
  }
}

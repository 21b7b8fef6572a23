/** Every rollout task can come to its end: the call that it waits for is always on its way. */
module GroupProgress {
  import opened Sequences
  import opened GatewayManagers
  import opened SessionGroups
  import opened LostSessions

  // ----- the awaited call is on its way -----

  predicate OnItsWay(a: Actor, call: Call) {
    call in a.mailbox || call in a.suspended
  }

  predicate Waits(group: Id, t: Task) {
    t.reply.None? && Awaited(group, t.phase).Some?
  }

  /** And only calls are answered. */
  predicate Sent(group: Id, t: Task, a: Actor) {
    && (Waits(group, t) ==> OnItsWay(a, Awaited(group, t.phase).value))
    && (t.reply.Some? ==> Awaited(group, t.phase).Some?)
  }

  ghost predicate SentIn(w: World, group: Id)
    requires WellFormed(w)
  {
    group in w.tasks ==> Sent(group, w.tasks[group], w.actors[w.tasks[group].gateway])
  }

  lemma EnterSends(w: World, w1: World, mover: Id, phase: Phase, fault: bool, group: Id)
    requires WellFormed(w) && SentIn(w, group) && mover in w.tasks
    requires w1 == w.(manager := w1.manager, interrupted := w1.interrupted)
    requires WellFormed(Enter(w1, mover, phase, fault))
    ensures SentIn(Enter(w1, mover, phase, fault), group)
  {
  }

  lemma ResumeSends(w: World, mover: Id, group: Id)
    requires WellFormed(w) && SentIn(w, group) && Enabled(w, Resume(mover)) && WellFormed(Resumed(w, mover))
    ensures SentIn(Resumed(w, mover), group)
  {
    hide Enter, Sent;
    var t := w.tasks[mover];
    match t.phase {
      case Creating(k) =>
        var next := if t.reply.value.Failed? then Aborting(0, CreateFailed)
                    else if k + 1 < |t.roles| then Creating(k + 1) else Running;
        EnterSends(w, w, mover, next, next.Aborting?, group);
      case Finalizing(k, parts, output) =>
        if t.reply.value.Failed? {
          EnterSends(w, w, mover, Aborting(0, FinalizeFailed), true, group);
        } else {
          var parts' := parts + [t.reply.value.trajectories];
          var output' := output + Tags(mover, t.roles[k], t.reply.value.trajectories);
          var last := k + 1 == |t.roles|;
          var next := if last then Returned(parts', output') else Finalizing(k + 1, parts', output');
          EnterSends(w, if last then DropGroup(w, mover) else w, mover, next, false, group);
        }
      case Aborting(k, cause) =>
        if k + 1 < |t.roles| {
          EnterSends(w, w, mover, Aborting(k + 1, cause), false, group);
        } else {
          EnterSends(w, DropGroup(w, mover), mover, Raised, false, group);
        }
      case _ =>
    }
  }

  lemma CancelSends(w: World, mover: Id, group: Id)
    requires WellFormed(w) && SentIn(w, group) && mover in w.tasks && WellFormed(Cancelled(w, mover))
    ensures SentIn(Cancelled(w, mover), group)
  {
    hide Enter, Sent;
    match w.tasks[mover].phase
    case Creating(_) => EnterSends(w, w, mover, Aborting(0, CreateFailed), true, group);
    case Running => EnterSends(w, w, mover, Aborting(0, RunCancelled), true, group);
    case Finalizing(_, _, _) => EnterSends(w, w, mover, Aborting(0, FinalizeFailed), true, group);
    case Aborting(_, cause) =>
      if !Shielded(cause) {
        EnterSends(w, DropGroup(w, mover).(interrupted := w.interrupted + {mover}), mover, Raised, true, group);
      }
    case _ =>
  }

  lemma TakeSends(group: Id, t: Task, a: Actor, accepts: bool)
    requires a.mailbox != [] && Sent(group, t, a)
    ensures var call, (a', reply) := a.mailbox[0], Take(a, accepts);
            && Sent(group, if reply.Some? then Answered(group, t, call, reply.value) else t, a')
            && (call.sid.group != group ==> Sent(group, t, a'))
            && forall answer :: Answered(group, t, call, answer).gateway == t.gateway
  {
    assert a.mailbox == [a.mailbox[0]] + a.mailbox[1..];
  }

  lemma EndSends(group: Id, t: Task, a: Actor, call: Call, ok: bool, reply: Reply)
    requires Sent(group, t, a)
    ensures Sent(group, Answered(group, t, call, reply), End(a, call, ok))
    ensures call.sid.group != group ==> Sent(group, t, End(a, call, ok))
    ensures Answered(group, t, call, reply).gateway == t.gateway
  {
  }

  lemma StepSends(w: World, e: Event, group: Id)
    requires WellFormed(w) && SentIn(w, group) && Enabled(w, e) && WellFormed(Step(w, e))
    ensures SentIn(Step(w, e), group)
  {
    match e
    case Begin(mover, roles) => BeginSends(w, mover, roles, group);
    case RunEnds(mover, ok) =>
      EnterSends(w, w, mover, if ok then Finalizing(0, [], []) else Aborting(0, RunFailed), !ok, group);
    case Resume(mover) => ResumeSends(w, mover, group);
    case Cancel(mover) => CancelSends(w, mover, group);
    case ActorTakes(gateway, accepts) => ActorTakesSends(w, gateway, accepts, group);
    case ActorEnds(gateway, call, ok) => ActorEndsSends(w, gateway, call, ok, group);
    case SessionChanges(_, _, _) =>
  }

  lemma BeginSends(w: World, mover: Id, roles: seq<Role>, group: Id)
    requires WellFormed(w) && SentIn(w, group) && mover !in w.tasks && WellFormed(Begun(w, mover, roles))
    ensures SentIn(Begun(w, mover, roles), group)
  {
  }

  lemma ActorTakesSends(w: World, gateway: nat, accepts: bool, group: Id)
    requires WellFormed(w) && SentIn(w, group) && Enabled(w, ActorTakes(gateway, accepts))
    requires WellFormed(Taken(w, gateway, accepts))
    ensures SentIn(Taken(w, gateway, accepts), group)
  {
    hide Sent, Answered;
    if group in w.tasks && w.tasks[group].gateway == gateway {
      TakeSends(group, w.tasks[group], w.actors[gateway], accepts);
    }
  }

  lemma ActorEndsSends(w: World, gateway: nat, call: Call, ok: bool, group: Id)
    requires WellFormed(w) && SentIn(w, group) && Enabled(w, ActorEnds(gateway, call, ok))
    requires WellFormed(Ended(w, gateway, call, ok))
    ensures SentIn(Ended(w, gateway, call, ok), group)
  {
    hide End, Sent, Answered, EndReply;
    if group in w.tasks && w.tasks[group].gateway == gateway {
      EndSends(group, w.tasks[group], w.actors[gateway], call, ok, EndReply(w.actors[gateway], call, ok));
    }
  }

  lemma {:induction false} RunSends(w: World, events: seq<Event>, group: Id)
    requires Inv(w) && SentIn(w, group) && Legal(w, events)
    ensures Inv(After(w, events)) && SentIn(After(w, events), group)
    decreases |events|
  {
    if events != [] {
      hide Step, SentIn, Enabled, GroupInv;
      StepKeeps(w, events[0]);
      StepSends(w, events[0], group);
      RunSends(Step(w, events[0]), events[1..], group);
    }
  }

  // ----- to the end of one task -----

  /** How far the task is from its end. */
  function PhaseRank(t: Task): int
    requires InRange(t)
  {
    var n := |t.roles|;
    match t.phase
    case Creating(k) => 3 * n + 2 - k
    case Running => 2 * n + 1
    case Finalizing(k, _, _) => 2 * n - k
    case Aborting(k, _) => n - k
    case _ => 0
  }

  function Position(mailbox: seq<Call>, call: Call): nat {
    if mailbox == [] || mailbox[0] == call then 0 else 1 + Position(mailbox[1..], call)
  }

  lemma {:induction false} PositionFinds(mailbox: seq<Call>, call: Call)
    requires call in mailbox
    ensures Position(mailbox, call) < |mailbox| && mailbox[Position(mailbox, call)] == call
  {
    if mailbox[0] != call {
      PositionFinds(mailbox[1..], call);
    }
  }

  /** How far the awaited call is from its answer. */
  function WaitRank(group: Id, t: Task, a: Actor): nat {
    if !Waits(group, t) then 0
    else
      var call := Awaited(group, t.phase).value;
      if call in a.suspended then 1 else 2 + Position(a.mailbox, call)
  }

  /** The next event that brings the task on. */
  function Advance(group: Id, t: Task, a: Actor): Event {
    if t.reply.Some? then Resume(group)
    else if t.phase.Running? then RunEnds(group, true)
    else
      var call := Awaited(group, t.phase);
      if call.Some? && call.value in a.suspended then ActorEnds(t.gateway, call.value, false)
      else ActorTakes(t.gateway, true)
  }

  lemma TakeAdvances(group: Id, t: Task, a: Actor)
    requires Waits(group, t) && Sent(group, t, a) && Awaited(group, t.phase).value !in a.suspended && InRange(t)
    ensures a.mailbox != []
    ensures var call, (a', reply) := a.mailbox[0], Take(a, true);
            var t' := if reply.Some? && call.sid.group == group then Answered(group, t, call, reply.value) else t;
            && t'.roles == t.roles && t'.phase == t.phase && t'.gateway == t.gateway
            && WaitRank(group, t', a') < WaitRank(group, t, a)
  {
    PositionFinds(a.mailbox, Awaited(group, t.phase).value);
  }

  ghost predicate Advances(w: World, group: Id, e: Event)
    requires WellFormed(w) && group in w.tasks && Enabled(w, e)
  {
    && WellFormed(Step(w, e)) && group in Step(w, e).tasks
    && var t, t' := w.tasks[group], Step(w, e).tasks[group];
       && t'.gateway == t.gateway
       && (PhaseRank(t') < PhaseRank(t) ||
           (PhaseRank(t') == PhaseRank(t) &&
            WaitRank(group, t', Step(w, e).actors[t.gateway]) < WaitRank(group, t, w.actors[t.gateway])))
  }

  lemma TaskAdvances(w: World, group: Id, e: Event)
    requires Inv(w) && SentIn(w, group) && group in w.tasks && Enabled(w, e) && WellFormed(Step(w, e))
    requires e == Resume(group) || (e == RunEnds(group, true) && w.tasks[group].phase.Running?)
    ensures Advances(w, group, e)
  {
    hide GroupInv, WaitRank;
  }

  lemma ActorAdvances(w: World, group: Id, e: Event)
    requires Inv(w) && SentIn(w, group) && group in w.tasks && Waits(group, w.tasks[group])
    requires e == Advance(group, w.tasks[group], w.actors[w.tasks[group].gateway])
    requires Enabled(w, e) && WellFormed(Step(w, e))
    ensures Advances(w, group, e)
  {
    hide GroupInv;
    var t := w.tasks[group];
    var a := w.actors[t.gateway];
    if Awaited(group, t.phase).value !in a.suspended {
      TakeAdvances(group, t, a);
      hide Take, WaitRank;
    }
  }

  lemma AdvanceAdvances(w: World, group: Id)
    requires Inv(w) && SentIn(w, group) && group in w.tasks && !Done(w.tasks[group])
    ensures var e := Advance(group, w.tasks[group], w.actors[w.tasks[group].gateway]);
            Enabled(w, e) && Advances(w, group, e)
  {
    hide Step, GroupInv;
    var e := Advance(group, w.tasks[group], w.actors[w.tasks[group].gateway]);
    assert Enabled(w, e);
    StepKeeps(w, e);
    if Waits(group, w.tasks[group]) {
      ActorAdvances(w, group, e);
    } else {
      TaskAdvances(w, group, e);
    }
  }

  lemma {:induction false} Finish(w: World, group: Id) returns (more: seq<Event>)
    requires Inv(w) && SentIn(w, group) && group in w.tasks
    ensures Legal(w, more) && group in After(w, more).tasks && Done(After(w, more).tasks[group])
    decreases PhaseRank(w.tasks[group]), WaitRank(group, w.tasks[group], w.actors[w.tasks[group].gateway])
  {
    var t := w.tasks[group];
    if Done(t) {
      more := [];
    } else {
      var e := Advance(group, t, w.actors[t.gateway]);
      AdvanceAdvances(w, group);
      RankIsPositive(t);
      StepKeeps(w, e);
      StepSends(w, e, group);
      hide Step, Advance, PhaseRank, WaitRank, GroupInv, SentIn, Enabled;
      var rest := Finish(Step(w, e), group);
      more := FirstStep(w, e, rest);
    }
  }

  lemma RankIsPositive(t: Task)
    requires InRange(t) && !Done(t)
    ensures PhaseRank(t) >= 1
  {
  }

  /** From every reachable state each task that has begun can come to its end. */
  lemma EveryTaskCanEnd(gatewayCount: nat, events: seq<Event>, group: Id) returns (more: seq<Event>)
    requires Legal(Start(gatewayCount), events) && group in After(Start(gatewayCount), events).tasks
    ensures Legal(After(Start(gatewayCount), events), more)
    ensures var w := After(After(Start(gatewayCount), events), more);
            group in w.tasks && Done(w.tasks[group])
  {
    StartInv(gatewayCount);
    RunSends(Start(gatewayCount), events, group);
    more := Finish(After(Start(gatewayCount), events), group);
  }
}

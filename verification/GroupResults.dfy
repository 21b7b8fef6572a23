/** What a finalized group returns: for every role, what its session held when its finalize ended. */
module GroupResults {
  import opened Sequences
  import opened GatewayManagers
  import opened SessionGroups

  // ----- the finalize calls on their way -----

  predicate Finalizes(call: Call, group: Id) {
    call.Finalize? && call.sid.group == group
  }

  /** The finalize calls of a group in a mailbox, in order. */
  function Finals(mailbox: seq<Call>, group: Id): seq<Call> {
    if mailbox == [] then []
    else (if Finalizes(mailbox[0], group) then [mailbox[0]] else []) + Finals(mailbox[1..], group)
  }

  lemma {:induction false} FinalsOfSent(mailbox: seq<Call>, call: Call, group: Id)
    ensures Finals(mailbox + [call], group) ==
            Finals(mailbox, group) + if Finalizes(call, group) then [call] else []
  {
    if mailbox == [] {
      assert mailbox + [call] == [call] && [call][1..] == [];
    } else {
      assert (mailbox + [call])[1..] == mailbox[1..] + [call];
      FinalsOfSent(mailbox[1..], call, group);
      var head := if Finalizes(mailbox[0], group) then [mailbox[0]] else [];
      var sent := if Finalizes(call, group) then [call] else [];
      hide Finalizes;
      assert Finals(mailbox + [call], group) == head + (Finals(mailbox[1..], group) + sent);
    }
  }

  lemma FinalsOfPost(a: Actor, group: Id, phase: Phase, other: Id)
    ensures Finals(Post(a, CallsOf(group, phase)).mailbox, other) ==
            Finals(a.mailbox, other) + if other == group && phase.Finalizing? then CallsOf(group, phase) else []
  {
    var call := Awaited(group, phase);
    if call.Some? {
      FinalsOfSent(a.mailbox, call.value, other);
    } else {
      assert a.mailbox + [] == a.mailbox;
    }
  }

  predicate NoneSuspended(a: Actor, group: Id) {
    forall call :: call in a.suspended ==> !Finalizes(call, group)
  }

  predicate NoneHere(a: Actor, group: Id) {
    Finals(a.mailbox, group) == [] && NoneSuspended(a, group)
  }

  /** The call that the task waits for is the only one, in the mailbox or suspended. */
  predicate OnlyAwaited(a: Actor, group: Id, role: nat) {
    && (Finals(a.mailbox, group) == [] ||
        (Finals(a.mailbox, group) == [Finalize(Sid(group, role))] && NoneSuspended(a, group)))
    && (forall call :: call in a.suspended && Finalizes(call, group) ==> call.sid.role == role)
  }

  predicate CallsFit(t: Task, a: Actor, group: Id) {
    match t.phase
    case Finalizing(k, _, _) => if t.reply.None? then OnlyAwaited(a, group, k) else NoneHere(a, group)
    case Aborting(_, _) => true
    case Raised => true
    case _ => NoneHere(a, group)
  }

  // ----- what they returned -----

  /** What the step yields if it successfully ends a finalize of this session: its content just then. */
  ghost function Yield(w: World, e: Event, sid: Sid): seq<seq<Trajectory>>
    requires Enabled(w, e)
  {
    if e.ActorEnds? && e.call == Finalize(sid) && e.ok then [w.actors[e.gateway].sessions[sid]] else []
  }

  /** All that a run yields for a session, in order. */
  ghost function Yields(w: World, events: seq<Event>, sid: Sid): seq<seq<Trajectory>>
    requires Legal(w, events)
    decreases |events|
  {
    if events == [] then [] else Yield(w, events[0], sid) + Yields(Step(w, events[0]), events[1..], sid)
  }

  /** How what was yielded for role k so far shows in the task. */
  predicate YieldsFit(t: Task, k: nat, given: seq<seq<Trajectory>>) {
    match t.phase
    case Finalizing(role, parts, _) =>
      if k < |parts| then given == [parts[k]]
      else if k == role && t.reply.Some? && t.reply.value.Succeeded? then given == [t.reply.value.trajectories]
      else given == []
    case Returned(parts, _) => k < |parts| ==> given == [parts[k]]
    case Aborting(_, _) => true
    case Raised => true
    case _ => given == []
  }

  ghost predicate ResultInv(w: World, group: Id, k: nat, given: seq<seq<Trajectory>>) {
    if group in w.tasks then
      var t := w.tasks[group];
      && t.gateway < |w.actors| && CallsFit(t, w.actors[t.gateway], group) && YieldsFit(t, k, given)
      && forall g :: 0 <= g < |w.actors| && g != t.gateway ==> NoneHere(w.actors[g], group)
    else
      given == [] && forall g :: 0 <= g < |w.actors| ==> NoneHere(w.actors[g], group)
  }

  // ----- steps of tasks -----

  /** `w1` is `w` with the manager's tables and the interruption record already updated. */
  ghost predicate SameTasks(w: World, w1: World) {
    w1 == w.(manager := w1.manager, interrupted := w1.interrupted)
  }

  /** A task enters a phase: nothing changes for other groups, and for its own the new phase has to
      fit what was yielded and find no other finalize call on its way. */
  lemma EnterKeepsResults(w: World, w1: World, mover: Id, phase: Phase, fault: bool, group: Id, k: nat,
                          given: seq<seq<Trajectory>>)
    requires SameTasks(w, w1) && ResultInv(w, group, k, given)
    requires mover in w.tasks && w.tasks[mover].gateway < |w.actors|
    requires mover == group ==>
      && (phase.Aborting? || phase.Raised? || NoneHere(w.actors[w.tasks[group].gateway], group))
      && YieldsFit(Entered(w.tasks[group], phase, fault), k, given)
    ensures ResultInv(Enter(w1, mover, phase, fault), group, k, given)
  {
    var a := w.actors[w.tasks[mover].gateway];
    PostKeepsFit(a, mover, phase, group);
    hide CallsFit, YieldsFit, NoneHere, Post, CallsOf;
    if mover == group {
      assert CallsFit(Entered(w.tasks[group], phase, fault), Post(a, CallsOf(group, phase)), group) by {
        OwnCallsFit(w.tasks[group], a, group, phase, fault);
      }
    }
  }

  lemma PostKeepsFit(a: Actor, mover: Id, phase: Phase, group: Id)
    ensures mover != group ==>
              var a' := Post(a, CallsOf(mover, phase));
              && (NoneHere(a, group) ==> NoneHere(a', group))
              && forall t :: CallsFit(t, a, group) ==> CallsFit(t, a', group)
  {
    FinalsOfPost(a, mover, phase, group);
  }

  lemma OwnCallsFit(t: Task, a: Actor, group: Id, phase: Phase, fault: bool)
    requires phase.Aborting? || phase.Raised? || NoneHere(a, group)
    ensures CallsFit(Entered(t, phase, fault), Post(a, CallsOf(group, phase)), group)
  {
    FinalsOfPost(a, group, phase, group);
  }

  lemma FinalizeResumed(w: World, mover: Id, group: Id, k: nat, given: seq<seq<Trajectory>>)
    requires WellFormed(w) && Enabled(w, Resume(mover)) && ResultInv(w, group, k, given)
    requires w.tasks[mover].phase.Finalizing?
    ensures ResultInv(Resumed(w, mover), group, k, given)
  {
    hide ResultInv, Enter, NoneHere;
    var t := w.tasks[mover];
    if t.reply.value.Failed? {
      EnterKeepsResults(w, w, mover, Aborting(0, FinalizeFailed), true, group, k, given);
      return;
    }
    var role, parts := t.phase.role, t.phase.parts + [t.reply.value.trajectories];
    var output := t.phase.output + Tags(mover, t.roles[role], t.reply.value.trajectories);
    var next := if role + 1 < |t.roles| then Finalizing(role + 1, parts, output) else Returned(parts, output);
    if mover == group {
      PartsExtend(w, group, next, k, given);
    }
    EnterKeepsResults(w, if next.Finalizing? then w else DropGroup(w, mover), mover, next, false, group, k, given);
  }

  lemma PartsExtend(w: World, group: Id, next: Phase, k: nat, given: seq<seq<Trajectory>>)
    requires WellFormed(w) && group in w.tasks && ResultInv(w, group, k, given)
    requires var t := w.tasks[group];
             && t.phase.Finalizing? && t.reply.Some? && t.reply.value.Succeeded?
             && var parts := t.phase.parts + [t.reply.value.trajectories];
                (next.Finalizing? && next.role == |parts| && next.parts == parts) ||
                (next.Returned? && next.parts == parts)
    ensures NoneHere(w.actors[w.tasks[group].gateway], group)
    ensures YieldsFit(Entered(w.tasks[group], next, false), k, given)
  {
  }

  lemma ResumedKeepsResults(w: World, mover: Id, group: Id, k: nat, given: seq<seq<Trajectory>>)
    requires WellFormed(w) && Enabled(w, Resume(mover)) && ResultInv(w, group, k, given)
    ensures ResultInv(Resumed(w, mover), group, k, given)
  {
    var t := w.tasks[mover];
    if t.phase.Finalizing? {
      FinalizeResumed(w, mover, group, k, given);
    } else if t.phase.Creating? {
      var next := if t.reply.value.Failed? then Aborting(0, CreateFailed)
                  else if t.phase.role + 1 < |t.roles| then Creating(t.phase.role + 1) else Running;
      EnterKeepsResults(w, w, mover, next, next.Aborting?, group, k, given);
    } else if t.phase.Aborting? {
      if t.phase.role + 1 < |t.roles| {
        EnterKeepsResults(w, w, mover, Aborting(t.phase.role + 1, t.phase.cause), false, group, k, given);
      } else {
        EnterKeepsResults(w, DropGroup(w, mover), mover, Raised, false, group, k, given);
      }
    }
  }

  lemma CancelledKeepsResults(w: World, mover: Id, group: Id, k: nat, given: seq<seq<Trajectory>>)
    requires WellFormed(w) && mover in w.tasks && ResultInv(w, group, k, given)
    ensures ResultInv(Cancelled(w, mover), group, k, given)
  {
    match w.tasks[mover].phase
    case Creating(_) => EnterKeepsResults(w, w, mover, Aborting(0, CreateFailed), true, group, k, given);
    case Running => EnterKeepsResults(w, w, mover, Aborting(0, RunCancelled), true, group, k, given);
    case Finalizing(_, _, _) => EnterKeepsResults(w, w, mover, Aborting(0, FinalizeFailed), true, group, k, given);
    case Aborting(_, cause) =>
      if !Shielded(cause) {
        var w1 := DropGroup(w, mover).(interrupted := w.interrupted + {mover});
        EnterKeepsResults(w, w1, mover, Raised, true, group, k, given);
      }
    case _ =>
  }

  lemma BegunKeepsResults(w: World, mover: Id, roles: seq<Role>, group: Id, k: nat, given: seq<seq<Trajectory>>)
    requires WellFormed(w) && mover !in w.tasks && ResultInv(w, group, k, given)
    ensures ResultInv(Begun(w, mover, roles), group, k, given)
  {
    if Reserve(w.manager, mover, roles).Ok? {
      var gateway := Reserve(w.manager, mover, roles).value.indices[mover];
      FinalsOfPost(w.actors[gateway], mover, Creating(0), group);
    }
  }

  // ----- steps of actors -----

  lemma FinalsOfTake(a: Actor, accepts: bool, group: Id)
    requires a.mailbox != []
    ensures var call, a' := a.mailbox[0], Take(a, accepts).0;
            && Finals(a.mailbox, group) == (if Finalizes(call, group) then [call] else []) + Finals(a'.mailbox, group)
            && (NoneHere(a, group) ==> NoneHere(a', group))
  {
  }

  lemma TakeKeepsFit(t: Task, a: Actor, accepts: bool, group: Id, k: nat, given: seq<seq<Trajectory>>)
    requires a.mailbox != [] && CallsFit(t, a, group) && YieldsFit(t, k, given) && InRange(t)
    ensures var (a', reply) := Take(a, accepts);
            && CallsFit(t, a', group)
            && (reply.Some? ==>
                  var t' := Answered(group, t, a.mailbox[0], reply.value);
                  CallsFit(t', a', group) && YieldsFit(t', k, given))
  {
    hide Finals;
    FinalsOfTake(a, accepts, group);
    var call := a.mailbox[0];
    if Finalizes(call, group) && t.phase.Finalizing? {
      var rest := Finals(Take(a, accepts).0.mailbox, group);
      assert ([call] + rest)[0] == call;
      assert |[call] + rest| == 1 + |rest|;
    }
  }

  lemma TakenKeepsResults(w: World, gateway: nat, accepts: bool, group: Id, k: nat, given: seq<seq<Trajectory>>)
    requires WellFormed(w) && Enabled(w, ActorTakes(gateway, accepts)) && ResultInv(w, group, k, given)
    ensures ResultInv(Taken(w, gateway, accepts), group, k, given)
  {
    hide Take, CallsFit, YieldsFit, NoneHere, Awaited;
    FinalsOfTake(w.actors[gateway], accepts, group);
    if group in w.tasks && w.tasks[group].gateway == gateway {
      TakeKeepsFit(w.tasks[group], w.actors[gateway], accepts, group, k, given);
    }
  }

  lemma EndKeepsFit(t: Task, a: Actor, call: Call, ok: bool, group: Id, k: nat, given: seq<seq<Trajectory>>)
    requires call in a.suspended && (ok && call.Finalize? ==> call.sid in a.sessions)
    requires CallsFit(t, a, group) && YieldsFit(t, k, given) && InRange(t)
    ensures call.sid.group != group ==> CallsFit(t, End(a, call, ok), group)
    ensures call.sid.group == group ==>
              var t' := Answered(group, t, call, EndReply(a, call, ok));
              && CallsFit(t', End(a, call, ok), group)
              && YieldsFit(t', k, given + if ok && call == Finalize(Sid(group, k)) then [a.sessions[call.sid]] else [])
  {
    assert given + [] == given;
  }

  lemma EndedKeepsResults(w: World, e: Event, group: Id, k: nat, given: seq<seq<Trajectory>>)
    requires WellFormed(w) && e.ActorEnds? && Enabled(w, e) && ResultInv(w, group, k, given)
    ensures ResultInv(Ended(w, e.gateway, e.call, e.ok), group, k, given + Yield(w, e, Sid(group, k)))
  {
    hide CallsFit, YieldsFit, Finals, Awaited;
    assert given + [] == given;
    if group in w.tasks && w.tasks[group].gateway == e.gateway {
      EndKeepsFit(w.tasks[group], w.actors[e.gateway], e.call, e.ok, group, k, given);
    }
  }

  lemma StepKeepsResults(w: World, e: Event, group: Id, k: nat, given: seq<seq<Trajectory>>)
    requires WellFormed(w) && Enabled(w, e) && ResultInv(w, group, k, given)
    ensures ResultInv(Step(w, e), group, k, given + Yield(w, e, Sid(group, k)))
  {
    assert !e.ActorEnds? ==> given + Yield(w, e, Sid(group, k)) == given;
    match e
    case Begin(mover, roles) => BegunKeepsResults(w, mover, roles, group, k, given);
    case RunEnds(mover, ok) =>
      var next := if ok then Finalizing(0, [], []) else Aborting(0, RunFailed);
      EnterKeepsResults(w, w, mover, next, !ok, group, k, given);
    case Resume(mover) => ResumedKeepsResults(w, mover, group, k, given);
    case Cancel(mover) => CancelledKeepsResults(w, mover, group, k, given);
    case ActorTakes(gateway, accepts) => TakenKeepsResults(w, gateway, accepts, group, k, given);
    case ActorEnds(_, _, _) => EndedKeepsResults(w, e, group, k, given);
    case SessionChanges(_, _, _) =>
  }

  lemma {:induction false} RunYields(w: World, events: seq<Event>, group: Id, k: nat, given: seq<seq<Trajectory>>)
    requires ResultInv(w, group, k, given) && Legal(w, events)
    ensures ResultInv(After(w, events), group, k, given + Yields(w, events, Sid(group, k)))
    decreases |events|
  {
    if events == [] {
      assert given + [] == given;
    } else {
      hide ResultInv, Step, Yield, Enabled, WellFormed;
      var e, sid := events[0], Sid(group, k);
      StepKeepsResults(w, e, group, k, given);
      RunYields(Step(w, e), events[1..], group, k, given + Yield(w, e, sid));
      var rest := Yields(Step(w, e), events[1..], sid);
      assert given + (Yield(w, e, sid) + rest) == (given + Yield(w, e, sid)) + rest;
    }
  }

  // ----- what a finalized group returns -----

  /** A group that returned has one part per role: in the whole run, the finalize of that role's
      session ended successfully exactly once, and the part is what the session held at that moment.
      The output is these parts in role order, every trajectory once, tagged with its role, policy and
      group. */
  lemma FinalizeReturnsAllRoles(gatewayCount: nat, events: seq<Event>, group: Id)
    requires Legal(Start(gatewayCount), events)
    requires var w := After(Start(gatewayCount), events);
             group in w.tasks && w.tasks[group].phase.Returned?
    ensures var t := After(Start(gatewayCount), events).tasks[group];
            && |t.phase.parts| == |t.roles| && t.phase.output == Collected(group, t.roles, t.phase.parts)
            && forall k :: 0 <= k < |t.roles| ==>
                 Yields(Start(gatewayCount), events, Sid(group, k)) == [t.phase.parts[k]]
  {
    hide Yields, Legal, After;
    StartInv(gatewayCount);
    RunKeeps(Start(gatewayCount), events);
    var t := After(Start(gatewayCount), events).tasks[group];
    assert GroupInv(After(Start(gatewayCount), events), group);
    forall k | 0 <= k < |t.roles|
      ensures Yields(Start(gatewayCount), events, Sid(group, k)) == [t.phase.parts[k]]
    {
      RunYields(Start(gatewayCount), events, group, k, []);
      assert [] + Yields(Start(gatewayCount), events, Sid(group, k)) ==
             Yields(Start(gatewayCount), events, Sid(group, k));
    }
  }

  /** Position of the first trajectory of a role in the output. */
  function Offset(parts: seq<seq<Trajectory>>, role: nat): nat
    requires role <= |parts|
  {
    if role == 0 then 0 else Offset(parts, role - 1) + |parts[role - 1]|
  }

  lemma {:induction false} CollectedAt(group: Id, roles: seq<Role>, parts: seq<seq<Trajectory>>, role: nat, i: nat)
    requires |parts| <= |roles| && role < |parts| && i < |parts[role]|
    ensures |Collected(group, roles, parts)| == Offset(parts, |parts|)
    ensures Offset(parts, role) + i < |Collected(group, roles, parts)|
    ensures Collected(group, roles, parts)[Offset(parts, role) + i] ==
            Tagged(parts[role][i], group, roles[role].name, roles[role].policy)
    decreases |parts|
  {
    var last := |parts| - 1;
    CollectedLength(group, roles, parts[..last]);
    OffsetPrefix(parts, last, last);
    OffsetPrefix(parts, last, role);
    if role < last {
      CollectedAt(group, roles, parts[..last], role, i);
    }
  }

  lemma {:induction false} CollectedLength(group: Id, roles: seq<Role>, parts: seq<seq<Trajectory>>)
    requires |parts| <= |roles|
    ensures |Collected(group, roles, parts)| == Offset(parts, |parts|)
    decreases |parts|
  {
    if parts != [] {
      CollectedLength(group, roles, parts[..|parts| - 1]);
      OffsetPrefix(parts, |parts| - 1, |parts| - 1);
    }
  }

  lemma {:induction false} OffsetPrefix(parts: seq<seq<Trajectory>>, n: nat, role: nat)
    requires role <= n <= |parts|
    ensures Offset(parts[..n], role) == Offset(parts, role)
  {
    if role != 0 {
      OffsetPrefix(parts, n, role - 1);
    }
  }
}

/** One rollout per session group: the framework creates the group, runs the agent, finalizes, and
    aborts when something goes wrong.  The manager talks to each gateway actor through a FIFO mailbox.
    The actor starts calls in order; finalize and abort suspend inside the session and end later, in
    any order.  Calls may fail and tasks may be cancelled at every await. */
module SessionGroups {
  import opened Sequences
  import opened GatewayManagers

  type Trajectory = int

  /** A role session `f"{group}:{role}"`; the role is given by its position in the group. */
  datatype Sid = Sid(group: Id, role: nat)

  datatype Call = Create(sid: Sid) | Finalize(sid: Sid) | Abort(sid: Sid)

  datatype Reply = Succeeded(trajectories: seq<Trajectory>) | Failed

  /** `sessions` are the live sessions with what finalizing each would return now. */
  datatype Actor = Actor(mailbox: seq<Call>, sessions: map<Sid, seq<Trajectory>>, suspended: set<Call>)

  /** A returned trajectory with the metadata that the manager adds. */
  datatype Tagged = Tagged(trajectory: Trajectory, group: Id, role: string, policy: string)

  /** Why the role sessions are being aborted.  The first two run in a shielded inner task. */
  datatype Cause = CreateFailed | RunCancelled | RunFailed | FinalizeFailed

  /** `parts` are the replies that finalize has collected so far, one per role. */
  datatype Phase =
    | Creating(role: nat)
    | Running
    | Finalizing(role: nat, parts: seq<seq<Trajectory>>, output: seq<Tagged>)
    | Aborting(role: nat, cause: Cause)
    | Returned(parts: seq<seq<Trajectory>>, output: seq<Tagged>)
    | Raised

  /** `reply` answers the call that the phase is waiting for. */
  datatype Task = Task(gateway: nat, roles: seq<Role>, phase: Phase, reply: Option<Reply>, faults: nat)

  /** `failedAborts` and `interrupted` record what went wrong with the cleanup itself. */
  datatype World = World(
    manager: Manager, actors: seq<Actor>, tasks: map<Id, Task>,
    failedAborts: set<Sid>, interrupted: set<Id>)

  datatype Event =
    | Begin(group: Id, roles: seq<Role>)
    | RunEnds(group: Id, ok: bool)
    | Resume(group: Id)
    | Cancel(group: Id)
    | ActorTakes(gateway: nat, accepts: bool)
    | ActorEnds(gateway: nat, call: Call, ok: bool)
    | SessionChanges(gateway: nat, sid: Sid, content: seq<Trajectory>)

  // ----- the client side -----

  predicate Done(t: Task) {
    t.phase.Returned? || t.phase.Raised?
  }

  predicate InRange(t: Task) {
    match t.phase
    case Creating(k) => k < |t.roles|
    case Finalizing(k, parts, _) => k < |t.roles| && |parts| == k
    case Aborting(k, _) => k < |t.roles|
    case Returned(parts, _) => |parts| == |t.roles|
    case _ => true
  }

  predicate Shielded(cause: Cause) {
    cause.CreateFailed? || cause.RunCancelled?
  }

  function Awaited(group: Id, phase: Phase): Option<Call> {
    match phase
    case Creating(k) => Some(Create(Sid(group, k)))
    case Finalizing(k, _, _) => Some(Finalize(Sid(group, k)))
    case Aborting(k, _) => Some(Abort(Sid(group, k)))
    case _ => None
  }

  function Tags(group: Id, role: Role, trajectories: seq<Trajectory>): (tagged: seq<Tagged>)
    ensures |tagged| == |trajectories|
  {
    seq(|trajectories|, i requires 0 <= i < |trajectories| =>
      Tagged(trajectories[i], group, role.name, role.policy))
  }

  function CallsOf(group: Id, phase: Phase): seq<Call> {
    var call := Awaited(group, phase);
    if call.Some? then [call.value] else []
  }

  function Entered(t: Task, phase: Phase, fault: bool): Task {
    t.(phase := phase, reply := None, faults := t.faults + if fault then 1 else 0)
  }

  function Post(a: Actor, calls: seq<Call>): Actor {
    a.(mailbox := a.mailbox + calls)
  }

  /** Move the task of `group` to a phase and, when the phase waits for a call, send that call. */
  function Enter(w: World, group: Id, phase: Phase, fault: bool): World
    requires group in w.tasks && w.tasks[group].gateway < |w.actors|
  {
    var t := w.tasks[group];
    w.(tasks := w.tasks[group := Entered(t, phase, fault)],
       actors := w.actors[t.gateway := Post(w.actors[t.gateway], CallsOf(group, phase))])
  }

  predicate ManagerOk(m: Manager) {
    |m.active| == m.gateways && forall id :: id in m.indices ==> m.indices[id] < |m.active|
  }

  function DropGroup(w: World, group: Id): World
    requires ManagerOk(w.manager)
  {
    w.(manager := Drop(w.manager, group))
  }

  function Resumed(w: World, group: Id): World
    requires group in w.tasks && w.tasks[group].gateway < |w.actors| && w.tasks[group].reply.Some?
    requires ManagerOk(w.manager) && InRange(w.tasks[group])
  {
    var t := w.tasks[group];
    var n := |t.roles|;
    var reply := t.reply.value;
    match t.phase
    case Creating(k) =>
      if reply.Failed? then Enter(w, group, Aborting(0, CreateFailed), true)
      else if k + 1 < n then Enter(w, group, Creating(k + 1), false)
      else Enter(w, group, Running, false)
    case Finalizing(k, parts, output) =>
      if reply.Failed? then Enter(w, group, Aborting(0, FinalizeFailed), true)
      else
        var output' := output + Tags(group, t.roles[k], reply.trajectories);
        var parts' := parts + [reply.trajectories];
        if k + 1 < n then Enter(w, group, Finalizing(k + 1, parts', output'), false)
        else Enter(DropGroup(w, group), group, Returned(parts', output'), false)
    case Aborting(k, cause) =>
      if k + 1 < n then Enter(w, group, Aborting(k + 1, cause), false)
      else Enter(DropGroup(w, group), group, Raised, false)
    case _ => w
  }

  function Cancelled(w: World, group: Id): World
    requires group in w.tasks && w.tasks[group].gateway < |w.actors|
    requires ManagerOk(w.manager)
  {
    match w.tasks[group].phase
    case Creating(_) => Enter(w, group, Aborting(0, CreateFailed), true)
    case Running => Enter(w, group, Aborting(0, RunCancelled), true)
    case Finalizing(_, _, _) => Enter(w, group, Aborting(0, FinalizeFailed), true)
    case Aborting(_, cause) =>
      // The shielded abort goes on by itself; after a failed create the caller drops the group now.
      if cause.CreateFailed? then DropGroup(w, group)
      else if cause.RunCancelled? then w
      else Enter(DropGroup(w, group).(interrupted := w.interrupted + {group}), group, Raised, true)
    case _ => w
  }

  // ----- the actor side -----

  /** The task that made the call gets the reply if it still waits for it. */
  function Answered(group: Id, t: Task, call: Call, reply: Reply): Task {
    if t.reply.None? && Awaited(group, t.phase) == Some(call) then t.(reply := Some(reply)) else t
  }

  function Deliver(tasks: map<Id, Task>, gateway: nat, call: Call, reply: Reply): map<Id, Task> {
    var group := call.sid.group;
    if group in tasks && tasks[group].gateway == gateway
    then tasks[group := Answered(group, tasks[group], call, reply)]
    else tasks
  }

  /** Start the call at the head of the mailbox: a finalize or abort of a live session suspends. */
  function Take(a: Actor, accepts: bool): (Actor, Option<Reply>)
    requires a.mailbox != []
  {
    var call, rest := a.mailbox[0], a.(mailbox := a.mailbox[1..]);
    var live := call.sid in a.sessions;
    if call.Create? then
      if accepts && !live then (rest.(sessions := a.sessions[call.sid := []]), Some(Succeeded([])))
      else (rest, Some(Failed))
    else if live then (rest.(suspended := a.suspended + {call}), None)
    else (rest, Some(if call.Abort? then Succeeded([]) else Failed))
  }

  /** What the end of a suspended call answers: a finalize returns what its session holds by then. */
  function EndReply(a: Actor, call: Call, ok: bool): Reply
    requires ok && call.Finalize? ==> call.sid in a.sessions
  {
    if !ok then Failed
    else if call.Finalize? then Succeeded(a.sessions[call.sid])
    else Succeeded([])
  }

  /** End a suspended call; a failed one leaves the session where it is. */
  function End(a: Actor, call: Call, ok: bool): Actor {
    var left := a.(suspended := a.suspended - {call});
    if ok then left.(sessions := a.sessions - {call.sid}) else left
  }

  function ActorMoves(w: World, gateway: nat, a: Actor, call: Call, reply: Option<Reply>): World
    requires gateway < |w.actors|
  {
    w.(actors := w.actors[gateway := a],
       tasks := if reply.Some? then Deliver(w.tasks, gateway, call, reply.value) else w.tasks)
  }

  function Taken(w: World, gateway: nat, accepts: bool): World
    requires gateway < |w.actors| && w.actors[gateway].mailbox != []
  {
    var (a, reply) := Take(w.actors[gateway], accepts);
    ActorMoves(w, gateway, a, w.actors[gateway].mailbox[0], reply)
  }

  function Ended(w: World, gateway: nat, call: Call, ok: bool): World
    requires gateway < |w.actors| && (ok && call.Finalize? ==> call.sid in w.actors[gateway].sessions)
  {
    var a := w.actors[gateway];
    var failed := if !ok && call.Abort? then w.failedAborts + {call.sid} else w.failedAborts;
    ActorMoves(w.(failedAborts := failed), gateway, End(a, call, ok), call, Some(EndReply(a, call, ok)))
  }

  function Changed(w: World, gateway: nat, sid: Sid, content: seq<Trajectory>): World
    requires gateway < |w.actors|
  {
    var a := w.actors[gateway];
    w.(actors := w.actors[gateway := a.(sessions := a.sessions[sid := content])])
  }

  // ----- steps -----

  ghost predicate Enabled(w: World, e: Event) {
    match e
    case Begin(group, roles) => group !in w.tasks
    case RunEnds(group, _) => group in w.tasks && w.tasks[group].phase.Running?
    case Resume(group) => group in w.tasks && w.tasks[group].reply.Some?
    case Cancel(group) => group in w.tasks
    case ActorTakes(gateway, _) => gateway < |w.actors| && w.actors[gateway].mailbox != []
    case ActorEnds(gateway, call, ok) =>
      && gateway < |w.actors| && call in w.actors[gateway].suspended
      && (ok && call.Finalize? ==> call.sid in w.actors[gateway].sessions)
    case SessionChanges(gateway, sid, _) => gateway < |w.actors| && sid in w.actors[gateway].sessions
  }

  ghost predicate WellFormed(w: World) {
    && ManagerOk(w.manager) && |w.actors| == w.manager.gateways
    && forall group :: group in w.tasks ==>
         w.tasks[group].gateway < |w.actors| && w.tasks[group].roles != [] && InRange(w.tasks[group])
  }

  function Begun(w: World, group: Id, roles: seq<Role>): World
    requires |w.manager.active| == w.manager.gateways == |w.actors|
  {
    var result := Reserve(w.manager, group, roles);
    if result.Err? then w
    else
      var t := Task(result.value.indices[group], roles, Raised, None, 0);
      Enter(w.(manager := result.value, tasks := w.tasks[group := t]), group, Creating(0), false)
  }

  ghost function Step(w: World, e: Event): World
    requires WellFormed(w) && Enabled(w, e)
  {
    match e
    case Begin(group, roles) => Begun(w, group, roles)
    case RunEnds(group, ok) =>
      if ok then Enter(w, group, Finalizing(0, [], []), false)
      else Enter(w, group, Aborting(0, RunFailed), true)
    case Resume(group) => Resumed(w, group)
    case Cancel(group) => Cancelled(w, group)
    case ActorTakes(gateway, accepts) => Taken(w, gateway, accepts)
    case ActorEnds(gateway, call, ok) => Ended(w, gateway, call, ok)
    case SessionChanges(gateway, sid, content) => Changed(w, gateway, sid, content)
  }

  // ----- the calls of one group in a mailbox -----

  predicate Relevant(call: Call, group: Id) {
    !call.Finalize? && call.sid.group == group
  }

  /** The create and abort calls of a group, in order. */
  function Mine(mailbox: seq<Call>, group: Id): seq<Call> {
    if mailbox == [] then []
    else if Relevant(mailbox[0], group) then [mailbox[0]] + Mine(mailbox[1..], group)
    else Mine(mailbox[1..], group)
  }

  lemma {:induction false} MineOfSent(mailbox: seq<Call>, call: Call, group: Id)
    ensures Mine(mailbox + [call], group) ==
            Mine(mailbox, group) + if Relevant(call, group) then [call] else []
  {
    if mailbox == [] {
      assert mailbox + [call] == [call];
    } else {
      assert (mailbox + [call])[1..] == mailbox[1..] + [call];
      MineOfSent(mailbox[1..], call, group);
    }
  }

  // ----- invariants -----

  predicate MailboxShape(group: Id, t: Task, mine: seq<Call>) {
    match t.phase
    case Creating(k) => mine == [] || (t.reply.None? && mine == [Create(Sid(group, k))])
    case Aborting(k, cause) =>
      mine == [] ||
      (t.reply.None? &&
       (mine == [Abort(Sid(group, k))] ||
        (k == 0 && cause.CreateFailed? && |mine| == 2 && mine[0].Create? && mine[0].sid.role < |t.roles| &&
         mine[1] == Abort(Sid(group, 0)))))
    case Raised => mine == [] || (|mine| == 1 && mine[0].Abort?)
    case _ => mine == []
  }

  /** May the actor still hold this role session? */
  predicate MayLive(failed: set<Sid>, gone: bool, group: Id, t: Task, role: nat) {
    && role < |t.roles|
    && match t.phase
       case Finalizing(k, _, _) => if t.reply.Some? && t.reply.value.Succeeded? then role > k else role >= k
       case Aborting(k, _) => role < k || (role == k && t.reply.Some?) ==> Sid(group, role) in failed
       case Returned(_, _) => false
       case Raised => Sid(group, role) in failed || gone
       case _ => true
  }

  /** A suspended abort call is the one its task waits for, unless the task was interrupted. */
  predicate WaitsOrGone(t: Task, call: Call) {
    t.phase.Raised? || (t.phase.Aborting? && t.reply.None? && call.sid.role == t.phase.role)
  }

  /** `failed` are the role sessions whose abort failed; `gone`: was the group interrupted? */
  ghost predicate OwnerInv(failed: set<Sid>, gone: bool, group: Id, t: Task, a: Actor) {
    && MailboxShape(group, t, Mine(a.mailbox, group))
    && (forall sid :: sid in a.sessions && sid.group == group ==> MayLive(failed, gone, group, t, sid.role))
    && (forall call :: call in a.suspended && call.sid.group == group ==>
          call.Finalize? || (call.Abort? && Mine(a.mailbox, group) == [] && WaitsOrGone(t, call)))
  }

  ghost predicate AbsentFrom(a: Actor, group: Id) {
    && Mine(a.mailbox, group) == []
    && (forall sid :: sid in a.sessions ==> sid.group != group)
    && (forall call :: call in a.suspended ==> call.sid.group != group)
  }

  function Collected(group: Id, roles: seq<Role>, parts: seq<seq<Trajectory>>): seq<Tagged>
    requires |parts| <= |roles|
  {
    if parts == [] then []
    else
      var last := |parts| - 1;
      Collected(group, roles, parts[..last]) + Tags(group, roles[last], parts[last])
  }

  predicate TaskInv(gone: bool, group: Id, t: Task)
    requires InRange(t)
  {
    && (t.phase.Finalizing? ==> t.phase.output == Collected(group, t.roles, t.phase.parts))
    && (t.phase.Returned? ==> t.phase.output == Collected(group, t.roles, t.phase.parts))
    && (t.phase.Aborting? ==> t.faults >= 1)
    && (gone ==> t.phase.Raised? && t.faults >= 2)
  }

  /** The abort of a create gives the slot back by itself, when it is over or cancelled. */
  predicate HoldsSlot(t: Task) {
    !Done(t) && !(t.phase.Aborting? && t.phase.cause.CreateFailed?)
  }

  predicate ReservationInv(m: Manager, group: Id, t: Task) {
    && (group in m.indices ==> !Done(t) && m.indices[group] == t.gateway)
    && (HoldsSlot(t) ==> group in m.indices)
  }

  ghost predicate GroupInv(w: World, group: Id)
    requires WellFormed(w)
  {
    if group in w.tasks then
      var t, gone := w.tasks[group], group in w.interrupted;
      && OwnerInv(w.failedAborts, gone, group, t, w.actors[t.gateway])
      && (forall g :: 0 <= g < |w.actors| && g != t.gateway ==> AbsentFrom(w.actors[g], group))
      && TaskInv(gone, group, t) && ReservationInv(w.manager, group, t)
    else
      && group !in w.manager.indices && group !in w.interrupted
      && (forall g :: 0 <= g < |w.actors| ==> AbsentFrom(w.actors[g], group))
  }

  ghost predicate Inv(w: World) {
    WellFormed(w) && forall group :: GroupInv(w, group)
  }

  // ----- a step of one task -----

  /** Another group sees nothing of what this group's actor state gained or lost. */
  ghost predicate SameFor(a: Actor, a': Actor, group: Id) {
    && Mine(a.mailbox, group) == Mine(a'.mailbox, group)
    && (forall sid :: sid in a'.sessions && sid.group == group ==> sid in a.sessions)
    && (forall call :: call in a'.suspended && call.sid.group == group ==> call in a.suspended)
  }

  lemma SameForOwner(failed: set<Sid>, failed': set<Sid>, gone: bool, group: Id, t: Task, a: Actor, a': Actor)
    requires SameFor(a, a', group) && failed <= failed'
    ensures OwnerInv(failed, gone, group, t, a) ==> OwnerInv(failed', gone, group, t, a')
    ensures AbsentFrom(a, group) ==> AbsentFrom(a', group)
  {
    if OwnerInv(failed, gone, group, t, a) {
      forall sid | sid in a'.sessions && sid.group == group ensures MayLive(failed', gone, group, t, sid.role) {
        assert MayLive(failed, gone, group, t, sid.role);
      }
    }
  }

  /** One actor and one group's task change: what has to be shown for the invariant to survive. */
  lemma OneGroupMoves(w: World, w': World, group: Id, gateway: nat)
    requires Inv(w) && WellFormed(w') && GroupInv(w', group)
    requires |w'.actors| == |w.actors| && gateway < |w.actors|
    requires forall g :: 0 <= g < |w.actors| && g != gateway ==> w'.actors[g] == w.actors[g]
    requires w.failedAborts <= w'.failedAborts
    requires forall other :: other != group ==>
      && SameFor(w.actors[gateway], w'.actors[gateway], other)
      && (other in w'.tasks <==> other in w.tasks)
      && (other in w.tasks ==> w'.tasks[other] == w.tasks[other])
      && (other in w'.interrupted <==> other in w.interrupted)
      && (other in w'.manager.indices <==> other in w.manager.indices)
      && (other in w.manager.indices ==> w'.manager.indices[other] == w.manager.indices[other])
    ensures Inv(w')
  {
    forall other ensures GroupInv(w', other) {
      if other != group {
        assert GroupInv(w, other);
        if other in w.tasks {
          SameForOwner(w.failedAborts, w'.failedAborts, other in w.interrupted, other, w.tasks[other],
                       w.actors[gateway], w'.actors[gateway]);
          SameForOwner(w.failedAborts, w'.failedAborts, other in w.interrupted, other, w.tasks[other],
                       w.actors[w.tasks[other].gateway], w.actors[w.tasks[other].gateway]);
        } else {
          SameForOwner(w.failedAborts, w'.failedAborts, false, other, DUMMY,
                       w.actors[gateway], w'.actors[gateway]);
        }
      }
    }
  }

  const DUMMY := Task(0, [], Raised, None, 0)

  lemma PostFrame(a: Actor, group: Id, phase: Phase)
    ensures var a' := Post(a, CallsOf(group, phase));
            && a'.sessions == a.sessions && a'.suspended == a.suspended
            && Mine(a'.mailbox, group) == Mine(a.mailbox, group) +
               (if phase.Creating? || phase.Aborting? then CallsOf(group, phase) else [])
            && forall other :: other != group ==> SameFor(a, a', other)
  {
    var call := Awaited(group, phase);
    if call.Some? {
      forall other {
        MineOfSent(a.mailbox, call.value, other);
      }
    } else {
      assert a.mailbox + [] == a.mailbox;
    }
  }

  /** Entering a phase keeps the invariant when the new phase fits what the actor still holds.
      `w1` is `w` with the manager's tables and the interruption record already updated. */
  lemma EnterKeeps(w: World, w1: World, group: Id, phase: Phase, fault: bool)
    requires Inv(w) && group in w.tasks
    requires w1 == w.(manager := w1.manager, interrupted := w1.interrupted)
    requires w1.manager == w.manager || w1.manager == Drop(w.manager, group)
    requires w1.interrupted == w.interrupted || w1.interrupted == w.interrupted + {group}
    requires var t, t', a := w.tasks[group], Entered(w.tasks[group], phase, fault), w.actors[w.tasks[group].gateway];
             var gone := group in w1.interrupted;
             && InRange(t') && TaskInv(gone, group, t') && ReservationInv(w1.manager, group, t')
             && OwnerInv(w.failedAborts, gone, group, t', Post(a, CallsOf(group, phase)))
    ensures Inv(Enter(w1, group, phase, fault))
  {
    var t := w.tasks[group];
    assert GroupInv(w, group);
    PostFrame(w.actors[t.gateway], group, phase);
    var w2 := Enter(w1, group, phase, fault);
    assert GroupInv(w2, group);
    OneGroupMoves(w, w2, group, t.gateway);
  }

  /** Starting to abort, from a phase that has no create call left behind its position. */
  lemma AbortKeeps(w: World, group: Id, cause: Cause)
    requires Inv(w) && group in w.tasks
    requires w.tasks[group].phase.Running? || w.tasks[group].phase.Finalizing? ||
             (w.tasks[group].phase.Creating? && cause.CreateFailed?)
    ensures Inv(Enter(w, group, Aborting(0, cause), true))
  {
    assert GroupInv(w, group);
    PostFrame(w.actors[w.tasks[group].gateway], group, Aborting(0, cause));
    EnterKeeps(w, w, group, Aborting(0, cause), true);
  }

  lemma CreateResumedKeeps(w: World, group: Id)
    requires Inv(w) && group in w.tasks && w.tasks[group].phase.Creating? && w.tasks[group].reply.Some?
    ensures Inv(Resumed(w, group))
  {
    var t := w.tasks[group];
    assert GroupInv(w, group);
    if t.reply.value.Failed? {
      AbortKeeps(w, group, CreateFailed);
    } else {
      CreateAdvanceKeeps(w, group);
    }
  }

  lemma CreateAdvanceOwner(failed: set<Sid>, gone: bool, group: Id, t: Task, a: Actor, next: Phase)
    requires OwnerInv(failed, gone, group, t, a) && t.phase.Creating? && t.reply.Some? && t.phase.role < |t.roles|
    requires next.Running? || next.Creating?
    ensures OwnerInv(failed, gone, group, Entered(t, next, false), Post(a, CallsOf(group, next)))
  {
    PostFrame(a, group, next);
  }

  lemma CreateAdvanceKeeps(w: World, group: Id)
    requires Inv(w) && group in w.tasks && w.tasks[group].phase.Creating? && w.tasks[group].reply.Some?
    ensures var t := w.tasks[group];
            Inv(Enter(w, group, if t.phase.role + 1 < |t.roles| then Creating(t.phase.role + 1) else Running, false))
  {
    hide OwnerInv, Post, CallsOf, Enter;
    var t := w.tasks[group];
    assert GroupInv(w, group);
    var next := if t.phase.role + 1 < |t.roles| then Creating(t.phase.role + 1) else Running;
    CreateAdvanceOwner(w.failedAborts, group in w.interrupted, group, t, w.actors[t.gateway], next);
    EnterKeeps(w, w, group, next, false);
  }

  lemma FinalizeResumedKeeps(w: World, group: Id)
    requires Inv(w) && group in w.tasks && w.tasks[group].phase.Finalizing? && w.tasks[group].reply.Some?
    ensures Inv(Resumed(w, group))
  {
    hide OwnerInv, Post, CallsOf, Enter;
    var t := w.tasks[group];
    assert GroupInv(w, group);
    if t.reply.value.Failed? {
      AbortKeeps(w, group, FinalizeFailed);
    } else {
      var k, parts := t.phase.role, t.phase.parts + [t.reply.value.trajectories];
      assert parts[..k] == t.phase.parts;
      var output := t.phase.output + Tags(group, t.roles[k], t.reply.value.trajectories);
      var last := k + 1 == |t.roles|;
      var next := if last then Returned(parts, output) else Finalizing(k + 1, parts, output);
      FinalizeAdvanceOwner(w.failedAborts, group in w.interrupted, group, t, w.actors[t.gateway], next);
      EnterKeeps(w, if last then DropGroup(w, group) else w, group, next, false);
    }
  }

  lemma FinalizeAdvanceOwner(failed: set<Sid>, gone: bool, group: Id, t: Task, a: Actor, next: Phase)
    requires OwnerInv(failed, gone, group, t, a) && t.phase.Finalizing? && t.reply.Some?
    requires t.reply.value.Succeeded? && t.phase.role < |t.roles|
    requires (next.Finalizing? && next.role == t.phase.role + 1) ||
             (next.Returned? && t.phase.role + 1 == |t.roles|)
    ensures OwnerInv(failed, gone, group, Entered(t, next, false), Post(a, CallsOf(group, next)))
  {
    PostFrame(a, group, next);
  }

  lemma AbortResumedKeeps(w: World, group: Id)
    requires Inv(w) && group in w.tasks && w.tasks[group].phase.Aborting? && w.tasks[group].reply.Some?
    ensures Inv(Resumed(w, group))
  {
    var t := w.tasks[group];
    assert GroupInv(w, group);
    if t.phase.role + 1 < |t.roles| {
      NextAbortKeeps(w, group);
    } else {
      LastAbortKeeps(w, group);
    }
  }

  lemma NextAbortKeeps(w: World, group: Id)
    requires Inv(w) && group in w.tasks && w.tasks[group].phase.Aborting? && w.tasks[group].reply.Some?
    requires w.tasks[group].phase.role + 1 < |w.tasks[group].roles|
    ensures Inv(Enter(w, group, Aborting(w.tasks[group].phase.role + 1, w.tasks[group].phase.cause), false))
  {
    var next := Aborting(w.tasks[group].phase.role + 1, w.tasks[group].phase.cause);
    assert GroupInv(w, group);
    PostFrame(w.actors[w.tasks[group].gateway], group, next);
    EnterKeeps(w, w, group, next, false);
  }

  lemma LastAbortKeeps(w: World, group: Id)
    requires Inv(w) && group in w.tasks && w.tasks[group].phase.Aborting? && w.tasks[group].reply.Some?
    requires w.tasks[group].phase.role + 1 == |w.tasks[group].roles|
    ensures Inv(Enter(DropGroup(w, group), group, Raised, false))
  {
    assert GroupInv(w, group);
    PostFrame(w.actors[w.tasks[group].gateway], group, Raised);
    EnterKeeps(w, DropGroup(w, group), group, Raised, false);
  }

  lemma CancelKeeps(w: World, group: Id)
    requires Inv(w) && group in w.tasks
    ensures Inv(Cancelled(w, group))
  {
    var t := w.tasks[group];
    assert GroupInv(w, group);
    match t.phase
    case Creating(_) => AbortKeeps(w, group, CreateFailed);
    case Running => AbortKeeps(w, group, RunCancelled);
    case Finalizing(_, _, _) => AbortKeeps(w, group, FinalizeFailed);
    case Aborting(_, cause) =>
      if cause.CreateFailed? {
        assert GroupInv(DropGroup(w, group), group);
        OneGroupMoves(w, DropGroup(w, group), group, t.gateway);
      } else if !cause.RunCancelled? {
        PostFrame(w.actors[t.gateway], group, Raised);
        EnterKeeps(w, DropGroup(w, group).(interrupted := w.interrupted + {group}), group, Raised, true);
      }
    case _ =>
  }

  lemma RunEndsKeeps(w: World, group: Id, ok: bool)
    requires Inv(w) && Enabled(w, RunEnds(group, ok))
    ensures Inv(Step(w, RunEnds(group, ok)))
  {
    assert GroupInv(w, group);
    if ok {
      PostFrame(w.actors[w.tasks[group].gateway], group, Finalizing(0, [], []));
      EnterKeeps(w, w, group, Finalizing(0, [], []), false);
    } else {
      AbortKeeps(w, group, RunFailed);
    }
  }

  lemma BegunOwner(failed: set<Sid>, group: Id, t: Task, a: Actor)
    requires AbsentFrom(a, group) && t.roles != []
    ensures OwnerInv(failed, false, group, Entered(t, Creating(0), false), Post(a, CallsOf(group, Creating(0))))
  {
    PostFrame(a, group, Creating(0));
  }

  lemma BeginKeeps(w: World, group: Id, roles: seq<Role>)
    requires Inv(w) && group !in w.tasks
    ensures Inv(Begun(w, group, roles))
  {
    hide OwnerInv, AbsentFrom, SameFor, Post, CallsOf;
    assert GroupInv(w, group);
    if Reserve(w.manager, group, roles).Ok? {
      var gateway := Reserve(w.manager, group, roles).value.indices[group];
      PostFrame(w.actors[gateway], group, Creating(0));
      BegunOwner(w.failedAborts, group, Task(gateway, roles, Raised, None, 0), w.actors[gateway]);
      var w' := Begun(w, group, roles);
      assert GroupInv(w', group);
      OneGroupMoves(w, w', group, gateway);
    }
  }

  // ----- a step of an actor -----

  lemma TakeFrame(a: Actor, accepts: bool)
    requires a.mailbox != []
    ensures forall other :: other != a.mailbox[0].sid.group ==> SameFor(a, Take(a, accepts).0, other)
    ensures var group := a.mailbox[0].sid.group;
            Mine(a.mailbox, group) ==
            if a.mailbox[0].Finalize? then Mine(Take(a, accepts).0.mailbox, group)
            else [a.mailbox[0]] + Mine(Take(a, accepts).0.mailbox, group)
  {
  }

  /** What a call at the head of its group's part of the mailbox can be. */
  lemma HeadOfMine(group: Id, t: Task, call: Call, mine: seq<Call>, rest: seq<Call>)
    requires MailboxShape(group, t, mine) && call.sid.group == group && !call.Finalize?
    requires mine == [call] + rest
    ensures call.Create? ==> t.reply.None?
    ensures call.Create? && t.phase.Creating? ==> t.phase == Creating(call.sid.role) && rest == []
    ensures call.Create? && !t.phase.Creating? ==>
              t.phase == Aborting(0, CreateFailed) && call.sid.role < |t.roles| && rest == [Abort(Sid(group, 0))]
    ensures call.Abort? ==> rest == [] && WaitsOrGone(t, call)
  {
    assert mine[0] == call && mine[1..] == rest;
  }

  lemma TakeKeepsOwner(failed: set<Sid>, gone: bool, group: Id, t: Task, a: Actor, accepts: bool)
    requires a.mailbox != [] && a.mailbox[0].sid.group == group
    requires OwnerInv(failed, gone, group, t, a) && InRange(t)
    ensures var (a', reply) := Take(a, accepts);
            var t' := if reply.Some? then Answered(group, t, a.mailbox[0], reply.value) else t;
            OwnerInv(failed, gone, group, t', a')
  {
    var call, a' := a.mailbox[0], Take(a, accepts).0;
    TakeFrame(a, accepts);
    if !call.Finalize? {
      HeadOfMine(group, t, call, Mine(a.mailbox, group), Mine(a'.mailbox, group));
    }
  }

  lemma EndKeepsOwner(failed: set<Sid>, gone: bool, group: Id, t: Task, a: Actor, call: Call, ok: bool)
    requires call in a.suspended && call.sid.group == group && (ok && call.Finalize? ==> call.sid in a.sessions)
    requires OwnerInv(failed, gone, group, t, a) && InRange(t)
    ensures var failed' := if !ok && call.Abort? then failed + {call.sid} else failed;
            OwnerInv(failed', gone, group, Answered(group, t, call, EndReply(a, call, ok)), End(a, call, ok))
  {
  }

  lemma AnsweredKeepsTask(m: Manager, gone: bool, group: Id, t: Task, call: Call, reply: Reply)
    requires InRange(t) && TaskInv(gone, group, t) && ReservationInv(m, group, t)
    ensures var t' := Answered(group, t, call, reply);
            && InRange(t') && TaskInv(gone, group, t') && ReservationInv(m, group, t')
            && t'.roles == t.roles && t'.gateway == t.gateway
  {
  }

  /** An actor's move keeps the invariant when it does so for the group whose call it handles. */
  lemma ActorMovesKeeps(w: World, failed: set<Sid>, gateway: nat, a: Actor, call: Call, reply: Option<Reply>)
    requires Inv(w) && gateway < |w.actors| && w.failedAborts <= failed
    requires forall other :: other != call.sid.group ==> SameFor(w.actors[gateway], a, other)
    requires var group := call.sid.group;
             if group in w.tasks && w.tasks[group].gateway == gateway then
               var t := w.tasks[group];
               var t' := if reply.Some? then Answered(group, t, call, reply.value) else t;
               OwnerInv(failed, group in w.interrupted, group, t', a)
             else AbsentFrom(a, group)
    ensures Inv(ActorMoves(w.(failedAborts := failed), gateway, a, call, reply))
  {
    hide OwnerInv, AbsentFrom, SameFor, Answered, TaskInv, InRange, ReservationInv;
    var group := call.sid.group;
    var w' := ActorMoves(w.(failedAborts := failed), gateway, a, call, reply);
    assert GroupInv(w, group);
    if group in w.tasks && reply.Some? {
      AnsweredKeepsTask(w.manager, group in w.interrupted, group, w.tasks[group], call, reply.value);
    }
    if group in w.tasks && w.tasks[group].gateway != gateway {
      var t := w.tasks[group];
      SameForOwner(w.failedAborts, failed, group in w.interrupted, group, t, w.actors[t.gateway], w.actors[t.gateway]);
    }
    assert GroupInv(w', group);
    OneGroupMoves(w, w', group, gateway);
  }

  lemma TakenKeeps(w: World, gateway: nat, accepts: bool)
    requires Inv(w) && Enabled(w, ActorTakes(gateway, accepts))
    ensures Inv(Taken(w, gateway, accepts))
  {
    var a := w.actors[gateway];
    var group := a.mailbox[0].sid.group;
    assert GroupInv(w, group);
    TakeFrame(a, accepts);
    if group in w.tasks && w.tasks[group].gateway == gateway {
      TakeKeepsOwner(w.failedAborts, group in w.interrupted, group, w.tasks[group], a, accepts);
    } else {
      TakeKeepsAbsent(a, accepts);
    }
    ActorMovesKeeps(w, w.failedAborts, gateway, Take(a, accepts).0, a.mailbox[0], Take(a, accepts).1);
  }

  lemma TakeKeepsAbsent(a: Actor, accepts: bool)
    requires a.mailbox != [] && AbsentFrom(a, a.mailbox[0].sid.group)
    ensures AbsentFrom(Take(a, accepts).0, a.mailbox[0].sid.group)
  {
  }

  lemma EndedKeeps(w: World, gateway: nat, call: Call, ok: bool)
    requires Inv(w) && Enabled(w, ActorEnds(gateway, call, ok))
    ensures Inv(Ended(w, gateway, call, ok))
  {
    var group, a := call.sid.group, w.actors[gateway];
    assert GroupInv(w, group);
    assert group in w.tasks && w.tasks[group].gateway == gateway;
    EndKeepsOwner(w.failedAborts, group in w.interrupted, group, w.tasks[group], a, call, ok);
    var failed := if !ok && call.Abort? then w.failedAborts + {call.sid} else w.failedAborts;
    ActorMovesKeeps(w, failed, gateway, End(a, call, ok), call, Some(EndReply(a, call, ok)));
  }

  lemma ChangedKeeps(w: World, gateway: nat, sid: Sid, content: seq<Trajectory>)
    requires Inv(w) && Enabled(w, SessionChanges(gateway, sid, content))
    ensures Inv(Changed(w, gateway, sid, content))
  {
    var w' := Changed(w, gateway, sid, content);
    assert forall other :: SameFor(w.actors[gateway], w'.actors[gateway], other);
    assert GroupInv(w, sid.group);
    if sid.group in w.tasks {
      var t := w.tasks[sid.group];
      SameForOwner(w.failedAborts, w.failedAborts, sid.group in w.interrupted, sid.group, t,
                   w.actors[t.gateway], w'.actors[t.gateway]);
    }
    assert GroupInv(w', sid.group);
    OneGroupMoves(w, w', sid.group, gateway);
  }

  lemma StepKeeps(w: World, e: Event)
    requires Inv(w) && Enabled(w, e)
    ensures Inv(Step(w, e))
  {
    match e
    case Begin(group, roles) => BeginKeeps(w, group, roles);
    case RunEnds(group, ok) => RunEndsKeeps(w, group, ok);
    case Resume(group) =>
      if w.tasks[group].phase.Creating? {
        CreateResumedKeeps(w, group);
      } else if w.tasks[group].phase.Finalizing? {
        FinalizeResumedKeeps(w, group);
      } else if w.tasks[group].phase.Aborting? {
        AbortResumedKeeps(w, group);
      }
    case Cancel(group) => CancelKeeps(w, group);
    case ActorTakes(gateway, accepts) => TakenKeeps(w, gateway, accepts);
    case ActorEnds(gateway, call, ok) => EndedKeeps(w, gateway, call, ok);
    case SessionChanges(gateway, sid, content) => ChangedKeeps(w, gateway, sid, content);
  }

  // ----- runs -----

  function Start(gatewayCount: nat): World {
    World(Manager(gatewayCount, seq(gatewayCount, _ => 0), map[], map[]),
          seq(gatewayCount, _ => Actor([], map[], {})), map[], {}, {})
  }

  ghost predicate Legal(w: World, events: seq<Event>)
    decreases |events|
  {
    events == [] ||
    (WellFormed(w) && Enabled(w, events[0]) && Legal(Step(w, events[0]), events[1..]))
  }

  ghost function After(w: World, events: seq<Event>): World
    requires Legal(w, events)
    decreases |events|
  {
    if events == [] then w else After(Step(w, events[0]), events[1..])
  }

  lemma StepManager(w: World, e: Event)
    requires WellFormed(w) && Enabled(w, e) && Consistent(w.manager)
    ensures Consistent(Step(w, e).manager)
  {
    if e.Begin? {
      ExecuteKeeps(w.manager, CreateStarts(e.group, e.roles));
    } else if e.Resume? || e.Cancel? {
      ExecuteKeeps(w.manager, GroupDropped(e.group));
      assert Step(w, e).manager == w.manager || Step(w, e).manager == Drop(w.manager, e.group);
    }
  }

  /** The relation between tasks, mailboxes and actors holds in every reachable state. */
  lemma {:induction false} RunKeeps(w: World, events: seq<Event>)
    requires Inv(w) && Consistent(w.manager) && Legal(w, events)
    ensures Inv(After(w, events)) && Consistent(After(w, events).manager)
    decreases |events|
  {
    if events != [] {
      StepKeeps(w, events[0]);
      StepManager(w, events[0]);
      RunKeeps(Step(w, events[0]), events[1..]);
    }
  }

  lemma StartInv(gatewayCount: nat)
    ensures Inv(Start(gatewayCount)) && Consistent(Start(gatewayCount).manager)
  {
    assert forall group :: GroupInv(Start(gatewayCount), group);
  }

  // ----- what every run guarantees -----

  /** Once a group's task is over, its role sessions are gone from every actor, for good: what is left
      had its own abort call fail, or belongs to a group whose unshielded abort was itself cancelled,
      which takes two faults.  A group that returned its trajectories leaves nothing. */
  lemma FinishedGroupLeavesNoSession(gatewayCount: nat, events: seq<Event>, group: Id, gateway: nat, sid: Sid)
    requires Legal(Start(gatewayCount), events)
    requires var w := After(Start(gatewayCount), events);
             && group in w.tasks && Done(w.tasks[group])
             && gateway < |w.actors| && sid in w.actors[gateway].sessions && sid.group == group
    ensures var w := After(Start(gatewayCount), events);
            && w.tasks[group].phase.Raised?
            && (sid in w.failedAborts || (group in w.interrupted && w.tasks[group].faults >= 2))
  {
    StartInv(gatewayCount);
    RunKeeps(Start(gatewayCount), events);
    var w := After(Start(gatewayCount), events);
    assert GroupInv(w, group);
    assert MayLive(w.failedAborts, group in w.interrupted, group, w.tasks[group], sid.role);
  }

  /** A group keeps its slot on its gateway, and its roles in the table, until its task is over; only the
      abort of a failed create can give them back before, and then the task returns nothing. */
  lemma SlotIsHeld(gatewayCount: nat, events: seq<Event>, group: Id)
    requires Legal(Start(gatewayCount), events) && group in After(Start(gatewayCount), events).tasks
    ensures var w := After(Start(gatewayCount), events);
            var t := w.tasks[group];
            && (HoldsSlot(t) ==> group in w.manager.indices && group in w.manager.sessions)
            && (group in w.manager.indices ==> !Done(t) && w.manager.indices[group] == t.gateway)
  {
    StartInv(gatewayCount);
    RunKeeps(Start(gatewayCount), events);
    assert GroupInv(After(Start(gatewayCount), events), group);
    assert group in After(Start(gatewayCount), events).manager.indices.Keys <==>
           group in After(Start(gatewayCount), events).manager.sessions.Keys;
  }

  /** When every task is over, no group is reserved and every load counter is back at zero. */
  lemma FinishedGroupsHoldNoSlot(gatewayCount: nat, events: seq<Event>)
    requires Legal(Start(gatewayCount), events)
    requires forall group :: group in After(Start(gatewayCount), events).tasks ==>
               Done(After(Start(gatewayCount), events).tasks[group])
    ensures var m := After(Start(gatewayCount), events).manager;
            && m.indices == map[] && m.sessions == map[]
            && forall g :: 0 <= g < |m.active| ==> m.active[g] == 0
  {
    StartInv(gatewayCount);
    RunKeeps(Start(gatewayCount), events);
    var w := After(Start(gatewayCount), events);
    forall group ensures group !in w.manager.indices {
      assert GroupInv(w, group);
    }
    assert w.manager.indices == map[];
    assert w.manager.sessions.Keys == {};
  }
}

/** When a role session is lost: it stays on its actor and nobody will ever remove it. */
module LostSessions {
  import opened Sequences
  import opened GatewayManagers
  import opened SessionGroups

  ghost predicate Live(w: World, gateway: nat, sid: Sid) {
    gateway < |w.actors| && sid in w.actors[gateway].sessions
  }

  /** No call that concerns the session is waiting or suspended. */
  ghost predicate NoCallFor(a: Actor, sid: Sid) {
    && (forall call :: call in a.mailbox ==> call.sid != sid)
    && (forall call :: call in a.suspended ==> call.sid != sid)
  }

  ghost predicate Abandoned(w: World, gateway: nat, sid: Sid) {
    && Live(w, gateway, sid) && sid.group in w.tasks && Done(w.tasks[sid.group])
    && NoCallFor(w.actors[gateway], sid)
  }

  /** A task's step posts calls of its own group and touches no other task. */
  ghost predicate MovesOnly(w: World, w': World, group: Id) {
    && |w'.actors| == |w.actors|
    && (forall g :: 0 <= g < |w.actors| ==>
          && w'.actors[g].sessions == w.actors[g].sessions && w'.actors[g].suspended == w.actors[g].suspended
          && forall call :: call in w'.actors[g].mailbox ==> call in w.actors[g].mailbox || call.sid.group == group)
    && (forall other :: other != group && other in w.tasks ==>
          other in w'.tasks && w'.tasks[other] == w.tasks[other])
  }

  lemma EnterMovesOnly(w: World, group: Id, phase: Phase, fault: bool)
    requires group in w.tasks && w.tasks[group].gateway < |w.actors|
    ensures MovesOnly(w, Enter(w, group, phase, fault), group)
  {
  }

  lemma ResumeMovesOnly(w: World, group: Id)
    requires WellFormed(w) && Enabled(w, Resume(group))
    ensures MovesOnly(w, Resumed(w, group), group)
  {
    forall phase, fault { EnterMovesOnly(w, group, phase, fault); }
    forall phase, fault { EnterMovesOnly(DropGroup(w, group), group, phase, fault); }
  }

  lemma CancelMovesOnly(w: World, group: Id)
    requires WellFormed(w) && group in w.tasks
    ensures MovesOnly(w, Cancelled(w, group), group)
  {
    forall phase, fault { EnterMovesOnly(w, group, phase, fault); }
    EnterMovesOnly(DropGroup(w, group).(interrupted := w.interrupted + {group}), group, Raised, true);
  }

  lemma AbandonedByTask(w: World, gateway: nat, sid: Sid, e: Event)
    requires WellFormed(w) && Enabled(w, e) && Abandoned(w, gateway, sid)
    requires e.Resume? || e.Cancel? || e.RunEnds?
    ensures Abandoned(Step(w, e), gateway, sid)
  {
    if e.Resume? {
      ResumeMovesOnly(w, e.group);
    } else if e.Cancel? {
      CancelMovesOnly(w, e.group);
    } else {
      forall phase, fault { EnterMovesOnly(w, e.group, phase, fault); }
    }
    if e.group != sid.group {
      assert MovesOnly(w, Step(w, e), e.group);
    }
  }

  lemma AbandonedStep(w: World, gateway: nat, sid: Sid, e: Event)
    requires WellFormed(w) && Enabled(w, e) && Abandoned(w, gateway, sid)
    ensures Abandoned(Step(w, e), gateway, sid)
  {
    if e.Resume? || e.Cancel? || e.RunEnds? {
      AbandonedByTask(w, gateway, sid, e);
    } else if e.Begin? {
      assert Abandoned(Begun(w, e.group, e.roles), gateway, sid);
    } else if e.ActorTakes? {
      assert Abandoned(Taken(w, e.gateway, e.accepts), gateway, sid);
    } else if e.ActorEnds? {
      assert Abandoned(Ended(w, e.gateway, e.call, e.ok), gateway, sid);
    } else {
      assert Abandoned(Changed(w, e.gateway, e.sid, e.content), gateway, sid);
    }
  }

  lemma {:induction false} AbandonedForever(w: World, gateway: nat, sid: Sid, more: seq<Event>)
    requires Abandoned(w, gateway, sid) && Legal(w, more)
    ensures Abandoned(After(w, more), gateway, sid)
    decreases |more|
  {
    if more != [] {
      AbandonedStep(w, gateway, sid, more[0]);
      AbandonedForever(Step(w, more[0]), gateway, sid, more[1..]);
    }
  }

  // ----- a session with a call under way can still be removed -----

  lemma FirstStep(w: World, e: Event, rest: seq<Event>) returns (events: seq<Event>)
    requires WellFormed(w) && Enabled(w, e) && Legal(Step(w, e), rest)
    ensures Legal(w, events) && After(w, events) == After(Step(w, e), rest)
  {
    events := [e] + rest;
    assert events[1..] == rest;
  }

  lemma EndRemoves(w: World, gateway: nat, call: Call) returns (more: seq<Event>)
    requires Inv(w) && Live(w, gateway, call.sid) && call in w.actors[gateway].suspended
    ensures Legal(w, more) && !Live(After(w, more), gateway, call.sid)
  {
    more := FirstStep(w, ActorEnds(gateway, call, true), []);
  }

  lemma TakeLeavesLive(w: World, gateway: nat, sid: Sid)
    requires Inv(w) && Live(w, gateway, sid) && w.actors[gateway].mailbox != []
    ensures var call, w' := w.actors[gateway].mailbox[0], Step(w, ActorTakes(gateway, true));
            && Live(w', gateway, sid) && w'.actors[gateway].mailbox == w.actors[gateway].mailbox[1..]
            && (call.sid == sid && !call.Create? ==> call in w'.actors[gateway].suspended)
  {
  }

  /** The mailbox is served up to the call, and the call ends well. */
  lemma {:induction false} MailboxRemoves(w: World, gateway: nat, sid: Sid, i: nat) returns (more: seq<Event>)
    requires Inv(w) && Live(w, gateway, sid) && i < |w.actors[gateway].mailbox|
    requires w.actors[gateway].mailbox[i].sid == sid && !w.actors[gateway].mailbox[i].Create?
    ensures Legal(w, more) && !Live(After(w, more), gateway, sid)
    decreases i
  {
    var take := ActorTakes(gateway, true);
    var w' := Step(w, take);
    StepKeeps(w, take);
    TakeLeavesLive(w, gateway, sid);
    hide Inv, Step;
    var rest;
    if i == 0 {
      rest := EndRemoves(w', gateway, w.actors[gateway].mailbox[0]);
    } else {
      rest := MailboxRemoves(w', gateway, sid, i - 1);
    }
    more := FirstStep(w, take, rest);
  }

  lemma {:induction false} RelevantIsMine(mailbox: seq<Call>, group: Id, call: Call)
    requires call in mailbox && Relevant(call, group)
    ensures call in Mine(mailbox, group)
  {
    if mailbox[0] != call {
      RelevantIsMine(mailbox[1..], group, call);
    }
  }

  /** After the cancellation the only calls of the group under way are aborts and finalizes. */
  lemma NoCreateLeft(w: World, group: Id, call: Call)
    requires Inv(w) && group in w.tasks && w.tasks[group].phase.Raised? && call.sid.group == group
    requires var a := w.actors[w.tasks[group].gateway]; call in a.mailbox || call in a.suspended
    ensures !call.Create?
  {
    assert GroupInv(w, group);
    var a := w.actors[w.tasks[group].gateway];
    if call.Create? && call in a.mailbox {
      RelevantIsMine(a.mailbox, group, call);
    }
  }

  lemma CallRemoves(w: World, group: Id, call: Call) returns (more: seq<Event>)
    requires Inv(w) && group in w.tasks && w.tasks[group].phase.Raised? && call.sid.group == group
    requires Live(w, w.tasks[group].gateway, call.sid)
    requires var a := w.actors[w.tasks[group].gateway]; call in a.mailbox || call in a.suspended
    ensures Legal(w, more) && !Live(After(w, more), w.tasks[group].gateway, call.sid)
  {
    var gateway := w.tasks[group].gateway;
    assert gateway < |w.actors|;
    hide Inv, Live;
    if call in w.actors[gateway].suspended {
      more := EndRemoves(w, gateway, call);
    } else {
      NoCreateLeft(w, group, call);
      var i :| 0 <= i < |w.actors[gateway].mailbox| && w.actors[gateway].mailbox[i] == call;
      more := MailboxRemoves(w, gateway, call.sid, i);
    }
  }

  // ----- when a session is lost -----

  /** The session stays on its actor whatever happens from here on. */
  ghost predicate LostForGood(w: World, gateway: nat, sid: Sid) {
    forall more :: Legal(w, more) ==> Live(After(w, more), gateway, sid)
  }

  ghost predicate UnshieldedAbort(w: World, group: Id) {
    group in w.tasks && w.tasks[group].phase.Aborting? && !Shielded(w.tasks[group].phase.cause)
  }

  lemma InterruptedRaises(w: World, group: Id)
    requires Inv(w) && UnshieldedAbort(w, group)
    ensures var w', gateway := Step(w, Cancel(group)), w.tasks[group].gateway;
            && Inv(w') && w'.tasks[group].phase.Raised? && w'.tasks[group].gateway == gateway
            && w'.actors[gateway] == w.actors[gateway]
  {
    StepKeeps(w, Cancel(group));
    var a := w.actors[w.tasks[group].gateway];
    assert a.mailbox + [] == a.mailbox;
  }

  /** If the task is cancelled while it aborts without a shield, a session that is still live is lost
      for good exactly when no call for it is under way at its actor by then. */
  lemma InterruptedAbortLosesSession(w: World, sid: Sid)
    requires Inv(w) && UnshieldedAbort(w, sid.group) && Live(w, w.tasks[sid.group].gateway, sid)
    ensures var gateway := w.tasks[sid.group].gateway;
            LostForGood(Step(w, Cancel(sid.group)), gateway, sid) <==> NoCallFor(w.actors[gateway], sid)
  {
    var gateway, w' := w.tasks[sid.group].gateway, Step(w, Cancel(sid.group));
    InterruptedRaises(w, sid.group);
    hide Inv, Step;
    if NoCallFor(w.actors[gateway], sid) {
      forall more | Legal(w', more) ensures Live(After(w', more), gateway, sid) {
        AbandonedForever(w', gateway, sid, more);
      }
    } else {
      var call: Call :| call.sid == sid && (call in w.actors[gateway].mailbox || call in w.actors[gateway].suspended);
      var more := CallRemoves(w', sid.group, call);
    }
  }

  // ----- such a run -----

  /** One group with two roles on one gateway. */
  function Alone(m: Manager, a: Actor, group: Id, roles: seq<Role>, phase: Phase, reply: Option<Reply>,
                 faults: nat): World
  {
    World(m, [a], map[group := Task(0, roles, phase, reply, faults)], {}, {})
  }

  ghost predicate OneGateway(m: Manager) {
    ManagerOk(m) && m.gateways == 1
  }

  lemma AloneEnters(m: Manager, a: Actor, group: Id, roles: seq<Role>, phase: Phase, reply: Option<Reply>,
                    faults: nat, next: Phase, fault: bool)
    ensures Enter(Alone(m, a, group, roles, phase, reply, faults), group, next, fault) ==
            Alone(m, Post(a, CallsOf(group, next)), group, roles, next, None, faults + if fault then 1 else 0)
  {
    assert [a][0 := Post(a, CallsOf(group, next))] == [Post(a, CallsOf(group, next))];
  }

  lemma AloneCreates(m: Manager, sessions: map<Sid, seq<Trajectory>>, group: Id, roles: seq<Role>, k: nat)
    requires OneGateway(m) && k < |roles| && Sid(group, k) !in sessions
    ensures var w := Alone(m, Actor([Create(Sid(group, k))], sessions, {}), group, roles, Creating(k), None, 0);
            var created := Alone(m, Actor([], sessions[Sid(group, k) := []], {}), group, roles, Creating(k),
                                 Some(Succeeded([])), 0);
            && WellFormed(w) && Enabled(w, ActorTakes(0, true)) && Step(w, ActorTakes(0, true)) == created
            && WellFormed(created) && Enabled(created, Resume(group))
  {
    var call, rest := Create(Sid(group, k)), Actor([], sessions[Sid(group, k) := []], {});
    assert [call][1..] == [];
    assert Take(Actor([call], sessions, {}), true) == (rest, Some(Succeeded([])));
    assert [Actor([call], sessions, {})][0 := rest] == [rest];
  }

  lemma AloneFinalizeFails(m: Manager, sessions: map<Sid, seq<Trajectory>>, group: Id, roles: seq<Role>)
    requires OneGateway(m) && roles != [] && Sid(group, 0) in sessions
    ensures var call, phase := Finalize(Sid(group, 0)), Finalizing(0, [], []);
            var asked := Alone(m, Actor([call], sessions, {}), group, roles, phase, None, 0);
            var waiting := Alone(m, Actor([], sessions, {call}), group, roles, phase, None, 0);
            var failed := Alone(m, Actor([], sessions, {}), group, roles, phase, Some(Failed), 0);
            && WellFormed(asked) && Enabled(asked, ActorTakes(0, true)) && Step(asked, ActorTakes(0, true)) == waiting
            && WellFormed(waiting) && Enabled(waiting, ActorEnds(0, call, false))
            && Step(waiting, ActorEnds(0, call, false)) == failed
            && WellFormed(failed) && Enabled(failed, Resume(group))
  {
    var call := Finalize(Sid(group, 0));
    assert [call][1..] == [] && {} + {call} == {call} && {call} - {call} == {};
    var asked, waiting, failed := Actor([call], sessions, {}), Actor([], sessions, {call}), Actor([], sessions, {});
    assert Take(asked, true) == (waiting, None) && End(waiting, call, false) == failed;
    assert [asked][0 := waiting] == [waiting] && [waiting][0 := failed] == [failed];
  }

  lemma AloneStartsAndAborts(m: Manager, sessions: map<Sid, seq<Trajectory>>, group: Id, roles: seq<Role>)
    requires OneGateway(m) && roles != []
    ensures var call, phase := Finalize(Sid(group, 0)), Finalizing(0, [], []);
            var running := Alone(m, Actor([], sessions, {}), group, roles, Running, None, 0);
            var failed := Alone(m, Actor([], sessions, {}), group, roles, phase, Some(Failed), 0);
            && WellFormed(running) && Enabled(running, RunEnds(group, true))
            && Step(running, RunEnds(group, true)) ==
               Alone(m, Actor([call], sessions, {}), group, roles, phase, None, 0)
            && WellFormed(failed) && Enabled(failed, Resume(group))
            && Step(failed, Resume(group)) ==
               Alone(m, Actor([Abort(Sid(group, 0))], sessions, {}), group, roles, Aborting(0, FinalizeFailed), None, 1)
  {
    var idle, phase := Actor([], sessions, {}), Finalizing(0, [], []);
    AloneEnters(m, idle, group, roles, Running, None, 0, phase, false);
    AloneEnters(m, idle, group, roles, phase, Some(Failed), 0, Aborting(0, FinalizeFailed), true);
    assert Post(idle, CallsOf(group, phase)).mailbox == [Finalize(Sid(group, 0))];
    assert Post(idle, CallsOf(group, Aborting(0, FinalizeFailed))).mailbox == [Abort(Sid(group, 0))];
  }

  lemma FinalizeFails(m: Manager, sessions: map<Sid, seq<Trajectory>>, group: Id, roles: seq<Role>)
    returns (events: seq<Event>)
    requires OneGateway(m) && roles != [] && Sid(group, 0) in sessions
    ensures var running := Alone(m, Actor([], sessions, {}), group, roles, Running, None, 0);
            && Legal(running, events)
            && After(running, events) ==
               Alone(m, Actor([Abort(Sid(group, 0))], sessions, {}), group, roles, Aborting(0, FinalizeFailed), None, 1)
  {
    var call, phase, idle := Finalize(Sid(group, 0)), Finalizing(0, [], []), Actor([], sessions, {});
    var running := Alone(m, idle, group, roles, Running, None, 0);
    AloneFinalizeFails(m, sessions, group, roles);
    AloneStartsAndAborts(m, sessions, group, roles);
    hide Alone, Step, WellFormed, Enabled;
    events := FirstStep(Alone(m, idle, group, roles, phase, Some(Failed), 0), Resume(group), []);
    hide Legal, After;
    events := FirstStep(Alone(m, Actor([], sessions, {call}), group, roles, phase, None, 0),
                        ActorEnds(0, call, false), events);
    events := FirstStep(Alone(m, Actor([call], sessions, {}), group, roles, phase, None, 0),
                        ActorTakes(0, true), events);
    events := FirstStep(running, RunEnds(group, true), events);
  }

  function NextCreate(roles: seq<Role>, k: nat): Phase {
    if k + 1 < |roles| then Creating(k + 1) else Running
  }

  function AfterCreate(m: Manager, sessions: map<Sid, seq<Trajectory>>, group: Id, roles: seq<Role>, k: nat): World {
    var next := NextCreate(roles, k);
    Alone(m, Post(Actor([], sessions[Sid(group, k) := []], {}), CallsOf(group, next)), group, roles, next, None, 0)
  }

  lemma CreatedResumes(m: Manager, sessions: map<Sid, seq<Trajectory>>, group: Id, roles: seq<Role>, k: nat)
    requires OneGateway(m) && k < |roles|
    ensures var w := Alone(m, Actor([], sessions[Sid(group, k) := []], {}), group, roles, Creating(k),
                           Some(Succeeded([])), 0);
            WellFormed(w) && Enabled(w, Resume(group)) &&
            Step(w, Resume(group)) == AfterCreate(m, sessions, group, roles, k)
  {
    AloneEnters(m, Actor([], sessions[Sid(group, k) := []], {}), group, roles, Creating(k), Some(Succeeded([])), 0,
                NextCreate(roles, k), false);
  }

  /** One role's create call is served, and its task goes on to the next phase. */
  lemma RoleCreated(m: Manager, sessions: map<Sid, seq<Trajectory>>, group: Id, roles: seq<Role>, k: nat,
                    rest: seq<Event>) returns (events: seq<Event>)
    requires OneGateway(m) && k < |roles| && Sid(group, k) !in sessions
    requires Legal(AfterCreate(m, sessions, group, roles, k), rest)
    ensures var w := Alone(m, Actor([Create(Sid(group, k))], sessions, {}), group, roles, Creating(k), None, 0);
            Legal(w, events) && After(w, events) == After(AfterCreate(m, sessions, group, roles, k), rest)
  {
    AloneCreates(m, sessions, group, roles, k);
    CreatedResumes(m, sessions, group, roles, k);
    hide *;
    var made := Actor([], sessions[Sid(group, k) := []], {});
    events := FirstStep(Alone(m, made, group, roles, Creating(k), Some(Succeeded([])), 0), Resume(group), rest);
    events := FirstStep(Alone(m, Actor([Create(Sid(group, k))], sessions, {}), group, roles, Creating(k), None, 0),
                        ActorTakes(0, true), events);
  }

  lemma BothCreated(m: Manager, group: Id, roles: seq<Role>, rest: seq<Event>) returns (events: seq<Event>)
    requires OneGateway(m) && |roles| == 2
    requires var both: map<Sid, seq<Trajectory>> := map[Sid(group, 0) := [], Sid(group, 1) := []];
             Legal(Alone(m, Actor([], both, {}), group, roles, Running, None, 0), rest)
    ensures var both: map<Sid, seq<Trajectory>> := map[Sid(group, 0) := [], Sid(group, 1) := []];
            var begun := Alone(m, Actor([Create(Sid(group, 0))], map[], {}), group, roles, Creating(0), None, 0);
            && Legal(begun, events)
            && After(begun, events) == After(Alone(m, Actor([], both, {}), group, roles, Running, None, 0), rest)
  {
    hide Alone, Legal, After;
    var none: map<Sid, seq<Trajectory>> := map[];
    var one := none[Sid(group, 0) := []];
    assert one[Sid(group, 1) := []] == map[Sid(group, 0) := [], Sid(group, 1) := []];
    assert Post(Actor([], one, {}), CallsOf(group, Creating(1))).mailbox == [Create(Sid(group, 1))];
    assert Post(Actor([], one[Sid(group, 1) := []], {}), CallsOf(group, Running)).mailbox == [];
    events := RoleCreated(m, one, group, roles, 1, rest);
    events := RoleCreated(m, none, group, roles, 0, events);
  }

  lemma Begins(group: Id, roles: seq<Role>) returns (m: Manager)
    requires roles != [] && ValidRoles(roles)
    ensures OneGateway(m) && WellFormed(Start(1)) && Enabled(Start(1), Begin(group, roles))
    ensures Step(Start(1), Begin(group, roles)) ==
            Alone(m, Actor([Create(Sid(group, 0))], map[], {}), group, roles, Creating(0), None, 0)
  {
    m := Reserve(Start(1).manager, group, roles).value;
    assert LeastLoaded(Start(1).manager.active) == 0;
    var a := Actor([], map[], {});
    AloneEnters(m, a, group, roles, Raised, None, 0, Creating(0), false);
    assert Start(1).actors == [a];
    assert [] + [Create(Sid(group, 0))] == [Create(Sid(group, 0))];
  }

  /** With two roles on one gateway: both sessions are created, the run ends, the finalize of the first
      role fails and its abort is sent.  A cancellation at this point loses the second role's session. */
  lemma InterruptedAbortHappens(group: Id, roles: seq<Role>) returns (events: seq<Event>)
    requires |roles| == 2 && ValidRoles(roles)
    ensures Legal(Start(1), events)
    ensures var w := After(Start(1), events);
            && WellFormed(w) && Enabled(w, Cancel(group))
            && LostForGood(Step(w, Cancel(group)), 0, Sid(group, 1))
  {
    var both: map<Sid, seq<Trajectory>> := map[Sid(group, 0) := [], Sid(group, 1) := []];
    hide Alone, Step, LostForGood;
    var m := Begins(group, roles);
    var rest := FinalizeFails(m, both, group, roles);
    rest := BothCreated(m, group, roles, rest);
    events := FirstStep(Start(1), Begin(group, roles), rest);
    StartInv(1);
    RunKeeps(Start(1), events);
    InterruptedAbortLosesSession(After(Start(1), events), Sid(group, 1));
  }
}

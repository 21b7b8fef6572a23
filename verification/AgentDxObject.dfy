/** The sandbox object itself: its fields, the methods that update them, and the cleanup loop run
    against an environment that may change behind its back before every answer. */
module AgentDxObject {
  import opened AgentDx
  import opened Sequences

  /** What the server may do on its own. */
  ghost predicate Evolves(before: Remote, after: Remote) {
    && (before.create.InFlight? || after.create == before.create)
    && (after.create.InFlight? ==> before.create.InFlight?)
    && (before.create.InFlight? ==> !after.create.NotCalled?)
    && (after.alive ==> after.create.Landed? && (before.alive || before.create.InFlight?))
  }

  ghost predicate Final(remote: Remote) {
    !remote.alive && !remote.create.InFlight?
  }

  class RemoteEnvironment {
    var create: Create
    var alive: bool
    /** What the calls so far were answered. */
    ghost var log: seq<Reply>

    ghost function State(): Remote
      reads this
    {
      Remote(create, alive)
    }

    constructor ()
      ensures create == InFlight && !alive && log == []
    {
      create, alive, log := InFlight, false, [];
    }

    /** The create may land or be lost; a running environment may vanish. */
    method Drift()
      modifies this`create, this`alive
      ensures Evolves(old(State()), State())
    {
      if create.InFlight? {
        if * {
          create, alive := Landed, true;
        } else if * {
          create, alive := Lost, false;
        } else {
          alive := false;
        }
      } else if alive && create.Landed? {
        alive := *;
      } else {
        alive := false;
      }
    }

    /** An existence probe; without an answer it is unclear. */
    method Exists() returns (answer: Reply)
      modifies this
      ensures Evolves(old(State()), State())
      ensures answer == Yes ==> alive && create.Landed?
      ensures answer == No ==> !alive
      ensures answer == Yes || answer == No || answer == Unclear
      ensures log == old(log) + [answer]
    {
      Drift();
      answer := if alive then Yes else No;
      if * {
        answer := Unclear;
      }
      log := log + [answer];
    }

    /** A deletion that succeeds leaves nothing running, but a create under way can still land. */
    method Delete() returns (ok: bool)
      modifies this
      ensures Evolves(old(State()), State())
      ensures ok ==> !alive
      ensures log == old(log) + [if ok then Done else Raised]
    {
      Drift();
      if * {
        log := log + [Raised];
        return false;
      }
      alive, log := false, log + [Done];
      return true;
    }
  }

  /** After so many rounds without a decision, the answers that are still to come decide. */
  ghost predicate SoFar(seenAtFirst: bool, answers: seq<Reply>, seen: bool, attempt: nat) {
    && attempt <= CREATE_RECONCILE_ATTEMPTS
    && forall more :: Confirms(seenAtFirst, answers + more, CREATE_RECONCILE_ATTEMPTS) ==
                      Confirms(seen, more, CREATE_RECONCILE_ATTEMPTS - attempt)
  }

  lemma NothingHeard(seen: bool)
    ensures SoFar(seen, [], seen, 0)
  {
    forall more: seq<Reply> ensures [] + more == more {
    }
  }

  lemma RoundsAreOver(seenAtFirst: bool, answers: seq<Reply>, seen: bool)
    requires SoFar(seenAtFirst, answers, seen, CREATE_RECONCILE_ATTEMPTS)
    ensures !Confirms(seenAtFirst, answers, CREATE_RECONCILE_ATTEMPTS)
  {
    assert answers + [] == answers;
  }

  /** What one round makes of its answers. */
  lemma RoundDecides(seen: bool, answer: Reply, deleted: Reply, gone: Reply, more: seq<Reply>, rounds: nat)
    requires rounds > 0 && !answer.Raised? && !gone.Raised?
    ensures deleted.Raised? ==> !Confirms(seen, [answer, deleted] + more, rounds)
    ensures !deleted.Raised? && !seen && !answer.Yes? ==>
              Confirms(seen, [answer, deleted] + more, rounds) == Confirms(false, more, rounds - 1)
    ensures !deleted.Raised? && (seen || answer.Yes?) ==>
              Confirms(seen, [answer, deleted, gone] + more, rounds) == (gone.No? || Confirms(true, more, rounds - 1))
  {
    var two, three := [answer, deleted] + more, [answer, deleted, gone] + more;
    assert two[1..] == [deleted] + more && two[1..][1..] == more;
    assert three[1..] == [deleted, gone] + more && three[1..][1..] == [gone] + more;
    assert ([gone] + more)[1..] == more;
    assert ConfirmsGone([gone] + more, rounds) == (gone.No? || Confirms(true, more, rounds - 1));
    assert !deleted.Raised? && (seen || answer.Yes?) ==>
             ConfirmsDeletion(true, three[1..], rounds) == ConfirmsGone([gone] + more, rounds);
  }

  lemma RoundWithoutProbe(seenAtFirst: bool, answers: seq<Reply>, seen: bool, attempt: nat,
                          answer: Reply, deleted: Reply)
    requires SoFar(seenAtFirst, answers, seen, attempt) && attempt < CREATE_RECONCILE_ATTEMPTS && !answer.Raised?
    ensures deleted.Raised? ==> !Confirms(seenAtFirst, answers + [answer, deleted], CREATE_RECONCILE_ATTEMPTS)
    ensures !deleted.Raised? && !seen && !answer.Yes? ==>
              SoFar(seenAtFirst, answers + [answer, deleted], false, attempt + 1)
  {
    hide Confirms;
    forall more
      ensures answers + [answer, deleted] + more == answers + ([answer, deleted] + more)
    {
    }
    forall more {
      RoundDecides(seen, answer, deleted, No, more, CREATE_RECONCILE_ATTEMPTS - attempt);
    }
    assert answers + [answer, deleted] + [] == answers + [answer, deleted];
  }

  lemma RoundWithProbe(seenAtFirst: bool, answers: seq<Reply>, seen: bool, attempt: nat, answer: Reply, gone: Reply)
    requires SoFar(seenAtFirst, answers, seen, attempt) && attempt < CREATE_RECONCILE_ATTEMPTS
    requires !answer.Raised? && !gone.Raised? && (seen || answer.Yes?)
    ensures gone.No? ==> Confirms(seenAtFirst, answers + [answer, Done, gone], CREATE_RECONCILE_ATTEMPTS)
    ensures !gone.No? ==> SoFar(seenAtFirst, answers + [answer, Done, gone], true, attempt + 1)
  {
    hide Confirms;
    forall more
      ensures answers + [answer, Done, gone] + more == answers + ([answer, Done, gone] + more)
    {
    }
    forall more {
      RoundDecides(seen, answer, Done, gone, more, CREATE_RECONCILE_ATTEMPTS - attempt);
    }
    assert answers + [answer, Done, gone] + [] == answers + [answer, Done, gone];
  }

  class AgentDxSandbox {
    const remote: RemoteEnvironment
    var attempted: bool
    var attached: bool
    var idKnown: bool
    var deletePending: bool
    var createUnconfirmed: bool
    var createSeen: bool
    var initializing: bool
    var fatal: Option<Fatal>
    var startupFailed: bool
    var timerArmed: bool

    ghost function State(): Client
      reads this
    {
      Client(attempted, attached, idKnown, deletePending, createUnconfirmed, createSeen, initializing, fatal,
             startupFailed, timerArmed)
    }

    /** Once the create call has returned: what exists or may still arrive is pending, and what may
        still arrive is unconfirmed. */
    ghost predicate Remembers()
      reads this, remote
    {
      && (remote.alive ==> remote.create.Landed?)
      && (remote.alive || remote.create.InFlight? ==> deletePending)
      && (remote.create.InFlight? ==> createUnconfirmed)
      && (createUnconfirmed ==> deletePending)
      && (createSeen ==> remote.create.Landed?)
    }

    constructor (remote: RemoteEnvironment)
      ensures this.remote == remote
      ensures State() == INITIAL.c
    {
      this.remote := remote;
      attempted, attached, idKnown, deletePending := false, false, false, false;
      createUnconfirmed, createSeen, initializing := false, false, false;
      fatal, startupFailed, timerArmed := None, false, false;
    }

    /** Only the first fatal error is kept. */
    method RecordFailure(code: Fatal)
      modifies this`fatal
      ensures State() == Fail(old(State()), code)
      ensures old(fatal).Some? ==> fatal == old(fatal)
    {
      if fatal.None? {
        fatal := Some(code);
      }
    }

    method RecordError(error: CreateError)
      modifies this`idKnown, this`createUnconfirmed, this`deletePending
      ensures State() == RecordCreateError(old(State()), error)
    {
      if error.unknown {
        if error.hasId {
          idKnown := true;
        }
        createUnconfirmed, deletePending := true, true;
      }
    }

    method Attach()
      modifies this`attached, this`idKnown, this`deletePending
      ensures State() == CreateSucceeded(old(State()))
    {
      attached, idKnown, deletePending := true, true, true;
    }

    /** The constructor call has returned: whatever it says, the object remembers what to delete. */
    method CreateReturned(created: CreateReply)
      requires attempted && !deletePending && !createUnconfirmed && !createSeen
      requires remote.alive ==> remote.create.Landed?
      requires created.Created? ==> remote.create.Landed?
      requires created.CreateRaised? && !created.error.unknown ==> Final(remote.State())
      modifies this`attached, this`idKnown, this`deletePending, this`createUnconfirmed
      ensures Remembers()
      ensures State() == match created
                         case Created => CreateSucceeded(old(State()))
                         case CreateRaised(error) => RecordCreateError(old(State()), error)
    {
      match created
      case Created => Attach();
      case CreateRaised(error) => RecordError(error);
    }

    /** Observe, delete, observe again, up to three times.  A cleanup is confirmed only when the
        environment has been seen once and is gone afterwards; then no late create can undo it. */
    method ReconcileCreate() returns (confirmed: bool)
      requires Remembers() && createUnconfirmed
      modifies remote, this`createSeen, this`createUnconfirmed
      ensures Remembers() && deletePending
      ensures confirmed <==> !createUnconfirmed
      ensures confirmed ==> createSeen && Final(remote.State())
      ensures Evolves(old(remote.State()), remote.State())
      ensures old(remote.log) <= remote.log
      ensures confirmed <==>
              idKnown && Confirms(old(createSeen), remote.log[|old(remote.log)|..], CREATE_RECONCILE_ATTEMPTS)
    {
      hide Confirms, SoFar;
      if !idKnown {
        return false;
      }
      ghost var answers: seq<Reply> := [];
      NothingHeard(createSeen);
      var attempt := 0;
      while attempt < CREATE_RECONCILE_ATTEMPTS
        invariant Remembers() && createUnconfirmed && attempt <= CREATE_RECONCILE_ATTEMPTS
        invariant Evolves(old(remote.State()), remote.State())
        invariant remote.log == old(remote.log) + answers
        invariant SoFar(old(createSeen), answers, createSeen, attempt)
      {
        ghost var seenBefore := createSeen;
        var seen := remote.Exists();
        createSeen := createSeen || seen == Yes;
        var deleted := remote.Delete();
        RoundWithoutProbe(old(createSeen), answers, seenBefore, attempt, seen, if deleted then Done else Raised);
        if !deleted {
          assert remote.log == old(remote.log) + (answers + [seen, Raised]);
          return false;
        }
        if createSeen {
          var gone := remote.Exists();
          RoundWithProbe(old(createSeen), answers, seenBefore, attempt, seen, gone);
          answers := answers + [seen, Done, gone];
          assert remote.log == old(remote.log) + answers;
          if gone == No {
            createUnconfirmed := false;
            return true;
          }
        } else {
          answers := answers + [seen, Done];
          assert remote.log == old(remote.log) + answers;
        }
        attempt := attempt + 1;
      }
      RoundsAreOver(old(createSeen), answers, createSeen);
      return false;
    }

    /** One cleanup, by `stop` or by a rollback.  It is accepted exactly when nothing stays pending, and
        then nothing exists or can still arrive; otherwise everything pending stays pending. */
    method Delete() returns (accepted: bool)
      requires Remembers()
      modifies remote, this`attached, this`deletePending, this`createSeen, this`createUnconfirmed
      ensures Remembers() && !attached
      ensures accepted <==> !deletePending
      ensures accepted && old(deletePending) ==> Final(remote.State())
      ensures !old(deletePending) ==> accepted && remote.State() == old(remote.State())
      ensures Evolves(old(remote.State()), remote.State())
      ensures createUnconfirmed ==> old(createUnconfirmed)
      ensures old(remote.log) <= remote.log
      ensures var answers := remote.log[|old(remote.log)|..];
              && (!old(deletePending) ==> answers == [])
              && (old(deletePending) && !old(createUnconfirmed) ==>
                    && 1 <= |answers| <= (if old(attached) then 2 else 1) && (answers[0] == Done ==> |answers| == 1)
                    && (accepted <==> !AllRaise(answers, if old(attached) then 2 else 1)))
              && (old(createUnconfirmed) ==>
                    (accepted <==>
                     old(idKnown) && Confirms(old(createSeen), answers, CREATE_RECONCILE_ATTEMPTS)))
    {
      var wasAttached := attached;
      attached := false;
      if !deletePending {
        return true;
      }
      if createUnconfirmed {
        accepted := ReconcileCreate();
      } else {
        accepted := false;
        if wasAttached {
          accepted := remote.Delete();
        }
        if !accepted {
          accepted := remote.Delete();
        }
        ghost var answers := remote.log[|old(remote.log)|..];
        ghost var last := if accepted then Done else Raised;
        assert answers == [last] || (wasAttached && answers == [Raised, last]);
        assert accepted ==> answers[|answers| - 1] == Done;
      }
      if accepted {
        deletePending := false;
      }
    }

    /** Any number of failed cleanups, whatever the server does in between, forget nothing; the first
        accepted one is final.  A known environment escapes all of them only if every call raises. */
    method StopUntilAccepted(tries: nat) returns (accepted: bool)
      requires Remembers() && deletePending
      modifies remote, this`attached, this`deletePending, this`createSeen, this`createUnconfirmed
      ensures Remembers() && (accepted <==> !deletePending)
      ensures accepted ==> Final(remote.State())
      ensures old(remote.log) <= remote.log
      ensures !accepted && !old(createUnconfirmed) ==>
                var answers := remote.log[|old(remote.log)|..];
                |answers| >= tries && forall i :: 0 <= i < |answers| ==> answers[i].Raised?
    {
      accepted := false;
      for i := 0 to tries
        invariant Remembers() && !accepted && deletePending
        invariant createUnconfirmed ==> old(createUnconfirmed)
        invariant |old(remote.log)| <= |remote.log| && old(remote.log) <= remote.log
        invariant !old(createUnconfirmed) ==>
                    && |remote.log| >= |old(remote.log)| + i
                    && forall k :: |old(remote.log)| <= k < |remote.log| ==> remote.log[k].Raised?
      {
        ghost var before := remote.log;
        remote.Drift();
        accepted := Delete();
        if accepted {
          return;
        }
        if !old(createUnconfirmed) {
          assert forall k :: |before| <= k < |remote.log| ==> remote.log[k] == remote.log[|before|..][k - |before|];
        }
      }
    }
  }
}

/** Lifecycle of one Agent DX sandbox and the remote environment it may or may not own.

    Every stretch of client code between two awaits is one event; an arbitrary scheduler interleaves
    the task that holds the lifecycle lock with the runtime timer, failing commands and callers of
    `stop`.  The server is an adversary: the one create request may land at any time until it is
    lost, also after the client was told that the outcome is unknown, and an environment may vanish. */
module AgentDx {
  import opened Sequences

  const CREATE_RECONCILE_ATTEMPTS: nat := 3

  // ----- the sandbox object -----

  datatype Failure =
    | CommandDeadlineExceeded | CommandCancelled | CommandUnavailable | CommandResultRejected
    | ShellOpenCancelled | ShellOpenFailed | ShellRunFailed | ShellInitFailed
    | FileOperationCancelled

  /** The failures after which the failing call itself runs `_stop_poisoned`. */
  predicate StopsEnvironment(failure: Failure) {
    failure in {CommandDeadlineExceeded, CommandCancelled, ShellOpenCancelled, ShellRunFailed, FileOperationCancelled}
  }

  datatype Fatal = CreateCancelled | CreateFailed | RuntimeTimeout | DataPlane(failure: Failure)

  /** A constructor error: is its outcome "unknown", and does it carry an environment id? */
  datatype CreateError = CreateError(unknown: bool, hasId: bool)

  datatype Client = Client(
    attempted: bool, attached: bool, idKnown: bool,
    deletePending: bool, createUnconfirmed: bool, createSeen: bool,
    initializing: bool, fatal: Option<Fatal>, startupFailed: bool, timerArmed: bool)

  function Fail(c: Client, code: Fatal): Client {
    if c.fatal.None? then c.(fatal := Some(code)) else c
  }

  function RecordCreateError(c: Client, error: CreateError): Client {
    if error.unknown then
      c.(idKnown := c.idKnown || error.hasId, createUnconfirmed := true, deletePending := true)
    else c
  }

  function CreateSucceeded(c: Client): Client {
    c.(attached := true, idKnown := true, deletePending := true)
  }

  /** May a data-plane call reach the environment? */
  predicate Usable(c: Client) {
    c.fatal.None? && c.attached
  }

  // ----- the server -----

  datatype Create = NotCalled | InFlight | Landed | Lost

  datatype Remote = Remote(create: Create, alive: bool)

  datatype CreateReply = Created | CreateRaised(error: CreateError)

  /** Yes, No and Unclear answer an existence probe; Done and Raised end the other calls. */
  datatype Reply = Yes | No | Unclear | Done | Raised

  // ----- the holder of the lifecycle lock -----

  datatype Owner = CancelledStart | FailedStart | Stop

  /** Where `_delete` is suspended. */
  datatype Point =
    | Begin
    | AskExists(attempt: nat) | AskDelete(attempt: nat) | AskGone(attempt: nat) | Pause(attempt: nat)
    | Kill | PlainDelete
    | Close

  datatype Holder =
    | Free
    | Creating(cancelled: bool, created: Option<CreateReply>)
    | SettingUp
    | Deleting(owner: Owner, at: Point, detached: bool, reply: Option<Reply>)

  /** Callers queued for the lock, and failing calls between `_fail` and `_stop_poisoned`. */
  datatype Queue = Queue(userStops: nat, poisonStops: nat, expiryStops: nat, settling: nat, setupSettling: bool)

  /** What has happened so far; the client does not see it. */
  datatype History = History(constructorCalls: nat, started: bool, stoppingFailure: bool, holderQueued: bool)

  datatype World = World(c: Client, remote: Remote, holder: Holder, q: Queue, h: History)

  const INITIAL := World(
    Client(false, false, false, false, false, false, false, None, false, false),
    Remote(NotCalled, false), Free, Queue(0, 0, 0, 0, false), History(0, false, false, false))

  // ----- events -----

  datatype StopKind = ByUser | ByPoison | ByExpiry

  datatype Event =
    | StartCalled | StartCancelled | CreateReplies(created: CreateReply) | StartResumes
    | SetupEnds(ok: bool)
    | StopCalled | StopCallCancelled | StopAcquires(kind: StopKind)
    | TimerFires
    | DataPlaneFails(failure: Failure, bySetup: bool) | FailureSettles(ofSetup: bool)
    | RemoteReplies(reply: Reply) | DeleteResumes
    | CreateLands | CreateIsLost | RemoteVanishes

  predicate ReplyPossible(remote: Remote, at: Point, reply: Reply) {
    match at
    case Begin => false
    case Pause(_) => false
    case AskExists(_) => (reply.Yes? && remote.alive) || (reply.No? && !remote.alive) || reply.Unclear? || reply.Raised?
    case AskGone(_) => (reply.Yes? && remote.alive) || (reply.No? && !remote.alive) || reply.Unclear? || reply.Raised?
    case _ => reply.Done? || reply.Raised?
  }

  /** The server is trusted in one thing: a constructor error whose outcome is not "unknown" means that
      nothing runs and nothing will arrive. */
  predicate Enabled(w: World, e: Event) {
    match e
    case StartCalled => w.holder.Free?
    case StartCancelled => w.holder.Creating?
    case CreateReplies(created) =>
      && w.holder.Creating? && w.holder.created.None?
      && (created.Created? ==> w.remote.create.Landed?)
      && (created.CreateRaised? && !created.error.unknown ==> !w.remote.alive)
    case StartResumes => w.holder.Creating? && w.holder.created.Some?
    case SetupEnds(ok) => w.holder.SettingUp? && !w.q.setupSettling
    case StopCalled => true
    case StopCallCancelled => w.q.userStops > 0
    case StopAcquires(kind) =>
      && w.holder.Free?
      && (match kind
          case ByUser => w.q.userStops > 0
          case ByPoison => w.q.poisonStops > 0
          case ByExpiry => w.q.expiryStops > 0)
    case TimerFires => w.c.timerArmed
    case DataPlaneFails(failure, bySetup) => w.h.started && (bySetup ==> w.holder.SettingUp? && !w.q.setupSettling)
    case FailureSettles(ofSetup) => if ofSetup then w.q.setupSettling else w.q.settling > 0
    case RemoteReplies(reply) =>
      w.holder.Deleting? && w.holder.reply.None? && ReplyPossible(w.remote, w.holder.at, reply)
    case DeleteResumes => w.holder.Deleting? && (w.holder.reply.Some? || w.holder.at.Begin? || w.holder.at.Pause?)
    case CreateLands => w.remote.create.InFlight?
    case CreateIsLost => w.remote.create.InFlight?
    case RemoteVanishes => w.remote.alive
  }

  /** `start` up to its first await, with the lock just acquired. */
  function StartAcquired(w: World): World {
    if w.c.startupFailed || w.c.fatal.Some? || w.c.attached || w.c.attempted then w
    else w.(c := w.c.(attempted := true), remote := Remote(InFlight, false),
            holder := Creating(false, None), h := w.h.(constructorCalls := w.h.constructorCalls + 1))
  }

  /** `start` once the constructor thread has ended. */
  function StartResumed(w: World): World
    requires Enabled(w, StartResumes)
  {
    var created := w.holder.created.value;
    if w.holder.cancelled then
      var c := if created.Created? then CreateSucceeded(w.c) else RecordCreateError(w.c, created.error);
      w.(c := Fail(c, CreateCancelled), holder := Deleting(CancelledStart, Begin, false, None))
    else if created.CreateRaised? then
      w.(c := Fail(RecordCreateError(w.c, created.error), CreateFailed), holder := Free)
    else
      w.(c := CreateSucceeded(w.c).(timerArmed := true, initializing := true), holder := SettingUp,
          h := w.h.(started := true))
  }

  function SetupEnded(w: World, ok: bool): World {
    if ok && w.c.fatal.None? then w.(c := w.c.(initializing := false), holder := Free)
    else w.(c := w.c.(startupFailed := true, timerArmed := false), holder := Deleting(FailedStart, Begin, false, None))
  }

  function Released(w: World, owner: Owner): World {
    w.(c := if owner.FailedStart? then w.c.(initializing := false) else w.c, holder := Free)
  }

  function DeleteAt(w: World, at: Point): World
    requires w.holder.Deleting?
  {
    w.(holder := w.holder.(at := at, reply := None))
  }

  /** The `finally` of `_delete`: close what was detached, then give the lock back. */
  function DeleteEnded(w: World): World
    requires w.holder.Deleting?
  {
    if w.holder.detached then DeleteAt(w, Close) else Released(w, w.holder.owner)
  }

  function DeleteBegun(w: World): World
    requires w.holder.Deleting?
  {
    var detached := w.c.attached;
    var w' := w.(c := w.c.(attached := false), holder := w.holder.(detached := detached));
    if !w.c.deletePending then Released(w', w.holder.owner)
    else if w.c.createUnconfirmed then
      if w.c.idKnown then DeleteAt(w', AskExists(0)) else DeleteEnded(w')
    else if detached then DeleteAt(w', Kill)
    else DeleteAt(w', PlainDelete)
  }

  function NextAttempt(w: World, attempt: nat): World
    requires w.holder.Deleting?
  {
    if attempt + 1 < CREATE_RECONCILE_ATTEMPTS then DeleteAt(w, Pause(attempt)) else DeleteEnded(w)
  }

  /** The reconcile loop: observe the environment, delete it, and accept the deletion only when
      creation has been observed at some time and the environment is now gone. */
  function ReconcileResumed(w: World): World
    requires Enabled(w, DeleteResumes) && w.holder.reply.Some?
  {
    var reply := w.holder.reply.value;
    if reply.Raised? then DeleteEnded(w)
    else match w.holder.at
      case AskExists(attempt) =>
        DeleteAt(w.(c := w.c.(createSeen := w.c.createSeen || reply.Yes?)), AskDelete(attempt))
      case AskDelete(attempt) =>
        if w.c.createSeen then DeleteAt(w, AskGone(attempt)) else NextAttempt(w, attempt)
      case AskGone(attempt) =>
        if reply.No? then DeleteEnded(w.(c := w.c.(createUnconfirmed := false, deletePending := false)))
        else NextAttempt(w, attempt)
      case _ => w
  }

  function KillResumed(w: World): World
    requires Enabled(w, DeleteResumes) && w.holder.reply.Some?
  {
    if w.holder.reply.value.Done? then DeleteEnded(w.(c := w.c.(deletePending := false)))
    else if w.holder.at.Kill? then DeleteAt(w, PlainDelete)
    else DeleteEnded(w)
  }

  function DeleteResumed(w: World): World
    requires Enabled(w, DeleteResumes)
  {
    match w.holder.at
    case Begin => DeleteBegun(w)
    case Pause(attempt) => DeleteAt(w, AskExists(attempt + 1))
    case Kill => KillResumed(w)
    case PlainDelete => KillResumed(w)
    case Close => Released(w, w.holder.owner)
    case _ => ReconcileResumed(w)
  }

  function FailureSettled(w: World, ofSetup: bool): World
    requires Enabled(w, FailureSettles(ofSetup))
  {
    if ofSetup then
      w.(q := w.q.(setupSettling := false),
         h := w.h.(holderQueued := w.h.holderQueued || !w.c.initializing))
    else
      w.(q := w.q.(settling := w.q.settling - 1,
                   poisonStops := w.q.poisonStops + if w.c.initializing then 0 else 1))
  }

  function Step(w: World, e: Event): World
    requires Enabled(w, e)
  {
    match e
    case StartCalled => StartAcquired(w)
    case StartCancelled => w.(holder := w.holder.(cancelled := true))
    case CreateReplies(created) =>
      w.(holder := w.holder.(created := Some(created)),
         remote := if created.CreateRaised? && !created.error.unknown && w.remote.create.InFlight?
                   then Remote(Lost, false) else w.remote)
    case StartResumes => StartResumed(w)
    case SetupEnds(ok) => SetupEnded(w, ok)
    case StopCalled => w.(q := w.q.(userStops := w.q.userStops + 1))
    case StopCallCancelled => w.(q := w.q.(userStops := w.q.userStops - 1))
    case StopAcquires(kind) =>
      w.(q := w.q.(userStops := w.q.userStops - if kind.ByUser? then 1 else 0,
                   poisonStops := w.q.poisonStops - if kind.ByPoison? then 1 else 0,
                   expiryStops := w.q.expiryStops - if kind.ByExpiry? then 1 else 0),
         c := w.c.(timerArmed := false), holder := Deleting(Stop, Begin, false, None))
    case TimerFires =>
      w.(c := Fail(w.c, RuntimeTimeout).(timerArmed := false),
         q := w.q.(expiryStops := w.q.expiryStops + 1))
    case DataPlaneFails(failure, bySetup) =>
      var stops := StopsEnvironment(failure);
      w.(c := Fail(w.c, DataPlane(failure)),
         q := w.q.(setupSettling := w.q.setupSettling || (stops && bySetup),
                   settling := w.q.settling + if stops && !bySetup then 1 else 0),
         h := w.h.(stoppingFailure := w.h.stoppingFailure || stops))
    case FailureSettles(ofSetup) => FailureSettled(w, ofSetup)
    case RemoteReplies(reply) =>
      var deletes := reply.Done? && (w.holder.at.AskDelete? || w.holder.at.Kill? || w.holder.at.PlainDelete?);
      w.(holder := w.holder.(reply := Some(reply)),
         remote := if deletes then w.remote.(alive := false) else w.remote)
    case DeleteResumes => DeleteResumed(w)
    case CreateLands => w.(remote := Remote(Landed, true))
    case CreateIsLost => w.(remote := Remote(Lost, false))
    case RemoteVanishes => w.(remote := w.remote.(alive := false))
  }

  // ----- runs -----

  predicate Legal(w: World, events: seq<Event>)
    decreases |events|
  {
    events == [] || (Enabled(w, events[0]) && Legal(Step(w, events[0]), events[1..]))
  }

  function After(w: World, events: seq<Event>): World
    requires Legal(w, events)
    decreases |events|
  {
    if events == [] then w else After(Step(w, events[0]), events[1..])
  }

  // ----- invariants -----

  /** Has the create call returned to the client? */
  predicate Resolved(w: World) {
    w.c.attempted && !w.holder.Creating?
  }

  predicate RemoteInv(w: World) {
    && (w.remote.alive ==> w.remote.create.Landed?)
    && (w.remote.create.NotCalled? <==> !w.c.attempted)
    && w.h.constructorCalls == (if w.c.attempted then 1 else 0)
    && (w.holder.Creating? ==> w.c.attempted && !w.c.deletePending && !w.c.createSeen && !w.h.started)
    && (w.c.idKnown ==> w.c.attempted && !w.holder.Creating?)
    && (w.holder.Creating? && w.holder.created.Some? ==>
          match w.holder.created.value
          case Created => w.remote.create.Landed?
          case CreateRaised(error) => error.unknown || (!w.remote.alive && !w.remote.create.InFlight?))
  }

  predicate CleanupInv(w: World) {
    && (Resolved(w) && (w.remote.alive || w.remote.create.InFlight?) ==> w.c.deletePending)
    && (Resolved(w) && w.remote.create.InFlight? ==> w.c.createUnconfirmed)
    && (w.c.deletePending ==> w.c.attempted)
    && (w.c.createUnconfirmed ==> w.c.deletePending && !w.c.attached)
    && (w.c.createSeen ==> w.remote.create.Landed?)
    && (w.c.attached ==> w.c.deletePending && w.c.idKnown)
  }

  predicate Answered(remote: Remote, reply: Option<Reply>) {
    reply.Some? ==> reply.value.Raised? || (reply.value.Done? && !remote.alive)
  }

  /** What `_delete` may rely on at each of its awaits. */
  predicate DeleteInv(w: World) {
    w.holder.Deleting? ==>
      var reply := w.holder.reply;
      && (!w.holder.at.Begin? ==> !w.c.attached)
      && match w.holder.at
         case Begin => true
         case AskExists(_) => w.c.createUnconfirmed && (reply == Some(Yes) ==> w.remote.create.Landed?)
         case AskDelete(_) => w.c.createUnconfirmed
         case Pause(_) => w.c.createUnconfirmed
         case AskGone(_) => w.c.createUnconfirmed && w.c.createSeen && (reply == Some(No) ==> !w.remote.alive)
         case Kill => w.c.deletePending && !w.c.createUnconfirmed && Answered(w.remote, reply)
         case PlainDelete => w.c.deletePending && !w.c.createUnconfirmed && Answered(w.remote, reply)
         case Close => true
  }

  predicate LockInv(w: World) {
    && !w.h.holderQueued
    && (w.c.initializing <==> w.holder.SettingUp? || (w.holder.Deleting? && w.holder.owner.FailedStart?))
    && (w.q.setupSettling ==> w.holder.SettingUp?)
  }

  predicate AboutToDelete(w: World) {
    w.holder.Deleting? && w.holder.at.Begin?
  }

  /** An attached environment always has something that will take it down. */
  predicate DestroyerInv(w: World) {
    && (w.c.attached ==> w.c.timerArmed || w.q.expiryStops > 0 || AboutToDelete(w))
    && (w.h.stoppingFailure ==> w.c.fatal.Some?)
    && (w.c.attached && w.h.stoppingFailure ==>
          w.q.settling > 0 || w.q.poisonStops > 0 || w.holder.SettingUp? || AboutToDelete(w))
    && (w.holder.Creating? ==> !w.c.attached && !w.h.stoppingFailure)
    && (w.h.stoppingFailure ==> w.h.started)
    && (w.h.started ==> w.c.attempted)
    && (w.c.timerArmed || w.holder.SettingUp? ==> w.h.started)
  }

  predicate Inv(w: World) {
    RemoteInv(w) && CleanupInv(w) && DeleteInv(w) && LockInv(w) && DestroyerInv(w)
  }

  // ----- what every run guarantees -----

  /** The remote constructor is called at most once.  Once that call has returned, an environment
      that exists, or may still arrive, is always marked for deletion. */
  lemma EnvironmentNeverForgotten(events: seq<Event>)
    requires Legal(INITIAL, events)
    ensures var w := After(INITIAL, events);
            && w.h.constructorCalls <= 1
            && (Resolved(w) && (w.remote.alive || w.remote.create.InFlight?) ==> w.c.deletePending)
  {
    RunKeepsInv(INITIAL, events);
  }

  /** That takes the trust in definite constructor errors: after one, the environment is remembered
      exactly if indeed nothing runs and nothing can arrive. */
  lemma DefiniteErrorIsTrusted(w: World, error: CreateError)
    requires Inv(w) && w.holder.Creating? && !error.unknown
    ensures var answered := w.(holder := w.holder.(created := Some(CreateRaised(error))));
            var w' := Step(answered, StartResumes);
            (w'.remote.alive || w'.remote.create.InFlight? ==> w'.c.deletePending) <==>
            !w.remote.alive && !w.remote.create.InFlight?
  {
    assert RecordCreateError(w.c, error) == w.c && !w.c.deletePending;
  }

  predicate Gone(w: World) {
    Resolved(w) && !w.remote.alive && (w.remote.create.Landed? || w.remote.create.Lost?)
  }

  predicate SameOutside(w: World, w': World) {
    && w'.remote == w.remote && w'.c.fatal == w.c.fatal && w'.c.attempted == w.c.attempted
    && w'.c.timerArmed == w.c.timerArmed && w'.c.startupFailed == w.c.startupFailed && w'.h == w.h
    && (w'.holder.Free? || w'.holder.Deleting?)
  }

  lemma ReconcileFrame(w: World)
    requires Enabled(w, DeleteResumes) && w.holder.reply.Some?
    ensures SameOutside(w, ReconcileResumed(w))
  {
    hide DeleteEnded, NextAttempt, SameOutside;
    EndFrame(w);
    match w.holder.at
    case AskExists(attempt) => SeenFrame(w, attempt);
    case AskDelete(attempt) => NextFrame(w, attempt);
    case AskGone(attempt) => NextFrame(w, attempt);
    case _ => NextFrame(w, 0);
  }

  lemma SeenFrame(w: World, attempt: nat)
    requires w.holder.Deleting?
    ensures forall seen :: SameOutside(w, DeleteAt(w.(c := w.c.(createSeen := seen)), AskDelete(attempt)))
  {
  }

  lemma NextFrame(w: World, attempt: nat)
    requires w.holder.Deleting?
    ensures SameOutside(w, NextAttempt(w, attempt)) && SameOutside(w, w)
    ensures SameOutside(w, DeleteAt(w, AskGone(attempt)))
    ensures SameOutside(w, DeleteEnded(w.(c := w.c.(createUnconfirmed := false, deletePending := false))))
  {
    hide DeleteEnded;
    EndFrame(w);
    EndFrame(w.(c := w.c.(createUnconfirmed := false, deletePending := false)));
  }

  lemma EndFrame(w: World)
    requires w.holder.Deleting?
    ensures SameOutside(w, DeleteEnded(w))
  {
  }

  lemma KillFrame(w: World)
    requires Enabled(w, DeleteResumes) && w.holder.reply.Some?
    ensures SameOutside(w, KillResumed(w))
  {
  }

  /** `_delete` talks to the server only through its replies, and leaves the fatal error alone. */
  lemma DeleteResumedFrame(w: World)
    requires Enabled(w, DeleteResumes)
    ensures SameOutside(w, DeleteResumed(w))
  {
    match w.holder.at
    case Begin => assert SameOutside(w, DeleteBegun(w));
    case Pause(_) =>
    case Close =>
    case Kill => KillFrame(w);
    case PlainDelete => KillFrame(w);
    case _ => ReconcileFrame(w);
  }

  lemma StepKeepsGoneAndFatal(w: World, e: Event)
    requires Enabled(w, e)
    ensures Gone(w) ==> Gone(Step(w, e))
    ensures w.c.fatal.Some? ==> Step(w, e).c.fatal == w.c.fatal
    ensures w.c.startupFailed ==> Step(w, e).c.startupFailed
  {
    hide DeleteResumed;
    if e.DeleteResumes? {
      DeleteResumedFrame(w);
    } else {
      OthersKeepGone(w, e);
      OthersKeepErrors(w, e);
      hide Step, Gone;
    }
  }

  lemma OthersKeepGone(w: World, e: Event)
    requires Enabled(w, e) && !e.DeleteResumes?
    ensures Gone(w) ==> Gone(Step(w, e))
  {
    hide DeleteResumed;
  }

  lemma OthersKeepErrors(w: World, e: Event)
    requires Enabled(w, e) && !e.DeleteResumes?
    ensures w.c.fatal.Some? ==> Step(w, e).c.fatal == w.c.fatal
    ensures w.c.startupFailed ==> Step(w, e).c.startupFailed
  {
    if e.StartResumes? {
      ResumingKeepsErrors(w);
    } else {
      hide StartResumed;
    }
  }

  lemma ResumingKeepsErrors(w: World)
    requires Enabled(w, StartResumes)
    ensures w.c.fatal.Some? ==> StartResumed(w).c.fatal == w.c.fatal
    ensures w.c.startupFailed ==> StartResumed(w).c.startupFailed
  {
    hide Fail, RecordCreateError, CreateSucceeded;
    SameErrors(w.c);
    var c := if w.holder.created.value.Created? then CreateSucceeded(w.c)
             else RecordCreateError(w.c, w.holder.created.value.error);
    SameErrors(c);
  }

  lemma SameErrors(c: Client)
    ensures CreateSucceeded(c).fatal == c.fatal && CreateSucceeded(c).startupFailed == c.startupFailed
    ensures forall error :: RecordCreateError(c, error).fatal == c.fatal &&
                            RecordCreateError(c, error).startupFailed == c.startupFailed
    ensures forall code :: Fail(c, code).startupFailed == c.startupFailed &&
                           (c.fatal.Some? ==> Fail(c, code).fatal == c.fatal)
  {
  }

  /** What is gone stays gone, the first fatal error stays the fatal error, and so does a failed set-up. */
  lemma {:induction false} LastsForever(w: World, more: seq<Event>)
    requires Legal(w, more)
    ensures Gone(w) ==> Gone(After(w, more))
    ensures w.c.fatal.Some? ==> After(w, more).c.fatal == w.c.fatal
    ensures w.c.startupFailed ==> After(w, more).c.startupFailed
    decreases |more|
  {
    if more != [] {
      StepKeepsGoneAndFatal(w, more[0]);
      LastsForever(Step(w, more[0]), more[1..]);
    }
  }

  /** A cleanup that has been accepted -- by `stop`, by a rollback or by the reconcile loop, after
      any number of failed attempts -- is never undone by a create that arrives late. */
  lemma AcceptedCleanupIsFinal(events: seq<Event>, more: seq<Event>)
    requires Legal(INITIAL, events) && Legal(After(INITIAL, events), more)
    requires Resolved(After(INITIAL, events)) && !After(INITIAL, events).c.deletePending
    ensures !After(After(INITIAL, events), more).remote.alive
    ensures !After(After(INITIAL, events), more).remote.create.InFlight?
  {
    RunKeepsInv(INITIAL, events);
    LastsForever(After(INITIAL, events), more);
  }

  /** After the first failure or expiry no later data-plane call succeeds, and later failures do
      not replace its error. */
  lemma FailurePoisonsForGood(w: World, e: Event, more: seq<Event>)
    requires Enabled(w, e) && (e.DataPlaneFails? || e.TimerFires?)
    requires Legal(Step(w, e), more)
    ensures var code := if e.TimerFires? then RuntimeTimeout else DataPlane(e.failure);
            After(Step(w, e), more).c.fatal == if w.c.fatal.Some? then w.c.fatal else Some(code)
    ensures !Usable(After(Step(w, e), more).c)
  {
    LastsForever(Step(w, e), more);
  }

  /** A set-up that fails, or finds a fatal error, is what every later start raises. */
  lemma FailedSetupIsKept(w: World, ok: bool, more: seq<Event>)
    requires Enabled(w, SetupEnds(ok)) && (!ok || w.c.fatal.Some?) && Legal(Step(w, SetupEnds(ok)), more)
    ensures After(Step(w, SetupEnds(ok)), more).c.startupFailed
  {
    LastsForever(Step(w, SetupEnds(ok)), more);
  }

  /** A start that is cancelled while its create call is under way stays cancelled until it goes on: then it
      deletes what was created. */
  lemma CancelIsHeeded(w: World, between: seq<Event>)
    requires Enabled(w, StartCancelled) && Legal(Step(w, StartCancelled), between)
    requires forall e :: e in between ==> !e.StartResumes?
    ensures var w' := After(Step(w, StartCancelled), between);
            && w'.holder.Creating?
            && (Enabled(w', StartResumes) ==>
                  AboutToDelete(Step(w', StartResumes)) && Step(w', StartResumes).c.fatal.Some?)
  {
    StaysCancelled(Step(w, StartCancelled), between);
  }

  lemma {:induction false} StaysCancelled(w: World, between: seq<Event>)
    requires w.holder.Creating? && w.holder.cancelled && Legal(w, between)
    requires forall e :: e in between ==> !e.StartResumes?
    ensures After(w, between).holder.Creating? && After(w, between).holder.cancelled
    decreases |between|
  {
    if between != [] {
      assert !between[0].StartResumes?;
      StaysCancelled(Step(w, between[0]), between[1..]);
    }
  }

  /** Nobody holds the lock, and no stop that is bound to run is queued or about to be queued. */
  predicate Quiet(w: World) {
    w.holder.Free? && w.q.poisonStops == 0 && w.q.expiryStops == 0 && w.q.settling == 0
  }

  /** The events after which the environment is bound to go: a failure that runs `_stop_poisoned`, any
      failure while start is setting up, a set-up that fails or finds a fatal error, a create that fails
      or was cancelled, the expiry, and a stop that has the lock. */
  predicate TakesDown(w: World, e: Event)
    requires Enabled(w, e)
  {
    match e
    case DataPlaneFails(failure, _) => StopsEnvironment(failure) || w.holder.SettingUp?
    case SetupEnds(ok) => !ok || w.c.fatal.Some?
    case StartResumes => w.holder.cancelled || w.holder.created.value.CreateRaised?
    case TimerFires => true
    case StopAcquires(_) => w.c.attempted
    case _ => false
  }

  /** The timer is off for good, or start is about to roll back. */
  predicate GivenUp(w: World) {
    Resolved(w) && (!w.c.timerArmed || (w.holder.SettingUp? && w.c.fatal.Some?))
  }

  lemma TakesDownGivesUp(w: World, e: Event)
    requires Inv(w) && Enabled(w, e) && TakesDown(w, e)
    ensures GivenUp(Step(w, e)) || Step(w, e).h.stoppingFailure
  {
  }

  lemma StepKeepsGivenUp(w: World, e: Event)
    requires Enabled(w, e)
    ensures GivenUp(w) ==> GivenUp(Step(w, e))
    ensures w.h.stoppingFailure ==> Step(w, e).h.stoppingFailure
    ensures Resolved(w) && !w.c.timerArmed && !w.holder.SettingUp? ==>
              Resolved(Step(w, e)) && !Step(w, e).c.timerArmed && !Step(w, e).holder.SettingUp?
  {
    if e.DeleteResumes? {
      DeleteResumedFrame(w);
      hide DeleteResumed;
    } else {
      OthersKeepGivenUp(w, e);
    }
  }

  lemma OthersKeepGivenUp(w: World, e: Event)
    requires Enabled(w, e) && !e.DeleteResumes?
    ensures GivenUp(w) ==> GivenUp(Step(w, e))
    ensures w.h.stoppingFailure ==> Step(w, e).h.stoppingFailure
    ensures Resolved(w) && !w.c.timerArmed && !w.holder.SettingUp? ==>
              Resolved(Step(w, e)) && !Step(w, e).c.timerArmed && !Step(w, e).holder.SettingUp?
  {
  }

  lemma {:induction false} RunKeepsGivenUp(w: World, more: seq<Event>)
    requires Legal(w, more)
    ensures GivenUp(w) ==> GivenUp(After(w, more))
    ensures w.h.stoppingFailure ==> After(w, more).h.stoppingFailure
    ensures Resolved(w) && !w.c.timerArmed && !w.holder.SettingUp? ==> !After(w, more).c.timerArmed
    decreases |more|
  {
    if more != [] {
      StepKeepsGivenUp(w, more[0]);
      hide GivenUp, Resolved;
      RunKeepsGivenUp(Step(w, more[0]), more[1..]);
    }
  }

  lemma DetachedWhenQuiet(w: World)
    requires Inv(w) && Quiet(w) && (GivenUp(w) || w.h.stoppingFailure)
    ensures !w.c.attached && (w.remote.alive ==> w.c.deletePending)
  {
  }

  lemma TakenDown(w: World, e: Event, more: seq<Event>)
    requires Inv(w) && Enabled(w, e) && TakesDown(w, e) && Legal(Step(w, e), more)
    ensures var end := After(Step(w, e), more);
            Quiet(end) ==> !end.c.attached && (end.remote.alive ==> end.c.deletePending)
  {
    StepKeepsInv(w, e);
    TakesDownGivesUp(w, e);
    var after := Step(w, e);
    hide TakesDown, Step, Inv, Quiet, GivenUp;
    RunKeepsInv(after, more);
    RunKeepsGivenUp(after, more);
    if Quiet(After(after, more)) {
      DetachedWhenQuiet(After(after, more));
    }
  }

  /** After any of these events, in every continuation: whenever things have settled, the environment
      is not attached, and if it is still alive, because its deletion failed, it is marked for deletion. */
  lemma NothingPoisonedStaysAttached(events: seq<Event>, e: Event, more: seq<Event>)
    requires Legal(INITIAL, events) && Enabled(After(INITIAL, events), e) && TakesDown(After(INITIAL, events), e)
    requires Legal(Step(After(INITIAL, events), e), more)
    ensures var end := After(Step(After(INITIAL, events), e), more);
            Quiet(end) ==> !end.c.attached && (end.remote.alive ==> end.c.deletePending)
  {
    RunKeepsInv(INITIAL, events);
    TakenDown(After(INITIAL, events), e, more);
  }

  /** An environment that is attached when things have settled has its lifetime timer armed; a timer
      that is off once start has returned is never armed again; and the task that holds the lifecycle
      lock never queues for it. */
  lemma TimerGuardsAttached(events: seq<Event>, more: seq<Event>)
    requires Legal(INITIAL, events) && Legal(After(INITIAL, events), more)
    ensures var w := After(INITIAL, events);
            && !w.h.holderQueued
            && (Quiet(w) && w.c.attached ==> w.c.timerArmed)
            && (Resolved(w) && !w.c.timerArmed && !w.holder.SettingUp? ==> !After(w, more).c.timerArmed)
  {
    RunKeepsInv(INITIAL, events);
    RunKeepsGivenUp(After(INITIAL, events), more);
  }

  /** Nobody asks for a stop, the timer does not fire and nothing fails in a way that stops. */
  predicate LeavesAlone(e: Event) {
    !e.StopCalled? && !e.TimerFires? && (e.DataPlaneFails? ==> !StopsEnvironment(e.failure))
  }

  /** Attached, and no stop runs, is queued or is about to be. */
  predicate KeepsRunning(w: World) {
    Quiet(w) && w.q.userStops == 0 && w.c.attached
  }

  lemma {:induction false} LeftAloneKeepsRunning(w: World, more: seq<Event>)
    requires Inv(w) && KeepsRunning(w) && Legal(w, more) && forall e :: e in more ==> LeavesAlone(e)
    ensures KeepsRunning(After(w, more))
    decreases |more|
  {
    if more != [] {
      StepKeepsInv(w, more[0]);
      hide Inv;
      assert LeavesAlone(more[0]) && KeepsRunning(Step(w, more[0])) by {
        assert !w.q.setupSettling by { SetupSettlesUnderLock(w); }
      }
      LeftAloneKeepsRunning(Step(w, more[0]), more[1..]);
    }
  }

  lemma SetupSettlesUnderLock(w: World)
    requires Inv(w)
    ensures w.q.setupSettling ==> w.holder.SettingUp?
  {
  }

  predicate SameClient(a: Client, b: Client) {
    && a.attempted == b.attempted && a.attached == b.attached && a.idKnown == b.idKnown
    && a.deletePending == b.deletePending && a.createUnconfirmed == b.createUnconfirmed
    && a.createSeen == b.createSeen && a.initializing == b.initializing
    && a.startupFailed == b.startupFailed && a.timerArmed == b.timerArmed
  }

  predicate SameButFatal(a: World, b: World) {
    a.remote == b.remote && a.holder == b.holder && a.q == b.q && a.h == b.h && SameClient(a.c, b.c)
  }

  /** Once set-up is over, no step but a data-plane call looks at the fatal error. */
  lemma FatalIsNotRead(a: World, b: World, e: Event)
    requires SameButFatal(a, b) && Resolved(a) && !a.holder.SettingUp?
    ensures Enabled(a, e) <==> Enabled(b, e)
    ensures Enabled(a, e) ==> SameButFatal(Step(a, e), Step(b, e))
    ensures Enabled(a, e) ==> Resolved(Step(a, e)) && !Step(a, e).holder.SettingUp?
  {
    if Enabled(a, e) {
      if e.DeleteResumes? {
        FatalIsNotReadByDelete(a, b);
        DeleteResumedFrame(a);
      } else {
        FatalIsNotReadByOthers(a, b, e);
      }
    }
  }

  lemma FatalIsNotReadByOthers(a: World, b: World, e: Event)
    requires SameButFatal(a, b) && Resolved(a) && !a.holder.SettingUp? && Enabled(a, e) && !e.DeleteResumes?
    ensures Enabled(b, e) && SameButFatal(Step(a, e), Step(b, e))
    ensures Resolved(Step(a, e)) && !Step(a, e).holder.SettingUp?
  {
    hide DeleteResumed, StartResumed, SetupEnded;
    assert !e.StartResumes? && !e.SetupEnds?;
    if ByOtherTask(e) {
      FatalIsNotReadByTasks(a, b, e);
    }
  }

  lemma FailLeavesRest(c: Client, code: Fatal)
    ensures SameClient(Fail(c, code), c)
  {
    if c.fatal.None? {
      assert Fail(c, code) == c.(fatal := Some(code));
    } else {
      assert Fail(c, code) == c;
    }
  }

  lemma FatalIsNotReadByTasks(a: World, b: World, e: Event)
    requires SameButFatal(a, b) && Resolved(a) && !a.holder.SettingUp? && Enabled(a, e) && ByOtherTask(e)
    ensures Enabled(b, e) && SameButFatal(Step(a, e), Step(b, e))
    ensures Resolved(Step(a, e)) && !Step(a, e).holder.SettingUp?
  {
    hide DeleteResumed, StartResumed, SetupEnded, StartAcquired, FailureSettled, Fail, StopsEnvironment, SameClient;
    match e
    case FailureSettles(ofSetup) => FatalIsNotReadBySettling(a, b, ofSetup);
    case TimerFires => FailLeavesSame(a.c, b.c, RuntimeTimeout);
    case DataPlaneFails(failure, _) => FailLeavesSame(a.c, b.c, DataPlane(failure));
    case _ =>
  }

  lemma FailLeavesSame(a: Client, b: Client, code: Fatal)
    requires SameClient(a, b)
    ensures SameClient(Fail(a, code), Fail(b, code))
    ensures SameClient(Fail(a, code).(timerArmed := false), Fail(b, code).(timerArmed := false))
    ensures Fail(a, code).attempted == a.attempted && a.timerArmed == b.timerArmed
  {
    FailLeavesRest(a, code);
    FailLeavesRest(b, code);
    hide Fail;
  }

  lemma FatalIsNotReadBySettling(a: World, b: World, ofSetup: bool)
    requires SameButFatal(a, b) && Enabled(a, FailureSettles(ofSetup))
    ensures Enabled(b, FailureSettles(ofSetup))
    ensures SameButFatal(FailureSettled(a, ofSetup), FailureSettled(b, ofSetup))
    ensures FailureSettled(a, ofSetup).holder == a.holder && FailureSettled(a, ofSetup).c == a.c
  {
  }

  lemma FatalIsNotReadByDelete(a: World, b: World)
    requires SameButFatal(a, b) && Enabled(a, DeleteResumes)
    ensures SameButFatal(DeleteResumed(a), DeleteResumed(b))
  {
    hide DeleteBegun, KillResumed, ReconcileResumed, SameClient;
    match a.holder.at
    case Begin => FatalIsNotReadByBegin(a, b);
    case Pause(_) =>
    case Close => FatalIsNotReadByRelease(a, b);
    case Kill => FatalIsNotReadByKill(a, b);
    case PlainDelete => FatalIsNotReadByKill(a, b);
    case AskGone(_) => FatalIsNotReadByGone(a, b);
    case _ => FatalIsNotReadByAsk(a, b);
  }

  lemma FatalIsNotReadByRelease(a: World, b: World)
    requires SameButFatal(a, b) && a.holder.Deleting?
    ensures SameButFatal(Released(a, a.holder.owner), Released(b, b.holder.owner))
  {
  }

  lemma FatalIsNotReadByBegin(a: World, b: World)
    requires SameButFatal(a, b) && a.holder.Deleting?
    ensures SameButFatal(DeleteBegun(a), DeleteBegun(b))
  {
    hide DeleteEnded, Released;
    var a' := a.(c := a.c.(attached := false), holder := a.holder.(detached := a.c.attached));
    var b' := b.(c := b.c.(attached := false), holder := b.holder.(detached := b.c.attached));
    FatalIsNotReadAtEnd(a', b');
    FatalIsNotReadByRelease(a', b');
  }

  lemma FatalIsNotReadByNext(a: World, b: World, attempt: nat)
    requires SameButFatal(a, b) && a.holder.Deleting?
    ensures SameButFatal(NextAttempt(a, attempt), NextAttempt(b, attempt))
  {
    FatalIsNotReadAtEnd(a, b);
  }

  lemma FatalIsNotReadAtEnd(a: World, b: World)
    requires SameButFatal(a, b) && a.holder.Deleting?
    ensures SameButFatal(DeleteEnded(a), DeleteEnded(b))
  {
  }

  lemma FatalIsNotReadByKill(a: World, b: World)
    requires SameButFatal(a, b) && Enabled(a, DeleteResumes) && a.holder.reply.Some?
    ensures SameButFatal(KillResumed(a), KillResumed(b))
  {
    hide DeleteEnded;
    var a', b' := a.(c := a.c.(deletePending := false)), b.(c := b.c.(deletePending := false));
    FatalIsNotReadAtEnd(a', b');
    FatalIsNotReadAtEnd(a, b);
  }

  lemma FatalIsNotReadByGone(a: World, b: World)
    requires SameButFatal(a, b) && Enabled(a, DeleteResumes) && a.holder.reply.Some? && a.holder.at.AskGone?
    ensures SameButFatal(ReconcileResumed(a), ReconcileResumed(b))
  {
    hide DeleteEnded, NextAttempt;
    FatalIsNotReadAtEnd(a, b);
    FatalIsNotReadByNext(a, b, a.holder.at.attempt);
    var a' := a.(c := a.c.(createUnconfirmed := false, deletePending := false));
    FatalIsNotReadAtEnd(a', b.(c := b.c.(createUnconfirmed := false, deletePending := false)));
  }

  lemma FatalIsNotReadByAsk(a: World, b: World)
    requires SameButFatal(a, b) && Enabled(a, DeleteResumes) && a.holder.reply.Some?
    requires a.holder.at.AskExists? || a.holder.at.AskDelete?
    ensures SameButFatal(ReconcileResumed(a), ReconcileResumed(b))
  {
    hide DeleteEnded, NextAttempt;
    FatalIsNotReadAtEnd(a, b);
    FatalIsNotReadByNext(a, b, a.holder.at.attempt);
  }

  lemma {:induction false} FatalChangesNoRun(a: World, b: World, more: seq<Event>)
    requires SameButFatal(a, b) && Resolved(a) && !a.holder.SettingUp?
    ensures Legal(a, more) <==> Legal(b, more)
    ensures Legal(a, more) ==> SameButFatal(After(a, more), After(b, more))
    decreases |more|
  {
    if more != [] {
      FatalIsNotRead(a, b, more[0]);
      hide SameButFatal, Enabled, Step, Resolved;
      if Enabled(a, more[0]) {
        FatalChangesNoRun(Step(a, more[0]), Step(b, more[0]), more[1..]);
      }
    }
  }

  predicate Deletes(w: World, failure: Failure) {
    StopsEnvironment(failure) || w.holder.SettingUp?
  }

  lemma HarmlessFailure(w: World, failure: Failure, bySetup: bool, more: seq<Event>)
    requires Inv(w) && Enabled(w, DataPlaneFails(failure, bySetup)) && !Deletes(w, failure)
    requires Legal(Step(w, DataPlaneFails(failure, bySetup)), more)
    ensures var end := After(Step(w, DataPlaneFails(failure, bySetup)), more);
            && Legal(w, more) && SameButFatal(end, After(w, more))
            && (KeepsRunning(w) && (forall e :: e in more ==> LeavesAlone(e)) ==> KeepsRunning(end))
  {
    var e := DataPlaneFails(failure, bySetup);
    FailsAfterStart(w, e);
    StepKeepsInv(w, e);
    FailureOnlyPoisons(w, e);
    FatalChangesNoRun(Step(w, e), w, more);
    hide Inv, Step, SameButFatal, KeepsRunning, LeavesAlone;
    if KeepsRunning(w) && forall e :: e in more ==> LeavesAlone(e) {
      LeftAloneKeepsRunning(Step(w, e), more);
    }
  }

  lemma FailureOnlyPoisons(w: World, e: Event)
    requires Enabled(w, e) && e.DataPlaneFails? && !Deletes(w, e.failure)
    ensures SameButFatal(Step(w, e), w)
    ensures KeepsRunning(w) ==> KeepsRunning(Step(w, e))
  {
    FailLeavesRest(w.c, DataPlane(e.failure));
    hide Fail;
  }

  /** A failure leads to a deletion exactly if its kind runs `_stop_poisoned` or start is still setting
      up.  Then the environment is detached whenever things have settled, in every continuation.
      Otherwise the failure changes nothing but the fatal error: exactly the same continuations are
      possible as without it, and they end alike.  In particular an environment that nobody was about to
      stop stays attached, and no stop is ever queued, as long as nothing else asks for one. */
  lemma OnlyStoppingFailuresStop(events: seq<Event>, failure: Failure, bySetup: bool, more: seq<Event>)
    requires Legal(INITIAL, events) && Enabled(After(INITIAL, events), DataPlaneFails(failure, bySetup))
    requires Legal(Step(After(INITIAL, events), DataPlaneFails(failure, bySetup)), more)
    ensures var w := After(INITIAL, events);
            var end := After(Step(w, DataPlaneFails(failure, bySetup)), more);
            && (Deletes(w, failure) && Quiet(end) ==> !end.c.attached)
            && (!Deletes(w, failure) ==> Legal(w, more) && SameButFatal(end, After(w, more)))
            && ((KeepsRunning(w) || w.holder.SettingUp?) && Quiet(end) && (forall e :: e in more ==> LeavesAlone(e)) ==>
                  (end.c.attached <==> !Deletes(w, failure)))
            && (KeepsRunning(w) && !Deletes(w, failure) && (forall e :: e in more ==> LeavesAlone(e)) ==>
                  KeepsRunning(end))
  {
    var w, e := After(INITIAL, events), DataPlaneFails(failure, bySetup);
    RunKeepsInv(INITIAL, events);
    hide Inv, Step, Enabled, SameButFatal, LeavesAlone, Quiet;
    if Deletes(w, failure) {
      assert TakesDown(w, e);
      TakenDown(w, e, more);
    } else {
      HarmlessFailure(w, failure, bySetup, more);
    }
  }

  lemma FailsAfterStart(w: World, e: Event)
    requires Inv(w) && e.DataPlaneFails? && Enabled(w, e)
    ensures Resolved(w) && (e.bySetup ==> w.holder.SettingUp?)
  {
  }

  /** A command that fails with COMMAND_UNAVAILABLE poisons the sandbox but leaves the environment
      running until someone calls `stop` or the timer fires. */
  lemma UnavailableCommandKeepsEnvironment() returns (events: seq<Event>)
    ensures Legal(INITIAL, events)
    ensures var w := After(INITIAL, events);
            Quiet(w) && w.c.fatal == Some(DataPlane(CommandUnavailable)) && w.c.attached && w.remote.alive
  {
    var w3 := Step(Step(Step(INITIAL, StartCalled), CreateLands), CreateReplies(Created));
    assert JustCreated(w3);
    events := Extend(INITIAL, StartCalled,
              Extend(Step(INITIAL, StartCalled), CreateLands,
              Extend(Step(Step(INITIAL, StartCalled), CreateLands), CreateReplies(Created), CreatedThenFails(w3))));
  }

  predicate JustCreated(w: World) {
    && w.holder == Creating(false, Some(Created)) && w.remote == Remote(Landed, true)
    && w.c == INITIAL.c.(attempted := true) && w.q == INITIAL.q
  }

  /** Start goes on and ends well, and then a command finds the environment unavailable. */
  function CreatedThenFails(w: World): (events: seq<Event>)
    requires JustCreated(w)
    ensures Legal(w, events)
    ensures var end := After(w, events);
            Quiet(end) && end.c.fatal == Some(DataPlane(CommandUnavailable)) && end.c.attached && end.remote.alive
  {
    var w1 := Step(w, StartResumes);
    var w2 := Step(w1, SetupEnds(true));
    assert w1.holder == SettingUp && w1.c.fatal.None? && w1.h.started && w1.q == INITIAL.q;
    assert w2.holder == Free && w2.c.attached && w2.remote == Remote(Landed, true);
    Extend(w, StartResumes, Extend(w1, SetupEnds(true), Extend(w2, DataPlaneFails(CommandUnavailable, false), [])))
  }

  function Extend(w: World, e: Event, rest: seq<Event>): (events: seq<Event>)
    requires Enabled(w, e) && Legal(Step(w, e), rest)
    ensures Legal(w, events) && After(w, events) == After(Step(w, e), rest)
  {
    assert ([e] + rest)[1..] == rest;
    [e] + rest
  }

  // ----- the lock is given back -----

  /** The events by which the holder of the lifecycle lock gets on. */
  predicate HolderMoves(e: Event) {
    e.CreateReplies? || e.StartResumes? || e.SetupEnds? || e.RemoteReplies? || e.DeleteResumes?
  }

  function Moves(events: seq<Event>): nat {
    if events == [] then 0 else (if HolderMoves(events[0]) then 1 else 0) + Moves(events[1..])
  }

  /** The reconcile loop stays within its attempts, and only calls to the server are answered. */
  predicate AttemptsInv(holder: Holder) {
    holder.Deleting? ==>
      match holder.at
      case Begin => holder.reply.None?
      case AskExists(attempt) => attempt < CREATE_RECONCILE_ATTEMPTS
      case AskDelete(attempt) => attempt < CREATE_RECONCILE_ATTEMPTS
      case AskGone(attempt) => attempt < CREATE_RECONCILE_ATTEMPTS
      case Pause(attempt) => attempt + 1 < CREATE_RECONCILE_ATTEMPTS && holder.reply.None?
      case _ => true
  }

  /** How many moves `_delete` has left at most: seven for an attempt, one of them its pause. */
  function DeleteRank(at: Point): int {
    match at
    case Begin => 23
    case AskExists(attempt) => 22 - 7 * attempt
    case AskDelete(attempt) => 20 - 7 * attempt
    case AskGone(attempt) => 18 - 7 * attempt
    case Pause(attempt) => 16 - 7 * attempt
    case Kill => 6
    case PlainDelete => 4
    case Close => 2
  }

  function HolderRank(holder: Holder): int {
    match holder
    case Free => 0
    case Creating(_, created) => if created.None? then 26 else 25
    case SettingUp => 24
    case Deleting(_, at, _, reply) => DeleteRank(at) - if reply.Some? then 1 else 0
  }

  predicate Forward(before: Holder, after: Holder) {
    AttemptsInv(after) && (after.Free? || (!before.Free? && HolderRank(after) < HolderRank(before)))
  }

  lemma DeleteMovesOn(w: World)
    requires Enabled(w, DeleteResumes) && AttemptsInv(w.holder)
    ensures Forward(w.holder, DeleteResumed(w).holder)
  {
    match w.holder.at
    case Begin => assert Forward(w.holder, DeleteBegun(w).holder);
    case Kill => assert Forward(w.holder, KillResumed(w).holder);
    case PlainDelete => assert Forward(w.holder, KillResumed(w).holder);
    case Pause(_) =>
    case Close =>
    case _ => ReconcileMovesOn(w);
  }

  lemma ReconcileMovesOn(w: World)
    requires Enabled(w, DeleteResumes) && AttemptsInv(w.holder) && w.holder.reply.Some?
    requires w.holder.at.AskExists? || w.holder.at.AskDelete? || w.holder.at.AskGone?
    ensures Forward(w.holder, ReconcileResumed(w).holder)
  {
  }

  /** Each move of the holder brings the end of its hold nearer, and nothing else touches the hold. */
  lemma HolderMovesOn(w: World, e: Event)
    requires Enabled(w, e) && AttemptsInv(w.holder)
    ensures AttemptsInv(Step(w, e).holder)
    ensures !w.holder.Free? && HolderMoves(e) ==> Forward(w.holder, Step(w, e).holder)
    ensures !w.holder.Free? && !HolderMoves(e) ==> HolderRank(Step(w, e).holder) == HolderRank(w.holder)
  {
    if e.DeleteResumes? {
      DeleteMovesOn(w);
    }
  }

  lemma {:induction false} AttemptsStayBounded(w: World, events: seq<Event>)
    requires AttemptsInv(w.holder) && Legal(w, events)
    ensures AttemptsInv(After(w, events).holder)
    decreases |events|
  {
    if events != [] {
      HolderMovesOn(w, events[0]);
      AttemptsStayBounded(Step(w, events[0]), events[1..]);
    }
  }

  /** Is the lock free at some point of the run? */
  predicate FreedWithin(w: World, events: seq<Event>)
    requires Legal(w, events)
    decreases |events|
  {
    w.holder.Free? || (events != [] && FreedWithin(Step(w, events[0]), events[1..]))
  }

  lemma {:induction false} MovesFreeTheLock(w: World, more: seq<Event>)
    requires AttemptsInv(w.holder) && Legal(w, more) && Moves(more) >= HolderRank(w.holder)
    ensures FreedWithin(w, more)
    decreases |more|
  {
    RankIsPositive(w.holder);
    if !w.holder.Free? {
      hide Step, Enabled, HolderRank;
      var after := Step(w, more[0]);
      HolderMovesOn(w, more[0]);
      if after.holder.Free? {
        assert FreedWithin(after, more[1..]);
      } else {
        MovesFreeTheLock(after, more[1..]);
      }
    }
  }

  lemma RankIsPositive(holder: Holder)
    requires AttemptsInv(holder)
    ensures holder.Free? <==> HolderRank(holder) <= 0
    ensures HolderRank(holder) <= 26
  {
  }

  /** Whoever takes the lifecycle lock gives it back: after at most 26 moves of the holder -- 23 for a
      `_delete` with its three attempts, whatever the server answers -- the lock has been free, however
      the other tasks interleave.  Until then the holder, or its own failing call, can move. */
  lemma LockIsGivenBack(events: seq<Event>, more: seq<Event>)
    requires Legal(INITIAL, events) && Legal(After(INITIAL, events), more)
    ensures var w := After(INITIAL, events);
            && HolderRank(w.holder) <= 26 && (w.holder.Deleting? ==> HolderRank(w.holder) <= 23)
            && (Moves(more) >= HolderRank(w.holder) ==> FreedWithin(w, more))
            && (!w.holder.Free? ==>
                  (exists e :: Enabled(w, e) && HolderMoves(e)) ||
                  (w.holder.SettingUp? && Enabled(w, FailureSettles(true)) &&
                   Enabled(Step(w, FailureSettles(true)), SetupEnds(true))))
  {
    AttemptsStayBounded(INITIAL, events);
    var w := After(INITIAL, events);
    RankIsPositive(w.holder);
    if Moves(more) >= HolderRank(w.holder) {
      MovesFreeTheLock(w, more);
    }
    if !w.holder.Free? {
      HolderCanMove(w);
    }
  }

  lemma HolderCanMove(w: World)
    requires !w.holder.Free?
    ensures (exists e :: Enabled(w, e) && HolderMoves(e)) ||
            (w.holder.SettingUp? && Enabled(w, FailureSettles(true)) &&
             Enabled(Step(w, FailureSettles(true)), SetupEnds(true)))
  {
    var e :=
      match w.holder
      case Creating(_, created) =>
        if created.Some? then StartResumes else CreateReplies(CreateRaised(CreateError(true, false)))
      case SettingUp => SetupEnds(true)
      case Deleting(_, at, _, reply) =>
        if reply.Some? || at.Begin? || at.Pause? then DeleteResumes else RemoteReplies(Raised);
    assert HolderMoves(e) && (Enabled(w, e) || (w.holder.SettingUp? && w.q.setupSettling));
  }

  // ----- things can settle -----

  /** What is left to do before things have settled. */
  function Unsettled(w: World): int {
    120 * w.q.settling + 60 * (w.q.poisonStops + w.q.expiryStops) + (if w.q.setupSettling then 1 else 0) +
    2 * HolderRank(w.holder)
  }

  /** The next event on the way there. */
  function Settling(w: World): Event
    requires !Quiet(w)
  {
    match w.holder
    case Creating(_, created) =>
      if created.Some? then StartResumes else CreateReplies(CreateRaised(CreateError(true, false)))
    case SettingUp => if w.q.setupSettling then FailureSettles(true) else SetupEnds(true)
    case Deleting(_, at, _, reply) =>
      if reply.Some? || at.Begin? || at.Pause? then DeleteResumes else RemoteReplies(Raised)
    case Free =>
      if w.q.settling > 0 then FailureSettles(false)
      else if w.q.poisonStops > 0 then StopAcquires(ByPoison)
      else StopAcquires(ByExpiry)
  }

  lemma SettlingSettles(w: World)
    requires AttemptsInv(w.holder) && !Quiet(w)
    ensures Enabled(w, Settling(w)) && AttemptsInv(Step(w, Settling(w)).holder)
    ensures 0 <= Unsettled(Step(w, Settling(w))) < Unsettled(w)
  {
    var e := Settling(w);
    assert Enabled(w, e);
    HolderMovesOn(w, e);
    RankIsPositive(Step(w, e).holder);
    RankIsPositive(w.holder);
    if HolderMoves(e) {
      MovesLeaveQueue(w, e);
      assert Step(w, e).holder.Free? ==> HolderRank(Step(w, e).holder) == 0;
    } else {
      QueueShrinks(w);
    }
  }

  lemma MovesLeaveQueue(w: World, e: Event)
    requires Enabled(w, e) && HolderMoves(e)
    ensures Step(w, e).q == w.q
  {
  }

  lemma QueueShrinks(w: World)
    requires AttemptsInv(w.holder) && !Quiet(w) && Enabled(w, Settling(w)) && !HolderMoves(Settling(w))
    ensures Unsettled(Step(w, Settling(w))) < Unsettled(w)
  {
  }

  /** From every reachable state there is a continuation after which things have settled, so what is said
      about settled states is never said about none. */
  lemma ThingsCanSettle(events: seq<Event>) returns (more: seq<Event>)
    requires Legal(INITIAL, events)
    ensures Legal(After(INITIAL, events), more) && Quiet(After(After(INITIAL, events), more))
  {
    AttemptsStayBounded(INITIAL, events);
    more := Settle(After(INITIAL, events));
  }

  lemma {:induction false} Settle(w: World) returns (more: seq<Event>)
    requires AttemptsInv(w.holder)
    ensures Legal(w, more) && Quiet(After(w, more))
    decreases Unsettled(w)
  {
    if Quiet(w) {
      more := [];
    } else {
      SettlingSettles(w);
      hide Settling, Step, Enabled, Unsettled, Quiet, AttemptsInv;
      var rest := Settle(Step(w, Settling(w)));
      more := Extend(w, Settling(w), rest);
    }
  }

  // ----- a stop takes effect -----

  /** The holder gets on, or a queued stop gets the lock. */
  predicate Acts(e: Event) {
    HolderMoves(e) || e.StopAcquires?
  }

  function Actions(events: seq<Event>): nat {
    if events == [] then 0 else (if Acts(events[0]) then 1 else 0) + Actions(events[1..])
  }

  function DetachRank(holder: Holder): nat {
    match holder
    case SettingUp => 3
    case Free => 2
    case _ => 1
  }

  /** Is the environment detached at some point of the run? */
  predicate DetachedWithin(w: World, events: seq<Event>)
    requires Legal(w, events)
    decreases |events|
  {
    !w.c.attached || (events != [] && DetachedWithin(Step(w, events[0]), events[1..]))
  }

  lemma ActsDetach(w: World, e: Event)
    requires Inv(w) && AttemptsInv(w.holder) && Enabled(w, e) && w.c.attached && Step(w, e).c.attached
    ensures DetachRank(Step(w, e).holder) <= DetachRank(w.holder) - if Acts(e) then 1 else 0
    ensures Acts(e) ==> DetachRank(w.holder) > 1
  {
  }

  lemma {:induction false} ActionsDetach(w: World, more: seq<Event>)
    requires Inv(w) && AttemptsInv(w.holder) && Legal(w, more) && Actions(more) >= DetachRank(w.holder)
    ensures DetachedWithin(w, more)
    decreases |more|
  {
    if w.c.attached {
      var e := more[0];
      StepKeepsInv(w, e);
      HolderMovesOn(w, e);
      if Step(w, e).c.attached {
        ActsDetach(w, e);
        hide Inv, AttemptsInv, Step, Enabled, DetachRank;
        ActionsDetach(Step(w, e), more[1..]);
      } else {
        assert DetachedWithin(Step(w, e), more[1..]);
      }
    }
  }

  /** A queued stop takes effect soon: in every run with three moves of the lock's holder or
      acquisitions by queued stops, the environment has been detached; and while it is attached and a
      stop is queued, such a move or acquisition is possible, or start's own failing call can go on. */
  lemma StopTakesEffect(events: seq<Event>, more: seq<Event>)
    requires Legal(INITIAL, events) && Legal(After(INITIAL, events), more) && After(INITIAL, events).c.attached
    ensures var w := After(INITIAL, events);
            && (Actions(more) >= DetachRank(w.holder) ==> DetachedWithin(w, more))
            && (w.q.poisonStops > 0 || w.q.expiryStops > 0 || w.q.userStops > 0 ==>
                  (exists e :: Enabled(w, e) && Acts(e)) ||
                  (w.holder.SettingUp? && Enabled(w, FailureSettles(true))))
  {
    var w := After(INITIAL, events);
    RunKeepsInv(INITIAL, events);
    AttemptsStayBounded(INITIAL, events);
    if Actions(more) >= DetachRank(w.holder) {
      ActionsDetach(w, more);
    }
    if !w.holder.Free? {
      HolderCanMove(w);
    } else {
      var kind := if w.q.poisonStops > 0 then ByPoison else if w.q.expiryStops > 0 then ByExpiry else ByUser;
      assert Acts(StopAcquires(kind));
    }
  }

  // ----- what a cleanup achieves -----

  /** What the server answers in a run. */
  function Answers(events: seq<Event>): seq<Reply> {
    if events == [] then []
    else (if events[0].RemoteReplies? then [events[0].reply] else []) + Answers(events[1..])
  }

  /** The lock is held up to the end of the run. */
  predicate Holds(w: World, events: seq<Event>)
    requires Legal(w, events)
    decreases |events|
  {
    events == [] || (!w.holder.Free? && Holds(Step(w, events[0]), events[1..]))
  }

  /** The answers to at most so many deletion calls, each made because the one before it raised, and
      then to the closing of what was detached: is the deletion still pending in the end? */
  predicate CallsEnd(calls: nat, closes: bool, answers: seq<Reply>, pending: bool)
    decreases calls
  {
    if calls == 0 then pending && |answers| == if closes then 1 else 0
    else
      && answers != [] && (answers[0].Done? || answers[0].Raised?)
      && if answers[0].Done? then !pending && |answers| == if closes then 2 else 1
         else CallsEnd(calls - 1, closes, answers[1..], pending)
  }

  /** The answers that confirm the cleanup of a create whose outcome is unknown: in some round the
      environment has been seen by then, is deleted, and is gone; no call before that raises. */
  predicate Confirms(seen: bool, answers: seq<Reply>, rounds: nat)
    decreases rounds, 2
  {
    && rounds > 0 && answers != [] && !answers[0].Raised?
    && ConfirmsDeletion(seen || answers[0].Yes?, answers[1..], rounds)
  }

  predicate ConfirmsDeletion(seen: bool, answers: seq<Reply>, rounds: nat)
    requires rounds > 0
    decreases rounds, 1
  {
    && answers != [] && !answers[0].Raised?
    && if seen then ConfirmsGone(answers[1..], rounds) else Confirms(false, answers[1..], rounds - 1)
  }

  predicate ConfirmsGone(answers: seq<Reply>, rounds: nat)
    requires rounds > 0
    decreases rounds, 0
  {
    && answers != [] && !answers[0].Raised?
    && (answers[0].No? || Confirms(true, answers[1..], rounds - 1))
  }

  function Heard(reply: Option<Reply>, answers: seq<Reply>): seq<Reply> {
    if reply.Some? then [reply.value] + answers else answers
  }

  /** How a `_delete` at this point ends if these are the answers still to come. */
  predicate EndsAs(c: Client, holder: Holder, answers: seq<Reply>, pending: bool)
    requires holder.Deleting? && AttemptsInv(holder)
  {
    var heard := Heard(holder.reply, answers);
    match holder.at
    case Begin => BeginEndsAs(c, answers, pending)
    case Kill => CallsEnd(2, holder.detached, heard, pending)
    case PlainDelete => CallsEnd(1, holder.detached, heard, pending)
    case Close => |heard| == 1 && pending == c.deletePending
    case AskExists(k) => pending == !Confirms(c.createSeen, heard, CREATE_RECONCILE_ATTEMPTS - k)
    case AskDelete(k) => pending == !ConfirmsDeletion(c.createSeen, heard, CREATE_RECONCILE_ATTEMPTS - k)
    case AskGone(k) => pending == !ConfirmsGone(heard, CREATE_RECONCILE_ATTEMPTS - k)
    case Pause(k) => pending == !Confirms(c.createSeen, answers, CREATE_RECONCILE_ATTEMPTS - k - 1)
  }

  predicate BeginEndsAs(c: Client, answers: seq<Reply>, pending: bool) {
    if !c.deletePending then answers == [] && !pending
    else if c.createUnconfirmed then
      pending == !(c.idKnown && Confirms(c.createSeen, answers, CREATE_RECONCILE_ATTEMPTS))
    else CallsEnd(if c.attached then 2 else 1, c.attached, answers, pending)
  }

  predicate SameCleanup(a: World, b: World) {
    && b.holder == a.holder && b.c.attached == a.c.attached && b.c.idKnown == a.c.idKnown
    && b.c.deletePending == a.c.deletePending && b.c.createUnconfirmed == a.c.createUnconfirmed
    && b.c.createSeen == a.c.createSeen
  }

  lemma OthersLeaveCleanup(w: World, e: Event)
    requires Enabled(w, e) && w.holder.Deleting? && !e.DeleteResumes? && !e.RemoteReplies?
    ensures SameCleanup(w, Step(w, e))
  {
  }

  /** Does the answer that has arrived decide the rest in this way? */
  predicate ResumesAs(w: World, w': World, answers: seq<Reply>, pending: bool)
    requires w.holder.Deleting? && AttemptsInv(w.holder)
  {
    if w'.holder.Free? then answers == [] && w'.c.deletePending == pending ==> EndsAs(w.c, w.holder, answers, pending)
    else
      && w'.holder.Deleting? && AttemptsInv(w'.holder)
      && (EndsAs(w'.c, w'.holder, answers, pending) ==> EndsAs(w.c, w.holder, answers, pending))
  }

  lemma BeginResumesAs(w: World, answers: seq<Reply>, pending: bool)
    requires Inv(w) && Enabled(w, DeleteResumes) && AttemptsInv(w.holder) && w.holder.at.Begin?
    ensures ResumesAs(w, DeleteBegun(w), answers, pending)
  {
  }

  lemma KillResumesAs(w: World, answers: seq<Reply>, pending: bool)
    requires Inv(w) && Enabled(w, DeleteResumes) && AttemptsInv(w.holder)
    requires w.holder.at.Kill? || w.holder.at.PlainDelete?
    ensures ResumesAs(w, KillResumed(w), answers, pending)
  {
    assert ([w.holder.reply.value] + answers)[1..] == answers;
  }

  lemma ReconcileResumesAs(w: World, answers: seq<Reply>, pending: bool)
    requires Inv(w) && Enabled(w, DeleteResumes) && AttemptsInv(w.holder)
    requires w.holder.at.AskExists? || w.holder.at.AskDelete? || w.holder.at.AskGone?
    ensures ResumesAs(w, ReconcileResumed(w), answers, pending)
  {
    assert ([w.holder.reply.value] + answers)[1..] == answers;
  }

  lemma DeleteResumesAs(w: World, answers: seq<Reply>, pending: bool)
    requires Inv(w) && Enabled(w, DeleteResumes) && AttemptsInv(w.holder)
    ensures ResumesAs(w, Step(w, DeleteResumes), answers, pending)
  {
    match w.holder.at
    case Begin => BeginResumesAs(w, answers, pending);
    case Kill => KillResumesAs(w, answers, pending);
    case PlainDelete => KillResumesAs(w, answers, pending);
    case Pause(_) =>
    case Close =>
    case _ => ReconcileResumesAs(w, answers, pending);
  }

  lemma AnswerArrives(w: World, reply: Reply, answers: seq<Reply>, pending: bool)
    requires Enabled(w, RemoteReplies(reply)) && AttemptsInv(w.holder)
    ensures var w' := Step(w, RemoteReplies(reply));
            && w'.holder.Deleting? && AttemptsInv(w'.holder)
            && EndsAs(w'.c, w'.holder, answers, pending) == EndsAs(w.c, w.holder, [reply] + answers, pending)
  {
    assert w.holder.reply.None? && !w.holder.at.Begin? && !w.holder.at.Pause?;
  }

  lemma EndsAsReads(a: World, b: World, answers: seq<Reply>, pending: bool)
    requires SameCleanup(a, b) && a.holder.Deleting? && AttemptsInv(a.holder)
    ensures EndsAs(b.c, b.holder, answers, pending) == EndsAs(a.c, a.holder, answers, pending)
  {
  }

  /** The answers decide how a `_delete` ends, whatever the other tasks do meanwhile. */
  lemma {:induction false} HoldEndsAs(w: World, more: seq<Event>)
    requires Inv(w) && AttemptsInv(w.holder) && w.holder.Deleting?
    requires Legal(w, more) && Holds(w, more) && After(w, more).holder.Free?
    ensures EndsAs(w.c, w.holder, Answers(more), After(w, more).c.deletePending)
    decreases |more|
  {
    hide Inv, AttemptsInv, EndsAs, Step, Enabled;
    var e, after, rest := more[0], Step(w, more[0]), more[1..];
    var pending := After(after, rest).c.deletePending;
    StepKeepsInv(w, e);
    HolderMovesOn(w, e);
    assert !e.RemoteReplies? ==> Answers(more) == Answers(rest);
    if e.DeleteResumes? {
      DeleteResumesAs(w, Answers(rest), pending);
      if after.holder.Free? {
        assert rest == [];
      } else {
        HoldEndsAs(after, rest);
      }
    } else if e.RemoteReplies? {
      AnswerArrives(w, e.reply, Answers(rest), pending);
      HoldEndsAs(after, rest);
    } else {
      OthersLeaveCleanup(w, e);
      EndsAsReads(w, after, Answers(rest), pending);
      HoldEndsAs(after, rest);
    }
  }

  // ----- the point at which the lock is free again -----

  lemma {:induction false} FreedAtFirst(w: World, more: seq<Event>) returns (k: nat)
    requires Legal(w, more) && FreedWithin(w, more)
    ensures k <= |more| && Legal(w, more[..k]) && Holds(w, more[..k]) && After(w, more[..k]).holder.Free?
    decreases |more|
  {
    hide Step, Enabled;
    if w.holder.Free? {
      k := 0;
    } else {
      var rest := FreedAtFirst(Step(w, more[0]), more[1..]);
      k := rest + 1;
      assert more[..k][1..] == more[1..][..rest];
    }
  }

  /** The events after which the holder of the lock deletes what there is: a stop that gets the lock, a
      create that was cancelled, and a set-up that fails or finds a fatal error. */
  predicate StartsCleanup(w: World, e: Event)
    requires Enabled(w, e)
  {
    match e
    case StopAcquires(_) => true
    case StartResumes => w.holder.cancelled
    case SetupEnds(ok) => !ok || w.c.fatal.Some?
    case _ => false
  }

  lemma CleanupBegins(w: World, e: Event)
    requires Enabled(w, e) && StartsCleanup(w, e)
    ensures AboutToDelete(Step(w, e)) && AttemptsInv(Step(w, e).holder) && HolderRank(Step(w, e).holder) == 23
  {
  }

  /** The first so many answers are all failures. */
  predicate AllRaise(answers: seq<Reply>, calls: nat) {
    |answers| >= calls && forall i :: 0 <= i < calls ==> answers[i].Raised?
  }

  lemma {:induction false} CallsEndExactly(calls: nat, closes: bool, answers: seq<Reply>, pending: bool)
    requires CallsEnd(calls, closes, answers, pending)
    ensures pending <==> AllRaise(answers, calls)
    ensures answers != [] && calls > 0 ==>
              (answers[0].Done? ==> |answers| == if closes then 2 else 1)
    ensures calls > 0 ==> answers != []
    decreases calls
  {
    if calls > 0 && !answers[0].Done? {
      CallsEndExactly(calls - 1, closes, answers[1..], pending);
      assert forall i :: 1 <= i < |answers| ==> answers[i] == answers[1..][i - 1];
    }
  }

  /** A cleanup, by `stop` or by a rollback, whatever the other tasks do meanwhile: after at most 23 moves
      of the holder the lock is free, and then the answers of the server have decided.  An environment
      that is known to exist is killed, or deleted where the kill raises or there is no handle to kill; it
      stays pending only if every one of these calls raises; a handle is closed afterwards.  Where the
      outcome of the create is unknown the cleanup is accepted exactly if its id is known and the answers
      confirm it.  What is not pending any more is gone. */
  lemma CleanupEndsAsAnswered(events: seq<Event>, e: Event, more: seq<Event>) returns (k: nat)
    requires Legal(INITIAL, events) && Enabled(After(INITIAL, events), e) && StartsCleanup(After(INITIAL, events), e)
    requires Legal(Step(After(INITIAL, events), e), more) && Moves(more) >= 23
    ensures k <= |more| && Legal(Step(After(INITIAL, events), e), more[..k])
    ensures var w := Step(After(INITIAL, events), e);
            var answers, end := Answers(more[..k]), After(w, more[..k]);
            && end.holder.Free?
            && (!w.c.deletePending ==> answers == [] && !end.c.deletePending)
            && (w.c.deletePending && !w.c.createUnconfirmed ==>
                  && answers != [] && (answers[0].Done? ==> |answers| == if w.c.attached then 2 else 1)
                  && (end.c.deletePending <==> AllRaise(answers, if w.c.attached then 2 else 1)))
            && (w.c.deletePending && w.c.createUnconfirmed ==>
                  (!end.c.deletePending <==>
                   w.c.idKnown && Confirms(w.c.createSeen, answers, CREATE_RECONCILE_ATTEMPTS)))
            && (!end.c.deletePending ==> !end.remote.alive && !end.remote.create.InFlight?)
  {
    var before := After(INITIAL, events);
    var w := Step(before, e);
    RunKeepsInv(INITIAL, events);
    StepKeepsInv(before, e);
    CleanupBegins(before, e);
    hide Step, Enabled, StartsCleanup, Inv, Confirms, CallsEnd;
    MovesFreeTheLock(w, more);
    k := FreedAtFirst(w, more);
    HoldEndsAs(w, more[..k]);
    RunKeepsInv(w, more[..k]);
    var answers, end := Answers(more[..k]), After(w, more[..k]);
    if !end.c.deletePending {
      GoneUnlessPending(end);
    }
    if w.c.deletePending && !w.c.createUnconfirmed {
      CallsEndExactly(if w.c.attached then 2 else 1, w.c.attached, answers, end.c.deletePending);
    }
  }

  /** Seen, deleted and gone in one round is enough; without having been seen no answers are. */
  lemma {:induction false} SeenDeletedGone(seen: bool, answers: seq<Reply>, rounds: nat)
    ensures rounds > 0 && [Yes, Done, No] <= answers ==> Confirms(seen, answers, rounds)
    ensures Confirms(seen, answers, rounds) ==> No in answers && (seen || Yes in answers)
    decreases rounds
  {
    if rounds > 0 && [Yes, Done, No] <= answers {
      assert ConfirmsGone(answers[1..][1..], rounds);
      assert ConfirmsDeletion(true, answers[1..], rounds);
    }
    if Confirms(seen, answers, rounds) {
      assert ConfirmsDeletion(seen || answers[0].Yes?, answers[1..], rounds);
      var gone := answers[1..][1..];
      if seen || answers[0].Yes? {
        assert ConfirmsGone(gone, rounds);
        if !gone[0].No? {
          SeenDeletedGone(true, gone[1..], rounds - 1);
        }
      } else {
        SeenDeletedGone(false, gone, rounds - 1);
      }
    }
  }

  /** What start remembers of the constructor call: an environment that was returned is confirmed and
      attached; an outcome that is unknown is pending and unconfirmed, under the id that came with it; and
      of a definite error nothing is pending. */
  lemma CreateIsRemembered(events: seq<Event>)
    requires Legal(INITIAL, events) && Enabled(After(INITIAL, events), StartResumes)
    ensures var w := After(INITIAL, events);
            var c := Step(w, StartResumes).c;
            match w.holder.created.value
            case Created => c.attached && c.deletePending && !c.createUnconfirmed && c.idKnown
            case CreateRaised(error) =>
              && !c.attached && c.deletePending == c.createUnconfirmed == error.unknown
              && c.idKnown == (error.unknown && error.hasId)
  {
    RunKeepsInv(INITIAL, events);
    CreateRecorded(After(INITIAL, events));
  }

  lemma CreateRecorded(w: World)
    requires Inv(w) && Enabled(w, StartResumes)
    ensures var c := Step(w, StartResumes).c;
            match w.holder.created.value
            case Created => c.attached && c.deletePending && !c.createUnconfirmed && c.idKnown
            case CreateRaised(error) =>
              && !c.attached && c.deletePending == c.createUnconfirmed == error.unknown
              && c.idKnown == (error.unknown && error.hasId)
  {
  }

  lemma GoneUnlessPending(w: World)
    requires Inv(w) && w.holder.Free? && !w.c.deletePending
    ensures !w.remote.alive && !w.remote.create.InFlight?
  {
  }

  // ----- why every step keeps the invariant -----

  predicate ByServer(e: Event) {
    e.CreateReplies? || e.RemoteReplies? || e.CreateLands? || e.CreateIsLost? || e.RemoteVanishes?
  }

  predicate ByOtherTask(e: Event) {
    e.StopCalled? || e.StopCallCancelled? || e.TimerFires? || e.DataPlaneFails? || e.FailureSettles?
  }

  lemma ServerKeepsInv(w: World, e: Event)
    requires Inv(w) && Enabled(w, e) && ByServer(e)
    ensures Inv(Step(w, e))
  {
  }

  lemma OtherTaskKeepsInv(w: World, e: Event)
    requires Inv(w) && Enabled(w, e) && ByOtherTask(e)
    ensures Inv(Step(w, e))
  {
  }

  lemma StartKeepsInv(w: World, e: Event)
    requires Inv(w) && Enabled(w, e)
    requires e.StartCalled? || e.StartCancelled? || e.SetupEnds? || e.StopAcquires?
    ensures Inv(Step(w, e))
  {
    if e.StopAcquires? {
      StopAcquiresKeepsInv(w, e.kind);
    }
  }

  lemma StopAcquiresKeepsInv(w: World, kind: StopKind)
    requires Inv(w) && Enabled(w, StopAcquires(kind))
    ensures Inv(Step(w, StopAcquires(kind)))
  {
  }

  lemma StartResumedKeepsInv(w: World)
    requires Inv(w) && Enabled(w, StartResumes)
    ensures Inv(StartResumed(w))
  {
  }

  /** Leaving `_delete` at any point keeps the invariant: whatever is pending stays pending. */
  lemma DeleteEndedKeepsInv(w: World)
    requires w.holder.Deleting? && !w.c.attached
    requires Inv(w.(holder := w.holder.(at := Close, reply := None)))
    ensures Inv(DeleteEnded(w))
  {
  }

  lemma DeleteBegunKeepsInv(w: World)
    requires Inv(w) && w.holder.Deleting? && w.holder.at.Begin?
    ensures Inv(DeleteBegun(w))
  {
    DeleteBegunDetaches(w);
    DeleteBegunKeepsDeleteInv(w);
    hide DeleteBegun, DeleteInv;
  }

  lemma DeleteBegunDetaches(w: World)
    requires w.holder.Deleting? && w.holder.at.Begin?
    ensures var w' := DeleteBegun(w);
            && w'.remote == w.remote && w'.q == w.q && w'.h == w.h
            && w'.c.(initializing := w.c.initializing) == w.c.(attached := false)
            && (w'.c.initializing == w.c.initializing || (w'.holder.Free? && w.holder.owner.FailedStart?))
            && (w'.holder.Free? || (w'.holder.Deleting? && w'.holder.owner == w.holder.owner && !w'.holder.at.Begin?))
            && (w'.holder.Free? && w.holder.owner.FailedStart? ==> !w'.c.initializing)
  {
  }

  lemma DeleteBegunKeepsDeleteInv(w: World)
    requires Inv(w) && w.holder.Deleting? && w.holder.at.Begin?
    ensures DeleteInv(DeleteBegun(w))
  {
    hide LockInv, DestroyerInv, RemoteInv;
  }

  lemma ReconcileResumedKeepsInv(w: World)
    requires Inv(w) && Enabled(w, DeleteResumes) && w.holder.reply.Some?
    ensures w.holder.at.AskExists? || w.holder.at.AskDelete? ==> Inv(ReconcileResumed(w))
  {
    if w.holder.at.AskExists? || w.holder.at.AskDelete? {
      DeleteEndedKeepsInv(w);
    }
  }

  lemma AskGoneResumedKeepsInv(w: World)
    requires Inv(w) && Enabled(w, DeleteResumes) && w.holder.at.AskGone?
    ensures Inv(ReconcileResumed(w))
  {
    if w.holder.reply.value.No? {
      DeleteEndedKeepsInv(w.(c := w.c.(createUnconfirmed := false, deletePending := false)));
    } else {
      DeleteEndedKeepsInv(w);
    }
  }

  lemma KillResumedKeepsInv(w: World)
    requires Inv(w) && Enabled(w, DeleteResumes) && (w.holder.at.Kill? || w.holder.at.PlainDelete?)
    ensures Inv(KillResumed(w))
  {
    if w.holder.reply.value.Done? {
      DeleteEndedKeepsInv(w.(c := w.c.(deletePending := false)));
    } else {
      DeleteEndedKeepsInv(w);
    }
  }

  lemma DeleteResumedKeepsInv(w: World)
    requires Inv(w) && Enabled(w, DeleteResumes)
    ensures Inv(DeleteResumed(w))
  {
    match w.holder.at
    case Begin => DeleteBegunKeepsInv(w);
    case Close =>
    case Pause(_) =>
    case AskGone(_) => AskGoneResumedKeepsInv(w);
    case Kill => KillResumedKeepsInv(w);
    case PlainDelete => KillResumedKeepsInv(w);
    case _ => ReconcileResumedKeepsInv(w);
  }

  lemma StepKeepsInv(w: World, e: Event)
    requires Inv(w) && Enabled(w, e)
    ensures Inv(Step(w, e))
  {
    if ByServer(e) {
      ServerKeepsInv(w, e);
    } else if ByOtherTask(e) {
      OtherTaskKeepsInv(w, e);
    } else if e.StartResumes? {
      StartResumedKeepsInv(w);
    } else if e.DeleteResumes? {
      DeleteResumedKeepsInv(w);
    } else {
      StartKeepsInv(w, e);
    }
  }

  lemma {:induction false} RunKeepsInv(w: World, events: seq<Event>)
    requires Inv(w) && Legal(w, events)
    ensures Inv(After(w, events))
    decreases |events|
  {
    if events != [] {
      StepKeepsInv(w, events[0]);
      RunKeepsInv(Step(w, events[0]), events[1..]);
    }
  }
}

/** Routing log lines to per-run files through a bounded queue and one writer thread.

    Any number of threads register, unregister and emit.  Each call first works under the dispatch
    lock and then, as a separate step, puts one operation on the queue; the writer takes operations
    off it.  The scheduler interleaves all of these as it likes. */
module LogDispatch {
  import opened Sequences

  type Id = string
  type Path = string
  type Thread = nat

  const QUEUE_MAX: nat := 100_000

  /** `record` identifies the log record that the text was formatted from. */
  datatype Line = Line(record: nat, text: string)

  datatype Op = Open(id: Id, path: Path) | Write(id: Id, line: Line) | Close(id: Id)

  /** How the file system will answer the writer: an open may fail before or after the previous
      file of that id is closed. */
  datatype Outcome = Fine | FailsEarly | FailsLate

  datatype Item = Item(op: Op, outcome: Outcome)

  // ----- the writer thread -----

  /** `files` are the open files by id; `disk` holds what was written, buffered or not. */
  datatype Writer = Writer(files: map<Id, Path>, disk: map<Path, seq<Line>>)

  function Content(w: Writer, path: Path): seq<Line> {
    if path in w.disk then w.disk[path] else []
  }

  function Apply(w: Writer, item: Item): Writer {
    match item.op
    case Open(id, path) =>
      if item.outcome.Fine? then Writer(w.files[id := path], w.disk[path := Content(w, path)])
      else if item.outcome.FailsEarly? then w
      else w.(files := w.files - {id})
    case Write(id, line) =>
      if id in w.files && item.outcome.Fine? then
        w.(disk := w.disk[w.files[id] := Content(w, w.files[id]) + [line]])
      else w
    case Close(id) => w.(files := w.files - {id})
  }

  function Replay(w: Writer, items: seq<Item>): Writer
    decreases |items|
  {
    if items == [] then w else Replay(Apply(w, items[0]), items[1..])
  }

  lemma {:induction false} ReplaySnoc(w: Writer, items: seq<Item>, item: Item)
    ensures Replay(w, items + [item]) == Apply(Replay(w, items), item)
    decreases |items|
  {
    if items == [] {
      assert [item][1..] == [];
      assert Replay(Apply(w, item), []) == Apply(w, item);
    } else {
      assert (items + [item])[1..] == items[1..] + [item];
      ReplaySnoc(Apply(w, items[0]), items[1..], item);
    }
  }

  // ----- the whole system -----

  datatype Dispatch = Dispatch(logIds: set<Id>, dispatched: set<nat>, queue: seq<Item>, writer: Writer, dropped: nat)

  /** What was sent: per id, the lines that passed the check, in the order of their put attempts. */
  datatype History = History(sent: map<Id, seq<Line>>, attempts: nat, applied: nat)

  /** `pending` are the threads between their locked region and their put. */
  datatype System = System(d: Dispatch, pending: map<Thread, Op>, h: History)

  datatype Event =
    | Register(thread: Thread, id: Id, path: Path)
    | Unregister(thread: Thread, id: Id)
    | Emit(thread: Thread, scope: Option<Id>, line: Line, formats: bool)
    | Put(thread: Thread, outcome: Outcome)
    | Take

  predicate Enabled(s: System, e: Event) {
    match e
    case Register(thread, _, _) => thread !in s.pending
    case Unregister(thread, _) => thread !in s.pending
    case Emit(thread, _, _, _) => thread !in s.pending
    case Put(thread, _) => thread in s.pending
    case Take => s.d.queue != []
  }

  function Sent(h: History, id: Id): seq<Line> {
    if id in h.sent then h.sent[id] else []
  }

  /** An emit goes on to the queue: the record is new, its id is registered and it can be formatted. */
  predicate Passes(d: Dispatch, e: Event)
    requires e.Emit?
  {
    e.line.record !in d.dispatched && e.scope.Some? && e.scope.value in d.logIds && e.formats
  }

  function Submitted(d: Dispatch, item: Item): Dispatch {
    if |d.queue| < QUEUE_MAX then d.(queue := d.queue + [item]) else d.(dropped := d.dropped + 1)
  }

  function Step(s: System, e: Event): System
    requires Enabled(s, e)
  {
    match e
    case Register(thread, id, path) =>
      s.(d := s.d.(logIds := s.d.logIds + {id}), pending := s.pending[thread := Open(id, path)])
    case Unregister(thread, id) =>
      s.(d := s.d.(logIds := s.d.logIds - {id}), pending := s.pending[thread := Close(id)])
    case Emit(thread, scope, line, formats) =>
      s.(d := s.d.(dispatched := s.d.dispatched + {line.record}),
         pending := if Passes(s.d, e) then s.pending[thread := Write(scope.value, line)] else s.pending)
    case Put(thread, outcome) =>
      var op := s.pending[thread];
      System(Submitted(s.d, Item(op, outcome)), s.pending - {thread},
             s.h.(attempts := s.h.attempts + 1,
                  sent := if op.Write? then s.h.sent[op.id := Sent(s.h, op.id) + [op.line]] else s.h.sent))
    case Take =>
      s.(d := s.d.(queue := s.d.queue[1..], writer := Apply(s.d.writer, s.d.queue[0])),
         h := s.h.(applied := s.h.applied + 1))
  }

  predicate Legal(s: System, events: seq<Event>)
    decreases |events|
  {
    events == [] || (Enabled(s, events[0]) && Legal(Step(s, events[0]), events[1..]))
  }

  function After(s: System, events: seq<Event>): System
    requires Legal(s, events)
    decreases |events|
  {
    if events == [] then s else After(Step(s, events[0]), events[1..])
  }

  const START: System := System(Dispatch({}, {}, [], Writer(map[], map[]), 0), map[], History(map[], 0, 0))

  /** What the files hold once the writer has caught up with the queue. */
  function Settled(s: System): Writer {
    Replay(s.d.writer, s.d.queue)
  }

  /** The queue only delays: taking an operation off it does not change where things settle, and a
      put has the effect that the writer would have had at once, or none if the queue is full. */
  lemma QueueOnlyDelays(s: System, e: Event)
    requires Enabled(s, e)
    ensures Settled(Step(s, e)) ==
            if e.Put? && |s.d.queue| < QUEUE_MAX then Apply(Settled(s), Item(s.pending[e.thread], e.outcome))
            else Settled(s)
  {
    if e.Put? {
      ReplaySnoc(s.d.writer, s.d.queue, Item(s.pending[e.thread], e.outcome));
    }
  }

  // ----- every file is an in-order part of what was sent under its id -----

  predicate Subsequence<T(==)>(part: seq<T>, whole: seq<T>)
    decreases |whole|
  {
    part == [] ||
    (whole != [] &&
     (Subsequence(part, whole[..|whole| - 1]) ||
      (part[|part| - 1] == whole[|whole| - 1] && Subsequence(part[..|part| - 1], whole[..|whole| - 1]))))
  }

  lemma SubsequenceGrow<T>(part: seq<T>, whole: seq<T>, x: T)
    requires Subsequence(part, whole)
    ensures Subsequence(part, whole + [x]) && Subsequence(part + [x], whole + [x])
  {
    assert (whole + [x])[..|whole|] == whole;
    assert (part + [x])[..|part|] == part;
  }

  /** Each path belongs to one id: nobody registers it under another. */
  predicate KeepsOwners(owner: map<Path, Id>, e: Event) {
    e.Register? ==> e.path in owner && owner[e.path] == e.id
  }

  predicate OpenedByOwner(owner: map<Path, Id>, s: System) {
    && (forall thread :: thread in s.pending && s.pending[thread].Open? ==>
          s.pending[thread].path in owner && owner[s.pending[thread].path] == s.pending[thread].id)
    && (forall id :: id in Settled(s).files ==>
          Settled(s).files[id] in owner && owner[Settled(s).files[id]] == id)
    && (forall path :: path in Settled(s).disk ==> path in owner)
  }

  predicate FilesFollowSent(owner: map<Path, Id>, s: System) {
    forall path :: path in Settled(s).disk && path in owner ==>
      Subsequence(Settled(s).disk[path], Sent(s.h, owner[path]))
  }

  /** Every operation ever put is applied, still queued, or counted as dropped. */
  predicate CountsAgree(s: System) {
    s.h.attempts == s.h.applied + |s.d.queue| + s.d.dropped && |s.d.queue| <= QUEUE_MAX
  }

  predicate Inv(owner: map<Path, Id>, s: System) {
    OpenedByOwner(owner, s) && FilesFollowSent(owner, s) && CountsAgree(s)
  }

  lemma PutKeepsFiles(owner: map<Path, Id>, s: System, e: Event)
    requires Inv(owner, s) && e.Put? && Enabled(s, e)
    ensures FilesFollowSent(owner, Step(s, e))
  {
    QueueOnlyDelays(s, e);
    var op := s.pending[e.thread];
    var s' := Step(s, e);
    forall path | path in Settled(s').disk && path in owner
      ensures Subsequence(Settled(s').disk[path], Sent(s'.h, owner[path]))
    {
      var before := Content(Settled(s), path);
      assert Subsequence(before, Sent(s.h, owner[path]));
      if op.Write? && op.id == owner[path] {
        SubsequenceGrow(before, Sent(s.h, op.id), op.line);
      }
    }
  }

  lemma StepKeepsInv(owner: map<Path, Id>, s: System, e: Event)
    requires Inv(owner, s) && Enabled(s, e) && KeepsOwners(owner, e)
    ensures Inv(owner, Step(s, e))
  {
    QueueOnlyDelays(s, e);
    if e.Put? {
      PutKeepsFiles(owner, s, e);
    }
  }

  lemma {:induction false} FilesOnlyGrow(w: Writer, items: seq<Item>, path: Path)
    ensures Content(w, path) <= Content(Replay(w, items), path)
    decreases |items|
  {
    if items != [] {
      FilesOnlyGrow(Apply(w, items[0]), items[1..], path);
    }
  }

  lemma {:induction false} SubsequenceOfPrefix<T>(prefix: seq<T>, part: seq<T>, whole: seq<T>)
    requires prefix <= part && Subsequence(part, whole)
    ensures Subsequence(prefix, whole)
    decreases |whole|
  {
    if prefix != [] && prefix != part {
      var shorter := whole[..|whole| - 1];
      if Subsequence(part, shorter) {
        SubsequenceOfPrefix(prefix, part, shorter);
      } else {
        SubsequenceOfPrefix(prefix, part[..|part| - 1], shorter);
      }
    }
  }

  // ----- no record is written twice -----

  predicate OncePerRecord(w: Writer) {
    forall p, q, i, j ::
      (p in w.disk && q in w.disk && 0 <= i < |w.disk[p]| && 0 <= j < |w.disk[q]| &&
       w.disk[p][i].record == w.disk[q][j].record) ==> p == q && i == j
  }

  predicate WrittenAreDispatched(s: System) {
    forall p, i :: p in Settled(s).disk && 0 <= i < |Settled(s).disk[p]| ==>
      Settled(s).disk[p][i].record in s.d.dispatched
  }

  /** A line that waits for its put is on its way from one thread only and in no file yet. */
  predicate PendingFresh(s: System) {
    && (forall t :: t in s.pending && s.pending[t].Write? ==> s.pending[t].line.record in s.d.dispatched)
    && (forall t, u :: (t in s.pending && u in s.pending && s.pending[t].Write? && s.pending[u].Write? &&
                        s.pending[t].line.record == s.pending[u].line.record) ==> t == u)
    && (forall t, p, i :: (t in s.pending && s.pending[t].Write? &&
                           p in Settled(s).disk && 0 <= i < |Settled(s).disk[p]|) ==>
            Settled(s).disk[p][i].record != s.pending[t].line.record)
  }

  predicate OnceInv(s: System) {
    OncePerRecord(Settled(s)) && WrittenAreDispatched(s) && PendingFresh(s)
  }

  /** One more line whose record is not on disk yet. */
  lemma AppendKeepsOnce(w: Writer, item: Item)
    requires OncePerRecord(w)
    requires item.op.Write? ==>
               forall p, i :: p in w.disk && 0 <= i < |w.disk[p]| ==> w.disk[p][i].record != item.op.line.record
    ensures OncePerRecord(Apply(w, item))
  {
  }

  lemma PutKeepsFresh(s: System, e: Event)
    requires OnceInv(s) && e.Put? && Enabled(s, e)
    ensures PendingFresh(Step(s, e)) && WrittenAreDispatched(Step(s, e))
  {
    QueueOnlyDelays(s, e);
  }

  lemma StepKeepsOnce(s: System, e: Event)
    requires OnceInv(s) && Enabled(s, e)
    ensures OnceInv(Step(s, e))
  {
    QueueOnlyDelays(s, e);
    if e.Put? {
      PutKeepsFresh(s, e);
      AppendKeepsOnce(Settled(s), Item(s.pending[e.thread], e.outcome));
    }
  }

  lemma {:induction false} RunKeeps(owner: map<Path, Id>, s: System, events: seq<Event>)
    requires OnceInv(s) && Legal(s, events)
    ensures OnceInv(After(s, events))
    ensures Inv(owner, s) && (forall e :: e in events ==> KeepsOwners(owner, e)) ==> Inv(owner, After(s, events))
    decreases |events|
  {
    if events != [] {
      var e := events[0];
      if Inv(owner, s) && KeepsOwners(owner, e) {
        StepKeepsInv(owner, s, e);
      }
      StepKeepsOnce(s, e);
      RunKeeps(owner, Step(s, e), events[1..]);
    }
  }

  /** In every interleaving, whatever is refused or fails: each file holds, in order, some of the
      lines sent under the id it belongs to and no others, and the drop counter accounts for every
      operation that is neither applied nor still queued. */
  lemma FilesAreLogs(owner: map<Path, Id>, events: seq<Event>, path: Path)
    requires Legal(START, events) && forall e :: e in events ==> KeepsOwners(owner, e)
    ensures var s := After(START, events);
            && (Content(s.d.writer, path) == [] ||
                (path in owner && Subsequence(Content(s.d.writer, path), Sent(s.h, owner[path]))))
            && s.d.dropped == s.h.attempts - s.h.applied - |s.d.queue|
            && |s.d.queue| <= QUEUE_MAX
  {
    RunKeeps(owner, START, events);
    var s := After(START, events);
    FilesOnlyGrow(s.d.writer, s.d.queue, path);
    if Content(s.d.writer, path) != [] {
      SubsequenceOfPrefix(Content(s.d.writer, path), Content(Settled(s), path), Sent(s.h, owner[path]));
    }
  }

  /** A record handed to the dispatch any number of times, by any loggers, is at most once on disk. */
  lemma RecordsWrittenOnce(events: seq<Event>)
    requires Legal(START, events)
    ensures OncePerRecord(Settled(After(START, events)))
    ensures OncePerRecord(After(START, events).d.writer)
  {
    RunKeeps(map[], START, events);
    var s := After(START, events);
    forall path { FilesOnlyGrow(s.d.writer, s.d.queue, path); }
    PrefixKeepsOnce(s.d.writer, Settled(s));
  }

  lemma PrefixKeepsOnce(w: Writer, later: Writer)
    requires OncePerRecord(later) && forall path :: Content(w, path) <= Content(later, path)
    ensures OncePerRecord(w)
  {
    forall p, q, i, j | p in w.disk && q in w.disk && 0 <= i < |w.disk[p]| && 0 <= j < |w.disk[q]| &&
                        w.disk[p][i].record == w.disk[q][j].record
      ensures p == q && i == j
    {
      assert Content(w, p) <= Content(later, p) && Content(w, q) <= Content(later, q);
      assert later.disk[p][i].record == later.disk[q][j].record;
    }
  }

  // ----- which lines are lost -----

  predicate PutsLine(s: System, e: Event, id: Id)
    requires Enabled(s, e)
  {
    e.Put? && s.pending[e.thread].Write? && s.pending[e.thread].id == id
  }

  /** The queue has room, the write succeeds, and the id's file is open when the writer comes to it. */
  predicate Lands(s: System, e: Event)
    requires Enabled(s, e) && e.Put?
  {
    |s.d.queue| < QUEUE_MAX && e.outcome.Fine? && s.pending[e.thread].id in Settled(s).files
  }

  /** A put of a line reaches a file exactly under that guard, and then that file grows by that line
      and no other changes.  It is lost without being counted exactly if there was room and one of the
      other two parts of the guard fails. */
  lemma LineLandsExactly(s: System, e: Event)
    requires Enabled(s, e) && e.Put? && s.pending[e.thread].Write?
    ensures var before, after := Settled(s), Settled(Step(s, e));
            var op := s.pending[e.thread];
            && (after.disk != before.disk <==> Lands(s, e))
            && (Lands(s, e) ==>
                  var path := before.files[op.id];
                  after.disk == before.disk[path := Content(before, path) + [op.line]])
            && (after.disk == before.disk && Step(s, e).d.dropped == s.d.dropped <==>
                  |s.d.queue| < QUEUE_MAX && !(e.outcome.Fine? && op.id in before.files))
  {
    QueueOnlyDelays(s, e);
    if Lands(s, e) {
      var path := Settled(s).files[s.pending[e.thread].id];
      assert |Content(Settled(Step(s, e)), path)| == |Content(Settled(s), path)| + 1;
    }
  }

  /** What a put makes of the open file of an id: an open that succeeds replaces it, one that fails leaves it
      or closes it, depending on when it fails, and a close closes it. */
  function Turned(s: System, e: Event, id: Id, now: Option<Path>): Option<Path>
    requires Enabled(s, e)
  {
    if !e.Put? || s.pending[e.thread].id != id || |s.d.queue| >= QUEUE_MAX then now
    else
      match s.pending[e.thread]
      case Open(_, path) => if e.outcome.Fine? then Some(path) else if e.outcome.FailsLate? then None else now
      case Write(_, _) => now
      case Close(_) => None
  }

  function OpenAfter(s: System, events: seq<Event>, id: Id, now: Option<Path>): Option<Path>
    requires Legal(s, events)
    decreases |events|
  {
    if events == [] then now else OpenAfter(Step(s, events[0]), events[1..], id, Turned(s, events[0], id, now))
  }

  function OpenFile(w: Writer, id: Id): Option<Path> {
    if id in w.files then Some(w.files[id]) else None
  }

  /** Which file an id has open, where things settle, is decided by its puts of opens and closes alone. */
  lemma {:induction false} OpenExactly(s: System, events: seq<Event>, id: Id)
    requires Legal(s, events)
    ensures OpenFile(Settled(After(s, events)), id) == OpenAfter(s, events, id, OpenFile(Settled(s), id))
    decreases |events|
  {
    if events != [] {
      QueueOnlyDelays(s, events[0]);
      assert OpenFile(Settled(Step(s, events[0])), id) == Turned(s, events[0], id, OpenFile(Settled(s), id));
      hide Step, Settled, Turned, Enabled;
      OpenExactly(Step(s, events[0]), events[1..], id);
    }
  }

  /** The lines of an id whose puts met the guard, in the order of the puts. */
  function Landed(s: System, events: seq<Event>, id: Id): seq<Line>
    requires Legal(s, events)
    decreases |events|
  {
    if events == [] then []
    else
      (if PutsLine(s, events[0], id) && Lands(s, events[0]) then [s.pending[events[0].thread].line] else []) +
      Landed(Step(s, events[0]), events[1..], id)
  }

  /** How many puts of lines of an id did not. */
  function Lost(s: System, events: seq<Event>, id: Id): nat
    requires Legal(s, events)
    decreases |events|
  {
    if events == [] then 0
    else
      (if PutsLine(s, events[0], id) && !Lands(s, events[0]) then 1 else 0) +
      Lost(Step(s, events[0]), events[1..], id)
  }

  /** The id is registered with one path, and no other id with that path. */
  predicate KeepsHome(e: Event, id: Id, path: Path) {
    e.Register? ==> (e.id == id <==> e.path == path)
  }

  predicate HomeInv(s: System, id: Id, path: Path) {
    && (forall t :: t in s.pending && s.pending[t].Open? ==> (s.pending[t].id == id <==> s.pending[t].path == path))
    && (forall other :: other in Settled(s).files ==> (other == id <==> Settled(s).files[other] == path))
  }

  lemma StepLands(s: System, e: Event, id: Id, path: Path)
    requires HomeInv(s, id, path) && Enabled(s, e) && KeepsHome(e, id, path)
    ensures HomeInv(Step(s, e), id, path)
    ensures Content(Settled(Step(s, e)), path) ==
            Content(Settled(s), path) +
            if PutsLine(s, e, id) && Lands(s, e) then [s.pending[e.thread].line] else []
    ensures Sent(Step(s, e).h, id) ==
            Sent(s.h, id) + if PutsLine(s, e, id) then [s.pending[e.thread].line] else []
  {
    QueueOnlyDelays(s, e);
    hide Settled;
    if e.Put? && s.pending[e.thread].Write? {
      LineLandsExactly(s, e);
    }
  }

  lemma {:induction false} RunLands(s: System, events: seq<Event>, id: Id, path: Path)
    requires HomeInv(s, id, path) && Legal(s, events) && forall e :: e in events ==> KeepsHome(e, id, path)
    ensures Content(Settled(After(s, events)), path) == Content(Settled(s), path) + Landed(s, events, id)
    ensures |Sent(After(s, events).h, id)| == |Sent(s.h, id)| + |Landed(s, events, id)| + Lost(s, events, id)
    ensures Lost(s, events, id) == 0 ==> Sent(After(s, events).h, id) == Sent(s.h, id) + Landed(s, events, id)
    decreases |events|
  {
    if events != [] {
      hide Settled, Step, Lands, PutsLine, HomeInv, Content, Sent, KeepsHome, Enabled;
      var e := events[0];
      var s' := Step(s, e);
      StepLands(s, e, id, path);
      RunLands(s', events[1..], id, path);
      var own := if PutsLine(s, e, id) && Lands(s, e) then [s.pending[e.thread].line] else [];
      Regroup(Content(Settled(s), path), own, Landed(s', events[1..], id));
      Regroup(Sent(s.h, id), own, Landed(s', events[1..], id));
    }
  }

  lemma Regroup<T>(a: seq<T>, b: seq<T>, c: seq<T>)
    ensures a + (b + c) == (a + b) + c
  {
  }

  /** Under any interleaving, a file that is its id's only one holds exactly the lines whose puts met
      the guard, every other line sent is counted by `Lost`, and so the file is the whole of what was
      sent if and only if every put of the id met the guard. */
  lemma FileHoldsWhatLanded(events: seq<Event>, id: Id, path: Path)
    requires Legal(START, events) && forall e :: e in events ==> KeepsHome(e, id, path)
    ensures var s := After(START, events);
            && Content(Settled(s), path) == Landed(START, events, id)
            && |Sent(s.h, id)| == |Content(Settled(s), path)| + Lost(START, events, id)
            && (Content(Settled(s), path) == Sent(s.h, id) <==> Lost(START, events, id) == 0)
  {
    hide Landed, Lost, Legal, After;
    RunLands(START, events, id, path);
  }

  // ----- when nothing is lost -----

  predicate NonePending(s: System, id: Id) {
    forall t :: t in s.pending ==> s.pending[t].id != id
  }

  predicate NoFilePending(s: System, id: Id) {
    forall t :: t in s.pending && s.pending[t].id == id ==> s.pending[t].Write?
  }

  /** How an id is used when its calls do not overlap: it is registered while unused and with one
      path, emits start after its register has returned, its unregister starts after its emits have
      returned, and the queue and the file system take every one of its operations. */
  predicate Orderly(s: System, e: Event, id: Id, path: Path)
    requires Enabled(s, e)
  {
    match e
    case Register(_, other, p) =>
      if other == id then p == path && id !in s.d.logIds && NonePending(s, id) else p != path
    case Unregister(_, other) => other == id ==> NonePending(s, id)
    case Emit(_, scope, _, _) => scope == Some(id) ==> NoFilePending(s, id)
    case Put(thread, outcome) => s.pending[thread].id == id ==> outcome.Fine? && |s.d.queue| < QUEUE_MAX
    case Take => true
  }

  predicate OrderlyRun(s: System, events: seq<Event>, id: Id, path: Path)
    requires Legal(s, events)
    decreases |events|
  {
    events == [] ||
    (Orderly(s, events[0], id, path) && OrderlyRun(Step(s, events[0]), events[1..], id, path))
  }

  predicate LosslessInv(s: System, id: Id, path: Path) {
    && Content(Settled(s), path) == Sent(s.h, id)
    && (id in s.d.logIds && NoFilePending(s, id) ==> id in Settled(s).files && Settled(s).files[id] == path)
    && (forall t :: t in s.pending && s.pending[t].id == id && s.pending[t].Write? ==>
          id in s.d.logIds && NoFilePending(s, id))
    && (forall t, u :: (t in s.pending && u in s.pending && s.pending[t].id == id == s.pending[u].id &&
                        !s.pending[t].Write?) ==> t == u)
    && (forall t :: t in s.pending && s.pending[t].Open? && s.pending[t].id == id ==>
          id in s.d.logIds && s.pending[t].path == path)
    && (forall t :: t in s.pending && s.pending[t].Close? && s.pending[t].id == id ==> id !in s.d.logIds)
    && (forall t :: t in s.pending && s.pending[t].Open? && s.pending[t].id != id ==> s.pending[t].path != path)
    && (forall other :: other in Settled(s).files && other != id ==> Settled(s).files[other] != path)
  }

  lemma RegisterKeepsLossless(s: System, e: Event, id: Id, path: Path)
    requires LosslessInv(s, id, path) && Enabled(s, e) && Orderly(s, e, id, path)
    requires e.Register? || e.Unregister?
    ensures LosslessInv(Step(s, e), id, path)
  {
    QueueOnlyDelays(s, e);
    var s' := Step(s, e);
    assert s'.pending[e.thread].id == e.id && !s'.pending[e.thread].Write?;
    assert e.id == id ==> !NoFilePending(s', id);
    assert forall t :: t in s.pending ==> t in s'.pending && s'.pending[t] == s.pending[t];
  }

  lemma EmitKeepsLossless(s: System, e: Event, id: Id, path: Path)
    requires LosslessInv(s, id, path) && Enabled(s, e) && Orderly(s, e, id, path) && e.Emit?
    ensures LosslessInv(Step(s, e), id, path)
  {
    QueueOnlyDelays(s, e);
    assert forall t :: t in s.pending ==> t in Step(s, e).pending && Step(s, e).pending[t] == s.pending[t];
  }

  lemma PutKeepsLossless(s: System, e: Event, id: Id, path: Path)
    requires LosslessInv(s, id, path) && Enabled(s, e) && Orderly(s, e, id, path) && e.Put?
    ensures LosslessInv(Step(s, e), id, path)
  {
    QueueOnlyDelays(s, e);
    var s' := Step(s, e);
    assert forall t :: t in s.pending && t != e.thread ==> t in s'.pending && s'.pending[t] == s.pending[t];
    if s.pending[e.thread].id == id && !s.pending[e.thread].Write? {
      assert NoFilePending(s', id);
    }
  }

  lemma StepKeepsLossless(s: System, e: Event, id: Id, path: Path)
    requires LosslessInv(s, id, path) && Enabled(s, e) && Orderly(s, e, id, path)
    ensures LosslessInv(Step(s, e), id, path)
  {
    match e
    case Register(_, _, _) => RegisterKeepsLossless(s, e, id, path);
    case Unregister(_, _) => RegisterKeepsLossless(s, e, id, path);
    case Emit(_, _, _, _) => EmitKeepsLossless(s, e, id, path);
    case Put(_, _) => PutKeepsLossless(s, e, id, path);
    case Take => QueueOnlyDelays(s, e);
  }

  lemma {:induction false} RunKeepsLossless(s: System, events: seq<Event>, id: Id, path: Path)
    requires LosslessInv(s, id, path) && Legal(s, events) && OrderlyRun(s, events, id, path)
    ensures LosslessInv(After(s, events), id, path)
    decreases |events|
  {
    if events != [] {
      StepKeepsLossless(s, events[0], id, path);
      RunKeepsLossless(Step(s, events[0]), events[1..], id, path);
    }
  }

  /** Then nothing is lost: once the queue is empty the file holds exactly the lines sent under the id. */
  lemma OrderlyIdsLoseNothing(events: seq<Event>, id: Id, path: Path)
    requires Legal(START, events) && OrderlyRun(START, events, id, path)
    ensures var s := After(START, events);
            Content(Settled(s), path) == Sent(s.h, id) &&
            (s.d.queue == [] ==> Content(s.d.writer, path) == Sent(s.h, id))
  {
    RunKeepsLossless(START, events, id, path);
  }

  /** An emit that passed its check and is overtaken by an unregister loses its line, and the drop
      counter does not see it. */
  lemma StraddlingEmitLosesItsLine(id: Id, path: Path, line: Line) returns (events: seq<Event>)
    ensures Legal(START, events)
    ensures var s := After(START, events);
            Sent(s.h, id) == [line] && Content(Settled(s), path) == [] && s.d.dropped == 0 && s.pending == map[]
  {
    var e1, e2, e3 := Register(0, id, path), Put(0, Fine), Emit(1, Some(id), line, true);
    var e4, e5, e6 := Unregister(0, id), Put(0, Fine), Put(1, Fine);
    var s2 := Step(Step(START, e1), e2);
    var s4 := Step(Step(s2, e3), e4);
    var s6 := Step(Step(s4, e5), e6);
    assert s6.d.queue == [Item(Open(id, path), Fine), Item(Close(id), Fine), Item(Write(id, line), Fine)];
    QueueOnlyDelays(START, e1);
    QueueOnlyDelays(Step(START, e1), e2);
    QueueOnlyDelays(s2, e3);
    QueueOnlyDelays(Step(s2, e3), e4);
    QueueOnlyDelays(s4, e5);
    QueueOnlyDelays(Step(s4, e5), e6);
    TwoSteps(s4, e5, e6, []);
    TwoSteps(s2, e3, e4, [e5, e6]);
    TwoSteps(START, e1, e2, [e3, e4, e5, e6]);
    events := [e1, e2, e3, e4, e5, e6];
  }

  lemma TwoSteps(s: System, e: Event, e': Event, rest: seq<Event>)
    requires Enabled(s, e) && Enabled(Step(s, e), e') && Legal(Step(Step(s, e), e'), rest)
    ensures Legal(s, [e, e'] + rest) && After(s, [e, e'] + rest) == After(Step(Step(s, e), e'), rest)
  {
    assert ([e, e'] + rest)[1..] == [e'] + rest && ([e'] + rest)[1..] == rest;
  }

  // ----- the handler object -----

  /** The handler's methods as one thread performs them, without interleaving.  Each is the locked
      region of a call followed by its put, as in the steps above. */
  class LogFileDispatch {
    var logIds: set<Id>
    var dispatched: set<nat>
    var queue: seq<Item>
    var files: map<Id, Path>
    var disk: map<Path, seq<Line>>
    var dropped: nat

    ghost function State(): Dispatch
      reads this
    {
      Dispatch(logIds, dispatched, queue, Writer(files, disk), dropped)
    }

    constructor ()
      ensures State() == START.d
    {
      logIds, dispatched, queue, files, disk, dropped := {}, {}, [], map[], map[], 0;
    }

    method Submit(op: Op, outcome: Outcome)
      modifies this
      ensures State() == Submitted(old(State()), Item(op, outcome))
      ensures if |old(queue)| < QUEUE_MAX then queue == old(queue) + [Item(op, outcome)] && dropped == old(dropped)
              else queue == old(queue) && dropped == old(dropped) + 1
      ensures logIds == old(logIds) && dispatched == old(dispatched) && files == old(files) && disk == old(disk)
    {
      if |queue| < QUEUE_MAX {
        queue := queue + [Item(op, outcome)];
      } else {
        dropped := dropped + 1;
      }
    }

    method Register(id: Id, path: Path, outcome: Outcome, ghost s: System, ghost t: Thread)
      requires s.d == State() && t !in s.pending
      modifies this
      ensures State() == Step(Step(s, Event.Register(t, id, path)), Put(t, outcome)).d
    {
      logIds := logIds + {id};
      Submit(Open(id, path), outcome);
    }

    method Unregister(id: Id, outcome: Outcome, ghost s: System, ghost t: Thread)
      requires s.d == State() && t !in s.pending
      modifies this
      ensures State() == Step(Step(s, Event.Unregister(t, id)), Put(t, outcome)).d
    {
      logIds := logIds - {id};
      Submit(Close(id), outcome);
    }

    method Emit(scope: Option<Id>, line: Line, formats: bool, outcome: Outcome, ghost s: System, ghost t: Thread)
      requires s.d == State() && t !in s.pending
      modifies this
      ensures var e := Event.Emit(t, scope, line, formats);
              State() == if Passes(s.d, e) then Step(Step(s, e), Put(t, outcome)).d else Step(s, e).d
      ensures dispatched == old(dispatched) + {line.record}
      ensures if line.record !in old(dispatched) && scope.Some? && scope.value in logIds && formats then
                if |old(queue)| < QUEUE_MAX then
                  queue == old(queue) + [Item(Write(scope.value, line), outcome)] && dropped == old(dropped)
                else queue == old(queue) && dropped == old(dropped) + 1
              else queue == old(queue) && dropped == old(dropped)
    {
      if line.record in dispatched {
        assert State().(dispatched := dispatched + {line.record}) == State();
        return;
      }
      dispatched := dispatched + {line.record};
      if scope.None? || scope.value !in logIds || !formats {
        return;
      }
      Submit(Write(scope.value, line), outcome);
    }

    /** The writer's handling of one operation. */
    method ApplyOne(item: Item)
      modifies this`files, this`disk
      ensures Writer(files, disk) == Apply(Writer(old(files), old(disk)), item)
    {
      match item.op
      case Open(id, path) =>
        if item.outcome.FailsEarly? {
          return;
        }
        files := files - {id};
        if item.outcome.FailsLate? {
          return;
        }
        files := files[id := path];
        if path !in disk {
          disk := disk[path := []];
        }
        assert files == old(files)[id := path];
        assert disk == old(disk)[path := Content(Writer(old(files), old(disk)), path)];
      case Write(id, line) =>
        if id in files && item.outcome.Fine? {
          var path := files[id];
          disk := disk[path := (if path in disk then disk[path] else []) + [line]];
        }
      case Close(id) =>
        files := files - {id};
    }

    /** Applies what is queued, in order, until the queue is empty. */
    method Drain()
      modifies this
      ensures queue == [] && Writer(files, disk) == Replay(Writer(old(files), old(disk)), old(queue))
      ensures logIds == old(logIds) && dispatched == old(dispatched) && dropped == old(dropped)
    {
      while queue != []
        invariant Replay(Writer(files, disk), queue) == Replay(Writer(old(files), old(disk)), old(queue))
        invariant logIds == old(logIds) && dispatched == old(dispatched) && dropped == old(dropped)
        decreases |queue|
      {
        var item := queue[0];
        queue := queue[1..];
        ApplyOne(item);
      }
    }
  }
}

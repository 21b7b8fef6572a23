/** Borrowing the host's root logger while file-logging runs are active, and giving it back. */
module RootLogger {
  import opened Sequences

  type Handler = nat
  type Id = string

  /** The log-file dispatch itself, as one of the root logger's handlers. */
  const DISPATCH: Handler := 0

  function Min(a: int, b: int): int {
    if a <= b then a else b
  }

  function Remove(handlers: seq<Handler>, h: Handler): seq<Handler> {
    if handlers == [] then []
    else if handlers[0] == h then handlers[1..]
    else [handlers[0]] + Remove(handlers[1..], h)
  }

  function Add(handlers: seq<Handler>, h: Handler): seq<Handler> {
    if h in handlers then handlers else handlers + [h]
  }

  /** `windows` counts the register calls that no unregister has answered yet; `ids` are the
      registered runs. */
  datatype State = State(
    level: int, handlers: seq<Handler>, ids: set<Id>, windows: nat, saved: Option<int>, applied: Option<int>)

  function Borrowed(s: State, mount: int): State {
    var applied := Min(s.level, mount);
    s.(handlers := Add(s.handlers, DISPATCH),
       saved := if s.saved.None? then Some(s.level) else s.saved,
       applied := Some(applied), level := applied)
  }

  function Returned(s: State): State {
    s.(handlers := Remove(s.handlers, DISPATCH),
       level := if s.saved.Some? && s.applied == Some(s.level) then s.saved.value else s.level,
       saved := None, applied := None)
  }

  datatype Event =
    | Register(id: Id, mount: int)
    | Unregister(id: Id)
    | HostSetsLevel(level: int)
    | HostAdds(handler: Handler)
    | HostRemoves(handler: Handler)

  function Step(s: State, e: Event): State {
    match e
    case Register(id, mount) => Borrowed(s.(ids := s.ids + {id}, windows := s.windows + 1), mount)
    case Unregister(id) =>
      var left := s.(ids := s.ids - {id}, windows := if s.windows == 0 then 0 else s.windows - 1);
      if left.windows == 0 then Returned(left) else left
    case HostSetsLevel(level) => s.(level := level)
    case HostAdds(h) => s.(handlers := Add(s.handlers, h))
    case HostRemoves(h) => s.(handlers := Remove(s.handlers, h))
  }

  function Run(s: State, events: seq<Event>): State
    decreases |events|
  {
    if events == [] then s else Run(Step(s, events[0]), events[1..])
  }

  /** The root logger as the host left it, with nobody borrowing it. */
  predicate AtRest(s: State) {
    s.windows == 0 && s.ids == {} && s.saved.None? && s.applied.None? && DISPATCH !in s.handlers
  }

  /** The host does not handle the dispatch itself. */
  predicate HostMinds(e: Event) {
    (e.HostAdds? ==> e.handler != DISPATCH) && (e.HostRemoves? ==> e.handler != DISPATCH)
  }

  // ----- what the host alone would see -----

  /** The same events without the borrowing: `level` and `handlers` as the host sets them, and what
      is known about the current borrowing: the level at its start, the lowest level a register asked
      for, and the level the host has set since the last register, if any. */
  datatype Host = Host(level: int, handlers: seq<Handler>, windows: nat, original: int, lowest: int, since: Option<int>)

  function HostStep(h: Host, e: Event): Host {
    match e
    case Register(_, mount) =>
      if h.windows == 0 then h.(windows := 1, original := h.level, lowest := Min(h.level, mount), since := None)
      else
        var current := if h.since.Some? then h.since.value else h.lowest;
        h.(windows := h.windows + 1, lowest := Min(current, mount), since := None)
    case Unregister(_) =>
      if h.windows == 1 then
        var kept := h.since.Some? && h.since.value != h.lowest;
        h.(windows := 0, level := if kept then h.since.value else h.original, since := None)
      else h.(windows := if h.windows == 0 then 0 else h.windows - 1)
    case HostSetsLevel(level) =>
      if h.windows == 0 then h.(level := level) else h.(since := Some(level))
    case HostAdds(x) => h.(handlers := Add(h.handlers, x))
    case HostRemoves(x) => h.(handlers := Remove(h.handlers, x))
  }

  function HostRun(h: Host, events: seq<Event>): Host
    decreases |events|
  {
    if events == [] then h else HostRun(HostStep(h, events[0]), events[1..])
  }

  predicate Agrees(s: State, h: Host) {
    && s.windows == h.windows && Remove(s.handlers, DISPATCH) == h.handlers && DISPATCH !in h.handlers
    && if s.windows == 0 then
         s.saved.None? && s.applied.None? && s.level == h.level && s.handlers == h.handlers
       else
         s.saved == Some(h.original) && s.applied == Some(h.lowest) &&
         s.level == (if h.since.Some? then h.since.value else h.lowest) && DISPATCH in s.handlers
  }

  lemma {:induction false} RemoveAbsent(handlers: seq<Handler>, h: Handler)
    requires h !in handlers
    ensures Remove(handlers, h) == handlers
  {
    if handlers != [] {
      RemoveAbsent(handlers[1..], h);
    }
  }

  lemma {:induction false} RemoveAdded(handlers: seq<Handler>, x: Handler, h: Handler)
    ensures Remove(handlers + [x], h) ==
            if h in handlers then Remove(handlers, h) + [x] else if x == h then handlers else handlers + [x]
  {
    if handlers == [] {
    } else {
      assert (handlers + [x])[1..] == handlers[1..] + [x];
      if handlers[0] != h {
        RemoveAdded(handlers[1..], x, h);
      }
    }
  }

  lemma {:induction false} RemoveCommutes(handlers: seq<Handler>, x: Handler, h: Handler)
    requires x != h
    ensures Remove(Remove(handlers, x), h) == Remove(Remove(handlers, h), x)
  {
    if handlers != [] {
      RemoveCommutes(handlers[1..], x, h);
    }
  }

  lemma {:induction false} RemoveKeepsOthers(handlers: seq<Handler>, x: Handler, h: Handler)
    requires x != h
    ensures h in Remove(handlers, x) <==> h in handlers
  {
    if handlers != [] {
      RemoveKeepsOthers(handlers[1..], x, h);
      assert handlers == [handlers[0]] + handlers[1..];
    }
  }

  lemma HandlersAgree(s: State, h: Host, e: Event)
    requires Agrees(s, h) && HostMinds(e)
    ensures Remove(Step(s, e).handlers, DISPATCH) == HostStep(h, e).handlers
    ensures DISPATCH !in HostStep(h, e).handlers
    ensures DISPATCH in Step(s, e).handlers <==> Step(s, e).windows > 0
  {
    match e
    case Register(_, _) => RemoveAdded(s.handlers, DISPATCH, DISPATCH);
    case Unregister(_) =>
      RemoveAbsent(h.handlers, DISPATCH);
    case HostSetsLevel(_) =>
    case HostAdds(x) =>
      RemoveAdded(s.handlers, x, DISPATCH);
      RemoveKeepsOthers(s.handlers, DISPATCH, x);
      RemoveAbsent(h.handlers, DISPATCH);
    case HostRemoves(x) =>
      RemoveCommutes(s.handlers, x, DISPATCH);
      RemoveKeepsOthers(s.handlers, x, DISPATCH);
      RemoveKeepsOthers(h.handlers, x, DISPATCH);
  }

  lemma StepAgrees(s: State, h: Host, e: Event)
    requires Agrees(s, h) && HostMinds(e)
    ensures Agrees(Step(s, e), HostStep(h, e))
  {
    HandlersAgree(s, h, e);
    if Step(s, e).windows == 0 {
      RemoveAbsent(Step(s, e).handlers, DISPATCH);
    }
  }

  lemma {:induction false} RunAgrees(s: State, h: Host, events: seq<Event>)
    requires Agrees(s, h) && forall e :: e in events ==> HostMinds(e)
    ensures Agrees(Run(s, events), HostRun(h, events))
    decreases |events|
  {
    if events != [] {
      StepAgrees(s, h, events[0]);
      RunAgrees(Step(s, events[0]), HostStep(h, events[0]), events[1..]);
    }
  }

  function HostAtRest(s: State): Host {
    Host(s.level, s.handlers, 0, 0, 0, None)
  }

  lemma AtRestAgrees(s: State)
    requires AtRest(s)
    ensures Agrees(s, HostAtRest(s))
  {
    RemoveAbsent(s.handlers, DISPATCH);
  }

  // ----- runs in which every exit is paired -----

  /** A run registers an unused id and unregisters one that is in use; an exit when nothing is
      borrowed does no harm. */
  predicate Paired(s: State, e: Event) {
    (e.Register? ==> e.id !in s.ids) && (e.Unregister? ==> e.id in s.ids || s.windows == 0)
  }

  predicate PairedRun(s: State, events: seq<Event>)
    decreases |events|
  {
    events == [] || (Paired(s, events[0]) && PairedRun(Step(s, events[0]), events[1..]))
  }

  /** The window counter is the number of registered runs, now and after every event. */
  predicate CountsRuns(s: State, events: seq<Event>)
    decreases |events|
  {
    s.windows == |s.ids| && (events != [] ==> CountsRuns(Step(s, events[0]), events[1..]))
  }

  /** A call keeps the counter right exactly when it is paired. */
  lemma PairedKeepsCount(s: State, e: Event)
    requires s.windows == |s.ids|
    ensures Step(s, e).windows == |Step(s, e).ids| <==> Paired(s, e)
  {
    if e.Register? {
      assert e.id in s.ids ==> s.ids + {e.id} == s.ids;
    } else if e.Unregister? {
      if e.id in s.ids {
        assert s.ids == (s.ids - {e.id}) + {e.id};
      } else {
        assert s.ids - {e.id} == s.ids;
      }
    }
  }

  /** So it counts the runs throughout exactly when every call is paired. */
  lemma {:induction false} WindowsCountRuns(s: State, events: seq<Event>)
    requires s.windows == |s.ids|
    ensures CountsRuns(s, events) <==> PairedRun(s, events)
    ensures PairedRun(s, events) ==> Run(s, events).windows == |Run(s, events).ids|
    decreases |events|
  {
    if events != [] {
      PairedKeepsCount(s, events[0]);
      if Paired(s, events[0]) {
        WindowsCountRuns(Step(s, events[0]), events[1..]);
      }
    }
  }

  /** While the counter is right, root is given back with a run still registered exactly at an exit of
      an id that is not registered, when one other run is. */
  lemma ReturnedEarlyExactly(s: State, h: Host, e: Event)
    requires Agrees(s, h) && HostMinds(e) && s.windows == |s.ids| && s.windows > 0
    ensures (Step(s, e).saved.None? && Step(s, e).ids != {}) <==>
            (e.Unregister? && e.id !in s.ids && s.windows == 1)
  {
    if e.Unregister? {
      if e.id in s.ids {
        assert s.ids == (s.ids - {e.id}) + {e.id};
      } else {
        assert s.ids - {e.id} == s.ids;
      }
    }
  }

  /** Nobody but the dispatch touches the root logger, and all runs ask for one level. */
  predicate OnlyRuns(e: Event, mount: int) {
    e.Unregister? || (e.Register? && e.mount == mount)
  }

  predicate Borrowing(h: Host, level: int, mount: int, handlers: seq<Handler>) {
    && h.handlers == handlers && h.since.None?
    && if h.windows == 0 then h.level == level else h.original == level && h.lowest == Min(level, mount)
  }

  lemma {:induction false} BorrowingHolds(h: Host, level: int, mount: int, handlers: seq<Handler>, events: seq<Event>)
    requires Borrowing(h, level, mount, handlers) && forall e :: e in events ==> OnlyRuns(e, mount)
    ensures Borrowing(HostRun(h, events), level, mount, handlers)
    decreases |events|
  {
    if events != [] {
      assert OnlyRuns(events[0], mount);
      BorrowingHolds(HostStep(h, events[0]), level, mount, handlers, events[1..]);
    }
  }

  /** Whatever way runs overlap: while any run is registered, root is at least as open as the runs ask
      for and as it was, and no more open than the one or the other, with the dispatch attached; when none
      is, it is exactly as it was. */
  lemma RootIsLentAndReturned(s: State, mount: int, events: seq<Event>)
    requires AtRest(s) && PairedRun(s, events) && forall e :: e in events ==> OnlyRuns(e, mount)
    ensures var s' := Run(s, events);
            && (s'.ids != {} ==>
                  && s'.level <= mount && s'.level <= s.level
                  && (s'.level == mount || s'.level == s.level))
            && (s'.ids != {} ==> DISPATCH in s'.handlers && Remove(s'.handlers, DISPATCH) == s.handlers)
            && (s'.ids == {} ==> s'.level == s.level && s'.handlers == s.handlers && AtRest(s'))
  {
    AtRestAgrees(s);
    forall e | e in events ensures HostMinds(e) { assert OnlyRuns(e, mount); }
    RunAgrees(s, HostAtRest(s), events);
    BorrowingHolds(HostAtRest(s), s.level, mount, s.handlers, events);
    WindowsCountRuns(s, events);
  }

  /** A second cleanup of the same run, while another one is active, gives root back too early. */
  lemma RepeatedExitReturnsRootEarly(s: State, mount: int, a: Id, b: Id)
    requires AtRest(s) && a != b && mount < s.level
    ensures var s' := Run(s, [Register(a, mount), Register(b, mount), Unregister(a), Unregister(a)]);
            b in s'.ids && s'.level == s.level && s'.handlers == s.handlers
  {
    var e1, e2, e3 := Register(a, mount), Register(b, mount), Unregister(a);
    var s1 := Step(s, e1);
    var s2 := Step(s1, e2);
    var s3 := Step(s2, e3);
    assert [e1, e2, e3, e3][1..] == [e2, e3, e3] && [e2, e3, e3][1..] == [e3, e3] && [e3, e3][1..] == [e3];
    assert [e3][1..] == [];
    assert Run(s3, [e3]) == Run(Step(s3, e3), []);
    assert Run(s2, [e3, e3]) == Run(s3, [e3]);
    assert Run(s1, [e2, e3, e3]) == Run(s2, [e3, e3]);
    RemoveAdded(s.handlers, DISPATCH, DISPATCH);
  }

  // ----- a host that sets root's level during a run -----

  /** Events that end the borrowing: no further register, and the last unregister comes last. */
  predicate Closing(windows: nat, events: seq<Event>)
    decreases |events|
  {
    if windows == 0 then events == []
    else
      events != [] && !events[0].Register? &&
      Closing(if events[0].Unregister? then windows - 1 else windows, events[1..])
  }

  /** The level the host set last, if it set one. */
  function LastSet(events: seq<Event>): Option<int> {
    if events == [] then None
    else if LastSet(events[1..]).Some? then LastSet(events[1..])
    else if events[0].HostSetsLevel? then Some(events[0].level)
    else None
  }

  /** After the last register, a level that the host sets is kept, unless it is the very level the
      dispatch had applied; otherwise root gets its saved level back. */
  lemma {:induction false} HostLevelIsKept(s: State, h: Host, events: seq<Event>)
    requires Agrees(s, h) && s.windows > 0 && Closing(s.windows, events)
    requires h.since.None? && forall e :: e in events ==> HostMinds(e)
    ensures var last := LastSet(events);
            Run(s, events).level == if last.Some? && last != s.applied then last.value else s.saved.value
    ensures Run(s, events).handlers == HostRun(h, events).handlers
  {
    ClosingLevel(s, h, events);
    RunAgrees(s, h, events);
    ClosingEnds(s, events);
  }

  lemma {:induction false} ClosingLevel(s: State, h: Host, events: seq<Event>)
    requires Agrees(s, h) && s.windows > 0 && Closing(s.windows, events)
    requires forall e :: e in events ==> HostMinds(e)
    ensures var last := if LastSet(events).Some? then LastSet(events) else h.since;
            Run(s, events).level == if last.Some? && last != s.applied then last.value else s.saved.value
    decreases |events|
  {
    var e := events[0];
    StepAgrees(s, h, e);
    if s.windows == 1 && e.Unregister? {
      assert Run(s, events) == Run(Step(s, e), []);
    } else {
      ClosingLevel(Step(s, e), HostStep(h, e), events[1..]);
    }
  }

  lemma {:induction false} ClosingEnds(s: State, events: seq<Event>)
    requires Closing(s.windows, events)
    ensures Run(s, events).windows == 0
    decreases |events|
  {
    if events != [] {
      ClosingEnds(Step(s, events[0]), events[1..]);
    }
  }

  /** A level that the host sets before another register is not kept: the end of the borrowing brings
      back the level from before it. */
  lemma NextRegisterForgetsHostLevel(s: State, h: Host, level: int, id: Id, mount: int, events: seq<Event>)
    requires Agrees(s, h) && s.windows > 0
    requires Closing(s.windows + 1, events) && LastSet(events).None? && forall e :: e in events ==> HostMinds(e)
    ensures Run(s, [HostSetsLevel(level), Register(id, mount)] + events).level == s.saved.value
  {
    var e1, e2 := HostSetsLevel(level), Register(id, mount);
    StepAgrees(s, h, e1);
    StepAgrees(Step(s, e1), HostStep(h, e1), e2);
    HostLevelIsKept(Step(Step(s, e1), e2), HostStep(HostStep(h, e1), e2), events);
    assert ([e1, e2] + events)[1..] == [e2] + events && ([e2] + events)[1..] == events;
  }

  // ----- the handler's methods -----

  class RootLender {
    var level: int
    var handlers: seq<Handler>
    var ids: set<Id>
    var windows: nat
    var saved: Option<int>
    var applied: Option<int>

    ghost function Now(): State
      reads this
    {
      State(level, handlers, ids, windows, saved, applied)
    }

    constructor (level: int, handlers: seq<Handler>)
      requires DISPATCH !in handlers
      ensures AtRest(Now()) && this.level == level && this.handlers == handlers
    {
      this.level, this.handlers := level, handlers;
      ids, windows, saved, applied := {}, 0, None, None;
    }

    /** Only ever loosens: root ends at the level that is asked for, or at its own where that is lower. */
    method BorrowRoot(mount: int)
      modifies this
      ensures Now() == Borrowed(old(Now()), mount)
      ensures level <= mount && level <= old(level) && (level == mount || level == old(level))
      ensures applied == Some(level) && DISPATCH in handlers
      ensures saved == if old(saved).Some? then old(saved) else Some(old(level))
    {
      if DISPATCH !in handlers {
        handlers := handlers + [DISPATCH];
      }
      if saved.None? {
        saved := Some(level);
      }
      var lower := Min(level, mount);
      applied := Some(lower);
      level := lower;
    }

    method ReleaseRoot()
      modifies this
      ensures Now() == Returned(old(Now()))
    {
      RemoveIfAbsent(handlers);
      if DISPATCH in handlers {
        handlers := Remove(handlers, DISPATCH);
      }
      if saved.Some? && applied == Some(level) {
        level := saved.value;
      }
      saved, applied := None, None;
    }

    method Register(id: Id, mount: int)
      modifies this
      ensures Now() == Step(old(Now()), Event.Register(id, mount))
    {
      ids := ids + {id};
      windows := windows + 1;
      BorrowRoot(mount);
    }

    method Unregister(id: Id)
      modifies this
      ensures Now() == Step(old(Now()), Event.Unregister(id))
    {
      ids := ids - {id};
      windows := if windows == 0 then 0 else windows - 1;
      if windows == 0 {
        ReleaseRoot();
      }
    }
  }

  lemma RemoveIfAbsent(handlers: seq<Handler>)
    ensures DISPATCH !in handlers ==> Remove(handlers, DISPATCH) == handlers
  {
    if DISPATCH !in handlers {
      RemoveAbsent(handlers, DISPATCH);
    }
  }
}

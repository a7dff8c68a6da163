/** The dispatcher of composition events in the widget's process. Handlers of the
    events it dispatches call back into it; a handler is the finite tree of the
    calls it makes. */
module TextEventDispatchers {
  import opened BasicTypes
  import opened CompositionEvents
  import opened LineBreaks
  import opened PendingCompositions

  datatype TransactionType =
    | NoInputTransaction
    | NativeInputTransaction
    | AsyncTestInputTransaction
    | SameProcessSyncTestInputTransaction
    | SameProcessSyncInputTransaction

  type Listener = nat

  datatype Status =
    | Success
    | NotInitialized
    | NotAvailable
    | Failure
    | IllegalValue
    | InvalidArgument
    | AlreadyInitialized

  /** `status` is what the widget's DispatchEvent returns for the event. */
  datatype Handler = Handler(calls: seq<Call>, status: Status)

  /** A composition event and, for a change, the ranges that come with it. */
  datatype Dispatched = Dispatched(event: Event, ranges: Option<seq<TextRange>>)

  datatype Edit =
    | EditString(text: ShortString)
    | EditClause(length: uint32, clause: TextRangeType)
    | EditCaret(offset: uint32, width: uint32)
    | EditAll(text: ShortString, ranges: seq<TextRange>)
    | EditAway

  datatype Call =
    | StartComposition(onStart: Handler)
    | CommitComposition(text: Option<string>, onStart: Handler, onCommit: Handler)
    | EditPending(edit: Edit)
    | FlushPendingComposition(onStart: Handler, onChange: Handler)
    | DispatchKeyboardEvent(duringComposition: bool, onKey: Handler)
    | BeginInputTransaction(listener: Option<Listener>, kind: TransactionType, onRemoved: seq<Call>)
    | EndInputTransaction(listener: Option<Listener>, onRemoved: seq<Call>)
    | NotifyCompositionEventHandled(onNotify: seq<Call>)
    | ListenerDies
    | WidgetDies
    | OnDestroyWidget(onRemoved: seq<Call>)

  /** A listener taking over from the live one, if any. */
  datatype Takeover = Takeover(previous: Option<Listener>, next: Listener, composing: bool, depth: nat)

  datatype State = State(
    isComposing: bool,
    isHandlingComposition: bool,
    dispatchingEvent: int,
    listener: Option<Listener>,
    kind: TransactionType,
    hasWidget: bool,
    widgetDestroyed: bool,
    pending: Pending,
    // History: how deep events are nested, the composition events and, for every
    // event, the counter and the depth while it is dispatched; who took over; and
    // whether a string with a CR was set after line breaks had been replaced.
    depth: nat,
    dispatched: seq<Dispatched>,
    nesting: seq<(int, nat)>,
    takeovers: seq<Takeover>,
    tainted: bool)
  {
    predicate IsDispatchingEvent() { dispatchingEvent > 0 }

    predicate IsAvailable() { listener.Some? && hasWidget && !widgetDestroyed }

    /** GetState. */
    function Availability(): (status: Status)
      ensures status == Success <==> IsAvailable()
      ensures status == NotInitialized <==> listener.None?
    {
      if listener.None? then NotInitialized
      else if !hasWidget || widgetDestroyed then NotAvailable
      else Success
    }
  }

  function Increment16(n: int): int { (n + 1) % UINT16_RANGE }
  function Decrement16(n: int): int { (n + UINT16_RANGE - 1) % UINT16_RANGE }

  /** DispatchEvent of a composition event (Some) or a keyboard event (None). */
  function Dispatch(st: State, e: Option<Dispatched>, h: Handler): State
    decreases h, 0
  {
    Leave(RunAll(Enter(st, e), h.calls))
  }

  function Enter(st: State, e: Option<Dispatched>): State {
    var counter := Increment16(st.dispatchingEvent);
    st.(
      dispatchingEvent := counter,
      depth := st.depth + 1,
      dispatched := if e.Some? then st.dispatched + [e.value] else st.dispatched,
      nesting := st.nesting + [(counter, st.depth + 1)])
  }

  function Leave(st: State): State {
    st.(dispatchingEvent := Decrement16(st.dispatchingEvent), depth := if st.depth == 0 then 0 else st.depth - 1)
  }

  const START := Dispatched(Event(CompositionStart, ""), None)

  /** StartComposition. */
  function Start(st: State, h: Handler): (State, Status)
    decreases h, 1
  {
    if !st.IsAvailable() then (st, st.Availability())
    else if st.isComposing then (st, Failure)
    else (Dispatch(st.(isComposing := true, isHandlingComposition := true), Some(START), h), h.status)
  }

  /** A handler that does nothing. */
  const QUIET := Handler([], Success)

  datatype Outcome = Failed(status: Status) | Consumed | Proceed
  {
    /** What the caller returns unless it proceeds. */
    function Result(): Status { if Failed? then status else Success }
  }

  /** StartCompositionAutomaticallyIfNecessary. A handler of the start event may have
      committed the composition or destroyed the widget already. */
  function StartIfNecessary(st: State, h: Handler): (State, Outcome)
    decreases h, 2
  {
    if st.isComposing then (st, Proceed)
    else
      var (started, status) := Start(st, h);
      if !status.Success? then (started, Failed(status))
      else if !started.isComposing || !started.IsAvailable() then (started, Consumed)
      else (started, Proceed)
  }

  function CommitEvent(text: Option<string>): Dispatched {
    Dispatched(
      if text.Some? then Event(CompositionCommit, Normalise(text.value)) else Event(CompositionCommitAsIs, ""), None)
  }

  function Commit(st: State, c: Call): (State, Status)
    requires c.CommitComposition?
    decreases c, 2
  {
    if !st.IsAvailable() then (st, st.Availability())
    else if !st.isComposing && (c.text.None? || c.text.value == "") then (st, Failure)
    else
      var (started, outcome) := StartIfNecessary(st, c.onStart);
      if !outcome.Proceed? then (started, outcome.Result())
      else (Dispatch(started.(isComposing := false), Some(CommitEvent(c.text)), c.onCommit), c.onCommit.status)
  }

  function ChangeEvent(flushed: Pending): Dispatched {
    Dispatched(Event(CompositionChange, flushed.text), flushed.clauses)
  }

  /** Flushing forgets the pending composition before any handler runs. */
  function FlushPending(st: State, c: Call): (State, Status)
    requires c.FlushPendingComposition?
    decreases c, 2
  {
    if !st.IsAvailable() then (st, st.Availability())
    else
      var forgotten := st.(pending := st.pending.AfterFlush());
      if !st.pending.IsConsistent() then (forgotten, IllegalValue)
      else
        var (started, outcome) := StartIfNecessary(forgotten, c.onStart);
        if !outcome.Proceed? then (started, outcome.Result())
        else (Dispatch(started, Some(ChangeEvent(st.pending.Flushed())), c.onChange), c.onChange.status)
  }

  /** The text should not be set by itself after line breaks have been replaced, as
      they are not replaced again. */
  predicate Taints(p: Pending, e: Edit) {
    p.replaced && e.EditString? && '\r' in e.text
  }

  function Edited(p: Pending, e: Edit): Pending {
    match e
    case EditString(s) => p.(text := s)
    case EditClause(length, kind) => if length == 0 || !IsClauseType(kind) then p else p.Append(length, kind)
    case EditCaret(offset, width) => p.(caret := TextRange(offset, Wrap(offset + width), Caret))
    case EditAll(s, ranges) => SetTo(s, ranges, p.caret.(kind := Uninitialized))
    case EditAway => p.Cleared()
  }

  predicate IsSameTransaction(st: State, c: Call)
    requires c.BeginInputTransaction?
  {
    st.listener.Some? && st.listener == c.listener && st.kind == c.kind
  }

  predicate CanBegin(st: State, c: Call)
    requires c.BeginInputTransaction?
  {
    && c.listener.Some?
    && !IsSameTransaction(st, c)
    && (st.listener.Some? ==> !st.isComposing && !st.IsDispatchingEvent())
  }

  function TakeOver(st: State, listener: Listener, kind: TransactionType): State {
    st.(
      listener := Some(listener), kind := kind,
      takeovers := st.takeovers + [Takeover(st.listener, listener, st.isComposing, st.depth)])
  }

  function Begin(st: State, c: Call): (State, Status)
    requires c.BeginInputTransaction?
    decreases c, 2
  {
    if c.listener.None? then (st, InvalidArgument)
    else if IsSameTransaction(st, c) then (st, Success)
    else if !CanBegin(st, c) then (st, AlreadyInitialized)
    else
      var begun := TakeOver(st, c.listener.value, c.kind);
      (if st.listener.Some? && st.listener != c.listener then RunAll(begun, c.onRemoved) else begun, Success)
  }

  function End(st: State, c: Call): State
    requires c.EndInputTransaction?
    decreases c, 2
  {
    if st.isComposing || st.IsDispatchingEvent() then st
    else if st.listener.None? || st.listener != c.listener then st.(kind := NoInputTransaction)
    else RunAll(st.(kind := NoInputTransaction, listener := None), c.onRemoved)
  }

  function Destroy(st: State, c: Call): State
    requires c.OnDestroyWidget?
    decreases c, 2
  {
    var destroyed :=
      st.(hasWidget := false, listener := None, kind := NoInputTransaction, pending := st.pending.Cleared());
    if st.listener.Some? then RunAll(destroyed, c.onRemoved) else destroyed
  }

  function Run(st: State, c: Call): State
    decreases c, 3
  {
    match c
    case StartComposition(h) => Start(st, h).0
    case CommitComposition(_, _, _) => Commit(st, c).0
    case EditPending(e) =>
      st.(pending := Edited(st.pending, e), tainted := st.tainted || Taints(st.pending, e))
    case FlushPendingComposition(_, _) => FlushPending(st, c).0
    case DispatchKeyboardEvent(during, h) =>
      if !st.IsAvailable() || (st.isComposing && !during) then st else Dispatch(st, None, h)
    case BeginInputTransaction(_, _, _) => Begin(st, c).0
    case EndInputTransaction(_, _) => End(st, c)
    case NotifyCompositionEventHandled(onNotify) =>
      RunAll(if st.isComposing then st else st.(isHandlingComposition := false), onNotify)
    case ListenerDies => st.(listener := None)
    case WidgetDies => st.(widgetDestroyed := true)
    case OnDestroyWidget(_) => Destroy(st, c)
  }

  function RunAll(st: State, calls: seq<Call>): State
    decreases calls, 0
  {
    if calls == [] then st else RunAll(Run(st, calls[0]), calls[1..])
  }

  // ----- What every tree of calls keeps -----

  /** A live listener loses its place to another one, or its transaction its type,
      only while nothing is composed and the counter of nested events is 0. */
  ghost predicate NobodySteals(takeovers: seq<Takeover>) {
    forall t :: t in takeovers && t.previous.Some? ==> !t.composing && t.depth % UINT16_RANGE == 0
  }

  /** While an event is dispatched the counter is the nesting depth, which is why
      IsDispatchingEvent notices it. */
  ghost predicate CounterIsDepth(nesting: seq<(int, nat)>) {
    forall n :: n in nesting ==> n.0 == n.1 % UINT16_RANGE
  }

  /** Web content gets to see no CR. */
  ghost predicate ShowsNoCR(dispatched: seq<Dispatched>) {
    forall e :: e in dispatched ==> '\r' !in e.event.data
  }

  function Messages(events: seq<Dispatched>): seq<EventMessage> {
    if events == [] then [] else Messages(events[..|events| - 1]) + [events[|events| - 1].event.message]
  }

  lemma MessagesAppend(events: seq<Dispatched>, e: Dispatched)
    ensures Messages(events + [e]) == Messages(events) + [e.event.message]
  {
    assert (events + [e])[..|events|] == events;
  }

  ghost predicate Sound(st: State) {
    && IsOrdered(Messages(st.dispatched), st.isComposing)
    && (st.isComposing ==> st.isHandlingComposition)
    && st.dispatchingEvent == st.depth % UINT16_RANGE
    && CounterIsDepth(st.nesting)
    && NobodySteals(st.takeovers)
    && (!st.tainted ==> IsClean(st.pending) && ShowsNoCR(st.dispatched))
  }

  ghost predicate Keeps(st: State, r: State) {
    && (Sound(st) ==> Sound(r))
    && r.depth == st.depth
    && st.dispatched <= r.dispatched && st.nesting <= r.nesting && st.takeovers <= r.takeovers
    && (st.tainted ==> r.tainted)
  }

  /** The event may come next, after which a composition is open or not. */
  ghost predicate MayDispatch(st: State, e: Dispatched, after: bool) {
    && MayFollow(st.isComposing, e.event.message)
    && after == OpenAfter(e.event.message)
    && (!st.tainted ==> '\r' !in e.event.data)
  }

  /** Entering a handler, and leaving it again. */
  lemma EnterKeeps(st: State, e: Option<Dispatched>, after: bool)
    requires Sound(st)
    requires if e.Some? then MayDispatch(st, e.value, after) else after == st.isComposing
    ensures Sound(Enter(st.(isComposing := after, isHandlingComposition := st.isHandlingComposition || after), e))
  {
    if e.Some? {
      OrderedAppend(Messages(st.dispatched), st.isComposing, e.value.event.message);
      MessagesAppend(st.dispatched, e.value);
    }
  }

  lemma LeaveKeeps(st: State)
    requires Sound(st) && st.depth > 0
    ensures Sound(Leave(st))
  {
  }

  lemma DispatchKeeps(st: State, e: Dispatched, after: bool, h: Handler)
    requires Sound(st) && MayDispatch(st, e, after)
    ensures Keeps(st, Dispatch(st.(isComposing := after, isHandlingComposition := st.isHandlingComposition || after),
                               Some(e), h))
    decreases h, 0
  {
    var announced := st.(isComposing := after, isHandlingComposition := st.isHandlingComposition || after);
    EnterKeeps(st, Some(e), after);
    RunAllKeeps(Enter(announced, Some(e)), h.calls);
    LeaveKeeps(RunAll(Enter(announced, Some(e)), h.calls));
  }

  lemma KeyKeeps(st: State, h: Handler)
    requires Sound(st)
    ensures Keeps(st, Dispatch(st, None, h))
    decreases h, 0
  {
    EnterKeeps(st, None, st.isComposing);
    assert st == st.(isComposing := st.isComposing,
                     isHandlingComposition := st.isHandlingComposition || st.isComposing);
    RunAllKeeps(Enter(st, None), h.calls);
    LeaveKeeps(RunAll(Enter(st, None), h.calls));
  }

  lemma StartIfNecessaryKeeps(st: State, h: Handler)
    requires Sound(st)
    ensures Keeps(st, Start(st, h).0)
    ensures Keeps(st, StartIfNecessary(st, h).0)
    ensures StartIfNecessary(st, h).1.Proceed? ==> StartIfNecessary(st, h).0.isComposing
    decreases h, 2
  {
    if st.IsAvailable() && !st.isComposing { DispatchKeeps(st, START, true, h); }
  }

  lemma CommitShowsNoCR(text: Option<string>)
    ensures '\r' !in CommitEvent(text).event.data
  {
    if text.Some? { NormalisedText(text.value); }
  }

  lemma CommitKeeps(st: State, c: Call)
    requires Sound(st) && c.CommitComposition?
    ensures Keeps(st, Run(st, c))
    decreases c, 2
  {
    assert Run(st, c) == Commit(st, c).0;
    StartIfNecessaryKeeps(st, c.onStart);
    var (started, outcome) := StartIfNecessary(st, c.onStart);
    if outcome.Proceed? {
      CommitShowsNoCR(c.text);
      DispatchKeeps(started, CommitEvent(c.text), false, c.onCommit);
    }
  }

  lemma ForgottenIsSound(st: State)
    requires Sound(st)
    ensures Sound(st.(pending := st.pending.AfterFlush()))
    ensures !st.tainted ==> '\r' !in ChangeEvent(st.pending.Flushed()).event.data
  {
    if !st.tainted { EveryFlushIsClean(st.pending); }
  }

  lemma ChangeKeeps(st: State, e: Dispatched, c: Call)
    requires Sound(st) && c.FlushPendingComposition?
    requires e.event.message.CompositionChange? && (!st.tainted ==> '\r' !in e.event.data)
    ensures var (started, outcome) := StartIfNecessary(st, c.onStart);
      Keeps(st, if outcome.Proceed? then Dispatch(started, Some(e), c.onChange) else started)
    decreases c, 1
  {
    StartIfNecessaryKeeps(st, c.onStart);
    var (started, outcome) := StartIfNecessary(st, c.onStart);
    if outcome.Proceed? {
      assert started == started.(
        isComposing := true, isHandlingComposition := started.isHandlingComposition || true);
      DispatchKeeps(started, e, true, c.onChange);
    }
  }

  lemma FlushKeeps(st: State, c: Call)
    requires Sound(st) && c.FlushPendingComposition?
    ensures Keeps(st, Run(st, c))
    decreases c, 2
  {
    assert Run(st, c) == FlushPending(st, c).0;
    ForgottenIsSound(st);
    ChangeKeeps(st.(pending := st.pending.AfterFlush()), ChangeEvent(st.pending.Flushed()), c);
  }

  lemma EditKeeps(st: State, c: Call)
    requires Sound(st) && c.EditPending?
    ensures Keeps(st, Run(st, c))
  {
    if c.edit.EditAll? { SetIsClean(c.edit.text, c.edit.ranges, st.pending.caret.(kind := Uninitialized)); }
  }

  lemma BeginKeeps(st: State, c: Call)
    requires Sound(st) && c.BeginInputTransaction?
    ensures Keeps(st, Run(st, c))
    decreases c, 2
  {
    assert Run(st, c) == Begin(st, c).0;
    if CanBegin(st, c) {
      TakeOverKeeps(st, c);
      RunAllKeeps(TakeOver(st, c.listener.value, c.kind), c.onRemoved);
    }
  }

  lemma TakeOverKeeps(st: State, c: Call)
    requires Sound(st) && c.BeginInputTransaction? && CanBegin(st, c)
    ensures Keeps(st, TakeOver(st, c.listener.value, c.kind))
  {
  }

  lemma EndKeeps(st: State, c: Call)
    requires Sound(st) && c.EndInputTransaction?
    ensures Keeps(st, Run(st, c))
    decreases c, 2
  {
    assert Run(st, c) == End(st, c);
    UnownedIsSound(st);
    if !st.isComposing && !st.IsDispatchingEvent() && st.listener.Some? && st.listener == c.listener {
      RunAllKeeps(st.(kind := NoInputTransaction, listener := None), c.onRemoved);
    }
  }

  lemma UnownedIsSound(st: State)
    requires Sound(st)
    ensures Sound(st.(kind := NoInputTransaction))
    ensures Sound(st.(kind := NoInputTransaction, listener := None))
  {
  }

  lemma DestroyKeeps(st: State, c: Call)
    requires Sound(st) && c.OnDestroyWidget?
    ensures Keeps(st, Run(st, c))
    decreases c, 2
  {
    assert Run(st, c) == Destroy(st, c);
    RunAllKeeps(
      st.(hasWidget := false, listener := None, kind := NoInputTransaction, pending := st.pending.Cleared()),
      c.onRemoved);
  }

  lemma StartKeeps(st: State, c: Call)
    requires Sound(st) && c.StartComposition?
    ensures Keeps(st, Run(st, c))
    decreases c, 2
  {
    StartIfNecessaryKeeps(st, c.onStart);
    assert Run(st, c) == Start(st, c.onStart).0;
  }

  lemma KeyboardKeeps(st: State, c: Call)
    requires Sound(st) && c.DispatchKeyboardEvent?
    ensures Keeps(st, Run(st, c))
    decreases c, 2
  {
    if st.IsAvailable() && (!st.isComposing || c.duringComposition) {
      KeyKeeps(st, c.onKey);
      assert Run(st, c) == Dispatch(st, None, c.onKey);
    } else {
      assert Run(st, c) == st;
    }
  }

  lemma NotifyKeeps(st: State, c: Call)
    requires Sound(st) && c.NotifyCompositionEventHandled?
    ensures Keeps(st, Run(st, c))
    decreases c, 2
  {
    RunAllKeeps(if st.isComposing then st else st.(isHandlingComposition := false), c.onNotify);
  }

  lemma DeathKeeps(st: State, c: Call)
    requires Sound(st) && (c.ListenerDies? || c.WidgetDies?)
    ensures Keeps(st, Run(st, c))
  {
  }

  lemma RunKeeps(st: State, c: Call)
    requires Sound(st)
    ensures Keeps(st, Run(st, c))
    decreases c, 3
  {
    match c
    case StartComposition(_) => StartKeeps(st, c);
    case CommitComposition(_, _, _) => CommitKeeps(st, c);
    case EditPending(_) => EditKeeps(st, c);
    case FlushPendingComposition(_, _) => FlushKeeps(st, c);
    case DispatchKeyboardEvent(_, _) => KeyboardKeeps(st, c);
    case BeginInputTransaction(_, _, _) => BeginKeeps(st, c);
    case EndInputTransaction(_, _) => EndKeeps(st, c);
    case NotifyCompositionEventHandled(_) => NotifyKeeps(st, c);
    case ListenerDies => DeathKeeps(st, c);
    case WidgetDies => DeathKeeps(st, c);
    case OnDestroyWidget(_) => DestroyKeeps(st, c);
  }

  lemma RunAllKeeps(st: State, calls: seq<Call>)
    requires Sound(st)
    ensures Keeps(st, RunAll(st, calls))
    decreases calls, 0
  {
    if calls == [] {
    } else {
      RunKeeps(st, calls[0]);
      RunAllKeeps(Run(st, calls[0]), calls[1..]);
    }
  }

  const INITIAL := State(false, false, 0, None, NoInputTransaction, true, false, CLEARED, 0, [], [], [], false)

  /** Whatever the handlers do, the composition events are dispatched in the order
      (Start Change* Commit)*, the dispatcher handles a composition while it is
      composing, its counter tells how deep events are nested, and no live listener is
      robbed of a composition, or of an event that is being dispatched unless events
      are nested so deep that the 16-bit counter is back at 0. No text has a CR in it
      unless somebody has set a string with one after Set. */
  lemma EveryCallTreeIsSound(calls: seq<Call>)
    ensures var r := RunAll(INITIAL, calls);
      && IsOrdered(Messages(r.dispatched), r.isComposing)
      && (!r.tainted ==> ShowsNoCR(r.dispatched))
      && (r.isComposing ==> r.isHandlingComposition)
      && r.dispatchingEvent == 0 && CounterIsDepth(r.nesting)
      && NobodySteals(r.takeovers)
  {
    EmptyIsOrdered();
    RunAllKeeps(INITIAL, calls);
  }

  // ----- What is dispatched -----

  /** A commit as it should reach web content. */
  function CommitOf(text: Option<string>): Dispatched {
    match text
    case Some(t) => Dispatched(Event(CompositionCommit, WithLF(t)), None)
    case None => Dispatched(Event(CompositionCommitAsIs, ""), None)
  }

  /** The event at n is e. */
  ghost predicate DispatchesAt(r: State, n: nat, e: Dispatched) {
    n < |r.dispatched| && r.dispatched[n] == e
  }

  lemma DispatchesFirst(st: State, e: Dispatched, after: bool, h: Handler)
    requires Sound(st) && MayDispatch(st, e, after)
    ensures DispatchesAt(
      Dispatch(st.(isComposing := after, isHandlingComposition := st.isHandlingComposition || after), Some(e), h),
      |st.dispatched|, e)
  {
    var announced := st.(isComposing := after, isHandlingComposition := st.isHandlingComposition || after);
    EnterKeeps(st, Some(e), after);
    RunAllKeeps(Enter(announced, Some(e)), h.calls);
  }

  /** Starting, if need be, dispatches a start first; a start whose handler does nothing
      lets the caller go on exactly if it succeeds. */
  lemma StartsFirst(st: State, h: Handler)
    requires Sound(st) && st.IsAvailable()
    ensures st.isComposing ==> StartIfNecessary(st, h) == (st, Proceed)
    ensures !st.isComposing ==> DispatchesAt(StartIfNecessary(st, h).0, |st.dispatched|, START)
    ensures !st.isComposing && h.calls == [] ==> (StartIfNecessary(st, h).1.Proceed? <==> h.status.Success?)
  {
    if !st.isComposing { DispatchesFirst(st, START, true, h); }
  }

  /** A commit carries the text that it was called with, its line breaks as LF: right
      away while composing, and else after a start, unless that ended the call. */
  lemma CommitCarriesText(st: State, c: Call)
    requires Sound(st) && st.IsAvailable() && c.CommitComposition?
    requires st.isComposing || (c.text.Some? && c.text.value != "")
    ensures var (started, outcome) := StartIfNecessary(st, c.onStart);
      outcome.Proceed? ==> DispatchesAt(Run(st, c), |started.dispatched|, CommitOf(c.text))
    ensures st.isComposing ==> DispatchesAt(Run(st, c), |st.dispatched|, CommitOf(c.text))
    ensures !st.isComposing ==> DispatchesAt(Run(st, c), |st.dispatched|, START)
  {
    assert Run(st, c) == Commit(st, c).0;
    StartIfNecessaryKeeps(st, c.onStart);
    StartsFirst(st, c.onStart);
    var (started, outcome) := StartIfNecessary(st, c.onStart);
    if outcome.Proceed? {
      CommitShowsNoCR(c.text);
      if c.text.Some? { NormaliseMakesLF(c.text.value); }
      DispatchesFirst(started, CommitEvent(c.text), false, c.onCommit);
      DispatchKeeps(started, CommitEvent(c.text), false, c.onCommit);
    }
  }

  /** A flush carries the text that was pending, its line breaks as LF unless Set had
      replaced them, and the ranges of the flush. */
  lemma FlushCarriesText(st: State, c: Call)
    requires Sound(st) && st.IsAvailable() && c.FlushPendingComposition? && st.pending.IsConsistent()
    ensures var (started, outcome) := StartIfNecessary(st.(pending := st.pending.AfterFlush()), c.onStart);
      var text := if st.pending.replaced then st.pending.text else WithLF(st.pending.text);
      outcome.Proceed? ==>
        DispatchesAt(Run(st, c), |started.dispatched|,
                     Dispatched(Event(CompositionChange, text), st.pending.Flushed().clauses))
  {
    assert Run(st, c) == FlushPending(st, c).0;
    ForgottenIsSound(st);
    NormaliseMakesLF(st.pending.text);
    var forgotten := st.(pending := st.pending.AfterFlush());
    StartIfNecessaryKeeps(forgotten, c.onStart);
    var (started, outcome) := StartIfNecessary(forgotten, c.onStart);
    if outcome.Proceed? {
      assert started == started.(
        isComposing := true, isHandlingComposition := started.isHandlingComposition || true);
      DispatchesFirst(started, ChangeEvent(st.pending.Flushed()), true, c.onChange);
    }
  }

  // ----- A composition set part by part -----

  datatype Clause = Clause(length: uint32, kind: TextRangeType)
  {
    predicate IsValid() { length > 0 && IsClauseType(kind) }
  }

  function EditedAll(p: Pending, cs: seq<Clause>): Pending {
    if cs == [] then p
    else Edited(EditedAll(p, cs[..|cs| - 1]), EditClause(cs[|cs| - 1].length, cs[|cs| - 1].kind))
  }

  /** The clauses that are not refused, and how long they are together. */
  function ValidClauses(cs: seq<Clause>): nat {
    if cs == [] then 0 else ValidClauses(cs[..|cs| - 1]) + if cs[|cs| - 1].IsValid() then 1 else 0
  }

  function ValidLength(cs: seq<Clause>): nat {
    if cs == [] then 0 else ValidLength(cs[..|cs| - 1]) + if cs[|cs| - 1].IsValid() then cs[|cs| - 1].length else 0
  }

  lemma {:induction false} ClausesAddUp(p: Pending, cs: seq<Clause>)
    requires p.Clauses() == [] && ValidLength(cs) <= UINT32_MAX
    ensures var r := EditedAll(p, cs);
      && r == p.(clauses := r.clauses)
      && |r.Clauses()| == ValidClauses(cs) && r.EndOfClauses() == ValidLength(cs)
      && Tile(r.Clauses(), ValidLength(cs))
  {
    if cs == [] {
    } else {
      ClausesAddUp(p, cs[..|cs| - 1]);
    }
  }

  /** A composition that is set part by part: its clauses are those that are not refused,
      one behind the other, and the caret is where it was set. A flush accepts it exactly
      if the clauses, if any, are as long as the text and the caret lies in it. */
  lemma PartsAreAcceptedExactly(s: ShortString, cs: seq<Clause>, offset: uint32, width: uint32)
    requires ValidLength(cs) <= UINT32_MAX && offset + width <= UINT32_MAX
    ensures var p := Edited(EditedAll(Edited(CLEARED, EditString(s)), cs), EditCaret(offset, width));
      && p.text == s && p.caret == TextRange(offset, offset + width, Caret) && !p.replaced
      && |p.Clauses()| == ValidClauses(cs) && Tile(p.Clauses(), ValidLength(cs))
      && (p.IsConsistent() <==> (ValidClauses(cs) == 0 || ValidLength(cs) == |s|) && offset + width <= |s|)
  {
    ClausesAddUp(Edited(CLEARED, EditString(s)), cs);
  }

  /** The widget is gone, or on its way. */
  predicate IsGone(st: State) { !st.hasWidget || st.widgetDestroyed }

  /** Without a widget nothing is dispatched any more, whatever is called. */
  lemma SilentWhenGone(st: State, calls: seq<Call>)
    requires IsGone(st)
    ensures var r := RunAll(st, calls); IsGone(r) && r.dispatched == st.dispatched && r.nesting == st.nesting
    decreases calls, 0
  {
    if calls == [] {
    } else {
      CallSilentWhenGone(st, calls[0]);
      SilentWhenGone(Run(st, calls[0]), calls[1..]);
    }
  }

  /** Without a listener or a widget there is no event. */
  lemma UnavailableIgnores(st: State, c: Call)
    requires !st.IsAvailable()
    requires c.StartComposition? || c.CommitComposition? || c.FlushPendingComposition? || c.DispatchKeyboardEvent?
    ensures Run(st, c) == st
  {
  }

  /** There is none once the listener or the widget is gone. */
  lemma UnavailableAfterDeath(st: State)
    ensures !Run(st, ListenerDies).IsAvailable() && IsGone(Run(st, WidgetDies))
    ensures !Run(st, OnDestroyWidget([])).IsAvailable() && IsGone(Run(st, OnDestroyWidget([])))
  {
    assert RunAll(st, []) == st;
  }

  predicate ChangesOwner(c: Call) {
    c.BeginInputTransaction? || c.EndInputTransaction? || c.OnDestroyWidget?
  }

  lemma OwnersSilentWhenGone(st: State, c: Call)
    requires IsGone(st) && ChangesOwner(c)
    ensures var r := Run(st, c); IsGone(r) && r.dispatched == st.dispatched && r.nesting == st.nesting
    decreases c, 2
  {
    match c
    case BeginInputTransaction(l, kind, onRemoved) =>
      if CanBegin(st, c) { SilentWhenGone(TakeOver(st, l.value, kind), onRemoved); }
    case EndInputTransaction(_, onRemoved) =>
      SilentWhenGone(st.(kind := NoInputTransaction, listener := None), onRemoved);
    case OnDestroyWidget(onRemoved) =>
      SilentWhenGone(
        st.(hasWidget := false, listener := None, kind := NoInputTransaction, pending := st.pending.Cleared()),
        onRemoved);
  }

  lemma CallSilentWhenGone(st: State, c: Call)
    requires IsGone(st)
    ensures var r := Run(st, c); IsGone(r) && r.dispatched == st.dispatched && r.nesting == st.nesting
    decreases c, 3
  {
    if ChangesOwner(c) {
      OwnersSilentWhenGone(st, c);
    } else if c.NotifyCompositionEventHandled? {
      SilentWhenGone(if st.isComposing then st else st.(isHandlingComposition := false), c.onNotify);
    } else if !(c.EditPending? || c.ListenerDies? || c.WidgetDies?) {
      UnavailableIgnores(st, c);
    }
  }

  // ----- Who owns the dispatcher -----

  /** A call to begin succeeds exactly if the listener owns the dispatcher afterwards, and
      has no effect otherwise. One that names a listener fails exactly if another owner, or
      another type of transaction, has a composition or an event. */
  lemma BeginOwnsExactly(st: State, c: Call)
    requires c.BeginInputTransaction? && c.onRemoved == []
    ensures var (r, status) := Begin(st, c);
      && (status.Success? <==> c.listener.Some? && r.listener == c.listener && r.kind == c.kind)
      && (!status.Success? ==> r == st)
      && (status == InvalidArgument <==> c.listener.None?)
      && (status == AlreadyInitialized <==>
            && c.listener.Some? && st.listener.Some? && !(st.listener == c.listener && st.kind == c.kind)
            && (st.isComposing || st.IsDispatchingEvent()))
  {
  }

  /** A call to end frees the dispatcher exactly if the owner makes it, nothing is composed
      and no event is being dispatched. Made by another listener, it takes the type of the
      owner's transaction away. */
  lemma EndFreesExactly(st: State, c: Call)
    requires c.EndInputTransaction? && c.onRemoved == [] && st.listener.Some?
    ensures var r := End(st, c);
      && (r.listener.None? <==> c.listener == st.listener && !st.isComposing && !st.IsDispatchingEvent())
      && (r.listener.Some? ==> r.listener == st.listener)
      && (if st.isComposing || st.IsDispatchingEvent() then r == st else r.kind.NoInputTransaction?)
  {
  }

  /** Once freed, anyone can begin. */
  lemma FreedCanBegin(st: State, c: Call, next: Call)
    requires c.EndInputTransaction? && c.onRemoved == [] && next.BeginInputTransaction? && next.onRemoved == []
    requires st.listener.Some? && c.listener == st.listener && !st.isComposing && !st.IsDispatchingEvent()
    ensures next.listener.Some? ==> Begin(End(st, c), next).1.Success?
  {
  }

  /** What a listener does when it is removed happens exactly if a live one was: it lost
      its place to another, ended its transaction, or lost its widget. */
  lemma RemovedListenerIsTold(st: State, c: Call)
    requires !st.widgetDestroyed && ChangesOwner(c)
    requires c.onRemoved == [WidgetDies]
    ensures Run(st, c).widgetDestroyed <==> st.listener.Some? && Run(st, c).listener != st.listener
  {
    RunsFirst(st, c.onRemoved);
    match c
    case BeginInputTransaction(l, kind, onRemoved) =>
      if CanBegin(st, c) { RunsFirst(TakeOver(st, l.value, kind), onRemoved); }
    case EndInputTransaction(_, onRemoved) => RunsFirst(st.(kind := NoInputTransaction, listener := None), onRemoved);
    case OnDestroyWidget(onRemoved) =>
      RunsFirst(
        st.(hasWidget := false, listener := None, kind := NoInputTransaction, pending := st.pending.Cleared()),
        onRemoved);
  }

  // ----- A composition from start to end -----

  /** With a handler that does nothing, dispatching only leaves its trace. */
  lemma QuietDispatch(st: State, e: Dispatched)
    requires 0 <= st.dispatchingEvent < UINT16_RANGE
    ensures var r := Dispatch(st, Some(e), QUIET);
      r == st.(dispatched := st.dispatched + [e],
               nesting := st.nesting + [(Increment16(st.dispatchingEvent), st.depth + 1)])
  {
    var entered := Enter(st, Some(e));
    assert RunAll(entered, QUIET.calls) == entered;
    LeavesTrace(st, e);
  }

  lemma LeavesTrace(st: State, e: Dispatched)
    requires 0 <= st.dispatchingEvent < UINT16_RANGE
    ensures Leave(Enter(st, Some(e))) == st.(
      dispatched := st.dispatched + [e],
      nesting := st.nesting + [(Increment16(st.dispatchingEvent), st.depth + 1)])
  {
    CounterReturns(st.dispatchingEvent);
  }

  lemma CounterReturns(n: int)
    requires 0 <= n < UINT16_RANGE
    ensures Decrement16(Increment16(n)) == n
  {
  }

  predicate IsReady(st: State) {
    st.IsAvailable() && 0 <= st.dispatchingEvent < UINT16_RANGE
  }

  lemma QuietStart(st: State)
    requires IsReady(st) && !st.isComposing
    ensures var r := Run(st, StartComposition(QUIET));
      r == st.(isComposing := true, isHandlingComposition := true,
               dispatched := st.dispatched + [START], nesting := r.nesting)
  {
    QuietDispatch(st.(isComposing := true, isHandlingComposition := true), START);
  }

  lemma QuietFlush(st: State)
    requires IsReady(st) && st.isComposing && st.pending.IsConsistent()
    ensures var r := Run(st, FlushPendingComposition(QUIET, QUIET));
      r == st.(pending := st.pending.AfterFlush(),
               dispatched := st.dispatched + [ChangeEvent(st.pending.Flushed())], nesting := r.nesting)
  {
    QuietDispatch(st.(pending := st.pending.AfterFlush()), ChangeEvent(st.pending.Flushed()));
  }

  lemma QuietCommit(st: State, text: Option<string>)
    requires IsReady(st) && st.isComposing
    ensures var r := Run(st, CommitComposition(text, QUIET, QUIET));
      r == st.(isComposing := false, dispatched := st.dispatched + [CommitOf(text)], nesting := r.nesting)
  {
    var c, e := CommitComposition(text, QUIET, QUIET), CommitEvent(text);
    if text.Some? { NormaliseMakesLF(text.value); }
    QuietDispatch(st.(isComposing := false), e);
    assert StartIfNecessary(st, c.onStart) == (st, Proceed);
    assert Commit(st, c).0 == Dispatch(st.(isComposing := false), Some(e), QUIET);
    assert Run(st, c) == Commit(st, c).0;
  }

  /** The single clause that Set makes for a text, line breaks replaced. */
  function WholeClause(text: string): Option<seq<TextRange>>
    requires |text| <= UINT32_MAX
  {
    if text == "" then None else Some([TextRange(0, |text|, RawClause)])
  }

  lemma SetWhole(s: ShortString, none: TextRange)
    requires !none.kind.Caret?
    ensures var p := SetTo(s, [], none);
      |WithLF(s)| <= |s| && p == Pending(WithLF(s), WholeClause(WithLF(s)), none, s != "") && p.IsConsistent()
  {
    NormaliseMakesLF(s);
    NormalisedText(s);
    if s != "" {
      var whole := TextRange(0, |s|, RawClause);
      LastClauseEndsExactly(whole, s);
      assert AdjustAll([whole], s) == [Adjusted(whole, s)];
      CollapseStep(s);
      NormaliseLength(s);
    }
  }

  function PlainComposition(s: ShortString, text: Option<string>): seq<Call> {
    [ StartComposition(QUIET), EditPending(EditAll(s, [])), FlushPendingComposition(QUIET, QUIET),
      CommitComposition(text, QUIET, QUIET), NotifyCompositionEventHandled([]) ]
  }

  /** Setting a text and flushing it. */
  lemma PlainTextRuns(st: State, s: ShortString)
    requires IsReady(st) && st.isComposing
    ensures |WithLF(s)| <= |s|
    ensures var r := Run(Run(st, EditPending(EditAll(s, []))), FlushPendingComposition(QUIET, QUIET));
      && r == st.(dispatched := st.dispatched
                  + [Dispatched(Event(CompositionChange, WithLF(s)), WholeClause(WithLF(s)))],
                  nesting := r.nesting, pending := r.pending)
      && r.pending.text == "" && r.pending.clauses.None? && !r.pending.caret.kind.Caret? && !r.pending.replaced
  {
    SetWhole(s, st.pending.caret.(kind := Uninitialized));
    var edited := Run(st, EditPending(EditAll(s, [])));
    QuietFlush(edited);
    FlushedWhole(s, edited.pending);
  }

  lemma FlushedWhole(s: ShortString, p: Pending)
    requires |WithLF(s)| <= |s| && p == Pending(WithLF(s), WholeClause(WithLF(s)), p.caret, s != "")
    requires !p.caret.kind.Caret?
    ensures ChangeEvent(p.Flushed()) == Dispatched(Event(CompositionChange, WithLF(s)), WholeClause(WithLF(s)))
  {
  }

  /** A whole composition with handlers that do nothing: a start, a change with the text in
      one clause and a commit are dispatched, and afterwards nothing is left of it. */
  lemma PlainCompositionRuns(st: State, s: ShortString, text: Option<string>)
    requires IsReady(st) && !st.isComposing
    ensures |WithLF(s)| <= |s|
    ensures var r := RunAll(st, PlainComposition(s, text));
      && r.dispatched == st.dispatched
         + [START, Dispatched(Event(CompositionChange, WithLF(s)), WholeClause(WithLF(s))), CommitOf(text)]
      && r == st.(isHandlingComposition := false,
                  dispatched := r.dispatched, nesting := r.nesting, pending := r.pending)
      && r.pending.text == "" && r.pending.clauses.None? && !r.pending.caret.kind.Caret? && !r.pending.replaced
  {
    var calls := PlainComposition(s, text);
    QuietStart(st);
    var s1 := Run(st, calls[0]);
    PlainTextRuns(s1, s);
    var s3 := Run(Run(s1, calls[1]), calls[2]);
    QuietCommit(s3, text);
    assert Run(Run(s3, calls[3]), calls[4]) == Run(s3, calls[3]).(isHandlingComposition := false);
    RunsFirst(st, calls);
    RunsFour(s1, calls[1..]);
  }

  lemma RunsFirst(st: State, calls: seq<Call>)
    requires calls != []
    ensures RunAll(st, calls) == RunAll(Run(st, calls[0]), calls[1..])
    ensures |calls| == 1 ==> RunAll(st, calls) == Run(st, calls[0])
  {
  }

  /** Keyboard events, one inside the other, and in the innermost handler another
      listener asks for the dispatcher. */
  function Nested(events: nat): Call {
    if events == 0 then BeginInputTransaction(Some(1), NativeInputTransaction, [])
    else DispatchKeyboardEvent(true, Handler([Nested(events - 1)], Success))
  }

  lemma {:induction false} NestedTakesOver(st: State, events: nat)
    requires st.listener == Some(0) && st.hasWidget && !st.widgetDestroyed && !st.isComposing
    requires st.dispatchingEvent == st.depth % UINT16_RANGE
    ensures var depth := st.depth + events;
      Run(st, Nested(events)).takeovers
      == st.takeovers + if depth % UINT16_RANGE == 0 then [Takeover(Some(0), 1, false, depth)] else []
    decreases events
  {
    if events == 0 {
    } else {
      var entered := Enter(st, None);
      var inner := Nested(events - 1);
      NestedTakesOver(entered, events - 1);
      RunsFirst(entered, [inner]);
      assert Run(st, Nested(events)) == Leave(Run(entered, inner));
    }
  }

  /** A listener is robbed of a keyboard event that is being dispatched exactly if the
      16-bit counter has come round to 0. */
  lemma RobbedExactlyAtFullTurns(events: nat)
    requires events > 0
    ensures var calls := [BeginInputTransaction(Some(0), NativeInputTransaction, []), Nested(events)];
      Takeover(Some(0), 1, false, events) in RunAll(INITIAL, calls).takeovers <==> events % UINT16_RANGE == 0
  {
    var calls := [BeginInputTransaction(Some(0), NativeInputTransaction, []), Nested(events)];
    var begun := Run(INITIAL, calls[0]);
    assert begun.takeovers == [Takeover(None, 0, false, 0)];
    RunsFirst(INITIAL, calls);
    RunsFirst(begun, calls[1..]);
    NestedTakesOver(begun, events);
  }

  const STRING_AFTER_SET := [
    BeginInputTransaction(Some(0), NativeInputTransaction, []),
    EditPending(EditAll("a", [])),
    EditPending(EditString("\r")),
    FlushPendingComposition(QUIET, QUIET)]

  /** Line breaks are replaced once: a string that is set after Set goes out as it is. */
  lemma StringAfterSetShowsCR()
    ensures !ShowsNoCR(RunAll(INITIAL, STRING_AFTER_SET).dispatched)
  {
    var calls := STRING_AFTER_SET;
    var s1 := Run(INITIAL, calls[0]);
    var s2 := Run(s1, calls[1]);
    var s3 := Run(s2, calls[2]);
    RunsFour(INITIAL, calls);
    SingleIsReplaced();
    assert s3.pending == Pending("\r", Some([TextRange(0, 1, RawClause)]), NO_CARET, true);
    var started := StartIfNecessary(s3.(pending := s3.pending.AfterFlush()), QUIET).0;
    var change := ChangeEvent(s3.pending.Flushed());
    assert Run(s3, calls[3]) == Dispatch(started, Some(change), QUIET);
    assert Run(s3, calls[3]).dispatched == started.dispatched + [change];
    assert change.event.data == "\r" && change in Run(s3, calls[3]).dispatched;
  }

  lemma RunsFour(st: State, calls: seq<Call>)
    requires |calls| == 4
    ensures RunAll(st, calls) == Run(Run(Run(Run(st, calls[0]), calls[1]), calls[2]), calls[3])
  {
    RunsFirst(st, calls);
    RunsFirst(Run(st, calls[0]), calls[1..]);
    RunsFirst(Run(Run(st, calls[0]), calls[1]), calls[2..]);
    RunsFirst(Run(Run(Run(st, calls[0]), calls[1]), calls[2]), calls[3..]);
  }

  lemma SingleIsReplaced()
    ensures SetTo("a", [], NO_CARET) == Pending("a", Some([TextRange(0, 1, RawClause)]), NO_CARET, true)
  {
    assert Normalise("a") == "a";
  }

  // ----- The object -----

  class TextEventDispatcher {
    var isComposing: bool
    var isHandlingComposition: bool
    var dispatchingEvent: int
    var listener: Option<Listener>
    var inputTransactionType: TransactionType
    var hasWidget: bool
    var widgetDestroyed: bool
    const pendingComposition: PendingComposition
    ghost var depth: nat
    ghost var dispatched: seq<Dispatched>
    ghost var nesting: seq<(int, nat)>
    ghost var takeovers: seq<Takeover>
    ghost var tainted: bool

    ghost function Now(): State
      reads this, pendingComposition
    {
      State.State(
        isComposing, isHandlingComposition, dispatchingEvent, listener, inputTransactionType, hasWidget,
        widgetDestroyed, pendingComposition.Now(), depth, dispatched, nesting, takeovers, tainted)
    }

    method GetState() returns (status: Status)
      ensures status == Now().Availability()
    {
      if listener.None? {
        return NotInitialized;
      }
      if !hasWidget || widgetDestroyed {
        return NotAvailable;
      }
      return Success;
    }

    constructor ()
      ensures Now() == INITIAL && fresh(pendingComposition)
    {
      pendingComposition := new PendingComposition();
      isComposing, isHandlingComposition, dispatchingEvent := false, false, 0;
      listener, inputTransactionType, hasWidget, widgetDestroyed := None, NoInputTransaction, true, false;
      depth, dispatched, nesting, takeovers, tainted := 0, [], [], [], false;
    }

    /** `e` is None for a keyboard event. */
    method DispatchEvent(e: Option<Dispatched>, h: Handler) returns (status: Status)
      modifies this, pendingComposition
      ensures Now() == Dispatch(old(Now()), e, h) && status == h.status
      decreases h, 0
    {
      dispatchingEvent := Increment16(dispatchingEvent);
      depth := depth + 1;
      nesting := nesting + [(dispatchingEvent, depth)];
      if e.Some? {
        dispatched := dispatched + [e.value];
      }
      assert Now() == Enter(old(Now()), e);
      Handle(h.calls);
      dispatchingEvent := Decrement16(dispatchingEvent);
      depth := if depth == 0 then 0 else depth - 1;
      return h.status;
    }

    method Handle(calls: seq<Call>)
      modifies this, pendingComposition
      ensures Now() == RunAll(old(Now()), calls)
      decreases calls, 0
    {
      if calls != [] {
        Do(calls[0]);
        Handle(calls[1..]);
      }
    }

    method StartComposition(h: Handler) returns (status: Status)
      modifies this, pendingComposition
      ensures (Now(), status) == Start(old(Now()), h)
      decreases h, 1
    {
      status := GetState();
      if !status.Success? {
        return;
      }
      if isComposing {
        return Failure;
      }
      isComposing, isHandlingComposition := true, true;
      status := DispatchEvent(Some(START), h);
    }

    method StartCompositionAutomaticallyIfNecessary(h: Handler) returns (outcome: Outcome)
      modifies this, pendingComposition
      ensures (Now(), outcome) == StartIfNecessary(old(Now()), h)
      decreases h, 2
    {
      if isComposing {
        return Proceed;
      }
      var status := StartComposition(h);
      if !status.Success? {
        return Failed(status);
      }
      if !isComposing {
        return Consumed;
      }
      status := GetState();
      return if status.Success? then Proceed else Consumed;
    }

    method CommitComposition(text: Option<string>, onStart: Handler, onCommit: Handler) returns (status: Status)
      modifies this, pendingComposition
      ensures (Now(), status) == Commit(old(Now()), Call.CommitComposition(text, onStart, onCommit))
      decreases Call.CommitComposition(text, onStart, onCommit), 2
    {
      status := GetState();
      if !status.Success? {
        return;
      }
      if !isComposing && (text.None? || text.value == "") {
        return Failure;
      }
      var outcome := StartCompositionAutomaticallyIfNecessary(onStart);
      if !outcome.Proceed? {
        return outcome.Result();
      }
      isComposing := false;
      var data := "";
      if text.Some? {
        data := ReplaceSubstring(ReplaceSubstring(text.value, "\r\n", "\n"), "\r", "\n");
      }
      var message := if text.Some? then CompositionCommit else CompositionCommitAsIs;
      status := DispatchEvent(Some(Dispatched(Event(message, data), None)), onCommit);
    }

    method FlushPendingComposition(onStart: Handler, onChange: Handler) returns (status: Status)
      modifies this, pendingComposition
      ensures (Now(), status) == FlushPending(old(Now()), Call.FlushPendingComposition(onStart, onChange))
      decreases Call.FlushPendingComposition(onStart, onChange), 2
    {
      status := GetState();
      var change := pendingComposition.Flush(status.Success?);
      if change.None? {
        return if status.Success? then IllegalValue else status;
      }
      var outcome := StartCompositionAutomaticallyIfNecessary(onStart);
      if !outcome.Proceed? {
        return outcome.Result();
      }
      status := DispatchEvent(
        Some(Dispatched(Event(CompositionChange, change.value.text), change.value.clauses)), onChange);
    }

    method EditPendingComposition(e: Edit)
      modifies this`tainted, pendingComposition
      ensures pendingComposition.Now() == Edited(old(pendingComposition.Now()), e)
      ensures tainted == (old(tainted) || Taints(old(pendingComposition.Now()), e))
    {
      tainted := tainted || Taints(pendingComposition.Now(), e);
      match e
      case EditString(s) => pendingComposition.SetString(s);
      case EditClause(length, kind) => var _ := pendingComposition.AppendClause(length, kind);
      case EditCaret(offset, width) => pendingComposition.SetCaret(offset, width);
      case EditAll(s, ranges) => pendingComposition.Set(s, ranges);
      case EditAway => pendingComposition.Clear();
    }

    /** A live listener keeps its place while there is a composition or an event is
        being dispatched. */
    method BeginInputTransactionInternal(l: Option<Listener>, kind: TransactionType, onRemoved: seq<Call>)
      returns (status: Status)
      modifies this, pendingComposition
      ensures (Now(), status) == Begin(old(Now()), Call.BeginInputTransaction(l, kind, onRemoved))
      decreases Call.BeginInputTransaction(l, kind, onRemoved), 2
    {
      if l.None? {
        return InvalidArgument;
      }
      var live := listener;
      if live.Some? {
        if live == l && inputTransactionType == kind {
          return Success;
        }
        if isComposing || dispatchingEvent > 0 {
          return AlreadyInitialized;
        }
      }
      takeovers := takeovers + [Takeover(listener, l.value, isComposing, depth)];
      listener, inputTransactionType := l, kind;
      if live.Some? && live != l {
        Handle(onRemoved);
      }
      return Success;
    }

    method EndInputTransaction(l: Option<Listener>, onRemoved: seq<Call>)
      modifies this, pendingComposition
      ensures Now() == End(old(Now()), Call.EndInputTransaction(l, onRemoved))
      decreases Call.EndInputTransaction(l, onRemoved), 2
    {
      if isComposing || dispatchingEvent > 0 {
        return;
      }
      inputTransactionType := NoInputTransaction;
      if listener.None? || listener != l {
        return;
      }
      listener := None;
      Handle(onRemoved);
    }

    method OnDestroyWidget(onRemoved: seq<Call>)
      modifies this, pendingComposition
      ensures Now() == Destroy(old(Now()), Call.OnDestroyWidget(onRemoved))
      decreases Call.OnDestroyWidget(onRemoved), 2
    {
      pendingComposition.Clear();
      var live := listener;
      hasWidget, listener, inputTransactionType := false, None, NoInputTransaction;
      if live.Some? {
        Handle(onRemoved);
      }
    }

    method DispatchKeyboardEvent(during: bool, h: Handler)
      modifies this, pendingComposition
      ensures Now() == Run(old(Now()), Call.DispatchKeyboardEvent(during, h))
      decreases Call.DispatchKeyboardEvent(during, h), 2
    {
      var status := GetState();
      if status.Success? && (!isComposing || during) {
        var _ := DispatchEvent(None, h);
      }
    }

    /** NotifyIME, when the content has handled all composition events. */
    method NotifyCompositionEventHandled(onNotify: seq<Call>)
      modifies this, pendingComposition
      ensures Now() == Run(old(Now()), Call.NotifyCompositionEventHandled(onNotify))
      decreases Call.NotifyCompositionEventHandled(onNotify), 2
    {
      if !isComposing {
        isHandlingComposition := false;
      }
      Handle(onNotify);
    }

    method Do(c: Call)
      modifies this, pendingComposition
      ensures Now() == Run(old(Now()), c)
      decreases c, 3
    {
      match c
      case StartComposition(h) => var _ := StartComposition(h);
      case CommitComposition(text, onStart, onCommit) => var _ := CommitComposition(text, onStart, onCommit);
      case EditPending(e) => EditPendingComposition(e);
      case FlushPendingComposition(onStart, onChange) => var _ := FlushPendingComposition(onStart, onChange);
      case DispatchKeyboardEvent(during, h) => DispatchKeyboardEvent(during, h);
      case BeginInputTransaction(l, kind, onRemoved) => var _ := BeginInputTransactionInternal(l, kind, onRemoved);
      case EndInputTransaction(l, onRemoved) => EndInputTransaction(l, onRemoved);
      case NotifyCompositionEventHandled(onNotify) => NotifyCompositionEventHandled(onNotify);
      case ListenerDies => listener := None;
      case WidgetDies => widgetDestroyed := true;
      case OnDestroyWidget(onRemoved) => OnDestroyWidget(onRemoved);
    }
  }
}

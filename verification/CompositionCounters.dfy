/** The bookkeeping of composition events in the parent process, as functions of
    the old bookkeeping. ContentCacheInParent is proved to compute them;
    CompositionProtocol proves what they are for. */
module CompositionCounters {
  import opened BasicTypes
  import opened CompositionEvents

  function Increment8(n: uint8): uint8 {
    (n + 1) % (UINT8_MAX + 1)
  }

  function Increment32(n: uint32): uint32 {
    Wrap(n + 1)
  }

  /** A message the content process acknowledges: either the event it received or
      the notice that it has committed the composition by itself. */
  datatype Acknowledgement = Received(message: EventMessage) | CommitRequestHandled

  datatype Counters = Counters(
    pendingEventsNeedingAck: uint32,
    pendingCompositionCount: uint8,
    pendingCommitCount: uint8,
    widgetHasComposition: bool,
    isChildIgnoringCompositionEvents: bool,
    compositionStart: uint32,
    compositionStartInChild: uint32,
    compositionString: string,
    pendingCommitLength: nat,
    selectionStart: uint32)
  {
    /** The text event dispatcher keeps composition events in order, and the release
        assertion on the number of pending compositions aborts the process. */
    predicate CanDispatch(m: EventMessage) {
      && MayFollow(widgetHasComposition, m)
      && (!widgetHasComposition ==> pendingCompositionCount < UINT8_MAX)
    }

    function Begin(pluginHasFocus: bool): Counters
      requires pendingCompositionCount < UINT8_MAX
    {
      this.(
        compositionStart :=
          if pluginHasFocus then 0
          else if compositionStartInChild != UINT32_MAX then compositionStartInChild
          else selectionStart,
        pendingCompositionCount := pendingCompositionCount + 1)
    }

    function Record(e: Event): Counters {
      if CausesDOMCompositionEndEvent(e.message) then
        this.(
          widgetHasComposition := false,
          pendingCommitLength := if pendingCompositionCount == 1 then |e.data| else pendingCommitLength,
          pendingCommitCount := Increment8(pendingCommitCount))
      else
        this.(
          widgetHasComposition := true,
          compositionString := if e.message.CompositionStart? then compositionString else e.data)
    }

    /** OnCompositionEvent for an event that is sent to the content process. */
    function Send(e: Event, pluginHasFocus: bool): Counters
      requires !widgetHasComposition ==> pendingCompositionCount < UINT8_MAX
    {
      var begun := if widgetHasComposition then this else Begin(pluginHasFocus);
      var recorded := begun.Record(e);
      recorded.(pendingEventsNeedingAck := Increment32(recorded.pendingEventsNeedingAck))
    }

    /** OnCompositionEvent for an event that is kept back while the native IME is
        asked to commit: only a commit leaves an acknowledgement to wait for. */
    function Intercept(e: Event, pluginHasFocus: bool): Counters
      requires !widgetHasComposition ==> pendingCompositionCount < UINT8_MAX
    {
      var begun := if widgetHasComposition then this else Begin(pluginHasFocus);
      var recorded := begun.Record(e);
      recorded.AwaitNotice()
    }

    function AwaitNotice(): Counters {
      if widgetHasComposition then this
      else this.(
        pendingEventsNeedingAck := Increment32(pendingEventsNeedingAck),
        pendingCommitCount := if pendingCommitCount > 0 then pendingCommitCount - 1 else 0)
    }

    function InterceptedText(e: Event): string {
      if e.message.CompositionCommitAsIs? then compositionString else e.data
    }

    function SendSelection(): Counters {
      this.(pendingEventsNeedingAck := Increment32(pendingEventsNeedingAck))
    }

    predicate CommittedInChild(a: Acknowledgement) {
      a.CommitRequestHandled? ||
      (!isChildIgnoringCompositionEvents && IsFollowedByCompositionEnd(a.message))
    }

    /** The "no pending composition" repair of OnEventNeedingAckHandled. */
    predicate RepairsCompositionCount(a: Acknowledgement) {
      CommittedInChild(a) && pendingCompositionCount == 0
    }

    function CountCompositionHandled(): Counters {
      var count := if pendingCompositionCount == 0 then 0 else pendingCompositionCount - 1;
      this.(
        pendingCompositionCount := count,
        compositionString := if count == 0 then "" else compositionString,
        pendingCommitLength := 0)
    }

    function CountCommitHandled(a: Acknowledgement): Counters {
      if a.Received? && IsFollowedByCompositionEnd(a.message) then
        this.(
          isChildIgnoringCompositionEvents := false,
          pendingCommitCount := if pendingCommitCount == 0 then 0 else pendingCommitCount - 1)
      else if a.CommitRequestHandled? && pendingCommitCount != 0 then
        this.(isChildIgnoringCompositionEvents := true)
      else
        this
    }

    predicate HasNoComposition() {
      !widgetHasComposition && pendingCompositionCount == 0 && pendingCommitCount == 0
    }

    /** The start offset is forgotten once nobody has a composition. */
    function CountEventHandled(): Counters {
      this.(
        compositionStart := if HasNoComposition() then UINT32_MAX else compositionStart,
        pendingEventsNeedingAck := if pendingEventsNeedingAck == 0 then 0 else pendingEventsNeedingAck - 1)
    }

    /** OnEventNeedingAckHandled up to the decision whether to flush. */
    function Acknowledge(a: Acknowledgement): Counters {
      var handled := if CommittedInChild(a) then CountCompositionHandled() else this;
      var counted := handled.CountCommitHandled(a);
      counted.CountEventHandled()
    }

    /** AssignContent's update of the composition start offset. */
    function Assign(childStart: uint32, selection: uint32): Counters {
      var copied := this.(selectionStart := selection, compositionStartInChild := childStart);
      var start := if childStart != UINT32_MAX then childStart else selection;
      if (widgetHasComposition || pendingCommitCount != 0) && compositionStart != start
      then copied.(compositionStart := start, pendingCommitLength := 0)
      else copied
    }
  }

  /** What the parent process finds when a commit request arrives. The native IME
      answers RequestToCommit by dispatching the events of `script`. */
  datatype Surroundings =
    Surroundings(hasIMEFocus: bool, hasComposition: bool, pluginHasFocus: bool, script: seq<Event>)

  datatype Reply = Declined | CommittedByIME(text: string) | CommittedAfterBlur(text: string)
  {
    predicate IsCommitted() { !Declined? }
    function Text(): string { if Declined? then "" else text }
  }

  /** The IME may only continue the composition that the widget has: changes,
      then at most one commit. */
  predicate IsFinalization(c: Counters, script: seq<Event>) {
    && (script != [] ==> c.widgetHasComposition)
    && forall i :: 0 <= i < |script| ==>
         script[i].message.CompositionChange?
         || (i == |script| - 1 && IsFollowedByCompositionEnd(script[i].message))
  }

  predicate EndsInCommit(script: seq<Event>) {
    script != [] && IsFollowedByCompositionEnd(script[|script| - 1].message)
  }

  function InterceptAll(c: Counters, script: seq<Event>, plugin: bool): (r: (Counters, string))
    requires IsFinalization(c, script)
    ensures r.0.widgetHasComposition <==> c.widgetHasComposition && !EndsInCommit(script)
    ensures r.0.pendingCompositionCount == c.pendingCompositionCount
    ensures r.0.pendingCommitCount ==
            if EndsInCommit(script) && c.pendingCommitCount == UINT8_MAX then 0 else c.pendingCommitCount
    ensures r.0.pendingEventsNeedingAck ==
            if EndsInCommit(script) then Increment32(c.pendingEventsNeedingAck) else c.pendingEventsNeedingAck
    ensures r.0.isChildIgnoringCompositionEvents == c.isChildIgnoringCompositionEvents
    ensures r.0.compositionStart == c.compositionStart
    ensures r.0.compositionStartInChild == c.compositionStartInChild && r.0.selectionStart == c.selectionStart
    decreases |script|
  {
    if script == [] then (c, "")
    else
      var n := |script| - 1;
      assert IsFinalization(c, script[..n]);
      var before := InterceptAll(c, script[..n], plugin).0;
      var after := before.Intercept(script[n], plugin);
      (after, after.InterceptedText(script[n]))
  }

  /** The native IME is asked, and answers with the events of the script. */
  predicate AsksIME(c: Counters, s: Surroundings) {
    c.pendingCompositionCount <= 1 && c.pendingCommitCount == 0 && s.hasIMEFocus && s.hasComposition
  }

  /** RequestIMEToCommitComposition. */
  function Request(c: Counters, s: Surroundings): (r: (Counters, Reply))
    requires IsFinalization(c, s.script)
  {
    if c.pendingCompositionCount > 1 || c.pendingCommitCount != 0 then (c, Declined)
    else if !s.hasIMEFocus then
      (c.(pendingEventsNeedingAck := Increment32(c.pendingEventsNeedingAck)), CommittedAfterBlur(c.compositionString))
    else if !s.hasComposition then (c, Declined)
    else
      var (after, text) := InterceptAll(c, s.script, s.pluginHasFocus);
      (after, if EndsInCommit(s.script) then CommittedByIME(text) else Declined)
  }
}

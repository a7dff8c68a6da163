/** Where the parent process takes a composition to start, and how long it takes a
    text to be that was committed and that the content process has not handled yet. */
module CompositionStarts {
  import opened BasicTypes
  import opened CompositionEvents
  import opened CompositionCounters
  import opened CompositionProtocol

  /** What the content process has reported last, and whether a composition has started
      since then while a plugin had focus. */
  datatype Report = Report(childStart: uint32, selection: uint32, inPlugin: bool)
  {
    /** A composition is where the content process has it, or else at the selection;
        for a plugin neither is known. */
    function Start(): uint32 {
      if inPlugin then 0 else if childStart != UINT32_MAX then childStart else selection
    }
  }

  function Reported(steps: seq<Step>, i: nat): Report
    requires i <= |steps|
  {
    if i == 0 then Report(UINT32_MAX, UINT32_MAX, false)
    else if steps[i - 1].ContentChanges? then Report(steps[i - 1].childStart, steps[i - 1].selection, false)
    else if steps[i - 1].Dispatch? && steps[i - 1].event.message.CompositionStart? then
      Reported(steps, i - 1).(inPlugin := steps[i - 1].pluginHasFocus)
    else Reported(steps, i - 1)
  }

  /** The widget has a composition, or a commit has yet to be acknowledged. */
  predicate HasText(c: Counters) {
    c.widgetHasComposition || c.pendingCommitCount != 0
  }

  /** A composition that the content process has not finished: the widget has it still,
      or has committed it. Its length counts if nothing else was pending at the commit
      and the content process has not moved the start since. */
  datatype Pending = Open | Committed(length: nat, counts: bool)

  /** The pending compositions, in their order. */
  type Queue = seq<Pending>

  function AfterEvent(q: Queue, e: Event): Queue {
    if e.message.CompositionStart? then q + [Open]
    else if IsFollowedByCompositionEnd(e.message) && q != [] then
      q[..|q| - 1] + [Committed(|e.data|, |q| == 1)]
    else q
  }

  function AfterScript(q: Queue, script: seq<Event>): Queue {
    if script == [] then q else AfterEvent(AfterScript(q, script[..|script| - 1]), script[|script| - 1])
  }

  function AfterMove(q: Queue): Queue {
    if q != [] && q[0].Committed? then [q[0].(counts := false)] + q[1..] else q
  }

  function AfterUp(q: Queue, s: System, around: Surroundings): Queue
    requires s.up != []
  {
    if s.up[0].CommitRequest? then if AsksIME(s.parent, around) then AfterScript(q, around.script) else q
    else if s.parent.CommittedInChild(AsAcknowledgement(s.up[0])) && q != [] then q[1..]
    else q
  }

  /** `from` and `to'` are where a composition starts before and after the step. */
  function AfterStep(q: Queue, s: System, l: Step, from: uint32, to': uint32): Queue
    requires Enabled(s, l)
  {
    match l
    case Dispatch(e, _) => AfterEvent(q, e)
    case ContentChanges(_, _) => if HasText(s.parent) && from != to' then AfterMove(q) else q
    case ParentReceives(_, around) => AfterUp(q, s, around)
    case _ => q
  }

  function QueueAt(states: seq<System>, steps: seq<Step>, i: nat): Queue
    requires IsRun(states, steps) && i <= |steps|
  {
    if i == 0 then []
    else
      assert TakesAt(states, steps, i - 1);
      AfterStep(
        QueueAt(states, steps, i - 1), states[i - 1], steps[i - 1],
        Reported(steps, i - 1).Start(), Reported(steps, i).Start())
  }

  // ----- What the parent process knows -----

  ghost predicate KnowsStart(c: Counters, r: Report) {
    && c.compositionStartInChild == r.childStart && c.selectionStart == r.selection
    && (HasText(c) ==> c.compositionStart == r.Start())
  }

  ghost predicate KnowsQueue(c: Counters, q: Queue) {
    && c.pendingCompositionCount == |q|
    && c.pendingCommitLength == (if q != [] && q[0].Committed? && q[0].counts then q[0].length else 0)
    && forall i :: 1 <= i < |q| && q[i].Committed? ==> !q[i].counts
  }

  lemma QueueAfterEvent(c: Counters, q: Queue, e: Event, plugin: bool)
    requires KnowsQueue(c, q) && c.CanDispatch(e.message)
    ensures KnowsQueue(c.Send(e, plugin), AfterEvent(q, e))
    ensures KnowsQueue(c.Intercept(e, plugin), AfterEvent(q, e))
  {
  }

  lemma {:induction false} QueueAfterScript(c: Counters, q: Queue, script: seq<Event>, plugin: bool)
    requires KnowsQueue(c, q) && IsFinalization(c, script)
    ensures KnowsQueue(InterceptAll(c, script, plugin).0, AfterScript(q, script))
  {
    if script == [] {
    } else {
      var n := |script| - 1;
      assert IsFinalization(c, script[..n]);
      QueueAfterScript(c, q, script[..n], plugin);
      QueueAfterEvent(InterceptAll(c, script[..n], plugin).0, AfterScript(q, script[..n]), script[n], plugin);
    }
  }

  lemma QueueAfterUp(s: System, q: Queue, alive: bool, around: Surroundings)
    requires KnowsQueue(s.parent, q) && s.up != []
    requires s.up[0].CommitRequest? ==> IsFinalization(s.parent, around.script)
    ensures s.up[0].CommitRequest? ==> KnowsQueue(ReceiveRequest(s, around).parent, AfterUp(q, s, around))
    ensures !s.up[0].CommitRequest? ==> KnowsQueue(ReceiveAck(s, alive).parent, AfterUp(q, s, around))
  {
    if s.up[0].CommitRequest? && AsksIME(s.parent, around) {
      QueueAfterScript(s.parent, q, around.script, around.pluginHasFocus);
    }
  }

  lemma StartAfterDispatch(s: System, r: Report, e: Event, plugin: bool)
    requires KnowsStart(s.parent, r) && s.parent.CanDispatch(e.message)
    ensures KnowsStart(s.parent.Send(e, plugin),
                       if e.message.CompositionStart? then r.(inPlugin := plugin) else r)
  {
  }

  lemma StartAfterUp(s: System, r: Report, alive: bool, around: Surroundings)
    requires KnowsStart(s.parent, r) && s.up != []
    requires s.up[0].CommitRequest? ==> IsFinalization(s.parent, around.script)
    ensures s.up[0].CommitRequest? ==> KnowsStart(ReceiveRequest(s, around).parent, r)
    ensures !s.up[0].CommitRequest? ==> KnowsStart(ReceiveAck(s, alive).parent, r)
  {
  }

  lemma StartAfterReport(c: Counters, r: Report, childStart: uint32, selection: uint32)
    requires KnowsStart(c, r)
    ensures KnowsStart(c.Assign(childStart, selection), Report(childStart, selection, false))
  {
  }

  /** A step keeps what is known of the start. */
  lemma StartAfterStep(s: System, steps: seq<Step>, i: nat)
    requires i < |steps| && KnowsStart(s.parent, Reported(steps, i)) && Enabled(s, steps[i])
    ensures KnowsStart(Apply(s, steps[i]).parent, Reported(steps, i + 1))
  {
    match steps[i]
    case Dispatch(e, plugin) => StartAfterDispatch(s, Reported(steps, i), e, plugin);
    case ContentChanges(childStart, selection) =>
      StartAfterReport(s.parent, Reported(steps, i), childStart, selection);
    case ParentReceives(alive, around) => StartAfterUp(s, Reported(steps, i), alive, around);
    case _ =>
  }

  lemma QueueAfterStep(s: System, q: Queue, steps: seq<Step>, i: nat)
    requires i < |steps| && KnowsStart(s.parent, Reported(steps, i)) && KnowsQueue(s.parent, q)
    requires Enabled(s, steps[i])
    ensures KnowsQueue(
      Apply(s, steps[i]).parent,
      AfterStep(q, s, steps[i], Reported(steps, i).Start(), Reported(steps, i + 1).Start()))
  {
    match steps[i]
    case Dispatch(e, plugin) => QueueAfterEvent(s.parent, q, e, plugin);
    case ParentReceives(alive, around) => QueueAfterUp(s, q, alive, around);
    case _ =>
  }

  lemma {:induction false} KnownAlways(states: seq<System>, steps: seq<Step>, i: nat)
    requires IsRun(states, steps) && i < |states|
    ensures KnowsStart(states[i].parent, Reported(steps, i))
    ensures KnowsQueue(states[i].parent, QueueAt(states, steps, i))
  {
    if i == 0 {
    } else {
      KnownAlways(states, steps, i - 1);
      assert TakesAt(states, steps, i - 1);
      StartAfterStep(states[i - 1], steps, i - 1);
      QueueAfterStep(states[i - 1], QueueAt(states, steps, i - 1), steps, i - 1);
    }
  }

  /** In every state of every run, while there is a composition or a pending commit, the
      composition starts where the schedule's last report puts it: where the content
      process has its own, or else at the selection, or at 0 if it started since then
      while a plugin had focus. */
  lemma StartsWhereReported(states: seq<System>, steps: seq<Step>, i: nat)
    requires IsRun(states, steps) && i < |states|
    ensures HasText(states[i].parent) ==> states[i].parent.compositionStart == Reported(steps, i).Start()
  {
    KnownAlways(states, steps, i);
  }

  /** The pending compositions are counted, and the stored length is that of the first
      one's text exactly when that was committed with nothing else pending and the start
      has not moved since; otherwise it is 0. */
  lemma StoresFirstLengthExactly(states: seq<System>, steps: seq<Step>, i: nat)
    requires IsRun(states, steps) && i < |states|
    ensures var c, q := states[i].parent, QueueAt(states, steps, i);
      && c.pendingCompositionCount == |q|
      && (q == [] || q[0].Open? ==> c.pendingCommitLength == 0)
      && (q != [] && q[0].Committed? ==>
            && (c.pendingCommitLength == q[0].length <==> q[0].counts || q[0].length == 0)
            && (!q[0].counts ==> c.pendingCommitLength == 0))
  {
    KnownAlways(states, steps, i);
  }

  const TWO_COMMITS := [
    Event(CompositionStart, ""), Event(CompositionCommit, "a"),
    Event(CompositionStart, ""), Event(CompositionCommit, "abc")]

  function SendAll(c: Counters, events: seq<Event>): Counters
    requires c.pendingCompositionCount + |events| <= UINT8_MAX
    decreases |events|
  {
    if events == [] then c else SendAll(c.Send(events[0], false), events[1..])
  }

  /** After the first of two commits has been handled, the second is the first pending
      one, and its length is not stored. */
  lemma SecondCommitHasNoLength()
    ensures var c := SendAll(INITIAL_COUNTERS, TWO_COMMITS)
      .Acknowledge(Received(CompositionStart)).Acknowledge(Received(CompositionCommit));
      c.pendingCompositionCount == 1 && c.pendingCommitCount == 1 && c.pendingCommitLength == 0
  {
    var c := INITIAL_COUNTERS;
    var e := TWO_COMMITS;
    assert e[1..][1..] == e[2..] && e[2..][1..] == e[3..] && e[3..][1..] == [];
    assert SendAll(c, e) == SendAll(c.Send(e[0], false).Send(e[1], false), e[2..]);
  }
}

/** The number of pending compositions, and exactly which schedules keep it right. */
module CompositionAccounting {
  import opened BasicTypes
  import opened CompositionEvents
  import opened CompositionCounters
  import opened CompositionProtocol
  import opened CompositionSafety

  function Count(b: bool): nat {
    if b then 1 else 0
  }

  /** Every pending composition is the widget's current one, has its commit in
      flight, or was committed synchronously and awaits its notice; a commit that
      the content process will ignore is counted by no pending composition. */
  ghost predicate Accounted(s: System) {
    s.parent.pendingCompositionCount + Count(s.parent.isChildIgnoringCompositionEvents)
    == Count(s.parent.widgetHasComposition) + s.parent.pendingCommitCount + HandledSynchronously(s)
  }

  /** The parent is about to hear that the content process committed by itself. */
  predicate HearsNotice(s: System, l: Step) {
    l.ParentReceives? && s.up != [] && s.up[0].RequestHandled?
  }

  /** OnEventNeedingAckHandled takes a pending commit, at the time of the notice, to
      be the one that the content process will ignore. That is right after a reply
      on blur, whose composition the widget still has to commit, and wrong after
      the IME has committed, when any pending commit belongs to a later one. */
  predicate NoticeIsTimely(s: System)
    requires s.up != [] && s.up[0].RequestHandled?
  {
    s.up[0].kind.ByIME? <==> s.parent.pendingCommitCount == 0
  }

  /** The notice on its way to the parent: at most one, as the channel is FIFO and
      the content process has to hear a start before it can ask again. */
  datatype Outstanding = Nothing | Notice(kind: ReplyKind)

  function OutstandingNotice(s: System): Outstanding {
    if s.phase.Replied? && s.phase.reply.IsCommitted() then Notice(KindOf(s.phase.reply))
    else if s.up != [] && s.up[0].RequestHandled? then Notice(s.up[0].kind)
    else Nothing
  }

  ghost predicate Paired(s: System) {
    && (s.parent.isChildIgnoringCompositionEvents ==>
          s.parent.pendingCommitCount > 0 && OutstandingNotice(s).Nothing?)
    && (OutstandingNotice(s) == Notice(AfterBlur) ==>
          s.parent.widgetHasComposition || s.parent.pendingCommitCount > 0)
  }

  lemma {:induction false} NoHandled(up: seq<UpMessage>)
    requires forall i :: 0 <= i < |up| ==> !up[i].RequestHandled?
    ensures CountUp(up, IS_NOTICE_BY_IME) == 0
  {
    if up == [] {
    } else {
      NoHandled(up[..|up| - 1]);
    }
  }

  lemma HandledIsOutstanding(s: System)
    requires Fifo(s)
    ensures HandledSynchronously(s) == Count(OutstandingNotice(s) == Notice(ByIME))
  {
    if s.up != [] {
      CountUpHead(s.up, IS_NOTICE_BY_IME);
      NoHandled(s.up[1..]);
    }
  }

  predicate Balances(c: Counters, notice: Outstanding) {
    c.pendingCompositionCount + Count(c.isChildIgnoringCompositionEvents)
    == Count(c.widgetHasComposition) + c.pendingCommitCount + Count(notice == Notice(ByIME))
  }

  lemma AccountedIsBalance(s: System)
    requires Fifo(s)
    ensures Accounted(s) <==> Balances(s.parent, OutstandingNotice(s))
  {
    HandledIsOutstanding(s);
  }

  lemma CommitCountBelowMax(s: System, l: Step)
    requires Sound(s) && Fits(s) && l.Dispatch? && Enabled(s, l) && Fits(Apply(s, l))
    requires IsFollowedByCompositionEnd(l.event.message)
    ensures s.parent.pendingCommitCount < UINT8_MAX
  {
  }

  lemma WidgetComposesAtRequest(s: System)
    requires Sound(s) && s.up != [] && s.up[0].CommitRequest? && s.parent.pendingCommitCount == 0
    ensures s.parent.widgetHasComposition
  {
    RequestIsAlone(s);
    BrokenIsNotComposing(s);
    NoCommitInFlight(s.down);
  }

  lemma AcknowledgesACommit(s: System)
    requires Sound(s) && s.up != [] && IS_COMMIT_ACK(s.up[0])
    ensures s.parent.pendingCommitCount > 0
  {
    CountUpHead(s.up, IS_COMMIT_ACK);
  }

  lemma SendBalances(c: Counters, e: Event, plugin: bool, notice: Outstanding)
    requires c.CanDispatch(e.message)
    requires IsFollowedByCompositionEnd(e.message) ==> c.pendingCommitCount < UINT8_MAX
    ensures var sent := c.Send(e, plugin);
      && (Balances(c, notice) <==> Balances(sent, notice))
      && sent.pendingCommitCount == c.pendingCommitCount + Count(IsFollowedByCompositionEnd(e.message))
      && sent.isChildIgnoringCompositionEvents == c.isChildIgnoringCompositionEvents
      && (c.widgetHasComposition ==> sent.widgetHasComposition || sent.pendingCommitCount > 0)
  {
  }

  lemma KeepsPairedByDispatch(s: System, l: Step)
    requires Sound(s) && Fits(s) && Paired(s) && l.Dispatch? && Enabled(s, l) && Fits(Apply(s, l))
    ensures Paired(Apply(s, l))
    ensures Balances(s.parent, OutstandingNotice(s)) <==>
            Balances(Apply(s, l).parent, OutstandingNotice(Apply(s, l)))
  {
    if IsFollowedByCompositionEnd(l.event.message) { CommitCountBelowMax(s, l); }
    SendBalances(s.parent, l.event, l.pluginHasFocus, OutstandingNotice(s));
    assert OutstandingNotice(Apply(s, l)) == OutstandingNotice(s);
  }

  lemma KeepsPairedByRequest(s: System, around: Surroundings)
    requires Sound(s) && Paired(s) && s.up != [] && s.up[0].CommitRequest?
    requires IsFinalization(s.parent, around.script)
    ensures Paired(ReceiveRequest(s, around))
    ensures Balances(s.parent, OutstandingNotice(s)) <==>
            Balances(ReceiveRequest(s, around).parent, OutstandingNotice(ReceiveRequest(s, around)))
  {
    RequestIsAlone(s);
    if s.parent.pendingCommitCount == 0 { WidgetComposesAtRequest(s); }
  }

  lemma AcknowledgeBalances(c: Counters, a: Acknowledgement, notice: Outstanding)
    requires c.isChildIgnoringCompositionEvents ==> c.pendingCommitCount > 0 && notice.Nothing?
    requires notice == Notice(AfterBlur) ==> c.widgetHasComposition || c.pendingCommitCount > 0
    requires a.CommitRequestHandled? <==> notice.Notice?
    requires a.Received? && IsFollowedByCompositionEnd(a.message) ==> c.pendingCommitCount > 0
    ensures c.Acknowledge(a).isChildIgnoringCompositionEvents ==> c.Acknowledge(a).pendingCommitCount > 0
    ensures Balances(c, notice) ==>
            (Balances(c.Acknowledge(a), Nothing)
             <==> (notice.Notice? ==> (notice.kind.ByIME? <==> c.pendingCommitCount == 0)))
  {
  }

  lemma KeepsPairedByAck(s: System, alive: bool)
    requires Sound(s) && Paired(s) && s.up != [] && !s.up[0].CommitRequest?
    ensures Paired(ReceiveAck(s, alive))
    ensures Balances(s.parent, OutstandingNotice(s)) ==>
            (Balances(ReceiveAck(s, alive).parent, OutstandingNotice(ReceiveAck(s, alive)))
             <==> (s.up[0].RequestHandled? ==> NoticeIsTimely(s)))
  {
    assert !s.phase.Replied?;
    assert OutstandingNotice(ReceiveAck(s, alive)).Nothing?;
    if IS_COMMIT_ACK(s.up[0]) { AcknowledgesACommit(s); }
    AcknowledgeBalances(s.parent, AsAcknowledgement(s.up[0]), OutstandingNotice(s));
  }

  lemma KeepsPairedByOthers(s: System, l: Step)
    requires Sound(s) && Paired(s) && Enabled(s, l) && !l.Dispatch? && !l.ParentReceives?
    ensures Paired(Apply(s, l))
    ensures Balances(s.parent, OutstandingNotice(s)) <==>
            Balances(Apply(s, l).parent, OutstandingNotice(Apply(s, l)))
  {
    assert OutstandingNotice(s) == OutstandingNotice(Apply(s, l));
  }

  /** A step keeps the accounting exactly when it is not an untimely notice. */
  lemma AccountedStep(s: System, l: Step)
    requires Sound(s) && Fits(s) && Paired(s) && Enabled(s, l) && Fits(Apply(s, l))
    ensures Paired(Apply(s, l))
    ensures Accounted(s) ==> (Accounted(Apply(s, l)) <==> (HearsNotice(s, l) ==> NoticeIsTimely(s)))
  {
    SoundStep(s, l);
    AccountedIsBalance(s);
    AccountedIsBalance(Apply(s, l));
    if l.Dispatch? { KeepsPairedByDispatch(s, l); }
    else if !l.ParentReceives? { KeepsPairedByOthers(s, l); }
    else if s.up[0].CommitRequest? { KeepsPairedByRequest(s, l.surroundings); }
    else { KeepsPairedByAck(s, l.widgetAlive); }
  }

  // ----- Over whole runs -----

  predicate Commits(l: Step) {
    l.Dispatch? && IsFollowedByCompositionEnd(l.event.message)
  }

  /** The commits that the widget dispatches in steps[first..last]. */
  function CommitsBetween(steps: seq<Step>, first: nat, last: nat): nat
    requires first <= last <= |steps|
    decreases last
  {
    if first == last then 0 else CommitsBetween(steps, first, last - 1) + Count(Commits(steps[last - 1]))
  }

  /** The parent answers a commit request with true. */
  predicate Grants(s: System, l: Step) {
    && l.ParentReceives? && Enabled(s, l)
    && s.up[0].CommitRequest?
    && Request(s.parent, l.surroundings).1.IsCommitted()
  }

  function GrantKind(s: System, l: Step): ReplyKind
    requires Grants(s, l)
  {
    KindOf(Request(s.parent, l.surroundings).1)
  }

  /** Step j grants a request and step i is the next one at which the parent hears
      from the content process: it hears the notice of that commit. */
  ghost predicate NoticeOf(states: seq<System>, steps: seq<Step>, j: nat, i: nat)
    requires IsRun(states, steps)
  {
    && j < i < |steps|
    && Grants(states[j], steps[j])
    && steps[i].ParentReceives?
    && forall k :: j < k < i ==> !steps[k].ParentReceives?
  }

  ghost predicate TimelyPair(states: seq<System>, steps: seq<Step>, j: nat, i: nat)
    requires IsRun(states, steps) && NoticeOf(states, steps, j, i)
  {
    GrantKind(states[j], steps[j]).ByIME? <==> CommitsBetween(steps, j + 1, i) == 0
  }

  /** Between a commit by the IME and its notice the widget commits nothing, and
      between a reply on blur and its notice it commits the composition it has. */
  ghost predicate Timely(states: seq<System>, steps: seq<Step>)
    requires IsRun(states, steps)
  {
    forall j: nat, i: nat :: NoticeOf(states, steps, j, i) ==> TimelyPair(states, steps, j, i)
  }

  lemma {:induction false} PairedAlways(states: seq<System>, steps: seq<Step>, i: nat)
    requires IsRun(states, steps) && i < |states|
    ensures Sound(states[i]) && Paired(states[i])
  {
    SoundAlways(states, steps, i);
    if i == 0 {
    } else {
      PairedAlways(states, steps, i - 1);
      assert TakesAt(states, steps, i - 1);
      AccountedStep(states[i - 1], steps[i - 1]);
    }
  }

  lemma GrantLeavesNotice(s: System, l: Step)
    requires Sound(s) && Fits(s) && Grants(s, l)
    ensures OutstandingNotice(Apply(s, l)) == Notice(GrantKind(s, l))
    ensures Apply(s, l).parent.pendingCommitCount == 0
  {
  }

  lemma CommitsAreCounted(s: System, l: Step)
    requires Sound(s) && Fits(s) && Enabled(s, l) && Fits(Apply(s, l)) && !l.ParentReceives?
    ensures Apply(s, l).parent.pendingCommitCount == s.parent.pendingCommitCount + Count(Commits(l))
    ensures OutstandingNotice(Apply(s, l)) == OutstandingNotice(s)
  {
    if l.Dispatch? {
      if IsFollowedByCompositionEnd(l.event.message) { CommitCountBelowMax(s, l); }
      SendBalances(s.parent, l.event, l.pluginHasFocus, OutstandingNotice(s));
    } else {
      assert Apply(s, l).parent.pendingCommitCount == s.parent.pendingCommitCount;
    }
  }

  lemma GrantAt(states: seq<System>, steps: seq<Step>, j: nat)
    requires IsRun(states, steps) && j < |steps| && Grants(states[j], steps[j])
    ensures OutstandingNotice(states[j + 1]) == Notice(GrantKind(states[j], steps[j]))
    ensures states[j + 1].parent.pendingCommitCount == 0
  {
    SoundAlways(states, steps, j);
    assert TakesAt(states, steps, j);
    GrantLeavesNotice(states[j], steps[j]);
  }

  lemma OtherAt(states: seq<System>, steps: seq<Step>, i: nat)
    requires IsRun(states, steps) && i < |steps| && !steps[i].ParentReceives?
    ensures states[i + 1].parent.pendingCommitCount
            == states[i].parent.pendingCommitCount + Count(Commits(steps[i]))
    ensures OutstandingNotice(states[i + 1]) == OutstandingNotice(states[i])
  {
    SoundAlways(states, steps, i);
    assert TakesAt(states, steps, i);
    CommitsAreCounted(states[i], steps[i]);
  }

  /** A notice can only come from a grant: hearing anything else leaves none. */
  lemma ReceivingAt(states: seq<System>, steps: seq<Step>, i: nat)
    requires IsRun(states, steps) && i < |steps| && steps[i].ParentReceives?
    ensures OutstandingNotice(states[i + 1]).Notice? ==> Grants(states[i], steps[i])
  {
    SoundAlways(states, steps, i);
    assert TakesAt(states, steps, i);
    if states[i].up[0].CommitRequest? { RequestIsAlone(states[i]); }
  }

  /** While the parent hears nothing, a notice stays outstanding, and the pending
      commits grow by those that are dispatched. */
  lemma {:induction false} NoticeWaits(states: seq<System>, steps: seq<Step>, from: nat, i: nat)
    requires IsRun(states, steps) && from <= i <= |steps|
    requires forall k :: from <= k < i ==> !steps[k].ParentReceives?
    ensures OutstandingNotice(states[i]) == OutstandingNotice(states[from])
    ensures states[i].parent.pendingCommitCount
            == states[from].parent.pendingCommitCount + CommitsBetween(steps, from, i)
  {
    if from == i {
    } else {
      OtherAt(states, steps, i - 1);
      NoticeWaits(states, steps, from, i - 1);
    }
  }

  lemma NoticeTravels(states: seq<System>, steps: seq<Step>, j: nat, i: nat)
    requires IsRun(states, steps) && j < i <= |steps| && Grants(states[j], steps[j])
    requires forall k :: j < k < i ==> !steps[k].ParentReceives?
    ensures OutstandingNotice(states[i]) == Notice(GrantKind(states[j], steps[j]))
    ensures states[i].parent.pendingCommitCount == CommitsBetween(steps, j + 1, i)
  {
    GrantAt(states, steps, j);
    NoticeWaits(states, steps, j + 1, i);
  }

  lemma {:induction false} NoticeHasGrant(states: seq<System>, steps: seq<Step>, i: nat) returns (j: nat)
    requires IsRun(states, steps) && i < |states| && OutstandingNotice(states[i]).Notice?
    ensures j < i && Grants(states[j], steps[j])
    ensures forall k :: j < k < i ==> !steps[k].ParentReceives?
  {
    assert i > 0;
    if steps[i - 1].ParentReceives? {
      ReceivingAt(states, steps, i - 1);
      j := i - 1;
    } else {
      OtherAt(states, steps, i - 1);
      j := NoticeHasGrant(states, steps, i - 1);
    }
  }

  /** The guard that the parent takes at a notice is decided by the schedule. */
  lemma ScheduleDecides(states: seq<System>, steps: seq<Step>, j: nat, i: nat)
    requires IsRun(states, steps) && NoticeOf(states, steps, j, i)
    ensures HearsNotice(states[i], steps[i])
    ensures NoticeIsTimely(states[i]) <==> TimelyPair(states, steps, j, i)
  {
    NoticeTravels(states, steps, j, i);
    NoticeIsHeard(states, steps, i);
  }

  lemma NoticeIsHeard(states: seq<System>, steps: seq<Step>, i: nat)
    requires IsRun(states, steps) && i < |steps| && steps[i].ParentReceives?
    requires OutstandingNotice(states[i]).Notice?
    ensures HearsNotice(states[i], steps[i])
    ensures OutstandingNotice(states[i]) == Notice(states[i].up[0].kind)
  {
    SoundAlways(states, steps, i);
    assert TakesAt(states, steps, i);
  }

  lemma TimelyNotice(states: seq<System>, steps: seq<Step>, i: nat)
    requires IsRun(states, steps) && Timely(states, steps)
    requires i < |steps| && HearsNotice(states[i], steps[i])
    ensures NoticeIsTimely(states[i])
  {
    SoundAlways(states, steps, i);
    assert OutstandingNotice(states[i]).Notice?;
    var j := NoticeHasGrant(states, steps, i);
    assert NoticeOf(states, steps, j, i);
    ScheduleDecides(states, steps, j, i);
  }

  lemma AccountedAt(states: seq<System>, steps: seq<Step>, i: nat)
    requires IsRun(states, steps) && i < |steps| && Accounted(states[i])
    ensures Accounted(states[i + 1]) <==> (HearsNotice(states[i], steps[i]) ==> NoticeIsTimely(states[i]))
  {
    PairedAlways(states, steps, i);
    assert TakesAt(states, steps, i);
    AccountedStep(states[i], steps[i]);
  }

  lemma {:induction false} TimelyKeepsAccount(states: seq<System>, steps: seq<Step>, i: nat)
    requires IsRun(states, steps) && Timely(states, steps) && i < |states|
    ensures Accounted(states[i])
  {
    if i == 0 {
    } else {
      TimelyKeepsAccount(states, steps, i - 1);
      AccountedAt(states, steps, i - 1);
      if HearsNotice(states[i - 1], steps[i - 1]) { TimelyNotice(states, steps, i - 1); }
    }
  }

  /** The number of pending compositions is right in every state of a run exactly
      when the schedule of the run is timely. */
  lemma AccountedExactlyWhenTimely(states: seq<System>, steps: seq<Step>)
    requires IsRun(states, steps)
    ensures (forall i :: 0 <= i < |states| ==> Accounted(states[i])) <==> Timely(states, steps)
  {
    if Timely(states, steps) {
      forall i | 0 <= i < |states| ensures Accounted(states[i]) { TimelyKeepsAccount(states, steps, i); }
    }
    if forall i :: 0 <= i < |states| ==> Accounted(states[i]) {
      forall j: nat, i: nat | NoticeOf(states, steps, j, i)
        ensures TimelyPair(states, steps, j, i)
      {
        assert Accounted(states[i]) && Accounted(states[i + 1]);
        AccountedAt(states, steps, i);
        ScheduleDecides(states, steps, j, i);
      }
    }
  }

  /** A timely run never takes the branch that repairs the count of compositions. */
  lemma TimelyNeverRepairs(states: seq<System>, steps: seq<Step>, i: nat)
    requires IsRun(states, steps) && Timely(states, steps) && i < |states|
    requires states[i].up != [] && !states[i].up[0].CommitRequest?
    requires states[i].up[0].RequestHandled? ==> i < |steps| && steps[i].ParentReceives?
    ensures !states[i].parent.RepairsCompositionCount(AsAcknowledgement(states[i].up[0]))
  {
    var s := states[i];
    TimelyKeepsAccount(states, steps, i);
    PairedAlways(states, steps, i);
    AccountedIsBalance(s);
    if s.up[0].RequestHandled? { TimelyNotice(states, steps, i); }
    else if IS_COMMIT_ACK(s.up[0]) { AcknowledgesACommit(s); }
  }

  /** When a timely run falls quiet, the parent waits for nothing and has one pending
      composition exactly when the widget has one, which the content process is in
      unless it has already committed it by itself. */
  lemma QuietIsSettled(states: seq<System>, steps: seq<Step>, i: nat)
    requires IsRun(states, steps) && Timely(states, steps) && i < |states| && Quiet(states[i])
    ensures var s := states[i];
      && s.parent.pendingEventsNeedingAck == 0 && s.parent.pendingCommitCount == 0
      && !s.parent.isChildIgnoringCompositionEvents
      && s.parent.pendingCompositionCount == Count(s.parent.widgetHasComposition)
      && (s.puppet.ignoring || s.puppet.composing == s.parent.widgetHasComposition)
  {
    TimelyKeepsAccount(states, steps, i);
    PairedAlways(states, steps, i);
  }

  // ----- When a request is granted -----

  /** In any run a request is granted only while no commit is in flight. In a timely run
      that is all that matters: without a commit in flight it is granted from the stored
      string after blur, and otherwise exactly if the IME commits its composition. */
  lemma GrantedExactly(states: seq<System>, steps: seq<Step>, i: nat)
    requires IsRun(states, steps) && i < |steps| && steps[i].ParentReceives? && Enabled(states[i], steps[i])
    requires states[i].up[0].CommitRequest?
    ensures var s, around := states[i], steps[i].surroundings;
      var reply := Request(s.parent, around).1;
      && (reply.IsCommitted() ==> CommitsInFlight(s) == 0)
      && (Timely(states, steps) ==>
            && (reply.CommittedAfterBlur? <==> CommitsInFlight(s) == 0 && !around.hasIMEFocus)
            && (reply.CommittedByIME? <==>
                  && CommitsInFlight(s) == 0 && around.hasIMEFocus
                  && around.hasComposition && EndsInCommit(around.script)))
  {
    PairedAlways(states, steps, i);
    if Timely(states, steps) {
      TimelyKeepsAccount(states, steps, i);
      OnlyTheWidgets(states[i]);
    }
  }

  /** No older composition is pending when a request arrives and no commit is in flight. */
  lemma OnlyTheWidgets(s: System)
    requires Sound(s) && Paired(s) && Accounted(s) && s.up != [] && s.up[0].CommitRequest?
    ensures s.parent.pendingCommitCount == 0 ==> s.parent.pendingCompositionCount <= 1
  {
    RequestIsAlone(s);
    HandledIsOutstanding(s);
  }

  // ----- Schedules that are not timely -----

  ghost predicate EndsIn(states: seq<System>, steps: seq<Step>, s: System) {
    IsRun(states, steps) && states[|steps|] == s
  }

  /** The first steps of a schedule lead to the state. */
  ghost predicate Reaches(steps: seq<Step>, k: nat, s: System) {
    k <= |steps| && exists states :: EndsIn(states, steps[..k], s)
  }

  lemma ReachesInitial(steps: seq<Step>)
    ensures Reaches(steps, 0, INITIAL)
  {
    assert EndsIn([INITIAL], steps[..0], INITIAL);
  }

  lemma ReachesNext(steps: seq<Step>, k: nat, s: System, next: System)
    requires Reaches(steps, k, s) && k < |steps| && Takes(s, steps[k], next)
    ensures Reaches(steps, k + 1, next)
  {
    var states :| EndsIn(states, steps[..k], s);
    RunGoesOn(states, steps[..k], steps[k], next);
    assert steps[..k] + [steps[k]] == steps[..k + 1];
  }

  lemma RunGoesOn(states: seq<System>, steps: seq<Step>, l: Step, next: System)
    requires IsRun(states, steps) && Takes(states[|steps|], l, next)
    ensures EndsIn(states + [next], steps + [l], next)
  {
    var states', steps' := states + [next], steps + [l];
    forall i: nat | i < |steps'| ensures TakesAt(states', steps', i) {
      if i < |steps| { assert TakesAt(states, steps, i); }
    }
  }

  lemma {:induction false} CountUpBound(up: seq<UpMessage>, p: UpMessage -> bool)
    ensures CountUp(up, p) <= |up|
  {
    if up == [] {
    } else {
      CountUpBound(up[..|up| - 1], p);
    }
  }

  lemma {:induction false} CountCommitsBound(down: seq<Event>)
    ensures CountCommits(down) <= |down|
  {
    if down == [] {
    } else {
      CountCommitsBound(down[..|down| - 1]);
    }
  }

  lemma ReachesFew(steps: seq<Step>, k: nat, s: System, next: System)
    requires Reaches(steps, k, s) && k < |steps| && Enabled(s, steps[k]) && next == Apply(s, steps[k])
    requires |next.down| <= 2 && |next.up| <= 2
    ensures Reaches(steps, k + 1, next)
  {
    CountUpBound(next.up, IS_ACKNOWLEDGEMENT);
    CountUpBound(next.up, IS_COMMIT_ACK);
    CountCommitsBound(next.down);
    ReachesNext(steps, k, s, next);
  }

  const START := Event(CompositionStart, "")
  const COMMIT := Event(CompositionCommit, "")
  const IME_COMMITS := Surroundings(true, true, false, [Event(CompositionCommitAsIs, "")])
  const BLURRED := Surroundings(false, true, false, [])
  const HEAR := ParentReceives(true, IME_COMMITS)

  /** The content process hears a start, everything is acknowledged, and it asks for a
      commit. The IME commits at once; but before the content process reads the reply,
      the widget starts and commits a second composition, and the notice of the first
      commit arrives after that. */
  const LEAKING: seq<Step> := [
    Dispatch(START, false), ChildReceives, ChildAcknowledges, HEAR, FlushEnds, ChildRequests,
    HEAR, Dispatch(START, false), Dispatch(COMMIT, false), ChildReceivesReply, HEAR,
    ChildReceives, ChildAcknowledges, ChildReceives, ChildAcknowledges, HEAR, HEAR, FlushEnds]

  /** The same until it asks; but the browser has lost focus, and the notice arrives
      before the widget commits. */
  const REPAIRING: seq<Step> := [
    Dispatch(START, false), ChildReceives, ChildAcknowledges, HEAR, FlushEnds, ChildRequests,
    ParentReceives(true, BLURRED), ChildReceivesReply, HEAR, FlushEnds,
    Dispatch(COMMIT, false), ChildReceives, ChildAcknowledges]

  const COMPOSING := INITIAL_COUNTERS.(pendingCompositionCount := 1, widgetHasComposition := true)
  const COMPOSING_TO_ACK := COMPOSING.(pendingEventsNeedingAck := 1)
  const STARTING := INITIAL.(parent := COMPOSING_TO_ACK, down := [START])
  const STARTED := INITIAL.(
    parent := COMPOSING_TO_ACK, handling := Handles(CompositionStart),
    puppet := Puppet(false, true), heard := [CompositionStart])
  const ANSWERED := STARTED.(handling := Free, up := [Ack(CompositionStart)])
  const FLUSHING := STARTED.(handling := Free, flushing := true)
  const COMPOSED := FLUSHING.(parent := COMPOSING, flushing := false)
  const ASKED := COMPOSED.(up := [CommitRequest], phase := Waiting)

  predicate Asks(steps: seq<Step>) {
    && |steps| > 6 && steps[0] == Dispatch(START, false) && steps[1] == ChildReceives
    && steps[2] == ChildAcknowledges && steps[3] == HEAR && steps[4] == FlushEnds && steps[5] == ChildRequests
  }

  lemma ReachesStarted(steps: seq<Step>)
    requires Asks(steps)
    ensures Reaches(steps, 2, STARTED)
  {
    ReachesInitial(steps);
    ReachesFew(steps, 0, INITIAL, STARTING);
    ReachesFew(steps, 1, STARTING, STARTED);
  }

  lemma ReachesFlushing(steps: seq<Step>)
    requires Asks(steps)
    ensures Reaches(steps, 4, FLUSHING)
  {
    ReachesStarted(steps);
    ReachesFew(steps, 2, STARTED, ANSWERED);
    ReachesFew(steps, 3, ANSWERED, FLUSHING);
  }

  lemma ReachesAsked(steps: seq<Step>)
    requires Asks(steps)
    ensures Reaches(steps, 6, ASKED)
  {
    ReachesFlushing(steps);
    ReachesFew(steps, 4, FLUSHING, COMPOSED);
    ReachesFew(steps, 5, COMPOSED, ASKED);
  }

  const GRANTED := COMPOSED.(
    parent := INITIAL_COUNTERS.(pendingEventsNeedingAck := 1, pendingCompositionCount := 1),
    phase := Replied(CommittedByIME("")))
  const RESTARTED := GRANTED.(
    parent := COMPOSING.(pendingEventsNeedingAck := 2, pendingCompositionCount := 2), down := [START])
  const TWICE_COMMITTED := GRANTED.(
    parent := INITIAL_COUNTERS.(
      pendingEventsNeedingAck := 3, pendingCompositionCount := 2, pendingCommitCount := 1),
    down := [START, COMMIT])
  const NOTICE_SENT := TWICE_COMMITTED.(
    up := [RequestHandled(ByIME)], phase := Running, puppet := Puppet(true, false),
    heard := [CompositionStart, CompositionCommit])
  const NOTICE_LATE := NOTICE_SENT.(
    parent := INITIAL_COUNTERS.(
      pendingEventsNeedingAck := 2, pendingCompositionCount := 1, pendingCommitCount := 1,
      isChildIgnoringCompositionEvents := true),
    up := [])

  lemma ReachesGranted()
    ensures Reaches(LEAKING, 7, GRANTED)
  {
    var c := ASKED.parent;
    assert InterceptAll(c, IME_COMMITS.script[..0], false) == (c, "");
    assert InterceptAll(c, IME_COMMITS.script, false).0 == c.Intercept(IME_COMMITS.script[0], false);
    ReachesAsked(LEAKING);
    ReachesFew(LEAKING, 6, ASKED, GRANTED);
  }

  lemma ReachesTwiceCommitted()
    ensures Reaches(LEAKING, 9, TWICE_COMMITTED)
  {
    ReachesGranted();
    ReachesFew(LEAKING, 7, GRANTED, RESTARTED);
    ReachesFew(LEAKING, 8, RESTARTED, TWICE_COMMITTED);
  }

  lemma ReachesNoticeLate()
    ensures Reaches(LEAKING, 11, NOTICE_LATE)
  {
    ReachesTwiceCommitted();
    ReachesFew(LEAKING, 9, TWICE_COMMITTED, NOTICE_SENT);
    ReachesFew(LEAKING, 10, NOTICE_SENT, NOTICE_LATE);
  }

  const HEARING_AGAIN := NOTICE_LATE.(
    down := [COMMIT], handling := Handles(CompositionStart), puppet := Puppet(false, true),
    heard := [CompositionStart, CompositionCommit, CompositionStart])
  const HEARD_AGAIN := HEARING_AGAIN.(handling := Free, up := [Ack(CompositionStart)])
  const HEARING_COMMIT := HEARD_AGAIN.(
    down := [], handling := Handles(CompositionCommit), puppet := Puppet(false, false),
    heard := [CompositionStart, CompositionCommit, CompositionStart, CompositionCommit])
  const HEARD_COMMIT := HEARING_COMMIT.(handling := Free, up := [Ack(CompositionStart), Ack(CompositionCommit)])

  lemma ReachesHeardAgain()
    ensures Reaches(LEAKING, 13, HEARD_AGAIN)
  {
    ReachesNoticeLate();
    ReachesFew(LEAKING, 11, NOTICE_LATE, HEARING_AGAIN);
    ReachesFew(LEAKING, 12, HEARING_AGAIN, HEARD_AGAIN);
  }

  lemma ReachesHeardCommit()
    ensures Reaches(LEAKING, 15, HEARD_COMMIT)
  {
    ReachesHeardAgain();
    ReachesFew(LEAKING, 13, HEARD_AGAIN, HEARING_COMMIT);
    ReachesFew(LEAKING, 14, HEARING_COMMIT, HEARD_COMMIT);
  }

  const HALF_ANSWERED := HEARD_COMMIT.(
    parent := NOTICE_LATE.parent.(pendingEventsNeedingAck := 1), up := [Ack(CompositionCommit)])
  const LEFT_WITH_ONE := HALF_ANSWERED.(
    parent := INITIAL_COUNTERS.(pendingEventsNeedingAck := 1, pendingCompositionCount := 1),
    up := [], flushing := true)
  const LEAKED := LEFT_WITH_ONE.(parent := INITIAL_COUNTERS.(pendingCompositionCount := 1), flushing := false)

  lemma ReachesLeftWithOne()
    ensures Reaches(LEAKING, 17, LEFT_WITH_ONE)
  {
    ReachesHeardCommit();
    ReachesFew(LEAKING, 15, HEARD_COMMIT, HALF_ANSWERED);
    ReachesFew(LEAKING, 16, HALF_ANSWERED, LEFT_WITH_ONE);
  }

  lemma ReachesLeaked()
    ensures Reaches(LEAKING, 18, LEAKED)
  {
    ReachesLeftWithOne();
    ReachesFew(LEAKING, 17, LEFT_WITH_ONE, LEAKED);
  }

  /** A run with a state that is not accounted for cannot be timely. */
  lemma UnaccountedIsUntimely(states: seq<System>, steps: seq<Step>, s: System)
    requires EndsIn(states, steps, s) && !Accounted(s)
    ensures !Timely(states, steps)
  {
    AccountedExactlyWhenTimely(states, steps);
  }

  /** A commit between the IME's own commit and its notice, which is not timely: the
      parent takes it for the ignored one, and when all has gone quiet a composition
      that nobody has is still pending, so that later commit requests are declined as
      too old. */
  lemma CommitBeforeNoticeLeaks()
    ensures exists states, s ::
      && EndsIn(states, LEAKING, s) && !Timely(states, LEAKING)
      && Quiet(s) && !s.parent.widgetHasComposition && !s.puppet.composing
      && s.parent.pendingCompositionCount == 1
  {
    ReachesLeaked();
    assert LEAKING[..18] == LEAKING;
    var states :| EndsIn(states, LEAKING, LEAKED);
    UnaccountedIsUntimely(states, LEAKING, LEAKED);
  }

  const BLUR_REPLIED := COMPOSED.(
    parent := COMPOSING_TO_ACK, phase := Replied(CommittedAfterBlur("")))
  const BLUR_NOTICE_SENT := BLUR_REPLIED.(
    up := [RequestHandled(AfterBlur)], phase := Running, puppet := Puppet(true, false),
    heard := [CompositionStart, CompositionCommit])
  const NOTICE_EARLY := BLUR_NOTICE_SENT.(
    parent := INITIAL_COUNTERS.(pendingEventsNeedingAck := 1, widgetHasComposition := true), up := [], flushing := true)
  const NONE_PENDING := NOTICE_EARLY.(parent := INITIAL_COUNTERS.(widgetHasComposition := true), flushing := false)
  const LATE_COMMIT := NONE_PENDING.(
    parent := INITIAL_COUNTERS.(pendingEventsNeedingAck := 1, pendingCommitCount := 1), down := [COMMIT])
  const LATE_COMMIT_DROPPED := LATE_COMMIT.(down := [], handling := Handles(CompositionCommit))
  const REPAIRED := LATE_COMMIT_DROPPED.(handling := Free, up := [Ack(CompositionCommit)])

  lemma ReachesBlurNoticeSent()
    ensures Reaches(REPAIRING, 8, BLUR_NOTICE_SENT)
  {
    ReachesAsked(REPAIRING);
    ReachesFew(REPAIRING, 6, ASKED, BLUR_REPLIED);
    ReachesFew(REPAIRING, 7, BLUR_REPLIED, BLUR_NOTICE_SENT);
  }

  lemma ReachesNonePending()
    ensures Reaches(REPAIRING, 10, NONE_PENDING)
  {
    ReachesBlurNoticeSent();
    ReachesFew(REPAIRING, 8, BLUR_NOTICE_SENT, NOTICE_EARLY);
    ReachesFew(REPAIRING, 9, NOTICE_EARLY, NONE_PENDING);
  }

  lemma ReachesRepaired()
    ensures Reaches(REPAIRING, 13, REPAIRED)
  {
    ReachesNonePending();
    ReachesFew(REPAIRING, 10, NONE_PENDING, LATE_COMMIT);
    ReachesFew(REPAIRING, 11, LATE_COMMIT, LATE_COMMIT_DROPPED);
    ReachesFew(REPAIRING, 12, LATE_COMMIT_DROPPED, REPAIRED);
  }

  /** A notice that overtakes the widget's commit after a reply on blur, which is not
      timely: the commit of that composition then finds no pending composition and is
      repaired. */
  lemma NoticeBeforeBlurCommitRepairs()
    ensures exists states, s ::
      && EndsIn(states, REPAIRING, s) && !Timely(states, REPAIRING)
      && s.up != [] && s.up[0] == Ack(CompositionCommit)
      && s.parent.RepairsCompositionCount(Received(CompositionCommit))
  {
    ReachesRepaired();
    assert REPAIRING[..13] == REPAIRING;
    var states :| EndsIn(states, REPAIRING, REPAIRED);
    UnaccountedIsUntimely(states, REPAIRING, REPAIRED);
  }
}

/** What every interleaving of the two processes keeps: the counters count what is
    in flight, the stored start offset is forgotten in time, and the content
    process hears compositions in order. */
module CompositionSafety {
  import opened BasicTypes
  import opened CompositionEvents
  import opened CompositionCounters
  import opened CompositionProtocol

  /** The content process as the events in flight will find it. */
  datatype View = Resting | Composing | Ignoring | Broken

  function Advance(v: View, m: EventMessage): View {
    if m.SetSelection? then v
    else match v
      case Broken => Broken
      case Ignoring => if m.CompositionStart? then Composing else Ignoring
      case Composing => if !MayFollow(true, m) then Broken else if OpenAfter(m) then Composing else Resting
      case Resting => if m.CompositionStart? then Composing else Broken
  }

  function Arrive(v: View, down: seq<Event>): View {
    if down == [] then v else Advance(Arrive(v, down[..|down| - 1]), down[|down| - 1].message)
  }

  lemma ArriveAppend(v: View, down: seq<Event>, e: Event)
    ensures Arrive(v, down + [e]) == Advance(Arrive(v, down), e.message)
  {
  }

  lemma {:induction false} ArriveHead(v: View, down: seq<Event>)
    requires down != []
    ensures Arrive(v, down) == Arrive(Advance(v, down[0].message), down[1..])
  {
    if |down| == 1 {
    } else {
      var init := down[..|down| - 1];
      ArriveHead(v, init);
      assert down[1..][..|down[1..]| - 1] == init[1..];
    }
  }

  /** With no commit in flight nothing can end the composition the content process
      is in, and a content process that ignores events will not see a start. */
  lemma {:induction false} NoCommitInFlight(down: seq<Event>)
    requires CountCommits(down) == 0
    requires !Arrive(Composing, down).Broken?
    ensures Arrive(Composing, down).Composing?
    ensures Arrive(Ignoring, down).Ignoring?
  {
    if down == [] {
    } else {
      NoCommitInFlight(down[..|down| - 1]);
    }
  }

  function ViewOf(s: System): View {
    if AwaitsNotice(s) == 1 || s.puppet.ignoring then Ignoring
    else if s.puppet.composing then Composing
    else Resting
  }

  ghost predicate InOrder(s: System) {
    && !(s.puppet.ignoring && s.puppet.composing)
    && (!s.phase.Running? ==> s.puppet.composing)
    && IsOrdered(s.heard, s.puppet.composing)
    && var v := Arrive(ViewOf(s), s.down);
       v.Ignoring? || (if s.parent.widgetHasComposition then v.Composing? else v.Resting?)
  }

  // ----- The notice of a commit is the next thing the parent hears -----

  ghost predicate Fifo(s: System) {
    && (s.phase.Waiting? ==> s.up != [] && s.up[|s.up| - 1].CommitRequest?)
    && (s.phase.Replied? ==> s.up == [])
    && (forall i :: 0 <= i < |s.up| && s.up[i].CommitRequest? ==> s.phase.Waiting? && i == |s.up| - 1)
    && (forall i :: 0 <= i < |s.up| && s.up[i].RequestHandled? ==> i == 0)
  }

  lemma RequestIsAlone(s: System)
    requires Fifo(s) && s.up != [] && s.up[0].CommitRequest?
    ensures s.up == [CommitRequest] && s.phase.Waiting?
  {
  }

  lemma FifoStep(s: System, l: Step)
    requires Fifo(s) && Enabled(s, l)
    ensures Fifo(Apply(s, l))
  {
  }

  // ----- Conservation over a whole step -----

  lemma ConservedStep(s: System, l: Step)
    requires Conserved(s) && Fits(s) && Enabled(s, l) && Fits(Apply(s, l))
    ensures Conserved(Apply(s, l))
  {
    if l.ParentReceives? {
      if s.up[0].CommitRequest? { ConservedByRequest(s, l.surroundings); } else { ConservedByAck(s, l.widgetAlive); }
    }
    else if l.Dispatch? { ConservedByDispatch(s, l); }
    else if l.Select? { ConservedBySelect(s, l); }
    else if l.FlushAgain? || l.FlushEnds? || l.ContentChanges? { ConservedByParent(s, l); }
    else { ConservedByChild(s, l); }
  }

  // ----- Order -----

  lemma InOrderDispatch(s: System, l: Step)
    requires InOrder(s) && Enabled(s, l) && (l.Dispatch? || l.Select?)
    ensures InOrder(Apply(s, l))
  {
    var e := if l.Dispatch? then l.event else Event(SetSelection, "");
    ArriveAppend(ViewOf(s), s.down, e);
    assert ViewOf(Apply(s, l)) == ViewOf(s);
  }

  lemma InOrderChildReceives(s: System)
    requires InOrder(s) && s.phase.Running? && s.down != []
    ensures InOrder(DeliverNext(s))
  {
    var m := s.down[0].message;
    ArriveHead(ViewOf(s), s.down);
    BrokenStays(s.down[1..]);
    assert !Advance(ViewOf(s), m).Broken?;
    if IsHeard(s.puppet, m) { OrderedAppend(s.heard, s.puppet.composing, m); }
    assert ViewOf(DeliverNext(s)) == Advance(ViewOf(s), m);
  }

  lemma {:induction false} BrokenStays(down: seq<Event>)
    ensures Arrive(Broken, down).Broken?
  {
    if down == [] {
    } else {
      BrokenStays(down[..|down| - 1]);
    }
  }

  lemma InOrderRequest(s: System, around: Surroundings)
    requires InOrder(s) && Conserved(s) && Fifo(s)
    requires s.up != [] && s.up[0].CommitRequest? && IsFinalization(s.parent, around.script)
    ensures InOrder(ReceiveRequest(s, around))
  {
    RequestIsAlone(s);
    if s.parent.pendingCommitCount == 0 {
      BrokenIsNotComposing(s);
      NoCommitInFlight(s.down);
    }
  }

  lemma BrokenIsNotComposing(s: System)
    requires InOrder(s) && s.phase.Waiting?
    ensures ViewOf(s).Composing? && !Arrive(Composing, s.down).Broken?
  {
  }

  lemma InOrderStep(s: System, l: Step)
    requires InOrder(s) && Conserved(s) && Fifo(s) && Enabled(s, l)
    ensures InOrder(Apply(s, l))
  {
    match l
    case Dispatch(_, _) => InOrderDispatch(s, l);
    case Select => InOrderDispatch(s, l);
    case ParentReceives(alive, around) =>
      if s.up[0].CommitRequest? { InOrderRequest(s, around); } else { InOrderAck(s, alive); }
    case FlushAgain =>
    case FlushEnds => InOrderElsewhere(s, l);
    case ContentChanges(_, _) => InOrderElsewhere(s, l);
    case ChildReceives => InOrderChildReceives(s);
    case ChildAcknowledges => InOrderElsewhere(s, l);
    case ChildRequests => InOrderElsewhere(s, l);
    case ChildReceivesReply => InOrderReply(s);
  }

  lemma InOrderAck(s: System, alive: bool)
    requires InOrder(s) && s.up != [] && !s.up[0].CommitRequest?
    ensures InOrder(ReceiveAck(s, alive))
  {
    assert ViewOf(ReceiveAck(s, alive)) == ViewOf(s);
  }

  lemma InOrderElsewhere(s: System, l: Step)
    requires InOrder(s) && Enabled(s, l)
    requires l.FlushEnds? || l.ContentChanges? || l.ChildAcknowledges? || l.ChildRequests?
    ensures InOrder(Apply(s, l))
  {
    assert ViewOf(Apply(s, l)) == ViewOf(s);
  }

  lemma InOrderReply(s: System)
    requires InOrder(s) && s.phase.Replied?
    ensures InOrder(ReceiveReply(s))
  {
    if s.phase.reply.IsCommitted() { OrderedAppend(s.heard, true, CompositionCommit); }
  }

  // ----- The stored start offset -----

  ghost predicate StartForgotten(s: System) {
    s.parent.HasNoComposition() && NoticesOutstanding(s) == 0 ==> s.parent.compositionStart == UINT32_MAX
  }

  /** An event that was sent leaves a composition or a pending commit. */
  lemma DispatchIsComposition(s: System, l: Step)
    requires Conserved(s) && Fits(s) && l.Dispatch? && Enabled(s, l) && Fits(Apply(s, l))
    ensures !Apply(s, l).parent.HasNoComposition()
  {
    ConservedByDispatch(s, l);
    CountCommitsAppend(s.down, l.event);
  }

  lemma StartForgottenByAck(s: System, alive: bool)
    requires StartForgotten(s) && s.up != [] && !s.up[0].CommitRequest?
    ensures StartForgotten(ReceiveAck(s, alive))
  {
    CountHeads(s);
  }

  lemma StartForgottenByRequest(s: System, around: Surroundings)
    requires StartForgotten(s) && Conserved(s) && Fits(s) && s.up != [] && s.up[0].CommitRequest?
    requires IsFinalization(s.parent, around.script)
    ensures StartForgotten(ReceiveRequest(s, around))
  {
    CountHeads(s);
  }

  lemma StartForgottenStep(s: System, l: Step)
    requires StartForgotten(s) && Conserved(s) && Fits(s) && Enabled(s, l) && Fits(Apply(s, l))
    ensures StartForgotten(Apply(s, l))
  {
    match l
    case Dispatch(_, _) => DispatchIsComposition(s, l);
    case Select =>
    case ParentReceives(alive, around) =>
      if s.up[0].CommitRequest? { StartForgottenByRequest(s, around); } else { StartForgottenByAck(s, alive); }
    case FlushAgain =>
    case FlushEnds =>
    case ContentChanges(_, _) =>
    case ChildReceives =>
    case ChildAcknowledges => CountAppends(s, Ack(s.handling.message));
    case ChildRequests => CountAppends(s, CommitRequest);
    case ChildReceivesReply =>
      if s.phase.reply.IsCommitted() { CountAppends(s, RequestHandled(KindOf(s.phase.reply))); }
  }

  // ----- Every reachable state -----

  ghost predicate Sound(s: System) {
    Conserved(s) && Fifo(s) && InOrder(s) && StartForgotten(s)
  }

  lemma SoundInitially()
    ensures Sound(INITIAL)
  {
    EmptyIsOrdered();
  }

  lemma SoundStep(s: System, l: Step)
    requires Sound(s) && Fits(s) && Enabled(s, l) && Fits(Apply(s, l))
    ensures Sound(Apply(s, l))
  {
    ConservedStep(s, l);
    FifoStep(s, l);
    InOrderStep(s, l);
    StartForgottenStep(s, l);
  }

  lemma {:induction false} SoundAlways(states: seq<System>, steps: seq<Step>, i: nat)
    requires IsRun(states, steps) && i < |states|
    ensures Sound(states[i]) && Fits(states[i])
  {
    if i == 0 { SoundInitially(); }
    else {
      SoundAlways(states, steps, i - 1);
      assert TakesAt(states, steps, i - 1);
      SoundStep(states[i - 1], steps[i - 1]);
    }
  }

  /** In every run the composition events that the content process hears, its own
      synthesized commits included, are a prefix of (Start Change* Commit)*. */
  lemma ContentHearsCompositionsInOrder(states: seq<System>, steps: seq<Step>, i: nat)
    requires IsRun(states, steps) && i < |states|
    ensures IsOrdered(states[i].heard, states[i].puppet.composing)
  {
    SoundAlways(states, steps, i);
  }

  lemma {:induction false} CountUpLeq(up: seq<UpMessage>, p: UpMessage -> bool, q: UpMessage -> bool)
    requires forall u :: p(u) ==> q(u)
    ensures CountUp(up, p) <= CountUp(up, q)
  {
    if up == [] {
    } else {
      CountUpLeq(up[..|up| - 1], p, q);
    }
  }

  /** In every run the counters equal what is in flight, so no acknowledgement finds
      either of them empty; and once nothing is pending, no commit is pending and
      the start offset of a finished composition has been forgotten. */
  lemma CountersCountWhatIsInFlight(states: seq<System>, steps: seq<Step>, i: nat)
    requires IsRun(states, steps) && i < |states|
    ensures var s := states[i];
      && s.parent.pendingEventsNeedingAck == InFlight(s)
      && s.parent.pendingCommitCount == CommitsInFlight(s)
      && (s.up != [] && !s.up[0].CommitRequest? ==> s.parent.pendingEventsNeedingAck > 0)
      && (s.up != [] && IS_COMMIT_ACK(s.up[0]) ==> s.parent.pendingCommitCount > 0)
      && (s.flushing ==> s.parent.pendingEventsNeedingAck > 0)
      && (s.parent.pendingEventsNeedingAck == 0 ==> s.parent.pendingCommitCount == 0)
      && (s.parent.pendingEventsNeedingAck == 0 ==>
            s.parent.widgetHasComposition || s.parent.pendingCompositionCount > 0
            || s.parent.compositionStart == UINT32_MAX)
  {
    var s := states[i];
    SoundAlways(states, steps, i);
    if s.up != [] { CountHeads(s); }
    if s.parent.pendingEventsNeedingAck == 0 {
      CountUpLeq(s.up, IS_COMMIT_ACK, IS_ACKNOWLEDGEMENT);
      CountUpLeq(s.up, IS_NOTICE, IS_ACKNOWLEDGEMENT);
    }
  }

  // ----- Everything settles -----

  /** Nothing is in flight and nobody is waiting. */
  predicate Quiet(s: System) {
    s.down == [] && s.up == [] && s.handling.Free? && s.phase.Running? && !s.flushing
  }

  /** Steps that work off what is in flight. */
  predicate WorksOff(l: Step) {
    l.ParentReceives? || l.FlushEnds? || l.ChildReceives? || l.ChildAcknowledges? || l.ChildReceivesReply?
  }

  /** How much there is to work off: an event takes longer than its handling, that longer
      than its acknowledgement, and that longer than a flush; a request takes longer than
      its reply, and that longer than the notice. */
  function Work(s: System): nat {
    4 * |s.down| + (if s.handling.Handles? then 3 else 0) + 2 * |s.up| + (if s.flushing then 1 else 0)
    + match s.phase { case Running => 0 case Waiting => 2 case Replied(_) => 3 }
  }

  const NO_IME := Surroundings(false, false, false, [])

  /** Nobody blocks for good: unless everything is quiet there is a step that works
      something off, and every such step leaves less work. */
  lemma EverythingSettles(s: System)
    requires Fifo(s)
    ensures forall l :: Enabled(s, l) && WorksOff(l) ==> Work(Apply(s, l)) < Work(s)
    ensures !Quiet(s) ==> exists l :: Enabled(s, l) && WorksOff(l)
    ensures Work(s) == 0 <==> Quiet(s)
  {
    if s.up != [] {
      assert Enabled(s, ParentReceives(true, NO_IME));
    } else if s.phase.Replied? {
      assert Enabled(s, ChildReceivesReply);
    } else if s.handling.Handles? {
      assert Enabled(s, ChildAcknowledges);
    } else if s.down != [] {
      assert Enabled(s, ChildReceives);
    } else if s.flushing {
      assert Enabled(s, FlushEnds);
    }
  }
}

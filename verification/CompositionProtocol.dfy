/** The parent process and a content process as one state machine: two FIFO
    channels, and a synchronous commit request that crosses the events in flight. */
module CompositionProtocol {
  import opened BasicTypes
  import opened CompositionEvents
  import opened CompositionCounters

  /** A true reply is handled by the IME or, after the browser lost focus, from the
      stored string; the content process answers both with the same notice. */
  datatype ReplyKind = ByIME | AfterBlur

  datatype UpMessage = Ack(message: EventMessage) | RequestHandled(kind: ReplyKind) | CommitRequest

  /** The content process blocks from sending a commit request until its reply. */
  datatype Phase = Running | Waiting | Replied(reply: Reply)

  datatype Puppet = Puppet(ignoring: bool, composing: bool)

  /** The event whose handlers run in the content process. It is acknowledged when they
      have returned. */
  datatype Handling = Free | Handles(message: EventMessage)

  datatype System = System(
    parent: Counters,
    flushing: bool,
    down: seq<Event>,
    up: seq<UpMessage>,
    handling: Handling,
    phase: Phase,
    puppet: Puppet,
    heard: seq<EventMessage>)

  datatype Step =
    | Dispatch(event: Event, pluginHasFocus: bool)
    | Select
    | ParentReceives(widgetAlive: bool, surroundings: Surroundings)
    | FlushAgain
    | FlushEnds
    | ContentChanges(childStart: uint32, selection: uint32)
    | ChildReceives
    | ChildAcknowledges
    | ChildRequests
    | ChildReceivesReply

  const INITIAL_COUNTERS :=
    Counters(0, 0, 0, false, false, UINT32_MAX, UINT32_MAX, "", 0, UINT32_MAX)

  const INITIAL := System(INITIAL_COUNTERS, false, [], [], Free, Running, Puppet(false, false), [])

  // ----- The content process: PuppetWidget's filter -----

  /** Until the next start, a content process that has committed by itself drops
      what still arrives for the old composition. */
  predicate Drops(p: Puppet, m: EventMessage) {
    p.ignoring && !m.CompositionStart? && !m.SetSelection?
  }

  function Deliver(p: Puppet, m: EventMessage): Puppet {
    if m.SetSelection? || Drops(p, m) then p
    else Puppet(false, if m.CompositionStart? then true else p.composing && !CausesDOMCompositionEndEvent(m))
  }

  predicate IsHeard(p: Puppet, m: EventMessage) {
    !m.SetSelection? && !Drops(p, m)
  }

  // ----- Steps -----

  predicate Enabled(s: System, l: Step) {
    match l
    case Dispatch(e, _) => s.parent.CanDispatch(e.message)
    case Select => true
    case ParentReceives(_, around) =>
      s.up != [] && (s.up[0].CommitRequest? ==> IsFinalization(s.parent, around.script))
    case FlushAgain => s.flushing && s.parent.pendingEventsNeedingAck == 1
    case FlushEnds => s.flushing
    case ContentChanges(_, _) => true
    case ChildReceives => s.phase.Running? && s.handling.Free? && s.down != []
    case ChildAcknowledges => s.phase.Running? && s.handling.Handles?
    case ChildRequests => s.phase.Running? && s.puppet.composing && !s.puppet.ignoring
    case ChildReceivesReply => s.phase.Replied?
  }

  function AsAcknowledgement(u: UpMessage): Acknowledgement
    requires !u.CommitRequest?
  {
    if u.Ack? then Received(u.message) else CommitRequestHandled
  }

  /** An acknowledgement that leaves nothing pending starts a flush of the pending
      notifications, which counts as one pending event while it runs. */
  function ReceiveAck(s: System, alive: bool): System
    requires s.up != [] && !s.up[0].CommitRequest?
  {
    var after := s.parent.Acknowledge(AsAcknowledgement(s.up[0]));
    var popped := s.(parent := after, up := s.up[1..]);
    if after.pendingEventsNeedingAck == 0 && alive
    then popped.(parent := after.(pendingEventsNeedingAck := 1), flushing := true)
    else popped
  }

  function ReceiveRequest(s: System, around: Surroundings): System
    requires s.up != [] && IsFinalization(s.parent, around.script)
  {
    var (after, reply) := Request(s.parent, around);
    s.(parent := after, up := s.up[1..], phase := Replied(reply))
  }

  function DeliverNext(s: System): System
    requires s.down != []
  {
    var m := s.down[0].message;
    s.(down := s.down[1..],
       handling := Handles(m),
       puppet := Deliver(s.puppet, m),
       heard := if IsHeard(s.puppet, m) then s.heard + [m] else s.heard)
  }

  function AcknowledgeHandled(s: System): System
    requires s.handling.Handles?
  {
    s.(handling := Free, up := s.up + [Ack(s.handling.message)])
  }

  function KindOf(r: Reply): ReplyKind
    requires r.IsCommitted()
  {
    if r.CommittedByIME? then ByIME else AfterBlur
  }

  /** On a true reply the content process commits by itself and reports it. */
  function ReceiveReply(s: System): System
    requires s.phase.Replied?
  {
    if s.phase.reply.Declined? then s.(phase := Running)
    else s.(
      phase := Running,
      puppet := Puppet(true, false),
      heard := if IsHeard(s.puppet, CompositionCommit) then s.heard + [CompositionCommit] else s.heard,
      up := s.up + [RequestHandled(KindOf(s.phase.reply))])
  }

  function Apply(s: System, l: Step): System
    requires Enabled(s, l)
  {
    match l
    case Dispatch(e, plugin) => s.(parent := s.parent.Send(e, plugin), down := s.down + [e])
    case Select => s.(parent := s.parent.SendSelection(), down := s.down + [Event(SetSelection, "")])
    case ParentReceives(alive, around) =>
      if s.up[0].CommitRequest? then ReceiveRequest(s, around) else ReceiveAck(s, alive)
    case FlushAgain => s
    case FlushEnds =>
      s.(flushing := false,
         parent := s.parent.(pendingEventsNeedingAck :=
           if s.parent.pendingEventsNeedingAck == 0 then UINT32_MAX else s.parent.pendingEventsNeedingAck - 1))
    case ContentChanges(start, selection) => s.(parent := s.parent.Assign(start, selection))
    case ChildReceives => DeliverNext(s)
    case ChildAcknowledges => AcknowledgeHandled(s)
    case ChildRequests => s.(up := s.up + [CommitRequest], phase := Waiting)
    case ChildReceivesReply => ReceiveReply(s)
  }

  // ----- What is in flight -----

  function CountCommits(down: seq<Event>): nat {
    if down == [] then 0
    else CountCommits(down[..|down| - 1]) + (if IsFollowedByCompositionEnd(down[|down| - 1].message) then 1 else 0)
  }

  function CountUp(up: seq<UpMessage>, p: UpMessage -> bool): nat {
    if up == [] then 0
    else CountUp(up[..|up| - 1], p) + (if p(up[|up| - 1]) then 1 else 0)
  }

  const IS_ACKNOWLEDGEMENT := (u: UpMessage) => !u.CommitRequest?
  const IS_REQUEST := (u: UpMessage) => u.CommitRequest?
  const IS_COMMIT_ACK := (u: UpMessage) => u.Ack? && IsFollowedByCompositionEnd(u.message)
  const IS_NOTICE_BY_IME := (u: UpMessage) => u.RequestHandled? && u.kind.ByIME?
  const IS_NOTICE := (u: UpMessage) => u.RequestHandled?

  function AwaitsNotice(s: System): nat {
    if s.phase.Replied? && s.phase.reply.IsCommitted() then 1 else 0
  }

  predicate HandlesCommit(s: System) {
    s.handling.Handles? && IsFollowedByCompositionEnd(s.handling.message)
  }

  function InFlight(s: System): nat {
    |s.down| + (if s.handling.Handles? then 1 else 0) + CountUp(s.up, IS_ACKNOWLEDGEMENT) + AwaitsNotice(s)
    + (if s.flushing then 1 else 0)
  }

  function CommitsInFlight(s: System): nat {
    CountCommits(s.down) + (if HandlesCommit(s) then 1 else 0) + CountUp(s.up, IS_COMMIT_ACK)
  }

  /** Synchronously handled requests whose notice the parent has not seen. */
  function HandledSynchronously(s: System): nat {
    CountUp(s.up, IS_NOTICE_BY_IME) + (if s.phase.Replied? && s.phase.reply.CommittedByIME? then 1 else 0)
  }

  function NoticesOutstanding(s: System): nat {
    CountUp(s.up, IS_NOTICE) + AwaitsNotice(s)
  }

  /** What is in flight still fits the widths of the counters. */
  predicate Fits(s: System) {
    InFlight(s) <= UINT32_MAX && CommitsInFlight(s) <= UINT8_MAX
  }

  ghost predicate Takes(s: System, l: Step, next: System) {
    Enabled(s, l) && next == Apply(s, l) && Fits(next)
  }

  ghost predicate TakesAt(states: seq<System>, steps: seq<Step>, i: nat)
    requires i < |steps| && |states| == |steps| + 1
  {
    Takes(states[i], steps[i], states[i + 1])
  }

  ghost predicate IsRun(states: seq<System>, steps: seq<Step>) {
    && |states| == |steps| + 1
    && states[0] == INITIAL
    && forall i: nat :: i < |steps| ==> TakesAt(states, steps, i)
  }

  lemma {:induction false} CountUpHead(up: seq<UpMessage>, p: UpMessage -> bool)
    requires up != []
    ensures CountUp(up, p) == (if p(up[0]) then 1 else 0) + CountUp(up[1..], p)
  {
    if |up| == 1 {
    } else {
      var init := up[..|up| - 1];
      CountUpHead(init, p);
      assert up[1..][..|up[1..]| - 1] == init[1..];
    }
  }

  lemma CountCommitsAppend(down: seq<Event>, e: Event)
    ensures CountCommits(down + [e]) == CountCommits(down) + if IsFollowedByCompositionEnd(e.message) then 1 else 0
  {
  }

  lemma {:induction false} CountCommitsHead(down: seq<Event>)
    requires down != []
    ensures CountCommits(down) ==
            (if IsFollowedByCompositionEnd(down[0].message) then 1 else 0) + CountCommits(down[1..])
  {
    if |down| == 1 {
    } else {
      var init := down[..|down| - 1];
      CountCommitsHead(init);
      assert down[1..][..|down[1..]| - 1] == init[1..];
    }
  }

  lemma CountAppends(s: System, u: UpMessage)
    ensures forall p :: CountUp(s.up + [u], p) == CountUp(s.up, p) + if p(u) then 1 else 0
  {
  }

  lemma CountHeads(s: System)
    requires s.up != []
    ensures forall p :: CountUp(s.up, p) == (if p(s.up[0]) then 1 else 0) + CountUp(s.up[1..], p)
  {
    forall p { CountUpHead(s.up, p); }
  }

  // ----- Conservation -----

  ghost predicate Conserved(s: System) {
    && s.parent.pendingEventsNeedingAck == InFlight(s)
    && s.parent.pendingCommitCount == CommitsInFlight(s)
    && CountUp(s.up, IS_REQUEST) == (if s.phase.Waiting? then 1 else 0)
  }

  lemma AcknowledgeCounts(c: Counters, a: Acknowledgement)
    requires c.pendingEventsNeedingAck > 0
    requires a.Received? && IsFollowedByCompositionEnd(a.message) ==> c.pendingCommitCount > 0
    ensures c.Acknowledge(a).pendingEventsNeedingAck == c.pendingEventsNeedingAck - 1
    ensures c.Acknowledge(a).pendingCommitCount == c.pendingCommitCount
            - if a.Received? && IsFollowedByCompositionEnd(a.message) then 1 else 0
  {
  }

  lemma ConservedByAck(s: System, alive: bool)
    requires Conserved(s) && Fits(s) && s.up != [] && !s.up[0].CommitRequest?
    ensures Conserved(ReceiveAck(s, alive))
  {
    CountHeads(s);
    AcknowledgeCounts(s.parent, AsAcknowledgement(s.up[0]));
  }

  lemma ConservedByRequest(s: System, around: Surroundings)
    requires Conserved(s) && Fits(s) && s.up != [] && s.up[0].CommitRequest?
    requires IsFinalization(s.parent, around.script) && Fits(ReceiveRequest(s, around))
    ensures Conserved(ReceiveRequest(s, around))
  {
    CountHeads(s);
  }

  lemma ConservedByChild(s: System, l: Step)
    requires Conserved(s) && Fits(s) && Enabled(s, l) && Fits(Apply(s, l))
    requires l.ChildReceives? || l.ChildAcknowledges? || l.ChildRequests? || l.ChildReceivesReply?
    ensures Conserved(Apply(s, l))
  {
    match l
    case ChildReceives => ConservedByDelivery(s);
    case ChildAcknowledges => ConservedByHandled(s);
    case ChildRequests => CountAppends(s, CommitRequest);
    case ChildReceivesReply => ConservedByReply(s);
  }

  lemma ConservedByDelivery(s: System)
    requires Conserved(s) && s.handling.Free? && s.down != []
    ensures Conserved(DeliverNext(s))
  {
    CountCommitsHead(s.down);
  }

  lemma ConservedByHandled(s: System)
    requires Conserved(s) && s.handling.Handles?
    ensures Conserved(AcknowledgeHandled(s))
  {
    CountAppends(s, Ack(s.handling.message));
  }

  lemma ConservedByReply(s: System)
    requires Conserved(s) && s.phase.Replied?
    ensures Conserved(ReceiveReply(s))
  {
    if s.phase.reply.IsCommitted() { CountAppends(s, RequestHandled(KindOf(s.phase.reply))); }
  }

  lemma ConservedByDispatch(s: System, l: Step)
    requires Conserved(s) && Fits(s) && l.Dispatch? && Enabled(s, l) && Fits(Apply(s, l))
    ensures Conserved(Apply(s, l))
  {
  }

  lemma ConservedBySelect(s: System, l: Step)
    requires Conserved(s) && Fits(s) && l.Select? && Fits(Apply(s, l))
    ensures Conserved(Apply(s, l))
  {
  }

  lemma ConservedByParent(s: System, l: Step)
    requires Conserved(s) && Fits(s) && Enabled(s, l)
    requires l.FlushAgain? || l.FlushEnds? || l.ContentChanges?
    ensures Conserved(Apply(s, l))
  {
  }
}

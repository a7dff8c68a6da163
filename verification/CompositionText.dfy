/** Which text a commit request is answered with: that of the composition that the
    content process is in, unless nothing was typed into it yet and an older one's
    text was still stored when it started. */
module CompositionTexts {
  import opened BasicTypes
  import opened CompositionEvents
  import opened CompositionCounters
  import opened CompositionProtocol
  import opened CompositionSafety
  import opened CompositionAccounting

  /** What the widget's events say about its composition: the data of the last change
      since the last start, whether there was one, and the string that the parent
      process had stored at that start. */
  datatype Typing = Typing(text: string, changed: bool, atStart: string)
  {
    /** What the parent process remembers of it. */
    function Recalled(): string { if changed then text else atStart }
  }

  const NOTHING_TYPED := Typing("", false, "")

  function AfterEvent(t: Typing, e: Event, stored: string): Typing {
    if e.message.CompositionStart? then Typing("", false, stored)
    else if e.message.CompositionChange? then Typing(e.data, true, t.atStart)
    else t
  }

  function AfterScript(t: Typing, script: seq<Event>): Typing {
    if script == [] then t else AfterEvent(AfterScript(t, script[..|script| - 1]), script[|script| - 1], "")
  }

  /** The parent process reads a request and asks the IME. */
  predicate RequestReachesIME(s: System, l: Step) {
    l.ParentReceives? && s.up != [] && s.up[0].CommitRequest? && AsksIME(s.parent, l.surroundings)
  }

  function AfterStep(t: Typing, s: System, l: Step): Typing {
    if l.Dispatch? then AfterEvent(t, l.event, s.parent.compositionString)
    else if RequestReachesIME(s, l) then AfterScript(t, l.surroundings.script)
    else t
  }

  function Typed(states: seq<System>, steps: seq<Step>, i: nat): Typing
    requires i <= |steps| <= |states|
  {
    if i == 0 then NOTHING_TYPED else AfterStep(Typed(states, steps, i - 1), states[i - 1], steps[i - 1])
  }

  // ----- What the parent process remembers -----

  ghost predicate Remembers(s: System, t: Typing) {
    && (s.parent.widgetHasComposition ==> s.parent.compositionString == t.Recalled())
    && (s.parent.pendingCompositionCount == 0 ==> s.parent.compositionString == "")
    && (!t.changed ==> t.text == "")
  }

  /** The widget's composition is one of the pending ones. */
  lemma WidgetIsPending(s: System)
    requires Sound(s) && Paired(s) && Accounted(s) && s.parent.widgetHasComposition
    ensures s.parent.pendingCompositionCount > 0
  {
  }

  /** What the IME's last event leaves. */
  function AnsweredText(script: seq<Event>, t: Typing): string
    requires script != []
  {
    var last := script[|script| - 1];
    if last.message.CompositionCommitAsIs? then AfterScript(t, script).Recalled() else last.data
  }

  lemma {:induction false} ScriptIsRemembered(c: Counters, script: seq<Event>, plugin: bool, t: Typing)
    requires IsFinalization(c, script) && c.widgetHasComposition && c.compositionString == t.Recalled()
    requires !t.changed ==> t.text == ""
    ensures InterceptAll(c, script, plugin).0.compositionString == AfterScript(t, script).Recalled()
    ensures !AfterScript(t, script).changed ==> AfterScript(t, script).text == ""
    ensures script != [] ==> InterceptAll(c, script, plugin).1 == AnsweredText(script, t)
    decreases |script|
  {
    if script == [] {
    } else {
      var init := script[..|script| - 1];
      assert IsFinalization(c, init) && !EndsInCommit(init);
      ScriptIsRemembered(c, init, plugin, t);
    }
  }

  lemma RememberedByDispatch(s: System, l: Step, t: Typing)
    requires Remembers(s, t) && l.Dispatch? && Enabled(s, l)
    requires s.parent.widgetHasComposition ==> s.parent.pendingCompositionCount > 0
    ensures Remembers(Apply(s, l), AfterStep(t, s, l))
  {
  }

  lemma RememberedByRequest(s: System, l: Step, t: Typing)
    requires Sound(s) && Paired(s) && Accounted(s) && Remembers(s, t)
    requires l.ParentReceives? && Enabled(s, l) && s.up[0].CommitRequest?
    ensures Remembers(ReceiveRequest(s, l.surroundings), AfterStep(t, s, l))
  {
    if RequestReachesIME(s, l) {
      WidgetComposesAtRequest(s);
      WidgetIsPending(s);
      ScriptIsRemembered(s.parent, l.surroundings.script, l.surroundings.pluginHasFocus, t);
    }
  }

  lemma RememberedByAck(s: System, alive: bool, t: Typing)
    requires Remembers(s, t) && s.up != [] && !s.up[0].CommitRequest?
    requires ReceiveAck(s, alive).parent.widgetHasComposition ==>
      ReceiveAck(s, alive).parent.pendingCompositionCount > 0
    ensures Remembers(ReceiveAck(s, alive), t)
  {
  }

  lemma RememberedByOthers(s: System, l: Step, t: Typing)
    requires Remembers(s, t) && Enabled(s, l) && !l.Dispatch? && !l.ParentReceives?
    ensures Remembers(Apply(s, l), t)
  {
  }

  lemma RememberedByStep(s: System, l: Step, t: Typing)
    requires Sound(s) && Paired(s) && Accounted(s) && Remembers(s, t) && Enabled(s, l)
    requires Sound(Apply(s, l)) && Paired(Apply(s, l)) && Accounted(Apply(s, l))
    ensures Remembers(Apply(s, l), AfterStep(t, s, l))
  {
    if s.parent.widgetHasComposition { WidgetIsPending(s); }
    if l.Dispatch? {
      RememberedByDispatch(s, l, t);
    } else if !l.ParentReceives? {
      RememberedByOthers(s, l, t);
    } else if s.up[0].CommitRequest? {
      RememberedByRequest(s, l, t);
    } else {
      if Apply(s, l).parent.widgetHasComposition { WidgetIsPending(Apply(s, l)); }
      RememberedByAck(s, l.widgetAlive, t);
    }
  }

  lemma {:induction false} RememberedAlways(states: seq<System>, steps: seq<Step>, i: nat)
    requires IsRun(states, steps) && Timely(states, steps) && i <= |steps|
    ensures Remembers(states[i], Typed(states, steps, i))
    decreases i
  {
    if i == 0 {
    } else {
      RememberedAlways(states, steps, i - 1);
      RememberedAt(states, steps, i - 1, Typed(states, steps, i - 1));
    }
  }

  lemma RememberedAt(states: seq<System>, steps: seq<Step>, i: nat, t: Typing)
    requires IsRun(states, steps) && Timely(states, steps) && i < |steps| && Remembers(states[i], t)
    ensures Remembers(states[i + 1], AfterStep(t, states[i], steps[i]))
  {
    AccountedOnTheWay(states, steps, i);
    AccountedOnTheWay(states, steps, i + 1);
    assert TakesAt(states, steps, i);
    RememberedByStep(states[i], steps[i], t);
  }

  lemma AccountedOnTheWay(states: seq<System>, steps: seq<Step>, i: nat)
    requires IsRun(states, steps) && Timely(states, steps) && i < |states|
    ensures Sound(states[i]) && Paired(states[i]) && Accounted(states[i])
  {
    PairedAlways(states, steps, i);
    TimelyKeepsAccount(states, steps, i);
  }

  // ----- What a request is answered with -----

  /** The IME commits and says itself what. */
  predicate IMENamesText(r: Reply, script: seq<Event>) {
    r.CommittedByIME? && script != [] && script[|script| - 1].message.CompositionCommit?
  }

  /** In a timely run a request is answered with the text that the IME names, and
      otherwise with what is remembered. That is the text of the composition exactly
      when something was typed into it or nothing was stored when it started. */
  lemma ReplyTextExactly(states: seq<System>, steps: seq<Step>, j: nat)
    requires IsRun(states, steps) && Timely(states, steps) && j < |steps| && Grants(states[j], steps[j])
    ensures var r, t := Request(states[j].parent, steps[j].surroundings).1, Typed(states, steps, j + 1);
      if IMENamesText(r, steps[j].surroundings.script) then
        r.text == steps[j].surroundings.script[|steps[j].surroundings.script| - 1].data
      else
        && r.text == t.Recalled()
        && (r.text == t.text <==> t.changed || t.atStart == "")
  {
    var s, around := states[j], steps[j].surroundings;
    RememberedAlways(states, steps, j);
    RememberedAlways(states, steps, j + 1);
    SoundAlways(states, steps, j);
    WidgetComposesAtRequest(s);
    if RequestReachesIME(s, steps[j]) {
      ScriptIsRemembered(s.parent, around.script, around.pluginHasFocus, Typed(states, steps, j));
    }
  }

  /** Nothing is stored at a start with no older composition pending. */
  lemma StaleOnlyIfPending(states: seq<System>, steps: seq<Step>, i: nat)
    requires IsRun(states, steps) && Timely(states, steps) && i < |steps|
    requires steps[i].Dispatch? && steps[i].event.message.CompositionStart?
    ensures Typed(states, steps, i + 1).atStart != "" ==> states[i].parent.pendingCompositionCount > 0
  {
    RememberedAlways(states, steps, i);
  }

  // ----- A text that is committed twice -----

  const CHANGE_ABC := Event(CompositionChange, "abc")
  const COMMIT_ABC := Event(CompositionCommit, "abc")

  /** The widget types "abc" and, when everything is acknowledged, commits it and starts
      anew. The content process hears the commit, and its acknowledgement arrives; it
      hears the start and asks for a commit before anything is typed. By then the
      browser has lost focus. */
  const STALE: seq<Step> := [
    Dispatch(START, false), Dispatch(CHANGE_ABC, false),
    ChildReceives, ChildAcknowledges, ChildReceives, ChildAcknowledges, HEAR, HEAR, FlushEnds,
    Dispatch(COMMIT_ABC, false), Dispatch(START, false),
    ChildReceives, ChildAcknowledges, HEAR, ChildReceives, ChildRequests, ParentReceives(true, BLURRED)]

  const TYPING := COMPOSING.(compositionString := "abc")
  const TYPED := INITIAL.(parent := TYPING.(pendingEventsNeedingAck := 2), down := [START, CHANGE_ABC])
  const HEARS_START := TYPED.(
    down := [CHANGE_ABC], handling := Handles(CompositionStart), puppet := Puppet(false, true),
    heard := [CompositionStart])
  const HEARD_START := HEARS_START.(handling := Free, up := [Ack(CompositionStart)])
  const HEARS_CHANGE := HEARD_START.(
    down := [], handling := Handles(CompositionChange), heard := [CompositionStart, CompositionChange])
  const HEARD_CHANGE := HEARS_CHANGE.(handling := Free, up := [Ack(CompositionStart), Ack(CompositionChange)])
  const ONE_TO_ACK := HEARD_CHANGE.(parent := TYPING.(pendingEventsNeedingAck := 1), up := [Ack(CompositionChange)])
  const ALL_ACKED := ONE_TO_ACK.(up := [], flushing := true)
  const IDLE := ALL_ACKED.(parent := TYPING, flushing := false)

  const COMMITTING := IDLE.(
    parent := TYPING.(
      pendingEventsNeedingAck := 1, pendingCommitCount := 1, widgetHasComposition := false, pendingCommitLength := 3),
    down := [COMMIT_ABC])
  const STARTING_ANEW := COMMITTING.(
    parent := COMMITTING.parent.(
      pendingEventsNeedingAck := 2, pendingCompositionCount := 2, widgetHasComposition := true),
    down := [COMMIT_ABC, START])
  const HEARS_COMMIT := STARTING_ANEW.(
    down := [START], handling := Handles(CompositionCommit), puppet := Puppet(false, false),
    heard := [CompositionStart, CompositionChange, CompositionCommit])
  const HEARD_COMMIT_ABC := HEARS_COMMIT.(handling := Free, up := [Ack(CompositionCommit)])
  const STILL_STORED := HEARD_COMMIT_ABC.(parent := TYPING.(pendingEventsNeedingAck := 1), up := [])
  const HEARS_RESTART := STILL_STORED.(
    down := [], handling := Handles(CompositionStart), puppet := Puppet(false, true),
    heard := [CompositionStart, CompositionChange, CompositionCommit, CompositionStart])
  const ASKS_TOO_EARLY := HEARS_RESTART.(up := [CommitRequest], phase := Waiting)
  const ANSWERED_STALE := ASKS_TOO_EARLY.(
    parent := TYPING.(pendingEventsNeedingAck := 2), up := [], phase := Replied(CommittedAfterBlur("abc")))

  lemma ReachesTyped()
    ensures Reaches(STALE, 2, TYPED)
  {
    ReachesInitial(STALE);
    ReachesFew(STALE, 0, INITIAL, STARTING);
    ReachesFew(STALE, 1, STARTING, TYPED);
  }

  lemma ReachesHeardStart()
    ensures Reaches(STALE, 4, HEARD_START)
  {
    ReachesTyped();
    ReachesFew(STALE, 2, TYPED, HEARS_START);
    ReachesFew(STALE, 3, HEARS_START, HEARD_START);
  }

  lemma ReachesHeardChange()
    ensures Reaches(STALE, 6, HEARD_CHANGE)
  {
    ReachesHeardStart();
    ReachesFew(STALE, 4, HEARD_START, HEARS_CHANGE);
    ReachesFew(STALE, 5, HEARS_CHANGE, HEARD_CHANGE);
  }

  lemma ReachesAllAcked()
    ensures Reaches(STALE, 8, ALL_ACKED)
  {
    ReachesHeardChange();
    ReachesFew(STALE, 6, HEARD_CHANGE, ONE_TO_ACK);
    ReachesFew(STALE, 7, ONE_TO_ACK, ALL_ACKED);
  }

  lemma ReachesCommitting()
    ensures Reaches(STALE, 10, COMMITTING)
  {
    ReachesAllAcked();
    ReachesFew(STALE, 8, ALL_ACKED, IDLE);
    ReachesFew(STALE, 9, IDLE, COMMITTING);
  }

  lemma ReachesHearsCommit()
    ensures Reaches(STALE, 12, HEARS_COMMIT)
  {
    ReachesCommitting();
    ReachesFew(STALE, 10, COMMITTING, STARTING_ANEW);
    ReachesFew(STALE, 11, STARTING_ANEW, HEARS_COMMIT);
  }

  lemma ReachesStillStored()
    ensures Reaches(STALE, 14, STILL_STORED)
  {
    ReachesHearsCommit();
    ReachesFew(STALE, 12, HEARS_COMMIT, HEARD_COMMIT_ABC);
    ReachesFew(STALE, 13, HEARD_COMMIT_ABC, STILL_STORED);
  }

  lemma ReachesAsksTooEarly()
    ensures Reaches(STALE, 16, ASKS_TOO_EARLY)
  {
    ReachesStillStored();
    ReachesFew(STALE, 14, STILL_STORED, HEARS_RESTART);
    ReachesFew(STALE, 15, HEARS_RESTART, ASKS_TOO_EARLY);
  }

  lemma TakesStale()
    ensures Takes(ASKS_TOO_EARLY, STALE[16], ANSWERED_STALE)
    ensures Grants(ASKS_TOO_EARLY, STALE[16])
    ensures Request(ASKS_TOO_EARLY.parent, STALE[16].surroundings).1 == CommittedAfterBlur("abc")
  {
    assert CountCommits([]) == 0 && CountUp([], IS_ACKNOWLEDGEMENT) == 0 && CountUp([], IS_COMMIT_ACK) == 0;
  }

  lemma {:induction false} RunsUntilAsked(states: seq<System>, steps: seq<Step>, i: nat)
    requires IsRun(states, steps) && i <= |steps| && forall m :: 0 <= m < i ==> !steps[m].ChildRequests?
    ensures states[i].phase.Running?
    decreases i
  {
    if i == 0 {
    } else {
      RunsUntilAsked(states, steps, i - 1);
      SoundAlways(states, steps, i - 1);
      assert TakesAt(states, steps, i - 1);
    }
  }

  /** No request arrives unless one was made. */
  lemma NoneArrives(states: seq<System>, steps: seq<Step>, i: nat)
    requires IsRun(states, steps) && i <= |steps| && forall m :: 0 <= m < i ==> !steps[m].ChildRequests?
    ensures states[i].up != [] ==> !states[i].up[0].CommitRequest?
  {
    RunsUntilAsked(states, steps, i);
    SoundAlways(states, steps, i);
  }

  /** A schedule is timely as long as no notice can have been heard. */
  lemma LateRequestIsTimely(states: seq<System>, steps: seq<Step>)
    requires IsRun(states, steps) && forall m :: 0 <= m < |steps| - 2 ==> !steps[m].ChildRequests?
    ensures Timely(states, steps)
  {
    forall j: nat, i: nat ensures !NoticeOf(states, steps, j, i) {
      if j < i < |steps| { NoneArrives(states, steps, j); }
    }
  }

  lemma {:induction false} NothingTypedSince(states: seq<System>, steps: seq<Step>, k: nat, i: nat)
    requires k < i <= |steps| <= |states|
    requires steps[k].Dispatch? && steps[k].event.message.CompositionStart?
    requires forall m :: k < m < i ==> !steps[m].Dispatch? && !RequestReachesIME(states[m], steps[m])
    ensures Typed(states, steps, i).text == "" && !Typed(states, steps, i).changed
    decreases i
  {
    if i == k + 1 {
    } else {
      NothingTypedSince(states, steps, k, i - 1);
    }
  }

  lemma StaleSteps()
    ensures |STALE| == 17 && STALE[10] == Dispatch(START, false) && STALE[16] == ParentReceives(true, BLURRED)
    ensures forall m :: 0 <= m < 15 ==> !STALE[m].ChildRequests?
    ensures forall m :: 10 < m < 17 ==> !STALE[m].Dispatch?
    ensures STALE[14] == ChildReceives && STALE[15] == ChildRequests
  {
  }

  /** A timely run whose request is answered with "abc", which was committed already,
      although nothing was typed into the composition that it commits. */
  lemma OldTextIsCommittedAgain()
    ensures exists states: seq<System> ::
      && IsRun(states, STALE) && Timely(states, STALE)
      && Grants(states[16], STALE[16])
      && Request(states[16].parent, STALE[16].surroundings).1 == CommittedAfterBlur("abc")
      && Typed(states, STALE, 17).text == ""
  {
    StaleSteps();
    ReachesAsksTooEarly();
    TakesStale();
    var before :| EndsIn(before, STALE[..16], ASKS_TOO_EARLY);
    RunGoesOn(before, STALE[..16], STALE[16], ANSWERED_STALE);
    assert STALE[..16] + [STALE[16]] == STALE;
    var states := before + [ANSWERED_STALE];
    LateRequestIsTimely(states, STALE);
    forall m | 10 < m < 17 ensures !RequestReachesIME(states[m], STALE[m]) {
      if m < 15 { NoneArrives(states, STALE, m); }
    }
    NothingTypedSince(states, STALE, 10, 17);
  }
}

/** The parent's half of the protocol as the object that keeps it. */
module ContentCache {
  import opened BasicTypes
  import opened CompositionEvents
  import opened CompositionCounters
  import opened PendingNotifications

  class ContentCacheInParent {
    var pendingEventsNeedingAck: uint32
    var pendingCompositionCount: uint8
    var pendingCommitCount: uint8
    var widgetHasComposition: bool
    var isChildIgnoringCompositionEvents: bool
    var compositionStart: uint32
    var compositionStartInChild: uint32
    var compositionString: string
    var pendingCommitLength: nat
    var selectionStart: uint32
    var commitStringByRequest: Option<string>

    var pendingTextChange: Option<seq<nat>>
    var pendingSelectionChange: Option<nat>
    var pendingLayoutChange: bool
    var pendingCompositionUpdate: bool

    // The widget and the IME behind it, and what has passed between them.
    var widgetAlive: bool
    var ime: seq<seq<Action>>
    ghost var offered: seq<Notification>
    ghost var delivered: seq<Delivery>

    function Counters(): Counters
      reads this
    {
      CompositionCounters.Counters.Counters(
        pendingEventsNeedingAck, pendingCompositionCount, pendingCommitCount, widgetHasComposition,
        isChildIgnoringCompositionEvents, compositionStart, compositionStartInChild, compositionString,
        pendingCommitLength, selectionStart)
    }

    function Slots(): Slots
      reads this
    {
      PendingNotifications.Slots.Slots(
        pendingTextChange, pendingSelectionChange, pendingLayoutChange, pendingCompositionUpdate)
    }

    ghost function State(): State
      reads this
    {
      PendingNotifications.State.State(
        Counters(), Slots(), widgetAlive, ime, offered, delivered)
    }

    constructor (reactions: seq<seq<Action>>)
      ensures State() == PendingNotifications.State.State(
        CompositionCounters.Counters.Counters(
          0, 0, 0, false, false, UINT32_MAX, UINT32_MAX, "", 0, UINT32_MAX),
        NO_SLOTS, true, reactions, [], [])
      ensures commitStringByRequest.None?
    {
      pendingEventsNeedingAck, pendingCompositionCount, pendingCommitCount := 0, 0, 0;
      widgetHasComposition, isChildIgnoringCompositionEvents := false, false;
      compositionStart, compositionStartInChild, compositionString := UINT32_MAX, UINT32_MAX, "";
      pendingCommitLength, selectionStart, commitStringByRequest := 0, UINT32_MAX, None;
      pendingTextChange, pendingSelectionChange := None, None;
      pendingLayoutChange, pendingCompositionUpdate := false, false;
      widgetAlive, ime, offered, delivered := true, reactions, [], [];
    }

    /** The selection is simulated from the start of a composition on, because its
        updates may arrive late. */
    method BeginComposition(pluginHasFocus: bool)
      requires pendingCompositionCount < UINT8_MAX
      modifies this`compositionStart, this`pendingCompositionCount
      ensures Counters() == old(Counters()).Begin(pluginHasFocus)
    {
      if pluginHasFocus {
        compositionStart := 0;
      } else if compositionStartInChild != UINT32_MAX {
        compositionStart := compositionStartInChild;
      } else {
        compositionStart := selectionStart;
      }
      pendingCompositionCount := pendingCompositionCount + 1;
    }

    method RecordComposition(e: Event)
      modifies this`widgetHasComposition, this`pendingCommitLength, this`pendingCommitCount, this`compositionString
      ensures Counters() == old(Counters()).Record(e)
    {
      widgetHasComposition := !CausesDOMCompositionEndEvent(e.message);
      if !widgetHasComposition {
        if pendingCompositionCount == 1 {
          pendingCommitLength := |e.data|;
        }
        pendingCommitCount := Increment8(pendingCommitCount);
      } else if !e.message.CompositionStart? {
        compositionString := e.data;
      }
    }

    /** The notice of the content process has to be awaited instead of the commit. */
    method KeepBack(e: Event)
      modifies this`commitStringByRequest, this`pendingEventsNeedingAck, this`pendingCommitCount
      ensures commitStringByRequest == Some(old(Counters()).InterceptedText(e))
      ensures Counters() == old(Counters()).AwaitNotice()
    {
      if e.message.CompositionCommitAsIs? {
        commitStringByRequest := Some(compositionString);
      } else {
        commitStringByRequest := Some(e.data);
      }
      if !widgetHasComposition {
        pendingEventsNeedingAck := Increment32(pendingEventsNeedingAck);
        if pendingCommitCount > 0 {
          pendingCommitCount := pendingCommitCount - 1;
        }
      }
    }

    /** Called before a composition event is sent; returns whether to send it. The
        event is kept back while the native IME is asked to commit. */
    method OnCompositionEvent(e: Event, pluginHasFocus: bool) returns (send: bool)
      requires !widgetHasComposition ==> pendingCompositionCount < UINT8_MAX
      modifies this`compositionStart, this`pendingCompositionCount, this`widgetHasComposition
      modifies this`pendingCommitLength, this`pendingCommitCount, this`compositionString
      modifies this`commitStringByRequest, this`pendingEventsNeedingAck
      ensures send == old(commitStringByRequest.None?)
      ensures Counters() ==
        if send then old(Counters()).Send(e, pluginHasFocus) else old(Counters()).Intercept(e, pluginHasFocus)
      ensures commitStringByRequest == if send then None else Some(Counters().InterceptedText(e))
    {
      if !widgetHasComposition {
        BeginComposition(pluginHasFocus);
      }
      RecordComposition(e);
      if commitStringByRequest.Some? {
        KeepBack(e);
        return false;
      }
      pendingEventsNeedingAck := Increment32(pendingEventsNeedingAck);
      return true;
    }

    method OnSelectionEvent()
      modifies this`pendingEventsNeedingAck
      ensures Counters() == old(Counters()).SendSelection()
    {
      pendingEventsNeedingAck := Increment32(pendingEventsNeedingAck);
    }

    /** The composition part of AssignContent. */
    method AssignContent(childStart: uint32, selection: uint32)
      modifies this`selectionStart, this`compositionStartInChild, this`compositionStart, this`pendingCommitLength
      ensures Counters() == old(Counters()).Assign(childStart, selection)
    {
      selectionStart := selection;
      compositionStartInChild := childStart;
      if widgetHasComposition || pendingCommitCount != 0 {
        if childStart != UINT32_MAX {
          if compositionStart != childStart {
            compositionStart := childStart;
            pendingCommitLength := 0;
          }
        } else if compositionStart != selectionStart {
          compositionStart := selectionStart;
          pendingCommitLength := 0;
        }
      }
    }

    method CountCompositionHandled()
      modifies this`pendingCompositionCount, this`compositionString, this`pendingCommitLength
      ensures Counters() == old(Counters()).CountCompositionHandled()
    {
      if pendingCompositionCount == 0 {
        pendingCompositionCount := 1;
      }
      pendingCompositionCount := pendingCompositionCount - 1;
      if pendingCompositionCount == 0 {
        compositionString := "";
      }
      pendingCommitLength := 0;
    }

    method CountCommitHandled(a: Acknowledgement)
      modifies this`isChildIgnoringCompositionEvents, this`pendingCommitCount
      ensures Counters() == old(Counters()).CountCommitHandled(a)
    {
      if a.Received? && IsFollowedByCompositionEnd(a.message) {
        isChildIgnoringCompositionEvents := false;
        if pendingCommitCount == 0 {
          pendingCommitCount := 1;
        }
        pendingCommitCount := pendingCommitCount - 1;
      } else if a.CommitRequestHandled? && pendingCommitCount != 0 {
        isChildIgnoringCompositionEvents := true;
      }
    }

    method CountEventHandled()
      modifies this`compositionStart, this`pendingEventsNeedingAck
      ensures Counters() == old(Counters()).CountEventHandled()
    {
      if !widgetHasComposition && pendingCompositionCount == 0 && pendingCommitCount == 0 {
        compositionStart := UINT32_MAX;
      }
      if pendingEventsNeedingAck == 0 {
        pendingEventsNeedingAck := 1;
      }
      pendingEventsNeedingAck := pendingEventsNeedingAck - 1;
    }

    method CountAcknowledgement(a: Acknowledgement)
      modifies this`pendingCompositionCount, this`compositionString, this`pendingCommitLength
      modifies this`isChildIgnoringCompositionEvents, this`pendingCommitCount
      modifies this`compositionStart, this`pendingEventsNeedingAck
      ensures Counters() == old(Counters()).Acknowledge(a)
    {
      var isCommittedInChild := a.CommitRequestHandled? ||
        (!isChildIgnoringCompositionEvents && IsFollowedByCompositionEnd(a.message));
      if isCommittedInChild {
        CountCompositionHandled();
      }
      CountCommitHandled(a);
      CountEventHandled();
    }

    method OnEventNeedingAckHandled(a: Acknowledgement)
      requires commitStringByRequest.None?
      modifies this
      ensures State() == Acknowledge(old(State()), a)
      ensures commitStringByRequest.None?
    {
      CountAcknowledgement(a);
      assert State() == old(State()).(counters := old(Counters()).Acknowledge(a));
      if pendingEventsNeedingAck != 0 {
        return;
      }
      FlushPendingNotifications();
    }

    /** The native IME answers by dispatching the events of the script, which are
        intercepted. */
    method RequestToCommit(script: seq<Event>, pluginHasFocus: bool)
      requires commitStringByRequest == Some("") && IsFinalization(Counters(), script)
      modifies this`compositionStart, this`pendingCompositionCount, this`widgetHasComposition
      modifies this`pendingCommitLength, this`pendingCommitCount, this`compositionString
      modifies this`commitStringByRequest, this`pendingEventsNeedingAck
      ensures commitStringByRequest.Some?
      ensures (Counters(), commitStringByRequest.value) == InterceptAll(old(Counters()), script, pluginHasFocus)
    {
      var i := 0;
      while i < |script|
        invariant 0 <= i <= |script|
        invariant IsFinalization(old(Counters()), script[..i])
        invariant commitStringByRequest.Some?
        invariant (Counters(), commitStringByRequest.value)
                  == InterceptAll(old(Counters()), script[..i], pluginHasFocus)
      {
        assert script[..i + 1][..i] == script[..i];
        assert IsFinalization(old(Counters()), script[..i + 1]);
        var _ := OnCompositionEvent(script[i], pluginHasFocus);
        i := i + 1;
      }
      assert script[..i] == script;
    }

    /** The native IME has committed when the last of its events commits. */
    method RequestIMEToCommitComposition(around: Surroundings) returns (committed: bool, text: string)
      requires commitStringByRequest.None? && IsFinalization(Counters(), around.script)
      modifies this`compositionStart, this`pendingCompositionCount, this`widgetHasComposition
      modifies this`pendingCommitLength, this`pendingCommitCount, this`compositionString
      modifies this`commitStringByRequest, this`pendingEventsNeedingAck
      ensures var (counters, reply) := Request(old(Counters()), around);
        && Counters() == counters
        && committed == reply.IsCommitted()
        && (committed ==> text == reply.Text())
      ensures commitStringByRequest.None?
    {
      text := "";
      if pendingCompositionCount > 1 {
        return false, text;
      }
      if pendingCommitCount != 0 {
        return false, text;
      }
      if !around.hasIMEFocus {
        text := compositionString;
        pendingEventsNeedingAck := Increment32(pendingEventsNeedingAck);
        return true, text;
      }
      if !around.hasComposition {
        return false, text;
      }
      commitStringByRequest := Some("");
      RequestToCommit(around.script, around.pluginHasFocus);
      text := commitStringByRequest.value;
      commitStringByRequest := None;
      return EndsInCommit(around.script), text;
    }

    // ----- Notifications -----

    /** The IME is notified and reacts; then it has one reaction fewer. */
    method NotifyIME(n: Notification, flushed: bool)
      requires commitStringByRequest.None?
      modifies this
      ensures State() == PendingNotifications.NotifyIME(old(State()), n, flushed)
      ensures commitStringByRequest.None?
      decreases |ime|, 0, 0
    {
      delivered := delivered + [Delivery(n, flushed, pendingEventsNeedingAck, |offered|)];
      if ime != [] {
        var reaction := ime[0];
        ime := ime[1..];
        PerformAll(reaction);
      }
    }

    method PerformAll(actions: seq<Action>)
      requires commitStringByRequest.None?
      modifies this
      ensures State() == PendingNotifications.PerformAll(old(State()), actions)
      ensures commitStringByRequest.None?
      decreases |ime|, 3, |actions|
    {
      if actions != [] {
        Perform(actions[0]);
        PerformAll(actions[1..]);
      }
    }

    method SendEvent(e: Event)
      requires commitStringByRequest.None?
      modifies this
      ensures State() == PendingNotifications.SendEvent(old(State()), e)
      ensures commitStringByRequest.None?
    {
      if pendingEventsNeedingAck == UINT32_MAX {
      } else if e.message.SetSelection? {
        OnSelectionEvent();
      } else if Counters().CanDispatch(e.message) {
        var _ := OnCompositionEvent(e, false);
      }
    }

    method Perform(a: Action)
      requires commitStringByRequest.None?
      modifies this
      ensures State() == PendingNotifications.Perform(old(State()), a)
      ensures commitStringByRequest.None?
      decreases |ime|, 2, 0
    {
      match a
      case Notify(n) => MaybeNotifyIME(n);
      case Send(e) => SendEvent(e);
      case DestroyWidget => widgetAlive := false;
    }

    method MergeWith(n: Notification)
      modifies this`pendingTextChange, this`pendingSelectionChange, this`pendingLayoutChange
      modifies this`pendingCompositionUpdate
      ensures Slots() == old(Slots()).MergeWith(n)
    {
      match n
      case TextChange(edits) =>
        pendingTextChange := Some(if pendingTextChange.Some? then pendingTextChange.value + edits else edits);
      case SelectionChange(s) => pendingSelectionChange := Some(s);
      case PositionChange => pendingLayoutChange := true;
      case CompositionEventHandled => pendingCompositionUpdate := true;
    }

    method MaybeNotifyIME(n: Notification)
      requires commitStringByRequest.None?
      modifies this
      ensures State() == PendingNotifications.MaybeNotifyIME(old(State()), n)
      ensures commitStringByRequest.None?
      decreases |ime|, 1, 0
    {
      offered := offered + [n];
      assert State() == old(State()).(offered := old(offered) + [n]);
      if pendingEventsNeedingAck == 0 {
        NotifyIME(n, false);
        return;
      }
      MergeWith(n);
      assert Counters() == old(Counters());
    }

    method FlushTextChange()
      requires commitStringByRequest.None?
      modifies this
      ensures State() == Turn(old(State()), 0) && commitStringByRequest.None?
      decreases |ime|, 1
    {
      if pendingTextChange.Some? && widgetAlive {
        var edits := pendingTextChange.value;
        pendingTextChange := None;
        NotifyIME(TextChange(edits), true);
      }
    }

    method FlushSelectionChange()
      requires commitStringByRequest.None?
      modifies this
      ensures State() == Turn(old(State()), 1) && commitStringByRequest.None?
      decreases |ime|, 1
    {
      if pendingSelectionChange.Some? && widgetAlive {
        var selection := pendingSelectionChange.value;
        pendingSelectionChange := None;
        NotifyIME(SelectionChange(selection), true);
      }
    }

    method FlushLayoutChange()
      requires commitStringByRequest.None?
      modifies this
      ensures State() == Turn(old(State()), 2) && commitStringByRequest.None?
      decreases |ime|, 1
    {
      if pendingLayoutChange && widgetAlive {
        pendingLayoutChange := false;
        NotifyIME(PositionChange, true);
      }
    }

    method FlushCompositionUpdate()
      requires commitStringByRequest.None?
      modifies this
      ensures State() == Turn(old(State()), 3) && commitStringByRequest.None?
      decreases |ime|, 1
    {
      if pendingCompositionUpdate && widgetAlive {
        pendingCompositionUpdate := false;
        NotifyIME(CompositionEventHandled, true);
      }
    }

    method FlushSlots()
      requires pendingEventsNeedingAck > 0 && commitStringByRequest.None?
      modifies this
      ensures State() == Turn(Turn(Turn(Turn(old(State()), 0), 1), 2), 3)
      ensures pendingEventsNeedingAck > 0 && commitStringByRequest.None?
      decreases |ime|, 2
    {
      TakesItsTurn(State(), 0);
      FlushTextChange();
      TakesItsTurn(State(), 1);
      FlushSelectionChange();
      TakesItsTurn(State(), 2);
      FlushLayoutChange();
      TakesItsTurn(State(), 3);
      FlushCompositionUpdate();
    }

    /** New notifications during the flush are merged again, as the flush itself
        counts as a pending event; they are flushed by another round. */
    method FlushPendingNotifications()
      requires pendingEventsNeedingAck == 0 && commitStringByRequest.None?
      modifies this
      ensures State() == Flush(old(State())) && commitStringByRequest.None?
      decreases |ime|, 3
    {
      if !widgetAlive {
        return;
      }
      FlushOnceDelivers(State());
      pendingEventsNeedingAck := pendingEventsNeedingAck + 1;
      assert State() == old(State()).WithPending(1);
      FlushSlots();
      pendingEventsNeedingAck := pendingEventsNeedingAck - 1;
      assert State() == FlushOnce(old(State()));
      if pendingEventsNeedingAck == 0 && widgetAlive && Slots().HasNotification() {
        FlushPendingNotifications();
      }
    }
  }
}

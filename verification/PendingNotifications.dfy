/** Notifications to the IME that wait until the content process has handled every
    event sent to it, as functions of the old state. The IME may react to each
    notification by calling back. */
module PendingNotifications {
  import opened BasicTypes
  import opened CompositionEvents
  import opened CompositionCounters
  import opened TextChanges

  /** A text change is kept as the list of edits that it merges. */
  datatype Notification =
    | TextChange(edits: seq<nat>)
    | SelectionChange(selection: nat)
    | PositionChange
    | CompositionEventHandled

  datatype Slots = Slots(text: Option<seq<nat>>, selection: Option<nat>, layout: bool, update: bool)
  {
    predicate HasNotification() {
      text.Some? || selection.Some? || layout || update
    }

    /** Edits accumulate, a selection replaces the previous one, and the other two
        notifications carry nothing. */
    function MergeWith(n: Notification): Slots {
      match n
      case TextChange(edits) => this.(text := Some(if text.Some? then text.value + edits else edits))
      case SelectionChange(s) => this.(selection := Some(s))
      case PositionChange => this.(layout := true)
      case CompositionEventHandled => this.(update := true)
    }
  }

  const NO_SLOTS := Slots(None, None, false, false)

  /** What the IME does while it handles a notification. */
  datatype Action = Notify(notification: Notification) | Send(event: Event) | DestroyWidget

  /** `offered` is how many notifications had come by then. */
  datatype Delivery = Delivery(notification: Notification, flushed: bool, pendingEvents: uint32, offered: nat)

  /** `ime` lists the reactions to the notifications still to come; `offered` and
      `delivered` record what went in and what reached the IME. */
  datatype State = State(
    counters: Counters,
    slots: Slots,
    widgetAlive: bool,
    ime: seq<seq<Action>>,
    offered: seq<Notification>,
    delivered: seq<Delivery>)
  {
    function Pending(): uint32 { counters.pendingEventsNeedingAck }

    function WithPending(n: uint32): State {
      this.(counters := counters.(pendingEventsNeedingAck := n))
    }
  }

  /** The text event dispatcher refuses events that do not continue the widget's
      composition, and the counters leave room for every event in flight. */
  function SendEvent(st: State, e: Event): State {
    if st.Pending() == UINT32_MAX then st
    else if e.message.SetSelection? then st.(counters := st.counters.SendSelection())
    else if st.counters.CanDispatch(e.message) then st.(counters := st.counters.Send(e, false))
    else st
  }

  function NotifyIME(st: State, n: Notification, flushed: bool): (r: State)
    ensures |r.ime| <= |st.ime|
    decreases |st.ime|, 0, 0
  {
    var told := st.(delivered := st.delivered + [Delivery(n, flushed, st.Pending(), |st.offered|)]);
    if st.ime == [] then told else PerformAll(told.(ime := st.ime[1..]), st.ime[0])
  }

  function MaybeNotifyIME(st: State, n: Notification): (r: State)
    ensures |r.ime| <= |st.ime|
    decreases |st.ime|, 1, 0
  {
    var noted := st.(offered := st.offered + [n]);
    if st.Pending() == 0 then NotifyIME(noted, n, false)
    else noted.(slots := st.slots.MergeWith(n))
  }

  function Perform(st: State, a: Action): (r: State)
    ensures |r.ime| <= |st.ime|
    decreases |st.ime|, 2, 0
  {
    match a
    case Notify(n) => MaybeNotifyIME(st, n)
    case Send(e) => SendEvent(st, e)
    case DestroyWidget => st.(widgetAlive := false)
  }

  function PerformAll(st: State, actions: seq<Action>): (r: State)
    ensures |r.ime| <= |st.ime|
    decreases |st.ime|, 3, |actions|
  {
    if actions == [] then st else PerformAll(Perform(st, actions[0]), actions[1..])
  }

  function Rank(n: Notification): nat {
    match n
    case TextChange(_) => 0
    case SelectionChange(_) => 1
    case PositionChange => 2
    case CompositionEventHandled => 3
  }

  function Without(s: Slots, rank: nat): Slots {
    if rank == 0 then s.(text := None)
    else if rank == 1 then s.(selection := None)
    else if rank == 2 then s.(layout := false)
    else s.(update := false)
  }

  /** One slot's turn in a flush. The slot is emptied before the IME is notified. */
  function FlushText(st: State): State {
    if st.slots.text.Some? && st.widgetAlive
    then NotifyIME(st.(slots := Without(st.slots, 0)), TextChange(st.slots.text.value), true) else st
  }

  function FlushSelection(st: State): State {
    if st.slots.selection.Some? && st.widgetAlive
    then NotifyIME(st.(slots := Without(st.slots, 1)), SelectionChange(st.slots.selection.value), true) else st
  }

  function FlushLayout(st: State): State {
    if st.slots.layout && st.widgetAlive
    then NotifyIME(st.(slots := Without(st.slots, 2)), PositionChange, true) else st
  }

  function FlushUpdate(st: State): State {
    if st.slots.update && st.widgetAlive
    then NotifyIME(st.(slots := Without(st.slots, 3)), CompositionEventHandled, true) else st
  }

  function Turn(st: State, rank: nat): State {
    if rank == 0 then FlushText(st)
    else if rank == 1 then FlushSelection(st)
    else if rank == 2 then FlushLayout(st)
    else FlushUpdate(st)
  }

  function FlushOnce(st: State): State {
    var last := FlushUpdate(FlushLayout(FlushSelection(FlushText(st.WithPending(1)))));
    last.WithPending(if last.Pending() == 0 then 0 else last.Pending() - 1)
  }

  // ----- What the IME can do while events are pending -----

  /** Nothing reaches the IME, and what was pending stays pending. */
  ghost predicate OnlyStores(st: State, r: State) {
    && r.ime == st.ime && r.delivered == st.delivered
    && r.Pending() >= st.Pending()
    && (r.widgetAlive ==> st.widgetAlive)
  }

  lemma PerformStores(st: State, a: Action)
    requires st.Pending() > 0
    ensures OnlyStores(st, Perform(st, a))
  {
    match a
    case Notify(n) => assert Perform(st, a) == MaybeNotifyIME(st, n);
    case Send(e) => assert Perform(st, a) == SendEvent(st, e);
    case DestroyWidget =>
  }

  lemma {:induction false} PerformAllStores(st: State, actions: seq<Action>)
    requires st.Pending() > 0
    ensures OnlyStores(st, PerformAll(st, actions))
    decreases |actions|
  {
    if actions == [] {
    } else {
      PerformStores(st, actions[0]);
      PerformAllStores(Perform(st, actions[0]), actions[1..]);
    }
  }

  /** What one slot's turn in a flush does: at most one delivery, of its own kind,
      and only a reaction of the IME can fill a slot again. */
  ghost predicate TakesTurn(st: State, r: State, rank: nat) {
    && (r.delivered == st.delivered ||
        (&& |r.delivered| == |st.delivered| + 1 && r.delivered[..|st.delivered|] == st.delivered
         && var d := r.delivered[|st.delivered|];
            Rank(d.notification) == rank && d.flushed && d.pendingEvents > 0))
    && r.Pending() >= st.Pending()
    && (r.widgetAlive ==> st.widgetAlive)
    && |r.ime| <= |st.ime|
    && (st.widgetAlive ==> r.slots == Without(st.slots, rank) || |r.ime| < |st.ime|)
    && (!st.widgetAlive ==> r == st)
  }

  lemma DeliveryTakesTurn(st: State, n: Notification)
    requires st.Pending() > 0 && st.widgetAlive
    ensures TakesTurn(st, NotifyIME(st.(slots := Without(st.slots, Rank(n))), n, true), Rank(n))
  {
    var emptied := st.(slots := Without(st.slots, Rank(n)));
    if st.ime != [] {
      PerformAllStores(
        emptied.(delivered := st.delivered + [Delivery(n, true, st.Pending(), |st.offered|)], ime := st.ime[1..]),
        st.ime[0]);
    }
  }

  lemma TakesItsTurn(st: State, rank: nat)
    requires st.Pending() > 0 && rank < 4
    ensures TakesTurn(st, Turn(st, rank), rank)
  {
    if st.widgetAlive {
      if rank == 0 && st.slots.text.Some? { DeliveryTakesTurn(st, TextChange(st.slots.text.value)); }
      if rank == 1 && st.slots.selection.Some? { DeliveryTakesTurn(st, SelectionChange(st.slots.selection.value)); }
      if rank == 2 && st.slots.layout { DeliveryTakesTurn(st, PositionChange); }
      if rank == 3 && st.slots.update { DeliveryTakesTurn(st, CompositionEventHandled); }
    }
  }

  /** Text, selection, layout, composition update: each at most once. */
  ghost predicate InRankOrder(ds: seq<Delivery>) {
    forall i, j :: 0 <= i < j < |ds| ==> Rank(ds[i].notification) < Rank(ds[j].notification)
  }

  ghost predicate FlushedInOrder(earlier: State, later: State, rank: nat) {
    && |earlier.delivered| <= |later.delivered|
    && later.delivered[..|earlier.delivered|] == earlier.delivered
    && var ds := later.delivered[|earlier.delivered|..];
       InRankOrder(ds) && forall d :: d in ds ==> d.flushed && d.pendingEvents > 0 && Rank(d.notification) < rank
  }

  lemma TurnInOrder(earlier: State, st: State, r: State, rank: nat)
    requires FlushedInOrder(earlier, st, rank) && TakesTurn(st, r, rank)
    ensures FlushedInOrder(earlier, r, rank + 1)
  {
    var n := |earlier.delivered|;
    assert r.delivered[..n] == st.delivered[..n];
    if r.delivered != st.delivered {
      assert r.delivered[n..] == st.delivered[n..] + [r.delivered[|st.delivered|]];
    }
  }

  /** The slots of a rank below the given one are empty. */
  predicate EmptyBelow(s: Slots, rank: nat) {
    && (rank > 0 ==> s.text.None?)
    && (rank > 1 ==> s.selection.None?)
    && (rank > 2 ==> !s.layout)
    && (rank > 3 ==> !s.update)
  }

  /** A flush after the turns below the given rank. */
  ghost predicate FlushedBelow(earlier: State, st: State, rank: nat) {
    && FlushedInOrder(earlier, st, rank)
    && st.Pending() > 0
    && |st.ime| <= |earlier.ime|
    && (st.widgetAlive && |st.ime| == |earlier.ime| ==> EmptyBelow(st.slots, rank))
  }

  lemma FlushGoesOn(earlier: State, st: State, rank: nat)
    requires FlushedBelow(earlier, st, rank) && rank < 4
    ensures FlushedBelow(earlier, Turn(st, rank), rank + 1)
  {
    TakesItsTurn(st, rank);
    TurnInOrder(earlier, st, Turn(st, rank), rank);
  }

  /** A flush delivers in order and, unless the IME reacted, leaves nothing. */
  lemma FlushOnceDelivers(st: State)
    requires st.Pending() == 0 && st.widgetAlive
    ensures var r := FlushOnce(st);
      && FlushedInOrder(st, r, 4)
      && |r.ime| <= |st.ime|
      && (r.widgetAlive && r.slots.HasNotification() ==> |r.ime| < |st.ime|)
  {
    var s0 := st.WithPending(1);
    FlushGoesOn(st, s0, 0);
    FlushGoesOn(st, Turn(s0, 0), 1);
    FlushGoesOn(st, Turn(Turn(s0, 0), 1), 2);
    FlushGoesOn(st, Turn(Turn(Turn(s0, 0), 1), 2), 3);
  }

  /** FlushPendingNotifications: it runs again when the IME's reactions left
      something pending, and each time the IME has fewer reactions left. */
  function Flush(st: State): (r: State)
    requires st.Pending() == 0
    decreases |st.ime|
  {
    if !st.widgetAlive then st
    else
      var once := FlushOnce(st);
      FlushOnceDelivers(st);
      if once.Pending() == 0 && once.widgetAlive && once.slots.HasNotification() then Flush(once) else once
  }

  /** OnEventNeedingAckHandled. */
  function Acknowledge(st: State, a: Acknowledgement): State {
    var counted := st.(counters := st.counters.Acknowledge(a));
    if counted.Pending() == 0 then Flush(counted) else counted
  }

  // ----- What holds at every call boundary -----

  function Edits(n: Notification): seq<nat> {
    if n.TextChange? then n.edits else []
  }

  function EditsOffered(ns: seq<Notification>): seq<nat> {
    if ns == [] then [] else EditsOffered(ns[..|ns| - 1]) + Edits(ns[|ns| - 1])
  }

  function EditsDelivered(ds: seq<Delivery>): seq<nat> {
    if ds == [] then [] else EditsDelivered(ds[..|ds| - 1]) + Edits(ds[|ds| - 1].notification)
  }

  function EditsPending(s: Slots): seq<nat> {
    if s.text.Some? then s.text.value else []
  }

  /** No edit is lost, repeated or reordered on its way to the IME. */
  ghost predicate EditsConserved(st: State) {
    EditsDelivered(st.delivered) + EditsPending(st.slots) == EditsOffered(st.offered)
  }

  /** Outside a flush the IME is notified only when no event is pending. */
  ghost predicate NotifiedWhenIdle(st: State) {
    forall d :: d in st.delivered ==> (d.flushed || d.pendingEvents == 0)
  }

  /** With a live widget nothing is held back while no event is pending. */
  ghost predicate NothingHeldBack(st: State) {
    st.Pending() == 0 ==> !st.slots.HasNotification()
  }

  /** One more than the index of the last notification of that rank, or 0. */
  function LastOffered(ns: seq<Notification>, rank: nat): (n: nat)
    ensures n <= |ns|
  {
    if ns == [] then 0
    else if Rank(ns[|ns| - 1]) == rank then |ns| else LastOffered(ns[..|ns| - 1], rank)
  }

  /** How many notifications had come when the IME was told one of that rank last. */
  function LastTold(ds: seq<Delivery>, rank: nat): nat {
    if ds == [] then 0
    else if Rank(ds[|ds| - 1].notification) == rank then ds[|ds| - 1].offered
    else LastTold(ds[..|ds| - 1], rank)
  }

  function SelectionOffered(ns: seq<Notification>): Option<nat> {
    if ns == [] then None
    else if ns[|ns| - 1].SelectionChange? then Some(ns[|ns| - 1].selection)
    else SelectionOffered(ns[..|ns| - 1])
  }

  function SelectionTold(ds: seq<Delivery>): Option<nat> {
    if ds == [] then None
    else if ds[|ds| - 1].notification.SelectionChange? then Some(ds[|ds| - 1].notification.selection)
    else SelectionTold(ds[..|ds| - 1])
  }

  predicate IsFilled(s: Slots, rank: nat) {
    if rank == 0 then s.text.Some?
    else if rank == 1 then s.selection.Some?
    else if rank == 2 then s.layout
    else s.update
  }

  /** A slot is filled exactly while something of its rank has come since the IME was
      told last. */
  ghost predicate SlotsWait(st: State) {
    forall rank: nat :: rank < 4 ==>
      && (IsFilled(st.slots, rank) <==> LastOffered(st.offered, rank) > LastTold(st.delivered, rank))
      && LastTold(st.delivered, rank) <= |st.offered|
  }

  /** The selection that waits, or else the one that the IME was told last, is the last
      that has come. */
  ghost predicate SelectionKept(st: State) {
    (if st.slots.selection.Some? then st.slots.selection else SelectionTold(st.delivered))
    == SelectionOffered(st.offered)
  }

  /** What the IME is told, after `before`, is news: something of its rank has come since
      it was told last; and it is the latest: all edits so far, or the last selection. */
  ghost predicate IsNews(offered: seq<Notification>, before: seq<Delivery>, d: Delivery) {
    && d.offered <= |offered|
    && var come, n := offered[..d.offered], d.notification;
      && LastOffered(come, Rank(n)) > LastTold(before, Rank(n))
      && (n.TextChange? ==> EditsDelivered(before) + n.edits == EditsOffered(come))
      && (n.SelectionChange? ==> SelectionOffered(come) == Some(n.selection))
  }

  ghost predicate TellsNews(st: State) {
    forall k :: 0 <= k < |st.delivered| ==> IsNews(st.offered, st.delivered[..k], st.delivered[k])
  }

  ghost predicate Kept(st: State) {
    EditsConserved(st) && SelectionKept(st) && SlotsWait(st) && TellsNews(st)
  }

  predicate Holds(s: Slots, n: Notification) {
    match n
    case TextChange(edits) => s.text == Some(edits)
    case SelectionChange(selection) => s.selection == Some(selection)
    case PositionChange => s.layout
    case CompositionEventHandled => s.update
  }

  lemma NewsWhenOffered(st: State, n: Notification)
    requires TellsNews(st)
    ensures TellsNews(st.(offered := st.offered + [n]))
  {
    forall k | 0 <= k < |st.delivered|
      ensures IsNews(st.offered + [n], st.delivered[..k], st.delivered[k])
    {
      assert IsNews(st.offered, st.delivered[..k], st.delivered[k]);
      assert (st.offered + [n])[..st.delivered[k].offered] == st.offered[..st.delivered[k].offered];
    }
  }

  lemma NewsWhenTold(st: State, d: Delivery)
    requires TellsNews(st) && IsNews(st.offered, st.delivered, d)
    ensures TellsNews(st.(delivered := st.delivered + [d]))
  {
    var ds := st.delivered + [d];
    forall k | 0 <= k < |ds| ensures IsNews(st.offered, ds[..k], ds[k]) {
      if k < |st.delivered| {
        assert IsNews(st.offered, st.delivered[..k], st.delivered[k]) && ds[..k] == st.delivered[..k];
      } else {
        assert ds[..k] == st.delivered;
      }
    }
  }

  ghost predicate Deferring(st: State) {
    NotifiedWhenIdle(st) && (st.widgetAlive ==> Kept(st) && NothingHeldBack(st))
  }

  lemma DeliveredAppend(ds: seq<Delivery>, d: Delivery)
    ensures EditsDelivered(ds + [d]) == EditsDelivered(ds) + Edits(d.notification)
  {
  }

  lemma OfferedAppend(ns: seq<Notification>, n: Notification)
    ensures EditsOffered(ns + [n]) == EditsOffered(ns) + Edits(n)
  {
  }

  lemma DeferringCounters(st: State, c: Counters)
    requires Deferring(st) && (c.pendingEventsNeedingAck == 0 ==> st.Pending() == 0)
    ensures Deferring(st.(counters := c))
  {
    var r := st.(counters := c);
    assert st.widgetAlive ==> (EditsConserved(st) <==> EditsConserved(r));
  }

  predicate MaySend(st: State, e: Event) {
    st.Pending() < UINT32_MAX && (e.message.SetSelection? || st.counters.CanDispatch(e.message))
  }

  /** Sending adds one to what is pending, exactly if the event may be sent, and changes
      nothing but the counters. A composition starts where the content was reported to
      have it, or else at the selection. */
  lemma SendCounts(st: State, e: Event)
    ensures var r := SendEvent(st, e);
      && r == st.(counters := r.counters)
      && (MaySend(st, e) ==> r.Pending() == st.Pending() + 1)
      && (!MaySend(st, e) ==> r == st)
      && (MaySend(st, e) && e.message.CompositionStart? ==>
            r.counters.compositionStart ==
              if st.counters.compositionStartInChild != UINT32_MAX then st.counters.compositionStartInChild
              else st.counters.selectionStart)
  {
  }

  lemma DeferringSend(st: State, e: Event)
    requires Deferring(st)
    ensures Deferring(SendEvent(st, e))
  {
    SendCounts(st, e);
    DeferringCounters(st, SendEvent(st, e).counters);
  }

  /** The notification is merged into its slot. */
  function Stored(st: State, n: Notification): State {
    st.(offered := st.offered + [n], slots := st.slots.MergeWith(n))
  }

  /** The notification is taken from its slot and the IME is told. */
  function Taken(st: State, d: Delivery): State {
    st.(slots := Without(st.slots, Rank(d.notification)), delivered := st.delivered + [d])
  }

  lemma EditsWhenStored(st: State, n: Notification)
    requires EditsConserved(st)
    ensures EditsConserved(Stored(st, n))
  {
    OfferedAppend(st.offered, n);
    MergedEdits(st.slots, n);
    Associates(EditsDelivered(st.delivered), EditsPending(st.slots), Edits(n));
  }

  lemma SlotsWhenStored(st: State, n: Notification)
    requires SlotsWait(st) && SelectionKept(st)
    ensures SlotsWait(Stored(st, n)) && SelectionKept(Stored(st, n))
  {
  }

  lemma StoredIsKept(st: State, n: Notification)
    requires Kept(st)
    ensures Kept(Stored(st, n))
  {
    EditsWhenStored(st, n);
    SlotsWhenStored(st, n);
    NewsWhenOffered(st, n);
  }

  /** What is taken from its slot after everything that has come so far. */
  ghost predicate IsTaken(st: State, d: Delivery) {
    Holds(st.slots, d.notification) && d.offered == |st.offered|
  }

  lemma TakenEdits(s: Slots, n: Notification)
    requires Holds(s, n)
    ensures EditsPending(s) == Edits(n) + EditsPending(Without(s, Rank(n)))
  {
  }

  lemma EditsWhenTaken(st: State, d: Delivery)
    requires EditsConserved(st) && IsTaken(st, d)
    ensures EditsConserved(Taken(st, d))
  {
    var left := Without(st.slots, Rank(d.notification));
    var told, taken, waiting := EditsDelivered(st.delivered), Edits(d.notification), EditsPending(left);
    DeliveredAppend(st.delivered, d);
    TakenEdits(st.slots, d.notification);
    Associates(told, taken, waiting);
    assert EditsDelivered(Taken(st, d).delivered) == told + taken && EditsPending(Taken(st, d).slots) == waiting;
  }

  lemma SlotsWhenTaken(st: State, d: Delivery)
    requires SlotsWait(st) && SelectionKept(st) && IsTaken(st, d)
    ensures SlotsWait(Taken(st, d)) && SelectionKept(Taken(st, d))
  {
  }

  lemma TakenIsNews(st: State, d: Delivery)
    requires EditsConserved(st) && SlotsWait(st) && SelectionKept(st) && IsTaken(st, d)
    ensures IsNews(st.offered, st.delivered, d)
  {
    assert st.offered[..d.offered] == st.offered;
    assert IsFilled(st.slots, Rank(d.notification));
  }

  lemma TakenIsKept(st: State, d: Delivery)
    requires Kept(st) && IsTaken(st, d)
    ensures Kept(Taken(st, d))
  {
    EditsWhenTaken(st, d);
    SlotsWhenTaken(st, d);
    TakenIsNews(st, d);
    NewsWhenTold(st, d);
  }

  /** The notification goes straight to the IME. */
  function Told(st: State, n: Notification): State {
    st.(offered := st.offered + [n],
        delivered := st.delivered + [Delivery(n, false, st.Pending(), |st.offered| + 1)])
  }

  lemma DeferringTold(st: State, n: Notification)
    requires Deferring(st) && st.Pending() == 0
    ensures Deferring(Told(st, n))
  {
    if st.widgetAlive {
      var d := Delivery(n, false, st.Pending(), |st.offered| + 1);
      StoredIsKept(st, n);
      TakenIsKept(Stored(st, n), d);
      assert Told(st, n) == Taken(Stored(st, n), d);
    }
  }

  lemma DeferringStored(st: State, n: Notification)
    requires Deferring(st) && st.Pending() > 0
    ensures Deferring(MaybeNotifyIME(st, n))
  {
    assert MaybeNotifyIME(st, n) == Stored(st, n);
    if st.widgetAlive { StoredIsKept(st, n); }
  }

  /** The text changes that edits stand for. */
  function Changes(meaning: nat -> Change, edits: seq<nat>): (r: seq<Change>)
    ensures |r| == |edits| && forall i :: 0 <= i < |r| ==> r[i] == meaning(edits[i])
  {
    seq(|edits|, i requires 0 <= i < |edits| => meaning(edits[i]))
  }

  lemma ChangesConcat(meaning: nat -> Change, a: seq<nat>, b: seq<nat>)
    ensures Changes(meaning, a + b) == Changes(meaning, a) + Changes(meaning, b)
  {
  }

  /** A list of edits stands for the change that the code's slot holds: merging lists
      and then changes is merging the merged changes. */
  lemma SlotHoldsMergedChange(meaning: nat -> Change, texts: seq<ShortString>, s: Slots, n: Notification)
    requires n.TextChange? && n.edits != [] && s.text.Some? && s.text.value != []
    requires IsHistory(Changes(meaning, s.text.value + n.edits), texts)
    ensures s.MergeWith(n).text.Some?
    ensures Accumulated(Changes(meaning, s.MergeWith(n).text.value))
            == Merged(Accumulated(Changes(meaning, s.text.value)), Accumulated(Changes(meaning, n.edits)))
  {
    ChangesConcat(meaning, s.text.value, n.edits);
    AccumulatedConcat(Changes(meaning, s.text.value), Changes(meaning, n.edits), texts);
  }

  lemma MergedEdits(s: Slots, n: Notification)
    ensures EditsPending(s.MergeWith(n)) == EditsPending(s) + Edits(n)
  {
  }

  lemma Associates(a: seq<nat>, b: seq<nat>, c: seq<nat>)
    ensures a + (b + c) == (a + b) + c
  {
  }

  lemma DeferringMaybeNotify(st: State, n: Notification)
    requires Deferring(st)
    ensures Deferring(MaybeNotifyIME(st, n))
    decreases |st.ime|, 1, 0
  {
    if st.Pending() > 0 {
      DeferringStored(st, n);
    } else {
      var told := Told(st, n);
      DeferringTold(st, n);
      assert st.ime == [] ==> MaybeNotifyIME(st, n) == told;
      if st.ime != [] {
        assert MaybeNotifyIME(st, n) == PerformAll(told.(ime := st.ime[1..]), st.ime[0]);
        DeferringPerformAll(told.(ime := st.ime[1..]), st.ime[0]);
      }
    }
  }

  lemma DeferringPerformAll(st: State, actions: seq<Action>)
    requires Deferring(st)
    ensures Deferring(PerformAll(st, actions))
    decreases |st.ime|, 3, |actions|
  {
    if actions == [] {
    } else {
      var next := Perform(st, actions[0]);
      match actions[0] {
        case Notify(n) => DeferringMaybeNotify(st, n);
        case Send(e) => DeferringSend(st, e);
        case DestroyWidget =>
      }
      DeferringPerformAll(next, actions[1..]);
    }
  }

  function Flushed(st: State, n: Notification): State {
    Taken(st, Delivery(n, true, st.Pending(), |st.offered|))
  }

  lemma DeferringDelivery(st: State, n: Notification)
    requires Deferring(st) && st.Pending() > 0 && st.widgetAlive
    requires Holds(st.slots, n)
    ensures Deferring(NotifyIME(st.(slots := Without(st.slots, Rank(n))), n, true))
  {
    var told := Flushed(st, n);
    TakenIsKept(st, Delivery(n, true, st.Pending(), |st.offered|));
    if st.ime != [] { DeferringPerformAll(told.(ime := st.ime[1..]), st.ime[0]); }
  }

  lemma DeferringTurn(st: State, rank: nat)
    requires Deferring(st) && st.Pending() > 0 && rank < 4
    ensures Deferring(Turn(st, rank)) && Turn(st, rank).Pending() > 0
  {
    TakesItsTurn(st, rank);
    if st.widgetAlive {
      if rank == 0 && st.slots.text.Some? { DeferringDelivery(st, TextChange(st.slots.text.value)); }
      if rank == 1 && st.slots.selection.Some? { DeferringDelivery(st, SelectionChange(st.slots.selection.value)); }
      if rank == 2 && st.slots.layout { DeferringDelivery(st, PositionChange); }
      if rank == 3 && st.slots.update { DeferringDelivery(st, CompositionEventHandled); }
    }
  }

  /** Deferring(st) but for what a flush about to run will deliver. */
  ghost predicate ReadyToFlush(st: State) {
    NotifiedWhenIdle(st) && (st.widgetAlive ==> Kept(st))
  }

  lemma {:induction false} DeferringFlush(st: State)
    requires ReadyToFlush(st) && st.Pending() == 0
    ensures Deferring(Flush(st))
    decreases |st.ime|
  {
    if !st.widgetAlive {
    } else {
      var s0 := st.WithPending(1);
      DeferringTurn(s0, 0);
      DeferringTurn(Turn(s0, 0), 1);
      DeferringTurn(Turn(Turn(s0, 0), 1), 2);
      DeferringTurn(Turn(Turn(Turn(s0, 0), 1), 2), 3);
      var once := FlushOnce(st);
      assert ReadyToFlush(once);
      FlushOnceDelivers(st);
      if once.Pending() == 0 && once.widgetAlive && once.slots.HasNotification() { DeferringFlush(once); }
    }
  }

  /** What reaches a ContentCacheInParent from outside. */
  datatype Call =
    | Offered(notification: Notification)
    | Sent(event: Event)
    | Requested(around: Surroundings)
    | Acknowledged(a: Acknowledgement)

  /** A commit request whose answer comes from the widget's composition. */
  function HandleRequest(st: State, around: Surroundings): State {
    if st.Pending() == UINT32_MAX || !IsFinalization(st.counters, around.script) then st
    else st.(counters := Request(st.counters, around).0)
  }

  function Handle(st: State, c: Call): State {
    match c
    case Offered(n) => MaybeNotifyIME(st, n)
    case Sent(e) => SendEvent(st, e)
    case Requested(around) => HandleRequest(st, around)
    case Acknowledged(a) => Acknowledge(st, a)
  }

  function HandleAll(st: State, calls: seq<Call>): State {
    if calls == [] then st else Handle(HandleAll(st, calls[..|calls| - 1]), calls[|calls| - 1])
  }

  lemma DeferringHandle(st: State, c: Call)
    requires Deferring(st)
    ensures Deferring(Handle(st, c))
  {
    match c
    case Offered(n) => DeferringMaybeNotify(st, n);
    case Sent(e) => DeferringSend(st, e);
    case Requested(around) => DeferringRequest(st, around);
    case Acknowledged(a) => DeferringAcknowledge(st, a);
  }

  /** So does answering a request, and adds one exactly if it is granted. */
  lemma RequestCounts(st: State, around: Surroundings)
    ensures var r := HandleRequest(st, around);
      && r == st.(counters := r.counters)
      && (st.Pending() < UINT32_MAX && IsFinalization(st.counters, around.script) ==>
            r.Pending() == st.Pending() + if Request(st.counters, around).1.IsCommitted() then 1 else 0)
      && r.Pending() >= st.Pending()
  {
  }

  lemma DeferringRequest(st: State, around: Surroundings)
    requires Deferring(st)
    ensures Deferring(HandleRequest(st, around))
  {
    RequestCounts(st, around);
    DeferringCounters(st, HandleRequest(st, around).counters);
  }

  lemma DeferringAcknowledge(st: State, a: Acknowledgement)
    requires Deferring(st)
    ensures Deferring(Acknowledge(st, a))
  {
    var counted := st.(counters := st.counters.Acknowledge(a));
    if counted.Pending() == 0 { DeferringFlush(counted); }
  }

  /** After any calls and whatever the IME does in between: it was notified outside a
      flush only when no event was pending; and while the widget lives, every edit
      has been delivered in order or is pending, and nothing is pending once all
      events are acknowledged. */
  lemma {:induction false} NotificationsAreDeferred(calls: seq<Call>, ime: seq<seq<Action>>, counters: Counters)
    ensures Deferring(HandleAll(State(counters, NO_SLOTS, true, ime, [], []), calls))
  {
    if calls == [] {
    } else {
      NotificationsAreDeferred(calls[..|calls| - 1], ime, counters);
      DeferringHandle(
        HandleAll(State(counters, NO_SLOTS, true, ime, [], []), calls[..|calls| - 1]), calls[|calls| - 1]);
    }
  }

  /** A widget that was destroyed stays so, and one that the IME destroys is. */
  lemma {:induction false} DestroyIsFinal(st: State, actions: seq<Action>)
    ensures !st.widgetAlive || DestroyWidget in actions ==> !PerformAll(st, actions).widgetAlive
    decreases |st.ime|, 3, |actions|
  {
    if actions == [] {
    } else {
      var next := Perform(st, actions[0]);
      if !st.widgetAlive { DeadAfter(st, actions[0]); }
      DestroyIsFinal(next, actions[1..]);
      assert DestroyWidget in actions ==> actions[0] == DestroyWidget || DestroyWidget in actions[1..];
    }
  }

  lemma DeadAfter(st: State, a: Action)
    requires !st.widgetAlive
    ensures !Perform(st, a).widgetAlive
    decreases |st.ime|, 2, 0
  {
    match a
    case Notify(n) =>
      var told := Told(st, n);
      if st.Pending() > 0 {
        assert MaybeNotifyIME(st, n) == Stored(st, n);
      } else if st.ime == [] {
        assert MaybeNotifyIME(st, n) == told;
      } else {
        assert MaybeNotifyIME(st, n) == PerformAll(told.(ime := st.ime[1..]), st.ime[0]);
        DestroyIsFinal(told.(ime := st.ime[1..]), st.ime[0]);
      }
    case Send(e) => SendCounts(st, e);
    case DestroyWidget =>
  }

  // ----- What the IME knows -----

  lemma {:induction false} ToldAfter(ds: seq<Delivery>, rank: nat)
    requires LastTold(ds, rank) > 0
    ensures exists j :: 0 <= j < |ds| && Rank(ds[j].notification) == rank && ds[j].offered == LastTold(ds, rank)
  {
    var last := |ds| - 1;
    if Rank(ds[last].notification) == rank {
      assert ds[last].offered == LastTold(ds, rank);
    } else {
      ToldAfter(ds[..last], rank);
      var j :| 0 <= j < last && Rank(ds[j].notification) == rank && ds[..last][j].offered == LastTold(ds, rank);
      assert ds[j].offered == LastTold(ds, rank);
    }
  }

  lemma {:induction false} OfferedBehind(ns: seq<Notification>, i: nat)
    requires i < |ns|
    ensures LastOffered(ns, Rank(ns[i])) > i
  {
    if i == |ns| - 1 {
    } else {
      OfferedBehind(ns[..|ns| - 1], i);
    }
  }

  /** After notification i had come, the IME was told one of its rank. */
  ghost predicate IsToldAfter(st: State, i: nat)
    requires i < |st.offered|
  {
    exists j :: 0 <= j < |st.delivered|
      && Rank(st.delivered[j].notification) == Rank(st.offered[i]) && st.delivered[j].offered > i
  }

  /** As long as the widget lives: the selection that waits, or else the one told last,
      is the last one that has come; and once nothing is pending, the IME knows it, and
      has been told of whatever kind of notification has come, after the last of them. */
  lemma ImeCatchesUp(calls: seq<Call>, ime: seq<seq<Action>>, counters: Counters)
    ensures var st := HandleAll(State(counters, NO_SLOTS, true, ime, [], []), calls);
      st.widgetAlive ==>
        && (if st.slots.selection.Some? then st.slots.selection else SelectionTold(st.delivered))
           == SelectionOffered(st.offered)
        && (st.Pending() == 0 ==>
              && SelectionTold(st.delivered) == SelectionOffered(st.offered)
              && forall i: nat :: i < |st.offered| ==> IsToldAfter(st, i))
  {
    NotificationsAreDeferred(calls, ime, counters);
    var st := HandleAll(State(counters, NO_SLOTS, true, ime, [], []), calls);
    if st.widgetAlive && st.Pending() == 0 {
      forall i: nat | i < |st.offered| ensures IsToldAfter(st, i) {
        CaughtUp(st, i);
      }
    }
  }

  lemma CaughtUp(st: State, i: nat)
    requires SlotsWait(st) && !st.slots.HasNotification() && i < |st.offered|
    ensures IsToldAfter(st, i)
  {
    var rank := Rank(st.offered[i]);
    OfferedBehind(st.offered, i);
    assert !IsFilled(st.slots, rank);
    ToldAfter(st.delivered, rank);
  }

  /** Whatever the IME is told while the widget lives is news. */
  lemma ImeHearsNews(calls: seq<Call>, ime: seq<seq<Action>>, counters: Counters, k: nat)
    ensures var st := HandleAll(State(counters, NO_SLOTS, true, ime, [], []), calls);
      st.widgetAlive && k < |st.delivered| ==> IsNews(st.offered, st.delivered[..k], st.delivered[k])
  {
    NotificationsAreDeferred(calls, ime, counters);
  }

  lemma QuietTurn(st: State, rank: nat)
    requires st.ime == []
    ensures var r := Turn(st, rank); r.counters == st.counters && r.ime == [] && r.widgetAlive == st.widgetAlive
  {
  }

  /** With an IME that does not react, an acknowledgement takes one from what is pending,
      and the last one delivers whatever waits; others deliver nothing. */
  lemma AcknowledgementDelivers(st: State, a: Acknowledgement)
    requires Deferring(st) && st.widgetAlive && st.ime == []
    ensures var r := Acknowledge(st, a);
      && r.widgetAlive
      && r.Pending() == (if st.Pending() == 0 then 0 else st.Pending() - 1)
      && (r.Pending() == 0 ==> !r.slots.HasNotification() && forall i: nat :: i < |r.offered| ==> IsToldAfter(r, i))
      && (r.Pending() > 0 ==> r.delivered == st.delivered && r.slots == st.slots)
  {
    DeferringAcknowledge(st, a);
    var counted := st.(counters := st.counters.Acknowledge(a));
    if counted.Pending() == 0 {
      var s0 := counted.WithPending(1);
      QuietTurn(s0, 0);
      QuietTurn(Turn(s0, 0), 1);
      QuietTurn(Turn(Turn(s0, 0), 1), 2);
      QuietTurn(Turn(Turn(Turn(s0, 0), 1), 2), 3);
      FlushOnceDelivers(counted);
      var r := Acknowledge(st, a);
      assert r == FlushOnce(counted);
      forall i: nat | i < |r.offered| ensures IsToldAfter(r, i) { CaughtUp(r, i); }
    }
  }

  function EditsKnown(st: State): nat { |EditsDelivered(st.delivered)| }

  /** The text change that the edits merge to leads from one text to the one that many
      edits later. */
  ghost predicate LeadsOn(edits: seq<nat>, meaning: nat -> Change, texts: seq<ShortString>, before: nat) {
    && before + |edits| < |texts|
    && Describes(Accumulated(Changes(meaning, edits)), texts[before], texts[before + |edits|])
  }

  /** Edits in the middle of a list lead from the text at their start to the one at
      their end. */
  lemma MiddleDescribes(a: seq<nat>, b: seq<nat>, all: seq<nat>, meaning: nat -> Change, texts: seq<ShortString>)
    requires b != [] && a + b <= all && IsHistory(Changes(meaning, all), texts)
    ensures LeadsOn(b, meaning, texts, |a|)
  {
    var rest := all[|a + b|..];
    assert all == a + b + rest;
    ChangesConcat(meaning, a + b, rest);
    HistoryParts(Changes(meaning, a + b), Changes(meaning, rest), texts);
    var front := texts[..|a| + |b| + 1];
    ChangesConcat(meaning, a, b);
    HistoryParts(Changes(meaning, a), Changes(meaning, b), front);
    AccumulatedDescribes(Changes(meaning, b), front[|a|..]);
  }

  lemma PrefixOfSum(a: seq<nat>, b: seq<nat>, c: seq<nat>)
    requires a <= b
    ensures a <= b + c
  {
  }

  /** The text change that waits leads from the text at the last change that was
      delivered to the present text, and the IME knows the present text whenever
      nothing is pending. */
  lemma PendingChangeCatchesUp(
    calls: seq<Call>, ime: seq<seq<Action>>, counters: Counters, meaning: nat -> Change, texts: seq<ShortString>)
    requires var st := HandleAll(State(counters, NO_SLOTS, true, ime, [], []), calls);
      st.widgetAlive && IsHistory(Changes(meaning, EditsOffered(st.offered)), texts)
    ensures var st := HandleAll(State(counters, NO_SLOTS, true, ime, [], []), calls);
      var edits := EditsPending(st.slots);
      && EditsKnown(st) + |edits| == |texts| - 1
      && (edits != [] ==> LeadsOn(edits, meaning, texts, EditsKnown(st)))
      && (st.Pending() == 0 ==> edits == [])
  {
    NotificationsAreDeferred(calls, ime, counters);
    var st := HandleAll(State(counters, NO_SLOTS, true, ime, [], []), calls);
    var known, edits := EditsDelivered(st.delivered), EditsPending(st.slots);
    if edits != [] { MiddleDescribes(known, edits, known + edits, meaning, texts); }
  }

  lemma {:induction false} DeliveredUpTo(ds: seq<Delivery>, j: nat)
    requires j < |ds|
    ensures EditsDelivered(ds[..j]) + Edits(ds[j].notification) <= EditsDelivered(ds)
  {
    var init := ds[..|ds| - 1];
    if j == |ds| - 1 {
    } else {
      DeliveredUpTo(init, j);
      assert init[..j] == ds[..j];
    }
  }

  /** Every text change that was delivered leads from the text at the one before it
      to a later text. */
  lemma DeliveredChangeFollowsTheLast(st: State, j: nat, meaning: nat -> Change, texts: seq<ShortString>)
    requires EditsConserved(st) && IsHistory(Changes(meaning, EditsOffered(st.offered)), texts)
    requires j < |st.delivered| && Edits(st.delivered[j].notification) != []
    ensures LeadsOn(Edits(st.delivered[j].notification), meaning, texts, |EditsDelivered(st.delivered[..j])|)
  {
    var known, edits := EditsDelivered(st.delivered[..j]), Edits(st.delivered[j].notification);
    DeliveredUpTo(st.delivered, j);
    PrefixOfSum(known + edits, EditsDelivered(st.delivered), EditsPending(st.slots));
    MiddleDescribes(known, edits, EditsOffered(st.offered), meaning, texts);
  }
}

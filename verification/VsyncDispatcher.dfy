/** Dispatching vsync: observers are changed under locks by several threads, and what
    follows from a change is posted to the main thread. */
module VsyncDispatchers {
  import opened BasicTypes

  type Observer = nat
  type Thread = nat

  // ----- Refresh timers -----

  /** What the lock on the refresh timers protects. */
  datatype Timers = Timers(parent: Option<Observer>, children: seq<Observer>)
  {
    predicate NeedsVsync() { parent.Some? || children != [] }
  }

  datatype Change = SetParent(observer: Option<Observer>) | AddChild(child: Observer) | RemoveChild(child: Observer)

  function IndexOf(s: seq<Observer>, o: Observer): (i: nat)
    ensures i <= |s| && (i < |s| ==> s[i] == o) && forall j :: 0 <= j < i ==> s[j] != o
    ensures i < |s| <==> o in s
  {
    if s == [] || s[0] == o then 0 else 1 + IndexOf(s[1..], o)
  }

  function RemoveFirst(s: seq<Observer>, o: Observer): seq<Observer> {
    var i := IndexOf(s, o);
    if i == |s| then s else s[..i] + s[i + 1..]
  }

  /** One change, made while holding the lock. */
  function Changed(t: Timers, c: Change): Timers {
    match c
    case SetParent(o) => t.(parent := o)
    case AddChild(o) => if o in t.children then t else t.(children := t.children + [o])
    case RemoveChild(o) => t.(children := RemoveFirst(t.children, o))
  }

  ghost predicate HasNoDuplicates(s: seq<Observer>) {
    forall i, j :: 0 <= i < j < |s| ==> s[i] != s[j]
  }

  function ToSet(s: seq<Observer>): set<Observer> { set o | o in s }

  lemma RemovedHasNoDuplicates(s: seq<Observer>, o: Observer)
    requires HasNoDuplicates(s)
    ensures HasNoDuplicates(RemoveFirst(s, o))
  {
  }

  lemma RemovedFromSet(s: seq<Observer>, o: Observer)
    requires HasNoDuplicates(s)
    ensures ToSet(RemoveFirst(s, o)) == ToSet(s) - {o}
  {
  }

  /** The children behave like a set. */
  lemma ChildrenAreASet(t: Timers, c: Change)
    requires HasNoDuplicates(t.children)
    ensures HasNoDuplicates(Changed(t, c).children)
    ensures ToSet(Changed(t, c).children) ==
      match c
      case SetParent(_) => ToSet(t.children)
      case AddChild(o) => ToSet(t.children) + {o}
      case RemoveChild(o) => ToSet(t.children) - {o}
  {
    if c.RemoveChild? {
      RemovedHasNoDuplicates(t.children, c.child);
      RemovedFromSet(t.children, c.child);
    }
  }

  /** An update of the display's vsync status runs on the main thread: it has yet to
      read the timers, or it has read them and has yet to tell the display. */
  datatype MainThread = Idle | Updating | Notifying(needsVsync: bool)

  /** Background threads that have made a change and have yet to post the update for it,
      the number of updates in the main thread's queue, the main thread, and the last
      status that the display was told. */
  datatype Dispatcher = Dispatcher(timers: Timers, posting: set<Thread>, queued: nat, main: MainThread, status: bool)

  const INITIAL := Dispatcher(Timers(None, []), {}, 0, Idle, false)

  datatype Step =
    | ChangeInBackground(thread: Thread, change: Change)
    | Post(thread: Thread)
    | ChangeOnMain(change: Change)
    | RunUpdate
    | ReadTimers
    | NotifyDisplay

  predicate IsChange(s: Step) { s.ChangeInBackground? || s.ChangeOnMain? }

  predicate Enabled(d: Dispatcher, s: Step) {
    match s
    case ChangeInBackground(t, c) => t !in d.posting && !c.SetParent?
    case Post(t) => t in d.posting
    case ChangeOnMain(_) => d.main.Idle?
    case RunUpdate => d.main.Idle? && d.queued > 0
    case ReadTimers => d.main.Updating?
    case NotifyDisplay => d.main.Notifying?
  }

  function Next(d: Dispatcher, s: Step): Dispatcher
    requires Enabled(d, s)
  {
    match s
    case ChangeInBackground(t, c) => d.(timers := Changed(d.timers, c), posting := d.posting + {t})
    case Post(t) => d.(posting := d.posting - {t}, queued := d.queued + 1)
    case ChangeOnMain(c) => d.(timers := Changed(d.timers, c), main := Updating)
    case RunUpdate => d.(queued := d.queued - 1, main := Updating)
    case ReadTimers => d.(main := Notifying(d.timers.NeedsVsync()))
    case NotifyDisplay => d.(main := Idle, status := d.main.needsVsync)
  }

  ghost predicate IsRun(d: Dispatcher, steps: seq<Step>)
    decreases |steps|
  {
    steps == [] || (Enabled(d, steps[0]) && IsRun(Next(d, steps[0]), steps[1..]))
  }

  function RunAll(d: Dispatcher, steps: seq<Step>): Dispatcher
    requires IsRun(d, steps)
    decreases |steps|
  {
    if steps == [] then d else RunAll(Next(d, steps[0]), steps[1..])
  }

  /** Some update has yet to read the timers. */
  predicate WillRead(d: Dispatcher) {
    d.posting != {} || d.queued > 0 || d.main.Updating?
  }

  /** What the display is going to know when no update has yet to read the timers. */
  function Told(d: Dispatcher): bool {
    if d.main.Notifying? then d.main.needsVsync else d.status
  }

  ghost predicate IsConsistent(d: Dispatcher) {
    && HasNoDuplicates(d.timers.children)
    && (WillRead(d) || Told(d) == d.timers.NeedsVsync())
  }

  lemma ConsistentStep(d: Dispatcher, s: Step)
    requires IsConsistent(d) && Enabled(d, s)
    ensures IsConsistent(Next(d, s))
  {
    match s
    case ChangeInBackground(t, c) =>
      ChildrenAreASet(d.timers, c);
      assert t in Next(d, s).posting;
    case ChangeOnMain(c) => ChildrenAreASet(d.timers, c);
    case _ =>
  }

  lemma {:induction false} ConsistentRun(d: Dispatcher, steps: seq<Step>)
    requires IsConsistent(d) && IsRun(d, steps)
    ensures IsConsistent(RunAll(d, steps))
    decreases |steps|
  {
    if steps == [] {
    } else {
      ConsistentStep(d, steps[0]);
      ConsistentRun(Next(d, steps[0]), steps[1..]);
    }
  }

  /** No update is unfinished. */
  predicate IsQuiet(d: Dispatcher) {
    d.posting == {} && d.queued == 0 && d.main.Idle?
  }

  /** However the threads interleave, the display's status is right, or an update has yet
      to finish; and no child timer is there twice. */
  lemma StatusIsRightOrUpdateIsUnfinished(steps: seq<Step>)
    requires IsRun(INITIAL, steps)
    ensures var d := RunAll(INITIAL, steps);
      && (d.status == d.timers.NeedsVsync() || !IsQuiet(d))
      && HasNoDuplicates(d.timers.children)
  {
    ConsistentRun(INITIAL, steps);
  }

  // ----- What the status says about the changes -----

  /** Whether the last change of the parent's observer set one. */
  predicate HasParent(history: seq<Change>) {
    history != [] &&
    var last := history[|history| - 1];
    if last.SetParent? then last.observer.Some? else HasParent(history[..|history| - 1])
  }

  /** Whether the last change about the child added it. */
  predicate HasChild(history: seq<Change>, o: Observer) {
    history != [] &&
    var last := history[|history| - 1];
    if !last.SetParent? && last.child == o then last.AddChild? else HasChild(history[..|history| - 1], o)
  }

  /** Somebody waits for vsync. */
  ghost predicate SomebodyWaits(history: seq<Change>) {
    HasParent(history) || exists o :: HasChild(history, o)
  }

  /** The changes that the steps make, after those of `history`. */
  function Changes(history: seq<Change>, steps: seq<Step>): seq<Change>
    decreases |steps|
  {
    if steps == [] then history
    else Changes(if IsChange(steps[0]) then history + [steps[0].change] else history, steps[1..])
  }

  ghost predicate Remembers(t: Timers, history: seq<Change>) {
    && HasNoDuplicates(t.children)
    && (t.parent.Some? <==> HasParent(history))
    && forall o :: o in t.children <==> HasChild(history, o)
  }

  lemma RemembersChange(t: Timers, history: seq<Change>, c: Change)
    requires Remembers(t, history)
    ensures Remembers(Changed(t, c), history + [c])
  {
    ChildrenAreASet(t, c);
    assert (history + [c])[..|history|] == history;
    forall o ensures o in Changed(t, c).children <==> HasChild(history + [c], o) {
      assert o in Changed(t, c).children <==> o in ToSet(Changed(t, c).children);
      assert o in t.children <==> o in ToSet(t.children);
    }
  }

  lemma {:induction false} RemembersRun(d: Dispatcher, history: seq<Change>, steps: seq<Step>)
    requires Remembers(d.timers, history) && IsRun(d, steps)
    ensures Remembers(RunAll(d, steps).timers, Changes(history, steps))
    decreases |steps|
  {
    if steps == [] {
    } else {
      var l := steps[0];
      if IsChange(l) {
        RemembersChange(d.timers, history, l.change);
        RemembersRun(Next(d, l), history + [l.change], steps[1..]);
      } else {
        RemembersRun(Next(d, l), history, steps[1..]);
      }
    }
  }

  lemma NeedsVsyncExactly(t: Timers, history: seq<Change>)
    requires Remembers(t, history)
    ensures t.NeedsVsync() <==> SomebodyWaits(history)
  {
    if t.children != [] { assert t.children[0] in t.children && HasChild(history, t.children[0]); }
  }

  /** When no update is unfinished, the display was told last that vsync is needed exactly
      if somebody waits for it: the last observer that was set for the parent is one, or
      some child was added and not removed again. */
  lemma QuietStatusIsRightExactly(steps: seq<Step>)
    requires IsRun(INITIAL, steps)
    ensures var d := RunAll(INITIAL, steps);
      IsQuiet(d) ==> (d.status <==> SomebodyWaits(Changes([], steps)))
  {
    ConsistentRun(INITIAL, steps);
    RemembersRun(INITIAL, [], steps);
    NeedsVsyncExactly(RunAll(INITIAL, steps).timers, Changes([], steps));
  }

  // ----- The status becomes right -----

  /** How many steps the unfinished updates take. */
  function Unfinished(d: Dispatcher): nat {
    4 * |d.posting| + 3 * d.queued
    + match d.main { case Idle => 0 case Updating => 2 case Notifying(_) => 1 }
  }

  lemma AnyOf(threads: set<Thread>) returns (t: Thread)
    requires threads != {}
    ensures t in threads
  {
    t :| t in threads;
  }

  /** Once nobody changes the timers, every step brings the updates nearer to their end,
      and there is a step to take until the status is right. */
  lemma UpdatesFinish(d: Dispatcher)
    requires IsConsistent(d)
    ensures forall s :: Enabled(d, s) && !IsChange(s) ==> Unfinished(Next(d, s)) < Unfinished(d)
    ensures Unfinished(d) > 0 ==> exists s :: Enabled(d, s) && !IsChange(s)
    ensures Unfinished(d) == 0 ==> d.status == d.timers.NeedsVsync()
  {
    forall s | Enabled(d, s) && !IsChange(s) ensures Unfinished(Next(d, s)) < Unfinished(d) {
      if s.Post? { assert |d.posting - {s.thread}| == |d.posting| - 1; }
    }
    if d.posting != {} {
      var t := AnyOf(d.posting);
      assert Enabled(d, Post(t));
    } else if !d.main.Idle? {
      assert Enabled(d, if d.main.Updating? then ReadTimers else NotifyDisplay);
    } else if d.queued > 0 {
      assert Enabled(d, RunUpdate);
    }
  }

  class RefreshTimerVsyncDispatcher {
    var parentRefreshTimer: Option<Observer>
    var childRefreshTimers: seq<Observer>
    /** Updates in the main thread's queue, and what the display was told last. */
    var queued: nat
    var status: bool

    /** The dispatcher between two calls. */
    function Now(): Dispatcher
      reads this
    {
      Dispatcher(Timers(parentRefreshTimer, childRefreshTimers), {}, queued, Idle, status)
    }

    constructor ()
      ensures Now() == INITIAL
    {
      parentRefreshTimer, childRefreshTimers, queued, status := None, [], 0, false;
    }

    method NeedsVsync() returns (needs: bool)
      ensures needs == Now().timers.NeedsVsync()
    {
      needs := parentRefreshTimer.Some? || childRefreshTimers != [];
    }

    method UpdateVsyncStatus(onMainThread: bool)
      modifies this`queued, this`status
      ensures !onMainThread ==> Now() == old(Now()).(queued := old(queued) + 1)
      ensures onMainThread ==> Now() == old(Now()).(status := Now().timers.NeedsVsync())
    {
      if !onMainThread {
        queued := queued + 1;
        return;
      }
      status := NeedsVsync();
    }

    /** A call makes these steps, unless other threads come in between. */
    static ghost function StepsOf(c: Change, onMainThread: bool): seq<Step> {
      if onMainThread then [ChangeOnMain(c), ReadTimers, NotifyDisplay] else [ChangeInBackground(0, c), Post(0)]
    }

    method SetParentRefreshTimer(o: Option<Observer>)
      modifies this
      ensures IsRun(old(Now()), StepsOf(SetParent(o), true))
      ensures Now() == RunAll(old(Now()), StepsOf(SetParent(o), true))
    {
      parentRefreshTimer := o;
      UpdateVsyncStatus(true);
      MainSteps(old(Now()), SetParent(o));
    }

    method AddChildRefreshTimer(o: Observer, onMainThread: bool)
      modifies this
      ensures IsRun(old(Now()), StepsOf(AddChild(o), onMainThread))
      ensures Now() == RunAll(old(Now()), StepsOf(AddChild(o), onMainThread))
    {
      if o !in childRefreshTimers {
        childRefreshTimers := childRefreshTimers + [o];
      }
      UpdateVsyncStatus(onMainThread);
      MainSteps(old(Now()), AddChild(o));
      BackgroundSteps(old(Now()), AddChild(o));
    }

    method RemoveChildRefreshTimer(o: Observer, onMainThread: bool)
      modifies this
      ensures IsRun(old(Now()), StepsOf(RemoveChild(o), onMainThread))
      ensures Now() == RunAll(old(Now()), StepsOf(RemoveChild(o), onMainThread))
    {
      childRefreshTimers := RemoveFirst(childRefreshTimers, o);
      UpdateVsyncStatus(onMainThread);
      MainSteps(old(Now()), RemoveChild(o));
      BackgroundSteps(old(Now()), RemoveChild(o));
    }

    static lemma MainSteps(d: Dispatcher, c: Change)
      requires d.main.Idle?
      ensures IsRun(d, StepsOf(c, true))
      ensures RunAll(d, StepsOf(c, true))
              == d.(timers := Changed(d.timers, c), status := Changed(d.timers, c).NeedsVsync())
    {
      var steps := StepsOf(c, true);
      assert steps[1..] == [ReadTimers, NotifyDisplay] && steps[1..][1..] == [NotifyDisplay];
      var d1 := Next(d, steps[0]);
      var d2 := Next(d1, ReadTimers);
      assert IsRun(d2, [NotifyDisplay]);
      assert IsRun(d1, [ReadTimers, NotifyDisplay]);
    }

    static lemma BackgroundSteps(d: Dispatcher, c: Change)
      requires d.posting == {} && !c.SetParent?
      ensures IsRun(d, StepsOf(c, false))
      ensures RunAll(d, StepsOf(c, false)) == d.(timers := Changed(d.timers, c), queued := d.queued + 1)
    {
      var steps := StepsOf(c, false);
      assert steps[1..] == [Post(0)];
      var d1 := Next(d, steps[0]);
      assert d1.posting - {0} == {};
      assert IsRun(d1, [Post(0)]);
    }
  }
}

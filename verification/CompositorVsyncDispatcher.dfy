/** Attaching the compositor's observer to vsync, and detaching it for good. */
module CompositorVsyncDispatchers {
  import opened BasicTypes
  import opened VsyncDispatchers

  /** The observer, under its lock; threads that have set it and have yet to post what
      follows; the calls of ObserveVsync in the main thread's queue; whether the vsync
      source has this dispatcher. */
  datatype Compositor = Compositor(
    observer: Option<Observer>,
    posting: map<Thread, bool>,
    queue: seq<bool>,
    registered: bool,
    didShutdown: bool,
    isShuttingDown: bool)

  const UNOBSERVED := Compositor(None, map[], [], false, false, false)

  datatype CompositorStep =
    | SetObserver(thread: Thread, observer: Option<Observer>)
    | PostObserve(thread: Thread)
    | RunObserve
    | BeginShutdown
    | EndShutdown

  /** ObserveVsync. */
  function Observe(c: Compositor, enable: bool): Compositor {
    if c.didShutdown then c else c.(registered := enable)
  }

  /** The main thread runs nothing else during Shutdown. */
  predicate CanStep(c: Compositor, s: CompositorStep) {
    match s
    case SetObserver(t, _) => t !in c.posting
    case PostObserve(t) => t in c.posting
    case RunObserve => c.queue != [] && !c.isShuttingDown
    case BeginShutdown => !c.isShuttingDown
    case EndShutdown => c.isShuttingDown
  }

  function After(c: Compositor, s: CompositorStep): Compositor
    requires CanStep(c, s)
  {
    match s
    case SetObserver(t, o) => c.(observer := o, posting := c.posting[t := o.Some?])
    case PostObserve(t) => c.(posting := c.posting - {t}, queue := c.queue + [c.posting[t]])
    case RunObserve => Observe(c.(queue := c.queue[1..]), c.queue[0])
    case BeginShutdown => Observe(c, false).(didShutdown := true, isShuttingDown := true)
    case EndShutdown => c.(observer := None, isShuttingDown := false)
  }

  ghost predicate CanStepAll(c: Compositor, steps: seq<CompositorStep>)
    decreases |steps|
  {
    steps == [] || (CanStep(c, steps[0]) && CanStepAll(After(c, steps[0]), steps[1..]))
  }

  function AfterAll(c: Compositor, steps: seq<CompositorStep>): Compositor
    requires CanStepAll(c, steps)
    decreases |steps|
  {
    if steps == [] then c else AfterAll(After(c, steps[0]), steps[1..])
  }

  // ----- What the schedule says -----

  /** The observer that was set last, unless a shutdown has dropped it since. */
  function LastObserver(steps: seq<CompositorStep>): Option<Observer> {
    if steps == [] then None
    else match steps[|steps| - 1]
      case SetObserver(_, o) => o
      case EndShutdown => None
      case _ => LastObserver(steps[..|steps| - 1])
  }

  /** The shutdown that began last has not ended. */
  predicate IsInShutdown(steps: seq<CompositorStep>) {
    steps != [] &&
    match steps[|steps| - 1]
    case BeginShutdown => true
    case EndShutdown => false
    case _ => IsInShutdown(steps[..|steps| - 1])
  }

  lemma {:induction false} FollowsScheduleFrom(c: Compositor, done: seq<CompositorStep>, steps: seq<CompositorStep>)
    requires CanStepAll(c, steps)
    requires c.observer == LastObserver(done) && c.isShuttingDown == IsInShutdown(done)
    requires c.didShutdown <==> BeginShutdown in done
    ensures var r := AfterAll(c, steps);
      && r.observer == LastObserver(done + steps) && r.isShuttingDown == IsInShutdown(done + steps)
      && (r.didShutdown <==> BeginShutdown in done + steps)
    decreases |steps|
  {
    if steps == [] {
      assert done + steps == done;
    } else {
      var next := done + [steps[0]];
      assert next[..|done|] == done && done + steps == next + steps[1..];
      FollowsScheduleFrom(After(c, steps[0]), next, steps[1..]);
    }
  }

  /** The observer is the one set last, and none from the end of a shutdown until another
      one is set, which no longer registers it. */
  lemma ObserverFollowsSchedule(steps: seq<CompositorStep>)
    requires CanStepAll(UNOBSERVED, steps)
    ensures var c := AfterAll(UNOBSERVED, steps);
      && c.observer == LastObserver(steps) && c.isShuttingDown == IsInShutdown(steps)
      && (c.didShutdown <==> BeginShutdown in steps)
  {
    FollowsScheduleFrom(UNOBSERVED, [], steps);
    assert [] + steps == steps;
  }

  // ----- After shutdown -----

  lemma {:induction false} StaysDown(c: Compositor, steps: seq<CompositorStep>)
    requires (c.didShutdown ==> !c.registered) && CanStepAll(c, steps)
    ensures AfterAll(c, steps).didShutdown ==> !AfterAll(c, steps).registered
    ensures c.didShutdown ==> AfterAll(c, steps).didShutdown
    decreases |steps|
  {
    if steps == [] {
    } else {
      StaysDown(After(c, steps[0]), steps[1..]);
    }
  }

  /** After shutdown the dispatcher is not registered, and no call that was queued before
      or is posted later registers it again. */
  lemma ShutdownIsFinal(before: seq<CompositorStep>, later: seq<CompositorStep>)
    requires CanStepAll(UNOBSERVED, before) && CanStep(AfterAll(UNOBSERVED, before), BeginShutdown)
    requires CanStepAll(After(AfterAll(UNOBSERVED, before), BeginShutdown), later)
    ensures var c := AfterAll(After(AfterAll(UNOBSERVED, before), BeginShutdown), later);
      c.didShutdown && !c.registered
  {
    StaysDown(UNOBSERVED, before);
    StaysDown(After(AfterAll(UNOBSERVED, before), BeginShutdown), later);
  }

  // ----- Before shutdown -----

  /** What the last post asked for, or `last` if nothing is posted. */
  ghost function PostedLast(c: Compositor, steps: seq<CompositorStep>, last: bool): bool
    requires CanStepAll(c, steps)
    decreases |steps|
  {
    if steps == [] then last
    else PostedLast(After(c, steps[0]), steps[1..],
                    if steps[0].PostObserve? then c.posting[steps[0].thread] else last)
  }

  /** What the main thread does last if nothing more is posted. */
  predicate EndsWith(c: Compositor, last: bool) {
    c.didShutdown || last == if c.queue != [] then c.queue[|c.queue| - 1] else c.registered
  }

  lemma {:induction false} EndsAsPosted(c: Compositor, steps: seq<CompositorStep>, last: bool)
    requires CanStepAll(c, steps) && EndsWith(c, last) && (c.isShuttingDown ==> c.didShutdown)
    ensures EndsWith(AfterAll(c, steps), PostedLast(c, steps, last))
    decreases |steps|
  {
    if steps == [] {
    } else {
      EndsAsPosted(After(c, steps[0]), steps[1..],
                   if steps[0].PostObserve? then c.posting[steps[0].thread] else last);
    }
  }

  /** Whenever everything has been worked off before a shutdown, the registration fits
      the observer: exactly when the post made last was for an observer like that. */
  lemma RegistrationFitsExactly(steps: seq<CompositorStep>)
    requires CanStepAll(UNOBSERVED, steps)
    ensures var c := AfterAll(UNOBSERVED, steps);
      IsSettled(c) && !c.didShutdown ==>
        (c.registered == c.observer.Some? <==> PostedLast(UNOBSERVED, steps, false) == c.observer.Some?)
  {
    EndsAsPosted(UNOBSERVED, steps, false);
  }

  /** Nobody sets the observer while another thread has yet to post. */
  predicate IsSerial(c: Compositor, s: CompositorStep) {
    s.SetObserver? ==> c.posting == map[]
  }

  ghost predicate AllSerial(c: Compositor, steps: seq<CompositorStep>)
    requires CanStepAll(c, steps)
    decreases |steps|
  {
    steps == [] || (IsSerial(c, steps[0]) && AllSerial(After(c, steps[0]), steps[1..]))
  }

  /** The last thing that was, or is going to be, asked of the main thread. */
  ghost predicate Asks(c: Compositor, enable: bool) {
    if c.posting != map[] then c.posting.Values == {enable} && |c.posting.Keys| == 1
    else if c.queue != [] then c.queue[|c.queue| - 1] == enable
    else c.registered == enable
  }

  ghost predicate IsKept(c: Compositor) {
    && (!c.didShutdown ==> Asks(c, c.observer.Some?))
    && (c.didShutdown ==> !c.registered)
    && (c.isShuttingDown ==> c.didShutdown)
    && |c.posting.Keys| <= 1
  }

  lemma KeptByStep(c: Compositor, s: CompositorStep)
    requires IsKept(c) && CanStep(c, s) && IsSerial(c, s)
    ensures IsKept(After(c, s))
  {
    match s
    case SetObserver(t, o) =>
      assert After(c, s).posting == map[t := o.Some?];
      assert After(c, s).posting.Keys == {t} && After(c, s).posting.Values == {o.Some?};
    case PostObserve(t) =>
      OnlyKey(c.posting.Keys, t);
      assert c.posting[t] in c.posting.Values;
      assert (c.posting - {t}).Keys == {};
      assert c.posting - {t} == map[];
    case _ =>
  }

  lemma OnlyKey(s: set<Thread>, t: Thread)
    requires t in s && |s| <= 1
    ensures s == {t}
  {
    assert |s - {t}| == |s| - 1;
    assert s - {t} == {};
  }

  lemma {:induction false} KeptByRun(c: Compositor, steps: seq<CompositorStep>)
    requires IsKept(c) && CanStepAll(c, steps) && AllSerial(c, steps)
    ensures IsKept(AfterAll(c, steps))
    decreases |steps|
  {
    if steps == [] {
    } else {
      KeptByStep(c, steps[0]);
      KeptByRun(After(c, steps[0]), steps[1..]);
    }
  }

  predicate IsSettled(c: Compositor) {
    c.posting == map[] && c.queue == [] && !c.isShuttingDown
  }

  /** If observers are set one at a time, then whenever everything has been worked off,
      the dispatcher is registered exactly when it has an observer and is not shut down. */
  lemma RegisteredExactlyWhenObserved(steps: seq<CompositorStep>)
    requires CanStepAll(UNOBSERVED, steps) && AllSerial(UNOBSERVED, steps)
    ensures var c := AfterAll(UNOBSERVED, steps);
      IsSettled(c) ==> (c.registered <==> c.observer.Some? && !c.didShutdown)
  {
    KeptByRun(UNOBSERVED, steps);
  }

  // ----- Two setters -----

  /** Two threads set and clear the observer, but post in the opposite order. */
  const CROSSED :=
    [SetObserver(0, Some(1)), SetObserver(1, None), PostObserve(1), PostObserve(0), RunObserve, RunObserve]

  /** The dispatcher then stays registered without an observer. */
  lemma CrossedPostsStayRegistered()
    ensures CanStepAll(UNOBSERVED, CROSSED)
    ensures var c := AfterAll(UNOBSERVED, CROSSED); IsSettled(c) && c.registered && c.observer.None? && !c.didShutdown
  {
  }

  class CompositorVsyncDispatcher {
    var compositorVsyncObserver: Option<Observer>
    var didShutdown: bool
    /** The main thread's queue, and whether the vsync source has this dispatcher. */
    var queue: seq<bool>
    var registered: bool

    /** The dispatcher between two calls. */
    function Now(): Compositor
      reads this
    {
      Compositor(compositorVsyncObserver, map[], queue, registered, didShutdown, false)
    }

    constructor ()
      ensures Now() == UNOBSERVED
    {
      compositorVsyncObserver, didShutdown, queue, registered := None, false, [], false;
    }

    method ObserveVsync(enable: bool)
      modifies this`registered
      ensures Now() == Observe(old(Now()), enable)
    {
      if didShutdown {
        return;
      }
      registered := enable;
    }

    method SetCompositorVsyncObserver(o: Option<Observer>)
      modifies this
      ensures Now() == After(After(old(Now()), SetObserver(0, o)), PostObserve(0))
    {
      compositorVsyncObserver := o;
      queue := queue + [o.Some?];
      assert map[][0 := o.Some?] - {0} == map[];
    }

    method Shutdown()
      modifies this
      ensures Now() == After(After(old(Now()), BeginShutdown), EndShutdown)
    {
      ObserveVsync(false);
      didShutdown := true;
      compositorVsyncObserver := None;
    }
  }
}

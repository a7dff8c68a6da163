/** The composition messages that travel between a widget, the parent process and
    a content process, and the order they must appear in. */
module CompositionEvents {

  datatype EventMessage =
    | CompositionStart
    | CompositionChange
    | CompositionCommit
    | CompositionCommitAsIs
    | CompositionEnd
    | SetSelection

  datatype Event = Event(message: EventMessage, data: string)

  predicate CausesDOMCompositionEndEvent(m: EventMessage) {
    m.CompositionEnd? || m.CompositionCommit? || m.CompositionCommitAsIs?
  }

  predicate IsFollowedByCompositionEnd(m: EventMessage) {
    m.CompositionCommit? || m.CompositionCommitAsIs?
  }

  /** One finished composition: a start, any number of changes, a commit. */
  ghost predicate IsRound(r: seq<EventMessage>) {
    && |r| >= 2
    && IsOpenRound(r[..|r| - 1])
    && IsFollowedByCompositionEnd(r[|r| - 1])
  }

  /** A composition that has started and has not been committed yet. */
  ghost predicate IsOpenRound(r: seq<EventMessage>) {
    && |r| >= 1
    && r[0].CompositionStart?
    && forall i :: 1 <= i < |r| ==> r[i].CompositionChange?
  }

  ghost function Flatten(rounds: seq<seq<EventMessage>>): seq<EventMessage> {
    if rounds == [] then [] else Flatten(rounds[..|rounds| - 1]) + rounds[|rounds| - 1]
  }

  ghost predicate SplitsInto(log: seq<EventMessage>, rounds: seq<seq<EventMessage>>, rest: seq<EventMessage>) {
    && (forall i :: 0 <= i < |rounds| ==> IsRound(rounds[i]))
    && log == Flatten(rounds) + rest
  }

  /** `log` is a prefix of (Start Change* Commit)*, and `open` tells whether it
      stops inside a composition. */
  ghost predicate IsOrdered(log: seq<EventMessage>, open: bool) {
    exists rounds, rest ::
      SplitsInto(log, rounds, rest) && (if open then IsOpenRound(rest) else rest == [])
  }

  /** The messages that may come next in an ordered log. */
  predicate MayFollow(open: bool, m: EventMessage) {
    match m
    case CompositionStart => !open
    case CompositionChange => open
    case CompositionCommit => open
    case CompositionCommitAsIs => open
    case CompositionEnd => false
    case SetSelection => false
  }

  predicate OpenAfter(m: EventMessage) {
    m.CompositionStart? || m.CompositionChange?
  }

  lemma EmptyIsOrdered()
    ensures IsOrdered([], false)
  {
    assert SplitsInto([], [], []);
  }

  /** An ordered log stays ordered when a message is added that may follow. */
  lemma OrderedAppend(log: seq<EventMessage>, open: bool, m: EventMessage)
    requires IsOrdered(log, open)
    requires MayFollow(open, m)
    ensures IsOrdered(log + [m], OpenAfter(m))
  {
    var rounds, rest :| SplitsInto(log, rounds, rest) && (if open then IsOpenRound(rest) else rest == []);
    var last := rest + [m];
    if OpenAfter(m) {
      assert log + [m] == Flatten(rounds) + last;
      assert SplitsInto(log + [m], rounds, last) && IsOpenRound(last);
    } else {
      assert last[..|last| - 1] == rest;
      assert IsRound(last);
      var closed := rounds + [last];
      assert closed[..|closed| - 1] == rounds;
      assert log + [m] == Flatten(closed) + [];
      assert SplitsInto(log + [m], closed, []);
    }
  }
}

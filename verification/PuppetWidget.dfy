/** The content process's half of the protocol as the object that keeps it. */
module PuppetWidgets {
  import opened CompositionEvents
  import opened CompositionCounters
  import opened CompositionProtocol

  class PuppetWidget {
    var ignoreCompositionEvents: bool
    // A TextComposition exists exactly while the content process is composing.
    var hasTextComposition: bool
    var hasNativeIMEContext: bool
    var hasBrowserChild: bool
    ghost var heard: seq<EventMessage>
    ghost var sent: seq<UpMessage>

    function Puppet(): Puppet
      reads this
    {
      CompositionProtocol.Puppet.Puppet(ignoreCompositionEvents, hasTextComposition)
    }

    /** The content process's share of a system in which `reply` is on its way. */
    ghost function Share(reply: Reply): System
      reads this
    {
      INITIAL.(up := sent + [CommitRequest], phase := Replied(reply), puppet := Puppet(), heard := heard)
    }

    constructor ()
      ensures Puppet() == INITIAL.puppet && heard == INITIAL.heard && sent == []
      ensures hasBrowserChild && !hasNativeIMEContext
    {
      ignoreCompositionEvents, hasTextComposition, hasNativeIMEContext := false, false, false;
      hasBrowserChild, heard, sent := true, [], [];
    }

    /** Composition events for a composition that was already committed here are
        dropped until the next start. */
    method DispatchEvent(m: EventMessage)
      modifies this
      ensures Puppet() == Deliver(old(Puppet()), m)
      ensures heard == if IsHeard(old(Puppet()), m) then old(heard) + [m] else old(heard)
      ensures sent == old(sent) && hasBrowserChild == old(hasBrowserChild)
      ensures hasNativeIMEContext == (old(hasNativeIMEContext) || IsHeard(old(Puppet()), m))
    {
      if !m.SetSelection? {
        if ignoreCompositionEvents {
          if !m.CompositionStart? {
            return;
          }
          ignoreCompositionEvents := false;
        }
        hasNativeIMEContext := true;
        heard := heard + [m];
        if m.CompositionStart? {
          hasTextComposition := true;
        } else if CausesDOMCompositionEndEvent(m) {
          hasTextComposition := false;
        }
      }
    }

    predicate Asks()
      reads this
    {
      hasBrowserChild && hasNativeIMEContext && !ignoreCompositionEvents && hasTextComposition
    }

    /** `reply` is what the parent process answers to the synchronous request, None
        when the request cannot be sent. */
    method RequestIMEToCommitComposition(reply: Reply, canSend: bool) returns (ok: bool)
      modifies this
      ensures ok == old(hasBrowserChild && (Asks() ==> canSend))
      ensures if old(Asks()) && canSend
        then var after := ReceiveReply(old(Share(reply)));
             Puppet() == after.puppet && heard == after.heard && sent == after.up
        else Puppet() == old(Puppet()) && heard == old(heard) && sent == old(sent)
    {
      if !hasBrowserChild {
        return false;
      }
      if !hasNativeIMEContext {
        return true;
      }
      if ignoreCompositionEvents {
        return true;
      }
      if !hasTextComposition {
        return true;
      }
      if !canSend {
        return false;
      }
      sent := sent + [CommitRequest];
      if !reply.IsCommitted() {
        return true;
      }
      DispatchEvent(CompositionCommit);
      ignoreCompositionEvents := true;
      sent := sent + [RequestHandled(KindOf(reply))];
      return true;
    }
  }
}

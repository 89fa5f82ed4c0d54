/** The state loop of pkg/icingaredis/heartbeat.go with its one-slot event buffer. */
module Heartbeat {
  import opened Wrappers

  /** A heartbeat message, or its loss. time is None if the message's stats time is invalid. */
  datatype Event = Received(received: int, time: Option<int>) | Lost

  predicate LastIsReceived(sent: seq<Event>) {
    sent != [] && sent[|sent| - 1].Received?
  }

  /** Every loss comes directly after a message. */
  ghost predicate LossesFollowMessages(sent: seq<Event>) {
    forall k :: 0 <= k < |sent| && sent[k].Lost? ==> k > 0 && sent[k - 1].Received?
  }

  lemma AppendEvent(sent: seq<Event>, e: Event)
    requires LossesFollowMessages(sent) && (e.Lost? ==> LastIsReceived(sent))
    ensures LossesFollowMessages(sent + [e])
  {
    forall k | 0 <= k < |sent + [e]| && (sent + [e])[k].Lost?
      ensures k > 0 && (sent + [e])[k - 1].Received?
    {
      if k < |sent| {
        assert sent[k].Lost?;
      }
    }
  }

  class Heartbeat {
    var active: bool
    var lastReceivedMs: int
    var lastMessageMs: int
    var events: Option<Event>
    /** All events so far, delivered or not. */
    ghost var sent: seq<Event>

    constructor ()
      ensures Valid() && sent == [] && events.None?
    {
      active := false;
      lastReceivedMs, lastMessageMs := 0, 0;
      events := None;
      sent := [];
    }

    /** The buffer can only hold the newest event, and the times that HA writes to its row are those of the newest
        event: of its message, or zero after a loss. */
    ghost predicate Valid()
      reads this
    {
      && active == LastIsReceived(sent)
      && (events.Some? ==> sent != [] && events.value == sent[|sent| - 1])
      && LossesFollowMessages(sent)
      && (active ==>
            && lastReceivedMs == sent[|sent| - 1].received
            && lastMessageMs == (match sent[|sent| - 1].time case Some(t) => t case None => 0))
      && (!active ==> lastReceivedMs == 0 && lastMessageMs == 0)
    }

    /** Replaces an event that has not been delivered. */
    method SendEvent(e: Event)
      modifies this`events, this`sent
      ensures events == Some(e) && sent == old(sent) + [e]
    {
      if events.Some? {
        events := None;
      }
      events := Some(e);
      sent := sent + [e];
    }

    /** envOk: the message has a valid environment ID, which is checked on the first one only. */
    method OnMessage(received: int, time: Option<int>, envOk: bool) returns (ok: bool)
      requires Valid()
      modifies this
      ensures Valid()
      ensures ok <==> old(active) || envOk
      ensures sent == old(sent) + if ok then [Received(received, time)] else []
      ensures events == if ok then Some(Received(received, time)) else old(events)
    {
      if !active {
        if !envOk {
          return false;
        }
        active := true;
      }
      lastReceivedMs := received;
      match time {
        case Some(t) => lastMessageMs := t;
        case None => lastMessageMs := 0;
      }
      AppendEvent(sent, Received(received, time));
      SendEvent(Received(received, time));
      return true;
    }

    /** No message for Timeout. */
    method OnTimeout()
      requires Valid()
      modifies this
      ensures Valid() && !active
      ensures sent == old(sent) + if old(active) then [Lost] else []
      ensures events == if old(active) then Some(Lost) else old(events)
    {
      if active {
        AppendEvent(sent, Lost);
        SendEvent(Lost);
        active := false;
      }
      lastReceivedMs := 0;
      lastMessageMs := 0;
    }

    /** HA takes the next event, if there is one. It is always the newest. */
    method TakeEvent() returns (e: Option<Event>)
      requires Valid()
      modifies this`events
      ensures Valid() && events.None? && e == old(events)
      ensures e.Some? ==> sent != [] && e.value == sent[|sent| - 1]
    {
      e := events;
      events := None;
    }
  }
}

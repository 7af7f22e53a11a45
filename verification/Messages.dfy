/** Messages, mailboxes and the event bus as objects: the code that moves references around,
    and what it leaves in the counts. */
module Messages {
  import opened MessageRefs
  import opened RouteTable

  class EventMessage {
    var refCount: int
    var deleted: bool
    const eventType: EventType
    const sender: nat

    constructor (refCount: int, eventType: EventType, sender: nat)
      ensures this.refCount == refCount && !deleted && this.eventType == eventType
    {
      this.refCount, this.deleted, this.eventType, this.sender := refCount, false, eventType, sender;
    }

    /** `event_message_release`: clears the caller's reference, and does nothing more if there
        is none. */
    static method ReleaseAt(message: EventMessage?) returns (cleared: EventMessage?)
      requires message != null ==> !message.deleted && message.refCount >= 1
      modifies if message == null then {} else {message}
      ensures cleared == null
      ensures message != null ==>
                message.refCount == old(message.refCount) - 1 && message.deleted == (message.refCount == 0)
    {
      cleared := null;
      if message == null {
        return;
      }
      message.Release();
    }

    method Release()
      requires !deleted && refCount >= 1
      modifies this
      ensures refCount == old(refCount) - 1 && deleted == (refCount == 0)
    {
      var before := refCount;
      refCount := refCount - 1;
      if before == 1 {
        deleted := true;
      }
    }
  }

  class MailBox {
    const capacity: nat
    var queue: seq<EventMessage>
    var discarded: nat
    var solved: nat

    constructor (capacity: nat)
      ensures queue == [] && this.capacity == capacity && discarded == solved == 0
    {
      this.capacity, queue, discarded, solved := capacity, [], 0, 0;
    }

    /** A message enters the mailbox with its reference, or is dropped with it. */
    method Send(message: EventMessage) returns (accepted: bool)
      requires !message.deleted && message.refCount >= 1
      modifies this, message
      ensures accepted == (|old(queue)| < capacity)
      ensures queue == (if accepted then old(queue) + [message] else old(queue)) && solved == old(solved)
      ensures message.refCount == old(message.refCount) - (if accepted then 0 else 1)
      ensures message.deleted == (message.refCount == 0)
      ensures discarded == old(discarded) + (if accepted then 0 else 1)
    {
      if |queue| < capacity {
        queue := queue + [message];
        accepted := true;
      } else {
        message.Release();
        discarded := discarded + 1;
        accepted := false;
      }
    }

    method TryReceive() returns (message: EventMessage?)
      modifies this
      ensures discarded == old(discarded)
      ensures if old(queue) == [] then message == null && queue == [] && solved == old(solved)
              else message == old(queue)[0] && queue == old(queue)[1..] && solved == old(solved) + 1
    {
      if queue == [] {
        return null;
      }
      message := queue[0];
      queue := queue[1..];
      solved := solved + 1;
    }

    /** Every reference in the queue is one of the message's counted references. */
    ghost predicate Counted()
      reads this, queue
    {
      forall m :: m in queue ==> !m.deleted && m.refCount >= multiset(queue)[m]
    }

    /** The destructor: releases what is left, each message as often as it is queued, and
        deletes exactly those to which nobody else refers. */
    method Drain()
      requires Counted()
      modifies this, queue
      ensures queue == []
      ensures forall m :: m in old(queue) ==>
                m.refCount == old(m.refCount) - multiset(old(queue))[m] && m.deleted == (m.refCount == 0)
    {
      while queue != []
        invariant multiset(queue) <= multiset(old(queue))
        invariant forall m :: m in old(queue) ==>
                    m.refCount == old(m.refCount) - multiset(old(queue))[m] + multiset(queue)[m]
        invariant forall m :: m in old(queue) ==> m.deleted == (m.refCount == 0)
        decreases |queue|
      {
        var m := queue[0];
        assert queue == [m] + queue[1..];
        assert multiset(queue) == multiset{m} + multiset(queue[1..]);
        assert m in multiset(old(queue));
        queue := queue[1..];
        m.Release();
      }
    }
  }

  /** How many of the sends to `b` were accepted. */
  ghost function AcceptedBy(list: seq<MailBox>, accepted: seq<bool>, b: MailBox): nat
    requires |accepted| <= |list|
  {
    if accepted == [] then 0
    else AcceptedBy(list, accepted[..|accepted| - 1], b) +
         if accepted[|accepted| - 1] && list[|accepted| - 1] == b then 1 else 0
  }

  /** How many of them were not. */
  ghost function RefusedBy(list: seq<MailBox>, accepted: seq<bool>, b: MailBox): nat
    requires |accepted| <= |list|
  {
    if accepted == [] then 0
    else RefusedBy(list, accepted[..|accepted| - 1], b) +
         if !accepted[|accepted| - 1] && list[|accepted| - 1] == b then 1 else 0
  }

  ghost function Copies(message: EventMessage, n: nat): (q: seq<EventMessage>)
    ensures |q| == n && forall i :: 0 <= i < n ==> q[i] == message
  {
    if n == 0 then [] else Copies(message, n - 1) + [message]
  }

  /** What there is to see of a mailbox. */
  datatype BoxView = BoxView(queue: seq<EventMessage>, capacity: nat, discarded: nat, solved: nat)

  ghost function Views(list: seq<MailBox>): (vs: seq<BoxView>)
    reads list
    ensures |vs| == |list|
  {
    seq(|list|, i reads list requires 0 <= i < |list| =>
      BoxView(list[i].queue, list[i].capacity, list[i].discarded, list[i].solved))
  }

  /** Whether the `i`th send is accepted: nobody refuses who still has room, and nobody takes
      the message who has none. */
  ghost predicate Answered(list: seq<MailBox>, accepted: seq<bool>, before: seq<BoxView>, i: nat)
    requires i < |accepted| <= |list| == |before|
  {
    accepted[i] <==> |before[i].queue| + AcceptedBy(list, accepted[..i], list[i]) < before[i].capacity
  }

  ghost function Served(message: EventMessage, list: seq<MailBox>, accepted: seq<bool>, b: MailBox, v: BoxView): BoxView
    requires |accepted| <= |list|
  {
    v.(queue := v.queue + Copies(message, AcceptedBy(list, accepted, b)),
       discarded := v.discarded + RefusedBy(list, accepted, b))
  }

  /** What sends to the mailboxes of `list` in order leave there. */
  ghost predicate Distributed(message: EventMessage, list: seq<MailBox>, accepted: seq<bool>,
                              before: seq<BoxView>, after: seq<BoxView>)
    requires |accepted| <= |list| == |before| == |after|
  {
    && (forall i :: 0 <= i < |accepted| ==> Answered(list, accepted, before, i))
    && (forall i :: 0 <= i < |list| ==> after[i] == Served(message, list, accepted, list[i], before[i]))
  }

  lemma OneMore(list: seq<MailBox>, accepted: seq<bool>, taken: bool, b: MailBox)
    requires |accepted| < |list|
    ensures var turn := list[|accepted|] == b;
            && AcceptedBy(list, accepted + [taken], b) == AcceptedBy(list, accepted, b) + (if turn && taken then 1 else 0)
            && RefusedBy(list, accepted + [taken], b) == RefusedBy(list, accepted, b) + (if turn && !taken then 1 else 0)
  {
    assert (accepted + [taken])[..|accepted|] == accepted;
  }

  lemma OneMoreSend(message: EventMessage, list: seq<MailBox>, accepted: seq<bool>, taken: bool,
                    before: seq<BoxView>, views: seq<BoxView>, after: seq<BoxView>)
    requires |accepted| < |list| == |before| == |views| == |after|
    requires Distributed(message, list, accepted, before, views)
    requires var k := |accepted|; taken <==> |views[k].queue| < views[k].capacity
    requires forall i :: 0 <= i < |list| ==>
               after[i] == if list[i] != list[|accepted|] then views[i]
                           else if taken then views[i].(queue := views[i].queue + [message])
                           else views[i].(discarded := views[i].discarded + 1)
    ensures Distributed(message, list, accepted + [taken], before, after)
  {
    var accepted' := accepted + [taken];
    forall i | 0 <= i < |accepted'| ensures Answered(list, accepted', before, i) {
      if i < |accepted| {
        assert Answered(list, accepted, before, i) && accepted'[..i] == accepted[..i];
      } else {
        assert accepted'[..i] == accepted;
      }
    }
    forall i | 0 <= i < |list| ensures after[i] == Served(message, list, accepted', list[i], before[i]) {
      OneMore(list, accepted, taken, list[i]);
    }
  }

  /** One thread's view of the bus: the shared table and its own cached copy. */
  class ActorEventBus {
    var eventBus: Table<MailBox>
    var version: nat
    var localEventBus: Table<MailBox>
    var localVersion: nat

    constructor ()
      ensures eventBus == map[] && version == 0 && localEventBus == map[] && localVersion == 0
    {
      eventBus, version, localEventBus, localVersion := map[], 0, map[], 0;
    }

    ghost predicate Valid()
      reads this
    {
      NoEmptyList(eventBus) && NoEmptyList(localEventBus) && localVersion <= version
      && (localVersion == version ==> localEventBus == eventBus)
    }

    method Subscribe(ty: EventType, mailbox: MailBox)
      requires Valid()
      modifies this
      ensures Valid() && eventBus == Subscribed(old(eventBus), ty, mailbox) && version == old(version) + 1
      ensures localEventBus == old(localEventBus) && localVersion == old(localVersion)
    {
      SubscribeMeaning(eventBus, ty, mailbox, ty);
      eventBus := eventBus[ty := Subscribers(eventBus, ty) + [mailbox]];
      version := version + 1;
    }

    /** Removes the first subscription of the mailbox: overwrite it with the last one, drop the
        last one, and erase the list once it is empty. */
    method Unsubscribe(ty: EventType, mailbox: MailBox)
      requires Valid()
      modifies this`eventBus, this`version
      ensures Valid() && eventBus == Unsubscribed(old(eventBus), ty, mailbox)
      ensures version == old(version) + if mailbox in Subscribers(old(eventBus), ty) then 1 else 0
    {
      UnsubscribeLeavesNoEmptyList(eventBus, ty, mailbox);
      if ty in eventBus {
        var list := eventBus[ty];
        var i := 0;
        while i < |list| && list[i] != mailbox
          invariant 0 <= i <= |list| && mailbox !in list[..i]
        {
          i := i + 1;
        }
        UnsubscribedAt(eventBus, ty, mailbox, i);
        if i < |list| {
          list := SwapRemove(list, i);
          version := version + 1;
          eventBus := if list == [] then eventBus - {ty} else eventBus[ty := list];
        }
      }
    }

    method SyncRouteTable()
      requires Valid()
      modifies this
      ensures Valid() && localEventBus == eventBus == old(eventBus) && localVersion == version == old(version)
    {
      localEventBus := eventBus;
      localVersion := version;
    }

    /** Publishes a message that the caller owns alone.  With subscribers, its count afterwards
        is the number of mailboxes that took it, and it is deleted exactly if none did; without,
        it is deleted.  The subscribers are those of the shared table at the moment of the
        call.  In the reference-count protocol, where the message is `m`, this is a publication
        followed by its sends, or a release; its count, and so its deletion, is the same there. */
    method Publish(message: EventMessage, ghost m: Msg, ghost s: State) returns (accepted: seq<bool>)
      requires Valid() && !message.deleted && message.refCount == 1
      requires Balanced(s, m) && m in s.refs && m in s.held && s.refs[m] == 1
      modifies this, message, Subscribers(eventBus, message.eventType)
      ensures Valid() && eventBus == old(eventBus) && version == old(version) == localVersion
      ensures |accepted| == |Subscribers(old(eventBus), message.eventType)|
      ensures message.refCount == CountTrue(accepted) && message.deleted == (message.refCount == 0)
      ensures var list := Subscribers(old(eventBus), message.eventType);
              Distributed(message, list, accepted, old(Views(list)), Views(list))
      ensures Sending(AfterPublish(s, m, accepted), m, 0, message.refCount)
    {
      if localVersion < version {
        SyncRouteTable();
      }
      if message.eventType in localEventBus {
        message.refCount := |localEventBus[message.eventType]|;
        accepted := SendToAll(message, localEventBus[message.eventType]);
      } else {
        message.Release();
        accepted := [];
      }
      PublishEnds(s, m, accepted);
    }
  }

  /** Sends one reference to each mailbox of the list, in order. */
  method SendToAll(message: EventMessage, list: seq<MailBox>) returns (accepted: seq<bool>)
    requires !message.deleted && message.refCount == |list| > 0
    modifies message, list
    ensures |accepted| == |list|
    ensures message.refCount == CountTrue(accepted) && message.deleted == (message.refCount == 0)
    ensures Distributed(message, list, accepted, old(Views(list)), Views(list))
  {
    accepted := [];
    for i := 0 to |list|
      invariant |accepted| == i
      invariant message.refCount == |list| - i + CountTrue(accepted) && message.deleted == (message.refCount == 0)
      invariant Distributed(message, list, accepted, old(Views(list)), Views(list))
    {
      ghost var sofar, views := accepted, Views(list);
      var taken := list[i].Send(message);
      accepted := accepted + [taken];
      OneMoreSend(message, list, sofar, taken, old(Views(list)), views, Views(list));
    }
  }
}

/** Reference counts of messages across send, drop, receive and release.

    Threads that send, receive and release interleave in any order; mailboxes may drop any
    message.  A message created for one owner may be published, which overwrites its count
    with the number of subscribers. */
module MessageRefs {

  type Msg = nat

  /** The count stored in each message, the messages deleted, and where its copies
      are: sends still to be made, mailboxes, and threads that hold one. */
  datatype State = State(
    refs: map<Msg, int>,
    freed: set<Msg>,
    toSend: multiset<Msg>,
    mailed: multiset<Msg>,
    held: multiset<Msg>)

  datatype Label =
    | New(m: Msg)
    | Broadcast(m: Msg, sends: nat)
    | Publish(m: Msg, subscribers: nat)
    | SendAccepted(m: Msg)
    | SendDropped(m: Msg)
    | Receive(m: Msg)
    | Release(m: Msg)

  function Init(): State {
    State(map[], {}, multiset{}, multiset{}, multiset{})
  }

  /** The copies of `m` that somebody will still use. */
  function Copies(s: State, m: Msg): nat {
    s.toSend[m] + s.mailed[m] + s.held[m]
  }

  /** The count of a message made for a number of sends: its creator keeps it if there are none. */
  function BroadcastRefs(sends: nat): nat {
    if sends == 0 then 1 else sends
  }

  /** `event_message_release`: decrement, delete at the last reference. */
  function Released(s: State, m: Msg): State
    requires m in s.refs
  {
    s.(refs := s.refs[m := s.refs[m] - 1], held := s.held - multiset{m},
       freed := if s.refs[m] == 1 then s.freed + {m} else s.freed)
  }

  /** `Publish` with a subscriber list: the count is overwritten, one send per subscriber. */
  function Published(s: State, m: Msg, subscribers: nat): State
    requires m in s.refs
  {
    s.(refs := s.refs[m := subscribers], held := s.held - multiset{m}, toSend := s.toSend[m := s.toSend[m] + subscribers])
  }

  /** The thread that acts has a copy of the message.  A publisher owns the only reference and
      finds a subscriber list, which is never empty; a broadcast is made for its sends, or
      for its creator if there are none. */
  predicate Enabled(s: State, l: Label) {
    match l
    case New(m) => m !in s.refs
    case Broadcast(m, sends) => m !in s.refs
    case Publish(m, subscribers) => m in s.refs && m in s.held && s.refs[m] == 1 && subscribers >= 1
    case SendAccepted(m) => m in s.toSend
    case SendDropped(m) => m in s.toSend
    case Receive(m) => m in s.mailed
    case Release(m) => m in s.refs && m in s.held
  }

  function Step(s: State, l: Label): State {
    if !Enabled(s, l) then s
    else
      match l
      case New(m) => s.(refs := s.refs[m := 1], held := s.held + multiset{m})
      case Broadcast(m, sends) =>
        var s' := s.(refs := s.refs[m := BroadcastRefs(sends)], toSend := s.toSend[m := sends]);
        if sends == 0 then s'.(held := s.held + multiset{m}) else s'
      case Publish(m, subscribers) => Published(s, m, subscribers)
      case SendAccepted(m) => s.(toSend := s.toSend - multiset{m}, mailed := s.mailed + multiset{m})
      case SendDropped(m) => s.(toSend := s.toSend - multiset{m}, held := s.held + multiset{m})
      case Receive(m) => s.(mailed := s.mailed - multiset{m}, held := s.held + multiset{m})
      case Release(m) => Released(s, m)
  }

  function Run(s: State, ls: seq<Label>): State {
    if ls == [] then s else Step(Run(s, ls[..|ls| - 1]), ls[|ls| - 1])
  }

  function Exec(ls: seq<Label>): State {
    Run(Init(), ls)
  }

  /** The count is the number of copies, and a message is deleted exactly when none is left. */
  predicate Balanced(s: State, m: Msg) {
    if m in s.refs then s.refs[m] == Copies(s, m) && (m in s.freed <==> s.refs[m] == 0)
    else Copies(s, m) == 0 && m !in s.freed
  }

  lemma StepKeepsBalance(s: State, l: Label, m: Msg)
    requires forall x :: Balanced(s, x)
    ensures Balanced(Step(s, l), m)
  {
    assert Balanced(s, m) && Balanced(s, l.m);
  }

  /** Reference-count balance over every run. */
  lemma {:induction false} AlwaysBalanced(ls: seq<Label>, m: Msg)
    ensures Balanced(Exec(ls), m)
  {
    if ls != [] {
      var s := Exec(ls[..|ls| - 1]);
      forall x ensures Balanced(s, x) {
        AlwaysBalanced(ls[..|ls| - 1], x);
      }
      StepKeepsBalance(s, ls[|ls| - 1], m);
    }
  }

  /** No use after deletion: whoever is able to act on a message acts on one that exists. */
  lemma NeverUsedAfterFree(ls: seq<Label>, l: Label)
    requires Enabled(Exec(ls), l)
    ensures l.m !in Exec(ls).freed
  {
    AlwaysBalanced(ls, l.m);
  }

  /** Deleted once: a message that has been deleted has no copies and stays deleted, and
      nothing can be done with it any more. */
  lemma FreedForGood(ls: seq<Label>, l: Label, m: Msg)
    requires m in Exec(ls).freed
    ensures m in Step(Exec(ls), l).freed && Copies(Exec(ls), m) == 0 && (l.m == m ==> !Enabled(Exec(ls), l))
  {
    AlwaysBalanced(ls, m);
  }

  /** Overwriting the count is right exactly when the publisher holds the one reference and
      there is at least one subscriber. */
  lemma PublishBalancedExactly(s: State, m: Msg, subscribers: nat)
    requires Balanced(s, m) && m in s.refs && m in s.held
    ensures Balanced(Published(s, m, subscribers), m) <==> s.refs[m] == 1 && subscribers >= 1
  {
  }

  /** The first half is needed: a receiver of a broadcast of two that publishes what it has
      received, to one subscriber, leaves two copies and a count of one. */
  lemma PublishBreaksTheCount()
    ensures var s := Exec([Broadcast(1, 2), SendAccepted(1), Receive(1)]);
            && 1 in s.refs && 1 in s.held
            && Copies(Published(s, 1, 1), 1) == 2 && Published(s, 1, 1).refs[1] == 1
  {
    var three := [Broadcast(1, 2), SendAccepted(1), Receive(1)];
    RunTwo(Init(), Broadcast(1, 2), SendAccepted(1));
    assert three[..2] == [Broadcast(1, 2), SendAccepted(1)];
    assert Exec(three) == Step(Run(Init(), three[..2]), Receive(1));
  }

  // ------------------------------------------------------------------ the steps of one publication

  function CountTrue(bs: seq<bool>): (n: nat)
    ensures n <= |bs|
  {
    if bs == [] then 0 else CountTrue(bs[..|bs| - 1]) + if bs[|bs| - 1] then 1 else 0
  }

  /** What sending one reference to each of a list of mailboxes does, given who accepts. */
  function Sends(m: Msg, accepted: seq<bool>): seq<Label> {
    if accepted == [] then []
    else Sends(m, accepted[..|accepted| - 1]) +
         if accepted[|accepted| - 1] then [SendAccepted(m)] else [SendDropped(m), Release(m)]
  }

  lemma {:induction false} RunAppend(s: State, ls: seq<Label>, more: seq<Label>)
    ensures Run(s, ls + more) == Run(Run(s, ls), more)
    decreases |more|
  {
    if more == [] {
      assert ls + more == ls;
    } else {
      RunAppend(s, ls, more[..|more| - 1]);
      assert (ls + more)[..|ls + more| - 1] == ls + more[..|more| - 1];
    }
  }

  /** Nobody else has a copy of `m`: all its references are still to be sent or in mailboxes. */
  predicate Sending(s: State, m: Msg, left: nat, taken: nat) {
    && m in s.refs && s.refs[m] == left + taken && (m in s.freed <==> left + taken == 0)
    && s.toSend[m] == left && s.mailed[m] == taken && s.held[m] == 0
  }

  lemma RunTwo(s: State, l: Label, l': Label)
    ensures Run(s, [l]) == Step(s, l) && Run(s, [l, l']) == Step(Step(s, l), l')
  {
    assert [l][..0] == [] && [l, l'][..1] == [l];
    assert Run(s, []) == s;
  }

  lemma TakeOne(s: State, m: Msg, left: nat, taken: nat)
    requires Sending(s, m, left, taken) && left > 0
    ensures Sending(Step(s, SendAccepted(m)), m, left - 1, taken + 1)
  {
  }

  lemma DropOne(s: State, m: Msg, left: nat, taken: nat)
    requires Sending(s, m, left, taken) && left > 0
    ensures Sending(Step(Step(s, SendDropped(m)), Release(m)), m, left - 1, taken)
  {
    var s1 := Step(s, SendDropped(m));
    assert s1.held[m] == 1 && s1.toSend[m] == left - 1 && s1.refs == s.refs && s1.freed == s.freed;
    assert Step(s1, Release(m)) == Released(s1, m);
  }

  lemma SendOne(s: State, m: Msg, left: nat, taken: nat, accepted: bool)
    requires Sending(s, m, left, taken) && left > 0
    ensures accepted ==> Sending(Run(s, [SendAccepted(m)]), m, left - 1, taken + 1)
    ensures !accepted ==> Sending(Run(s, [SendDropped(m), Release(m)]), m, left - 1, taken)
  {
    if accepted {
      RunTwo(s, SendAccepted(m), SendAccepted(m));
      TakeOne(s, m, left, taken);
    } else {
      RunTwo(s, SendDropped(m), Release(m));
      DropOne(s, m, left, taken);
    }
  }

  lemma {:induction false} SendAll(s: State, m: Msg, left: nat, accepted: seq<bool>)
    requires Sending(s, m, left, 0) && |accepted| <= left
    ensures Sending(Run(s, Sends(m, accepted)), m, left - |accepted|, CountTrue(accepted))
  {
    if accepted != [] {
      var init, last := accepted[..|accepted| - 1], accepted[|accepted| - 1];
      SendAll(s, m, left, init);
      SendOne(Run(s, Sends(m, init)), m, left - |init|, CountTrue(init), last);
      RunAppend(s, Sends(m, init), if last then [SendAccepted(m)] else [SendDropped(m), Release(m)]);
    }
  }

  /** A whole publication, or a whole broadcast, ends with one reference per accepting mailbox
      and the message deleted exactly if nobody took it. */
  lemma PublicationEnds(s: State, m: Msg, accepted: seq<bool>)
    requires Balanced(s, m) && Enabled(s, Publish(m, |accepted|))
    ensures Sending(Run(Step(s, Publish(m, |accepted|)), Sends(m, accepted)), m, 0, CountTrue(accepted))
  {
    SendAll(Step(s, Publish(m, |accepted|)), m, |accepted|, accepted);
  }

  /** All the steps of one call of `Publish`, given who accepts; without subscribers the message
      is released. */
  function AfterPublish(s: State, m: Msg, accepted: seq<bool>): State {
    if accepted == [] then Step(s, Release(m)) else Run(Step(s, Publish(m, |accepted|)), Sends(m, accepted))
  }

  lemma PublishEnds(s: State, m: Msg, accepted: seq<bool>)
    requires Balanced(s, m) && m in s.refs && m in s.held && s.refs[m] == 1
    ensures Sending(AfterPublish(s, m, accepted), m, 0, CountTrue(accepted))
  {
    if accepted != [] {
      PublicationEnds(s, m, accepted);
    }
  }

  lemma BroadcastEnds(s: State, m: Msg, accepted: seq<bool>)
    requires Balanced(s, m) && Enabled(s, Broadcast(m, |accepted|)) && accepted != []
    ensures Sending(Run(Step(s, Broadcast(m, |accepted|)), Sends(m, accepted)), m, 0, CountTrue(accepted))
  {
    SendAll(Step(s, Broadcast(m, |accepted|)), m, |accepted|, accepted);
  }

  /** Then `k` of the receivers take the message out and release it. */
  function AfterReceipts(s: State, m: Msg, k: nat): State {
    if k == 0 then s else Step(Step(AfterReceipts(s, m, k - 1), Receive(m)), Release(m))
  }

  lemma ReceiveOne(s: State, m: Msg, taken: nat)
    requires Sending(s, m, 0, taken) && taken > 0
    ensures Sending(Step(Step(s, Receive(m)), Release(m)), m, 0, taken - 1)
  {
    var s1 := Step(s, Receive(m));
    assert s1.held[m] == 1 && s1.mailed[m] == taken - 1 && s1.refs == s.refs;
    assert Step(s1, Release(m)) == Released(s1, m);
  }

  lemma {:induction false} SomeReceipts(s: State, m: Msg, taken: nat, k: nat)
    requires Sending(s, m, 0, taken) && k <= taken
    ensures Sending(AfterReceipts(s, m, k), m, 0, taken - k)
  {
    if k > 0 {
      SomeReceipts(s, m, taken, k - 1);
      ReceiveOne(AfterReceipts(s, m, k - 1), m, taken - k + 1);
    }
  }

  /** Nothing leaks: a message made, published to any subscribers and released by each that
      has accepted it is deleted, and no sooner. */
  lemma WholeLife(m: Msg, accepted: seq<bool>, k: nat)
    requires k <= CountTrue(accepted)
    ensures m in AfterReceipts(AfterPublish(Step(Init(), New(m)), m, accepted), m, k).freed <==> k == CountTrue(accepted)
  {
    var s0 := Step(Init(), New(m));
    PublishEnds(s0, m, accepted);
    SomeReceipts(AfterPublish(s0, m, accepted), m, CountTrue(accepted), k);
  }
}

/** The routing table of the event bus: who subscribes to which type of event. */
module RouteTable {

  type EventType = nat

  /** Subscriber lists by type; `B` is a mailbox.  A type without subscribers has no entry. */
  type Table<B> = map<EventType, seq<B>>

  function Subscribers<B>(table: Table<B>, ty: EventType): seq<B> {
    if ty in table then table[ty] else []
  }

  predicate NoEmptyList<B>(table: Table<B>) {
    forall ty :: ty in table ==> table[ty] != []
  }

  function Subscribed<B>(table: Table<B>, ty: EventType, b: B): Table<B> {
    table[ty := Subscribers(table, ty) + [b]]
  }

  /** The first position of `b`, or the length. */
  function IndexOf<B(==)>(list: seq<B>, b: B): (i: nat)
    ensures i <= |list| && (i < |list| ==> list[i] == b) && b !in list[..i]
  {
    if list == [] || list[0] == b then 0 else
      var i := 1 + IndexOf(list[1..], b);
      assert list[..i] == [list[0]] + list[1..][..i - 1];
      i
  }

  /** Overwrites position `i` with the last entry and drops the last. */
  function SwapRemove<B>(list: seq<B>, i: nat): (r: seq<B>)
    requires i < |list|
    ensures |r| == |list| - 1
  {
    list[i := list[|list| - 1]][..|list| - 1]
  }

  function Unsubscribed<B(==)>(table: Table<B>, ty: EventType, b: B): Table<B> {
    if b !in Subscribers(table, ty) then table
    else
      var list := SwapRemove(table[ty], IndexOf(table[ty], b));
      if list == [] then table - {ty} else table[ty := list]
  }

  /** The table once position `i`, the first of `b`, has been removed. */
  lemma UnsubscribedAt<B>(table: Table<B>, ty: EventType, b: B, i: nat)
    requires ty in table && i <= |table[ty]| && (i < |table[ty]| ==> table[ty][i] == b) && b !in table[ty][..i]
    ensures b in table[ty] <==> i < |table[ty]|
    ensures Unsubscribed(table, ty, b) == if i == |table[ty]| then table
                                          else if |table[ty]| == 1 then table - {ty}
                                          else table[ty := SwapRemove(table[ty], i)]
  {
    var list := table[ty];
    assert list[..|list|] == list;
  }

  lemma SwapRemoveDropsOne<B>(list: seq<B>, i: nat)
    requires i < |list|
    ensures multiset(list) == multiset(SwapRemove(list, i)) + multiset{list[i]}
    ensures forall k :: 0 <= k < |list| - 1 && k != i ==> SwapRemove(list, i)[k] == list[k]
  {
    var n := |list| - 1;
    var swapped := list[i := list[n]];
    assert multiset(swapped) == multiset(list) - multiset{list[i]} + multiset{list[n]};
    assert swapped == SwapRemove(list, i) + [list[n]];
  }

  /** Subscribing adds one subscription, behind those of its type, and touches no other type. */
  lemma SubscribeMeaning<B>(table: Table<B>, ty: EventType, b: B, other: EventType)
    requires NoEmptyList(table)
    ensures NoEmptyList(Subscribed(table, ty, b))
    ensures multiset(Subscribers(Subscribed(table, ty, b), other))
         == multiset(Subscribers(table, other)) + (if other == ty then multiset{b} else multiset{})
    ensures Subscribers(table, other) <= Subscribers(Subscribed(table, ty, b), other)
  {
  }

  lemma UnsubscribeLeavesNoEmptyList<B>(table: Table<B>, ty: EventType, b: B)
    requires NoEmptyList(table)
    ensures NoEmptyList(Unsubscribed(table, ty, b))
  {
  }

  /** Unsubscribing removes one subscription if there is one, and touches no other type. */
  lemma UnsubscribeMeaning<B>(table: Table<B>, ty: EventType, b: B, other: EventType)
    requires NoEmptyList(table)
    ensures NoEmptyList(Unsubscribed(table, ty, b))
    ensures multiset(Subscribers(Unsubscribed(table, ty, b), other))
         == multiset(Subscribers(table, other)) - (if other == ty then multiset{b} else multiset{})
  {
    if b in Subscribers(table, ty) {
      var i := IndexOf(table[ty], b);
      SwapRemoveDropsOne(table[ty], i);
    }
  }
}

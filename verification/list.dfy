/** lib/list.cc: singly linked lists, plain and sorted, verified against sequences. */
module Lists {

  class ListElement<T> {
    var item: T
    var next: ListElement?<T>

    constructor (itm: T)
      ensures item == itm && next == null
    {
      item, next := itm, null;
    }
  }

  /** The sequence without the first occurrence of x. */
  function Without<T(==)>(s: seq<T>, x: T): seq<T> {
    if s == [] then [] else if s[0] == x then s[1..] else [s[0]] + Without(s[1..], x)
  }

  /** Before the first element that is greater. */
  function Inserted<T>(s: seq<T>, x: T, compare: (T, T) -> int): seq<T> {
    if s == [] || compare(x, s[0]) < 0 then [x] + s else [s[0]] + Inserted(s[1..], x, compare)
  }

  /** That is, without the first occurrence and with everything else in place. */
  lemma {:induction false} WithoutAt<T>(s: seq<T>, x: T, k: nat)
    requires k < |s| && s[k] == x && x !in s[..k]
    ensures Without(s, x) == s[..k] + s[k + 1..]
  {
    if k > 0 {
      assert s[0] in s[..k];
      assert s[1..][..k - 1] == s[..k][1..];
      WithoutAt(s[1..], x, k - 1);
      assert s[..k] + s[k + 1..] == [s[0]] + (s[1..][..k - 1] + s[1..][k..]);
    }
  }

  /** That is, behind everything that is not greater up to there, equal elements included. */
  lemma {:induction false} InsertedAt<T>(s: seq<T>, x: T, compare: (T, T) -> int, k: nat)
    requires k <= |s| && (forall j :: 0 <= j < k ==> compare(x, s[j]) >= 0) && (k < |s| ==> compare(x, s[k]) < 0)
    ensures Inserted(s, x, compare) == s[..k] + [x] + s[k..]
  {
    if k > 0 {
      InsertedAt(s[1..], x, compare, k - 1);
      assert s[..k] + [x] + s[k..] == [s[0]] + (s[1..][..k - 1] + [x] + s[1..][k - 1..]);
    }
  }

  /** A comparison that orders all elements. */
  ghost predicate TotalOrder<T(!new)>(compare: (T, T) -> int) {
    && (forall x, y :: compare(x, y) < 0 <==> compare(y, x) > 0)
    && (forall x, y, z :: compare(x, y) <= 0 && compare(y, z) <= 0 ==> compare(x, z) <= 0)
  }

  ghost predicate Sorted<T>(s: seq<T>, compare: (T, T) -> int) {
    forall i, j :: 0 <= i < j < |s| ==> compare(s[i], s[j]) <= 0
  }

  lemma {:induction false} InsertedElements<T>(s: seq<T>, x: T, compare: (T, T) -> int)
    ensures multiset(Inserted(s, x, compare)) == multiset(s) + multiset{x}
  {
    if s != [] && compare(x, s[0]) >= 0 {
      InsertedElements(s[1..], x, compare);
      assert s == [s[0]] + s[1..];
    }
  }

  lemma SortedInFront<T>(x: T, s: seq<T>, compare: (T, T) -> int)
    requires Sorted(s, compare) && forall j :: 0 <= j < |s| ==> compare(x, s[j]) <= 0
    ensures Sorted([x] + s, compare)
  {
  }

  lemma SortedOne<T>(x: T, compare: (T, T) -> int)
    ensures Sorted([x], compare)
  {
  }

  lemma AllBelow<T(!new)>(s: seq<T>, x: T, compare: (T, T) -> int)
    requires TotalOrder(compare) && Sorted(s, compare) && s != [] && compare(x, s[0]) < 0
    ensures forall j :: 0 <= j < |s| ==> compare(x, s[j]) <= 0
  {
    forall j | 0 <= j < |s| ensures compare(x, s[j]) <= 0 {
      if j > 0 {
        assert compare(s[0], s[j]) <= 0;
      }
    }
  }

  lemma SortedBehind<T>(s: seq<T>, compare: (T, T) -> int)
    requires Sorted(s, compare) && s != []
    ensures Sorted(s[1..], compare)
  {
  }

  /** Inserting keeps a sorted list sorted. */
  lemma {:induction false} InsertedSorted<T(!new)>(s: seq<T>, x: T, compare: (T, T) -> int)
    requires TotalOrder(compare) && Sorted(s, compare)
    ensures Sorted(Inserted(s, x, compare), compare)
  {
    hide Sorted, TotalOrder;
    if s == [] {
      SortedOne(x, compare);
      assert [x] + s == [x];
    } else {
      if compare(x, s[0]) < 0 {
        AllBelow(s, x, compare);
        SortedInFront(x, s, compare);
      } else {
        SortedBehind(s, compare);
        InsertedSorted(s[1..], x, compare);
        AllAbove(s, x, compare);
        SortedInFront(s[0], Inserted(s[1..], x, compare), compare);
      }
    }
  }

  lemma AllAbove<T(!new)>(s: seq<T>, x: T, compare: (T, T) -> int)
    requires TotalOrder(compare) && Sorted(s, compare) && s != [] && compare(x, s[0]) >= 0
    ensures var r := Inserted(s[1..], x, compare); forall j :: 0 <= j < |r| ==> compare(s[0], r[j]) <= 0
  {
    var r := Inserted(s[1..], x, compare);
    InsertedElements(s[1..], x, compare);
    forall j | 0 <= j < |r| ensures compare(s[0], r[j]) <= 0 {
      assert r[j] in multiset(r);
      if r[j] != x {
        assert r[j] in s[1..];
      }
    }
  }

  // ----- Sequences of different elements -----

  ghost predicate AllDifferent<T>(s: seq<T>) {
    forall i, j :: 0 <= i < j < |s| ==> s[i] != s[j]
  }

  lemma OthersDiffer<T>(s: seq<T>, k: nat)
    requires AllDifferent(s) && k < |s|
    ensures forall j :: 0 <= j < |s| && j != k ==> s[j] != s[k]
  {
  }

  lemma DifferentWith<T>(s: seq<T>, k: nat, x: T)
    requires AllDifferent(s) && k <= |s| && x !in s
    ensures AllDifferent(s[..k] + [x] + s[k..])
  {
    var r := s[..k] + [x] + s[k..];
    forall i, j | 0 <= i < j < |r| ensures r[i] != r[j] {
      assert i == k || r[i] == s[if i < k then i else i - 1];
      assert j == k || r[j] == s[if j < k then j else j - 1];
    }
  }

  /** The second sequence is the first with one more element at k. */
  ghost predicate InsertedIn<T>(s: seq<T>, r: seq<T>, k: nat) {
    && k <= |s| && |r| == |s| + 1
    && (forall i :: 0 <= i < k ==> r[i] == s[i])
    && (forall i :: k < i < |r| ==> r[i] == s[i - 1])
  }

  lemma WithAt<T>(s: seq<T>, r: seq<T>, k: nat)
    requires k <= |s| < |r| && r == s[..k] + [r[k]] + s[k..]
    ensures InsertedIn(s, r, k)
  {
  }

  lemma WithIs<T>(s: seq<T>, r: seq<T>, k: nat)
    requires InsertedIn(s, r, k)
    ensures r == s[..k] + [r[k]] + s[k..]
  {
  }

  /** The second sequence is the first without its element at k. */
  ghost predicate RemovedFrom<T>(s: seq<T>, r: seq<T>, k: nat) {
    && k < |s| && |r| == |s| - 1
    && (forall i :: 0 <= i < k ==> r[i] == s[i])
    && (forall i :: k <= i < |r| ==> r[i] == s[i + 1])
  }

  lemma WithoutOneAt<T>(s: seq<T>, r: seq<T>, k: nat)
    requires k < |s| && r == s[..k] + s[k + 1..]
    ensures RemovedFrom(s, r, k)
  {
  }

  lemma WithoutOneIs<T>(s: seq<T>, r: seq<T>, k: nat)
    requires RemovedFrom(s, r, k)
    ensures r == s[..k] + s[k + 1..]
  {
  }

  lemma DifferentWithout<T>(s: seq<T>, k: nat)
    requires AllDifferent(s) && k < |s|
    ensures AllDifferent(s[..k] + s[k + 1..])
  {
  }

  class List<T(==)> {
    var first: ListElement?<T>
    var last: ListElement?<T>
    var numInList: int
    ghost var nodes: seq<ListElement<T>>

    ghost predicate Valid()
      reads this, nodes
    {
      && numInList == |nodes|
      && first == (if nodes == [] then null else nodes[0])
      && last == (if nodes == [] then null else nodes[|nodes| - 1])
      && (forall i {:trigger nodes[i].next} :: 0 <= i < |nodes| ==>
          nodes[i].next == if i + 1 < |nodes| then nodes[i + 1] else null)
      && AllDifferent(nodes)
    }

    ghost function Contents(): (s: seq<T>)
      reads this, nodes
      ensures |s| == |nodes|
      ensures forall i :: 0 <= i < |s| ==> s[i] == nodes[i].item
    {
      seq(|nodes|, i requires 0 <= i < |nodes| reads this, nodes => nodes[i].item)
    }

    constructor ()
      ensures Valid() && Contents() == [] && fresh(nodes)
    {
      first, last, numInList, nodes := null, null, 0, [];
    }

    method IsEmpty() returns (b: bool)
      requires Valid()
      ensures b <==> Contents() == []
    {
      b := numInList == 0;
    }

    method IsInList(item: T) returns (b: bool)
      requires Valid()
      ensures b <==> item in Contents()
    {
      var ptr := first;
      ghost var k := 0;
      while ptr != null
        invariant 0 <= k <= |nodes| && ptr == (if k < |nodes| then nodes[k] else null)
        invariant item !in Contents()[..k]
        decreases |nodes| - k
      {
        if item == ptr.item {
          assert Contents()[k] == item;
          return true;
        }
        ptr := ptr.next;
        k := k + 1;
      }
      assert Contents()[..k] == Contents();
      return false;
    }

    method Append(item: T)
      requires Valid() && item !in Contents()
      modifies this, nodes
      ensures Valid() && Contents() == old(Contents()) + [item]
      ensures forall n :: n in nodes && n !in old(nodes) ==> fresh(n)
    {
      hide AllDifferent;
      var element := new ListElement(item);
      if numInList == 0 {
        first := element;
        last := element;
      } else {
        OthersDiffer(nodes, |nodes| - 1);
        last.next := element;
        last := element;
      }
      numInList := numInList + 1;
      DifferentWith(nodes, |nodes|, element);
      assert nodes + [element] == nodes[..|nodes|] + [element] + nodes[|nodes|..];
      nodes := nodes + [element];
    }

    method Prepend(item: T)
      requires Valid() && item !in Contents()
      modifies this, nodes
      ensures Valid() && Contents() == [item] + old(Contents())
      ensures forall n :: n in nodes && n !in old(nodes) ==> fresh(n)
    {
      hide AllDifferent;
      var element := new ListElement(item);
      if numInList == 0 {
        first := element;
        last := element;
      } else {
        element.next := first;
        first := element;
      }
      numInList := numInList + 1;
      DifferentWith(nodes, 0, element);
      assert [element] + nodes == nodes[..0] + [element] + nodes[0..];
      nodes := [element] + nodes;
      assert forall i :: 1 <= i < |nodes| ==> nodes[i] == old(nodes)[i - 1];
    }

    method RemoveFront() returns (thing: T)
      requires Valid() && Contents() != []
      modifies this
      ensures Valid() && [thing] + Contents() == old(Contents())
      ensures nodes == old(nodes)[1..]
    {
      var element := first;
      thing := first.item;
      assert first == nodes[0] && last == nodes[|nodes| - 1];
      if first == last {
        first := null;
        last := null;
      } else {
        first := element.next;
      }
      numInList := numInList - 1;
      nodes := nodes[1..];
      assert forall i :: 0 <= i < |nodes| ==> nodes[i] == old(nodes)[i + 1];
    }

    method Remove(item: T)
      requires Valid() && item in Contents()
      modifies this, nodes
      ensures Valid() && Contents() == Without(old(Contents()), item)
      ensures forall n :: n in nodes ==> n in old(nodes)
    {
      ghost var was := Contents();
      if item == first.item {
        var removed := RemoveFront();
        return;
      }
      var prev := first;
      var ptr := first.next;
      ghost var k := 1;
      while ptr != null && item != ptr.item
        invariant 1 <= k <= |nodes| && prev == nodes[k - 1] && ptr == (if k < |nodes| then nodes[k] else null)
        invariant item !in was[..k]
        decreases |nodes| - k
      {
        prev := ptr;
        ptr := ptr.next;
        k := k + 1;
      }
      assert was[..k] == was || k < |nodes|;
      Unlink(prev, k);
      WithoutAt(was, item, k);
    }

    /** Remove's step for the element behind `prev`. */
    method Unlink(prev: ListElement<T>, ghost k: nat)
      requires Valid() && 1 <= k < |nodes| && prev == nodes[k - 1]
      modifies this, nodes
      ensures Valid() && Contents() == old(Contents())[..k] + old(Contents())[k + 1..]
      ensures nodes == old(nodes)[..k] + old(nodes)[k + 1..]
    {
      hide AllDifferent, Contents;
      assert nodes[k - 1].next == nodes[k];
      OthersDiffer(nodes, k - 1);
      DifferentWithout(nodes, k);
      var ptr := prev.next;
      assert nodes[k].next == ptr.next;
      prev.next := ptr.next;
      if prev.next == null {
        last := prev;
      }
      numInList := numInList - 1;
      nodes := nodes[..k] + nodes[k + 1..];
      WithoutOneAt(old(nodes), nodes, k);
      UnlinkedChain(k);
      Unlinked(k);
    }

    /** The pointers after Unlink: all along the list, without the element taken out. */
    twostate lemma UnlinkedChain(k: nat)
      requires old(Valid()) && 1 <= k && RemovedFrom(old(nodes), nodes, k)
      requires forall i :: 0 <= i < old(|nodes|) && i != k - 1 ==> old(nodes)[i].next == old(nodes[i].next)
      requires nodes[k - 1].next == if k < |nodes| then nodes[k] else null
      ensures forall i {:trigger nodes[i].next} :: 0 <= i < |nodes| ==>
          nodes[i].next == if i + 1 < |nodes| then nodes[i + 1] else null
    {
      hide AllDifferent;
      forall i | 0 <= i < |nodes| ensures nodes[i].next == if i + 1 < |nodes| then nodes[i + 1] else null {
        if i < k - 1 {
          assert old(nodes)[i].next == old(nodes)[i + 1];
        } else if i >= k {
          assert nodes[i] == old(nodes)[i + 1] && old(nodes)[i + 1].next == old(nodes[i + 1].next);
        }
      }
    }

    twostate lemma Unlinked(k: nat)
      requires old(Valid()) && 1 <= k && RemovedFrom(old(nodes), nodes, k) && AllDifferent(nodes)
      requires unchanged(`first) && numInList == old(numInList) - 1
      requires last == if k < |nodes| then old(last) else nodes[k - 1]
      requires forall i :: 0 <= i < old(|nodes|) ==> old(nodes)[i].item == old(nodes[i].item)
      requires forall i {:trigger nodes[i].next} :: 0 <= i < |nodes| ==>
          nodes[i].next == if i + 1 < |nodes| then nodes[i + 1] else null
      ensures Valid() && Contents() == old(Contents())[..k] + old(Contents())[k + 1..]
    {
      hide AllDifferent;
      WithoutOneIs(old(Contents()), Contents(), k);
    }

    /** SortedList::Insert. */
    method Insert(item: T, compare: (T, T) -> int)
      requires Valid() && item !in Contents()
      modifies this, nodes
      ensures Valid() && Contents() == Inserted(old(Contents()), item, compare)
      ensures forall n :: n in nodes && n !in old(nodes) ==> fresh(n)
    {
      if numInList == 0 {
        Append(item);
      } else if compare(item, first.item) < 0 {
        InsertedAt(Contents(), item, compare, 0);
        Prepend(item);
      } else {
        InsertBehind(item, compare);
      }
    }

    /** Insert when the item does not go first. */
    method InsertBehind(item: T, compare: (T, T) -> int)
      requires Valid() && item !in Contents() && Contents() != [] && compare(item, Contents()[0]) >= 0
      modifies this, nodes
      ensures Valid() && Contents() == Inserted(old(Contents()), item, compare)
      ensures forall n :: n in nodes && n !in old(nodes) ==> fresh(n)
    {
      hide Valid, Contents, AllDifferent;
      var ptr, k := Search(item, compare);
      InsertedAt(Contents(), item, compare, k + 1);
      NextOf(k);
      if ptr.next == null {
        assert Contents()[..k + 1] == Contents();
        Append(item);
      } else {
        LinkAfter(ptr, item, k);
      }
    }

    lemma NextOf(k: nat)
      requires Valid() && k < |nodes|
      ensures nodes[k].next == if k + 1 < |nodes| then nodes[k + 1] else null
    {
    }

    /** Insert's search for the element in front of the first one that is bigger than the item. */
    method Search(item: T, compare: (T, T) -> int) returns (ptr: ListElement<T>, ghost k: nat)
      requires Valid() && Contents() != [] && compare(item, Contents()[0]) >= 0
      ensures k < |nodes| && ptr == nodes[k] && (forall j :: 0 <= j <= k ==> compare(item, Contents()[j]) >= 0)
      ensures k + 1 < |nodes| ==> compare(item, Contents()[k + 1]) < 0
    {
      hide AllDifferent, Contents;
      ptr, k := first, 0;
      while ptr.next != null && compare(item, ptr.next.item) >= 0
        invariant 0 <= k < |nodes| && ptr == nodes[k]
        invariant forall j :: 0 <= j <= k ==> compare(item, Contents()[j]) >= 0
        decreases |nodes| - k
      {
        assert nodes[k].next == ptr.next && k + 1 < |nodes|;
        ptr := ptr.next;
        k := k + 1;
      }
      assert nodes[k].next == ptr.next;
    }

    /** Insert's step in the middle of the list: behind `ptr`. */
    method LinkAfter(ptr: ListElement<T>, item: T, ghost k: nat)
      requires Valid() && k + 1 < |nodes| && ptr == nodes[k]
      modifies this, nodes
      ensures Valid() && Contents() == old(Contents())[..k + 1] + [item] + old(Contents())[k + 1..]
      ensures forall n :: n in nodes && n !in old(nodes) ==> fresh(n)
    {
      hide AllDifferent, Contents;
      OthersDiffer(nodes, k);
      assert nodes[k].next == nodes[k + 1];
      var element := new ListElement(item);
      DifferentWith(nodes, k + 1, element);
      element.next := ptr.next;
      ptr.next := element;
      numInList := numInList + 1;
      nodes := nodes[..k + 1] + [element] + nodes[k + 1..];
      WithAt(old(nodes), nodes, k + 1);
      LinkedChain(k);
      Linked(k);
    }

    /** The pointers after LinkAfter: all along the list, with the new element in its place. */
    twostate lemma LinkedChain(k: nat)
      requires old(Valid()) && k + 1 < old(|nodes|) && InsertedIn(old(nodes), nodes, k + 1)
      requires forall i :: 0 <= i < old(|nodes|) && i != k ==> old(nodes)[i].next == old(nodes[i].next)
      requires nodes[k].next == nodes[k + 1] && nodes[k + 1].next == nodes[k + 2]
      ensures forall i {:trigger nodes[i].next} :: 0 <= i < |nodes| ==>
          nodes[i].next == if i + 1 < |nodes| then nodes[i + 1] else null
    {
      hide AllDifferent;
      forall i | 0 <= i < |nodes| ensures nodes[i].next == if i + 1 < |nodes| then nodes[i + 1] else null {
        if i < k {
          assert old(nodes)[i].next == old(nodes)[i + 1];
        } else if i > k + 1 {
          assert nodes[i] == old(nodes)[i - 1] && old(nodes)[i - 1].next == old(nodes[i - 1].next);
        }
      }
    }

    twostate lemma Linked(k: nat)
      requires old(Valid()) && k + 1 < old(|nodes|) && InsertedIn(old(nodes), nodes, k + 1) && AllDifferent(nodes)
      requires unchanged(`first) && unchanged(`last) && numInList == old(numInList) + 1
      requires forall i :: 0 <= i < old(|nodes|) ==> old(nodes)[i].item == old(nodes[i].item)
      requires forall i {:trigger nodes[i].next} :: 0 <= i < |nodes| ==>
          nodes[i].next == if i + 1 < |nodes| then nodes[i + 1] else null
      ensures Valid() && Contents() == old(Contents())[..k + 1] + [nodes[k + 1].item] + old(Contents())[k + 1..]
    {
      hide AllDifferent;
      WithIs(old(Contents()), Contents(), k + 1);
    }
  }

  /** lib/list.h: a position in a list; at the end of it when nothing is left. */
  class ListIterator<T(==)> {
    ghost const list: List<T>
    ghost var position: nat
    var current: ListElement?<T>

    ghost predicate Valid()
      reads this, list, list.nodes
    {
      && list.Valid() && position <= |list.Contents()|
      && current == if position < |list.nodes| then list.nodes[position] else null
    }

    constructor (list: List<T>)
      requires list.Valid()
      ensures this.list == list && Valid() && position == 0
    {
      this.list, position, current := list, 0, list.first;
    }

    method IsDone() returns (done: bool)
      requires Valid()
      ensures done <==> position == |list.Contents()|
    {
      done := current == null;
    }

    method Item() returns (item: T)
      requires Valid() && position < |list.Contents()|
      ensures item == list.Contents()[position]
    {
      item := current.item;
    }

    method Next()
      requires Valid() && position < |list.Contents()|
      modifies this
      ensures Valid() && position == old(position) + 1
    {
      assert list.nodes[position].next == current.next;
      current := current.next;
      position := position + 1;
    }
  }
}

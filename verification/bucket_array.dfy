/** lib/hash.cc: the array of linked lists behind a hash table, verified against a sequence of sequences. */
module BucketArrays {
  import opened Lists

  class BucketArray<T(==)> {
    const lists: array<List?<T>>
    ghost var repr: set<object>
    ghost var owner: map<object, int>     // the bucket that a list or an element belongs to

    ghost predicate Belongs(o: object, i: int)
      reads this
    {
      o in owner && owner[o] == i
    }

    ghost predicate Owns(i: nat)
      requires i < lists.Length
      reads this, lists, repr
    {
      && lists[i] != null && lists[i] in repr && Belongs(lists[i], i)
      && (forall n :: n in lists[i].nodes ==> n in repr && Belongs(n, i))
      && lists[i].Valid()
    }

    ghost predicate Valid()
      reads this, repr
    {
      && repr == owner.Keys + {this, lists} && this !in owner && lists !in owner
      && forall i :: 0 <= i < lists.Length ==> Owns(i)
    }

    ghost function Contents(): (s: seq<seq<T>>)
      requires Valid()
      reads this, repr
      ensures |s| == lists.Length
    {
      seq(lists.Length, i requires 0 <= i < lists.Length && Valid() reads this, repr =>
        assert Owns(i); lists[i].Contents())
    }

    /** A bucket of the contents is the list in the array. */
    lemma InList(b: nat)
      requires Valid() && b < lists.Length
      ensures Owns(b) && Contents()[b] == lists[b].Contents()
      ensures repr == owner.Keys + {this, lists} && this !in owner && lists !in owner
    {
      assert Owns(b);
    }

    /** The first n lists are there, and empty. */
    ghost predicate Prepared(n: nat)
      requires n <= lists.Length
      reads this, lists, repr
    {
      && repr == owner.Keys + {this, lists} && this !in owner && lists !in owner
      && forall k :: 0 <= k < n ==> Owns(k) && lists[k].nodes == []
    }

    /** InitBuckets. */
    constructor (sz: nat)
      ensures Valid() && fresh(repr) && lists.Length == sz
      ensures forall b :: 0 <= b < sz ==> Contents()[b] == []
    {
      hide Owns, List.Valid, List.Contents;
      lists := new List?<T>[sz](_ => null);
      owner, repr := map[], {};
      new;
      repr := {this, lists};
      for i := 0 to sz
        invariant Prepared(i) && fresh(repr)
      {
        InitList(i);
      }
      forall b: nat | b < sz ensures Contents()[b] == [] {
        EmptyList(b);
      }
    }

    lemma EmptyList(b: nat)
      requires Valid() && b < lists.Length && Owns(b) && lists[b].nodes == []
      ensures Contents()[b] == []
    {
      InList(b);
    }

    method InitList(i: nat)
      requires i < lists.Length && Prepared(i)
      modifies this, lists
      ensures Prepared(i + 1) && fresh(repr - old(repr))
    {
      hide List.Valid, List.Contents;
      var list := new List<T>();
      lists[i] := list;
      owner, repr := owner[list := i], repr + {list};
    }

    /** Nothing has changed but what belongs to one bucket. */
    twostate predicate OnlyIn(b: nat)
      reads this, repr
    {
      && repr == owner.Keys + {this, lists} && old(repr) <= repr && unchanged(lists)
      && old(owner.Keys) <= owner.Keys
      && forall n :: n in old(owner) && old(owner)[n] != b ==> owner[n] == old(owner)[n] && unchanged(n)
    }

    /** The lists of the other buckets stay as they are. */
    twostate lemma OtherBuckets(b: nat)
      requires old(Valid()) && OnlyIn(b)
      ensures forall i: nat {:trigger Owns(i)} ::
                i < lists.Length && i != b ==> Owns(i) && lists[i].Contents() == old(Contents())[i]
    {
      forall i: nat | i < lists.Length && i != b ensures Owns(i) && lists[i].Contents() == old(Contents())[i] {
        assert old(Owns(i));
        var list := lists[i];
        assert unchanged(list);
        assert forall n :: n in list.nodes ==> unchanged(n);
        assert forall k :: 0 <= k < |list.nodes| ==> list.nodes[k] in list.nodes;
      }
    }

    /** A change to one list changes one bucket. */
    twostate lemma BucketSet(b: nat)
      requires old(Valid()) && OnlyIn(b) && b < lists.Length && Owns(b) && this !in owner && lists !in owner
      ensures Valid() && Contents() == old(Contents())[b := lists[b].Contents()]
    {
      OtherBuckets(b);
      ghost var now := old(Contents())[b := lists[b].Contents()];
      forall i | 0 <= i < lists.Length ensures Owns(i) && lists[i].Contents() == now[i] {
        assert i == b || Owns(i);
      }
      assert Contents() == now;
    }

    predicate IsEmpty(b: nat): (empty: bool)
      requires Valid() && b < lists.Length
      reads this, repr
      ensures empty <==> Contents()[b] == []
    {
      InList(b);
      lists[b].numInList == 0
    }

    method Append(b: nat, item: T)
      requires Valid() && b < lists.Length && item !in Contents()[b]
      modifies repr
      ensures Valid() && fresh(repr - old(repr))
      ensures Contents() == old(Contents())[b := old(Contents())[b] + [item]]
    {
      hide Valid, Contents, List.Valid, List.Contents;
      InList(b);
      var list := lists[b];
      list.Append(item);
      owner := owner + (map n | n in list.nodes :: b);
      repr := owner.Keys + {this, lists};
      assert Owns(b);
      BucketSet(b);
    }

    method RemoveFront(b: nat) returns (item: T)
      requires Valid() && b < lists.Length && Contents()[b] != []
      modifies repr
      ensures Valid() && repr == old(repr)
      ensures item == old(Contents())[b][0] && Contents() == old(Contents())[b := old(Contents())[b][1..]]
    {
      hide Valid, Contents, List.Valid, List.Contents;
      InList(b);
      var list := lists[b];
      item := list.RemoveFront();
      assert Owns(b);
      BucketSet(b);
    }

    method Remove(b: nat, item: T)
      requires Valid() && b < lists.Length && item in Contents()[b]
      modifies repr
      ensures Valid() && repr == old(repr)
      ensures Contents() == old(Contents())[b := Without(old(Contents())[b], item)]
    {
      hide Valid, Contents, List.Valid, List.Contents;
      InList(b);
      var list := lists[b];
      list.Remove(item);
      assert Owns(b);
      BucketSet(b);
    }
  }
}

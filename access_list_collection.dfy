/** SandboxAccessListCollection: a symbol is blacklisted when any of the lists blacklists it. */
module AccessListCollections {
  import opened AccessLists

  /** The verdict of a collection, given the entries of each of its lists. */
  predicate AnyBlacklists(lists: seq<seq<Entry>>, s: Subject) {
    exists i :: 0 <= i < |lists| && Verdict(lists[i], s)
  }

  /** An empty collection blacklists nothing. */
  lemma EmptyCollectionAllows(s: Subject)
    ensures !AnyBlacklists([], s)
  {
  }

  /** Adding a list can turn "allowed" into "blacklisted", never the reverse:
      the new verdict is the old one or the added list's. */
  lemma {:induction false} AddingAListOnlyAddsDenials(lists: seq<seq<Entry>>, added: seq<Entry>, s: Subject)
    ensures AnyBlacklists(lists + [added], s) == (AnyBlacklists(lists, s) || Verdict(added, s))
  {
    var all := lists + [added];
    if AnyBlacklists(lists, s) {
      var i :| 0 <= i < |lists| && Verdict(lists[i], s);
      assert all[i] == lists[i];
    }
    if Verdict(added, s) {
      assert all[|lists|] == added;
    }
    if AnyBlacklists(all, s) {
      var i :| 0 <= i < |all| && Verdict(all[i], s);
      if i < |lists| {
        assert all[i] == lists[i];
      }
    }
  }

  /** The verdict does not depend on the order of the lists: a collection
      holding the same lists in any order (each list of one found, through
      `position` and `origin`, in the other) gives the same answer. */
  lemma {:induction false} VerdictIgnoresListOrder(lists: seq<seq<Entry>>, reordered: seq<seq<Entry>>, position: nat -> nat, origin: nat -> nat, s: Subject)
    requires forall i :: 0 <= i < |lists| ==> position(i) < |reordered| && reordered[position(i)] == lists[i]
    requires forall j :: 0 <= j < |reordered| ==> origin(j) < |lists| && lists[origin(j)] == reordered[j]
    ensures AnyBlacklists(reordered, s) == AnyBlacklists(lists, s)
  {
    if AnyBlacklists(lists, s) {
      var i :| 0 <= i < |lists| && Verdict(lists[i], s);
      assert Verdict(reordered[position(i)], s);
    }
    if AnyBlacklists(reordered, s) {
      var j :| 0 <= j < |reordered| && Verdict(reordered[j], s);
      assert Verdict(lists[origin(j)], s);
    }
  }

  /** In particular, swapping two halves of the collection changes nothing. */
  lemma {:induction false} SwappedCollectionsAgree(front: seq<seq<Entry>>, back: seq<seq<Entry>>, s: Subject)
    ensures AnyBlacklists(front + back, s) == AnyBlacklists(back + front, s)
  {
    var a, b := front + back, back + front;
    if AnyBlacklists(a, s) {
      var i :| 0 <= i < |a| && Verdict(a[i], s);
      var k := if i < |front| then i + |back| else i - |front|;
      assert b[k] == a[i];
      assert Verdict(b[k], s);
    }
    if AnyBlacklists(b, s) {
      var j :| 0 <= j < |b| && Verdict(b[j], s);
      var k := if j < |back| then j + |front| else j - |back|;
      assert a[k] == b[j];
      assert Verdict(a[k], s);
    }
  }

  class AccessListCollection {
    var lists: seq<AccessList>

    constructor ()
      ensures lists == []
    {
      lists := [];
    }

    /** Add: the list goes at the end. */
    method Add(accessList: AccessList)
      modifies this
      ensures lists == old(lists) + [accessList]
    {
      lists := lists + [accessList];
    }

    /** The entries of every list, in list order. */
    function Snapshot(): (r: seq<seq<Entry>>)
      reads this, lists
      ensures |r| == |lists| && forall i :: 0 <= i < |lists| ==> r[i] == lists[i].entries
    {
      seq(|lists|, i reads this, lists requires 0 <= i < |lists| => lists[i].entries)
    }

    /** IsBlacklisted (all three overloads): `Any` over the lists. */
    function IsBlacklisted(s: Subject): (blacklisted: bool)
      reads this, lists
      ensures blacklisted <==> exists i :: 0 <= i < |lists| && Verdict(lists[i].entries, s)
    {
      AnyBlacklists(Snapshot(), s)
    }
  }
}

/**
  The history of completed days: a newest-first sequence of frozen records.
  Deletion filters out every record carrying the deleted record's id.
*/
module History {
  import opened Levels

  /** A completed day, frozen at completion time. */
  datatype Record = Record(id: int, date: string, total: int, level: string, key: LevelKey, emoji: string)

  /** The ids present in a history. */
  function Ids(h: seq<Record>): set<int>
  {
    if h == [] then {} else {h[0].id} + Ids(h[1..])
  }

  /** Every record's id is among the ids of the history. */
  lemma {:induction false} IdsContains(h: seq<Record>, i: nat)
    requires i < |h|
    ensures h[i].id in Ids(h)
  {
    if i > 0 {
      IdsContains(h[1..], i - 1);
    }
  }

  /** No two records share an id. */
  predicate IdsUnique(h: seq<Record>)
  {
    h == [] || (h[0].id !in Ids(h[1..]) && IdsUnique(h[1..]))
  }

  /** The number of legendary (efsane) records. */
  function Efsanes(h: seq<Record>): (n: nat)
    ensures n <= |h|
  {
    if h == [] then 0
    else (if h[0].key == Efsane then 1 else 0) + Efsanes(h[1..])
  }

  /** a is b with some records dropped and the remaining ones in their order. */
  predicate Subsequence(a: seq<Record>, b: seq<Record>)
    decreases |b|
  {
    a == [] || (b != [] && ((a[0] == b[0] && Subsequence(a[1..], b[1..])) || Subsequence(a, b[1..])))
  }

  /** The history with every record of the given id filtered out, the rest in order. */
  function Without(h: seq<Record>, id: int): (res: seq<Record>)
    ensures |res| <= |h|
    ensures forall i :: 0 <= i < |res| ==> res[i].id != id
  {
    if h == [] then []
    else if h[0].id == id then Without(h[1..], id)
    else [h[0]] + Without(h[1..], id)
  }

  /** Filtering only drops records: the survivors keep their order. */
  lemma {:induction false} WithoutKeepsOrder(h: seq<Record>, id: int)
    ensures Subsequence(Without(h, id), h)
  {
    if h != [] {
      WithoutKeepsOrder(h[1..], id);
      if h[0].id != id {
        assert ([h[0]] + Without(h[1..], id))[1..] == Without(h[1..], id);
      }
    }
  }

  /** Filtering an id that is not present changes nothing. */
  lemma {:induction false} WithoutAbsent(h: seq<Record>, id: int)
    requires id !in Ids(h)
    ensures Without(h, id) == h
  {
    if h != [] {
      WithoutAbsent(h[1..], id);
      assert h == [h[0]] + h[1..];
    }
  }

  /**
    When ids are unique, filtering the id of the record at position k removes
    exactly that record and keeps the others in their order.
  */
  lemma {:induction false} WithoutAt(h: seq<Record>, k: nat)
    requires IdsUnique(h) && k < |h|
    ensures Without(h, h[k].id) == h[..k] + h[k + 1..]
  {
    var id, t := h[k].id, h[1..];
    if k == 0 {
      WithoutAbsent(t, id);
      assert h[..0] + h[1..] == t;
    } else {
      assert h[0].id != id by {
        IdsContains(t, k - 1);
      }
      assert Without(h, id) == [h[0]] + Without(t, id);
      assert Without(t, id) == t[..k - 1] + t[k..] by {
        WithoutAt(t, k - 1);
      }
      assert h[..k] + h[k + 1..] == [h[0]] + (t[..k - 1] + t[k..]) by {
        assert h[..k] == [h[0]] + t[..k - 1];
        assert h[k + 1..] == t[k..];
      }
    }
  }

  /** A record survives filtering exactly when its id differs from the filtered one. */
  lemma {:induction false} WithoutMembers(h: seq<Record>, id: int, r: Record)
    ensures r in Without(h, id) <==> r in h && r.id != id
  {
    if h != [] {
      WithoutMembers(h[1..], id, r);
      assert r in h <==> r == h[0] || r in h[1..];
    }
  }

  /** Filtering takes out exactly the filtered id from the ids of the history. */
  lemma {:induction false} WithoutIds(h: seq<Record>, id: int)
    ensures Ids(Without(h, id)) == Ids(h) - {id}
  {
    if h != [] {
      WithoutIds(h[1..], id);
    }
  }

  /** Filtering keeps ids unique. */
  lemma {:induction false} WithoutUnique(h: seq<Record>, id: int)
    requires IdsUnique(h)
    ensures IdsUnique(Without(h, id))
  {
    if h != [] {
      WithoutUnique(h[1..], id);
      WithoutIds(h[1..], id);
    }
  }

  /**
    When ids are unique, deleting the record at position k lowers the count of
    legendary records by one exactly when that record is legendary.
  */
  lemma {:induction false} EfsanesWithout(h: seq<Record>, k: nat)
    requires IdsUnique(h) && k < |h|
    ensures Efsanes(h) == Efsanes(Without(h, h[k].id)) + (if h[k].key == Efsane then 1 else 0)
  {
    var id, t := h[k].id, h[1..];
    if k == 0 {
      WithoutAbsent(t, id);
    } else {
      assert h[0].id != id by {
        IdsContains(t, k - 1);
      }
      assert h[k] == t[k - 1];
      EfsanesWithout(t, k - 1);
      EfsanesCons(h[0], Without(t, id));
    }
  }

  /** The count of a history with one record in front of it. */
  lemma EfsanesCons(r: Record, t: seq<Record>)
    ensures Efsanes([r] + t) == (if r.key == Efsane then 1 else 0) + Efsanes(t)
  {
    assert ([r] + t)[1..] == t;
  }

  /** Putting the removed record back at the head gives a permutation of the original. */
  lemma RestoreIsPermutation(h: seq<Record>, k: nat)
    requires k < |h|
    ensures multiset([h[k]] + (h[..k] + h[k + 1..])) == multiset(h)
  {
    assert h == h[..k] + [h[k]] + h[k + 1..];
  }

  /** Deleting a record with a duplicated id can remove more than one legendary day. */
  lemma DuplicateIdsRemoveTwo()
    ensures var r := Record(1, "", 0, "Efsane", Efsane, "");
      Efsanes([r, r]) == 2 && Without([r, r], 1) == []
  {
  }
}

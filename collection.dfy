/** The list updates the form handlers apply to the collection once the
    store has accepted a change: replace-by-`_id` after an update,
    remove-by-`_id` after a delete, and the lookup behind "edit". */
module Collection {
  import opened Records
  import opened Seqs

  predicate HasId(apps: seq<Application>, id: string) {
    exists i | 0 <= i < |apps| :: apps[i].id == Some(id)
  }

  /** No two records of the collection carry the same store-assigned id. */
  predicate UniqueIds(apps: seq<Application>) {
    forall i, j | 0 <= i < j < |apps| :: apps[i].id.Some? ==> apps[i].id != apps[j].id
  }

  /** `apps.find(app => app._id === id)`, as the position of the first match. */
  function FirstIndexOf(apps: seq<Application>, id: string): (k: nat)
    requires HasId(apps, id)
    ensures k < |apps| && apps[k].id == Some(id)
    ensures forall j | 0 <= j < k :: apps[j].id != Some(id)
  {
    if apps[0].id == Some(id) then 0
    else
      assert HasId(apps[1..], id) by {
        var i :| 0 <= i < |apps| && apps[i].id == Some(id);
        assert apps[1..][i - 1].id == Some(id);
      }
      1 + FirstIndexOf(apps[1..], id)
  }

  /** `apps.map(app => app._id === id ? d : app)`. */
  function ReplaceById(apps: seq<Application>, id: string, d: Application): (r: seq<Application>)
    ensures |r| == |apps|
    ensures forall i | 0 <= i < |apps| && apps[i].id == Some(id) :: r[i] == d
    ensures forall i | 0 <= i < |apps| && apps[i].id != Some(id) :: r[i] == apps[i]
  {
    if apps == [] then []
    else [if apps[0].id == Some(id) then d else apps[0]] + ReplaceById(apps[1..], id, d)
  }

  /** When no record carries the id, the update leaves the list as it was. */
  lemma ReplaceAbsent(apps: seq<Application>, id: string, d: Application)
    requires !HasId(apps, id)
    ensures ReplaceById(apps, id, d) == apps
  {
  }

  /** Replacing with a record that keeps the id keeps the ids unique. */
  lemma ReplaceKeepsUniqueIds(apps: seq<Application>, id: string, d: Application)
    requires UniqueIds(apps)
    requires d.id == Some(id)
    ensures UniqueIds(ReplaceById(apps, id, d))
  {
    var r := ReplaceById(apps, id, d);
    forall i, j | 0 <= i < j < |r| && r[i].id.Some?
      ensures r[i].id != r[j].id
    {
      assert r[i].id == apps[i].id && r[j].id == apps[j].id;
    }
  }

  /** `apps.filter(app => app._id !== id)`. */
  function RemoveById(apps: seq<Application>, id: string): (r: seq<Application>)
    ensures IsSubseq(r, apps)
    ensures !HasId(r, id)
  {
    if apps == [] then []
    else
      var rest := RemoveById(apps[1..], id);
      assert apps == [apps[0]] + apps[1..];
      if apps[0].id == Some(id) then
        SubseqCons(rest, apps[0], apps[1..]);
        rest
      else
        SubseqConsBoth(rest, apps[0], apps[1..]);
        assert !HasId([apps[0]] + rest, id) by {
          forall i | 0 <= i < |rest| + 1 ensures ([apps[0]] + rest)[i].id != Some(id) {
            if i > 0 { assert ([apps[0]] + rest)[i] == rest[i - 1]; }
          }
        }
        [apps[0]] + rest
  }

  /** Delete keeps every record with another id as often as it occurred and
      drops every record with this id. */
  lemma {:induction false} RemoveCounts(apps: seq<Application>, id: string, x: Application)
    ensures multiset(RemoveById(apps, id))[x] == if x.id == Some(id) then 0 else multiset(apps)[x]
  {
    if apps != [] {
      RemoveCounts(apps[1..], id, x);
      assert apps == [apps[0]] + apps[1..];
    }
  }

  /** Removing an id that is absent changes nothing. */
  lemma {:induction false} RemoveAbsent(apps: seq<Application>, id: string)
    requires !HasId(apps, id)
    ensures RemoveById(apps, id) == apps
  {
    if apps != [] {
      assert !HasId(apps[1..], id) by {
        forall i | 0 <= i < |apps[1..]| ensures apps[1..][i].id != Some(id) {
          assert apps[1..][i] == apps[i + 1];
        }
      }
      RemoveAbsent(apps[1..], id);
    }
  }

  /** With unique ids, deleting a present id removes exactly one record. */
  lemma {:induction false} RemoveUniqueShrinksByOne(apps: seq<Application>, id: string)
    requires UniqueIds(apps) && HasId(apps, id)
    ensures |RemoveById(apps, id)| == |apps| - 1
  {
    var tail := apps[1..];
    assert UniqueIds(tail) by {
      forall i, j | 0 <= i < j < |tail| && tail[i].id.Some? ensures tail[i].id != tail[j].id {
        assert tail[i] == apps[i + 1] && tail[j] == apps[j + 1];
      }
    }
    if apps[0].id == Some(id) {
      assert !HasId(tail, id) by {
        forall i | 0 <= i < |tail| ensures tail[i].id != Some(id) {
          assert tail[i] == apps[i + 1];
        }
      }
      RemoveAbsent(tail, id);
    } else {
      assert HasId(tail, id) by {
        var i :| 0 <= i < |apps| && apps[i].id == Some(id);
        assert tail[i - 1] == apps[i];
      }
      RemoveUniqueShrinksByOne(tail, id);
    }
  }

  /** Deleting keeps the ids unique (it only drops records). */
  lemma RemoveKeepsUniqueIds(apps: seq<Application>, id: string)
    requires UniqueIds(apps)
    ensures UniqueIds(RemoveById(apps, id))
  {
    SubseqKeepsUniqueIds(RemoveById(apps, id), apps);
  }

  lemma {:induction false} SubseqKeepsUniqueIds(a: seq<Application>, b: seq<Application>)
    requires IsSubseq(a, b) && UniqueIds(b)
    ensures UniqueIds(a)
    decreases |b|
  {
    if a != [] {
      assert UniqueIds(b[1..]) by {
        forall i, j | 0 <= i < j < |b[1..]| && b[1..][i].id.Some? ensures b[1..][i].id != b[1..][j].id {
          assert b[1..][i] == b[i + 1] && b[1..][j] == b[j + 1];
        }
      }
      if a[0] == b[0] && IsSubseq(a[1..], b[1..]) {
        SubseqKeepsUniqueIds(a[1..], b[1..]);
        SubseqMembers(a[1..], b[1..]);
        forall i, j | 0 <= i < j < |a| && a[i].id.Some? ensures a[i].id != a[j].id {
          if i == 0 {
            assert a[j] == a[1..][j - 1];
            assert a[j] in b[1..];
            var m :| 0 <= m < |b[1..]| && b[1..][m] == a[j];
            assert b[m + 1] == a[j];
          } else {
            assert a[i] == a[1..][i - 1] && a[j] == a[1..][j - 1];
          }
        }
      } else {
        SubseqKeepsUniqueIds(a, b[1..]);
      }
    }
  }

  lemma {:induction false} SubseqMembers<T>(a: seq<T>, b: seq<T>)
    requires IsSubseq(a, b)
    ensures forall x | x in a :: x in b
    decreases |b|
  {
    if a != [] {
      if a[0] == b[0] && IsSubseq(a[1..], b[1..]) {
        SubseqMembers(a[1..], b[1..]);
        assert a == [a[0]] + a[1..];
      } else {
        SubseqMembers(a, b[1..]);
      }
    }
  }

  /** Appending a record whose id is new keeps the ids unique. */
  lemma AppendKeepsUniqueIds(apps: seq<Application>, a: Application)
    requires UniqueIds(apps)
    requires a.id.Some? ==> !HasId(apps, a.id.value)
    ensures UniqueIds(apps + [a])
  {
  }
}

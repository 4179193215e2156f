/**
 * Operations on the id-keyed entry lists of a resume (experience, education,
 * skills, projects). The reducer uses `ReplaceById` for `Array.prototype.map`
 * with an id test and `RemoveById` for `Array.prototype.filter` with an id
 * test; the form uses `Find` for `Array.prototype.find`. Every operation is
 * generic in the entry type and takes the entry's `id` accessor as `key`.
 */
module EntryLists {
  import opened Wrappers

  /** Some entry of `xs` carries `id`. */
  ghost predicate HasId<T>(xs: seq<T>, id: string, key: T -> string) {
    exists i :: 0 <= i < |xs| && key(xs[i]) == id
  }

  /** No two entries of `xs` share an id. */
  ghost predicate UniqueIds<T>(xs: seq<T>, key: T -> string) {
    forall i, j :: 0 <= i < j < |xs| ==> key(xs[i]) != key(xs[j])
  }

  /** `xs.map(x => key(x) === key(p) ? p : x)`. */
  function ReplaceById<T>(xs: seq<T>, p: T, key: T -> string): (r: seq<T>)
    ensures |r| == |xs|
    ensures forall i :: 0 <= i < |xs| ==> r[i] == (if key(xs[i]) == key(p) then p else xs[i])
  {
    if xs == [] then []
    else [if key(xs[0]) == key(p) then p else xs[0]] + ReplaceById(xs[1..], p, key)
  }

  /** `xs.filter(x => key(x) !== id)`. */
  function RemoveById<T>(xs: seq<T>, id: string, key: T -> string): (r: seq<T>)
    ensures |r| <= |xs|
    ensures forall i :: 0 <= i < |r| ==> key(r[i]) != id
    ensures forall i :: 0 <= i < |r| ==> r[i] in xs
  {
    if xs == [] then []
    else (if key(xs[0]) == id then [] else [xs[0]]) + RemoveById(xs[1..], id, key)
  }

  /** The index `Array.prototype.findIndex` returns: the first entry carrying `id`. */
  function FirstIndex<T>(xs: seq<T>, id: string, key: T -> string): (r: Option<nat>)
    ensures r.None? <==> !HasId(xs, id, key)
    ensures r.Some? ==> r.value < |xs| && key(xs[r.value]) == id
    ensures r.Some? ==> forall j :: 0 <= j < r.value ==> key(xs[j]) != id
  {
    if xs == [] then None
    else if key(xs[0]) == id then Some(0)
    else match FirstIndex(xs[1..], id, key)
      case None => None
      case Some(k) => Some(k + 1)
  }

  /** `xs.find(x => key(x) === id)`: the first entry carrying `id`, if any. */
  function Find<T>(xs: seq<T>, id: string, key: T -> string): (r: Option<T>)
    ensures r.None? <==> !HasId(xs, id, key)
    ensures r.Some? ==> key(r.value) == id
    ensures r.Some? ==> exists i :: 0 <= i < |xs| && xs[i] == r.value
                           && forall j :: 0 <= j < i ==> key(xs[j]) != id
  {
    match FirstIndex(xs, id, key)
    case None => None
    case Some(i) => Some(xs[i])
  }

  // ---------------------------------------------------------------------------
  // Update by id

  /** With no entry carrying the payload's id, the update leaves the list as it was. */
  lemma ReplaceMissingIsIdentity<T>(xs: seq<T>, p: T, key: T -> string)
    requires !HasId(xs, key(p), key)
    ensures ReplaceById(xs, p, key) == xs
  {
    var r := ReplaceById(xs, p, key);
    forall i | 0 <= i < |xs| ensures r[i] == xs[i] {
      assert key(xs[i]) != key(p);
    }
  }

  /** With unique ids, the update replaces exactly the one entry carrying the payload's id. */
  lemma ReplaceUniqueAt<T>(xs: seq<T>, p: T, key: T -> string, i: nat)
    requires UniqueIds(xs, key)
    requires i < |xs| && key(xs[i]) == key(p)
    ensures ReplaceById(xs, p, key) == xs[i := p]
  {
    var r := ReplaceById(xs, p, key);
    forall j | 0 <= j < |xs| ensures r[j] == xs[i := p][j] {
      if j < i { assert key(xs[j]) != key(xs[i]); }
      else if j > i { assert key(xs[i]) != key(xs[j]); }
    }
  }

  /** The update keeps whether one given id is present. */
  lemma ReplaceKeepsId<T>(xs: seq<T>, p: T, key: T -> string, id: string)
    ensures HasId(ReplaceById(xs, p, key), id, key) <==> HasId(xs, id, key)
  {
    var r := ReplaceById(xs, p, key);
    if HasId(r, id, key) {
      var i :| 0 <= i < |r| && key(r[i]) == id;
      assert key(xs[i]) == id;
    }
    if HasId(xs, id, key) {
      var i :| 0 <= i < |xs| && key(xs[i]) == id;
      assert key(r[i]) == id;
    }
  }

  /** The update keeps the set of ids and, with it, their uniqueness. */
  lemma ReplaceKeepsIds<T>(xs: seq<T>, p: T, key: T -> string)
    ensures forall i :: 0 <= i < |xs| ==> key(ReplaceById(xs, p, key)[i]) == key(xs[i])
    ensures forall id :: HasId(ReplaceById(xs, p, key), id, key) <==> HasId(xs, id, key)
    ensures UniqueIds(xs, key) ==> UniqueIds(ReplaceById(xs, p, key), key)
  {
    var r := ReplaceById(xs, p, key);
    assert forall i :: 0 <= i < |xs| ==> key(r[i]) == key(xs[i]);
    forall id ensures HasId(r, id, key) <==> HasId(xs, id, key) {
      if HasId(r, id, key) {
        var i :| 0 <= i < |r| && key(r[i]) == id;
        assert key(xs[i]) == id;
      }
      if HasId(xs, id, key) {
        var i :| 0 <= i < |xs| && key(xs[i]) == id;
        assert key(r[i]) == id;
      }
    }
  }

  // ---------------------------------------------------------------------------
  // Delete by id

  /** Removal distributes over concatenation: the kept entries keep their relative order. */
  lemma {:induction false} RemoveDistributes<T>(a: seq<T>, b: seq<T>, id: string, key: T -> string)
    ensures RemoveById(a + b, id, key) == RemoveById(a, id, key) + RemoveById(b, id, key)
  {
    if a == [] {
      assert a + b == b;
    } else {
      assert (a + b)[1..] == a[1..] + b;
      assert (a + b)[0] == a[0];
      RemoveDistributes(a[1..], b, id, key);
      var h := if key(a[0]) == id then [] else [a[0]];
      calc {
        RemoveById(a + b, id, key);
        h + RemoveById(a[1..] + b, id, key);
        h + (RemoveById(a[1..], id, key) + RemoveById(b, id, key));
        (h + RemoveById(a[1..], id, key)) + RemoveById(b, id, key);
      }
    }
  }

  /** Removing from a one-entry list keeps it exactly when its id differs. */
  lemma RemoveSingleton<T>(x: T, id: string, key: T -> string)
    ensures RemoveById([x], id, key) == if key(x) == id then [] else [x]
  {
    assert [x][1..] == [];
  }

  /** Removing an id no entry carries leaves the list as it was. */
  lemma {:induction false} RemoveAbsentIsIdentity<T>(xs: seq<T>, id: string, key: T -> string)
    requires !HasId(xs, id, key)
    ensures RemoveById(xs, id, key) == xs
  {
    if xs != [] {
      assert key(xs[0]) != id;
      forall j | 0 <= j < |xs[1..]| ensures key(xs[1..][j]) != id {
        assert xs[1..][j] == xs[j + 1];
      }
      RemoveAbsentIsIdentity(xs[1..], id, key);
      assert xs == [xs[0]] + xs[1..];
    }
  }

  /** Deleting the same id twice is the same as deleting it once. */
  lemma RemoveIdempotent<T>(xs: seq<T>, id: string, key: T -> string)
    ensures RemoveById(RemoveById(xs, id, key), id, key) == RemoveById(xs, id, key)
  {
    var r := RemoveById(xs, id, key);
    assert !HasId(r, id, key);
    RemoveAbsentIsIdentity(r, id, key);
  }

  /** With unique ids, the entries other than the one at `i` carry a different id. */
  lemma UniqueElsewhere<T>(xs: seq<T>, key: T -> string, i: nat, lo: nat, hi: nat)
    requires UniqueIds(xs, key)
    requires i < |xs| && lo <= hi <= |xs| && (hi <= i || i < lo)
    ensures !HasId(xs[lo..hi], key(xs[i]), key)
  {
    var part := xs[lo..hi];
    forall j | 0 <= j < |part| ensures key(part[j]) != key(xs[i]) {
      assert part[j] == xs[lo + j];
      if lo + j < i { assert key(xs[lo + j]) != key(xs[i]); }
      else { assert key(xs[i]) != key(xs[lo + j]); }
    }
  }

  /** With unique ids, deleting a present id removes exactly that one entry. */
  lemma {:induction false} RemoveUniquePresent<T>(xs: seq<T>, id: string, key: T -> string, i: nat)
    requires UniqueIds(xs, key)
    requires i < |xs| && key(xs[i]) == id
    ensures RemoveById(xs, id, key) == xs[..i] + xs[i + 1..]
  {
    var before, after := xs[..i], xs[i + 1..];
    calc {
      RemoveById(xs, id, key);
      { assert xs == before + ([xs[i]] + after); }
      RemoveById(before + ([xs[i]] + after), id, key);
      { RemoveDistributes(before, [xs[i]] + after, id, key); }
      RemoveById(before, id, key) + RemoveById([xs[i]] + after, id, key);
      { RemoveDistributes([xs[i]], after, id, key); RemoveSingleton(xs[i], id, key); }
      RemoveById(before, id, key) + RemoveById(after, id, key);
      { UniqueElsewhere(xs, key, i, 0, i);
        assert xs[0..i] == before;
        RemoveAbsentIsIdentity(before, id, key); }
      before + RemoveById(after, id, key);
      { UniqueElsewhere(xs, key, i, i + 1, |xs|);
        assert xs[i + 1..|xs|] == after;
        RemoveAbsentIsIdentity(after, id, key); }
      before + after;
    }
  }

  /** Hence, with unique ids, deleting a present id shortens the list by exactly one. */
  lemma {:induction false} RemoveUniquePresentLength<T>(xs: seq<T>, id: string, key: T -> string, i: nat)
    requires UniqueIds(xs, key)
    requires i < |xs| && key(xs[i]) == id
    ensures |RemoveById(xs, id, key)| == |xs| - 1
  {
    RemoveUniquePresent(xs, id, key, i);
    assert |xs[..i] + xs[i + 1..]| == |xs| - 1;
  }

  /** A sublist of a list with unique ids keeps unique ids. */
  lemma {:induction false} RemoveKeepsUnique<T>(xs: seq<T>, id: string, key: T -> string)
    requires UniqueIds(xs, key)
    ensures UniqueIds(RemoveById(xs, id, key), key)
  {
    if xs != [] {
      var rest := RemoveById(xs[1..], id, key);
      assert UniqueIds(xs[1..], key) by {
        forall i, j | 0 <= i < j < |xs[1..]| ensures key(xs[1..][i]) != key(xs[1..][j]) {
          assert key(xs[i + 1]) != key(xs[j + 1]);
        }
      }
      RemoveKeepsUnique(xs[1..], id, key);
      if key(xs[0]) != id {
        forall j | 0 <= j < |rest| ensures key(xs[0]) != key(rest[j]) {
          assert rest[j] in xs[1..];
          var m :| 0 <= m < |xs[1..]| && xs[1..][m] == rest[j];
          assert key(xs[0]) != key(xs[m + 1]);
        }
        assert RemoveById(xs, id, key) == [xs[0]] + rest;
      } else {
        assert RemoveById(xs, id, key) == rest;
      }
    }
  }

  // ---------------------------------------------------------------------------
  // Add

  /** Appending an entry whose id is fresh keeps ids unique and makes that id present. */
  lemma AppendFreshKeepsUnique<T>(xs: seq<T>, x: T, key: T -> string)
    requires UniqueIds(xs, key) && !HasId(xs, key(x), key)
    ensures UniqueIds(xs + [x], key)
    ensures HasId(xs + [x], key(x), key)
  {
    var r := xs + [x];
    forall i, j | 0 <= i < j < |r| ensures key(r[i]) != key(r[j]) {
      if j < |xs| {
        assert r[i] == xs[i] && r[j] == xs[j];
      } else {
        assert r[i] == xs[i] && r[j] == x;
      }
    }
    assert r[|xs|] == x;
  }

  /** Deleting the id of an entry that was just appended with a fresh id restores the list. */
  lemma RemoveAfterFreshAppend<T>(xs: seq<T>, x: T, key: T -> string)
    requires !HasId(xs, key(x), key)
    ensures RemoveById(xs + [x], key(x), key) == xs
  {
    RemoveDistributes(xs, [x], key(x), key);
    RemoveSingleton(x, key(x), key);
    RemoveAbsentIsIdentity(xs, key(x), key);
  }
}

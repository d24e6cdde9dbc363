/**
 * The sequence operations that MongoDB cursors and the models' update
 * helpers perform: dropping entries, sorting by a numeric key, skip/limit.
 */
module Collections {

  /** The elements of `s` that `drop` does not select, in their original order. */
  function Without<T>(s: seq<T>, drop: T -> bool): (r: seq<T>)
    ensures |r| <= |s|
    ensures forall i :: 0 <= i < |r| ==> r[i] in s && !drop(r[i])
    ensures forall i :: 0 <= i < |s| && !drop(s[i]) ==> s[i] in r
  {
    if s == [] then []
    else if drop(s[0]) then Without(s[1..], drop)
    else [s[0]] + Without(s[1..], drop)
  }

  lemma {:induction false} WithoutAppend<T>(s: seq<T>, x: T, drop: T -> bool)
    ensures Without(s + [x], drop) == Without(s, drop) + (if drop(x) then [] else [x])
  {
    if s == [] {
      assert s + [x] == [x];
    } else {
      assert (s + [x])[1..] == s[1..] + [x];
      WithoutAppend(s[1..], x, drop);
    }
  }

  /** Nothing is removed exactly when `drop` selects no entry. */
  lemma {:induction false} WithoutKeepsAll<T>(s: seq<T>, drop: T -> bool)
    ensures Without(s, drop) == s <==> forall i :: 0 <= i < |s| ==> !drop(s[i])
  {
    if s != [] {
      WithoutKeepsAll(s[1..], drop);
      if drop(s[0]) {
        assert |Without(s[1..], drop)| < |s|;
      }
    }
  }

  /**
   * `Object.keys(updateData).forEach(k => { if (invalid(k)) delete updateData[k] })`:
   * the entries of an update document that survive the deletion loop.
   */
  method DeleteKeys<T>(updateData: seq<T>, invalid: T -> bool) returns (kept: seq<T>)
    ensures kept == Without(updateData, invalid)
  {
    kept := [];
    var i := 0;
    while i < |updateData|
      invariant 0 <= i <= |updateData|
      invariant kept == Without(updateData[..i], invalid)
    {
      assert updateData[..i + 1] == updateData[..i] + [updateData[i]];
      WithoutAppend(updateData[..i], updateData[i], invalid);
      if !invalid(updateData[i]) {
        kept := kept + [updateData[i]];
      }
      i := i + 1;
    }
    assert updateData[..i] == updateData;
  }

  ghost predicate Ascending<T>(s: seq<T>, key: T -> int) {
    forall i, j :: 0 <= i < j < |s| ==> key(s[i]) <= key(s[j])
  }

  /** Places `x` after every element whose key is not greater than its own. */
  function InsertByKey<T>(x: T, s: seq<T>, key: T -> int): (r: seq<T>)
    requires Ascending(s, key)
    ensures Ascending(r, key)
    ensures multiset(r) == multiset(s) + multiset{x}
    ensures |r| == |s| + 1
    ensures r[0] == x || (|s| > 0 && r[0] == s[0])
  {
    if s == [] then [x]
    else if key(x) < key(s[0]) then [x] + s
    else
      assert s == [s[0]] + s[1..];
      [s[0]] + InsertByKey(x, s[1..], key)
  }

  /** A stable ascending sort: what `.sort({ field: 1 })` yields, ties in stored order. */
  function SortBy<T>(s: seq<T>, key: T -> int): (r: seq<T>)
    ensures Ascending(r, key)
    ensures multiset(r) == multiset(s)
    ensures |r| == |s|
  {
    if s == [] then []
    else
      var n := |s| - 1;
      assert s == s[..n] + [s[n]];
      InsertByKey(s[n], SortBy(s[..n], key), key)
  }

  /** Two orderings of the same entries hold the same elements. */
  lemma SameElements<T>(a: seq<T>, b: seq<T>)
    requires multiset(a) == multiset(b)
    ensures forall i :: 0 <= i < |a| ==> a[i] in b
  {
    forall i | 0 <= i < |a| ensures a[i] in b {
      assert a[i] in multiset(a);
    }
  }

  /**
   * A cursor after `.skip(skip)` and `.limit(limit)`; the source applies each
   * only when it is truthy, so zero stands for "not given".
   */
  function Window<T>(s: seq<T>, skip: nat, limit: nat): (r: seq<T>)
    ensures limit > 0 ==> |r| <= limit
    ensures skip >= |s| <==> r == []
    ensures skip < |s| && (limit == 0 || skip + limit >= |s|) ==> |r| == |s| - skip
    ensures skip < |s| && limit > 0 && skip + limit <= |s| ==> |r| == limit
    ensures forall i :: 0 <= i < |r| ==> skip + i < |s| && r[i] == s[skip + i]
    ensures forall i :: 0 <= i < |r| ==> r[i] in s
  {
    var rest := if skip < |s| then s[skip..] else [];
    if limit > 0 && limit < |rest| then rest[..limit] else rest
  }

  /** A window with no skip and no limit is the whole sequence. */
  lemma WindowWhole<T>(s: seq<T>)
    ensures Window(s, 0, 0) == s
  {
  }

  /** Skipping and then limiting, as two cursor steps, is one window. */
  lemma WindowSkipThenLimit<T>(s: seq<T>, skip: nat, limit: nat)
    ensures Window(Window(s, skip, 0), 0, limit) == Window(s, skip, limit)
  {
    WindowWhole(s);
  }

  lemma WindowKeepsOrder<T>(s: seq<T>, key: T -> int, skip: nat, limit: nat)
    requires Ascending(s, key)
    ensures Ascending(Window(s, skip, limit), key)
  {
    var r := Window(s, skip, limit);
    forall i, j | 0 <= i < j < |r| ensures key(r[i]) <= key(r[j]) {
      assert r[i] == s[skip + i] && r[j] == s[skip + j];
    }
  }

  /** MongoDB's `$addToSet` on an array field: appends `x` unless it is already there. */
  function AddToSet<T(==,!new)>(s: seq<T>, x: T): (r: seq<T>)
    ensures x in r
    ensures forall y :: y in r <==> y in s || y == x
    ensures x in s ==> r == s
    ensures x !in s ==> |r| == |s| + 1
  {
    if x in s then s else s + [x]
  }

  /** MongoDB's `$pull` with an equality condition: removes every occurrence of `x`. */
  function Pull<T(==,!new)>(s: seq<T>, x: T): (r: seq<T>)
    ensures x !in r
    ensures forall y :: y != x ==> (y in r <==> y in s)
    ensures x !in s ==> r == s
  {
    if s == [] then []
    else if s[0] == x then Pull(s[1..], x)
    else [s[0]] + Pull(s[1..], x)
  }

  /** Pulling what was just added to a sequence that lacked it restores the sequence. */
  lemma {:induction false} PullUndoesAddToSet<T(!new)>(s: seq<T>, x: T)
    requires x !in s
    ensures Pull(AddToSet(s, x), x) == s
  {
    if s == [] {
      assert AddToSet(s, x) == [x];
    } else {
      assert AddToSet(s, x)[1..] == AddToSet(s[1..], x);
      PullUndoesAddToSet(s[1..], x);
    }
  }

  ghost predicate NoDuplicates<T>(s: seq<T>) {
    forall i, j :: 0 <= i < j < |s| ==> s[i] != s[j]
  }

  ghost function Elems<T>(s: seq<T>): set<T> {
    set i | 0 <= i < |s| :: s[i]
  }

  lemma ElemsAppend<T>(s: seq<T>, x: T)
    ensures Elems(s + [x]) == Elems(s) + {x}
  {
    var t := s + [x];
    forall y | y in Elems(t) ensures y in Elems(s) + {x} {
      var i :| 0 <= i < |t| && t[i] == y;
      if i < |s| {
        assert s[i] == y;
      }
    }
    forall y | y in Elems(s) ensures y in Elems(t) {
      var i :| 0 <= i < |s| && s[i] == y;
      assert t[i] == y;
    }
    assert t[|s|] == x;
  }

  lemma AddToSetKeepsDistinct<T(!new)>(s: seq<T>, x: T)
    requires NoDuplicates(s)
    ensures NoDuplicates(AddToSet(s, x))
  {
  }

  /** A sequence without repetitions has as many distinct elements as entries. */
  lemma {:induction false} DistinctCardinality<T>(s: seq<T>)
    requires NoDuplicates(s)
    ensures |Elems(s)| == |s|
  {
    if s != [] {
      var n := |s| - 1;
      assert s == s[..n] + [s[n]];
      DistinctCardinality(s[..n]);
      assert Elems(s) == Elems(s[..n]) + {s[n]};
      assert s[n] !in Elems(s[..n]);
    }
  }
}

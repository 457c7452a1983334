/** Keyset pagination over an append-only ledger (src/services/generation_read.py:142-330). */
module Pagination {
  import opened Wrappers

  // ---------- the order of rows ----------

  datatype Key = Key(created: int, id: int)

  /** (created_at, uuid) order. */
  predicate Below(a: Key, b: Key) {
    a.created < b.created || (a.created == b.created && a.id < b.id)
  }

  predicate IsTop(k: Key, s: set<Key>) {
    k in s && forall x | x in s :: x == k || Below(x, k)
  }

  lemma {:induction false} FindTopKey(s: set<Key>) returns (k: Key)
    requires s != {}
    ensures IsTop(k, s)
  {
    var y := Pick(s);
    var rest := s - {y};
    k := y;
    if rest != {} {
      var t := FindTopKey(rest);
      k := if Below(y, t) then t else y;
    }
    forall x | x in s
      ensures x == k || Below(x, k)
    {
      assert x == y || x in rest;
    }
  }

  lemma HasTopKey(s: set<Key>)
    requires s != {}
    ensures exists k :: IsTop(k, s)
  {
    var k := FindTopKey(s);
  }

  function TopKey(s: set<Key>): (k: Key)
    requires s != {}
    ensures IsTop(k, s)
  {
    HasTopKey(s);
    var k :| IsTop(k, s);
    k
  }

  predicate Descending(keys: seq<Key>) {
    forall i, j | 0 <= i < j < |keys| :: Below(keys[j], keys[i])
  }

  function Members(keys: seq<Key>): set<Key> {
    set k | k in keys
  }

  /** ORDER BY created_at DESC, uuid DESC. */
  function Sorted(s: set<Key>): (keys: seq<Key>)
    ensures Descending(keys) && |keys| == |s|
    ensures forall k :: k in keys <==> k in s
  {
    if s == {} then []
    else
      var top := TopKey(s);
      var rest := Sorted(s - {top});
      assert forall k | k in rest :: Below(k, top);
      [top] + rest
  }

  // ---------- one page ----------

  predicate After(k: Key, after: Option<Key>) {
    after.Some? ==> Below(k, after.value)
  }

  function Eligible(s: set<Key>, after: Option<Key>): set<Key> {
    set k | k in s && After(k, after)
  }

  function Take<T>(keys: seq<T>, n: nat): seq<T> {
    if |keys| <= n then keys else keys[..n]
  }

  /** LIMIT limit + 1, of which the last is only evidence that there is more. */
  function PageOf(s: set<Key>, limit: nat, after: Option<Key>): (seq<Key>, bool) {
    var fetched := Take(Sorted(Eligible(s, after)), limit + 1);
    (Take(fetched, limit), |fetched| > limit)
  }

  /** Pages over a ledger that may have grown from one page to the next; true when the end was reached. */
  function Pages(sets: seq<set<Key>>, limit: nat, after: Option<Key>): (seq<Key>, bool)
    decreases |sets|
  {
    if sets == [] then ([], false)
    else
      var (page, more) := PageOf(sets[0], limit, after);
      if !more || page == [] then (page, true)
      else
        var (rest, finished) := Pages(sets[1..], limit, Some(page[|page| - 1]));
        (page + rest, finished)
  }

  ghost predicate Growing(sets: seq<set<Key>>) {
    forall i, j | 0 <= i <= j < |sets| :: sets[i] <= sets[j]
  }

  /** A page is the topmost `limit` eligible keys: everything it passes over lies below all of it. */
  lemma PageMeaning(s: set<Key>, limit: nat, after: Option<Key>)
    ensures var (page, more) := PageOf(s, limit, after);
      && Descending(page) && |page| <= limit
      && (forall k | k in page :: k in s && After(k, after))
      && (forall k | k in s && After(k, after) && k !in page :: more && forall p | p in page :: Below(k, p))
      && (more ==> |page| == limit && exists k :: k in s && After(k, after) && k !in page)
  {
    var sorted := Sorted(Eligible(s, after));
    var (page, more) := PageOf(s, limit, after);
    assert page == Take(sorted, limit);
    assert forall k | k in page :: k in sorted;
    forall k | k in s && After(k, after) && k !in page
      ensures more && forall p | p in page :: Below(k, p)
    {
      assert k in sorted;
    }
    if more {
      var k := sorted[limit];
      assert k in sorted && k !in page;
    }
  }

  lemma DescendingHasNoRepeats(keys: seq<Key>)
    requires Descending(keys)
    ensures |Members(keys)| == |keys|
  {
    if keys != [] {
      var rest := keys[1..];
      DescendingHasNoRepeats(rest);
      assert Members(keys) == Members(rest) + {keys[0]};
    }
  }

  lemma SubsetIsSmaller<T>(a: set<T>, b: set<T>)
    requires a <= b
    ensures |a| <= |b|
  {
    assert b == a + (b - a);
  }

  lemma JoinDescending(page: seq<Key>, rest: seq<Key>)
    requires Descending(page) && Descending(rest) && page != []
    requires forall k | k in rest :: Below(k, page[|page| - 1])
    ensures Descending(page + rest)
  {
    var all := page + rest;
    forall i, j | 0 <= i < j < |all|
      ensures Below(all[j], all[i])
    {
      if i < |page| <= j {
        assert all[j] in rest;
        assert i == |page| - 1 || Below(page[|page| - 1], page[i]);
      }
    }
  }

  /** Following cursors lists, in strictly descending order and so at most once, only keys of the ledger,
      and once the end is reached every key that was there when the listing began. */
  lemma {:induction false} PagesComplete(sets: seq<set<Key>>, limit: nat, after: Option<Key>)
    requires limit >= 1 && sets != [] && Growing(sets)
    ensures var (keys, finished) := Pages(sets, limit, after);
      && Descending(keys)
      && (forall k | k in keys :: k in sets[|sets| - 1] && After(k, after))
      && (finished ==> forall k | k in sets[0] && After(k, after) :: k in keys)
      && (!finished ==> |keys| == |sets| * limit && exists k :: k in sets[|sets| - 1] && After(k, after) && k !in keys)
    decreases |sets|
  {
    hide PageOf;
    PageMeaning(sets[0], limit, after);
    var (page, more) := PageOf(sets[0], limit, after);
    assert sets[0] <= sets[|sets| - 1];
    if more {
      var last := page[|page| - 1];
      if |sets| == 1 {
        assert Pages(sets[1..], limit, Some(last)) == ([], false);
        assert page + [] == page;
      } else {
        assert sets[1..][|sets| - 2] == sets[|sets| - 1];
        PagesComplete(sets[1..], limit, Some(last));
        var (rest, finished) := Pages(sets[1..], limit, Some(last));
        JoinDescending(page, rest);
        PageThenRest(sets, page, after);
      }
    }
  }

  lemma PageThenRest(sets: seq<set<Key>>, page: seq<Key>, after: Option<Key>)
    requires |sets| >= 2 && Growing(sets) && page != [] && Descending(page)
    requires forall k | k in page :: After(k, after)
    requires forall k | k in sets[0] && After(k, after) && k !in page :: forall p | p in page :: Below(k, p)
    ensures var last := page[|page| - 1];
      && (forall k | k in sets[0] && After(k, after) :: k in page || (k in sets[1] && Below(k, last)))
      && (forall k | Below(k, last) :: After(k, after) && k !in page)
  {
    assert sets[0] <= sets[1];
    var last := page[|page| - 1];
    assert last in page;
    assert forall p | p in page :: p == last || Below(last, p);
  }

  /** The listing ends: n pages can only fall short while the ledger holds more than n full pages. */
  lemma PagesEnd(sets: seq<set<Key>>, limit: nat)
    requires limit >= 1 && sets != [] && Growing(sets) && |sets[|sets| - 1]| <= |sets| * limit
    ensures Pages(sets, limit, None).1
  {
    PagesComplete(sets, limit, None);
    var (keys, finished) := Pages(sets, limit, None);
    if !finished {
      var all := sets[|sets| - 1];
      var k :| k in all && k !in keys;
      DescendingHasNoRepeats(keys);
      SubsetIsSmaller(Members(keys) + {k}, all);
    }
  }
}

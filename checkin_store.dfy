/** The client-side check-in store: the list of check-ins kept in time order
    and the flag that says whether the persisted copy has been loaded. */
module CheckInStore {
  import opened Basics
  import Risk

  /** A stored check-in. `createdAt` is the instant `+new Date(createdAt)`
      gives for the ISO string the client writes, in milliseconds. */
  datatype CheckIn = CheckIn(
    id: string,
    createdAt: int,
    sleepHours: real,
    socialActivity: Risk.SocialActivity,
    screenTimeHours: real,
    moodRating: Option<real>)

  /** Non-decreasing by creation time. */
  predicate Sorted(s: seq<CheckIn>)
  {
    forall i :: 0 < i < |s| ==> s[i - 1].createdAt <= s[i].createdAt
  }

  /** Where a stable sort puts `c` among `s`: after every entry that is not
      later than `c`. */
  function InsertPoint(s: seq<CheckIn>, c: CheckIn): (k: nat)
    ensures k <= |s|
    ensures forall i :: k <= i < |s| ==> s[i].createdAt > c.createdAt
    ensures k > 0 ==> s[k - 1].createdAt <= c.createdAt
  {
    if s == [] then 0
    else if s[|s| - 1].createdAt <= c.createdAt then |s|
    else InsertPoint(s[..|s| - 1], c)
  }

  /** One step of a stable insertion sort: `c` placed at its insert point. */
  function Insert(s: seq<CheckIn>, c: CheckIn): seq<CheckIn>
  {
    var k := InsertPoint(s, c);
    s[..k] + [c] + s[k..]
  }

  /** Inserting keeps every entry and adds exactly `c`. */
  lemma InsertKeepsEntries(s: seq<CheckIn>, c: CheckIn)
    ensures |Insert(s, c)| == |s| + 1
    ensures multiset(Insert(s, c)) == multiset(s) + multiset{c}
  {
    var k := InsertPoint(s, c);
    assert s == s[..k] + s[k..];
  }

  /** Inserting into an ordered list leaves it ordered. */
  lemma InsertKeepsOrder(s: seq<CheckIn>, c: CheckIn)
    requires Sorted(s)
    ensures Sorted(Insert(s, c))
  {
    var k := InsertPoint(s, c);
    var r := Insert(s, c);
    forall i | 0 < i < |r|
      ensures r[i - 1].createdAt <= r[i].createdAt
    {
      if i < k {
        assert r[i - 1] == s[i - 1] && r[i] == s[i];
      } else if i == k {
        assert r[i - 1] == s[k - 1] && r[i] == c;
      } else if i == k + 1 {
        assert r[i - 1] == c && r[i] == s[k];
      } else {
        assert r[i - 1] == s[i - 2] && r[i] == s[i - 1];
      }
    }
  }

  /** `Array.prototype.sort` with the comparator `a.createdAt - b.createdAt`:
      a stable sort by creation time. */
  function SortByTime(s: seq<CheckIn>): (r: seq<CheckIn>)
    ensures Sorted(r)
    ensures multiset(r) == multiset(s)
    ensures |r| == |s|
  {
    if s == [] then []
    else
      var init := s[..|s| - 1];
      assert s == init + [s[|s| - 1]];
      var sorted := SortByTime(init);
      InsertKeepsEntries(sorted, s[|s| - 1]);
      InsertKeepsOrder(sorted, s[|s| - 1]);
      Insert(sorted, s[|s| - 1])
  }

  /** The zustand store `useCheckInStore`. */
  class Store {
    var checkins: seq<CheckIn>
    var hasHydrated: bool

    constructor ()
      ensures checkins == [] && !hasHydrated
    {
      checkins := [];
      hasHydrated := false;
    }

    /** `addCheckIn`: append, then sort the whole list by creation time. */
    method AddCheckIn(c: CheckIn)
      modifies this
      ensures checkins == SortByTime(old(checkins) + [c])
      ensures hasHydrated == old(hasHydrated)
    {
      checkins := SortByTime(checkins + [c]);
    }

    /** `clearAll`. */
    method ClearAll()
      modifies this
      ensures checkins == [] && hasHydrated == old(hasHydrated)
    {
      checkins := [];
    }

    /** `setHasHydrated`. */
    method SetHasHydrated(value: bool)
      modifies this
      ensures hasHydrated == value && checkins == old(checkins)
    {
      hasHydrated := value;
    }

    /** The persisted list is loaded, then `onRehydrateStorage` raises the flag. */
    method Rehydrate(persisted: seq<CheckIn>)
      modifies this
      ensures checkins == persisted && hasHydrated
    {
      checkins := persisted;
      SetHasHydrated(true);
    }
  }

  // ---------------------------------------------------------------------------
  // What `addCheckIn` leaves behind.
  // ---------------------------------------------------------------------------

  /** Sorting a sorted list changes nothing. */
  lemma {:induction false} SortSortedIsIdentity(s: seq<CheckIn>)
    requires Sorted(s)
    ensures SortByTime(s) == s
  {
    if s != [] {
      var init := s[..|s| - 1];
      var c := s[|s| - 1];
      assert Sorted(init);
      SortSortedIsIdentity(init);
      assert InsertPoint(init, c) == |init|;
      assert Insert(init, c) == init + [c];
      assert s == init + [c];
    }
  }

  /** Adding to a list that is already in order (the only lists the store
      produces itself) puts the new check-in after every entry that is not
      later than it and before every later one; nothing else moves. */
  lemma AddToSorted(s: seq<CheckIn>, c: CheckIn)
    requires Sorted(s)
    ensures var k := InsertPoint(s, c);
      && SortByTime(s + [c]) == s[..k] + [c] + s[k..]
      && (forall i :: 0 <= i < k ==> s[i].createdAt <= c.createdAt)
      && (forall i :: k <= i < |s| ==> s[i].createdAt > c.createdAt)
  {
    var k := InsertPoint(s, c);
    assert SortByTime(s + [c]) == Insert(s, c) by {
      var t := s + [c];
      assert t[..|t| - 1] == s && t[|t| - 1] == c;
      SortSortedIsIdentity(s);
    }
    forall i | 0 <= i < k
      ensures s[i].createdAt <= c.createdAt
    {
      SortedPairwise(s, i, k - 1);
    }
  }

  /** In a sorted list every earlier entry is not later than every later one. */
  lemma {:induction false} SortedPairwise(s: seq<CheckIn>, i: int, j: int)
    requires Sorted(s) && 0 <= i <= j < |s|
    ensures s[i].createdAt <= s[j].createdAt
    decreases j - i
  {
    if i < j {
      SortedPairwise(s, i, j - 1);
    }
  }

  /** After `addCheckIn`: one more entry, the same entries plus the new one,
      in time order, and the last entry is the latest. */
  lemma AddCheckInResult(s: seq<CheckIn>, c: CheckIn)
    ensures var r := SortByTime(s + [c]);
      && |r| == |s| + 1
      && multiset(r) == multiset(s) + multiset{c}
      && Sorted(r)
      && forall i :: 0 <= i < |r| ==> r[i].createdAt <= r[|r| - 1].createdAt
  {
    var r := SortByTime(s + [c]);
    forall i | 0 <= i < |r|
      ensures r[i].createdAt <= r[|r| - 1].createdAt
    {
      SortedPairwise(r, i, |r| - 1);
    }
  }

  // ---------------------------------------------------------------------------
  // Stability: check-ins with the same creation time keep their order.
  // ---------------------------------------------------------------------------

  /** The check-ins of `s` created at instant `t`, in the order of `s`. */
  function WithTime(s: seq<CheckIn>, t: int): seq<CheckIn>
  {
    if s == [] then []
    else (if s[0].createdAt == t then [s[0]] else []) + WithTime(s[1..], t)
  }

  lemma {:induction false} WithTimeConcat(a: seq<CheckIn>, b: seq<CheckIn>, t: int)
    ensures WithTime(a + b, t) == WithTime(a, t) + WithTime(b, t)
  {
    if a == [] {
      assert a + b == b;
    } else {
      assert (a + b)[0] == a[0];
      assert (a + b)[1..] == a[1..] + b;
      WithTimeConcat(a[1..], b, t);
    }
  }

  /** Entries all later than `t` hold none created at `t`. */
  lemma {:induction false} NoneWithTime(s: seq<CheckIn>, t: int)
    requires forall i :: 0 <= i < |s| ==> s[i].createdAt > t
    ensures WithTime(s, t) == []
  {
    if s != [] {
      NoneWithTime(s[1..], t);
    }
  }

  /** Inserting `c` adds it after every entry created at the same instant. */
  lemma WithTimeInsert(s: seq<CheckIn>, c: CheckIn, t: int)
    ensures WithTime(Insert(s, c), t) == WithTime(s, t) + WithTime([c], t)
  {
    var k := InsertPoint(s, c);
    assert s == s[..k] + s[k..];
    if c.createdAt == t {
      NoneWithTime(s[k..], t);
    }
    WithTimeBetween(s[..k], c, s[k..], t);
  }

  /** `c` placed before entries none of which has its creation time. */
  lemma WithTimeBetween(pre: seq<CheckIn>, c: CheckIn, post: seq<CheckIn>, t: int)
    requires c.createdAt == t ==> WithTime(post, t) == []
    ensures WithTime(pre + [c] + post, t) == WithTime(pre + post, t) + WithTime([c], t)
  {
    var x, y, z := WithTime(pre, t), WithTime(post, t), WithTime([c], t);
    assert WithTime(pre + [c] + post, t) == x + z + y by {
      WithTimeConcat(pre + [c], post, t);
      WithTimeConcat(pre, [c], t);
    }
    assert WithTime(pre + post, t) == x + y by {
      WithTimeConcat(pre, post, t);
    }
    if c.createdAt == t {
      assert x + z + y == x + y + z;
    } else {
      assert [c][1..] == [] && WithTime([], t) == [];
      assert z == [];
      assert x + z + y == x + y + z;
    }
  }

  /** The sort is stable: the check-ins created at any one instant come out
      in the order they went in. */
  lemma {:induction false} SortIsStable(s: seq<CheckIn>, t: int)
    ensures WithTime(SortByTime(s), t) == WithTime(s, t)
  {
    if s != [] {
      var init := s[..|s| - 1];
      var c := s[|s| - 1];
      assert s == init + [c];
      SortIsStable(init, t);
      WithTimeInsert(SortByTime(init), c, t);
      WithTimeConcat(init, [c], t);
    }
  }
}

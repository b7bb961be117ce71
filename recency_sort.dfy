/**
 * The re-sort at the end of `addMessage`: `updatedChats.sort(...)` with the
 * comparator "newest `last_message_at` first, null as epoch 0". JavaScript's
 * `Array.prototype.sort` is stable, so chats with equal keys keep their order.
 *
 * `InsertionSorted` is the reference definition; `SortNewestFirst` sorts an
 * array in place and is proved to produce exactly that result. The lemmas show
 * that the result is ordered, a permutation of the input, stable, and the only
 * arrangement with those properties.
 */
module RecencySort {
  import opened Wrappers
  import opened Schema

  /** `a.last_message_at ? new Date(a.last_message_at) : new Date(0)`. */
  function Recency(c: Chat): int {
    c.lastMessageAt.GetOr(0)
  }

  /** The comparator `(a, b) => dateB.getTime() - dateA.getTime()`: negative when `a` goes first. */
  function Compare(a: Chat, b: Chat): int {
    Recency(b) - Recency(a)
  }

  /** Non-increasing by recency. */
  ghost predicate NewestFirst(s: seq<Chat>) {
    forall i, j :: 0 <= i < j < |s| ==> Recency(s[i]) >= Recency(s[j])
  }

  /** Places `x` after every element that the comparator does not put behind it. */
  function Insert(s: seq<Chat>, x: Chat): seq<Chat>
    decreases |s|
  {
    if s == [] || Compare(s[|s| - 1], x) <= 0 then s + [x]
    else Insert(s[..|s| - 1], x) + [s[|s| - 1]]
  }

  /** The stable sort, as insertion of each element in turn into the sorted prefix. */
  function InsertionSorted(s: seq<Chat>): seq<Chat>
    decreases |s|
  {
    if s == [] then [] else Insert(InsertionSorted(s[..|s| - 1]), s[|s| - 1])
  }

  /** The chats of one recency, in their order in `s`. */
  function WithRecency(s: seq<Chat>, k: int): seq<Chat>
    decreases |s|
  {
    if s == [] then []
    else WithRecency(s[..|s| - 1], k) + (if Recency(s[|s| - 1]) == k then [s[|s| - 1]] else [])
  }

  // ---------------------------------------------------------------- permutation

  lemma {:induction false} InsertPermutes(s: seq<Chat>, x: Chat)
    ensures multiset(Insert(s, x)) == multiset(s) + multiset{x}
    decreases |s|
  {
    if !(s == [] || Compare(s[|s| - 1], x) <= 0) {
      var init, last := s[..|s| - 1], s[|s| - 1];
      InsertPermutes(init, x);
      assert s == init + [last];
    }
  }

  /** The sort only rearranges: same elements, same multiplicities. */
  lemma {:induction false} SortedPermutes(s: seq<Chat>)
    ensures multiset(InsertionSorted(s)) == multiset(s)
    decreases |s|
  {
    if s != [] {
      var init, last := s[..|s| - 1], s[|s| - 1];
      SortedPermutes(init);
      InsertPermutes(InsertionSorted(init), last);
      assert s == init + [last];
    }
  }

  // ---------------------------------------------------------------- order

  lemma {:induction false} InsertKeepsOrder(s: seq<Chat>, x: Chat)
    requires NewestFirst(s)
    ensures NewestFirst(Insert(s, x))
    decreases |s|
  {
    if !(s == [] || Compare(s[|s| - 1], x) <= 0) {
      var init, last := s[..|s| - 1], s[|s| - 1];
      InsertKeepsOrder(init, x);
      var r := Insert(init, x);
      InsertPermutes(init, x);
      forall i | 0 <= i < |r| ensures Recency(r[i]) >= Recency(last) {
        assert r[i] in multiset(r);
        assert r[i] in multiset(init) || r[i] == x;
      }
    }
  }

  /** The result is newest first. */
  lemma {:induction false} SortedIsNewestFirst(s: seq<Chat>)
    ensures NewestFirst(InsertionSorted(s))
    decreases |s|
  {
    if s != [] {
      SortedIsNewestFirst(s[..|s| - 1]);
      InsertKeepsOrder(InsertionSorted(s[..|s| - 1]), s[|s| - 1]);
    }
  }

  // ---------------------------------------------------------------- stability

  lemma WithRecencySnoc(s: seq<Chat>, y: Chat, k: int)
    ensures WithRecency(s + [y], k) == WithRecency(s, k) + (if Recency(y) == k then [y] else [])
  {
    assert (s + [y])[..|s|] == s;
  }

  lemma {:induction false} InsertStable(s: seq<Chat>, x: Chat, k: int)
    ensures WithRecency(Insert(s, x), k) == WithRecency(s, k) + (if Recency(x) == k then [x] else [])
    decreases |s|
  {
    if s == [] || Compare(s[|s| - 1], x) <= 0 {
      WithRecencySnoc(s, x, k);
    } else {
      var init, last := s[..|s| - 1], s[|s| - 1];
      InsertStable(init, x, k);
      WithRecencySnoc(Insert(init, x), last, k);
    }
  }

  /** Chats of equal recency keep their relative order. */
  lemma {:induction false} SortedIsStable(s: seq<Chat>, k: int)
    ensures WithRecency(InsertionSorted(s), k) == WithRecency(s, k)
    decreases |s|
  {
    if s != [] {
      var init, last := s[..|s| - 1], s[|s| - 1];
      SortedIsStable(init, k);
      InsertStable(InsertionSorted(init), last, k);
    }
  }

  // ---------------------------------------------------------------- uniqueness

  lemma {:induction false} WithRecencyMembers(s: seq<Chat>, k: int, y: Chat)
    requires y in WithRecency(s, k)
    ensures y in s && Recency(y) == k
    decreases |s|
  {
    var init, last := s[..|s| - 1], s[|s| - 1];
    if y in WithRecency(init, k) {
      WithRecencyMembers(init, k, y);
      assert s == init + [last];
    }
  }

  lemma LastHasGroup(s: seq<Chat>)
    ensures s != [] ==> WithRecency(s, Recency(s[|s| - 1])) != []
  {
  }

  /** In a newest-first list the last element has the least recency. */
  lemma LastIsOldest(s: seq<Chat>, y: Chat)
    requires NewestFirst(s) && y in s
    ensures Recency(s[|s| - 1]) <= Recency(y)
  {
    var j :| 0 <= j < |s| && s[j] == y;
    if j < |s| - 1 {}
  }

  /** Dropping the last element drops the last member of its group and no other. */
  lemma DropLastGroup(s: seq<Chat>, k: int)
    requires s != []
    ensures var g := WithRecency(s, k);
            WithRecency(s[..|s| - 1], k) == if k == Recency(s[|s| - 1]) then g[..|g| - 1] else g
  {
  }

  /** Two newest-first lists with the same recency groups are the same list. */
  lemma {:induction false} SameGroupsSameList(t: seq<Chat>, u: seq<Chat>)
    requires NewestFirst(t) && NewestFirst(u)
    requires forall k :: WithRecency(t, k) == WithRecency(u, k)
    ensures t == u
    decreases |t| + |u|
  {
    if t == [] || u == [] {
      LastHasGroup(t);
      LastHasGroup(u);
    } else {
      var lt, lu := t[|t| - 1], u[|u| - 1];
      var gt, gu := WithRecency(t, Recency(lt)), WithRecency(u, Recency(lu));
      assert gt[|gt| - 1] == lt;
      assert gu[|gu| - 1] == lu;
      // each last element lies in the other list, so both have the least recency
      WithRecencyMembers(u, Recency(lt), lt);
      LastIsOldest(u, lt);
      WithRecencyMembers(t, Recency(lu), lu);
      LastIsOldest(t, lu);
      var ti, ui := t[..|t| - 1], u[..|u| - 1];
      forall k ensures WithRecency(ti, k) == WithRecency(ui, k) {
        DropLastGroup(t, k);
        DropLastGroup(u, k);
      }
      SameGroupsSameList(ti, ui);
      assert t == ti + [lt];
      assert u == ui + [lu];
    }
  }

  /**
   * Any newest-first arrangement of `s` that keeps each recency group in input
   * order is `InsertionSorted(s)`: the reference definition is what every
   * stable sort with this comparator returns.
   */
  lemma StableSortIsUnique(s: seq<Chat>, t: seq<Chat>)
    requires NewestFirst(t)
    requires forall k :: WithRecency(t, k) == WithRecency(s, k)
    ensures t == InsertionSorted(s)
  {
    SortedIsNewestFirst(s);
    forall k ensures WithRecency(t, k) == WithRecency(InsertionSorted(s), k) {
      SortedIsStable(s, k);
    }
    SameGroupsSameList(t, InsertionSorted(s));
  }

  /**
   * Three chats, one never messaged and two with timestamps `t2 > t1 > 0`,
   * come out newest first with the unmessaged one last.
   */
  lemma NullSortsLastExample(c1: Chat, c2: Chat, c3: Chat, t1: int, t2: int)
    requires c1.lastMessageAt.None? && c2.lastMessageAt == Some(t2) && c3.lastMessageAt == Some(t1)
    requires t2 > t1 > 0
    ensures InsertionSorted([c1, c2, c3]) == [c2, c3, c1]
  {
    assert Recency(c1) == 0 && Recency(c2) == t2 && Recency(c3) == t1;
    assert [c1][..0] == [];
    assert Insert([], c1) == [c1];
    assert InsertionSorted([c1]) == [c1];
    assert Compare(c1, c2) > 0;
    assert [c1][..1 - 1] == [];
    assert Insert([], c2) == [c2];
    assert Insert([c1], c2) == Insert([], c2) + [c1] == [c2, c1];
    assert [c1, c2][..1] == [c1];
    assert InsertionSorted([c1, c2]) == Insert(InsertionSorted([c1]), c2) == [c2, c1];
    assert Compare(c2, c3) < 0;
    assert Insert([c2], c3) == [c2, c3];
    assert Compare(c1, c3) > 0;
    assert [c2, c1][..1] == [c2];
    assert Insert([c2, c1], c3) == Insert([c2], c3) + [c1] == [c2, c3, c1];
    assert [c1, c2, c3][..2] == [c1, c2];
    assert InsertionSorted([c1, c2, c3]) == Insert(InsertionSorted([c1, c2]), c3);
  }

  /** Null counts as the epoch, not as "oldest": a chat last messaged before 1970 sorts after it. */
  lemma NullIsEpochNotOldest(c1: Chat, c3: Chat, t: int)
    requires c1.lastMessageAt.None? && c3.lastMessageAt == Some(t) && t < 0
    ensures InsertionSorted([c1, c3]) == [c1, c3]
  {
    assert [c1, c3][..1] == [c1];
    assert [c1][..0] == [];
    assert InsertionSorted([c1]) == [c1];
    assert Insert([c1], c3) == [c1, c3];
  }

  // ---------------------------------------------------------------- in place

  /**
   * `x` lands at index `j` when every element from `j` on is put behind it and
   * the element before `j` (if any) is not.
   */
  lemma {:induction false} InsertLandsAt(sorted: seq<Chat>, x: Chat, j: int)
    requires 0 <= j <= |sorted|
    requires j == 0 || Compare(sorted[j - 1], x) <= 0
    requires forall k :: j <= k < |sorted| ==> Compare(sorted[k], x) > 0
    ensures Insert(sorted, x) == sorted[..j] + [x] + sorted[j..]
    decreases |sorted|
  {
    if j < |sorted| {
      var init, last := sorted[..|sorted| - 1], sorted[|sorted| - 1];
      InsertLandsAt(init, x, j);
      assert init[..j] == sorted[..j];
      assert init[j..] + [last] == sorted[j..];
    } else {
      assert sorted[..j] == sorted;
    }
  }

  /** Inserts `a[i]` into the sorted prefix `a[..i]`, shifting the elements it goes before. */
  method InsertAt(a: array<Chat>, i: int)
    requires 0 <= i < a.Length
    modifies a
    ensures a[..i + 1] == Insert(old(a[..i]), old(a[i]))
    ensures a[i + 1..] == old(a[i + 1..])
  {
    ghost var sorted := a[..i];
    var x := a[i];
    var j := i;
    while j > 0 && Compare(a[j - 1], x) > 0
      invariant 0 <= j <= i
      invariant forall k :: 0 <= k < j ==> a[k] == sorted[k]
      invariant forall k :: j < k <= i ==> a[k] == sorted[k - 1]
      invariant forall k :: i < k < a.Length ==> a[k] == old(a[k])
      invariant forall k :: j <= k < i ==> Compare(sorted[k], x) > 0
    {
      a[j] := a[j - 1];
      j := j - 1;
    }
    a[j] := x;
    InsertLandsAt(sorted, x, j);
    assert forall k :: 0 <= k <= i ==> a[..i + 1][k] == (sorted[..j] + [x] + sorted[j..])[k];
  }

  /** `updatedChats.sort(comparator)` on an array, as an insertion sort. */
  method SortNewestFirst(a: array<Chat>)
    modifies a
    ensures a[..] == InsertionSorted(old(a[..]))
  {
    ghost var input := a[..];
    var i := 0;
    while i < a.Length
      invariant 0 <= i <= a.Length
      invariant a[..i] == InsertionSorted(input[..i])
      invariant a[i..] == input[i..]
    {
      assert a[i] == a[i..][0] == input[i];
      assert a[i + 1..] == a[i..][1..] == input[i + 1..];
      InsertAt(a, i);
      assert input[..i + 1][..i] == input[..i];
      assert InsertionSorted(input[..i + 1]) == Insert(InsertionSorted(input[..i]), input[i]);
      i := i + 1;
    }
    assert input[..a.Length] == input;
  }
}

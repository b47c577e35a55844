/** `Array.prototype.sort` with a comparator, as the dashboard pages and Prisma's `orderBy`
    use it: a stable sort. `le(a, b)` means "a may come before b" (the comparator is <= 0). */
module Sorting {

  ghost predicate Total<T(!new)>(le: (T, T) -> bool) {
    forall a, b :: le(a, b) || le(b, a)
  }

  ghost predicate Transitive<T(!new)>(le: (T, T) -> bool) {
    forall a, b, c :: le(a, b) && le(b, c) ==> le(a, c)
  }

  ghost predicate Sorted<T>(s: seq<T>, le: (T, T) -> bool) {
    forall i, j :: 0 <= i < j < |s| ==> le(s[i], s[j])
  }

  ghost predicate Distinct<T>(s: seq<T>) {
    forall i, j :: 0 <= i < j < |s| ==> s[i] != s[j]
  }

  /** Places `x` before the first element it may precede; ties keep `x` first. */
  function Insert<T>(x: T, s: seq<T>, le: (T, T) -> bool): (r: seq<T>)
    ensures multiset(r) == multiset(s) + multiset{x}
    ensures |r| == |s| + 1
    decreases |s|
  {
    if s == [] then [x]
    else if le(x, s[0]) then [x] + s
    else
      assert s == [s[0]] + s[1..];
      [s[0]] + Insert(x, s[1..], le)
  }

  /** Stable insertion sort: the result is a permutation of the input. */
  function SortBy<T>(s: seq<T>, le: (T, T) -> bool): (r: seq<T>)
    ensures multiset(r) == multiset(s)
    ensures |r| == |s|
    decreases |s|
  {
    if s == [] then []
    else
      assert s == [s[0]] + s[1..];
      Insert(s[0], SortBy(s[1..], le), le)
  }

  lemma {:induction false} InsertSorted<T(!new)>(x: T, s: seq<T>, le: (T, T) -> bool)
    requires Total(le) && Transitive(le) && Sorted(s, le)
    ensures Sorted(Insert(x, s, le), le)
    decreases |s|
  {
    if s != [] && !le(x, s[0]) {
      var tail := Insert(x, s[1..], le);
      InsertSorted(x, s[1..], le);
      assert le(s[0], x);
      forall j | 0 <= j < |tail| ensures le(s[0], tail[j]) {
        assert tail[j] in multiset(tail);
        if tail[j] != x {
          assert tail[j] in multiset(s[1..]);
          var k :| 0 <= k < |s[1..]| && s[1..][k] == tail[j];
          assert s[k + 1] == tail[j];
        }
      }
      var r := [s[0]] + tail;
      forall i, j | 0 <= i < j < |r| ensures le(r[i], r[j]) {
        if i == 0 {
          assert r[j] == tail[j - 1];
        } else {
          assert r[i] == tail[i - 1] && r[j] == tail[j - 1];
        }
      }
    }
  }

  /** The sort orders its result whenever `le` is a total preorder. */
  lemma {:induction false} SortBySorted<T(!new)>(s: seq<T>, le: (T, T) -> bool)
    requires Total(le) && Transitive(le)
    ensures Sorted(SortBy(s, le), le)
    decreases |s|
  {
    if s != [] {
      SortBySorted(s[1..], le);
      InsertSorted(s[0], SortBy(s[1..], le), le);
    }
  }

  lemma {:induction false} InsertDistinct<T>(x: T, s: seq<T>, le: (T, T) -> bool)
    requires Distinct(s) && x !in s
    ensures Distinct(Insert(x, s, le))
    decreases |s|
  {
    if s != [] && !le(x, s[0]) {
      var tail := Insert(x, s[1..], le);
      assert x !in s[1..];
      InsertDistinct(x, s[1..], le);
      assert s[0] != x;
      assert s[0] !in s[1..];
      assert s[0] !in multiset(tail);
      var r := [s[0]] + tail;
      forall i, j | 0 <= i < j < |r| ensures r[i] != r[j] {
        if i == 0 {
          assert r[j] == tail[j - 1] && tail[j - 1] in multiset(tail);
        } else {
          assert r[i] == tail[i - 1] && r[j] == tail[j - 1];
        }
      }
    }
  }

  /** Sorting keeps a duplicate-free sequence duplicate-free. */
  lemma {:induction false} SortByDistinct<T>(s: seq<T>, le: (T, T) -> bool)
    requires Distinct(s)
    ensures Distinct(SortBy(s, le))
    decreases |s|
  {
    if s != [] {
      var rest := SortBy(s[1..], le);
      SortByDistinct(s[1..], le);
      assert s[0] !in s[1..];
      assert s[0] !in multiset(rest);
      InsertDistinct(s[0], rest, le);
    }
  }

  /** The elements of `s` that `le` ranks level with `x`, in their order in `s`. */
  function Ties<T>(s: seq<T>, x: T, le: (T, T) -> bool): seq<T>
    decreases |s|
  {
    if s == [] then []
    else (if le(x, s[0]) && le(s[0], x) then [s[0]] else []) + Ties(s[1..], x, le)
  }

  /** Unfolds `Ties` on a sequence written as its head and the rest. */
  lemma TiesCons<T>(h: T, rest: seq<T>, x: T, le: (T, T) -> bool)
    ensures Ties([h] + rest, x, le) == (if le(x, h) && le(h, x) then [h] else []) + Ties(rest, x, le)
  {
    assert ([h] + rest)[1..] == rest;
  }

  /** Inserting `y` adds it in front of the elements level with `x` when it is level with `x`
      itself (every element it is placed after ranks strictly before it), and changes nothing
      among them otherwise. */
  lemma {:induction false} InsertTies<T(!new)>(y: T, s: seq<T>, x: T, le: (T, T) -> bool)
    requires Transitive(le)
    ensures Ties(Insert(y, s, le), x, le) ==
      (if le(x, y) && le(y, x) then [y] else []) + Ties(s, x, le)
    decreases |s|
  {
    if s == [] {
      TiesCons(y, [], x, le);
      assert [y] + [] == [y];
    } else if le(y, s[0]) {
      TiesCons(y, s, x, le);
    } else {
      var head, tail := s[0], s[1..];
      var rest := Insert(y, tail, le);
      InsertTies(y, tail, x, le);
      assert Insert(y, s, le) == [head] + rest;
      assert s == [head] + tail;
      LevelExcludes(le, x, y, head);
      TiesAfterHead(head, tail, rest, x, le, (if le(x, y) && le(y, x) then [y] else []));
    }
  }

  /** An element ranked level with `x` is not level with one it ranks strictly after. */
  lemma LevelExcludes<T(!new)>(le: (T, T) -> bool, x: T, y: T, z: T)
    requires Transitive(le) && !le(y, z)
    ensures le(x, y) && le(y, x) ==> !(le(x, z) && le(z, x))
  {
  }

  /** A head that precedes the inserted element leaves the ties it adds in front. */
  lemma TiesAfterHead<T>(head: T, tail: seq<T>, rest: seq<T>, x: T, le: (T, T) -> bool, ty: seq<T>)
    requires Ties(rest, x, le) == ty + Ties(tail, x, le)
    requires ty != [] ==> !(le(x, head) && le(head, x))
    ensures Ties([head] + rest, x, le) == ty + Ties([head] + tail, x, le)
  {
    TiesCons(head, rest, x, le);
    TiesCons(head, tail, x, le);
    var th: seq<T> := if le(x, head) && le(head, x) then [head] else [];
    assert th == [] || ty == [];
    assert th + (ty + Ties(tail, x, le)) == ty + (th + Ties(tail, x, le));
  }

  /** The sort is stable: elements that `le` ranks level keep their input order. */
  lemma {:induction false} SortByStable<T(!new)>(s: seq<T>, x: T, le: (T, T) -> bool)
    requires Transitive(le)
    ensures Ties(SortBy(s, le), x, le) == Ties(s, x, le)
    decreases |s|
  {
    if s != [] {
      SortByStable(s[1..], x, le);
      InsertTies(s[0], SortBy(s[1..], le), x, le);
    }
  }

  /** `s.slice(0, n)`. */
  function Take<T>(s: seq<T>, n: nat): (r: seq<T>)
    ensures |r| == if |s| < n then |s| else n
    ensures r == s[..|r|]
  {
    if |s| <= n then s else s[..n]
  }

  /** `s.slice(-n)` for a positive `n`: the last `n` elements, or all of them when fewer. */
  function TakeLast<T>(s: seq<T>, n: nat): (r: seq<T>)
    ensures |r| == if |s| < n then |s| else n
    ensures r == s[|s| - |r|..]
  {
    if |s| <= n then s else s[|s| - n..]
  }

  lemma HeadIsMember<T>(s: seq<T>)
    ensures s == [] || s[0] in s
  {
  }

  /** In a sorted sequence, an element that occurs more often than in the first `n` elements
      comes after each of them. */
  lemma DroppedFollowsPrefix<T>(s: seq<T>, n: nat, x: T, le: (T, T) -> bool)
    requires Sorted(s, le) && n <= |s|
    requires multiset(s)[x] > multiset(s[..n])[x]
    ensures forall i :: 0 <= i < n ==> le(s[i], x)
  {
    assert s == s[..n] + s[n..];
    assert multiset(s) == multiset(s[..n]) + multiset(s[n..]);
    assert x in s[n..];
    var k :| 0 <= k < |s[n..]| && s[n..][k] == x;
    assert s[n + k] == x;
  }

  /** In a sorted sequence, an element that occurs more often than in the last elements from
      index `n` on comes before each of them. */
  lemma DroppedPrecedesSuffix<T>(s: seq<T>, n: nat, x: T, le: (T, T) -> bool)
    requires Sorted(s, le) && n <= |s|
    requires multiset(s)[x] > multiset(s[n..])[x]
    ensures forall i :: n <= i < |s| ==> le(x, s[i])
  {
    assert s == s[..n] + s[n..];
    assert multiset(s) == multiset(s[..n]) + multiset(s[n..]);
    assert x in s[..n];
    var k :| 0 <= k < n && s[..n][k] == x;
    assert s[k] == x;
  }
}

/**
 * The orders Python's `sorted` uses here: `str` comparison (code-point
 * lexicographic) for names, and pathlib's component-wise comparison for paths,
 * with one insertion sort by key that both are sorted by.
 */
module Order {
  import opened Strings

  /** Python's `a < b` on `str`. */
  predicate StrLess(a: string, b: string)
    decreases |a|
  {
    if |a| == 0 then |b| > 0
    else if |b| == 0 then false
    else if a[0] != b[0] then a[0] < b[0]
    else StrLess(a[1..], b[1..])
  }

  lemma {:induction false} StrLessIrreflexive(a: string)
    ensures !StrLess(a, a)
    decreases |a|
  {
    if |a| > 0 {
      StrLessIrreflexive(a[1..]);
    }
  }

  lemma {:induction false} StrLessTransitive(a: string, b: string, c: string)
    requires StrLess(a, b) && StrLess(b, c)
    ensures StrLess(a, c)
    decreases |a|
  {
    if |a| > 0 && |b| > 0 && |c| > 0 && a[0] == b[0] && b[0] == c[0] {
      StrLessTransitive(a[1..], b[1..], c[1..]);
    }
  }

  lemma {:induction false} StrLessTotal(a: string, b: string)
    requires a != b
    ensures StrLess(a, b) || StrLess(b, a)
    decreases |a|
  {
    if |a| > 0 && |b| > 0 && a[0] == b[0] {
      assert a == [a[0]] + a[1..] && b == [b[0]] + b[1..];
      StrLessTotal(a[1..], b[1..]);
    }
  }

  lemma StrLessAsymmetric(a: string, b: string)
    requires StrLess(a, b)
    ensures !StrLess(b, a)
  {
    if StrLess(b, a) {
      StrLessTransitive(a, b, a);
      StrLessIrreflexive(a);
    }
  }

  /** Python's `<` on lists (and tuples) of strings. */
  predicate ListLess(a: seq<string>, b: seq<string>)
    decreases |a|
  {
    if |a| == 0 then |b| > 0
    else if |b| == 0 then false
    else if a[0] != b[0] then StrLess(a[0], b[0])
    else ListLess(a[1..], b[1..])
  }

  lemma {:induction false} ListLessIrreflexive(a: seq<string>)
    ensures !ListLess(a, a)
    decreases |a|
  {
    if |a| > 0 {
      ListLessIrreflexive(a[1..]);
    }
  }

  lemma {:induction false} ListLessTransitive(a: seq<string>, b: seq<string>, c: seq<string>)
    requires ListLess(a, b) && ListLess(b, c)
    ensures ListLess(a, c)
    decreases |a|
  {
    if |a| > 0 && |b| > 0 && |c| > 0 {
      if a[0] == b[0] && b[0] == c[0] {
        ListLessTransitive(a[1..], b[1..], c[1..]);
      } else if a[0] != b[0] && b[0] != c[0] {
        StrLessTransitive(a[0], b[0], c[0]);
        if a[0] == c[0] {
          StrLessIrreflexive(a[0]);
        }
      }
    }
  }

  lemma {:induction false} ListLessTotal(a: seq<string>, b: seq<string>)
    requires a != b
    ensures ListLess(a, b) || ListLess(b, a)
    decreases |a|
  {
    if |a| > 0 && |b| > 0 {
      if a[0] == b[0] {
        assert a == [a[0]] + a[1..] && b == [b[0]] + b[1..];
        ListLessTotal(a[1..], b[1..]);
      } else {
        StrLessTotal(a[0], b[0]);
      }
    }
  }

  /** A proper prefix sorts first. */
  lemma {:induction false} ListLessPrefix(a: seq<string>, rest: seq<string>)
    requires |rest| > 0
    ensures ListLess(a, a + rest)
    decreases |a|
  {
    if |a| > 0 {
      assert (a + rest)[1..] == a[1..] + rest;
      ListLessPrefix(a[1..], rest);
    }
  }

  /** The sort key of a name: a list holding just the name. */
  function NameKey(n: string): seq<string>
  {
    [n]
  }

  /** The sort key of a path: its components, as pathlib compares paths. */
  function PathKey(p: string): seq<string>
  {
    Split(p, '/')
  }

  /** Names sort by their key exactly as `str` comparison orders them. */
  lemma NameKeyOrder(a: string, b: string)
    ensures ListLess(NameKey(a), NameKey(b)) <==> StrLess(a, b)
  {
    assert NameKey(a)[1..] == [] && NameKey(b)[1..] == [];
    if a == b {
      StrLessIrreflexive(a);
    }
  }

  /** A folder sorts before everything inside it. */
  lemma AncestorFirst(folder: string, rest: string)
    ensures ListLess(PathKey(folder), PathKey(folder + "/" + rest))
  {
    SplitAround(folder, rest, '/');
    ListLessPrefix(Split(folder, '/'), Split(rest, '/'));
  }

  /** No later element sorts before an earlier one (ties keep their places). */
  ghost predicate SortedBy(s: seq<string>, key: string -> seq<string>)
  {
    forall i, j :: 0 <= i < j < |s| ==> !ListLess(key(s[j]), key(s[i]))
  }

  /** Putting `h` in front keeps a sorted list sorted when nothing in it sorts before `h`. */
  lemma SortedCons(h: string, t: seq<string>, key: string -> seq<string>)
    requires SortedBy(t, key)
    requires forall y :: y in t ==> !ListLess(key(y), key(h))
    ensures SortedBy([h] + t, key)
  {
    var r := [h] + t;
    forall i, j | 0 <= i < j < |r| ensures !ListLess(key(r[j]), key(r[i])) {
      if i > 0 {
        assert r[i] == t[i - 1] && r[j] == t[j - 1];
      } else {
        assert r[j] in t;
      }
    }
  }

  /** Insert `x` before the first element whose key is greater than `x`'s. */
  function InsertBy(x: string, s: seq<string>, key: string -> seq<string>): (r: seq<string>)
    requires SortedBy(s, key)
    ensures SortedBy(r, key)
    ensures multiset(r) == multiset(s) + multiset{x}
    ensures |r| == |s| + 1
  {
    if s == [] then [x]
    else if ListLess(key(x), key(s[0])) then
      InsertFront(x, s, key);
      [x] + s
    else
      var t := InsertBy(x, s[1..], key);
      InsertBehind(x, s, t, key);
      [s[0]] + t
  }

  /** `x` sorting before the first element of a sorted list sorts before all of it. */
  lemma InsertFront(x: string, s: seq<string>, key: string -> seq<string>)
    requires SortedBy(s, key) && s != []
    requires ListLess(key(x), key(s[0]))
    ensures SortedBy([x] + s, key)
  {
    forall y | y in s ensures !ListLess(key(y), key(x)) {
      if ListLess(key(y), key(x)) {
        ListLessTransitive(key(y), key(x), key(s[0]));
        var j :| 0 <= j < |s| && s[j] == y;
        if j == 0 {
          ListLessIrreflexive(key(s[0]));
        }
      }
    }
    SortedCons(x, s, key);
  }

  /** The first element of a sorted list stays in front of the rest with `x` inserted. */
  lemma InsertBehind(x: string, s: seq<string>, t: seq<string>, key: string -> seq<string>)
    requires SortedBy(s, key) && s != []
    requires !ListLess(key(x), key(s[0]))
    requires SortedBy(t, key) && multiset(t) == multiset(s[1..]) + multiset{x}
    ensures SortedBy([s[0]] + t, key)
    ensures multiset([s[0]] + t) == multiset(s) + multiset{x}
  {
    assert s == [s[0]] + s[1..];
    forall y | y in t ensures !ListLess(key(y), key(s[0])) {
      assert y in multiset(t);
      if y != x {
        assert y in s[1..];
        var j :| 0 <= j < |s[1..]| && s[1..][j] == y;
        assert s[j + 1] == y;
      }
    }
    SortedCons(s[0], t, key);
  }

  /** A shared leading part does not change how two lists compare. */
  lemma {:induction false} ListLessCommonPrefix(x: seq<string>, a: seq<string>, b: seq<string>)
    ensures ListLess(x + a, x + b) <==> ListLess(a, b)
    decreases |x|
  {
    if |x| > 0 {
      assert (x + a)[0] == x[0] == (x + b)[0];
      assert (x + a)[1..] == x[1..] + a;
      assert (x + b)[1..] == x[1..] + b;
      ListLessCommonPrefix(x[1..], a, b);
    } else {
      assert x + a == a && x + b == b;
    }
  }

  /** Paths under one root folder compare as their paths relative to that root do. */
  lemma SharedRootKeepsOrder(root: string, a: string, b: string)
    ensures ListLess(PathKey(root + "/" + a), PathKey(root + "/" + b)) <==> ListLess(PathKey(a), PathKey(b))
  {
    SplitAround(root, a, '/');
    SplitAround(root, b, '/');
    ListLessCommonPrefix(Split(root, '/'), Split(a, '/'), Split(b, '/'));
  }

  /** Insertion sort by key: ordered, and a permutation of the input. */
  function SortBy(s: seq<string>, key: string -> seq<string>): (r: seq<string>)
    ensures SortedBy(r, key)
    ensures multiset(r) == multiset(s)
    ensures |r| == |s|
  {
    if s == [] then []
    else
      assert s == [s[0]] + s[1..];
      InsertBy(s[0], SortBy(s[1..], key), key)
  }

  /** Sorting keeps exactly the elements it was given. */
  lemma SortByMembers(s: seq<string>, key: string -> seq<string>)
    ensures forall x :: x in SortBy(s, key) <==> x in s
  {
    var r := SortBy(s, key);
    forall x ensures x in r <==> x in s {
      assert x in r <==> x in multiset(r);
      assert x in s <==> x in multiset(s);
    }
  }

  /** Strictly ascending in `str` order: sorted and without repeats. */
  predicate Ascending(s: seq<string>)
  {
    forall i, j :: 0 <= i < j < |s| ==> StrLess(s[i], s[j])
  }

  /** A name list sorted by name and without repeats is strictly ascending. */
  lemma SortedNamesAscend(s: seq<string>)
    requires SortedBy(s, NameKey)
    requires forall i, j :: 0 <= i < j < |s| ==> s[i] != s[j]
    ensures Ascending(s)
  {
    forall i, j | 0 <= i < j < |s| ensures StrLess(s[i], s[j]) {
      StrLessTotal(s[i], s[j]);
      NameKeyOrder(s[j], s[i]);
    }
  }

  /** Some member of a finite non-empty set of names sorts before all the others. */
  lemma {:induction false} LeastExists(s: set<string>) returns (m: string)
    requires s != {}
    ensures m in s && forall x :: x in s && x != m ==> StrLess(m, x)
    decreases |s|
  {
    var y :| y in s;
    var rest := s - {y};
    if rest == {} {
      m := y;
      assert s == {y};
    } else {
      var r := LeastExists(rest);
      if StrLess(y, r) {
        m := y;
        forall x | x in s && x != y ensures StrLess(y, x) {
          if x != r {
            assert x in rest;
            StrLessTransitive(y, r, x);
          }
        }
      } else {
        m := r;
        StrLessTotal(y, r);
        forall x | x in s && x != r ensures StrLess(r, x) {
          if x != y {
            assert x in rest;
          }
        }
      }
    }
  }

  lemma LeastIsSome(s: set<string>)
    requires s != {}
    ensures exists m :: m in s && forall x :: x in s && x != m ==> StrLess(m, x)
  {
    var m := LeastExists(s);
  }

  /** The member of a non-empty set of names that sorts first. */
  ghost function Least(s: set<string>): (m: string)
    requires s != {}
    ensures m in s && forall x :: x in s && x != m ==> StrLess(m, x)
  {
    LeastIsSome(s);
    var m :| m in s && forall x :: x in s && x != m ==> StrLess(m, x);
    m
  }

  /** `sorted(s)` for a set of names: its members in strictly ascending order. */
  ghost function SortedNames(s: set<string>): (r: seq<string>)
    ensures forall n :: n in r <==> n in s
    decreases |s|
  {
    if s == {} then []
    else
      var m := Least(s);
      [m] + SortedNames(s - {m})
  }

  /** `SortedNames` is strictly ascending. */
  lemma {:induction false} SortedNamesAscending(s: set<string>)
    ensures Ascending(SortedNames(s))
    decreases |s|
  {
    if s != {} {
      var m := Least(s);
      var t := SortedNames(s - {m});
      SortedNamesAscending(s - {m});
      var r := [m] + t;
      forall i, j | 0 <= i < j < |r| ensures StrLess(r[i], r[j]) {
        if i == 0 {
          assert r[j] == t[j - 1] && r[j] in s - {m};
        } else {
          assert r[i] == t[i - 1] && r[j] == t[j - 1];
        }
      }
    }
  }

  /** Two strictly ascending sequences with the same members are the same sequence: the
   *  members determine `sorted`'s result. */
  lemma {:induction false} AscendingUnique(a: seq<string>, b: seq<string>)
    requires Ascending(a) && Ascending(b)
    requires forall n :: n in a <==> n in b
    ensures a == b
    decreases |a|
  {
    assert a != [] ==> a[0] in b;
    assert b != [] ==> b[0] in a;
    if a != [] {
      if a[0] != b[0] {
        assert b[0] in a && a[0] in b;
        var i :| 0 <= i < |a| && a[i] == b[0];
        var j :| 0 <= j < |b| && b[j] == a[0];
        StrLessAsymmetric(a[0], a[i]);
      }
      forall n ensures n in a[1..] <==> n in b[1..] {
        if n in a[1..] {
          var i :| 1 <= i < |a| && a[i] == n;
          StrLessIrreflexive(a[0]);
          assert n in a;
          var k :| 0 <= k < |b| && b[k] == n;
          assert k != 0 && b[1..][k - 1] == n;
        }
        if n in b[1..] {
          var i :| 1 <= i < |b| && b[i] == n;
          StrLessIrreflexive(b[0]);
          assert n in b;
          var k :| 0 <= k < |a| && a[k] == n;
          assert k != 0 && a[1..][k - 1] == n;
        }
      }
      AscendingUnique(a[1..], b[1..]);
      assert a == [a[0]] + a[1..] && b == [b[0]] + b[1..];
    }
  }

  /** `sorted(names)` of a set of names: its members in strictly ascending order. */
  method SortedSet(names: set<string>) returns (r: seq<string>)
    ensures Ascending(r)
    ensures |r| == |names|
    ensures forall n :: n in r <==> n in names
    ensures r == SortedNames(names)
  {
    var picked := Enumerate(names);
    r := SortBy(picked, NameKey);
    SortedDistinct(picked, r);
    SortedNamesAscending(names);
    AscendingUnique(r, SortedNames(names));
  }

  /** The members of a set, each once, in some order. */
  method Enumerate(names: set<string>) returns (picked: seq<string>)
    ensures forall n :: n in picked <==> n in names
    ensures forall i, j :: 0 <= i < j < |picked| ==> picked[i] != picked[j]
    ensures |picked| == |names|
  {
    picked := [];
    var rest := names;
    while rest != {}
      invariant rest !! set n | n in picked
      invariant rest + (set n | n in picked) == names
      invariant forall i, j :: 0 <= i < j < |picked| ==> picked[i] != picked[j]
      invariant |picked| + |rest| == |names|
      decreases |rest|
    {
      var n :| n in rest;
      picked := picked + [n];
      rest := rest - {n};
    }
  }

  /** Sorting names without repeats by name gives them in strictly ascending order. */
  lemma SortedDistinct(picked: seq<string>, r: seq<string>)
    requires forall i, j :: 0 <= i < j < |picked| ==> picked[i] != picked[j]
    requires r == SortBy(picked, NameKey)
    ensures Ascending(r)
    ensures |r| == |picked|
    ensures forall n :: n in r <==> n in picked
  {
    SortByMembers(picked, NameKey);
    forall i, j | 0 <= i < j < |r| ensures r[i] != r[j] {
      if r[i] == r[j] {
        DistinctOnce(picked, r[i]);
        RepeatCountsTwice(r, i, j);
      }
    }
    SortedNamesAscend(r);
  }

  /** An element at two positions occurs at least twice. */
  lemma RepeatCountsTwice(s: seq<string>, i: nat, j: nat)
    requires i < j < |s| && s[i] == s[j]
    ensures multiset(s)[s[i]] >= 2
  {
    assert s == s[..j] + s[j..];
    assert s[i] in s[..j];
    assert s[j] in s[j..];
    assert multiset(s) == multiset(s[..j]) + multiset(s[j..]);
  }

  /** In a sequence without repeats every member occurs once. */
  lemma {:induction false} DistinctOnce(s: seq<string>, x: string)
    requires forall i, j :: 0 <= i < j < |s| ==> s[i] != s[j]
    ensures multiset(s)[x] <= 1
  {
    if s != [] {
      assert s == [s[0]] + s[1..];
      DistinctOnce(s[1..], x);
      if x == s[0] {
        assert x !in s[1..];
      }
    }
  }
}

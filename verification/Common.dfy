/** Shared vocabulary: optional values, sequence helpers and sorting. */
module Common {

  datatype Option<+T> = None | Some(value: T) {
    function GetOr(default: T): T {
      if Some? then value else default
    }
  }

  function Last<T>(s: seq<T>): T
    requires s != []
  {
    s[|s| - 1]
  }

  function Front<T>(s: seq<T>): seq<T>
    requires s != []
  {
    s[..|s| - 1]
  }

  // The first rows of a query with a row limit.
  function Limit<T>(s: seq<T>, limit: nat): seq<T> {
    if |s| <= limit then s else s[..limit]
  }

  ghost predicate Distinct<T>(s: seq<T>) {
    forall i, j :: 0 <= i < j < |s| ==> s[i] != s[j]
  }

  lemma CountTwice<T>(s: seq<T>, i: nat, j: nat)
    requires i < j < |s| && s[i] == s[j]
    ensures multiset(s)[s[i]] >= 2
  {
    assert s == s[..j] + s[j..];
    assert s[i] in s[..j] && s[j] in s[j..];
  }

  // A sequence is duplicate-free exactly when its multiset has no multiplicity above one.
  lemma {:induction false} DistinctMultiplicity<T>(s: seq<T>)
    ensures Distinct(s) <==> forall x :: multiset(s)[x] <= 1
  {
    if s != [] {
      FrontLast(s);
      DistinctMultiplicity(Front(s));
      assert multiset(s) == multiset(Front(s)) + multiset{Last(s)};
    }
    forall i, j | 0 <= i < j < |s| && s[i] == s[j]
      ensures multiset(s)[s[i]] > 1
    {
      CountTwice(s, i, j);
    }
    if Distinct(s) && s != [] {
      assert Last(s) !in Front(s);
    }
  }

  lemma FrontLast<T>(s: seq<T>)
    requires s != []
    ensures s == Front(s) + [Last(s)]
  {
  }

  // Prefixes that grow by one element, as loops over sequences do.
  lemma NextPrefix<T>(s: seq<T>, i: nat)
    requires i < |s|
    ensures s[..i + 1] == s[..i] + [s[i]] && Front(s[..i + 1]) == s[..i] && Last(s[..i + 1]) == s[i]
  {
  }

  lemma Associative<T>(a: seq<T>, b: seq<T>, c: seq<T>)
    ensures (a + b) + c == a + (b + c)
  {
  }

  lemma EmptyParts<T>(a: seq<T>)
    ensures [] + a == a && a + [] == a
  {
  }

  lemma Snoc<T>(s: seq<T>, x: T)
    ensures s + [x] != [] && Front(s + [x]) == s && Last(s + [x]) == x
  {
  }

  lemma FrontBag<T>(s: seq<T>)
    requires s != []
    ensures multiset(Front(s)) == multiset(s) - multiset{Last(s)}
  {
    FrontLast(s);
  }

  lemma RestBag<T>(s: seq<T>, i: nat)
    requires i < |s|
    ensures multiset(s[..i] + s[i + 1..]) == multiset(s) - multiset{s[i]}
  {
    assert s == s[..i] + [s[i]] + s[i + 1..];
  }

  // A permutation h of g without the element that stands last in g.
  lemma RemoveLastOf<T>(g: seq<T>, h: seq<T>) returns (i: nat)
    requires g != [] && multiset(g) == multiset(h)
    ensures i < |h| && h[i] == Last(g) && multiset(Front(g)) == multiset(h[..i] + h[i + 1..])
  {
    FrontBag(g);
    assert Last(g) in g && Last(g) in multiset(h);
    i :| 0 <= i < |h| && h[i] == Last(g);
    RestBag(h, i);
  }

  lemma AddMember<T>(s: set<T>, x: T)
    ensures x in s ==> s + {x} == s
    ensures |s + {x}| == |s| + if x in s then 0 else 1
  {
    if x in s {
      assert s + {x} == s;
    }
  }

  // ---- sorting ------------------------------------------------------------

  ghost predicate TotalPreorder<T(!new)>(le: (T, T) -> bool) {
    && (forall a, b :: le(a, b) || le(b, a))
    && (forall a, b, c :: le(a, b) && le(b, c) ==> le(a, c))
  }

  ghost predicate SortedBy<T>(le: (T, T) -> bool, s: seq<T>) {
    forall i, j :: 0 <= i < j < |s| ==> le(s[i], s[j])
  }

  // Inserts x behind every element it does not precede: the insertion is stable.
  function Insert<T>(le: (T, T) -> bool, s: seq<T>, x: T): seq<T> {
    if s == [] then [x]
    else if le(Last(s), x) then s + [x]
    else Insert(le, Front(s), x) + [Last(s)]
  }

  // The library's stable sort.
  function Sorted<T>(le: (T, T) -> bool, s: seq<T>): seq<T> {
    if s == [] then [] else Insert(le, Sorted(le, Front(s)), Last(s))
  }

  lemma {:induction false} InsertMembers<T(!new)>(le: (T, T) -> bool, s: seq<T>, x: T)
    ensures multiset(Insert(le, s, x)) == multiset(s) + multiset{x}
  {
    if s != [] {
      FrontLast(s);
      InsertMembers(le, Front(s), x);
    }
  }

  lemma {:induction false} InsertProperties<T(!new)>(le: (T, T) -> bool, s: seq<T>, x: T)
    requires TotalPreorder(le) && SortedBy(le, s)
    ensures SortedBy(le, Insert(le, s, x))
    ensures multiset(Insert(le, s, x)) == multiset(s) + multiset{x}
  {
    InsertMembers(le, s, x);
    if s != [] {
      var f, l := Front(s), Last(s);
      if le(l, x) {
        assert forall i :: 0 <= i < |s| ==> le(s[i], x);
      } else {
        InsertProperties(le, f, x);
        var r := Insert(le, f, x);
        forall i | 0 <= i < |r| ensures le(r[i], l) {
          assert r[i] in multiset(r);
          assert r[i] == x || r[i] in f;
        }
      }
    }
  }

  lemma {:induction false} SortedProperties<T(!new)>(le: (T, T) -> bool, s: seq<T>)
    requires TotalPreorder(le)
    ensures SortedBy(le, Sorted(le, s))
    ensures multiset(Sorted(le, s)) == multiset(s)
  {
    if s != [] {
      FrontLast(s);
      SortedProperties(le, Front(s));
      InsertProperties(le, Sorted(le, Front(s)), Last(s));
    }
  }

  // Two sorted arrangements of the same elements agree when the order has no ties.
  lemma {:induction false} SortedUnique<T(!new)>(le: (T, T) -> bool, s: seq<T>, t: seq<T>)
    requires TotalPreorder(le) && SortedBy(le, s) && SortedBy(le, t)
    requires multiset(s) == multiset(t)
    requires forall a, b :: a in s && b in s && le(a, b) && le(b, a) ==> a == b
    ensures s == t
  {
    assert |s| == |multiset(s)| == |multiset(t)| == |t|;
    if s != [] {
      FrontLast(s);
      FrontLast(t);
      SortedLast(le, s, t);
      assert multiset(Front(s)) == multiset(s) - multiset{Last(s)};
      assert multiset(Front(t)) == multiset(t) - multiset{Last(t)};
      SortedUnique(le, Front(s), Front(t));
    }
  }

  lemma SortedLast<T(!new)>(le: (T, T) -> bool, s: seq<T>, t: seq<T>)
    requires TotalPreorder(le) && SortedBy(le, s) && SortedBy(le, t)
    requires s != [] && t != [] && multiset(s) == multiset(t)
    requires forall a, b :: a in s && b in s && le(a, b) && le(b, a) ==> a == b
    ensures Last(s) == Last(t)
  {
    var x, y := Last(s), Last(t);
    assert x in multiset(t) && y in multiset(s);
    var i :| 0 <= i < |s| && s[i] == y;
    var j :| 0 <= j < |t| && t[j] == x;
    assert le(y, x) by { if i == |s| - 1 { assert le(x, x); } }
    assert le(x, y) by { if j == |t| - 1 { assert le(x, x); } }
  }

  // ---- sets in order --------------------------------------------------------

  lemma Member<T>(s: set<T>) returns (x: T)
    requires s != {}
    ensures x in s
  {
    x :| x in s;
  }

  lemma {:induction false} LeastExists(s: set<int>)
    requires s != {}
    ensures exists m :: m in s && forall x :: x in s ==> m <= x
    decreases |s|
  {
    var a := Member(s);
    var rest := s - {a};
    if rest == {} {
      assert s == {a};
    } else {
      LeastExists(rest);
      var b :| b in rest && forall x :: x in rest ==> b <= x;
      var m := if a < b then a else b;
      forall x | x in s
        ensures m <= x
      {
        assert x == a || x in rest;
      }
      assert m in s;
    }
  }

  function Least(s: set<int>): (m: int)
    requires s != {}
    ensures m in s && forall x :: x in s ==> m <= x
  {
    LeastExists(s);
    var m :| m in s && forall x :: x in s ==> m <= x;
    m
  }

  function Ascending(s: set<int>): (r: seq<int>)
    ensures |r| == |s| && forall x :: x in r <==> x in s
    ensures forall i, j :: 0 <= i < j < |r| ==> r[i] < r[j]
    decreases |s|
  {
    if s == {} then []
    else
      var m, rest := Least(s), Ascending(s - {Least(s)});
      LeastFirst(s, m, rest);
      [m] + rest
  }

  lemma LeastFirst(s: set<int>, m: int, rest: seq<int>)
    requires m in s && (forall x :: x in s ==> m <= x)
    requires |rest| == |s - {m}| && (forall x :: x in rest <==> x in s - {m})
    requires forall i, j :: 0 <= i < j < |rest| ==> rest[i] < rest[j]
    ensures var all := [m] + rest;
      && |all| == |s| && (forall x :: x in all <==> x in s)
      && (forall i, j :: 0 <= i < j < |all| ==> all[i] < all[j])
  {
    var all := [m] + rest;
    assert |s| == |s - {m}| + 1;
    forall i, j | 0 <= i < j < |all|
      ensures all[i] < all[j]
    {
      assert all[j] == rest[j - 1] && rest[j - 1] in rest;
      if i > 0 {
        assert all[i] == rest[i - 1];
      }
    }
    forall x
      ensures x in all <==> x in s
    {
      assert x in s <==> x == m || x in s - {m};
    }
  }
}

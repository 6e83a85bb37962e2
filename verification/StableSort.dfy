/** The stable sort that Python's `list.sort` performs, as a function on sequences.
    Two results that are sorted and keep every class of equal keys in input order
    are the same sequence, so nothing depends on which algorithm the library uses. */
module StableSort {

  ghost predicate TotalPreorder<T(!new)>(le: (T, T) -> bool) {
    && (forall x, y :: le(x, y) || le(y, x))
    && (forall x, y, z :: le(x, y) && le(y, z) ==> le(x, z))
  }

  ghost predicate Sorted<T>(le: (T, T) -> bool, s: seq<T>) {
    forall i, j :: 0 <= i < j < |s| ==> le(s[i], s[j])
  }

  /** Places `x` in front of the first element that is not smaller. */
  function Insert<T>(le: (T, T) -> bool, x: T, s: seq<T>): (r: seq<T>)
    ensures multiset(r) == multiset(s) + multiset{x}
  {
    if s == [] then [x]
    else if le(x, s[0]) then [x] + s
    else
      assert s == [s[0]] + s[1..];
      [s[0]] + Insert(le, x, s[1..])
  }

  function Sort<T>(le: (T, T) -> bool, s: seq<T>): (r: seq<T>)
    ensures multiset(r) == multiset(s)
    ensures |r| == |s|
  {
    if s == [] then [] else
      assert s == [s[0]] + s[1..];
      var r := Insert(le, s[0], Sort(le, s[1..]));
      assert |multiset(r)| == |multiset(s)|;
      r
  }

  lemma {:induction false} InsertSorted<T(!new)>(le: (T, T) -> bool, x: T, s: seq<T>)
    requires TotalPreorder(le) && Sorted(le, s)
    ensures Sorted(le, Insert(le, x, s))
  {
    if s != [] && !le(x, s[0]) {
      InsertSorted(le, x, s[1..]);
      var r := Insert(le, x, s[1..]);
      forall y | y in r ensures le(s[0], y) {
        assert y in multiset(r);
        if y != x {
          assert y in multiset(s[1..]);
        }
      }
    }
  }

  lemma {:induction false} SortSorted<T(!new)>(le: (T, T) -> bool, s: seq<T>)
    requires TotalPreorder(le)
    ensures Sorted(le, Sort(le, s))
  {
    if s != [] {
      SortSorted(le, s[1..]);
      InsertSorted(le, s[0], Sort(le, s[1..]));
    }
  }

  predicate Tied<T>(le: (T, T) -> bool, x: T, y: T) {
    le(x, y) && le(y, x)
  }

  /** The elements of `s` tied with `c`, in the order of `s`. */
  function TiedWith<T>(le: (T, T) -> bool, c: T, s: seq<T>): seq<T> {
    if s == [] then []
    else (if Tied(le, c, s[0]) then [s[0]] else []) + TiedWith(le, c, s[1..])
  }

  /** Each class of equal keys of `s` keeps its order in `t`. */
  ghost predicate Stable<T(!new)>(le: (T, T) -> bool, s: seq<T>, t: seq<T>) {
    forall c :: TiedWith(le, c, s) == TiedWith(le, c, t)
  }

  lemma TiedWithCons<T>(le: (T, T) -> bool, c: T, x: T, s: seq<T>)
    ensures TiedWith(le, c, [x] + s) == (if Tied(le, c, x) then [x] else []) + TiedWith(le, c, s)
  {
    assert ([x] + s)[1..] == s;
  }

  lemma TiedWithOne<T(!new)>(le: (T, T) -> bool, c: T, x: T, y: T)
    requires TotalPreorder(le) && !le(x, y)
    ensures !(Tied(le, c, x) && Tied(le, c, y))
  {
    assert le(x, c) && le(c, y) ==> le(x, y);
  }

  /** Two neighbours not tied with the same key may swap. */
  lemma TiedWithSwap<T>(le: (T, T) -> bool, c: T, x: T, y: T, s: seq<T>)
    requires !(Tied(le, c, x) && Tied(le, c, y))
    ensures TiedWith(le, c, [x] + ([y] + s)) == TiedWith(le, c, [y] + ([x] + s))
  {
    TiedWithCons(le, c, x, [y] + s);
    TiedWithCons(le, c, y, s);
    TiedWithCons(le, c, y, [x] + s);
    TiedWithCons(le, c, x, s);
  }

  lemma {:induction false} InsertStable<T(!new)>(le: (T, T) -> bool, x: T, s: seq<T>, c: T)
    requires TotalPreorder(le)
    ensures TiedWith(le, c, Insert(le, x, s)) == TiedWith(le, c, [x] + s)
  {
    if s != [] && !le(x, s[0]) {
      var y, t := s[0], s[1..];
      InsertStable(le, x, t, c);
      TiedWithOne(le, c, x, y);
      TiedWithSwap(le, c, x, y, t);
      assert s == [y] + t;
      TiedWithCons(le, c, y, Insert(le, x, t));
      TiedWithCons(le, c, y, [x] + t);
    }
  }

  lemma {:induction false} SortStable<T(!new)>(le: (T, T) -> bool, s: seq<T>)
    requires TotalPreorder(le)
    ensures Stable(le, s, Sort(le, s))
  {
    if s != [] {
      SortStable(le, s[1..]);
      forall c ensures TiedWith(le, c, s) == TiedWith(le, c, Sort(le, s)) {
        InsertStable(le, s[0], Sort(le, s[1..]), c);
        assert ([s[0]] + Sort(le, s[1..]))[1..] == Sort(le, s[1..]);
      }
    }
  }

  lemma {:induction false} TiedWithMember<T>(le: (T, T) -> bool, c: T, s: seq<T>)
    requires TiedWith(le, c, s) != []
    ensures exists i :: 0 <= i < |s| && Tied(le, c, s[i])
  {
    if !Tied(le, c, s[0]) {
      TiedWithMember(le, c, s[1..]);
      var i :| 0 <= i < |s[1..]| && Tied(le, c, s[1..][i]);
      assert Tied(le, c, s[i + 1]);
    }
  }

  /** The head of a sorted sequence precedes every element tied with `c`. */
  lemma HeadFirst<T(!new)>(le: (T, T) -> bool, c: T, s: seq<T>)
    requires TotalPreorder(le) && Sorted(le, s) && TiedWith(le, c, s) != []
    ensures s != [] && le(s[0], c)
  {
    TiedWithMember(le, c, s);
    var i :| 0 <= i < |s| && Tied(le, c, s[i]);
    assert le(s[0], s[i]) && le(s[i], c);
  }

  /** Sorted and stable determines the outcome. */
  lemma {:induction false} StableSortUnique<T(!new)>(le: (T, T) -> bool, a: seq<T>, b: seq<T>)
    requires TotalPreorder(le) && Sorted(le, a) && Sorted(le, b) && Stable(le, a, b)
    requires |a| == |b|
    ensures a == b
  {
    if a != [] {
      assert TiedWith(le, a[0], a)[0] == a[0] && TiedWith(le, b[0], b)[0] == b[0];
      HeadFirst(le, a[0], b);
      HeadFirst(le, b[0], a);
      forall c ensures TiedWith(le, c, a[1..]) == TiedWith(le, c, b[1..]) {
        var h := if Tied(le, c, a[0]) then [a[0]] else [];
        assert TiedWith(le, c, a[1..]) == TiedWith(le, c, a)[|h|..];
        assert TiedWith(le, c, b[1..]) == TiedWith(le, c, b)[|h|..];
      }
      StableSortUnique(le, a[1..], b[1..]);
    }
  }
}

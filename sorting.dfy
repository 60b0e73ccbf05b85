/**
 * The `sortedLessons` view: a copy of the inventory sorted on one lesson
 * field, ascending or descending, with the comparator the storefront
 * passes to the array sort.
 */
module Sorting {
  import opened Model

  /**
   * `a` and `b` agree on their first `i` characters, and at position `i`
   * either `a` has ended while `b` goes on, or `a`'s character is smaller.
   */
  ghost predicate FirstDifference(a: string, b: string, i: int)
  {
    0 <= i <= |a| && i <= |b| && a[..i] == b[..i]
    && ((i == |a| && i < |b|) || (i < |a| && i < |b| && a[i] < b[i]))
  }

  /** JavaScript's `<` on strings: lexicographic order on characters. */
  function StrLess(a: string, b: string): (r: bool)
    ensures r <==> exists i :: FirstDifference(a, b, i)
  {
    if a == [] then
      assert b != [] ==> FirstDifference(a, b, 0);
      b != []
    else if b == [] then
      false
    else if a[0] < b[0] then
      assert FirstDifference(a, b, 0);
      true
    else if a[0] == b[0] then
      FirstDifferenceShift(a, b);
      StrLess(a[1..], b[1..])
    else
      assert forall i :: 0 < i <= |a| && i <= |b| ==> a[..i][0] == a[0] && b[..i][0] == b[0];
      false
  }

  /** Past an equal first character, first differences are those of the tails, shifted by one. */
  lemma FirstDifferenceShift(a: string, b: string)
    requires a != [] && b != [] && a[0] == b[0]
    ensures (exists i :: FirstDifference(a, b, i)) <==> (exists i :: FirstDifference(a[1..], b[1..], i))
  {
    if i :| FirstDifference(a, b, i) {
      assert i != 0;
      assert a[1..][..i - 1] == a[1..i] && b[1..][..i - 1] == b[1..i];
      assert a[1..i] == a[..i][1..] && b[1..i] == b[..i][1..];
      assert FirstDifference(a[1..], b[1..], i - 1);
    }
    if i :| FirstDifference(a[1..], b[1..], i) {
      assert a[..i + 1] == [a[0]] + a[1..][..i];
      assert b[..i + 1] == [b[0]] + b[1..][..i];
      assert FirstDifference(a, b, i + 1);
    }
  }

  lemma {:induction false} StrLessIrreflexive(a: string)
    ensures !StrLess(a, a)
  {
    if a != [] {
      StrLessIrreflexive(a[1..]);
    }
  }

  lemma {:induction false} StrLessTransitive(a: string, b: string, c: string)
    requires StrLess(a, b) && StrLess(b, c)
    ensures StrLess(a, c)
  {
    if a != [] && a[0] == b[0] && b[0] == c[0] {
      StrLessTransitive(a[1..], b[1..], c[1..]);
    }
  }

  lemma {:induction false} StrLessTrichotomy(a: string, b: string)
    ensures StrLess(a, b) || a == b || StrLess(b, a)
  {
    if a != [] && b != [] && a[0] == b[0] {
      StrLessTrichotomy(a[1..], b[1..]);
      if a[1..] == b[1..] {
        assert a == [a[0]] + a[1..] && b == [b[0]] + b[1..];
      }
    }
  }

  /** The key `key` of `a` is smaller than that of `b` (`a[key] < b[key]`). */
  predicate KeyLess(a: Lesson, b: Lesson, key: SortKey)
  {
    match key
    case Subject => StrLess(a.subject, b.subject)
    case Location => StrLess(a.location, b.location)
    case Price => a.price < b.price
    case Spaces => a.spaces < b.spaces
  }

  /** `a` and `b` agree on the key `key`. */
  predicate KeyEq(a: Lesson, b: Lesson, key: SortKey)
  {
    match key
    case Subject => a.subject == b.subject
    case Location => a.location == b.location
    case Price => a.price == b.price
    case Spaces => a.spaces == b.spaces
  }

  /** Every key is a strict total order: exactly one of less, equal, greater. */
  lemma KeyTrichotomy(a: Lesson, b: Lesson, key: SortKey)
    ensures KeyEq(a, b, key) ==> !KeyLess(a, b, key) && !KeyLess(b, a, key)
    ensures !KeyEq(a, b, key) ==> (KeyLess(a, b, key) <==> !KeyLess(b, a, key))
  {
    match key
    case Subject =>
      StrLessIrreflexive(a.subject);
      StrLessTrichotomy(a.subject, b.subject);
      if StrLess(a.subject, b.subject) && StrLess(b.subject, a.subject) {
        StrLessTransitive(a.subject, b.subject, a.subject);
      }
    case Location =>
      StrLessIrreflexive(a.location);
      StrLessTrichotomy(a.location, b.location);
      if StrLess(a.location, b.location) && StrLess(b.location, a.location) {
        StrLessTransitive(a.location, b.location, a.location);
      }
    case Price =>
    case Spaces =>
  }

  lemma KeyLessTransitive(a: Lesson, b: Lesson, c: Lesson, key: SortKey)
    requires KeyLess(a, b, key) && KeyLess(b, c, key)
    ensures KeyLess(a, c, key)
  {
    match key
    case Subject => StrLessTransitive(a.subject, b.subject, c.subject);
    case Location => StrLessTransitive(a.location, b.location, c.location);
    case Price =>
    case Spaces =>
  }

  /**
   * The comparator of the sort: negative when `a` goes first, positive
   * when `b` goes first, zero on equal keys; descending order flips the sign.
   */
  function Comparator(a: Lesson, b: Lesson, key: SortKey, ascending: bool): (r: int)
    ensures r == 0 <==> KeyEq(a, b, key)
    ensures ascending ==> (r < 0 <==> KeyLess(a, b, key)) && (r > 0 <==> KeyLess(b, a, key))
    ensures !ascending ==> (r < 0 <==> KeyLess(b, a, key)) && (r > 0 <==> KeyLess(a, b, key))
  {
    KeyTrichotomy(a, b, key);
    var modifier := if ascending then 1 else -1;
    if KeyLess(a, b, key) then -1 * modifier
    else if KeyLess(b, a, key) then 1 * modifier
    else 0
  }

  /** `a` may stand before `b` in the sorted view. */
  predicate Precedes(a: Lesson, b: Lesson, key: SortKey, ascending: bool)
  {
    Comparator(a, b, key, ascending) <= 0
  }

  lemma PrecedesTransitive(a: Lesson, b: Lesson, c: Lesson, key: SortKey, ascending: bool)
    requires Precedes(a, b, key, ascending) && Precedes(b, c, key, ascending)
    ensures Precedes(a, c, key, ascending)
  {
    KeyTrichotomy(a, b, key);
    KeyTrichotomy(b, c, key);
    KeyTrichotomy(a, c, key);
    if ascending {
      if KeyLess(c, a, key) {
        if KeyLess(a, b, key) { KeyLessTransitive(c, a, b, key); }
        else if KeyLess(b, c, key) { KeyLessTransitive(b, c, a, key); }
      }
    } else {
      if KeyLess(a, c, key) {
        if KeyLess(b, a, key) { KeyLessTransitive(b, a, c, key); }
        else if KeyLess(c, b, key) { KeyLessTransitive(a, c, b, key); }
      }
    }
  }

  /** Either order of two lessons is allowed, or the reverse one is. */
  lemma PrecedesTotal(a: Lesson, b: Lesson, key: SortKey, ascending: bool)
    ensures Precedes(a, b, key, ascending) || Precedes(b, a, key, ascending)
    ensures Precedes(a, b, key, ascending) && Precedes(b, a, key, ascending) ==> KeyEq(a, b, key)
  {
    KeyTrichotomy(a, b, key);
  }

  /** Every pair of positions is in comparator order. */
  ghost predicate Sorted(r: seq<Lesson>, key: SortKey, ascending: bool)
  {
    forall i, j :: 0 <= i < j < |r| ==> Precedes(r[i], r[j], key, ascending)
  }

  /** The lessons of `s` whose key equals that of `y`, in the order of `s`. */
  function KeyClass(s: seq<Lesson>, y: Lesson, key: SortKey): seq<Lesson>
  {
    if s == [] then []
    else (if KeyEq(s[0], y, key) then [s[0]] else []) + KeyClass(s[1..], y, key)
  }

  /** Stability: lessons with equal keys appear in `r` in the order they have in `s`. */
  ghost predicate StableFor(r: seq<Lesson>, s: seq<Lesson>, key: SortKey)
  {
    forall y :: KeyClass(r, y, key) == KeyClass(s, y, key)
  }

  /** Puts `x` before the first lesson of `t` it may precede. */
  function Insert(x: Lesson, t: seq<Lesson>, key: SortKey, ascending: bool): seq<Lesson>
  {
    if t == [] then [x]
    else if Precedes(x, t[0], key, ascending) then [x] + t
    else [t[0]] + Insert(x, t[1..], key, ascending)
  }

  /** The sorted copy of the inventory: a permutation in comparator order; ties keep their input order. */
  function SortBy(s: seq<Lesson>, key: SortKey, ascending: bool): (r: seq<Lesson>)
    ensures multiset(r) == multiset(s)
    ensures Sorted(r, key, ascending)
  {
    if s == [] then []
    else
      var t := SortBy(s[1..], key, ascending);
      InsertHead(s, t, key, ascending);
      Insert(s[0], t, key, ascending)
  }

  /** Inserting the head of `s` into a sorted permutation of its tail gives a sorted permutation of `s`. */
  lemma InsertHead(s: seq<Lesson>, t: seq<Lesson>, key: SortKey, ascending: bool)
    requires s != [] && multiset(t) == multiset(s[1..]) && Sorted(t, key, ascending)
    ensures multiset(Insert(s[0], t, key, ascending)) == multiset(s)
    ensures Sorted(Insert(s[0], t, key, ascending), key, ascending)
  {
    InsertPermutation(s[0], t, key, ascending);
    InsertSorted(s[0], t, key, ascending);
    assert s == [s[0]] + s[1..];
  }

  lemma {:induction false} InsertPermutation(x: Lesson, t: seq<Lesson>, key: SortKey, ascending: bool)
    ensures multiset(Insert(x, t, key, ascending)) == multiset(t) + multiset{x}
  {
    if t != [] && !Precedes(x, t[0], key, ascending) {
      InsertPermutation(x, t[1..], key, ascending);
      assert t == [t[0]] + t[1..];
    }
  }

  /** Sortedness extends to a new head that may precede every lesson of the tail. */
  lemma SortedCons(a: Lesson, rest: seq<Lesson>, key: SortKey, ascending: bool)
    requires Sorted(rest, key, ascending)
    requires forall e :: e in rest ==> Precedes(a, e, key, ascending)
    ensures Sorted([a] + rest, key, ascending)
  {
    var r := [a] + rest;
    forall i, j | 0 <= i < j < |r|
      ensures Precedes(r[i], r[j], key, ascending)
    {
      if i == 0 {
        assert r[j] == rest[j - 1];
      } else {
        assert r[i] == rest[i - 1] && r[j] == rest[j - 1];
      }
    }
  }

  lemma {:induction false} InsertSorted(x: Lesson, t: seq<Lesson>, key: SortKey, ascending: bool)
    requires Sorted(t, key, ascending)
    ensures Sorted(Insert(x, t, key, ascending), key, ascending)
  {
    if t == [] {
    } else if Precedes(x, t[0], key, ascending) {
      forall e | e in t
        ensures Precedes(x, e, key, ascending)
      {
        var j :| 0 <= j < |t| && t[j] == e;
        if j > 0 { PrecedesTransitive(x, t[0], e, key, ascending); }
      }
      SortedCons(x, t, key, ascending);
    } else {
      var rest := Insert(x, t[1..], key, ascending);
      assert Sorted(t[1..], key, ascending) by {
        forall i, j | 0 <= i < j < |t[1..]|
          ensures Precedes(t[1..][i], t[1..][j], key, ascending)
        {
          assert t[1..][i] == t[i + 1] && t[1..][j] == t[j + 1];
        }
      }
      InsertSorted(x, t[1..], key, ascending);
      InsertPermutation(x, t[1..], key, ascending);
      PrecedesTotal(x, t[0], key, ascending);
      forall e | e in rest
        ensures Precedes(t[0], e, key, ascending)
      {
        assert e in multiset(rest);
        if e != x {
          assert e in multiset(t[1..]);
          var k :| 0 <= k < |t[1..]| && t[1..][k] == e;
          assert t[k + 1] == e;
        }
      }
      SortedCons(t[0], rest, key, ascending);
    }
  }

  lemma {:induction false} KeyClassAppend(a: seq<Lesson>, b: seq<Lesson>, y: Lesson, key: SortKey)
    ensures KeyClass(a + b, y, key) == KeyClass(a, y, key) + KeyClass(b, y, key)
  {
    if a == [] {
      assert a + b == b;
    } else {
      KeyClassAppend(a[1..], b, y, key);
      var head := if KeyEq(a[0], y, key) then [a[0]] else [];
      assert (a + b)[0] == a[0] && (a + b)[1..] == a[1..] + b;
      assert KeyClass(a + b, y, key) == head + KeyClass(a[1..] + b, y, key);
      assert KeyClass(a, y, key) == head + KeyClass(a[1..], y, key);
      assert head + (KeyClass(a[1..], y, key) + KeyClass(b, y, key))
          == (head + KeyClass(a[1..], y, key)) + KeyClass(b, y, key);
    }
  }

  lemma {:induction false} InsertStable(x: Lesson, t: seq<Lesson>, key: SortKey, ascending: bool, y: Lesson)
    ensures KeyClass(Insert(x, t, key, ascending), y, key) == KeyClass([x] + t, y, key)
  {
    if t != [] && !Precedes(x, t[0], key, ascending) {
      InsertStable(x, t[1..], key, ascending, y);
      KeyClassAppend([t[0]], Insert(x, t[1..], key, ascending), y, key);
      KeyClassAppend([x], t[1..], y, key);
      KeyClassAppend([x], t, y, key);
      KeyClassAppend([t[0]], t[1..], y, key);
      assert t == [t[0]] + t[1..];
      // x and t[0] differ on the key, so at most one of them is in the class of y
      assert !KeyEq(x, t[0], key);
    }
  }

  /** `sortedLessons` is stable: lessons with equal keys keep their inventory order. */
  lemma {:induction false} SortByStable(s: seq<Lesson>, key: SortKey, ascending: bool)
    ensures StableFor(SortBy(s, key, ascending), s, key)
  {
    if s != [] {
      SortByStable(s[1..], key, ascending);
      var t := SortBy(s[1..], key, ascending);
      forall y
        ensures KeyClass(SortBy(s, key, ascending), y, key) == KeyClass(s, y, key)
      {
        InsertStable(s[0], t, key, ascending, y);
        KeyClassAppend([s[0]], t, y, key);
        KeyClassAppend([s[0]], s[1..], y, key);
        assert s == [s[0]] + s[1..];
      }
    }
  }

  lemma {:induction false} KeyClassMember(s: seq<Lesson>, y: Lesson, key: SortKey, x: Lesson)
    requires x in KeyClass(s, y, key)
    ensures x in s && KeyEq(x, y, key)
  {
    if s != [] && !(x == s[0] && KeyEq(s[0], y, key)) {
      assert x in KeyClass(s[1..], y, key);
      KeyClassMember(s[1..], y, key, x);
    }
  }

  /** Dropping the first lesson keeps a sequence sorted. */
  lemma SortedTail(r: seq<Lesson>, key: SortKey, ascending: bool)
    requires r != [] && Sorted(r, key, ascending)
    ensures Sorted(r[1..], key, ascending)
  {
    forall i, j | 0 <= i < j < |r[1..]|
      ensures Precedes(r[1..][i], r[1..][j], key, ascending)
    {
      assert r[1..][i] == r[i + 1] && r[1..][j] == r[j + 1];
    }
  }

  /** Two non-empty sorted sequences with the same key classes start with the same lesson. */
  lemma SameHead(r1: seq<Lesson>, r2: seq<Lesson>, key: SortKey, ascending: bool)
    requires r1 != [] && r2 != []
    requires Sorted(r1, key, ascending) && Sorted(r2, key, ascending)
    requires StableFor(r1, r2, key)
    ensures r1[0] == r2[0]
  {
    var m1, m2 := r1[0], r2[0];
    assert KeyClass(r1, m2, key) == KeyClass(r2, m2, key);
    assert m2 in KeyClass(r2, m2, key);
    KeyClassMember(r1, m2, key, m2);
    assert m1 in KeyClass(r1, m1, key);
    KeyClassMember(r2, m1, key, m1);
    var i :| 0 <= i < |r1| && r1[i] == m2;
    var j :| 0 <= j < |r2| && r2[j] == m1;
    KeyTrichotomy(m1, m1, key);
    KeyTrichotomy(m2, m2, key);
    assert Precedes(m1, m2, key, ascending);
    assert Precedes(m2, m1, key, ascending);
    PrecedesTotal(m1, m2, key, ascending);
    assert KeyClass(r1, m1, key)[0] == m1;
    assert KeyClass(r2, m1, key)[0] == m2;
    assert KeyClass(r1, m1, key) == KeyClass(r2, m1, key);
    assert m1 == m2;
  }

  /**
   * There is only one stable sorted arrangement: two sequences in
   * comparator order whose key classes agree are equal. So any stable sort
   * engine with this comparator gives the same result as SortBy.
   */
  lemma {:induction false} StableSortUnique(r1: seq<Lesson>, r2: seq<Lesson>, key: SortKey, ascending: bool)
    requires Sorted(r1, key, ascending) && Sorted(r2, key, ascending)
    requires StableFor(r1, r2, key)
    ensures r1 == r2
  {
    // a lesson is in its own key class, so neither sequence can be empty alone
    if r1 != [] { assert r1[0] in KeyClass(r1, r1[0], key); }
    if r2 != [] { assert r2[0] in KeyClass(r2, r2[0], key); }
    if r1 == [] || r2 == [] {
    } else {
      SameHead(r1, r2, key, ascending);
      var m1, m2 := r1[0], r2[0];
      forall y
        ensures KeyClass(r1[1..], y, key) == KeyClass(r2[1..], y, key)
      {
        var head := if KeyEq(m1, y, key) then [m1] else [];
        assert KeyClass(r1, y, key) == head + KeyClass(r1[1..], y, key);
        assert KeyClass(r2, y, key) == head + KeyClass(r2[1..], y, key);
        assert KeyClass(r1, y, key) == KeyClass(r2, y, key);
        assert KeyClass(r1[1..], y, key) == (head + KeyClass(r1[1..], y, key))[|head|..];
        assert KeyClass(r2[1..], y, key) == (head + KeyClass(r2[1..], y, key))[|head|..];
      }
      SortedTail(r1, key, ascending);
      SortedTail(r2, key, ascending);
      StableSortUnique(r1[1..], r2[1..], key, ascending);
      assert r1 == [m1] + r1[1..] && r2 == [m2] + r2[1..];
    }
  }

  /**
   * The inventory's sorted view is an ordered, stable permutation of it, and
   * it is the only such arrangement.
   */
  lemma SortedLessonsCorrect(s: seq<Lesson>, key: SortKey, ascending: bool, other: seq<Lesson>)
    ensures multiset(SortBy(s, key, ascending)) == multiset(s)
    ensures Sorted(SortBy(s, key, ascending), key, ascending)
    ensures StableFor(SortBy(s, key, ascending), s, key)
    ensures Sorted(other, key, ascending) && StableFor(other, s, key) ==> other == SortBy(s, key, ascending)
  {
    SortByStable(s, key, ascending);
    if Sorted(other, key, ascending) && StableFor(other, s, key) {
      StableSortUnique(other, SortBy(s, key, ascending), key, ascending);
    }
  }
}

/**
 * The `filteredLessons` view: the sorted lessons whose subject, location,
 * price or spaces contain the search query, ignoring letter case.
 */
module Filtering {
  import opened Model
  import opened Text
  import opened Sorting

  /** `q` occurs somewhere in `s`. */
  ghost predicate Occurs(q: string, s: string)
  {
    exists i :: OccursAt(q, s, i)
  }

  /**
   * The search predicate applied to one lesson: the lower-cased query
   * occurs in the lower-cased subject or location, or in the decimal form
   * of the price or of the spaces. The empty query matches every lesson.
   */
  function Matches(query: string, l: Lesson): (r: bool)
    ensures r <==> Occurs(ToLower(query), ToLower(l.subject)) || Occurs(ToLower(query), ToLower(l.location))
                   || Occurs(ToLower(query), IntToDecimal(l.price)) || Occurs(ToLower(query), IntToDecimal(l.spaces))
    ensures query == "" ==> r
  {
    var q := ToLower(query);
    assert query == "" ==> OccursAt(q, ToLower(l.subject), 0);
    Includes(ToLower(l.subject), q)
    || Includes(ToLower(l.location), q)
    || Includes(IntToDecimal(l.price), q)
    || Includes(IntToDecimal(l.spaces), q)
  }

  /** `r` is `s` with some elements dropped and the rest kept in order. */
  ghost predicate IsSubsequence(r: seq<Lesson>, s: seq<Lesson>)
  {
    if r == [] then true
    else if s == [] then false
    else (r[0] == s[0] && IsSubsequence(r[1..], s[1..])) || IsSubsequence(r, s[1..])
  }

  /** The lessons of `s` that match `query`, in the order of `s`. */
  function FilterLessons(s: seq<Lesson>, query: string): (r: seq<Lesson>)
    ensures IsSubsequence(r, s)
    ensures forall l :: multiset(r)[l] == if Matches(query, l) then multiset(s)[l] else 0
    ensures forall l :: l in r <==> l in s && Matches(query, l)
  {
    if s == [] then []
    else
      assert s == [s[0]] + s[1..];
      if Matches(query, s[0]) then [s[0]] + FilterLessons(s[1..], query)
      else FilterLessons(s[1..], query)
  }

  /** An empty search box keeps every lesson. */
  lemma {:induction false} EmptyQueryKeepsAll(s: seq<Lesson>)
    ensures FilterLessons(s, "") == s
  {
    if s != [] {
      EmptyIsIncluded(ToLower(s[0].subject));
      EmptyQueryKeepsAll(s[1..]);
    }
  }

  /** The query's own letter case does not matter. */
  lemma MatchesIgnoresQueryCase(query: string, l: Lesson)
    ensures Matches(ToLower(query), l) == Matches(query, l)
  {
    ToLowerIdempotent(query);
  }

  /** Filtering a sorted sequence leaves it sorted. */
  lemma {:induction false} FilterKeepsSorted(s: seq<Lesson>, query: string, key: SortKey, ascending: bool)
    requires Sorted(s, key, ascending)
    ensures Sorted(FilterLessons(s, query), key, ascending)
  {
    if s != [] {
      assert Sorted(s[1..], key, ascending) by {
        forall i, j | 0 <= i < j < |s[1..]|
          ensures Precedes(s[1..][i], s[1..][j], key, ascending)
        {
          assert s[1..][i] == s[i + 1] && s[1..][j] == s[j + 1];
        }
      }
      FilterKeepsSorted(s[1..], query, key, ascending);
      var rest := FilterLessons(s[1..], query);
      if Matches(query, s[0]) {
        forall e | e in rest
          ensures Precedes(s[0], e, key, ascending)
        {
          var k :| 0 <= k < |s[1..]| && s[1..][k] == e;
          assert s[k + 1] == e;
        }
        SortedCons(s[0], rest, key, ascending);
      }
    }
  }
}

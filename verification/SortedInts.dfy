/** Outcomes, and the sorted duplicate-free listing that sorted(set(xs)) and np.unique produce. */
module SortedInts {

  datatype Option<+T> = None | Some(value: T)

  datatype Outcome<+T> = Ok(value: T) | Error(message: string)

  ghost predicate Increasing(s: seq<int>) {
    forall i, j :: 0 <= i < j < |s| ==> s[i] < s[j]
  }

  function Insert(x: int, s: seq<int>): (r: seq<int>)
    requires Increasing(s)
    ensures Increasing(r)
    ensures forall y :: y in r <==> y == x || y in s
    ensures r != [] && forall y :: y in r ==> r[0] <= y
  {
    if s == [] then [x]
    else if x < s[0] then [x] + s
    else if x == s[0] then s
    else
      var r := Insert(x, s[1..]);
      assert forall i :: 0 <= i < |r| ==> r[i] in r;
      assert s == [s[0]] + s[1..];
      [s[0]] + r
  }

  function SortedDistinct(s: seq<int>): (r: seq<int>)
    ensures Increasing(r)
    ensures forall y :: y in r <==> y in s
    ensures r == [] <==> s == []
    ensures r != [] ==> r[0] in s && forall y :: y in s ==> r[0] <= y
  {
    if s == [] then [] else
      assert s == [s[0]] + s[1..];
      Insert(s[0], SortedDistinct(s[1..]))
  }

  /** An increasing sequence is determined by its members. */
  lemma {:induction false} IncreasingUnique(s: seq<int>, t: seq<int>)
    requires Increasing(s) && Increasing(t)
    requires forall y :: y in s <==> y in t
    ensures s == t
  {
    assert (s == [] || s[0] in s) && (t == [] || t[0] in t);
    if s != [] {
      assert s == [s[0]] + s[1..] && t == [t[0]] + t[1..];
      assert s[0] == t[0];
      assert forall i :: 0 <= i < |s[1..]| ==> s[1..][i] == s[i + 1];
      assert forall i :: 0 <= i < |t[1..]| ==> t[1..][i] == t[i + 1];
      assert s[0] !in s[1..] && t[0] !in t[1..];
      forall y ensures y in s[1..] <==> y in t[1..] {
        assert y in s <==> y == s[0] || y in s[1..];
        assert y in t <==> y == t[0] || y in t[1..];
      }
      IncreasingUnique(s[1..], t[1..]);
    }
  }

  lemma {:induction false} SubsetSize<T>(a: set<T>, b: set<T>)
    requires a <= b
    ensures |a| <= |b|
  {
    if a != {} {
      var x :| x in a;
      SubsetSize(a - {x}, b - {x});
    }
  }
}

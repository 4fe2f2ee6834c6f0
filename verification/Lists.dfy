/** Searching and filtering of tables. */
module Lists {

  /** The first position from k on whose row is a hit, or the length when there is none. */
  function FirstFrom<T>(rows: seq<T>, hit: T -> bool, k: nat): (i: nat)
    requires k <= |rows|
    ensures k <= i <= |rows|
    ensures i < |rows| ==> hit(rows[i])
    ensures forall j | k <= j < i :: !hit(rows[j])
    decreases |rows| - k
  {
    if k == |rows| || hit(rows[k]) then k else FirstFrom(rows, hit, k + 1)
  }

  function Filter<T(!new)>(rows: seq<T>, keep: T -> bool): (kept: seq<T>)
    ensures forall x :: x in kept <==> x in rows && keep(x)
    ensures |kept| <= |rows|
  {
    if rows == [] then []
    else if keep(rows[0]) then [rows[0]] + Filter(rows[1..], keep)
    else Filter(rows[1..], keep)
  }

  lemma {:induction false} FilterAppend<T(!new)>(a: seq<T>, b: seq<T>, keep: T -> bool)
    ensures Filter(a + b, keep) == Filter(a, keep) + Filter(b, keep)
  {
    if a == [] {
      assert a + b == b;
    } else {
      assert (a + b)[1..] == a[1..] + b;
      FilterAppend(a[1..], b, keep);
    }
  }

  lemma {:induction false} FilterAll<T(!new)>(rows: seq<T>, keep: T -> bool)
    requires forall x | x in rows :: keep(x)
    ensures Filter(rows, keep) == rows
  {
    if rows != [] { FilterAll(rows[1..], keep); }
  }

  lemma {:induction false} FilterNone<T(!new)>(rows: seq<T>, keep: T -> bool)
    requires forall x | x in rows :: !keep(x)
    ensures Filter(rows, keep) == []
  {
    if rows != [] { FilterNone(rows[1..], keep); }
  }
}

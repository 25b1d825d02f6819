/** Tables are sequences of rows; DELETE and WHERE keep the rows that satisfy a
    condition, in their order. */
module Rows {

  function Keep<T>(rows: seq<T>, p: T -> bool): seq<T> {
    if rows == [] then []
    else (if p(rows[0]) then [rows[0]] else []) + Keep(rows[1..], p)
  }

  lemma {:induction false} KeepAppend<T>(a: seq<T>, b: seq<T>, p: T -> bool)
    ensures Keep(a + b, p) == Keep(a, p) + Keep(b, p)
  {
    if a == [] {
      assert a + b == b;
    } else {
      var first := if p(a[0]) then [a[0]] else [];
      assert (a + b)[0] == a[0] && (a + b)[1..] == a[1..] + b;
      KeepAppend(a[1..], b, p);
      assert first + (Keep(a[1..], p) + Keep(b, p)) == (first + Keep(a[1..], p)) + Keep(b, p);
    }
  }

  lemma KeepOne<T>(r: T, p: T -> bool)
    ensures Keep([r], p) == if p(r) then [r] else []
  {
    assert [r][1..] == [];
  }

  lemma {:induction false} KeepMembers<T>(rows: seq<T>, p: T -> bool)
    ensures forall r :: r in Keep(rows, p) <==> r in rows && p(r)
  {
    if rows != [] {
      KeepMembers(rows[1..], p);
      assert rows == [rows[0]] + rows[1..];
    }
  }

  /** Filtering what has been filtered by a weaker condition is filtering once. */
  lemma {:induction false} KeepTwice<T>(rows: seq<T>, weak: T -> bool, strong: T -> bool)
    requires forall r :: r in rows && strong(r) ==> weak(r)
    ensures Keep(Keep(rows, weak), strong) == Keep(rows, strong)
  {
    if rows != [] {
      KeepTwice(rows[1..], weak, strong);
      KeepAppend(if weak(rows[0]) then [rows[0]] else [], Keep(rows[1..], weak), strong);
      assert Keep([rows[0]], strong) == if strong(rows[0]) then [rows[0]] else [];
    }
  }

  lemma {:induction false} KeepNone<T>(rows: seq<T>, p: T -> bool)
    requires forall r :: r in rows ==> !p(r)
    ensures Keep(rows, p) == []
  {
    if rows != [] { KeepNone(rows[1..], p); }
  }

  lemma {:induction false} KeepAll<T>(rows: seq<T>, p: T -> bool)
    requires forall r :: r in rows ==> p(r)
    ensures Keep(rows, p) == rows
  {
    if rows != [] { KeepAll(rows[1..], p); }
  }

  /** Only the value of the condition on the rows matters. */
  lemma {:induction false} KeepSame<T>(rows: seq<T>, p: T -> bool, q: T -> bool)
    requires forall r :: r in rows ==> p(r) == q(r)
    ensures Keep(rows, p) == Keep(rows, q)
  {
    if rows != [] { KeepSame(rows[1..], p, q); }
  }

  lemma {:induction false} KeepIsShorter<T>(rows: seq<T>, p: T -> bool)
    ensures |Keep(rows, p)| <= |rows|
    ensures |Keep(rows, p)| == |rows| <==> forall r :: r in rows ==> p(r)
  {
    if rows != [] { KeepIsShorter(rows[1..], p); }
  }
}

/** The shape shared by the services' validators: each runs a fixed list of checks in order and
    pushes one error per failing check, then reports `valid` when nothing was pushed. */
module Checks {

  datatype Validation<E> = Validation(valid: bool, errors: seq<E>)

  /** `errors` holds each error at most once, in the order of the checks that produce them. */
  predicate InCheckOrder<E>(errors: seq<E>, rank: E -> nat) {
    forall i, j :: 0 <= i < j < |errors| ==> rank(errors[i]) < rank(errors[j])
  }

  /** The error list after one check: `e` is pushed when the check failed. */
  function Push<E(==,!new)>(errors: seq<E>, failed: bool, e: E): (r: seq<E>)
    ensures forall x :: x in r <==> x in errors || (failed && x == e)
  {
    if failed then errors + [e] else errors
  }

  /** Pushing an error that ranks after every error already listed keeps the list in order. */
  lemma PushInCheckOrder<E(!new)>(errors: seq<E>, failed: bool, e: E, rank: E -> nat)
    requires InCheckOrder(errors, rank)
    requires forall x :: x in errors ==> rank(x) < rank(e)
    ensures InCheckOrder(Push(errors, failed, e), rank)
    ensures forall x :: x in Push(errors, failed, e) ==> rank(x) <= rank(e)
  {
    if failed {
      var r := errors + [e];
      forall i, j | 0 <= i < j < |r| ensures rank(r[i]) < rank(r[j]) {
        if j == |errors| {
          assert r[i] == errors[i] && errors[i] in errors;
        }
      }
    }
  }

  /** Two error lists in check order with the same members are the same list. */
  lemma {:induction false} InCheckOrderUnique<E>(a: seq<E>, b: seq<E>, rank: E -> nat)
    requires InCheckOrder(a, rank) && InCheckOrder(b, rank)
    requires forall e :: e in a <==> e in b
    ensures a == b
    decreases |a| + |b|
  {
    SameMembersBothEmpty(a, b);
    if a != [] {
      // the first element of each is the one of least rank among the common members
      assert a[0] in b;
      assert b[0] in a;
      var i :| 0 <= i < |b| && b[i] == a[0];
      var j :| 0 <= j < |a| && a[j] == b[0];
      if i > 0 {
        assert false;
      }
      assert a[0] == b[0];
      forall e | e in a[1..] ensures e in b[1..] {
        var k :| 1 <= k < |a| && a[k] == e;
        assert rank(a[0]) < rank(e);
        assert a[k] in a;
        var m :| 0 <= m < |b| && b[m] == e;
        assert m != 0;
        assert b[1..][m - 1] == e;
      }
      forall e | e in b[1..] ensures e in a[1..] {
        var k :| 1 <= k < |b| && b[k] == e;
        assert rank(b[0]) < rank(e);
        assert b[k] in b;
        var m :| 0 <= m < |a| && a[m] == e;
        assert m != 0;
        assert a[1..][m - 1] == e;
      }
      InCheckOrderUnique(a[1..], b[1..], rank);
      assert a == [a[0]] + a[1..];
      assert b == [b[0]] + b[1..];
    }
  }

  lemma SameMembersBothEmpty<E>(a: seq<E>, b: seq<E>)
    requires forall e :: e in a <==> e in b
    ensures a == [] <==> b == []
  {
    if a != [] {
      assert a[0] in b;
    }
    if b != [] {
      assert b[0] in a;
    }
  }
}

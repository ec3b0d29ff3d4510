/** Failure-carrying result types shared by every module of the model. */
module Wrappers {

  /** A value that may be absent (Python's `None`). */
  datatype Option<+T> = None | Some(value: T)

  /** The outcome of an operation that may raise: `Failure` carries the message
      of the exception the source raises. */
  datatype Result<+T> = Success(value: T) | Failure(error: string)

  /** The outcomes of a loop that stops at the first exception: every value
      in order, or the first failure. */
  function Collect<T>(rs: seq<Result<T>>): Result<seq<T>>
  {
    if rs == [] then Success([])
    else
      match Collect(rs[..|rs| - 1])
      case Failure(err) => Failure(err)
      case Success(vs) =>
        match rs[|rs| - 1]
        case Failure(err) => Failure(err)
        case Success(v) => Success(vs + [v])
  }

  /** Every outcome succeeded. */
  predicate AllSucceed<T>(rs: seq<Result<T>>)
  {
    forall k :: 0 <= k < |rs| ==> rs[k].Success?
  }

  /** The loop gets through exactly when no step fails, and then yields one
      value per step, in order. */
  lemma {:induction false} CollectSpec<T>(rs: seq<Result<T>>)
    ensures Collect(rs).Success? <==> AllSucceed(rs)
    ensures Collect(rs).Success? ==>
      |Collect(rs).value| == |rs| && forall k :: 0 <= k < |rs| ==> rs[k] == Success(Collect(rs).value[k])
    decreases |rs|
  {
    if rs != [] {
      var init := rs[..|rs| - 1];
      CollectSpec(init);
      assert forall k :: 0 <= k < |init| ==> init[k] == rs[k];
      if AllSucceed(rs) {
        assert rs[|rs| - 1].Success?;
      }
      if Collect(rs).Success? {
        var vs := Collect(init).value;
        assert Collect(rs).value == vs + [rs[|rs| - 1].value];
      }
    }
  }

  /** One more step of the loop: a success is appended, a failure stops it. */
  lemma CollectStep<T>(rs: seq<Result<T>>, i: nat)
    requires i < |rs| && Collect(rs[..i]).Success?
    ensures rs[i].Success? ==> Collect(rs[..i + 1]) == Success(Collect(rs[..i]).value + [rs[i].value])
    ensures rs[i].Failure? ==> Collect(rs[..i + 1]) == Failure(rs[i].error)
  {
    assert rs[..i + 1][..i] == rs[..i];
  }

  /** A failure among the first steps is the failure of the whole loop. */
  lemma {:induction false} CollectFails<T>(rs: seq<Result<T>>, m: nat)
    requires m <= |rs| && Collect(rs[..m]).Failure?
    ensures Collect(rs) == Collect(rs[..m])
    decreases |rs|
  {
    if m < |rs| {
      var init := rs[..|rs| - 1];
      assert init[..m] == rs[..m];
      CollectFails(init, m);
    } else {
      assert rs[..m] == rs;
    }
  }

  /** The failure the loop stops with is that of its first failing step. */
  lemma {:induction false} CollectFirstFailure<T>(rs: seq<Result<T>>)
    requires Collect(rs).Failure?
    ensures exists k :: 0 <= k < |rs| && rs[k].Failure? && Collect(rs).error == rs[k].error && AllSucceed(rs[..k])
    decreases |rs|
  {
    var init := rs[..|rs| - 1];
    if Collect(init).Failure? {
      CollectFirstFailure(init);
      var k :| 0 <= k < |init| && init[k].Failure? && Collect(init).error == init[k].error && AllSucceed(init[..k]);
      assert init[..k] == rs[..k];
    } else {
      CollectSpec(init);
      assert rs[|rs| - 1].Failure? && Collect(rs).error == rs[|rs| - 1].error;
      assert rs[..|rs| - 1] == init;
    }
  }

  /** The values present, in order. */
  function Somes<T>(s: seq<Option<T>>): seq<T>
  {
    if s == [] then []
    else Somes(s[..|s| - 1]) + (match s[|s| - 1] case Some(v) => [v] case None => [])
  }

  /** Concatenation regroups freely. */
  lemma ConcatAssoc<T>(a: seq<T>, b: seq<T>, c: seq<T>)
    ensures (a + b) + c == a + (b + c)
  {
  }

  /** Keeping the values present, one more element at a time. */
  lemma SomesStep<T>(s: seq<Option<T>>, i: nat)
    requires i < |s|
    ensures Somes(s[..i + 1]) == Somes(s[..i]) + (if s[i].Some? then [s[i].value] else [])
  {
    assert s[..i + 1][..i] == s[..i];
  }

  /** Keeping the values present works piece by piece. */
  lemma {:induction false} SomesAppend<T>(a: seq<Option<T>>, b: seq<Option<T>>)
    ensures Somes(a + b) == Somes(a) + Somes(b)
    decreases |b|
  {
    if b == [] {
      assert a + b == a;
    } else {
      var b' := b[..|b| - 1];
      SomesAppend(a, b');
      assert (a + b)[..|a + b| - 1] == a + b';
      assert (a + b)[|a + b| - 1] == b[|b| - 1];
    }
  }

  /** When every value is present, all are kept one for one. */
  lemma {:induction false} SomesAll<T>(s: seq<Option<T>>)
    requires forall k :: 0 <= k < |s| ==> s[k].Some?
    ensures |Somes(s)| == |s|
    ensures forall k :: 0 <= k < |s| ==> s[k] == Some(Somes(s)[k])
    decreases |s|
  {
    if s != [] {
      var init := s[..|s| - 1];
      SomesAll(init);
      assert forall k :: 0 <= k < |init| ==> init[k] == s[k];
    }
  }

  /** Every value kept was present, and nothing else is kept. */
  lemma {:induction false} SomesFrom<T>(s: seq<Option<T>>)
    ensures |Somes(s)| <= |s|
    ensures forall k :: 0 <= k < |Somes(s)| ==> exists m :: 0 <= m < |s| && s[m] == Some(Somes(s)[k])
    decreases |s|
  {
    if s != [] {
      var init := s[..|s| - 1];
      SomesFrom(init);
      var r := Somes(s);
      forall k | 0 <= k < |r|
        ensures exists m :: 0 <= m < |s| && s[m] == Some(r[k])
      {
        if k < |Somes(init)| {
          assert r[k] == Somes(init)[k];
          var m :| 0 <= m < |init| && init[m] == Some(Somes(init)[k]);
          assert s[m] == init[m];
        } else {
          assert s[|s| - 1] == Some(r[k]);
        }
      }
    }
  }
}

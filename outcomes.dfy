/** Option and Result values, and the Python exceptions the modelled code raises. */
module Outcomes {
  import Sorting

  datatype Option<+T> = None | Some(value: T)

  /** The exception classes raised by the modelled code, with the message or key they carry. */
  datatype Error =
    | KeyError(key: string)
    | IndexError(index: int)
    | ValueError(message: string)
    | TypeError(message: string)
    | RuntimeError(message: string)
    | AttributeError(name: string)
    | NotImplementedError(message: string)
    | ZeroDivisionError

  /** A call that either returns a value or raises. */
  datatype Result<+T> = Success(value: T) | Failure(error: Error)

  /**
   * A loop that visits items in order, stops at the first one that raises,
   * and collects the values of the items that yield one.
   */
  function Collect<T>(outs: seq<Result<Option<T>>>): Result<seq<T>>
  {
    if outs == [] then Success([])
    else
      var prev := Collect(outs[..|outs| - 1]);
      var last := outs[|outs| - 1];
      if prev.Failure? then prev
      else if last.Failure? then Failure(last.error)
      else if last.value.None? then prev
      else Success(prev.value + [last.value.value])
  }

  /** Once the loop has raised, the remaining items change nothing. */
  lemma {:induction false} CollectFailureStays<T>(outs: seq<Result<Option<T>>>, i: nat)
    requires i <= |outs| && Collect(outs[..i]).Failure?
    ensures Collect(outs) == Collect(outs[..i])
  {
    if i < |outs| {
      var init := outs[..|outs| - 1];
      assert init[..i] == outs[..i];
      CollectFailureStays(init, i);
    } else {
      assert outs[..i] == outs;
    }
  }

  /**
   * The loop succeeds exactly when no item raises; it then holds exactly the
   * yielded values, in the order of their items, and is empty exactly when
   * no item yields.
   */
  lemma {:induction false} CollectSpec<T>(outs: seq<Result<Option<T>>>)
    ensures Collect(outs).Success? <==> forall i :: 0 <= i < |outs| ==> outs[i].Success?
    ensures Collect(outs).Success? ==>
      var vs := Collect(outs).value;
      && (forall j :: 0 <= j < |vs| ==> exists i :: 0 <= i < |outs| && outs[i] == Success(Some(vs[j])))
      && (forall i :: 0 <= i < |outs| && outs[i].Success? && outs[i].value.Some? ==>
            exists j :: 0 <= j < |vs| && vs[j] == outs[i].value.value)
      && (vs == [] <==> forall i :: 0 <= i < |outs| ==> outs[i].value.None?)
  {
    CollectSucceedsAll(outs);
    if Collect(outs).Success? {
      CollectValues(outs);
      CollectEmptyIff(outs);
    }
  }

  lemma {:induction false} CollectSucceedsAll<T>(outs: seq<Result<Option<T>>>)
    ensures Collect(outs).Success? <==> forall i :: 0 <= i < |outs| ==> outs[i].Success?
  {
    if outs != [] {
      var init := outs[..|outs| - 1];
      CollectSucceedsAll(init);
      assert forall i :: 0 <= i < |init| ==> init[i] == outs[i];
    }
  }

  /** Every collected value comes from an item, and every item's value is collected. */
  lemma {:induction false} CollectValues<T>(outs: seq<Result<Option<T>>>)
    requires Collect(outs).Success?
    ensures var vs := Collect(outs).value;
      && (forall j :: 0 <= j < |vs| ==> exists i :: 0 <= i < |outs| && outs[i] == Success(Some(vs[j])))
      && (forall i :: 0 <= i < |outs| && outs[i].Success? && outs[i].value.Some? ==>
            exists j :: 0 <= j < |vs| && vs[j] == outs[i].value.value)
  {
    if outs != [] {
      var init, last := outs[..|outs| - 1], outs[|outs| - 1];
      CollectValues(init);
      assert forall i :: 0 <= i < |init| ==> init[i] == outs[i];
      var vs, ps := Collect(outs).value, Collect(init).value;
      if last.value.Some? {
        assert vs == ps + [last.value.value];
        forall j | 0 <= j < |vs|
          ensures exists i :: 0 <= i < |outs| && outs[i] == Success(Some(vs[j]))
        {
          if j == |ps| {
            assert outs[|outs| - 1] == Success(Some(vs[j]));
          } else {
            assert vs[j] == ps[j];
          }
        }
        forall i | 0 <= i < |outs| && outs[i].Success? && outs[i].value.Some?
          ensures exists j :: 0 <= j < |vs| && vs[j] == outs[i].value.value
        {
          if i == |init| {
            assert vs[|ps|] == outs[i].value.value;
          } else {
            var j :| 0 <= j < |ps| && ps[j] == init[i].value.value;
            assert vs[j] == ps[j];
          }
        }
      } else {
        assert vs == ps;
      }
    }
  }

  /** The loop collects nothing exactly when no item yields a value. */
  lemma {:induction false} CollectEmptyIff<T>(outs: seq<Result<Option<T>>>)
    requires Collect(outs).Success? && forall i :: 0 <= i < |outs| ==> outs[i].Success?
    ensures Collect(outs).value == [] <==> forall i :: 0 <= i < |outs| ==> outs[i].value.None?
  {
    if outs != [] {
      var init := outs[..|outs| - 1];
      assert forall i :: 0 <= i < |init| ==> init[i] == outs[i];
      CollectEmptyIff(init);
    }
  }

  /** Running the loop over two runs of items one after the other joins what each collects. */
  lemma {:induction false} CollectAppend<T>(a: seq<Result<Option<T>>>, b: seq<Result<Option<T>>>)
    requires Collect(a).Success? && Collect(b).Success?
    ensures Collect(a + b) == Success(Collect(a).value + Collect(b).value)
  {
    if b == [] {
      assert a + b == a && Collect(a).value + [] == Collect(a).value;
    } else {
      var init := b[..|b| - 1];
      CollectAppend(a, init);
      assert (a + b)[..|a + b| - 1] == a + init;
      assert (a + b)[|a + b| - 1] == b[|b| - 1];
      var last := b[|b| - 1];
      if last.value.Some? {
        assert Collect(a).value + Collect(init).value + [last.value.value]
            == Collect(a).value + (Collect(init).value + [last.value.value]);
      }
    }
  }

  /** The loop succeeds exactly when no item raises, whatever their order. */
  lemma CollectSucceeds<T>(outs: seq<Result<Option<T>>>)
    ensures Collect(outs).Success? <==> forall x :: x in outs ==> x.Success?
  {
    CollectSpec(outs);
    if Collect(outs).Success? {
      forall x | x in outs ensures x.Success? {
        var i :| 0 <= i < |outs| && outs[i] == x;
      }
    }
  }

  /**
   * Reordering the items reorders what the loop collects: it succeeds for
   * both orders or for neither, and then collects the same values.
   */
  lemma {:induction false} CollectPermutation<T>(a: seq<Result<Option<T>>>, b: seq<Result<Option<T>>>)
    requires multiset(a) == multiset(b) && Collect(a).Success?
    ensures Collect(b).Success?
    ensures multiset(Collect(a).value) == multiset(Collect(b).value)
    decreases |a|
  {
    CollectSucceeds(a);
    CollectSucceeds(b);
    assert forall x :: x in b ==> x in multiset(a);
    if a == [] {
      assert |b| == |multiset(b)| == 0;
    } else {
      var k := Sorting.RemoveLast(a, b);
      CollectRemove(a, |a| - 1);
      CollectRemove(b, k);
      assert a[..|a| - 1] + a[|a|..] == a[..|a| - 1];
      CollectPermutation(a[..|a| - 1], b[..k] + b[k + 1..]);
    }
  }

  /** Taking out the item at `k` loses what it collects. */
  lemma {:induction false} CollectRemove<T>(b: seq<Result<Option<T>>>, k: nat)
    requires k < |b| && Collect(b).Success?
    ensures Collect(b[..k] + b[k + 1..]).Success? && Collect([b[k]]).Success?
    ensures multiset(Collect(b).value) == multiset(Collect(b[..k] + b[k + 1..]).value) + multiset(Collect([b[k]]).value)
  {
    var b1, x, b2 := b[..k], b[k], b[k + 1..];
    assert b == (b1 + [x]) + b2;
    CollectParts(b1 + [x], b2);
    CollectParts(b1, [x]);
    CollectSplit(b1, x, b2);
  }

  /** When a whole run succeeds, so do its two parts. */
  lemma {:induction false} CollectParts<T>(a: seq<Result<Option<T>>>, b: seq<Result<Option<T>>>)
    requires Collect(a + b).Success?
    ensures Collect(a).Success? && Collect(b).Success?
  {
    CollectSucceeds(a + b);
    CollectSucceeds(a);
    CollectSucceeds(b);
  }

  /** An item between two runs: the whole collects what the three parts collect. */
  lemma {:induction false} CollectSplit<T>(b1: seq<Result<Option<T>>>, x: Result<Option<T>>, b2: seq<Result<Option<T>>>)
    requires Collect(b1).Success? && Collect([x]).Success? && Collect(b2).Success?
    ensures Collect(b1 + b2).Success? && Collect(b1 + [x] + b2).Success?
    ensures multiset(Collect(b1 + [x] + b2).value) == multiset(Collect(b1 + b2).value) + multiset(Collect([x]).value)
  {
    CollectAppend(b1, b2);
    CollectAppend(b1, [x]);
    CollectAppend(b1 + [x], b2);
  }
}

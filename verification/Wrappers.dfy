/** Failure-carrying values and the sequence vocabulary shared by the other modules. */
module Wrappers {

  datatype Option<+T> = None | Some(value: T)

  datatype Result<+T, +E> = Ok(value: T) | Err(error: E)

  function Last<T>(s: seq<T>): T
    requires s != []
  {
    s[|s| - 1]
  }

  function Front<T>(s: seq<T>): seq<T>
    requires s != []
  {
    s[..|s| - 1]
  }

  /** The concatenation of `batches`, first batch first. */
  function Flatten<T>(batches: seq<seq<T>>): seq<T>
  {
    if batches == [] then [] else Flatten(Front(batches)) + Last(batches)
  }

  lemma FlattenSnoc<T>(batches: seq<seq<T>>, batch: seq<T>)
    ensures Flatten(batches + [batch]) == Flatten(batches) + batch
  {
    assert Front(batches + [batch]) == batches;
  }

  lemma {:induction false} FlattenConcat<T>(a: seq<seq<T>>, b: seq<seq<T>>)
    ensures Flatten(a + b) == Flatten(a) + Flatten(b)
    decreases |b|
  {
    if b == [] {
      assert a + b == a;
    } else {
      assert a + b == (a + Front(b)) + [Last(b)];
      FlattenSnoc(a + Front(b), Last(b));
      FlattenConcat(a, Front(b));
      assert Flatten(a) + Flatten(Front(b)) + Last(b) == Flatten(a) + (Flatten(Front(b)) + Last(b));
    }
  }

  /** `out` is what `f` gives for those of the candidates it accepts, all of them and in order; `idx` says which. */
  ghost predicate Picks<A(!new), B>(candidates: seq<A>, f: A -> Option<B>, out: seq<B>, idx: seq<nat>)
  {
    && |idx| == |out|
    && (forall k | 0 <= k < |out| :: idx[k] < |candidates| && f(candidates[idx[k]]) == Some(out[k]))
    && (forall k, l | 0 <= k < l < |idx| :: idx[k] < idx[l])
    && (forall i | 0 <= i < |candidates| && f(candidates[i]).Some? :: i in idx)
  }

  ghost predicate PicksAll<A(!new), B>(candidates: seq<A>, f: A -> Option<B>, out: seq<B>)
  {
    exists idx :: Picks(candidates, f, out, idx)
  }

  lemma PicksNone<A(!new), B>(candidates: seq<A>, f: A -> Option<B>)
    requires candidates == []
    ensures PicksAll<A, B>(candidates, f, [])
  {
    assert Picks<A, B>(candidates, f, [], []);
  }

  lemma PicksSnoc<A(!new), B>(candidates: seq<A>, x: A, f: A -> Option<B>, out: seq<B>)
    requires PicksAll(candidates, f, out)
    ensures PicksAll(candidates + [x], f, if f(x).Some? then out + [f(x).value] else out)
  {
    var idx: seq<nat> :| Picks(candidates, f, out, idx);
    if f(x).Some? {
      PicksOneMore(candidates, x, f, out, idx);
    } else {
      assert Picks(candidates + [x], f, out, idx);
    }
  }

  function PickOut<A, B>(candidates: seq<A>, f: A -> Option<B>): seq<B>
  {
    if candidates == [] then []
    else
      var last := f(Last(candidates));
      PickOut(Front(candidates), f) + if last.Some? then [last.value] else []
  }

  lemma {:induction false} PickOutPicks<A(!new), B>(candidates: seq<A>, f: A -> Option<B>)
    ensures PicksAll(candidates, f, PickOut(candidates, f))
  {
    if candidates == [] {
      PicksNone(candidates, f);
    } else {
      var front, last := Front(candidates), Last(candidates);
      PickOutPicks(front, f);
      PicksSnoc(front, last, f, PickOut(front, f));
      assert candidates == front + [last];
      assert f(last).None? ==> PickOut(candidates, f) == PickOut(front, f);
    }
  }

  lemma PicksOneMore<A(!new), B>(candidates: seq<A>, x: A, f: A -> Option<B>, out: seq<B>, idx: seq<nat>)
    requires Picks(candidates, f, out, idx) && f(x).Some?
    ensures Picks(candidates + [x], f, out + [f(x).value], idx + [|candidates|])
  {
    var more, longer := candidates + [x], idx + [|candidates|];
    forall i | 0 <= i < |more| && f(more[i]).Some? ensures i in longer {
      if i == |candidates| {
        assert longer[|idx|] == i;
      } else {
        assert i in idx;
      }
    }
  }
}

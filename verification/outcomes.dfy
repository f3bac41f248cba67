/** Failure-carrying values and the "run steps in order, stop at the first
    exception" shape shared by every parsing loop of the pipeline. */
module Outcomes {

  datatype Option<+T> = None | Some(value: T)

  /** A Python call that either returns a value or raises an exception. */
  datatype Result<+T, +E> = Success(value: T) | Failure(error: E)

  /** Concatenation of a sequence of logs. */
  function Flatten<D>(logs: seq<seq<D>>): seq<D>
  {
    if logs == [] then [] else logs[0] + Flatten(logs[1..])
  }

  /** Logs that all read the same: empty ones flatten to nothing, one-line
      ones to that line once per log. */
  lemma {:induction false} FlattenUniform<D>(logs: seq<seq<D>>, u: seq<D>)
    requires forall i :: 0 <= i < |logs| ==> logs[i] == u
    ensures u == [] ==> Flatten(logs) == []
    ensures |u| == 1 ==> |Flatten(logs)| == |logs| && forall k :: 0 <= k < |logs| ==> Flatten(logs)[k] == u[0]
  {
    if logs != [] {
      FlattenUniform(logs[1..], u);
      if |u| == 1 {
        assert Flatten(logs) == u + Flatten(logs[1..]);
        forall k | 0 <= k < |logs| ensures Flatten(logs)[k] == u[0] {
          if k > 0 {
            assert Flatten(logs)[k] == Flatten(logs[1..])[k - 1];
          }
        }
      }
    }
  }

  /** The steps of a loop over xs: f applied to each element, in order. */
  function MapSeq<X, Y>(xs: seq<X>, f: X -> Y): (ys: seq<Y>)
    ensures |ys| == |xs| && forall i :: 0 <= i < |xs| ==> ys[i] == f(xs[i])
  {
    seq(|xs|, i requires 0 <= i < |xs| => f(xs[i]))
  }

  lemma MapSeqCons<X, Y>(xs: seq<X>, f: X -> Y)
    requires xs != []
    ensures MapSeq(xs, f)[0] == f(xs[0])
    ensures MapSeq(xs, f)[1..] == MapSeq(xs[1..], f)
  {
  }

  /** A loop over steps, each of which yields a value or raises, and emits
      diagnostics while it runs. The first raising step ends the loop; the
      diagnostics of every step that ran, the raising one included, remain. */
  function Collect<T, E, D>(steps: seq<(Result<T, E>, seq<D>)>): (Result<seq<T>, E>, seq<D>)
  {
    if steps == [] then (Success([]), [])
    else
      var log := steps[0].1;
      match steps[0].0
      case Failure(e) => (Failure(e), log)
      case Success(v) =>
        var rest := Collect(steps[1..]);
        (match rest.0
         case Success(vs) => Success([v] + vs)
         case Failure(e) => Failure(e),
         log + rest.1)
  }

  /** One more step after a prefix: what the loop body does per iteration. */
  lemma {:induction false} CollectAppend<T, E, D>(steps: seq<(Result<T, E>, seq<D>)>, x: (Result<T, E>, seq<D>))
    ensures Collect(steps).0.Failure? ==> Collect(steps + [x]) == Collect(steps)
    ensures Collect(steps).0.Success? && x.0.Success? ==>
      Collect(steps + [x]) == (Success(Collect(steps).0.value + [x.0.value]), Collect(steps).1 + x.1)
    ensures Collect(steps).0.Success? && x.0.Failure? ==>
      Collect(steps + [x]) == (Failure(x.0.error), Collect(steps).1 + x.1)
  {
    if steps == [] {
      assert steps + [x] == [x];
      assert [x][1..] == [];
      assert x.1 + [] == [] + x.1;
      if x.0.Success? {
        assert [x.0.value] + [] == [] + [x.0.value];
      } else {
        assert Collect([x]) == (Failure(x.0.error), x.1);
        assert Collect(steps) == (Success([]), []);
        assert Collect(steps).1 + x.1 == x.1;
      }
    } else {
      assert (steps + [x])[0] == steps[0];
      assert (steps + [x])[1..] == steps[1..] + [x];
      CollectAppend(steps[1..], x);
      var log, rest := steps[0].1, Collect(steps[1..]);
      assert log + (rest.1 + x.1) == (log + rest.1) + x.1;
      if steps[0].0.Success? && rest.0.Success? && x.0.Success? {
        var v := steps[0].0.value;
        assert [v] + (rest.0.value + [x.0.value]) == ([v] + rest.0.value) + [x.0.value];
      }
    }
  }

  /** One iteration of a loop that has run its first i steps successfully:
      a raising step ends the whole loop, a succeeding one extends it. */
  lemma CollectStep<T, E, D>(steps: seq<(Result<T, E>, seq<D>)>, i: nat, acc: seq<T>, log: seq<D>)
    requires i < |steps| && Collect(steps[..i]) == (Success(acc), log)
    ensures steps[i].0.Failure? ==> Collect(steps) == (Failure(steps[i].0.error), log + steps[i].1)
    ensures steps[i].0.Success? ==> Collect(steps[..i + 1]) == (Success(acc + [steps[i].0.value]), log + steps[i].1)
  {
    assert steps[..i + 1] == steps[..i] + [steps[i]];
    CollectAppend(steps[..i], steps[i]);
    if steps[i].0.Failure? {
      assert steps == steps[..i + 1] + steps[i + 1..];
      CollectStops(steps[..i + 1], steps[i + 1..]);
    }
  }

  /** A loop that succeeds ran its first step successfully, then the rest,
      and its diagnostics are the first step's followed by the rest's. */
  lemma CollectHead<T, E, D>(steps: seq<(Result<T, E>, seq<D>)>)
    requires steps != [] && Collect(steps).0.Success?
    ensures steps[0].0.Success? && Collect(steps[1..]).0.Success?
    ensures Collect(steps).1 == steps[0].1 + Collect(steps[1..]).1
  {
  }

  lemma CollectSingle<T, E, D>(steps: seq<(Result<T, E>, seq<D>)>)
    requires |steps| == 1
    ensures Collect(steps).0 == (if steps[0].0.Success? then Success([steps[0].0.value]) else Failure(steps[0].0.error))
  {
    assert steps[1..] == [];
    if steps[0].0.Success? {
      assert Collect(steps[1..]).0 == Success([]);
      assert [steps[0].0.value] + [] == [steps[0].0.value];
    }
  }

  /** Once a prefix has raised, later steps are never run. */
  lemma {:induction false} CollectStops<T, E, D>(steps: seq<(Result<T, E>, seq<D>)>, more: seq<(Result<T, E>, seq<D>)>)
    requires Collect(steps).0.Failure?
    ensures Collect(steps + more) == Collect(steps)
  {
    assert steps != [];
    if steps[0].0.Success? {
      assert (steps + more)[1..] == steps[1..] + more;
      CollectStops(steps[1..], more);
    }
  }

  /** What a finished loop means: it succeeds exactly when every step
      succeeds, and then yields one value per step, in step order, with all
      diagnostics; otherwise it reports the first raising step's error. */
  lemma {:induction false} CollectMeaning<T, E, D>(steps: seq<(Result<T, E>, seq<D>)>)
    ensures Collect(steps).0.Success? <==> forall i :: 0 <= i < |steps| ==> steps[i].0.Success?
    ensures Collect(steps).0.Success? ==>
      && |Collect(steps).0.value| == |steps|
      && (forall i :: 0 <= i < |steps| ==> Collect(steps).0.value[i] == steps[i].0.value)
      && Collect(steps).1 == Flatten(seq(|steps|, i requires 0 <= i < |steps| => steps[i].1))
    ensures Collect(steps).0.Failure? ==>
      exists k :: 0 <= k < |steps| && steps[k].0.Failure? && Collect(steps).0.error == steps[k].0.error
        && forall j :: 0 <= j < k ==> steps[j].0.Success?
  {
    if steps != [] {
      CollectMeaning(steps[1..]);
      var logs := seq(|steps|, i requires 0 <= i < |steps| => steps[i].1);
      assert logs[1..] == seq(|steps[1..]|, i requires 0 <= i < |steps[1..]| => steps[1..][i].1);
      if steps[0].0.Success? && Collect(steps[1..]).0.Failure? {
        var k :| 0 <= k < |steps[1..]| && steps[1..][k].0.Failure? && Collect(steps[1..]).0.error == steps[1..][k].0.error
          && forall j :: 0 <= j < k ==> steps[1..][j].0.Success?;
        assert steps[k + 1].0.Failure?;
        assert forall j :: 0 <= j < k + 1 ==> steps[j].0.Success? by {
          forall j | 0 <= j < k + 1 ensures steps[j].0.Success? {
            if j > 0 { assert steps[j] == steps[1..][j - 1]; }
          }
        }
      }
      if steps[0].0.Success? && Collect(steps[1..]).0.Success? {
        forall i | 0 <= i < |steps| ensures steps[i].0.Success? {
          if i > 0 { assert steps[i] == steps[1..][i - 1]; }
        }
      }
    }
  }
}

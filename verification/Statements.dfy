/** Executing a list of separate statements, none of them in a transaction, until they run
    out or one fails. */
module Statements {

  /** Where that gets: left more statements would have succeeded. */
  datatype Progress<S> = Progress(state: S, left: nat, ok: bool)

  ghost function Perform<S, A>(exec: (S, A) -> S, x: S, plan: seq<A>, left: nat): Progress<S>
    decreases |plan|
  {
    if plan == [] then Progress(x, left, true)
    else if left == 0 then Progress(x, 0, false)
    else Perform(exec, exec(x, plan[0]), plan[1..], left - 1)
  }

  lemma PerformNothing<S, A>(exec: (S, A) -> S, x: S, left: nat)
    ensures Perform(exec, x, [], left) == Progress(x, left, true)
  {}

  lemma PerformOne<S, A>(exec: (S, A) -> S, x: S, a: A, plan: seq<A>, left: nat)
    ensures Perform(exec, x, [a] + plan, left) ==
            if left == 0 then Progress(x, 0, false) else Perform(exec, exec(x, a), plan, left - 1)
  {
    assert ([a] + plan)[1..] == plan;
  }

  lemma PerformPair<S, A>(exec: (S, A) -> S, x: S, a: A, b: A, left: nat)
    ensures Perform(exec, x, [a, b], left) ==
            if left == 0 then Progress(x, 0, false)
            else if left == 1 then Progress(exec(x, a), 0, false)
            else Progress(exec(exec(x, a), b), left - 2, true)
  {
    assert [a, b] == [a] + [b] && [b] == [b] + [];
    PerformOne(exec, x, a, [b], left);
    if left > 0 { PerformOne(exec, exec(x, a), b, [], left - 1); }
  }

  lemma {:induction false} PerformInParts<S, A>(exec: (S, A) -> S, x: S, a: seq<A>, b: seq<A>, left: nat)
    ensures
      var p := Perform(exec, x, a, left);
      Perform(exec, x, a + b, left) == if p.ok then Perform(exec, p.state, b, p.left) else p
    decreases |a|
  {
    if a == [] {
      assert a + b == b;
    } else if left > 0 {
      assert (a + b)[0] == a[0] && (a + b)[1..] == a[1..] + b;
      PerformInParts(exec, exec(x, a[0]), a[1..], b, left - 1);
    }
  }

  /** It succeeds exactly when no more statements are planned than succeed. */
  lemma {:induction false} PerformCounts<S, A>(exec: (S, A) -> S, x: S, plan: seq<A>, left: nat)
    ensures Perform(exec, x, plan, left).ok <==> |plan| <= left
    ensures Perform(exec, x, plan, left).left == if |plan| <= left then left - |plan| else 0
    decreases |plan|
  {
    if plan != [] && left > 0 { PerformCounts(exec, exec(x, plan[0]), plan[1..], left - 1); }
  }
}

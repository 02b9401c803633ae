/** Runs of a machine that is given by its steps, and what is collected along them. */
module Runs {
  /** `r` lists the states that the actions lead through. */
  ghost predicate IsRun<S(!new), A(!new)>(next: (S, A, S) -> bool, r: seq<S>, acts: seq<A>) {
    && |r| == |acts| + 1
    && forall i {:trigger acts[i]} :: 0 <= i < |acts| ==> next(r[i], acts[i], r[i + 1])
  }

  lemma RunFront<S(!new), A(!new)>(next: (S, A, S) -> bool, r: seq<S>, acts: seq<A>)
    requires IsRun(next, r, acts) && acts != []
    ensures var n := |acts| - 1; IsRun(next, r[..n + 1], acts[..n]) && next(r[n], acts[n], r[n + 1])
  {
    var n := |acts| - 1;
    var front := acts[..n];
    assert forall i {:trigger front[i]} :: 0 <= i < n ==> front[i] == acts[i];
    var a := acts[n];
  }

  lemma RunsJoin<S(!new), A(!new)>(next: (S, A, S) -> bool, r: seq<S>, acts: seq<A>, q: seq<S>, more: seq<A>)
    requires IsRun(next, r, acts) && IsRun(next, q, more) && r[|acts|] == q[0]
    ensures IsRun(next, r + q[1..], acts + more)
    ensures (r + q[1..])[|acts + more|] == q[|more|] && (r + q[1..])[0] == r[0]
  {
    var all, both := acts + more, r + q[1..];
    forall i {:trigger all[i]} | 0 <= i < |all|
      ensures next(both[i], all[i], both[i + 1])
    {
      if i < |acts| {
        var a := acts[i];
      } else {
        var b := more[i - |acts|];
        assert both[i] == q[i - |acts|];
      }
    }
  }

  /** A run by these actions from `s` to `t`. */
  ghost predicate Leads<S(!new), A(!new)>(next: (S, A, S) -> bool, s: S, acts: seq<A>, t: S) {
    exists r :: IsRun(next, r, acts) && r[0] == s && r[|acts|] == t
  }

  lemma NoStep<S(!new), A(!new)>(next: (S, A, S) -> bool, s: S)
    ensures Leads(next, s, [], s)
  {
    var acts: seq<A> := [];
    assert IsRun(next, [s], acts);
  }

  lemma OneStep<S(!new), A(!new)>(next: (S, A, S) -> bool, s: S, a: A, t: S)
    requires next(s, a, t)
    ensures Leads(next, s, [a], t)
  {
    assert IsRun(next, [s, t], [a]);
  }

  lemma Join<S(!new), A(!new)>(next: (S, A, S) -> bool, s: S, acts: seq<A>, t: S, more: seq<A>, u: S)
    requires Leads(next, s, acts, t) && Leads(next, t, more, u)
    ensures Leads(next, s, acts + more, u)
  {
    var r :| IsRun(next, r, acts) && r[0] == s && r[|acts|] == t;
    var q :| IsRun(next, q, more) && q[0] == t && q[|more|] == u;
    RunsJoin(next, r, acts, q, more);
  }

  /** A run whose steps are also steps of another machine. */
  lemma LeadsAlso<S(!new), A(!new)>(next: (S, A, S) -> bool, other: (S, A, S) -> bool, s: S, acts: seq<A>, t: S)
    requires Leads(next, s, acts, t) && forall x, a, y :: next(x, a, y) ==> other(x, a, y)
    ensures Leads(other, s, acts, t)
  {
    var r :| IsRun(next, r, acts) && r[0] == s && r[|acts|] == t;
    forall i {:trigger acts[i]} | 0 <= i < |acts| ensures other(r[i], acts[i], r[i + 1]) {
      assert next(r[i], acts[i], r[i + 1]);
    }
    assert IsRun(other, r, acts);
  }

  /** What every step keeps holds throughout. */
  lemma {:induction false} Invariant<S(!new), A(!new)>(
      next: (S, A, S) -> bool, inv: S -> bool, r: seq<S>, acts: seq<A>, k: nat)
    requires IsRun(next, r, acts) && inv(r[0]) && k < |r|
    requires forall s, a, t :: inv(s) && next(s, a, t) ==> inv(t)
    ensures inv(r[k])
    decreases k
  {
    if k > 0 {
      Invariant(next, inv, r, acts, k - 1);
      var a := acts[k - 1];
      assert next(r[k - 1], a, r[k]);
    }
  }

  /** Number of steps of a run for which `p` holds. */
  function Count<S, A>(r: seq<S>, acts: seq<A>, p: (S, A) -> bool): nat
    requires |acts| <= |r|
    decreases |acts|
  {
    if acts == [] then 0
    else Count(r, acts[..|acts| - 1], p) + One(p(r[|acts| - 1], acts[|acts| - 1]))
  }

  function One(b: bool): nat {
    if b then 1 else 0
  }

  function Never<S, A>(s: S, a: A): bool {
    false
  }

  lemma {:induction false} CountFront<S, A>(r: seq<S>, m: nat, acts: seq<A>, p: (S, A) -> bool)
    requires |acts| <= m <= |r|
    ensures Count(r[..m], acts, p) == Count(r, acts, p)
    decreases |acts|
  {
    if acts != [] {
      CountFront(r, m, acts[..|acts| - 1], p);
    }
  }

  lemma {:induction false} NeverCounted<S, A>(r: seq<S>, acts: seq<A>)
    requires |acts| <= |r|
    ensures Count(r, acts, Never) == 0
    decreases |acts|
  {
    if acts != [] {
      NeverCounted(r, acts[..|acts| - 1]);
    }
  }

  /** An account that every step of one kind lowers and only steps of another kind raise bounds the
      number of steps of the first kind. */
  lemma {:induction false} Balance<S(!new), A(!new)>(
      next: (S, A, S) -> bool, inv: S -> bool, down: (S, A) -> bool, up: (S, A) -> bool, account: S -> int,
      r: seq<S>, acts: seq<A>)
    requires IsRun(next, r, acts) && inv(r[0])
    requires forall s, a, t :: inv(s) && next(s, a, t) ==>
               inv(t) && account(t) + One(down(s, a)) <= account(s) + One(up(s, a))
    ensures inv(r[|acts|])
    ensures account(r[|acts|]) + Count(r, acts, down) <= account(r[0]) + Count(r, acts, up)
    decreases |acts|
  {
    if acts != [] {
      var n := |acts| - 1;
      RunFront(next, r, acts);
      Balance(next, inv, down, up, account, r[..n + 1], acts[..n]);
      CountFront(r, n + 1, acts[..n], down);
      CountFront(r, n + 1, acts[..n], up);
      assert next(r[n], acts[n], r[n + 1]);
    }
  }

  /** What the steps of a run add up to. */
  function Collect<S, A, T>(r: seq<S>, acts: seq<A>, f: (S, A) -> seq<T>): seq<T>
    requires |acts| <= |r|
    decreases |acts|
  {
    if acts == [] then []
    else Collect(r, acts[..|acts| - 1], f) + f(r[|acts| - 1], acts[|acts| - 1])
  }

  lemma {:induction false} CollectFront<S, A, T>(r: seq<S>, m: nat, acts: seq<A>, f: (S, A) -> seq<T>)
    requires |acts| <= m <= |r|
    ensures Collect(r[..m], acts, f) == Collect(r, acts, f)
    decreases |acts|
  {
    if acts != [] {
      CollectFront(r, m, acts[..|acts| - 1], f);
    }
  }

  /** A queue that loses at the front what is taken and gains at the back what is put passes everything
      on in order. */
  lemma {:induction false} QueueInOrder<S(!new), A(!new), T>(
      next: (S, A, S) -> bool, queue: S -> seq<T>, put: (S, A) -> seq<T>, taken: (S, A) -> seq<T>,
      r: seq<S>, acts: seq<A>)
    requires IsRun(next, r, acts)
    requires forall s, a, t :: next(s, a, t) ==> taken(s, a) + queue(t) == queue(s) + put(s, a)
    ensures Collect(r, acts, taken) + queue(r[|acts|]) == queue(r[0]) + Collect(r, acts, put)
    decreases |acts|
  {
    if acts == [] {
      assert queue(r[0]) == [] + queue(r[0]) == queue(r[0]) + [];
    } else {
      var n := |acts| - 1;
      var s, a, t := r[n], acts[n], r[n + 1];
      RunFront(next, r, acts);
      QueueInOrder(next, queue, put, taken, r[..n + 1], acts[..n]);
      CollectFront(r, n + 1, acts[..n], put);
      CollectFront(r, n + 1, acts[..n], taken);
      assert next(s, a, t);
      Regroup(Collect(r, acts[..n], taken), taken(s, a), queue(t), queue(s), put(s, a), queue(r[0]),
          Collect(r, acts[..n], put));
    }
  }

  lemma Regroup<T>(taken: seq<T>, t: seq<T>, next: seq<T>, now: seq<T>, q: seq<T>, first: seq<T>, queued: seq<T>)
    requires t + next == now + q && taken + now == first + queued
    ensures (taken + t) + next == first + (queued + q)
  {
    assert (taken + t) + next == taken + (t + next);
    assert taken + (now + q) == (taken + now) + q;
    assert (first + queued) + q == first + (queued + q);
  }
}

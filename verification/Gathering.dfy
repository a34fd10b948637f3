/** Sums over the workers of a pool: multisets of what they hold, and of a rank. */
module Gathering {
  import opened Pool

  ghost function Gather<T>(f: PC -> multiset<T>, pcs: seq<PC>): multiset<T> {
    if pcs == [] then multiset{} else f(pcs[0]) + Gather(f, pcs[1..])
  }

  ghost function Total(f: PC -> nat, pcs: seq<PC>): nat {
    if pcs == [] then 0 else f(pcs[0]) + Total(f, pcs[1..])
  }

  lemma {:induction false} GatherUpdate<T>(f: PC -> multiset<T>, pcs: seq<PC>, w: nat, pc: PC)
    requires w < |pcs|
    ensures Gather(f, pcs[w := pc]) + f(pcs[w]) == Gather(f, pcs) + f(pc)
    ensures f(pcs[w]) <= Gather(f, pcs)
  {
    if w == 0 {
      assert pcs[w := pc][1..] == pcs[1..];
    } else {
      assert pcs[w := pc][1..] == pcs[1..][w - 1 := pc];
      GatherUpdate(f, pcs[1..], w - 1, pc);
      var before, after := Gather(f, pcs[1..]), Gather(f, pcs[1..][w - 1 := pc]);
      assert f(pcs[0]) + after + f(pcs[w]) == f(pcs[0]) + (after + f(pcs[w]));
      assert f(pcs[0]) + before + f(pc) == f(pcs[0]) + (before + f(pc));
    }
  }

  lemma {:induction false} GatherTwo<T>(f: PC -> multiset<T>, pcs: seq<PC>, v: nat, w: nat)
    requires v < w < |pcs|
    ensures f(pcs[v]) + f(pcs[w]) <= Gather(f, pcs)
  {
    if v == 0 {
      GatherUpdate(f, pcs[1..], w - 1, pcs[w]);
    } else {
      GatherTwo(f, pcs[1..], v - 1, w - 1);
    }
  }

  lemma {:induction false} GatherSame<T>(f: PC -> multiset<T>, p: seq<PC>, q: seq<PC>)
    requires |p| == |q| && forall i :: 0 <= i < |p| ==> f(p[i]) == f(q[i])
    ensures Gather(f, p) == Gather(f, q)
  {
    if p != [] { GatherSame(f, p[1..], q[1..]); }
  }

  lemma {:induction false} GatherNone<T>(f: PC -> multiset<T>, pcs: seq<PC>)
    requires forall i :: 0 <= i < |pcs| ==> f(pcs[i]) == multiset{}
    ensures Gather(f, pcs) == multiset{}
  {
    if pcs != [] { GatherNone(f, pcs[1..]); }
  }

  lemma {:induction false} TotalUpdate(f: PC -> nat, pcs: seq<PC>, w: nat, pc: PC)
    requires w < |pcs|
    ensures Total(f, pcs[w := pc]) + f(pcs[w]) == Total(f, pcs) + f(pc)
  {
    if w == 0 {
      assert pcs[w := pc][1..] == pcs[1..];
    } else {
      assert pcs[w := pc][1..] == pcs[1..][w - 1 := pc];
      TotalUpdate(f, pcs[1..], w - 1, pc);
    }
  }

  lemma {:induction false} TotalSame(f: PC -> nat, p: seq<PC>, q: seq<PC>)
    requires |p| == |q| && forall i :: 0 <= i < |p| ==> f(p[i]) == f(q[i])
    ensures Total(f, p) == Total(f, q)
  {
    if p != [] { TotalSame(f, p[1..], q[1..]); }
  }
}

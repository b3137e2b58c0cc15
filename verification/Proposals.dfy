/** Paxos proposal numbers: a counter made unique by the proposer's name. */
module Proposals {
  import opened Names

  datatype Prop = Prop(n: nat, m: string)

  predicate Gt(a: Prop, b: Prop) {
    a.n > b.n || (a.n == b.n && Below(b.m, a.m))
  }

  /** `a.m >= b.m` on std::string is `!(a.m < b.m)`. */
  predicate Geq(a: Prop, b: Prop) {
    a.n > b.n || (a.n == b.n && !Below(a.m, b.m))
  }

  /** The two operators are the strict and the non-strict form of one total order. */
  lemma PropOrder(a: Prop, b: Prop)
    ensures Geq(a, b) <==> a == b || Gt(a, b)
    ensures Geq(a, b) <==> !Gt(b, a)
    ensures Gt(a, b) ==> a != b
  {
    BelowIsStrictAndTotal(a.m, b.m);
  }

  lemma PropTransitive(a: Prop, b: Prop, c: Prop)
    requires Geq(a, b) && Geq(b, c)
    ensures Geq(a, c)
    ensures Gt(a, b) || Gt(b, c) ==> Gt(a, c)
  {
    PropOrder(a, b);
    PropOrder(b, c);
    PropOrder(a, c);
    if Below(b.m, a.m) && Below(c.m, b.m) {
      BelowIsTransitive(c.m, b.m, a.m);
    }
  }
}

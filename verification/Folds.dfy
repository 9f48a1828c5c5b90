// Changes to a model, and models compared up to what is not worth a write.
//
// The replicas do not care what a change does, only how changes behave. A kit is
// a way of applying changes, with the comparison of models it respects.

module Folds {
  import opened AccessModel

  datatype Refusal = NotFound | Exists | NotManaged

  // A change ends in something to write, in nothing to write, or in a refusal.
  datatype Outcome = Write | NoChange | Refused(why: Refusal)
  datatype Effect<+M> = Effect(model: M, outcome: Outcome)

  datatype Kit<!M, !C> = Kit(empty: M, apply: (C, Instant, M) -> Effect<M>, alike: (M, M) -> bool)

  // Alike models cannot be told apart by any change, and a change that is not
  // written leaves the model alike.
  ghost predicate Lawful<M(!new), C(!new)>(kit: Kit<M, C>) {
    && (forall m :: kit.alike(m, m))
    && (forall m, n, o :: kit.alike(m, n) && kit.alike(n, o) ==> kit.alike(m, o))
    && (forall c, now, m, n :: kit.alike(m, n) ==>
          && kit.apply(c, now, m).outcome == kit.apply(c, now, n).outcome
          && kit.alike(kit.apply(c, now, m).model, kit.apply(c, now, n).model))
    && (forall c, now, m :: kit.apply(c, now, m).outcome != Write ==> kit.alike(kit.apply(c, now, m).model, m))
  }

  datatype CallId = CallId(replica: nat, serial: nat)

  // One call's change, as it was run at `now`.
  datatype Stamped<C> = Stamped(id: CallId, change: C, now: Instant)

  ghost function Fold<M, C>(kit: Kit<M, C>, cs: seq<Stamped<C>>, m: M): M {
    if cs == [] then m
    else
      var last := cs[|cs| - 1];
      kit.apply(last.change, last.now, Fold(kit, cs[..|cs| - 1], m)).model
  }

  // n is m, up to what is not worth a write, with the changes made in order.
  ghost predicate Leads<M, C>(kit: Kit<M, C>, m: M, cs: seq<Stamped<C>>, n: M) {
    kit.alike(n, Fold(kit, cs, m))
  }

  lemma FoldPush<M, C>(kit: Kit<M, C>, cs: seq<Stamped<C>>, c: Stamped<C>, m: M)
    ensures Fold(kit, cs + [c], m) == kit.apply(c.change, c.now, Fold(kit, cs, m)).model
  {
    assert (cs + [c])[..|cs|] == cs;
  }

  lemma {:induction false} FoldAlike<M(!new), C(!new)>(kit: Kit<M, C>, cs: seq<Stamped<C>>, m: M, n: M)
    requires Lawful(kit) && kit.alike(m, n)
    ensures kit.alike(Fold(kit, cs, m), Fold(kit, cs, n))
  {
    if cs != [] {
      FoldAlike(kit, cs[..|cs| - 1], m, n);
    }
  }

  lemma {:induction false} FoldJoin<M, C>(kit: Kit<M, C>, cs: seq<Stamped<C>>, ds: seq<Stamped<C>>, m: M)
    ensures Fold(kit, cs + ds, m) == Fold(kit, ds, Fold(kit, cs, m))
  {
    if ds == [] {
      assert cs + ds == cs;
    } else {
      var n := |ds| - 1;
      FoldJoin(kit, cs, ds[..n], m);
      assert cs + ds == (cs + ds[..n]) + [ds[n]];
      FoldPush(kit, cs + ds[..n], ds[n], m);
    }
  }

  lemma LeadsNowhere<M(!new), C(!new)>(kit: Kit<M, C>, m: M)
    requires Lawful(kit)
    ensures Leads(kit, m, [], m)
  {
  }

  lemma LeadsChain<M(!new), C(!new)>(kit: Kit<M, C>, cs: seq<Stamped<C>>, ds: seq<Stamped<C>>, m0: M, m1: M, m2: M)
    requires Lawful(kit) && Leads(kit, m0, cs, m1) && Leads(kit, m1, ds, m2)
    ensures Leads(kit, m0, cs + ds, m2)
  {
    FoldJoin(kit, cs, ds, m0);
    FoldAlike(kit, ds, m1, Fold(kit, cs, m0));
  }

  // A change made to n, next to the same change made on top of what led to n.
  lemma LeadsOn<M(!new), C(!new)>(kit: Kit<M, C>, cs: seq<Stamped<C>>, call: Stamped<C>, m: M, n: M)
    requires Lawful(kit) && Leads(kit, m, cs, n)
    ensures var e := kit.apply(call.change, call.now, n);
      Leads(kit, m, if e.outcome == Write then cs + [call] else cs, e.model)
  {
    FoldPush(kit, cs, call, m);
  }
}

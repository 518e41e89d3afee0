/** Exactly when the order in which PATCHes arrive does not matter. */
module MergeOrder {
  import opened FieldMerge

  /** A patch that beats the stored stamp of a field, and no other sets the field later in time. */
  predicate Newest(m: Merged, ps: seq<Patch>, f: Field, i: int)
  {
    && 0 <= i < |ps| && Sets(ps[i], f) && WinsField(m.stamps, f, ps[i].at)
    && forall j :: 0 <= j < |ps| && Sets(ps[j], f) ==> ps[j].at <= ps[i].at
  }

  /** The newest patches of a field set it to one value. */
  ghost predicate NewestAgree(m: Merged, ps: seq<Patch>, f: Field)
  {
    forall i, j :: Newest(m, ps, f, i) && Newest(m, ps, f, j) ==> ps[i].fields[f] == ps[j].fields[f]
  }

  lemma NoTiesAgree(m: Merged, ps: seq<Patch>, f: Field)
    requires NoTies(ps)
    ensures NewestAgree(m, ps, f)
  {
    forall i, j | Newest(m, ps, f, i) && Newest(m, ps, f, j) ensures i == j { assert ps[i].at == ps[j].at; }
  }

  ghost predicate SameInEveryOrder(m: Merged, ps: seq<Patch>, f: Field)
  {
    forall qs :: multiset(qs) == multiset(ps) ==> SameAt(ApplyAll(m, ps), ApplyAll(m, qs), f)
  }

  lemma DecidingIsNewest(m: Merged, ps: seq<Patch>, qs: seq<Patch>, f: Field, j: nat) returns (i: nat)
    requires multiset(ps) == multiset(qs) && Decides(m, qs, f, j)
    ensures Newest(m, ps, f, i) && ps[i] == qs[j]
  {
    i := Occurs(qs, ps, j);
    forall k | 0 <= k < |ps| && Sets(ps[k], f) ensures ps[k].at <= ps[i].at {
      var l := Occurs(ps, qs, k);
    }
  }

  lemma AgreeingOrdersMatch(m: Merged, ps: seq<Patch>, qs: seq<Patch>, f: Field)
    requires multiset(ps) == multiset(qs) && NewestAgree(m, ps, f)
    ensures SameAt(ApplyAll(m, ps), ApplyAll(m, qs), f)
  {
    var i := FieldOutcome(m, ps, f);
    var j := FieldOutcome(m, qs, f);
    if i >= 0 {
      var k := DecidingIsNewest(m, ps, ps, f, i);
      var l := Occurs(ps, qs, i);
      if j >= 0 { var n := DecidingIsNewest(m, ps, qs, f, j); }
    } else if j >= 0 {
      var k := Occurs(qs, ps, j);
    }
  }

  /** Devices may deliver their edits in any order: every permutation of a run without ties
      leaves the same values and the same field timestamps. */
  lemma MergeIsOrderIndependent(m: Merged, ps: seq<Patch>, qs: seq<Patch>)
    requires multiset(ps) == multiset(qs) && NoTies(ps)
    ensures ApplyAll(m, ps) == ApplyAll(m, qs)
  {
    forall f ensures SameAt(ApplyAll(m, ps), ApplyAll(m, qs), f) {
      NoTiesAgree(m, ps, f);
      AgreeingOrdersMatch(m, ps, qs, f);
    }
    EqualEverywhere(ApplyAll(m, ps), ApplyAll(m, qs));
  }

  function MovedFirst(ps: seq<Patch>, i: nat): seq<Patch>
    requires i < |ps|
  {
    [ps[i]] + (ps[..i] + ps[i + 1..])
  }

  lemma MovedFirstIsAnOrder(ps: seq<Patch>, i: nat)
    requires i < |ps|
    ensures multiset(MovedFirst(ps, i)) == multiset(ps)
  {
    assert ps == ps[..i] + ([ps[i]] + ps[i + 1..]);
  }

  /** A newest patch that arrives first keeps the field. */
  lemma FirstNewestDecides(m: Merged, ps: seq<Patch>, f: Field, i: nat)
    requires Newest(m, ps, f, i)
    ensures Holds(ApplyAll(m, MovedFirst(ps, i)), f, ps[i])
  {
    var qs := MovedFirst(ps, i);
    MovedFirstIsAnOrder(ps, i);
    var j := FieldOutcome(m, qs, f);
    assert qs[0] == ps[i];
    if j > 0 { var k := Occurs(qs, ps, j); }
  }

  /** A field comes out the same in every order exactly if the newest patches that beat its stored stamp
      set the same value. */
  lemma FieldOrderExact(m: Merged, ps: seq<Patch>, f: Field)
    ensures SameInEveryOrder(m, ps, f) <==> NewestAgree(m, ps, f)
  {
    if NewestAgree(m, ps, f) {
      forall qs | multiset(qs) == multiset(ps) ensures SameAt(ApplyAll(m, ps), ApplyAll(m, qs), f) {
        AgreeingOrdersMatch(m, ps, qs, f);
      }
    }
    if SameInEveryOrder(m, ps, f) {
      forall i, j | Newest(m, ps, f, i) && Newest(m, ps, f, j) ensures ps[i].fields[f] == ps[j].fields[f] {
        FirstNewestDecides(m, ps, f, i);
        FirstNewestDecides(m, ps, f, j);
        MovedFirstIsAnOrder(ps, i);
        MovedFirstIsAnOrder(ps, j);
        assert SameAt(ApplyAll(m, ps), ApplyAll(m, MovedFirst(ps, i)), f) &&
          SameAt(ApplyAll(m, ps), ApplyAll(m, MovedFirst(ps, j)), f);
      }
    }
  }

  ghost predicate OrderIrrelevant(m: Merged, ps: seq<Patch>)
  {
    forall qs :: multiset(qs) == multiset(ps) ==> ApplyAll(m, qs) == ApplyAll(m, ps)
  }

  /** And so the whole row, values and stamps: every order of arrival leaves the same exactly if that
      holds of every field. */
  lemma OrderExact(m: Merged, ps: seq<Patch>)
    ensures OrderIrrelevant(m, ps) <==> forall f :: NewestAgree(m, ps, f)
  {
    if OrderIrrelevant(m, ps) {
      forall f ensures NewestAgree(m, ps, f) {
        assert SameInEveryOrder(m, ps, f);
        FieldOrderExact(m, ps, f);
      }
    }
    if forall f :: NewestAgree(m, ps, f) {
      forall qs | multiset(qs) == multiset(ps) ensures ApplyAll(m, qs) == ApplyAll(m, ps) {
        forall f ensures SameAt(ApplyAll(m, ps), ApplyAll(m, qs), f) { AgreeingOrdersMatch(m, ps, qs, f); }
        EqualEverywhere(ApplyAll(m, ps), ApplyAll(m, qs));
      }
    }
  }
}

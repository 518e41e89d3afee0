/** Stock result of a lookup that may find nothing. */
module Options {
  datatype Option<+T> = None | Some(value: T)
}

/** Per-field last-write-wins, the rule behind every PATCH (internal/db/fieldts.go). */
module FieldMerge {
  import opened Rfc3339

  type Field = string
  /** A decoded column value; only equality matters here. */
  type Value = string

  /** The fields present in one PATCH request, with the request's single `updated_at`. */
  datatype Patch = Patch(fields: map<Field, Value>, at: Instant)

  /** What a PATCH can change in a row: the columns and the `field_updated_at` map. */
  datatype Merged = Merged(fields: map<Field, Value>, stamps: map<Field, Instant>)

  /** A write wins a field that was never written, or whose stamp is strictly older. */
  predicate WinsField(stamps: map<Field, Instant>, f: Field, at: Instant)
  {
    f in stamps ==> stamps[f] < at
  }

  function Winners(stamps: map<Field, Instant>, p: Patch): set<Field>
  {
    set f | f in p.fields && WinsField(stamps, f, p.at)
  }

  function Apply(m: Merged, p: Patch): Merged
  {
    var won := Winners(m.stamps, p);
    Merged(m.fields + (map f | f in won :: p.fields[f]), m.stamps + (map f | f in won :: p.at))
  }

  /** `ps` processed in order. */
  function ApplyAll(m: Merged, ps: seq<Patch>): Merged
  {
    if ps == [] then m else Apply(ApplyAll(m, ps[..|ps| - 1]), ps[|ps| - 1])
  }

  // ---- The imperative rule ----

  class FieldTimestamps {
    var stamps: map<Field, Instant>

    constructor (parsed: map<Field, Instant>)
      ensures stamps == parsed
    {
      stamps := parsed;
    }

    method Wins(f: Field, incoming: Instant) returns (won: bool)
      modifies this
      ensures won <==> WinsField(old(stamps), f, incoming)
      ensures stamps == if won then old(stamps)[f := incoming] else old(stamps)
    {
      if f in stamps && incoming <= stamps[f] {
        return false;
      }
      stamps := stamps[f := incoming];
      return true;
    }
  }

  predicate SameAt(a: Merged, b: Merged, f: Field)
  {
    && (f in a.fields <==> f in b.fields) && (f in a.fields ==> a.fields[f] == b.fields[f])
    && (f in a.stamps <==> f in b.stamps) && (f in a.stamps ==> a.stamps[f] == b.stamps[f])
  }

  lemma EqualEverywhere(a: Merged, b: Merged)
    requires forall f :: SameAt(a, b, f)
    ensures a == b
  {
    forall f ensures f in a.fields <==> f in b.fields { assert SameAt(a, b, f); }
    forall f ensures f in a.stamps <==> f in b.stamps { assert SameAt(a, b, f); }
    forall f | f in a.fields ensures a.fields[f] == b.fields[f] { assert SameAt(a, b, f); }
    forall f | f in a.stamps ensures a.stamps[f] == b.stamps[f] { assert SameAt(a, b, f); }
    assert a.fields == b.fields && a.stamps == b.stamps;
  }

  predicate Sets(p: Patch, f: Field) { f in p.fields }

  predicate Holds(a: Merged, f: Field, p: Patch)
    requires Sets(p, f)
  {
    f in a.fields && a.fields[f] == p.fields[f] && f in a.stamps && a.stamps[f] == p.at
  }

  function Overwrite(m: Merged, f: Field, v: Value, at: Instant): Merged
  {
    if WinsField(m.stamps, f, at) then Merged(m.fields[f := v], m.stamps[f := at]) else m
  }

  /** The columns `cols` tried one after the other, as the code of `patchX` does. */
  function ColumnByColumn(m: Merged, p: Patch, cols: seq<Field>): Merged
  {
    if cols == [] then m
    else
      var before, f := ColumnByColumn(m, p, cols[..|cols| - 1]), cols[|cols| - 1];
      if f in p.fields then Overwrite(before, f, p.fields[f], p.at) else before
  }

  predicate Distinct(cols: seq<Field>) { forall i, j :: 0 <= i < j < |cols| ==> cols[i] != cols[j] }

  lemma {:induction false} ColumnOutcome(m: Merged, p: Patch, cols: seq<Field>, f: Field)
    requires Distinct(cols)
    ensures if f in cols && f in Winners(m.stamps, p) then Holds(ColumnByColumn(m, p, cols), f, p)
            else SameAt(ColumnByColumn(m, p, cols), m, f)
  {
    if cols == [] {
    } else {
      ColumnOutcome(m, p, cols[..|cols| - 1], f);
    }
  }

  /** Some of the first `n` columns is won. */
  predicate WonAmong(m: Merged, p: Patch, columns: seq<Field>, n: nat)
    requires n <= |columns|
  {
    exists j :: 0 <= j < n && columns[j] in p.fields && WinsField(m.stamps, columns[j], p.at)
  }

  lemma OneColumnMore(m: Merged, p: Patch, columns: seq<Field>, i: nat)
    requires Distinct(columns) && i < |columns|
    ensures var before, f := ColumnByColumn(m, p, columns[..i]), columns[i];
            && ColumnByColumn(m, p, columns[..i + 1]) ==
               (if f in p.fields then Overwrite(before, f, p.fields[f], p.at) else before)
            && WinsField(before.stamps, f, p.at) == WinsField(m.stamps, f, p.at)
            && WonAmong(m, p, columns, i + 1) ==
               (WonAmong(m, p, columns, i) || (f in p.fields && WinsField(before.stamps, f, p.at)))
  {
    assert columns[..i + 1][..i] == columns[..i];
    ColumnOutcome(m, p, columns[..i], columns[i]);
  }

  /** The body every `patchX` shares: for each column of the table that is in the patch, ask
      `Wins` and, on a win, overwrite the column. */
  method MergePatch(m: Merged, p: Patch, columns: seq<Field>) returns (merged: Merged, changed: bool)
    requires Distinct(columns) && forall f :: f in p.fields ==> f in columns
    ensures merged == Apply(m, p)
    ensures changed <==> Winners(m.stamps, p) != {}
  {
    var ft := new FieldTimestamps(m.stamps);
    var current, i := m.fields, 0;
    changed := false;
    while i < |columns|
      invariant 0 <= i <= |columns|
      invariant Merged(current, ft.stamps) == ColumnByColumn(m, p, columns[..i])
      invariant changed == WonAmong(m, p, columns, i)
    {
      var f := columns[i];
      OneColumnMore(m, p, columns, i);
      if f in p.fields {
        var won := ft.Wins(f, p.at);
        if won {
          current := current[f := p.fields[f]];
          changed := true;
        }
      }
      i := i + 1;
    }
    merged := Merged(current, ft.stamps);
    WholePatch(m, p, columns);
  }

  lemma WholePatch(m: Merged, p: Patch, columns: seq<Field>)
    requires Distinct(columns) && forall f :: f in p.fields ==> f in columns
    ensures ColumnByColumn(m, p, columns[..|columns|]) == Apply(m, p)
    ensures Winners(m.stamps, p) != {} <==> WonAmong(m, p, columns, |columns|)
  {
    assert columns[..|columns|] == columns;
    forall f ensures SameAt(ColumnByColumn(m, p, columns), Apply(m, p), f) { ColumnOutcome(m, p, columns, f); }
    EqualEverywhere(ColumnByColumn(m, p, columns), Apply(m, p));
    if Winners(m.stamps, p) != {} {
      var f :| f in Winners(m.stamps, p);
      var j :| 0 <= j < |columns| && columns[j] == f;
    }
  }

  // ---- What a run of patches leaves in one field ----

  /** Patch `i` of the run is the newest to set `f`, the first to arrive among equally new
      ones, and newer than what the row already had. */
  predicate Decides(m: Merged, ps: seq<Patch>, f: Field, i: nat)
  {
    && i < |ps| && Sets(ps[i], f) && WinsField(m.stamps, f, ps[i].at)
    && forall j :: 0 <= j < |ps| && Sets(ps[j], f) ==> ps[j].at <= ps[i].at && (j < i ==> ps[j].at < ps[i].at)
  }

  predicate NoneDecides(m: Merged, ps: seq<Patch>, f: Field)
  {
    forall j :: 0 <= j < |ps| && Sets(ps[j], f) ==> !WinsField(m.stamps, f, ps[j].at)
  }

  /** What the patches before the last have left of a field. */
  predicate Outcome(m: Merged, ps: seq<Patch>, f: Field, i: int, after: Merged)
  {
    if i < 0 then NoneDecides(m, ps, f) && SameAt(after, m, f) else Decides(m, ps, f, i) && Holds(after, f, ps[i])
  }

  lemma LastDecides(m: Merged, ps: seq<Patch>, f: Field, k: int, before: Merged)
    requires ps != [] && Outcome(m, ps[..|ps| - 1], f, k, before)
    requires var p := ps[|ps| - 1]; Sets(p, f) && WinsField(before.stamps, f, p.at)
    ensures Outcome(m, ps, f, |ps| - 1, Apply(before, ps[|ps| - 1]))
  {
    var front, p := ps[..|ps| - 1], ps[|ps| - 1];
    forall j | 0 <= j < |ps| - 1 && Sets(ps[j], f) ensures ps[j].at < p.at { assert front[j] == ps[j]; }
  }

  lemma LastChangesNothing(m: Merged, ps: seq<Patch>, f: Field, k: int, before: Merged)
    requires ps != [] && Outcome(m, ps[..|ps| - 1], f, k, before)
    requires var p := ps[|ps| - 1]; !(Sets(p, f) && WinsField(before.stamps, f, p.at))
    ensures Outcome(m, ps, f, k, Apply(before, ps[|ps| - 1]))
  {
    var front := ps[..|ps| - 1];
    assert forall j :: 0 <= j < |front| ==> front[j] == ps[j];
    assert SameAt(Apply(before, ps[|ps| - 1]), before, f);
  }

  /** After any run, each field holds the value and stamp of the patch that decides it, or, when
      none is newer than the row, what the row had. */
  lemma {:induction false} FieldOutcome(m: Merged, ps: seq<Patch>, f: Field) returns (i: int)
    ensures if i < 0 then NoneDecides(m, ps, f) && SameAt(ApplyAll(m, ps), m, f)
            else Decides(m, ps, f, i) && Holds(ApplyAll(m, ps), f, ps[i])
  {
    if ps == [] {
      i := -1;
    } else {
      var n := |ps| - 1;
      var k := FieldOutcome(m, ps[..n], f);
      var before := ApplyAll(m, ps[..n]);
      if Sets(ps[n], f) && WinsField(before.stamps, f, ps[n].at) {
        LastDecides(m, ps, f, k, before);
        i := n;
      } else {
        LastChangesNothing(m, ps, f, k, before);
        i := k;
      }
    }
  }

  /** No two patches of the run set a field at the same instant. */
  ghost predicate NoTies(ps: seq<Patch>)
  {
    forall i, j, f :: 0 <= i < j < |ps| && Sets(ps[i], f) && Sets(ps[j], f) ==> ps[i].at != ps[j].at
  }

  lemma Occurs(ps: seq<Patch>, qs: seq<Patch>, i: nat) returns (j: nat)
    requires multiset(ps) == multiset(qs) && i < |ps|
    ensures j < |qs| && qs[j] == ps[i]
  {
    assert ps[i] in multiset(qs);
    j :| 0 <= j < |qs| && qs[j] == ps[i];
  }

  lemma FirstOfTwoDecides(m: Merged, p: Patch, q: Patch, f: Field)
    requires Sets(p, f) && Sets(q, f) && p.at == q.at && WinsField(m.stamps, f, p.at)
    ensures Holds(ApplyAll(m, [p, q]), f, p)
  {
    var i := FieldOutcome(m, [p, q], f);
    assert [p, q][0] == p && [p, q][1] == q;
  }

  /** On a tie the first to arrive keeps the field. */
  lemma TiesDependOnOrder(m: Merged, f: Field, v: Value, w: Value, at: Instant)
    requires v != w && WinsField(m.stamps, f, at)
    ensures var p, q := Patch(map[f := v], at), Patch(map[f := w], at);
            Holds(ApplyAll(m, [p, q]), f, p) && Holds(ApplyAll(m, [q, p]), f, q)
  {
    FirstOfTwoDecides(m, Patch(map[f := v], at), Patch(map[f := w], at), f);
    FirstOfTwoDecides(m, Patch(map[f := w], at), Patch(map[f := v], at), f);
  }

  // ---- Replays and batches ----

  /** A patch has had its say: no field it sets could still be won by it. */
  predicate Spent(m: Merged, p: Patch)
  {
    Winners(m.stamps, p) == {}
  }

  lemma {:induction false} StampsOnlyGrow(m: Merged, ps: seq<Patch>, f: Field)
    ensures f in m.stamps ==> f in ApplyAll(m, ps).stamps && m.stamps[f] <= ApplyAll(m, ps).stamps[f]
  {
    if ps == [] {
    } else {
      StampsOnlyGrow(m, ps[..|ps| - 1], f);
    }
  }

  lemma SpentChangesNothing(m: Merged, p: Patch)
    requires Spent(m, p)
    ensures Apply(m, p) == m
  {
    var r := Apply(m, p);
    assert r.fields == m.fields && r.stamps == m.stamps;
  }

  /** Replaying a patch that was already processed, whatever patches came before, between and
      after, changes nothing. */
  lemma ReplayChangesNothing(m: Merged, before: seq<Patch>, p: Patch, after: seq<Patch>)
    ensures var m' := ApplyAll(ApplyAll(m, before + [p]), after);
            Spent(m', p) && Apply(m', p) == m'
  {
    var m1 := ApplyAll(m, before + [p]);
    assert (before + [p])[..|before|] == before;
    assert m1 == Apply(ApplyAll(m, before), p);
    forall f | f in p.fields ensures f in m1.stamps && p.at <= m1.stamps[f] {}
    forall f | f in p.fields ensures f !in Winners(ApplyAll(m1, after).stamps, p) {
      StampsOnlyGrow(m1, after, f);
    }
    SpentChangesNothing(ApplyAll(m1, after), p);
  }

  /** The single-field patches of `p`, in the order `order` names its fields. */
  function Parts(p: Patch, order: seq<Field>): seq<Patch>
    requires forall f :: f in order ==> f in p.fields
  {
    seq(|order|, i requires 0 <= i < |order| => Patch(map[order[i] := p.fields[order[i]]], p.at))
  }

  /** A multi-field patch and its single-field parts, delivered in any order, leave the same
      values and field timestamps. */
  lemma BatchEqualsParts(m: Merged, p: Patch, order: seq<Field>)
    requires (set f | f in order) == p.fields.Keys
    requires Distinct(order)
    ensures ApplyAll(m, Parts(p, order)) == Apply(m, p)
  {
    var parts := Parts(p, order);
    forall f ensures SameAt(ApplyAll(m, parts), Apply(m, p), f) {
      var i := FieldOutcome(m, parts, f);
      if i >= 0 {
        assert f == order[i] && f in order;
      } else if f in Winners(m.stamps, p) {
        var j :| 0 <= j < |order| && order[j] == f;
        assert Sets(parts[j], f);
        assert false;
      }
    }
    EqualEverywhere(ApplyAll(m, parts), Apply(m, p));
  }
}

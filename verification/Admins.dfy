/** Who administers the instance: the user rows, the guard that keeps one active admin, and the
    first-admin setup (internal/auth/store.go). */
module Admins {

  type UserId = string

  datatype User = User(email: string, isAdmin: bool, deleted: bool)

  type Users = map<UserId, User>

  predicate IsActive(us: Users, id: UserId) { id in us && !us[id].deleted }

  function ActiveAdmins(us: Users): set<UserId> { set id | id in us && !us[id].deleted && us[id].isAdmin }

  function ActiveUsers(us: Users): set<UserId> { set id | id in us && !us[id].deleted }

  datatype Op =
    | Create(id: UserId, email: string, isAdmin: bool)
    | SetAdmin(id: UserId, isAdmin: bool)
    | Deactivate(id: UserId)
    | Restore(id: UserId)
    | DeleteAccount(id: UserId)
    | Setup(id: UserId, email: string)

  datatype Outcome = Done | NotFound | LastAdmin | Duplicate | AlreadyInit

  predicate Guarded(op: Op) { op.SetAdmin? || op.Deactivate? || op.DeleteAccount? }

  /** An insert breaks a unique key: the id, or the email of any row, soft-deleted ones included. */
  predicate Clashes(us: Users, id: UserId, email: string) { id in us || exists u :: u in us && us[u].email == email }

  function OutcomeOf(us: Users, op: Op): Outcome
  {
    match op
    case Create(id, email, _) => if Clashes(us, id, email) then Duplicate else Done
    case Restore(id) => if id in us && us[id].deleted then Done else NotFound
    case Setup(id, email) =>
      if ActiveUsers(us) != {} then AlreadyInit else if Clashes(us, id, email) then Duplicate else Done
    case _ =>
      if !IsActive(us, op.id) then NotFound
      else if us[op.id].isAdmin && |ActiveAdmins(us)| <= 1 then LastAdmin
      else Done
  }

  /** The rows with the operation carried out, whatever the checks say. */
  function Unchecked(us: Users, op: Op): Users
  {
    match op
    case Create(id, email, isAdmin) => us[id := User(email, isAdmin, false)]
    case Setup(id, email) => us[id := User(email, true, false)]
    case DeleteAccount(id) => us - {id}
    case SetAdmin(id, isAdmin) => if id in us then us[id := us[id].(isAdmin := isAdmin)] else us
    case Deactivate(id) => if id in us then us[id := us[id].(deleted := true)] else us
    case Restore(id) => if id in us then us[id := us[id].(deleted := false)] else us
  }

  function After(us: Users, op: Op): Users { if OutcomeOf(us, op).Done? then Unchecked(us, op) else us }

  function Run(us: Users, ops: seq<Op>): Users
  {
    if ops == [] then us else After(Run(us, ops[..|ops| - 1]), ops[|ops| - 1])
  }

  // ---- The store ----

  class UserStore {
    var users: Users

    constructor ()
      ensures users == map[]
    {
      users := map[];
    }

    method CreateUser(id: UserId, email: string, isAdmin: bool) returns (r: Outcome)
      modifies this
      ensures r == OutcomeOf(old(users), Create(id, email, isAdmin)) &&
              users == After(old(users), Create(id, email, isAdmin))
    {
      if id in users || exists u :: u in users && users[u].email == email {
        return Duplicate;
      }
      users := users[id := User(email, isAdmin, false)];
      return Done;
    }

    /** The check `withLastAdminGuard` makes before it runs a change to `id`. */
    method LastAdminGuard(id: UserId) returns (r: Outcome)
      ensures r == OutcomeOf(users, Deactivate(id))
    {
      if id !in users || users[id].deleted {
        return NotFound;
      }
      if users[id].isAdmin {
        var admins := |set u | u in users && !users[u].deleted && users[u].isAdmin|;
        if admins <= 1 {
          return LastAdmin;
        }
      }
      return Done;
    }

    method UpdateUserAdmin(id: UserId, isAdmin: bool) returns (r: Outcome)
      modifies this
      ensures r == OutcomeOf(old(users), SetAdmin(id, isAdmin)) && users == After(old(users), SetAdmin(id, isAdmin))
    {
      r := LastAdminGuard(id);
      if r.Done? {
        users := users[id := users[id].(isAdmin := isAdmin)];
      }
    }

    method SoftDeleteUser(id: UserId) returns (r: Outcome)
      modifies this
      ensures r == OutcomeOf(old(users), Deactivate(id)) && users == After(old(users), Deactivate(id))
    {
      r := LastAdminGuard(id);
      if r.Done? {
        users := users[id := users[id].(deleted := true)];
      }
    }

    method RestoreUser(id: UserId) returns (r: Outcome)
      modifies this
      ensures r == OutcomeOf(old(users), Restore(id)) && users == After(old(users), Restore(id))
    {
      if id in users && users[id].deleted {
        users := users[id := users[id].(deleted := false)];
        return Done;
      }
      return NotFound;
    }

    method DeleteUserAccount(id: UserId) returns (r: Outcome)
      modifies this
      ensures r == OutcomeOf(old(users), DeleteAccount(id)) && users == After(old(users), DeleteAccount(id))
    {
      r := LastAdminGuard(id);
      if r.Done? {
        users := users - {id};
      }
    }

    method CreateFirstAdmin(id: UserId, email: string) returns (r: Outcome)
      modifies this
      ensures r == OutcomeOf(old(users), Setup(id, email)) && users == After(old(users), Setup(id, email))
    {
      if |set u | u in users && !users[u].deleted| > 0 {
        return AlreadyInit;
      }
      if id in users || exists u :: u in users && users[u].email == email {
        return Duplicate;
      }
      users := users[id := User(email, true, false)];
      return Done;
    }
  }

  // ---- The last admin ----

  lemma OnlyMember(s: set<UserId>, id: UserId)
    requires id in s
    ensures |s| <= 1 <==> s == {id}
  {
    if s != {id} {
      assert s == (s - {id}) + {id};
      assert s - {id} != {};
    }
  }

  /** A guarded operation finds nothing exactly if its target is not active, and is done for every active
      target but the one active admin. The guard stops it exactly when its target is the one active admin: when carrying
      out a demotion, deactivation or deletion would leave no active admin although there is one.
      Promoting that admin again is refused too, although it changes nothing. */
  lemma GuardIsExact(us: Users, op: Op)
    requires Guarded(op)
    ensures OutcomeOf(us, op) == NotFound <==> op.id !in ActiveUsers(us)
    ensures OutcomeOf(us, op) == LastAdmin <==> ActiveAdmins(us) == {op.id}
    ensures OutcomeOf(us, op) == Done <==> op.id in ActiveUsers(us) && ActiveAdmins(us) != {op.id}
    ensures OutcomeOf(us, op) != Done ==> After(us, op) == us
    ensures !(op.SetAdmin? && op.isAdmin) ==>
              (OutcomeOf(us, op) == LastAdmin <==> ActiveAdmins(us) != {} && ActiveAdmins(Unchecked(us, op)) == {})
    ensures op.SetAdmin? && op.isAdmin && OutcomeOf(us, op) == LastAdmin ==> Unchecked(us, op) == us
  {
    var admins, left := ActiveAdmins(us), ActiveAdmins(Unchecked(us, op));
    if op.id in admins {
      OnlyMember(admins, op.id);
      if !(op.SetAdmin? && op.isAdmin) {
        assert left == admins - {op.id};
      }
    } else if !(op.SetAdmin? && op.isAdmin) {
      assert left == admins;
    }
  }

  /** The unguarded operations: an account is created exactly if neither id nor email is taken, and restored
      exactly if it is there and not active. */
  lemma UnguardedExactly(us: Users, id: UserId, email: string, isAdmin: bool)
    ensures var free := id !in us && forall u :: u in us ==> us[u].email != email;
            && OutcomeOf(us, Create(id, email, isAdmin)) == (if free then Done else Duplicate)
            && OutcomeOf(us, Setup(id, email)) ==
               (if ActiveUsers(us) != {} then AlreadyInit else if free then Done else Duplicate)
    ensures OutcomeOf(us, Restore(id)) == if id in us && id !in ActiveUsers(us) then Done else NotFound
  {
  }

  /** What an operation leaves when it is done, and that it is all. */
  lemma DoneMeans(us: Users, op: Op)
    requires OutcomeOf(us, op) == Done
    ensures forall u :: u != op.id ==>
              (u in After(us, op) <==> u in us) && (u in us ==> After(us, op)[u] == us[u])
    ensures op.DeleteAccount? ==> op.id !in After(us, op)
    ensures op.SetAdmin? || op.Deactivate? || op.Restore? ==>
              op.id in us && op.id in After(us, op) && After(us, op)[op.id].email == us[op.id].email
    ensures op.SetAdmin? ==>
              op.id in ActiveUsers(After(us, op)) && (op.id in ActiveAdmins(After(us, op)) <==> op.isAdmin)
    ensures op.Deactivate? ==> op.id !in ActiveUsers(After(us, op))
    ensures op.Deactivate? || op.Restore? ==> After(us, op)[op.id].isAdmin == us[op.id].isAdmin
    ensures op.Restore? || op.Create? || op.Setup? ==> op.id in ActiveUsers(After(us, op))
    ensures op.Create? || op.Setup? ==> After(us, op)[op.id].email == op.email
    ensures op.Create? ==> (op.id in ActiveAdmins(After(us, op)) <==> op.isAdmin)
    ensures op.Setup? ==> ActiveAdmins(After(us, op)) == {op.id}
  {
    if op.Setup? { assert forall u :: u in us ==> u !in ActiveUsers(us); }
  }

  lemma StepKeepsAnAdmin(us: Users, op: Op)
    requires ActiveAdmins(us) != {}
    ensures ActiveAdmins(After(us, op)) != {}
  {
    var admin :| admin in ActiveAdmins(us);
    if Guarded(op) {
      GuardIsExact(us, op);
      if op.SetAdmin? && op.isAdmin { assert admin in ActiveAdmins(After(us, op)); }
    } else {
      assert admin in ActiveAdmins(After(us, op));
    }
  }

  /** Once there is an active admin there is one for ever, and every later attempt at the
      first-admin setup is refused and changes nothing. */
  lemma {:induction false} AdminIsNeverLost(us: Users, ops: seq<Op>)
    requires ActiveAdmins(us) != {}
    ensures ActiveAdmins(Run(us, ops)) != {}
    ensures forall i :: 0 <= i < |ops| && ops[i].Setup? ==>
              OutcomeOf(Run(us, ops[..i]), ops[i]) == AlreadyInit &&
                After(Run(us, ops[..i]), ops[i]) == Run(us, ops[..i])
  {
    if ops == [] {
    } else {
      var n := |ops| - 1;
      var front := ops[..n];
      AdminIsNeverLost(us, front);
      StepKeepsAnAdmin(Run(us, front), ops[n]);
      assert ActiveAdmins(Run(us, front)) <= ActiveUsers(Run(us, front));
      forall i | 0 <= i < |ops| && ops[i].Setup? ensures OutcomeOf(Run(us, ops[..i]), ops[i]) == AlreadyInit {
        if i < n { assert ops[..i] == front[..i] && ops[i] == front[i]; }
      }
    }
  }

  predicate EmailsDiffer(us: Users) { forall a, b :: a in us && b in us && us[a].email == us[b].email ==> a == b }

  /** Setup opens the instance exactly when nobody can log in and the email is free; it then has
      one admin, and from then on there is always one. */
  lemma SetupOpensOnce(us: Users, id: UserId, email: string, ops: seq<Op>)
    ensures OutcomeOf(us, Setup(id, email)) == Done <==> ActiveUsers(us) == {} && !Clashes(us, id, email)
    ensures OutcomeOf(us, Setup(id, email)) == Done ==>
              ActiveAdmins(After(us, Setup(id, email))) == {id} &&
              ActiveAdmins(Run(After(us, Setup(id, email)), ops)) != {}
  {
    if OutcomeOf(us, Setup(id, email)) == Done {
      var ready := After(us, Setup(id, email));
      assert forall u :: u in us ==> u !in ActiveUsers(us);
      assert ActiveAdmins(ready) == {id};
      AdminIsNeverLost(ready, ops);
    }
  }

  /** No two accounts ever share an email, whatever is created, deleted or restored. */
  lemma {:induction false} EmailsStayDistinct(us: Users, ops: seq<Op>)
    requires EmailsDiffer(us)
    ensures EmailsDiffer(Run(us, ops))
  {
    if ops == [] {
    } else {
      EmailsStayDistinct(us, ops[..|ops| - 1]);
      OneOpKeepsEmails(Run(us, ops[..|ops| - 1]), ops[|ops| - 1]);
    }
  }

  lemma OneOpKeepsEmails(us: Users, op: Op)
    requires EmailsDiffer(us)
    ensures EmailsDiffer(After(us, op))
  {
  }

  /** Restoring undoes a deactivation that the guard let through, and demoting undoes a promotion as
      long as the instance had an active admin. */
  lemma WhatUndoesWhat(us: Users, id: UserId)
    ensures OutcomeOf(us, Deactivate(id)) == Done ==> Run(us, [Deactivate(id), Restore(id)]) == us
    ensures IsActive(us, id) && !us[id].isAdmin && ActiveAdmins(us) != {} ==>
            Run(us, [SetAdmin(id, true), SetAdmin(id, false)]) == us
  {
    TwoSteps(us, Deactivate(id), Restore(id));
    TwoSteps(us, SetAdmin(id, true), SetAdmin(id, false));
    if IsActive(us, id) && !us[id].isAdmin && ActiveAdmins(us) != {} {
      var promoted := After(us, SetAdmin(id, true));
      var admin :| admin in ActiveAdmins(us);
      assert {admin, id} <= ActiveAdmins(promoted);
      GuardIsExact(promoted, SetAdmin(id, false));
    }
  }

  lemma TwoSteps(us: Users, a: Op, b: Op)
    ensures Run(us, [a, b]) == After(After(us, a), b)
  {
    assert [a, b][..1] == [a] && [a][..0] == [];
    assert Run(us, [a]) == After(us, a);
  }
}

/** Exactly when each account transaction is accepted, and what an accepted one does, on the
    rows of the tables (backend/internal/identity/store.go). */
module AccountRules {
  import opened Accounts
  import opened AccountRuns
  import opened Wrappers

  ghost predicate Administers(users: map<Id, User>, u: Id) {
    u in users && users[u].role == Admin && !users[u].disabled
  }

  ghost predicate SomeoneAdministers(users: map<Id, User>) { exists v :: Administers(users, v) }

  ghost predicate HasAddress(users: map<Id, User>, u: Id, email: string) { u in users && users[u].email == email }

  /** The row as the update asks for it. */
  function Wanted(u: User, patch: Patch): User {
    User(u.email, u.name, match patch.role case Some(r) => r case None => u.role,
         match patch.disabled case Some(d) => d case None => u.disabled, u.hash)
  }

  /** An update is accepted exactly when an enabled administrator asks for it, the account
      exists, its role is one of the two, and an enabled administrator remains. */
  lemma UpdateAcceptedExactly(db: Db, actor: Id, id: Id, patch: Patch, now: Time)
    ensures var (after, r) := UpdateUserTx(db, actor, id, patch, now);
            && (r.Ok? <==>
                  && Administers(db.users, actor) && id in db.users
                  && (Wanted(db.users[id], patch).role == Admin || Wanted(db.users[id], patch).role == Member)
                  && SomeoneAdministers(db.users[id := Wanted(db.users[id], patch)]))
            && (r.Ok? ==> after.users == db.users[id := Wanted(db.users[id], patch)] && r.value == after.users[id])
            && (r.Err? ==> after == db)
  {
    hide RevokeSessionsOf, RevokeInvitations;
    if Administers(db.users, actor) && id in db.users {
      var after := Wanted(db.users[id], patch);
      assert after == Patched(db.users[id], patch);
      AdminRemains(db.users, actor, id, after);
      hide EnabledAdmins, LosesAdmin;
    }
  }

  lemma AdminRemains(users: map<Id, User>, actor: Id, id: Id, after: User)
    requires Administers(users, actor) && id in users
    ensures SomeoneAdministers(users[id := after]) <==>
            !(LosesAdmin(users[id], after) && |EnabledAdmins(users)| <= 1)
  {
    var all, changed := EnabledAdmins(users), users[id := after];
    assert actor in all;
    if LosesAdmin(users[id], after) {
      assert id in all;
      assert forall v :: Administers(changed, v) <==> v in all - {id};
      assert |all - {id}| == |all| - 1;
      if |all| <= 1 {
        assert all - {id} == {};
      } else {
        assert exists v :: v in all - {id};
      }
    } else {
      assert Administers(changed, actor);
    }
  }

  /** A password is changed exactly for the account whose current hash was presented. */
  lemma PasswordAcceptedExactly(db: Db, id: Id, oldHash: Hash, newHash: Hash, now: Time)
    ensures var (after, r) := ChangePasswordTx(db, id, oldHash, newHash, now);
            && (r.Ok? <==> id in db.users && db.users[id].hash == oldHash && !db.users[id].disabled)
            && (r.Ok? ==> after.users == db.users[id := db.users[id].(hash := newHash)])
            && (r.Err? ==> after == db)
  {
  }

  /** An invitation is withdrawn exactly by an enabled administrator, and only it is marked. */
  lemma WithdrawalAcceptedExactly(db: Db, actor: Id, id: Id, now: Time)
    ensures var (after, r) := RevokeInvitationTx(db, actor, id, now);
            && (r.Ok? <==> Administers(db.users, actor) && exists t | t in db.invitations :: db.invitations[t].id == id)
            && after.users == db.users && after.sessions == db.sessions && after.invitations.Keys == db.invitations.Keys
            && forall t | t in db.invitations ::
                 if r.Ok? && db.invitations[t].id == id then after.invitations[t].revoked.Some?
                 else after.invitations[t] == db.invitations[t]
  {
  }

  /** A register invitation goes to an address without an account, a reset to one with an enabled
      account; token and id are new. */
  lemma IssueAcceptedExactly(
    db: Db, actor: Id, id: Id, email: string, kind: Kind, token: Token, expires: Time, now: Time)
    requires Constraints(db)
    ensures var (after, r) := IssueInvitationTx(db, actor, id, email, kind, token, expires, now);
            && (r.Ok? <==>
                  && Administers(db.users, actor)
                  && (|| (kind == Register && forall u :: !HasAddress(db.users, u, email))
                      || (kind == Reset && exists u :: HasAddress(db.users, u, email) && !db.users[u].disabled))
                  && token !in db.invitations && forall t | t in db.invitations :: db.invitations[t].id != id)
            && (r.Err? ==> after == db)
  {
    hide RevokeInvitations;
    Addressed(db, email);
  }

  lemma Addressed(db: Db, email: string)
    requires Constraints(db)
    ensures HasEmail(db.users, email) <==> exists u :: HasAddress(db.users, u, email)
    ensures forall u | HasAddress(db.users, u, email) :: HasEmail(db.users, email) && ByEmail(db.users, email) == u
  {
    if u :| HasAddress(db.users, u, email) {
      assert u in db.users && db.users[u].email == email;
    }
    if HasEmail(db.users, email) {
      assert HasAddress(db.users, ByEmail(db.users, email), email);
    }
  }

  /** The invitation is there, of this kind, neither used nor revoked, and has not expired. */
  ghost predicate IsOpen(db: Db, token: Token, kind: Kind, now: Time) {
    && token in db.invitations && db.invitations[token].kind == kind && db.invitations[token].used == None
    && db.invitations[token].revoked == None && db.invitations[token].expires > now
  }

  /** An open register invitation makes one account, for its address if that is free; an open
      reset invitation sets the password of the enabled account with its address. */
  lemma ConsumeAcceptedExactly(db: Db, token: Token, kind: Kind, hash: Hash, name: string, newId: Id, now: Time)
    requires Constraints(db)
    ensures var (after, r) := ConsumeInvitationTx(db, token, kind, hash, name, newId, now);
            && (r.Ok? <==>
                  && IsOpen(db, token, kind, now)
                  && var email := db.invitations[token].email;
                     || (kind == Register && newId !in db.users && forall u :: !HasAddress(db.users, u, email))
                     || (kind == Reset && exists u :: HasAddress(db.users, u, email) && !db.users[u].disabled))
            && (r.Ok? ==>
                  && r.value.hash == hash
                  && after.users.Keys == db.users.Keys + {r.value.user}
                  && after.users[r.value.user].hash == hash
                  && after.users[r.value.user].email == db.invitations[token].email
                  && (forall u | u in db.users && u != r.value.user :: after.users[u] == db.users[u])
                  && (kind == Register ==> r.value.user == newId)
                  && (kind == Reset ==>
                        r.value.user in db.users
                        && after.users[r.value.user] == db.users[r.value.user].(hash := hash)))
            && (r.Err? ==> after == db)
  {
    hide RevokeSessionsOf, HasEmail;
    if token in db.invitations {
      Addressed(db, db.invitations[token].email);
    }
  }

  /** The first account is made exactly once, in empty tables. */
  lemma BootstrapAcceptedExactly(db: Db, id: Id, email: string, name: string, hash: Hash)
    ensures var (after, r) := BootstrapTx(db, id, email, name, hash);
            && (r.Ok? <==> forall u :: u !in db.users)
            && (r.Ok? ==> after.users == map[id := User(email, name, Admin, false, hash)] && r.value == Credential(id, hash))
            && (r.Err? ==> after == db)
            && after.sessions == db.sessions && after.invitations == db.invitations
  {
    assert (forall u :: u !in db.users) <==> db.users == map[];
  }

  /** A credential is handed out exactly for an enabled account, and is its own. */
  lemma CredentialReadExactly(db: Db, email: string)
    requires Constraints(db)
    ensures var r := Read(db, email);
            && (r.Ok? <==> exists u :: HasAddress(db.users, u, email) && !db.users[u].disabled)
            && (r.Ok? ==> HasAddress(db.users, r.value.user, email) && r.value.hash == db.users[r.value.user].hash)
  {
    hide HasEmail;
    Addressed(db, email);
  }

  /** Where an account's hash changes, either its current hash was presented or an open reset
      invitation for its address was used; and the new hash is the one handed in. */
  lemma HashChangesOnlySo(w: World, s: Step, u: Id)
    requires Constraints(w.db) && u in w.db.users && u in Apply(w, s).db.users
    requires Apply(w, s).db.users[u].hash != w.db.users[u].hash
    ensures var before, after := w.db.users[u], Apply(w, s).db.users[u];
            && !before.disabled
            && match s
               case ChangePassword(id, oldHash, newHash, _) =>
                 id == u && oldHash == before.hash && newHash == after.hash
               case ConsumeInvitation(_, token, kind, hash, _, _, now) =>
                 kind == Reset && IsOpen(w.db, token, kind, now) && w.db.invitations[token].email == before.email
                 && hash == after.hash
               case _ => false
  {
    match s
    case ConsumeInvitation(_, token, kind, hash, name, newId, now) =>
      ConsumeAcceptedExactly(w.db, token, kind, hash, name, newId, now);
      hide ConsumeInvitationTx;
    case _ =>
      hide RevokeSessionsOf, RevokeInvitations, EnabledAdmins, HasEmail, LosesAdmin, Sweeps;
  }

  const SEVEN_DAYS := 604800

  /** The session has been expired or revoked for more than seven days. */
  ghost predicate LongOver(s: Session, now: Time) {
    s.expires + SEVEN_DAYS < now || exists at :: s.revoked == Some(at) && at + SEVEN_DAYS < now
  }

  lemma LongOverIsPurgeable(s: Session, now: Time)
    ensures LongOver(s, now) <==> Purgeable(s, now)
  {
    if s.revoked.Some? {
      assert s.revoked == Some(s.revoked.value);
    }
  }

  /** Only sessions that have long been over are ever deleted. */
  lemma DeletedWasLongOver(w: World, s: Step, t: Token)
    requires t in w.db.sessions && t !in Apply(w, s).db.sessions
    ensures s.OpenSession? && LongOver(w.db.sessions[t], s.now)
  {
    hide RevokeInvitations, EnabledAdmins, HasEmail, LosesAdmin, LongOver;
    if s.OpenSession? {
      LongOverIsPurgeable(w.db.sessions[t], s.now);
    }
  }

  /** Opening a session deletes all of them when they are fewer than a hundred. */
  lemma LongOverIsDeleted(w: World, s: Step, t: Token)
    requires s.OpenSession? && s.token in Apply(w, s).db.sessions && s.token !in w.db.sessions
    requires s.expires + SEVEN_DAYS >= s.now
    requires |set x | x in w.db.sessions && LongOver(w.db.sessions[x], s.now)| < 100
    requires t in w.db.sessions && LongOver(w.db.sessions[t], s.now)
    ensures t !in Apply(w, s).db.sessions
  {
    hide LongOver;
    var with := WithSession(w.db, s.token, w.tickets[s.ticket].user, s.expires);
    forall x | x in with
      ensures Purgeable(with[x], s.now) <==> x in w.db.sessions && LongOver(w.db.sessions[x], s.now)
    {
      if x in w.db.sessions {
        LongOverIsPurgeable(w.db.sessions[x], s.now);
      }
    }
    assert Purgeables(with, s.now) == set x | x in w.db.sessions && LongOver(w.db.sessions[x], s.now);
    SubsetIsSmaller(s.purge, Purgeables(with, s.now));
    LongOverIsPurgeable(w.db.sessions[t], s.now);
    assert t in Purgeables(with, s.now);
  }

  lemma SubsetIsSmaller(a: set<Token>, b: set<Token>)
    ensures a <= b ==> |a| <= |b|
  {
    if a <= b {
      assert b == a + (b - a);
      assert |b| == |a| + |b - a|;
    }
  }
}

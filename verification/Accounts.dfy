/** The account tables and their transactions (backend/internal/identity/store.go, with
    the constraints of backend/migrations/034_shared_service_identity.sql). Each
    transaction is one function from the tables before to the tables after, and the
    methods of `Store` carry it out. Password hashes, session tokens and ids are opaque
    numbers that are only compared. */
module Accounts {
  import opened Wrappers

  type Id = nat
  type Hash = nat
  type Token = nat
  type Time = int

  datatype Role = Admin | Member | OtherRole(name: string)

  datatype Kind = Register | Reset | OtherKind(name: string)

  datatype User = User(email: string, name: string, role: Role, disabled: bool, hash: Hash)

  datatype Session = Session(user: Id, expires: Time, revoked: Option<Time>)

  datatype Invitation = Invitation(
    id: Id, email: string, kind: Kind, createdBy: Id, expires: Time, used: Option<Time>, revoked: Option<Time>)

  datatype Credential = Credential(user: Id, hash: Hash)

  datatype Patch = Patch(role: Option<Role>, disabled: Option<bool>)

  datatype Error = Unauthorized | Forbidden | Invalid | Conflict | Internal

  datatype Result<T> = Ok(value: T) | Err(error: Error)

  /** The three tables. Sessions and invitations are found by the hash of their token,
      which the schema makes unique. */
  datatype Db = Db(users: map<Id, User>, sessions: map<Token, Session>, invitations: map<Token, Invitation>)

  const EMPTY := Db(map[], map[], map[])

  // ------------------------------------------------------------------- row updates

  /** COALESCE(revoked_at, now()) */
  function Coalesce(revoked: Option<Time>, now: Time): Option<Time> {
    if revoked.Some? then revoked else Some(now)
  }

  function RevokeSessionsOf(sessions: map<Token, Session>, user: Id, now: Time): map<Token, Session> {
    map t | t in sessions ::
      if sessions[t].user == user then sessions[t].(revoked := Coalesce(sessions[t].revoked, now)) else sessions[t]
  }

  predicate Unspent(i: Invitation, email: string) { i.email == email && i.used.None? }

  function RevokeInvitations(invitations: map<Token, Invitation>, email: string, only: Option<Kind>, now: Time)
    : map<Token, Invitation>
  {
    map t | t in invitations ::
      if Unspent(invitations[t], email) && (only.None? || invitations[t].kind == only.value)
      then invitations[t].(revoked := Coalesce(invitations[t].revoked, now))
      else invitations[t]
  }

  /** The same invitations with the same ids, addressees, kinds and uses; some may have been
      revoked, none restored. */
  ghost predicate OnlyRevokes(before: map<Token, Invitation>, after: map<Token, Invitation>) {
    && after.Keys == before.Keys
    && forall t | t in before ::
         && after[t].(revoked := before[t].revoked) == before[t]
         && (before[t].revoked.Some? ==> after[t].revoked == before[t].revoked)
  }

  lemma RevokesOnly(invitations: map<Token, Invitation>, email: string, only: Option<Kind>, now: Time)
    ensures OnlyRevokes(invitations, RevokeInvitations(invitations, email, only, now))
  {
  }

  predicate HasEmail(users: map<Id, User>, email: string) {
    exists u | u in users :: users[u].email == email
  }

  ghost function ByEmail(users: map<Id, User>, email: string): (u: Id)
    requires HasEmail(users, email)
    ensures u in users && users[u].email == email
  {
    var u :| u in users && users[u].email == email; u
  }

  predicate IsEnabledAdmin(users: map<Id, User>, u: Id) {
    u in users && users[u].role == Admin && !users[u].disabled
  }

  function EnabledAdmins(users: map<Id, User>): set<Id> {
    set u | u in users && users[u].role == Admin && !users[u].disabled
  }

  /** expires_at < now() - interval '7 days' OR revoked_at < now() - interval '7 days' */
  predicate Purgeable(s: Session, now: Time) {
    s.expires < now - WEEK || (s.revoked.Some? && s.revoked.value < now - WEEK)
  }

  const WEEK: Time := 7 * 24 * 3600

  const SWEEP := 100

  function Purgeables(sessions: map<Token, Session>, now: Time): set<Token> {
    set t | t in sessions && Purgeable(sessions[t], now)
  }

  /** At most a hundred of the rows, and all of them when there are fewer. */
  predicate AtMostSweep(rows: set<Token>, purge: set<Token>) {
    purge <= rows && |purge| <= SWEEP && (|purge| < SWEEP ==> purge == rows)
  }

  /** A choice that the clean-up of CreateSession may make among the old rows. */
  predicate Sweeps(sessions: map<Token, Session>, purge: set<Token>, now: Time) {
    AtMostSweep(Purgeables(sessions, now), purge)
  }

  /** Some choice is always possible. */
  lemma {:induction false} SomeSweep(rows: set<Token>)
    ensures exists purge :: AtMostSweep(rows, purge)
    decreases |rows|
  {
    if |rows| <= SWEEP {
      assert AtMostSweep(rows, rows);
    } else {
      var t :| t in rows;
      SomeSweep(rows - {t});
      var purge :| AtMostSweep(rows - {t}, purge);
      assert AtMostSweep(rows, purge);
    }
  }

  // ------------------------------------------------------------------ transactions

  ghost function BootstrapTx(db: Db, id: Id, email: string, name: string, hash: Hash): (Db, Result<Credential>) {
    if db.users != map[] then (db, Err(Conflict))
    else (db.(users := map[id := User(email, name, Admin, false, hash)]), Ok(Credential(id, hash)))
  }

  function WithSession(db: Db, token: Token, user: Id, expires: Time): map<Token, Session> {
    db.sessions[token := Session(user, expires, None)]
  }

  /** The credential is checked again and the current role is returned. `purge` names the
      rows that the clean-up deletes. */
  ghost function CreateSessionTx(db: Db, token: Token, c: Credential, expires: Time, purge: set<Token>)
    : (Db, Result<User>)
  {
    if c.user !in db.users then (db, Err(Unauthorized))
    else
      var u := db.users[c.user];
      if u.disabled || u.hash != c.hash then (db, Err(Unauthorized))
      else if token in db.sessions then (db, Err(Internal))
      else
        (db.(sessions := WithSession(db, token, c.user, expires) - purge), Ok(u))
  }

  ghost function RevokeSessionTx(db: Db, token: Token, now: Time): Db {
    if token in db.sessions
    then db.(sessions := db.sessions[token :=
                        db.sessions[token].(revoked := Coalesce(db.sessions[token].revoked, now))])
    else db
  }

  ghost function ChangePasswordTx(db: Db, id: Id, oldHash: Hash, newHash: Hash, now: Time): (Db, Result<()>) {
    if id !in db.users || db.users[id].hash != oldHash || db.users[id].disabled then (db, Err(Unauthorized))
    else
      var u := db.users[id];
      (Db(db.users[id := u.(hash := newHash)],
          RevokeSessionsOf(db.sessions, id, now),
          RevokeInvitations(db.invitations, u.email, Some(Reset), now)),
       Ok(()))
  }

  function Patched(u: User, patch: Patch): User {
    var a := if patch.role.Some? then u.(role := patch.role.value) else u;
    if patch.disabled.Some? then a.(disabled := patch.disabled.value) else a
  }

  /** The change would take away an enabled administrator. */
  predicate LosesAdmin(before: User, after: User) {
    before.role == Admin && !before.disabled && (after.role != Admin || after.disabled)
  }

  ghost function UpdateUserTx(db: Db, actor: Id, id: Id, patch: Patch, now: Time): (Db, Result<User>) {
    if !IsEnabledAdmin(db.users, actor) then (db, Err(Forbidden))
    else if id !in db.users then (db, Err(Unauthorized))
    else
      var before := db.users[id];
      var after := Patched(before, patch);
      if after.role != Admin && after.role != Member then (db, Err(Invalid))
      else if LosesAdmin(before, after) && |EnabledAdmins(db.users)| <= 1 then (db, Err(Conflict))
      else
        (Db(db.users[id := after],
            if before.role != after.role || before.disabled != after.disabled
            then RevokeSessionsOf(db.sessions, id, now) else db.sessions,
            if after.disabled
            then RevokeInvitations(db.invitations, after.email, None, now) else db.invitations),
         Ok(after))
  }

  ghost function IssueInvitationTx(
    db: Db, actor: Id, id: Id, email: string, kind: Kind, token: Token, expires: Time, now: Time
  ): (Db, Result<Invitation>)
  {
    if !IsEnabledAdmin(db.users, actor) then (db, Err(Forbidden))
    else
      var taken := HasEmail(db.users, email);
      if (kind == Register && taken) || (kind == Reset && (!taken || db.users[ByEmail(db.users, email)].disabled))
      then (db, Err(Conflict))
      else if kind != Register && kind != Reset then (db, Err(Internal))
      else if token in db.invitations || (exists t | t in db.invitations :: db.invitations[t].id == id)
      then (db, Err(Conflict))
      else
        var i := Invitation(id, email, kind, actor, expires, None, None);
        (db.(invitations := RevokeInvitations(db.invitations, email, Some(kind), now)[token := i]), Ok(i))
  }

  /** used_at IS NULL AND revoked_at IS NULL */
  predicate Live(i: Invitation) { i.used.None? && i.revoked.None? }

  predicate Consumable(db: Db, token: Token, kind: Kind, now: Time) {
    token in db.invitations && db.invitations[token].kind == kind && Live(db.invitations[token])
    && db.invitations[token].expires > now
  }

  function Spend(db: Db, token: Token, users: map<Id, User>, user: Id, now: Time): Db
    requires token in db.invitations
  {
    Db(users, RevokeSessionsOf(db.sessions, user, now),
       db.invitations[token := db.invitations[token].(used := Some(now))])
  }

  ghost function ConsumeInvitationTx(
    db: Db, token: Token, kind: Kind, hash: Hash, name: string, newId: Id, now: Time
  ): (Db, Result<Credential>)
  {
    if !Consumable(db, token, kind, now) then (db, Err(Unauthorized))
    else
      var email := db.invitations[token].email;
      match kind
      case Register =>
        if newId in db.users || HasEmail(db.users, email) then (db, Err(Conflict))
        else
          (Spend(db, token, db.users[newId := User(email, name, Member, false, hash)], newId, now),
           Ok(Credential(newId, hash)))
      case Reset =>
        if !HasEmail(db.users, email) || db.users[ByEmail(db.users, email)].disabled then (db, Err(Unauthorized))
        else
          var u := ByEmail(db.users, email);
          (Spend(db, token, db.users[u := db.users[u].(hash := hash)], u, now), Ok(Credential(u, hash)))
      case OtherKind(_) => (db, Err(Invalid))
  }

  ghost function RevokeInvitationTx(db: Db, actor: Id, id: Id, now: Time): (Db, Result<()>) {
    if !IsEnabledAdmin(db.users, actor) then (db, Err(Forbidden))
    else if !exists t | t in db.invitations :: db.invitations[t].id == id then (db, Err(Conflict))
    else
      (db.(invitations := map t | t in db.invitations ::
         if db.invitations[t].id == id
         then db.invitations[t].(revoked := Coalesce(db.invitations[t].revoked, now))
         else db.invitations[t]),
       Ok(()))
  }

  /** The user that a session token stands for, when it authenticates. */
  function Authenticated(db: Db, token: Token, now: Time): Option<Id> {
    if token in db.sessions && db.sessions[token].revoked.None? && db.sessions[token].expires > now
       && db.sessions[token].user in db.users && !db.users[db.sessions[token].user].disabled
    then Some(db.sessions[token].user)
    else None
  }

  // ------------------------------------------------------------------- constraints

  /** What the schema itself enforces: unique emails and unique invitation ids. */
  ghost predicate Constraints(db: Db) {
    && (forall u, v :: u in db.users && v in db.users && db.users[u].email == db.users[v].email ==> u == v)
    && (forall s, t | s in db.invitations && t in db.invitations ::
         db.invitations[s].id == db.invitations[t].id ==> s == t)
  }

  /** The same accounts under the same emails. */
  ghost predicate SameAccounts(before: map<Id, User>, after: map<Id, User>) {
    after.Keys == before.Keys && forall u | u in before :: after[u].email == before[u].email
  }

  lemma ConstraintsKept(before: Db, after: Db)
    requires Constraints(before)
    requires SameAccounts(before.users, after.users) && OnlyRevokes(before.invitations, after.invitations)
    ensures Constraints(after)
  {
  }

  // ------------------------------------------------------------------------- store

  class Store {
    var users: map<Id, User>
    var sessions: map<Token, Session>
    var invitations: map<Token, Invitation>

    ghost function State(): Db
      reads this
    {
      Db(users, sessions, invitations)
    }

    ghost predicate Valid()
      reads this
    {
      Constraints(State())
    }

    constructor ()
      ensures State() == EMPTY && Valid()
    {
      users, sessions, invitations := map[], map[], map[];
    }

    method Bootstrap(id: Id, email: string, name: string, hash: Hash) returns (r: Result<Credential>)
      requires Valid()
      modifies this
      ensures Valid() && (State(), r) == BootstrapTx(old(State()), id, email, name, hash)
    {
      if users != map[] {
        return Err(Conflict);
      }
      users := map[id := User(email, name, Admin, false, hash)];
      r := Ok(Credential(id, hash));
    }

    method FindByEmail(email: string) returns (found: Option<Id>)
      requires Valid()
      ensures found.Some? <==> HasEmail(users, email)
      ensures found.Some? ==> found.value == ByEmail(users, email)
    {
      if HasEmail(users, email) {
        var u :| u in users && users[u].email == email;
        found := Some(u);
      } else {
        found := None;
      }
    }

    method ReadCredential(email: string) returns (r: Result<(Credential, User)>)
      requires Valid()
      ensures HasEmail(users, email) ==>
        var u := ByEmail(users, email); r == Ok((Credential(u, users[u].hash), users[u]))
      ensures !HasEmail(users, email) ==> r == Err(Unauthorized)
    {
      var u := FindByEmail(email);
      if u.None? {
        return Err(Unauthorized);
      }
      r := Ok((Credential(u.value, users[u.value].hash), users[u.value]));
    }

    method CreateSession(token: Token, c: Credential, expires: Time, now: Time, purge: set<Token>)
      returns (r: Result<User>)
      requires Valid() && Sweeps(WithSession(State(), token, c.user, expires), purge, now)
      modifies this
      ensures Valid() && (State(), r) == CreateSessionTx(old(State()), token, c, expires, purge)
    {
      if c.user !in users {
        return Err(Unauthorized);
      }
      var u := users[c.user];
      if u.disabled || u.hash != c.hash {
        return Err(Unauthorized);
      }
      if token in sessions {
        return Err(Internal);
      }
      sessions := sessions[token := Session(c.user, expires, None)];
      sessions := sessions - purge;
      r := Ok(u);
    }

    method RevokeSession(token: Token, now: Time)
      requires Valid()
      modifies this
      ensures Valid() && State() == RevokeSessionTx(old(State()), token, now)
    {
      if token in sessions {
        sessions := sessions[token := sessions[token].(revoked := Coalesce(sessions[token].revoked, now))];
      }
    }

    method ChangePassword(id: Id, oldHash: Hash, newHash: Hash, now: Time) returns (r: Result<()>)
      requires Valid()
      modifies this
      ensures Valid() && (State(), r) == ChangePasswordTx(old(State()), id, oldHash, newHash, now)
    {
      if id !in users || users[id].hash != oldHash || users[id].disabled {
        return Err(Unauthorized);
      }
      users := users[id := users[id].(hash := newHash)];
      sessions := RevokeSessionsOf(sessions, id, now);
      invitations := RevokeInvitations(invitations, users[id].email, Some(Reset), now);
      r := Ok(());
    }

    method UpdateUser(actor: Id, id: Id, patch: Patch, now: Time) returns (r: Result<User>)
      requires Valid()
      modifies this
      ensures Valid() && (State(), r) == UpdateUserTx(old(State()), actor, id, patch, now)
    {
      hide RevokeSessionsOf, RevokeInvitations, EnabledAdmins, IsEnabledAdmin, Coalesce, HasEmail;
      if !IsEnabledAdmin(users, actor) {
        return Err(Forbidden);
      }
      if id !in users {
        return Err(Unauthorized);
      }
      var before := users[id];
      var after := before;
      if patch.role.Some? {
        after := after.(role := patch.role.value);
      }
      if patch.disabled.Some? {
        after := after.(disabled := patch.disabled.value);
      }
      if after.role != Admin && after.role != Member {
        return Err(Invalid);
      }
      if before.role == Admin && !before.disabled && (after.role != Admin || after.disabled) {
        var count := |EnabledAdmins(users)|;
        if count <= 1 {
          return Err(Conflict);
        }
      }
      users := users[id := after];
      if before.role != after.role || before.disabled != after.disabled {
        sessions := RevokeSessionsOf(sessions, id, now);
      }
      if after.disabled {
        RevokesOnly(invitations, after.email, None, now);
        invitations := RevokeInvitations(invitations, after.email, None, now);
      }
      r := Ok(after);
    }

    method IssueInvitation(actor: Id, id: Id, email: string, kind: Kind, token: Token, expires: Time, now: Time)
      returns (r: Result<Invitation>)
      requires Valid()
      modifies this
      ensures Valid()
      ensures (State(), r) == IssueInvitationTx(old(State()), actor, id, email, kind, token, expires, now)
    {
      if !IsEnabledAdmin(users, actor) {
        return Err(Forbidden);
      }
      var taken := FindByEmail(email);
      if (kind == Register && taken.Some?) || (kind == Reset && (taken.None? || users[taken.value].disabled)) {
        return Err(Conflict);
      }
      if kind != Register && kind != Reset {
        return Err(Internal);
      }
      if token in invitations || (exists t | t in invitations :: invitations[t].id == id) {
        return Err(Conflict);
      }
      var i := Invitation(id, email, kind, actor, expires, None, None);
      invitations := RevokeInvitations(invitations, email, Some(kind), now);
      invitations := invitations[token := i];
      r := Ok(i);
    }

    method ConsumeInvitation(token: Token, kind: Kind, hash: Hash, name: string, newId: Id, now: Time)
      returns (r: Result<Credential>)
      requires Valid()
      modifies this
      ensures Valid()
      ensures (State(), r) == ConsumeInvitationTx(old(State()), token, kind, hash, name, newId, now)
    {
      if token !in invitations || invitations[token].kind != kind || !Live(invitations[token])
         || invitations[token].expires <= now {
        return Err(Unauthorized);
      }
      var email := invitations[token].email;
      var holder := FindByEmail(email);
      var u;
      if kind == Register {
        if newId in users || holder.Some? {
          return Err(Conflict);
        }
        u := newId;
        users := users[u := User(email, name, Member, false, hash)];
      } else if kind == Reset {
        if holder.None? || users[holder.value].disabled {
          return Err(Unauthorized);
        }
        u := holder.value;
        users := users[u := users[u].(hash := hash)];
      } else {
        return Err(Invalid);
      }
      invitations := invitations[token := invitations[token].(used := Some(now))];
      sessions := RevokeSessionsOf(sessions, u, now);
      r := Ok(Credential(u, hash));
    }

    method RevokeInvitation(actor: Id, id: Id, now: Time) returns (r: Result<()>)
      requires Valid()
      modifies this
      ensures Valid() && (State(), r) == RevokeInvitationTx(old(State()), actor, id, now)
    {
      if !IsEnabledAdmin(users, actor) {
        return Err(Forbidden);
      }
      if !exists t | t in invitations :: invitations[t].id == id {
        return Err(Conflict);
      }
      invitations := map t | t in invitations ::
        if invitations[t].id == id
        then invitations[t].(revoked := Coalesce(invitations[t].revoked, now))
        else invitations[t];
      r := Ok(());
    }
  }
}

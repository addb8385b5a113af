/** Every interleaving of account operations. Logins, registrations and the bootstrap are
    split as the service splits them (backend/internal/identity/service.go): one step yields
    a credential, a later step turns it into a session, and any other steps may come in
    between. */
module AccountRuns {
  import opened Wrappers
  import opened Accounts

  /** What a session was created against. */
  datatype Birth = Birth(hash: Hash, role: Role)

  /** The tables, the credentials that clients hold between their two steps, and the
      history of session creations. */
  datatype World = World(db: Db, tickets: map<nat, Credential>, born: map<Token, Birth>)

  const START := World(EMPTY, map[], map[])

  datatype Step =
    | Bootstrap(ticket: nat, id: Id, email: string, name: string, hash: Hash)
    | ReadCredential(ticket: nat, email: string)
    | OpenSession(ticket: nat, token: Token, expires: Time, now: Time, purge: set<Token>)
    | Logout(token: Token, now: Time)
    | ChangePassword(id: Id, oldHash: Hash, newHash: Hash, now: Time)
    | UpdateUser(actor: Id, id: Id, patch: Patch, now: Time)
    | IssueInvitation(actor: Id, invitation: Id, email: string, kind: Kind, token: Token, expires: Time, now: Time)
    | ConsumeInvitation(ticket: nat, token: Token, kind: Kind, hash: Hash, name: string, newId: Id, now: Time)
    | RevokeInvitation(actor: Id, invitation: Id, now: Time)

  function Hold(w: World, ticket: nat, db: Db, r: Result<Credential>): World {
    if r.Ok? then w.(db := db, tickets := w.tickets[ticket := r.value]) else w.(db := db)
  }

  /** Login's first half: the stored credential of an enabled account. */
  ghost function Read(db: Db, email: string): Result<Credential> {
    if !HasEmail(db.users, email) || db.users[ByEmail(db.users, email)].disabled then Err(Unauthorized)
    else Ok(Credential(ByEmail(db.users, email), db.users[ByEmail(db.users, email)].hash))
  }

  /** One step. Session tokens are random and assumed never to repeat; a login whose `purge`
      is no choice of the clean-up is no step and changes nothing. */
  ghost function Apply(w: World, s: Step): World {
    match s
    case Bootstrap(ticket, id, email, name, hash) =>
      var (db, r) := BootstrapTx(w.db, id, email, name, hash);
      Hold(w, ticket, db, r)
    case ReadCredential(ticket, email) => Hold(w, ticket, w.db, Read(w.db, email))
    case OpenSession(ticket, token, expires, now, purge) =>
      if ticket !in w.tickets || token in w.born then w
      else if !Sweeps(WithSession(w.db, token, w.tickets[ticket].user, expires), purge, now) then w
      else
        var (db, r) := CreateSessionTx(w.db, token, w.tickets[ticket], expires, purge);
        if r.Ok? then w.(db := db, born := w.born[token := Birth(w.tickets[ticket].hash, r.value.role)])
        else w.(db := db)
    case Logout(token, now) => w.(db := RevokeSessionTx(w.db, token, now))
    case ChangePassword(id, oldHash, newHash, now) =>
      w.(db := ChangePasswordTx(w.db, id, oldHash, newHash, now).0)
    case UpdateUser(actor, id, patch, now) => w.(db := UpdateUserTx(w.db, actor, id, patch, now).0)
    case IssueInvitation(actor, invitation, email, kind, token, expires, now) =>
      w.(db := IssueInvitationTx(w.db, actor, invitation, email, kind, token, expires, now).0)
    case ConsumeInvitation(ticket, token, kind, hash, name, newId, now) =>
      var (db, r) := ConsumeInvitationTx(w.db, token, kind, hash, name, newId, now);
      if kind == Register then Hold(w, ticket, db, r) else w.(db := db)
    case RevokeInvitation(actor, invitation, now) =>
      w.(db := RevokeInvitationTx(w.db, actor, invitation, now).0)
  }

  ghost function Run(w: World, steps: seq<Step>): World
    decreases |steps|
  {
    if steps == [] then w else Apply(Run(w, steps[..|steps| - 1]), steps[|steps| - 1])
  }

  // --------------------------------------------------------------------- invariant

  /** Every session is on record; an unrevoked one belongs to an enabled user and was created
      against that user's current password hash and current role. */
  ghost predicate Fresh(w: World) {
    forall t | t in w.db.sessions ::
      && t in w.born
      && (w.db.sessions[t].revoked.None? ==>
            var user := w.db.sessions[t].user;
            && user in w.db.users && !w.db.users[user].disabled
            && w.born[t] == Birth(w.db.users[user].hash, w.db.users[user].role))
  }

  predicate IsLive(db: Db, t: Token) { t in db.invitations && Live(db.invitations[t]) }

  /** At most one live invitation for an email and a kind. */
  ghost predicate OneLive(db: Db) {
    forall s, t | IsLive(db, s) && IsLive(db, t) ::
      db.invitations[s].email == db.invitations[t].email && db.invitations[s].kind == db.invitations[t].kind
      ==> s == t
  }

  /** A live register invitation has no account yet; a live reset invitation has an enabled one. */
  ghost predicate LiveFits(db: Db) {
    forall t | IsLive(db, t) ::
      && (db.invitations[t].kind == Register ==> !HasEmail(db.users, db.invitations[t].email))
      && (db.invitations[t].kind == Reset ==>
            exists u | u in db.users :: db.users[u].email == db.invitations[t].email && !db.users[u].disabled)
      && (db.invitations[t].kind == Register || db.invitations[t].kind == Reset)
  }

  function UsedRegisters(db: Db): set<Token> {
    set t | t in db.invitations && db.invitations[t].kind == Register && db.invitations[t].used.Some?
  }

  /** Accounts come from the bootstrap and from used register invitations, one each. */
  ghost predicate Counted(db: Db) {
    && (db.users == map[] ==> db.invitations == map[] && db.sessions == map[])
    && (db.users != map[] ==> |db.users| == 1 + |UsedRegisters(db)|)
  }

  ghost predicate HasEnabledAdmin(users: map<Id, User>) { exists u :: IsEnabledAdmin(users, u) }

  /** Once there are accounts, an enabled administrator is among them. */
  ghost predicate Governed(db: Db) {
    db.users != map[] ==> HasEnabledAdmin(db.users)
  }

  ghost predicate Inv(w: World) {
    && Constraints(w.db) && OneLive(w.db) && LiveFits(w.db) && Counted(w.db) && Governed(w.db) && Fresh(w)
  }

  // ------------------------------------------------------------- one step at a time

  lemma FreshStep(w: World, s: Step)
    requires Constraints(w.db) && Fresh(w)
    ensures Fresh(Apply(w, s))
  {
    if s.ChangePassword? {
      hide Fresh, Constraints, Apply;
      FreshPassword(w, s);
    } else if s.UpdateUser? {
      hide Fresh, Constraints, Apply;
      FreshUpdate(w, s);
    } else if s.ConsumeInvitation? {
      hide Fresh, Constraints, Apply;
      FreshConsume(w, s);
    } else {
      hide RevokeSessionsOf, RevokeInvitations, EnabledAdmins, HasEmail, Sweeps;
    }
  }

  // The steps that change an account revoke its sessions.

  lemma FreshPassword(w: World, s: Step)
    requires s.ChangePassword? && Fresh(w)
    ensures Fresh(Apply(w, s))
  {
    hide RevokeInvitations;
  }

  lemma FreshUpdate(w: World, s: Step)
    requires s.UpdateUser? && Fresh(w)
    ensures Fresh(Apply(w, s))
  {
    hide RevokeInvitations, EnabledAdmins, IsEnabledAdmin, LosesAdmin;
  }

  lemma FreshConsume(w: World, s: Step)
    requires s.ConsumeInvitation? && Constraints(w.db) && Fresh(w)
    ensures Fresh(Apply(w, s))
  {
    hide Consumable;
  }

  /** The steps that create neither an account nor an invitation and use no invitation. */
  predicate Quiet(s: Step) {
    !s.Bootstrap? && !s.IssueInvitation? && !s.ConsumeInvitation?
  }

  lemma RevokeOneStep(w: World, s: Step)
    requires s.RevokeInvitation?
    ensures OnlyRevokes(w.db.invitations, Apply(w, s).db.invitations) && Apply(w, s).db.users == w.db.users
  {
    hide EnabledAdmins;
  }

  lemma PasswordStep(w: World, s: Step)
    requires s.ChangePassword?
    ensures SameAccounts(w.db.users, Apply(w, s).db.users)
    ensures OnlyRevokes(w.db.invitations, Apply(w, s).db.invitations)
  {
    hide RevokeSessionsOf, RevokeInvitations;
    if s.id in w.db.users {
      RevokesOnly(w.db.invitations, w.db.users[s.id].email, Some(Reset), s.now);
    }
  }

  lemma UpdateStep(w: World, s: Step)
    requires s.UpdateUser?
    ensures SameAccounts(w.db.users, Apply(w, s).db.users)
    ensures OnlyRevokes(w.db.invitations, Apply(w, s).db.invitations)
  {
    hide RevokeSessionsOf, RevokeInvitations, EnabledAdmins, IsEnabledAdmin, LosesAdmin;
    if s.id in w.db.users {
      RevokesOnly(w.db.invitations, w.db.users[s.id].email, None, s.now);
    }
  }

  lemma QuietStep(w: World, s: Step)
    requires Quiet(s)
    ensures SameAccounts(w.db.users, Apply(w, s).db.users)
    ensures OnlyRevokes(w.db.invitations, Apply(w, s).db.invitations)
  {
    if s.ChangePassword? {
      hide Apply, SameAccounts, OnlyRevokes;
      PasswordStep(w, s);
    } else if s.UpdateUser? {
      hide Apply, SameAccounts, OnlyRevokes;
      UpdateStep(w, s);
    } else if s.RevokeInvitation? {
      hide Apply, OnlyRevokes;
      RevokeOneStep(w, s);
    } else {
      hide Sweeps, HasEmail;
    }
  }

  lemma ConstraintsStep(w: World, s: Step)
    requires Constraints(w.db)
    ensures Constraints(Apply(w, s).db)
  {
    if Quiet(s) {
      hide Apply, Constraints, SameAccounts, OnlyRevokes;
      QuietStep(w, s);
      ConstraintsKept(w.db, Apply(w, s).db);
    } else if s.IssueInvitation? {
      hide Apply, Constraints;
      IssueConstraints(w, s);
    } else {
      hide RevokeSessionsOf;
    }
  }

  lemma IssueConstraints(w: World, s: Step)
    requires s.IssueInvitation? && Constraints(w.db)
    ensures Constraints(Apply(w, s).db)
  {
    hide RevokeInvitations, HasEmail, EnabledAdmins, IsEnabledAdmin;
    RevokesOnly(w.db.invitations, s.email, Some(s.kind), s.now);
  }

  lemma OneLiveStep(w: World, s: Step)
    requires OneLive(w.db)
    ensures OneLive(Apply(w, s).db)
  {
    if Quiet(s) {
      hide Apply;
      QuietStep(w, s);
      var db := Apply(w, s).db;
      assert forall t | IsLive(db, t) :: IsLive(w.db, t);
    } else if s.IssueInvitation? {
      hide Apply, OneLive;
      IssueSupersedes(w, s);
    } else {
      hide Apply, OneLive;
      NothingGoesLive(w, s);
    }
  }

  lemma NothingGoesLive(w: World, s: Step)
    requires (s.Bootstrap? || s.ConsumeInvitation?) && OneLive(w.db)
    ensures OneLive(Apply(w, s).db)
  {
    hide RevokeSessionsOf, HasEmail;
    assert forall t | IsLive(Apply(w, s).db, t) :: IsLive(w.db, t);
  }

  /** An invitation supersedes the live one for the same email and kind. */
  lemma IssueSupersedes(w: World, s: Step)
    requires s.IssueInvitation? && OneLive(w.db)
    ensures OneLive(Apply(w, s).db)
  {
    hide EnabledAdmins, IsEnabledAdmin, HasEmail;
    var db := Apply(w, s).db;
    assert forall t | IsLive(db, t) && t != s.token :: IsLive(w.db, t);
  }

  lemma AdminStays(before: map<Id, User>, after: map<Id, User>, u: Id)
    requires IsEnabledAdmin(before, u)
    requires u in after && after[u].role == before[u].role && after[u].disabled == before[u].disabled
    ensures HasEnabledAdmin(after)
  {
    assert IsEnabledAdmin(after, u);
  }

  /** The last-administrator check of UpdateUser. */
  lemma SomeAdminLeft(users: map<Id, User>, id: Id, after: User)
    requires id in users && HasEnabledAdmin(users)
    requires LosesAdmin(users[id], after) ==> |EnabledAdmins(users)| > 1
    ensures HasEnabledAdmin(users[id := after])
  {
    var u :| IsEnabledAdmin(users, u);
    if u != id {
      AdminStays(users, users[id := after], u);
    } else if LosesAdmin(users[id], after) {
      var others := EnabledAdmins(users) - {id};
      assert |others| >= 1;
      var v :| v in others;
      AdminStays(users, users[id := after], v);
    } else {
      assert IsEnabledAdmin(users[id := after], id);
    }
  }

  lemma GovernedStep(w: World, s: Step)
    requires Counted(w.db) && Governed(w.db)
    ensures Governed(Apply(w, s).db)
  {
    hide RevokeSessionsOf, RevokeInvitations, Purgeable, EnabledAdmins, LosesAdmin, HasEmail;
    var after := Apply(w, s).db.users;
    if w.db.users == map[] {
      if s.Bootstrap? {
        assert IsEnabledAdmin(after, s.id);
      }
    } else {
      var u :| IsEnabledAdmin(w.db.users, u);
      if s.UpdateUser? && after != w.db.users {
        SomeAdminLeft(w.db.users, s.id, after[s.id]);
      } else {
        AdminStays(w.db.users, after, u);
      }
    }
  }

  lemma CountedStep(w: World, s: Step)
    requires Constraints(w.db) && Counted(w.db)
    ensures Counted(Apply(w, s).db)
  {
    if Quiet(s) {
      hide Apply, Constraints;
      QuietStep(w, s);
      CountedKept(w.db, Apply(w, s).db);
      QuietNeedsUsers(w, s);
    } else if s.Bootstrap? {
      hide Constraints;
      assert UsedRegisters(EMPTY) == {};
    } else if s.IssueInvitation? {
      hide Constraints, Counted;
      CountedIssue(w, s);
    } else {
      hide Constraints, Apply, Counted;
      CountedConsume(w, s);
    }
  }

  lemma CountedKept(before: Db, after: Db)
    requires Counted(before) && SameAccounts(before.users, after.users)
    requires OnlyRevokes(before.invitations, after.invitations)
    requires after.users == map[] ==> after.sessions == map[]
    ensures Counted(after)
  {
    assert UsedRegisters(after) == UsedRegisters(before);
    assert |after.users.Keys| == |before.users.Keys|;
  }

  lemma QuietNeedsUsers(w: World, s: Step)
    requires Quiet(s) && (w.db.users == map[] ==> w.db.sessions == map[])
    ensures Apply(w, s).db.users == map[] ==> Apply(w, s).db.sessions == map[]
  {
    hide RevokeInvitations, EnabledAdmins, HasEmail;
  }

  lemma CountedIssue(w: World, s: Step)
    requires s.IssueInvitation? && Counted(w.db)
    ensures Counted(Apply(w, s).db)
  {
    hide RevokeInvitations, HasEmail, EnabledAdmins;
    RevokesOnly(w.db.invitations, s.email, Some(s.kind), s.now);
    assert UsedRegisters(Apply(w, s).db) == UsedRegisters(w.db);
  }

  lemma CountedConsume(w: World, s: Step)
    requires s.ConsumeInvitation? && Counted(w.db)
    ensures Counted(Apply(w, s).db)
  {
    hide RevokeSessionsOf, HasEmail;
    var db := Apply(w, s).db;
    if db != w.db {
      var spent := w.db.invitations[s.token].(used := Some(s.now));
      assert db.invitations == w.db.invitations[s.token := spent];
      if s.kind == Register {
        assert db.users.Keys == w.db.users.Keys + {s.newId} && s.newId !in w.db.users;
      } else {
        assert db.users.Keys == w.db.users.Keys;
      }
      hide Apply;
      SpendingCounts(w.db, db, s.token, spent);
      assert |db.users| == |db.users.Keys| && |w.db.users| == |w.db.users.Keys|;
    }
  }

  lemma SpendingCounts(before: Db, after: Db, token: Token, spent: Invitation)
    requires token in before.invitations && Live(before.invitations[token])
    requires spent.used.Some? && spent.kind == before.invitations[token].kind
    requires after.invitations == before.invitations[token := spent]
    ensures |UsedRegisters(after)| == |UsedRegisters(before)| + if spent.kind == Register then 1 else 0
  {
    assert token !in UsedRegisters(before);
    if spent.kind == Register {
      assert UsedRegisters(after) == UsedRegisters(before) + {token};
    } else {
      assert UsedRegisters(after) == UsedRegisters(before);
    }
  }

  /** Whoever keeps the emails and disables nobody keeps what live invitations rely on. */
  lemma LiveFitsKept(before: Db, after: Db)
    requires LiveFits(before) && SameAccounts(before.users, after.users)
    requires OnlyRevokes(before.invitations, after.invitations)
    requires forall u | u in before.users && !before.users[u].disabled && after.users[u].disabled ::
      forall t | IsLive(after, t) :: after.invitations[t].email != before.users[u].email
    ensures LiveFits(after)
  {
    forall t | IsLive(after, t)
      ensures after.invitations[t].kind == Reset ==>
        exists u | u in after.users :: after.users[u].email == after.invitations[t].email && !after.users[u].disabled
      ensures after.invitations[t].kind == Register ==> !HasEmail(after.users, after.invitations[t].email)
    {
      assert IsLive(before, t);
      if after.invitations[t].kind == Reset {
        var u :| u in before.users && before.users[u].email == before.invitations[t].email && !before.users[u].disabled;
        assert u in after.users;
      }
    }
  }

  lemma LiveFitsStep(w: World, s: Step)
    requires Constraints(w.db) && OneLive(w.db) && LiveFits(w.db) && Counted(w.db)
    ensures LiveFits(Apply(w, s).db)
  {
    if Quiet(s) {
      hide Apply, LiveFits, OneLive, Counted, Constraints;
      QuietStep(w, s);
      DisablingRevokes(w, s);
      LiveFitsKept(w.db, Apply(w, s).db);
    } else if s.IssueInvitation? {
      hide LiveFits, Apply;
      IssueFits(w, s);
    } else if s.ConsumeInvitation? {
      hide LiveFits, Apply, OneLive;
      ConsumeFits(w, s);
    } else {
      hide LiveFits, OneLive, Constraints;
      BootstrapFits(w, s);
    }
  }

  lemma BootstrapFits(w: World, s: Step)
    requires s.Bootstrap? && LiveFits(w.db) && (w.db.users == map[] ==> w.db.invitations == map[])
    ensures LiveFits(Apply(w, s).db)
  {
  }

  /** Only UpdateUser disables an account, and it revokes what that account relies on. */
  lemma DisablingRevokes(w: World, s: Step)
    requires Quiet(s) && SameAccounts(w.db.users, Apply(w, s).db.users)
    ensures var db := Apply(w, s).db;
            forall u | u in w.db.users && !w.db.users[u].disabled && db.users[u].disabled ::
              forall t | IsLive(db, t) :: db.invitations[t].email != w.db.users[u].email
  {
    hide RevokeSessionsOf, EnabledAdmins, HasEmail, LosesAdmin;
  }

  lemma IssueFits(w: World, s: Step)
    requires s.IssueInvitation? && LiveFits(w.db)
    ensures LiveFits(Apply(w, s).db)
  {
    hide RevokeInvitations, EnabledAdmins;
    var db := Apply(w, s).db;
    RevokesOnly(w.db.invitations, s.email, Some(s.kind), s.now);
    forall t | IsLive(db, t) && t != s.token
      ensures IsLive(w.db, t) && db.invitations[t].email == w.db.invitations[t].email
      ensures db.invitations[t].kind == w.db.invitations[t].kind
    {
    }
    if db != w.db && s.kind == Reset {
      var u := ByEmail(w.db.users, s.email);
      assert u in db.users && db.users[u].email == s.email && !db.users[u].disabled;
    }
  }

  lemma ConsumeFits(w: World, s: Step)
    requires s.ConsumeInvitation? && OneLive(w.db) && LiveFits(w.db)
    ensures LiveFits(Apply(w, s).db)
  {
    hide RevokeSessionsOf;
    var db := Apply(w, s).db;
    if db != w.db {
      var i := w.db.invitations[s.token];
      forall t | IsLive(db, t)
        ensures db.invitations[t].kind == Register ==> !HasEmail(db.users, db.invitations[t].email)
        ensures db.invitations[t].kind == Reset ==>
          exists u | u in db.users :: db.users[u].email == db.invitations[t].email && !db.users[u].disabled
      {
        assert IsLive(w.db, t) && t != s.token && IsLive(w.db, s.token);
        var j := w.db.invitations[t];
        if j.kind == Register {
          assert s.kind == Register ==> j.email != i.email;
        } else {
          var u :| u in w.db.users && w.db.users[u].email == j.email && !w.db.users[u].disabled;
          assert u in db.users && db.users[u].email == j.email && !db.users[u].disabled;
        }
      }
    }
  }

  // ------------------------------------------------------------------------- runs

  lemma InvStep(w: World, s: Step)
    requires Inv(w)
    ensures Inv(Apply(w, s))
  {
    ConstraintsStep(w, s);
    OneLiveStep(w, s);
    LiveFitsStep(w, s);
    CountedStep(w, s);
    GovernedStep(w, s);
    FreshStep(w, s);
    hide Apply, Constraints, OneLive, LiveFits, Counted, Governed, Fresh;
  }

  /** The invariant holds after every run. */
  lemma {:induction false} InvRun(steps: seq<Step>)
    ensures Inv(Run(START, steps))
    decreases |steps|
  {
    if steps != [] {
      InvRun(steps[..|steps| - 1]);
      InvStep(Run(START, steps[..|steps| - 1]), steps[|steps| - 1]);
    }
  }

  lemma {:induction false} RunConcat(w: World, a: seq<Step>, b: seq<Step>)
    ensures Run(w, a + b) == Run(Run(w, a), b)
    decreases |b|
  {
    if b == [] {
      assert a + b == a;
    } else {
      var ab := a + b;
      assert ab[..|ab| - 1] == a + b[..|b| - 1];
      RunConcat(w, a, b[..|b| - 1]);
    }
  }

  /** Session freshness, over every interleaving: whoever authenticates is enabled, and the
      session was created against the current password hash and the current role. */
  lemma SessionsAreFresh(steps: seq<Step>, token: Token, now: Time)
    ensures var w := Run(START, steps);
            var who := Authenticated(w.db, token, now);
            who.Some? ==>
              && token in w.born
              && w.born[token] == Birth(w.db.users[who.value].hash, w.db.users[who.value].role)
  {
    InvRun(steps);
  }

  /** The filter on disabled accounts in Authenticate never decides: a session that is
      unrevoked and unexpired authenticates its user. */
  lemma EnabledFilterIsRedundant(steps: seq<Step>, token: Token, now: Time)
    ensures var db := Run(START, steps).db;
            (token in db.sessions && db.sessions[token].revoked.None? && db.sessions[token].expires > now)
            <==> Authenticated(db, token, now).Some?
  {
    InvRun(steps);
  }

  /** A live, unexpired invitation can always be consumed: no conflict with an existing
      account and no missing or disabled one, whatever happened since it was issued. */
  lemma LiveInvitationIsGood(steps: seq<Step>, token: Token, hash: Hash, name: string, newId: Id, now: Time)
    requires var db := Run(START, steps).db;
             IsLive(db, token) && db.invitations[token].expires > now && newId !in db.users
    ensures var db := Run(START, steps).db;
            var (after, r) := ConsumeInvitationTx(db, token, db.invitations[token].kind, hash, name, newId, now);
            && r.Ok? && r.value.user in after.users
            && after.users[r.value.user].email == db.invitations[token].email
            && after.users[r.value.user].hash == hash && !after.users[r.value.user].disabled
  {
    InvRun(steps);
    var db := Run(START, steps).db;
    hide Run;
    var i := db.invitations[token];
    if i.kind == Reset {
      var u :| u in db.users && db.users[u].email == i.email && !db.users[u].disabled;
      assert HasEmail(db.users, i.email) && ByEmail(db.users, i.email) == u;
    }
  }

  /** After the bootstrap there is one account for it and one for every used register
      invitation, and an enabled administrator among them. */
  lemma AccountsAreAccounted(steps: seq<Step>)
    ensures var db := Run(START, steps).db;
            db.users != map[] ==> |db.users| == 1 + |UsedRegisters(db)| && HasEnabledAdmin(db.users)
  {
    InvRun(steps);
  }

  lemma UsersGrow(w: World, s: Step)
    ensures w.db.users.Keys <= Apply(w, s).db.users.Keys
  {
    if Quiet(s) {
      hide Apply;
      QuietStep(w, s);
    } else {
      hide RevokeSessionsOf, RevokeInvitations, EnabledAdmins, HasEmail;
    }
  }

  /** Accounts are never deleted. */
  lemma {:induction false} AccountsStay(w: World, steps: seq<Step>)
    ensures w.db.users.Keys <= Run(w, steps).db.users.Keys
    decreases |steps|
  {
    if steps != [] {
      AccountsStay(w, steps[..|steps| - 1]);
      hide Apply;
      UsersGrow(Run(w, steps[..|steps| - 1]), steps[|steps| - 1]);
    }
  }

  ghost predicate Bootstraps(steps: seq<Step>, i: nat)
    requires i < |steps|
  {
    steps[i].Bootstrap? && Run(START, steps[..i]) != Run(START, steps[..i + 1])
  }

  /** At most one bootstrap of a run has any effect. */
  lemma BootstrapHappensOnce(steps: seq<Step>, i: nat, j: nat)
    requires i < j < |steps| && Bootstraps(steps, i)
    ensures !Bootstraps(steps, j)
  {
    var a, b := steps[..i + 1], steps[i + 1..j];
    assert steps[..j] == a + b;
    assert a[..i] == steps[..i] && steps[..j + 1][..j] == steps[..j];
    RunConcat(START, a, b);
    AccountsStay(Run(START, a), b);
    assert steps[i].id in Run(START, a).db.users;
  }

  // --------------------------------------------------------------- what stays closed

  /** A token that no session will ever authenticate again. */
  predicate Dead(w: World, token: Token) {
    token in w.born && (token in w.db.sessions ==> w.db.sessions[token].revoked.Some?)
  }

  /** The sessions there were are kept as they were, revoked or deleted; a new one has a new token. */
  ghost predicate SessionsAge(before: World, after: World) {
    && (forall t | t in before.born :: t in after.born)
    && forall t | t in after.db.sessions && t in before.born ::
         && t in before.db.sessions
         && (before.db.sessions[t].revoked.Some? ==> after.db.sessions[t].revoked.Some?)
  }

  lemma SessionsAgeStep(w: World, s: Step)
    ensures SessionsAge(w, Apply(w, s))
  {
    hide RevokeInvitations, EnabledAdmins, HasEmail, LosesAdmin, Purgeable;
    if s.OpenSession? {
    } else {
      assert Apply(w, s).born == w.born;
    }
  }

  lemma {:induction false} DeadForever(w: World, steps: seq<Step>, token: Token)
    requires Dead(w, token)
    ensures Dead(Run(w, steps), token)
    decreases |steps|
  {
    if steps != [] {
      DeadForever(w, steps[..|steps| - 1], token);
      hide Apply;
      SessionsAgeStep(Run(w, steps[..|steps| - 1]), steps[|steps| - 1]);
    }
  }

  /** The step changed this user's password, role or standing. */
  ghost predicate CutsOff(w: World, s: Step, user: Id) {
    match s
    case ChangePassword(id, oldHash, newHash, now) =>
      id == user && ChangePasswordTx(w.db, id, oldHash, newHash, now).1.Ok?
    case UpdateUser(actor, id, patch, now) =>
      && id == user && UpdateUserTx(w.db, actor, id, patch, now).1.Ok?
      && (Patched(w.db.users[id], patch).role != w.db.users[id].role
          || Patched(w.db.users[id], patch).disabled != w.db.users[id].disabled)
    case ConsumeInvitation(_, token, Reset, hash, name, newId, now) =>
      var r := ConsumeInvitationTx(w.db, token, Reset, hash, name, newId, now).1;
      r.Ok? && r.value.user == user
    case _ => false
  }

  /** After a password change, a reset, a role change, a disabling or an enabling, no session
      opened before ever authenticates again, whatever happens later. */
  lemma OldSessionsStayOut(before: seq<Step>, s: Step, after: seq<Step>, token: Token, now: Time)
    requires var w := Run(START, before);
             && token in w.db.sessions && CutsOff(w, s, w.db.sessions[token].user)
    ensures Authenticated(Run(Run(START, before + [s]), after).db, token, now).None?
  {
    var w := Run(START, before);
    InvRun(before);
    assert (before + [s])[..|before|] == before;
    assert Run(START, before + [s]) == Apply(w, s);
    CutKills(w, s, token);
    hide Apply, CutsOff;
    DeadForever(Apply(w, s), after, token);
  }

  lemma CutKills(w: World, s: Step, token: Token)
    requires Fresh(w) && token in w.db.sessions && CutsOff(w, s, w.db.sessions[token].user)
    ensures Dead(Apply(w, s), token)
  {
    hide RevokeInvitations, EnabledAdmins, HasEmail;
  }

  lemma SpentStep(w: World, s: Step, token: Token)
    requires token in w.db.invitations && !Live(w.db.invitations[token])
    ensures token in Apply(w, s).db.invitations && !Live(Apply(w, s).db.invitations[token])
  {
    if Quiet(s) {
      hide Apply;
      QuietStep(w, s);
    } else if s.IssueInvitation? {
      hide RevokeInvitations, HasEmail, EnabledAdmins;
      RevokesOnly(w.db.invitations, s.email, Some(s.kind), s.now);
    } else {
      hide RevokeSessionsOf, HasEmail;
    }
  }

  /** An invitation that was used or revoked stays so, and is never consumed again. */
  lemma {:induction false} SpentForever(w: World, steps: seq<Step>, token: Token, kind: Kind, now: Time)
    requires token in w.db.invitations && !Live(w.db.invitations[token])
    ensures !Consumable(Run(w, steps).db, token, kind, now)
    ensures token in Run(w, steps).db.invitations && !Live(Run(w, steps).db.invitations[token])
    decreases |steps|
  {
    if steps != [] {
      SpentForever(w, steps[..|steps| - 1], token, kind, now);
      hide Apply;
      SpentStep(Run(w, steps[..|steps| - 1]), steps[|steps| - 1], token);
    }
  }

  // --------------------------------------------------- between credential and session

  /** The ticket under which a step hands out a credential. */
  function TicketOf(s: Step): Option<nat> {
    match s
    case Bootstrap(ticket, _, _, _, _) => Some(ticket)
    case ReadCredential(ticket, _) => Some(ticket)
    case ConsumeInvitation(ticket, _, Register, _, _, _, _) => Some(ticket)
    case _ => None
  }

  /** The credential that a step hands out. */
  ghost function HandsOut(w: World, s: Step): Result<Credential> {
    match s
    case Bootstrap(_, id, email, name, hash) => BootstrapTx(w.db, id, email, name, hash).1
    case ReadCredential(_, email) => Read(w.db, email)
    case ConsumeInvitation(_, token, Register, hash, name, newId, now) =>
      ConsumeInvitationTx(w.db, token, Register, hash, name, newId, now).1
    case _ => Err(Invalid)
  }

  /** The hash of a new password that a step brings. */
  function NewHash(s: Step): Option<Hash> {
    match s
    case Bootstrap(_, _, _, _, hash) => Some(hash)
    case ChangePassword(_, _, newHash, _) => Some(newHash)
    case ConsumeInvitation(_, _, _, hash, _, _, _) => Some(hash)
    case _ => None
  }

  /** Hashes are salted, so that no two steps bring the same one. */
  ghost predicate HashesDiffer(steps: seq<Step>) {
    forall i, j | 0 <= i < j < |steps| && NewHash(steps[i]).Some? :: NewHash(steps[i]) != NewHash(steps[j])
  }

  /** The step set this user's password anew. */
  ghost predicate SetsPassword(w: World, s: Step, user: Id) {
    match s
    case ChangePassword(id, oldHash, newHash, now) =>
      id == user && ChangePasswordTx(w.db, id, oldHash, newHash, now).1.Ok?
    case ConsumeInvitation(_, token, Reset, hash, name, newId, now) =>
      var r := ConsumeInvitationTx(w.db, token, Reset, hash, name, newId, now).1;
      r.Ok? && r.value.user == user
    case _ => false
  }

  ghost predicate NeverSets(w: World, steps: seq<Step>, user: Id) {
    forall k | 0 <= k < |steps| :: !SetsPassword(Run(w, steps[..k]), steps[k], user)
  }

  /** Some step brought this hash. */
  ghost predicate Brought(steps: seq<Step>, hash: Hash) {
    exists j | 0 <= j < |steps| :: NewHash(steps[j]) == Some(hash)
  }

  lemma BroughtByLast(steps: seq<Step>, hash: Hash)
    requires steps != []
    requires Brought(steps[..|steps| - 1], hash) || NewHash(steps[|steps| - 1]) == Some(hash)
    ensures Brought(steps, hash)
  {
    hide NewHash;
    if Brought(steps[..|steps| - 1], hash) {
      var j :| 0 <= j < |steps| - 1 && NewHash(steps[..|steps| - 1][j]) == Some(hash);
      assert NewHash(steps[j]) == Some(hash);
    }
  }

  lemma NeverSetsByLast(w: World, steps: seq<Step>, user: Id)
    requires steps != []
    ensures var front := steps[..|steps| - 1];
            NeverSets(w, steps, user)
            <==> NeverSets(w, front, user) && !SetsPassword(Run(w, front), steps[|steps| - 1], user)
  {
    hide SetsPassword, Run;
    var front := steps[..|steps| - 1];
    assert forall k | 0 <= k < |front| :: front[k] == steps[k] && front[..k] == steps[..k];
  }

  lemma HashStep(w: World, s: Step, user: Id)
    requires user in w.db.users
    ensures user in Apply(w, s).db.users
    ensures SetsPassword(w, s, user) ==> NewHash(s) == Some(Apply(w, s).db.users[user].hash)
    ensures !SetsPassword(w, s, user) ==> Apply(w, s).db.users[user].hash == w.db.users[user].hash
  {
    hide RevokeSessionsOf, RevokeInvitations, EnabledAdmins, HasEmail, LosesAdmin, Sweeps;
  }

  /** A user whose password is not set anew keeps the hash; otherwise some step brought it. */
  lemma {:induction false} HashAfter(w: World, steps: seq<Step>, user: Id)
    requires user in w.db.users
    ensures user in Run(w, steps).db.users
    ensures NeverSets(w, steps, user) ==> Run(w, steps).db.users[user].hash == w.db.users[user].hash
    ensures !NeverSets(w, steps, user) ==> Brought(steps, Run(w, steps).db.users[user].hash)
    decreases |steps|
  {
    if steps != [] {
      hide Apply, SetsPassword, NewHash, Brought, NeverSets;
      var front, last := steps[..|steps| - 1], steps[|steps| - 1];
      HashAfter(w, front, user);
      HashStep(Run(w, front), last, user);
      NeverSetsByLast(w, steps, user);
      if !NeverSets(w, steps, user) {
        BroughtByLast(steps, Run(w, steps).db.users[user].hash);
      }
    }
  }

  lemma NewUserStep(w: World, s: Step, user: Id)
    requires user in Apply(w, s).db.users && user !in w.db.users
    ensures NewHash(s) == Some(Apply(w, s).db.users[user].hash)
  {
    hide RevokeSessionsOf, RevokeInvitations, EnabledAdmins, HasEmail, LosesAdmin, Sweeps;
  }

  /** Every stored hash was brought by a step. */
  lemma {:induction false} HashIsBrought(steps: seq<Step>, user: Id)
    requires user in Run(START, steps).db.users
    ensures Brought(steps, Run(START, steps).db.users[user].hash)
    decreases |steps|
  {
    hide Apply, NewHash, SetsPassword, Brought;
    if steps != [] {
      var front, last := steps[..|steps| - 1], steps[|steps| - 1];
      var w := Run(START, front);
      if user !in w.db.users {
        NewUserStep(w, last, user);
      } else {
        HashStep(w, last, user);
        HashIsBrought(front, user);
      }
      BroughtByLast(steps, Run(START, steps).db.users[user].hash);
    }
  }

  /** A credential that is handed out is the current one. */
  lemma HandedOut(w: World, s: Step)
    requires HandsOut(w, s).Ok?
    ensures var c, after := HandsOut(w, s).value, Apply(w, s);
            && TicketOf(s).Some? && TicketOf(s).value in after.tickets && after.tickets[TicketOf(s).value] == c
            && c.user in after.db.users && after.db.users[c.user].hash == c.hash
  {
    hide RevokeSessionsOf, RevokeInvitations;
  }

  lemma TicketStep(w: World, s: Step, ticket: nat)
    requires ticket in w.tickets && TicketOf(s) != Some(ticket)
    ensures ticket in Apply(w, s).tickets && Apply(w, s).tickets[ticket] == w.tickets[ticket]
  {
    hide BootstrapTx, Read, CreateSessionTx, ConsumeInvitationTx, ChangePasswordTx, UpdateUserTx, IssueInvitationTx;
  }

  lemma {:induction false} TicketStays(w: World, steps: seq<Step>, ticket: nat)
    requires ticket in w.tickets && forall k | 0 <= k < |steps| :: TicketOf(steps[k]) != Some(ticket)
    ensures ticket in Run(w, steps).tickets && Run(w, steps).tickets[ticket] == w.tickets[ticket]
    decreases |steps|
  {
    hide Apply, TicketOf;
    if steps != [] {
      TicketStays(w, steps[..|steps| - 1], ticket);
      TicketStep(Run(w, steps[..|steps| - 1]), steps[|steps| - 1], ticket);
    }
  }

  /** Turning a ticket into a session under a new token succeeds exactly when its user is
      enabled and the hash is still the ticket's. */
  lemma OpeningStep(w: World, ticket: nat, token: Token, expires: Time, now: Time, purge: set<Token>)
    requires Fresh(w) && ticket in w.tickets && w.tickets[ticket].user in w.db.users
    requires token !in w.born && expires > now
    requires Sweeps(WithSession(w.db, token, w.tickets[ticket].user, expires), purge, now)
    ensures var c, after := w.tickets[ticket], Apply(w, OpenSession(ticket, token, expires, now, purge));
            if !w.db.users[c.user].disabled && w.db.users[c.user].hash == c.hash
            then forall at :: Authenticated(after.db, token, at) == if at < expires then Some(c.user) else None
            else after == w && Authenticated(after.db, token, now) == None
  {
    var rows := WithSession(w.db, token, w.tickets[ticket].user, expires);
    assert token !in w.db.sessions;
    assert !Purgeable(rows[token], now);
  }

  /** The hash after `mid` is the one at the hand-out exactly when no step of `mid` set the
      password anew. */
  lemma HashTells(past: seq<Step>, mid: seq<Step>, user: Id)
    requires HashesDiffer(past + mid) && user in Run(START, past).db.users
    ensures var w, v := Run(START, past), Run(Run(START, past), mid);
            user in v.db.users && (v.db.users[user].hash == w.db.users[user].hash <==> NeverSets(w, mid, user))
  {
    hide Run, NewHash, NeverSets;
    var w := Run(START, past);
    HashAfter(w, mid, user);
    if !NeverSets(w, mid, user) {
      HashIsBrought(past, user);
      var i :| 0 <= i < |past| && NewHash(past[i]) == Some(w.db.users[user].hash);
      var j :| 0 <= j < |mid| && NewHash(mid[j]) == Some(Run(w, mid).db.users[user].hash);
      var all := past + mid;
      assert all[i] == past[i] && all[|past| + j] == mid[j];
    }
  }

  /** The two halves of a login, a registration or the bootstrap, with any steps in between:
      the session opens and authenticates exactly when the account is enabled at the end and
      no step in between set its password anew. Otherwise nothing changes. */
  lemma SessionOpensExactly(
    before: seq<Step>, s: Step, mid: seq<Step>, token: Token, expires: Time, now: Time, purge: set<Token>)
    requires HandsOut(Run(START, before), s).Ok?
    requires forall k | 0 <= k < |mid| :: TicketOf(mid[k]) != TicketOf(s)
    requires HashesDiffer(before + [s] + mid)
    requires var v := Run(Run(START, before + [s]), mid);
             && token !in v.born && expires > now
             && Sweeps(WithSession(v.db, token, HandsOut(Run(START, before), s).value.user, expires), purge, now)
    ensures TicketOf(s).Some?
    ensures var c := HandsOut(Run(START, before), s).value;
            var w := Run(START, before + [s]);
            var v := Run(w, mid);
            var after := Apply(v, OpenSession(TicketOf(s).value, token, expires, now, purge));
            && c.user in v.db.users
            && (Authenticated(after.db, token, now) == Some(c.user)
                <==> !v.db.users[c.user].disabled && NeverSets(w, mid, c.user))
            && (Authenticated(after.db, token, now) != Some(c.user) ==> after == v)
            && (Authenticated(after.db, token, now) == Some(c.user) ==>
                  forall at :: Authenticated(after.db, token, at) == if at < expires then Some(c.user) else None)
  {
    hide Apply, HandsOut, TicketOf, HashesDiffer, Sweeps, NeverSets, Authenticated, Fresh;
    var past := before + [s];
    assert past[..|before|] == before && past[|before|] == s;
    var c, w := HandsOut(Run(START, before), s).value, Run(START, past);
    assert w == Apply(Run(START, before), s);
    HandedOut(Run(START, before), s);
    TicketStays(w, mid, TicketOf(s).value);
    HashTells(past, mid, c.user);
    InvRun(past + mid);
    RunConcat(START, past, mid);
    OpeningStep(Run(w, mid), TicketOf(s).value, token, expires, now, purge);
  }

  // ------------------------------------------------------- when exactly sessions end

  /** What takes a session away: its logout, or a step that changed its user's password, role
      or standing. */
  ghost predicate Ends(w: World, s: Step, token: Token)
    requires token in w.db.sessions
  {
    (s.Logout? && s.token == token) || CutsOff(w, s, w.db.sessions[token].user)
  }

  /** The session is on record, unrevoked, and as it was. */
  predicate Stands(w: World, token: Token, row: Session) {
    token in w.db.sessions && w.db.sessions[token] == row && row.revoked.None?
  }

  /** The clean-up of a login deletes no session that expires after `now`. */
  predicate Recent(s: Step, now: Time) { s.OpenSession? ==> s.now - WEEK <= now }

  lemma LogoutEnds(w: World, token: Token, at: Time)
    requires token in w.db.sessions
    ensures var after := Apply(w, Logout(token, at));
            && token in after.db.sessions && after.db.sessions[token].revoked.Some?
            && (token in w.born ==> Dead(after, token))
            && after.db.sessions == w.db.sessions[token := after.db.sessions[token]]
            && after == w.(db := w.db.(sessions := after.db.sessions))
  {
  }

  lemma OpeningKeeps(w: World, s: Step, token: Token, row: Session, now: Time)
    requires s.OpenSession? && Fresh(w) && Stands(w, token, row) && row.expires > now && Recent(s, now)
    ensures Stands(Apply(w, s), token, row)
  {
    hide CutsOff;
    assert token in w.born;
    if Apply(w, s) != w {
      var rows := WithSession(w.db, s.token, w.tickets[s.ticket].user, s.expires);
      assert token in rows && rows[token] == row && !Purgeable(row, s.now);
    }
  }

  lemma AccountStepKeeps(w: World, s: Step, token: Token, row: Session)
    requires s.ChangePassword? || s.UpdateUser? || s.ConsumeInvitation?
    requires Constraints(w.db) && Fresh(w) && Stands(w, token, row)
    ensures token in Apply(w, s).db.sessions
    ensures Stands(Apply(w, s), token, row) <==> !CutsOff(w, s, row.user)
  {
    hide RevokeInvitations, EnabledAdmins, LosesAdmin, Consumable;
    assert row.user in w.db.users;
  }

  lemma StandsStep(w: World, s: Step, token: Token, row: Session, now: Time)
    requires Constraints(w.db) && Fresh(w) && Stands(w, token, row) && row.expires > now && Recent(s, now)
    ensures Stands(Apply(w, s), token, row) <==> !Ends(w, s, token)
    ensures Ends(w, s, token) ==> Dead(Apply(w, s), token)
  {
    assert token in w.born;
    if s.Logout? {
      if s.token == token {
        LogoutEnds(w, token, s.now);
      }
    } else if s.OpenSession? {
      hide Apply, Fresh;
      OpeningKeeps(w, s, token, row, now);
    } else if s.ChangePassword? || s.UpdateUser? || s.ConsumeInvitation? {
      AccountStepKeeps(w, s, token, row);
      hide Apply, CutsOff, Constraints;
      if CutsOff(w, s, row.user) {
        CutKills(w, s, token);
      }
    } else {
      hide RevokeInvitations, EnabledAdmins, HasEmail;
    }
  }

  /** No step of the run ends the session. */
  ghost predicate NeverEnds(w: World, steps: seq<Step>, token: Token) {
    forall k | 0 <= k < |steps| ::
      token in Run(w, steps[..k]).db.sessions ==> !Ends(Run(w, steps[..k]), steps[k], token)
  }

  lemma NeverEndsByLast(w: World, steps: seq<Step>, token: Token)
    requires steps != []
    ensures var front := steps[..|steps| - 1];
            NeverEnds(w, steps, token)
            <==> && NeverEnds(w, front, token)
                 && (token in Run(w, front).db.sessions ==> !Ends(Run(w, front), steps[|steps| - 1], token))
  {
    hide Ends, Run;
    var front := steps[..|steps| - 1];
    assert forall k | 0 <= k < |front| :: front[k] == steps[k] && front[..k] == steps[..k];
  }

  lemma {:induction false} StandsRun(w: World, steps: seq<Step>, token: Token, row: Session, now: Time)
    requires Inv(w) && Stands(w, token, row) && row.expires > now
    requires forall k | 0 <= k < |steps| :: Recent(steps[k], now)
    ensures Inv(Run(w, steps))
    ensures NeverEnds(w, steps, token) ==> Stands(Run(w, steps), token, row)
    ensures !NeverEnds(w, steps, token) ==> Dead(Run(w, steps), token)
    decreases |steps|
  {
    if steps != [] {
      hide Apply, Ends, Constraints, OneLive, LiveFits, Counted, Governed, Fresh, Stands, Dead, NeverEnds, Recent;
      var front, last := steps[..|steps| - 1], steps[|steps| - 1];
      var v := Run(w, front);
      StandsRun(w, front, token, row, now);
      NeverEndsByLast(w, steps, token);
      InvStep(v, last);
      if NeverEnds(w, front, token) {
        StandsIsThere(v, token, row);
        StandsStep(v, last, token, row, now);
      } else {
        DeadForever(v, [last], token);
        assert [last][..0] == [] && Run(v, []) == v;
        assert Run(v, [last]) == Apply(Run(v, [last][..0]), last);
      }
    }
  }

  lemma StandsIsThere(w: World, token: Token, row: Session)
    requires Stands(w, token, row)
    ensures token in w.db.sessions
  {
  }

  /** A session authenticates until the first step that ends it, and never again: its own logout,
      or a change of its user's password, role or standing. Nothing else takes it away, and
      nothing brings it back. */
  lemma SessionEndsExactly(before: seq<Step>, steps: seq<Step>, token: Token, now: Time)
    requires Authenticated(Run(START, before).db, token, now).Some?
    requires forall k | 0 <= k < |steps| :: Recent(steps[k], now)
    ensures var w := Run(START, before);
            Authenticated(Run(w, steps).db, token, now)
            == if NeverEnds(w, steps, token) then Authenticated(w.db, token, now) else None
  {
    hide Run, NeverEnds;
    var w := Run(START, before);
    InvRun(before);
    StandsRun(w, steps, token, w.db.sessions[token], now);
  }

  /** After its logout a session token never authenticates again, whatever follows. */
  lemma LogoutIsFinal(before: seq<Step>, token: Token, at: Time, after: seq<Step>, now: Time)
    requires token in Run(START, before).db.sessions
    ensures Authenticated(Run(Run(START, before + [Logout(token, at)]), after).db, token, now) == None
  {
    var s, w := Logout(token, at), Run(START, before);
    InvRun(before);
    assert (before + [s])[..|before|] == before;
    assert Run(START, before + [s]) == Apply(w, s);
    LogoutEnds(w, token, at);
    hide Apply;
    DeadForever(Apply(w, s), after, token);
  }

  /** A logout touches no other session: whoever else authenticates, and whoever does not,
      goes on as before. */
  lemma LogoutIsLocal(w: World, token: Token, at: Time, other: Token, now: Time)
    requires other != token
    ensures Authenticated(Apply(w, Logout(token, at)).db, other, now) == Authenticated(w.db, other, now)
  {
  }

  // ---------------------------------------------------- when exactly invitations close

  /** What closes an invitation: its use, its withdrawal, a newer one of its kind for the same
      address, a password change of the account it would reset, or the disabling of the account
      with its address. */
  ghost predicate Closes(w: World, s: Step, t: Token)
    requires t in w.db.invitations
  {
    var i := w.db.invitations[t];
    match s
    case ConsumeInvitation(_, token, kind, hash, name, newId, now) =>
      token == t && ConsumeInvitationTx(w.db, token, kind, hash, name, newId, now).1.Ok?
    case RevokeInvitation(actor, invitation, now) =>
      invitation == i.id && RevokeInvitationTx(w.db, actor, invitation, now).1.Ok?
    case IssueInvitation(actor, invitation, email, kind, token, expires, now) =>
      && email == i.email && kind == i.kind
      && IssueInvitationTx(w.db, actor, invitation, email, kind, token, expires, now).1.Ok?
    case ChangePassword(id, oldHash, newHash, now) =>
      && i.kind == Reset && ChangePasswordTx(w.db, id, oldHash, newHash, now).1.Ok?
      && w.db.users[id].email == i.email
    case UpdateUser(actor, id, patch, now) =>
      && UpdateUserTx(w.db, actor, id, patch, now).1.Ok?
      && UpdateUserTx(w.db, actor, id, patch, now).1.value.disabled && w.db.users[id].email == i.email
    case _ => false
  }

  /** Which live invitations a revocation closes. */
  lemma RevokesWhich(invitations: map<Token, Invitation>, email: string, only: Option<Kind>, now: Time, t: Token)
    requires t in invitations && Live(invitations[t])
    ensures var after := RevokeInvitations(invitations, email, only, now);
            && t in after
            && (Live(after[t]) <==>
                  !(invitations[t].email == email && (only.None? || invitations[t].kind == only.value)))
            && (Live(after[t]) ==> after[t] == invitations[t])
  {
  }

  /** The step leaves the invitation as it is, or closes it. */
  ghost predicate ClosesOrKeeps(w: World, s: Step, t: Token)
    requires t in w.db.invitations
  {
    var after := Apply(w, s).db.invitations;
    && t in after && (Live(after[t]) <==> !Closes(w, s, t)) && (Live(after[t]) ==> after[t] == w.db.invitations[t])
  }

  lemma PasswordCloses(w: World, s: Step, t: Token)
    requires s.ChangePassword? && IsLive(w.db, t)
    ensures ClosesOrKeeps(w, s, t)
  {
    hide RevokeSessionsOf, RevokeInvitations;
    if s.id in w.db.users {
      RevokesWhich(w.db.invitations, w.db.users[s.id].email, Some(Reset), s.now, t);
    }
  }

  lemma UpdateCloses(w: World, s: Step, t: Token)
    requires s.UpdateUser? && IsLive(w.db, t)
    ensures ClosesOrKeeps(w, s, t)
  {
    hide RevokeSessionsOf, RevokeInvitations, EnabledAdmins, IsEnabledAdmin, LosesAdmin;
    if s.id in w.db.users {
      RevokesWhich(w.db.invitations, w.db.users[s.id].email, None, s.now, t);
    }
  }

  lemma IssueCloses(w: World, s: Step, t: Token)
    requires s.IssueInvitation? && IsLive(w.db, t)
    ensures ClosesOrKeeps(w, s, t)
  {
    hide RevokeInvitations, EnabledAdmins, IsEnabledAdmin, HasEmail;
    RevokesWhich(w.db.invitations, s.email, Some(s.kind), s.now, t);
  }

  lemma ConsumeCloses(w: World, s: Step, t: Token)
    requires s.ConsumeInvitation? && IsLive(w.db, t)
    ensures ClosesOrKeeps(w, s, t)
  {
    hide RevokeSessionsOf, HasEmail;
  }

  lemma RevokeCloses(w: World, s: Step, t: Token)
    requires s.RevokeInvitation? && IsLive(w.db, t) && Constraints(w.db)
    ensures ClosesOrKeeps(w, s, t)
  {
    hide EnabledAdmins, IsEnabledAdmin;
  }

  lemma ClosesStep(w: World, s: Step, t: Token)
    requires IsLive(w.db, t) && Constraints(w.db)
    ensures ClosesOrKeeps(w, s, t)
  {
    if s.ChangePassword? {
      hide *;
      PasswordCloses(w, s, t);
    } else if s.UpdateUser? {
      hide *;
      UpdateCloses(w, s, t);
    } else if s.IssueInvitation? {
      hide *;
      IssueCloses(w, s, t);
    } else if s.ConsumeInvitation? {
      hide *;
      ConsumeCloses(w, s, t);
    } else if s.RevokeInvitation? {
      hide *;
      RevokeCloses(w, s, t);
    } else {
      hide Sweeps, HasEmail, EnabledAdmins, RevokeSessionsOf;
    }
  }

  /** No step of the run closes the invitation. */
  ghost predicate NeverCloses(w: World, steps: seq<Step>, t: Token) {
    forall k | 0 <= k < |steps| ::
      t in Run(w, steps[..k]).db.invitations ==> !Closes(Run(w, steps[..k]), steps[k], t)
  }

  lemma NeverClosesByLast(w: World, steps: seq<Step>, t: Token)
    requires steps != []
    ensures var front := steps[..|steps| - 1];
            NeverCloses(w, steps, t)
            <==> && NeverCloses(w, front, t)
                 && (t in Run(w, front).db.invitations ==> !Closes(Run(w, front), steps[|steps| - 1], t))
  {
    hide Closes, Run;
    var front := steps[..|steps| - 1];
    assert forall k | 0 <= k < |front| :: front[k] == steps[k] && front[..k] == steps[..k];
  }

  lemma {:induction false} LiveRun(w: World, steps: seq<Step>, t: Token)
    requires Inv(w) && IsLive(w.db, t)
    ensures Inv(Run(w, steps)) && t in Run(w, steps).db.invitations
    ensures NeverCloses(w, steps, t) ==>
              IsLive(Run(w, steps).db, t) && Run(w, steps).db.invitations[t] == w.db.invitations[t]
    ensures !NeverCloses(w, steps, t) ==> !IsLive(Run(w, steps).db, t)
    decreases |steps|
  {
    if steps != [] {
      hide Apply, Closes, Constraints, OneLive, LiveFits, Counted, Governed, Fresh, NeverCloses;
      var front, last := steps[..|steps| - 1], steps[|steps| - 1];
      var v := Run(w, front);
      LiveRun(w, front, t);
      NeverClosesByLast(w, steps, t);
      InvStep(v, last);
      if NeverCloses(w, front, t) {
        ClosesStep(v, last, t);
      } else {
        SpentStep(v, last, t);
      }
    }
  }

  /** A live invitation can be consumed until it expires or a step closes it, and never again:
      exactly its use, its withdrawal, a newer one, a password change or a disabling. */
  lemma InvitationClosesExactly(before: seq<Step>, steps: seq<Step>, t: Token, kind: Kind, now: Time)
    requires IsLive(Run(START, before).db, t)
    ensures var w := Run(START, before);
            Consumable(Run(w, steps).db, t, kind, now)
            <==> NeverCloses(w, steps, t) && w.db.invitations[t].kind == kind && w.db.invitations[t].expires > now
  {
    hide Run, NeverCloses;
    InvRun(before);
    LiveRun(Run(START, before), steps, t);
  }

  /** What a step closes is never consumed again. */
  lemma ClosedForever(w: World, s: Step, t: Token, after: seq<Step>, kind: Kind, now: Time)
    requires Constraints(w.db) && t in w.db.invitations && Closes(w, s, t)
    ensures !Consumable(Run(Apply(w, s), after).db, t, kind, now)
  {
    hide Closes, Apply, Run, Constraints;
    if IsLive(w.db, t) {
      ClosesStep(w, s, t);
    } else {
      SpentStep(w, s, t);
    }
    SpentForever(Apply(w, s), after, t, kind, now);
  }

  /** An invitation that an administrator withdrew is never consumable again. */
  lemma WithdrawnForever(before: seq<Step>, s: Step, after: seq<Step>, t: Token, kind: Kind, now: Time)
    requires var w := Run(START, before);
             && s.RevokeInvitation? && RevokeInvitationTx(w.db, s.actor, s.invitation, s.now).1.Ok?
             && t in w.db.invitations && w.db.invitations[t].id == s.invitation
    ensures !Consumable(Run(Apply(Run(START, before), s), after).db, t, kind, now)
  {
    InvRun(before);
    assert Closes(Run(START, before), s, t);
    hide *;
    ClosedForever(Run(START, before), s, t, after, kind, now);
  }

  /** After a password change no reset invitation issued before for that address is consumable. */
  lemma ResetsDieWithPassword(before: seq<Step>, s: Step, after: seq<Step>, t: Token, kind: Kind, now: Time)
    requires var w := Run(START, before);
             && s.ChangePassword? && ChangePasswordTx(w.db, s.id, s.oldHash, s.newHash, s.now).1.Ok?
             && t in w.db.invitations && w.db.invitations[t].kind == Reset
             && w.db.invitations[t].email == w.db.users[s.id].email
    ensures !Consumable(Run(Apply(Run(START, before), s), after).db, t, kind, now)
  {
    InvRun(before);
    assert Closes(Run(START, before), s, t);
    hide *;
    ClosedForever(Run(START, before), s, t, after, kind, now);
  }

  /** A new invitation is live and carries what was asked for. */
  lemma IssuedIsLive(w: World, s: Step)
    requires s.IssueInvitation?
    requires IssueInvitationTx(w.db, s.actor, s.invitation, s.email, s.kind, s.token, s.expires, s.now).1.Ok?
    ensures var db := Apply(w, s).db;
            && IsLive(db, s.token) && db.invitations[s.token].id == s.invitation
            && db.invitations[s.token].email == s.email && db.invitations[s.token].kind == s.kind
            && db.invitations[s.token].expires == s.expires && db.invitations[s.token].createdBy == s.actor
            && db.users == w.db.users && db.sessions == w.db.sessions
  {
    hide RevokeInvitations, HasEmail, EnabledAdmins;
  }

  /** The step is an accepted update of this account. */
  ghost predicate Updates(w: World, s: Step, u: Id) {
    s.UpdateUser? && s.id == u && UpdateUserTx(w.db, s.actor, s.id, s.patch, s.now).1.Ok?
  }

  /** What a step does to an account that exists: the address and the name stay, the role and
      the standing become what an accepted update asks for, the hash changes only with the
      password. */
  lemma AccountStep(w: World, s: Step, u: Id)
    requires u in w.db.users
    ensures var after := Apply(w, s).db.users;
            && u in after && after[u].email == w.db.users[u].email && after[u].name == w.db.users[u].name
            && after[u].role
               == (if Updates(w, s, u) && s.patch.role.Some? then s.patch.role.value else w.db.users[u].role)
            && after[u].disabled
               == (if Updates(w, s, u) && s.patch.disabled.Some? then s.patch.disabled.value
                   else w.db.users[u].disabled)
            && (after[u].hash != w.db.users[u].hash ==> SetsPassword(w, s, u))
  {
    hide RevokeSessionsOf, RevokeInvitations, EnabledAdmins, HasEmail, LosesAdmin, Sweeps, IsEnabledAdmin;
  }

  /** A new account is enabled; it is an administrator only when it is the first. */
  lemma NewAccountStep(w: World, s: Step, u: Id)
    requires u in Apply(w, s).db.users && u !in w.db.users
    ensures var user := Apply(w, s).db.users[u];
            && (if w.db.users == map[] && s.Bootstrap? then user.role == Admin && user.email == s.email
                else s.ConsumeInvitation? && s.kind == Register && user.role == Member
                     && s.token in w.db.invitations && user.email == w.db.invitations[s.token].email)
            && !user.disabled && NewHash(s) == Some(user.hash)
            && (s.Bootstrap? || s.ConsumeInvitation?) && user.name == s.name
  {
    hide RevokeSessionsOf, RevokeInvitations, EnabledAdmins, HasEmail, LosesAdmin, Sweeps, IsEnabledAdmin;
  }

  /** Whoever updates accounts or handles invitations is an enabled administrator; nobody else
      changes anything that way. */
  lemma ActorsAreAdmins(w: World, s: Step)
    requires s.UpdateUser? || s.IssueInvitation? || s.RevokeInvitation?
    requires Apply(w, s) != w
    ensures s.actor in w.db.users && w.db.users[s.actor].role == Admin && !w.db.users[s.actor].disabled
  {
    hide RevokeSessionsOf, RevokeInvitations, EnabledAdmins, HasEmail, LosesAdmin;
  }

  /** Only a live, unexpired invitation of the asked kind is ever consumed, and it is used up. */
  lemma ConsumedWasLive(w: World, s: Step)
    requires s.ConsumeInvitation? && Apply(w, s) != w
    ensures s.token in w.db.invitations && s.token in Apply(w, s).db.invitations
    ensures var i := w.db.invitations[s.token];
            && i.kind == s.kind && i.used == None && i.revoked == None && i.expires > s.now
            && Apply(w, s).db.invitations == w.db.invitations[s.token := i.(used := Some(s.now))]
  {
    hide RevokeSessionsOf, HasEmail;
  }
}

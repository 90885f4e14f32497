/** What the account transactions leave of accounts, tokens and sessions: which account a
    verification creates, who becomes an administrator, and how long tokens and sessions last. */
module Accounts {
  import opened Basics
  import opened AuthStore
  import opened Throttling
  import opened Credentials

  /** The account with this email, as it is looked up. */
  function AccountOf(d: Data, email: Email): Option<Account> { AccountAt(d, ByEmail(d.credentials, email)) }

  /** A token of the purpose that has not expired by then. */
  predicate LiveToken(d: Data, now: Time, token: Hash, purpose: Purpose)
  {
    token in d.actions && d.actions[token].purpose == purpose && now < d.actions[token].expires
  }

  /** Identifier, handle and email of a new account are not in use. */
  predicate Free(d: Data, id: UserId, handle: Handle, email: Email)
  {
    && (forall u | u in d.users :: u != id && d.users[u].handle != handle)
    && (forall i | 0 <= i < |d.credentials| :: d.credentials[i].user != id && d.credentials[i].email != email)
  }

  /** The accounts are as before but for one that is added. */
  ghost predicate AddsAccount(d: Data, d': Data, a: Account)
  {
    && AccountOf(d', a.email) == Some(a)
    && (forall email | email != a.email :: AccountOf(d', email) == AccountOf(d, email))
  }

  lemma InsertIff(d: Data, id: UserId, email: Email, password: Hash, handle: Handle, role: Role)
    ensures InsertAccount(d, id, email, password, handle, role).Some? <==> Free(d, id, handle, email)
  {
    var i, j := ByUser(d.credentials, id), ByEmail(d.credentials, email);
  }

  lemma InsertAdds(d: Data, id: UserId, email: Email, password: Hash, handle: Handle, role: Role)
    ensures InsertAccount(d, id, email, password, handle, role).Some? <==> Free(d, id, handle, email)
    ensures Free(d, id, handle, email) ==>
              var d' := InsertAccount(d, id, email, password, handle, role).value;
              && AddsAccount(d, d', Account(id, handle, role, email, password, 1))
              && d'.sessions == d.sessions && d'.actions == d.actions && d'.counters == d.counters
  {
    InsertIff(d, id, email, password, handle, role);
    if Free(d, id, handle, email) {
      forall e { AppendedEmail(d.credentials, Credential(id, email, password, 1), e); }
    }
  }

  lemma AppendedEmail(rows: seq<Credential>, c: Credential, e: Email)
    requires ByEmail(rows, c.email) == |rows|
    ensures ByEmail(rows + [c], e) == if e == c.email then |rows| else if ByEmail(rows, e) < |rows| then ByEmail(rows, e) else |rows + [c]|
  {
    assert (rows + [c])[..|rows|] == rows;
  }

  // ---------------------------------------------------------------- completing an action

  /** With a live verification token an account is created exactly when identifier, handle
      and email are free: an ordinary member with this password, every other account as
      before, and the email's tokens used up. Otherwise nothing changes. */
  lemma VerifyCreatesMember(d: Data, now: Time, token: Hash, password: Hash, handle: Handle, id: UserId)
    requires LiveToken(d, now, token, VerifyEmail)
    ensures var email := d.actions[token].email;
            var (d', r) := CompleteAction(d, now, token, VerifyEmail, password, handle, id);
            if Free(d, id, handle, email) then
              && r == Done(true) && AddsAccount(d, d', Account(id, handle, Member, email, password, 1))
              && d'.sessions == d.sessions && d'.counters == d.counters && TokensLeft(d, d', email)
            else (d', r) == (d, Conflict)
  {
    InsertAdds(d, id, d.actions[token].email, password, handle, Member);
  }

  /** The tokens of one email are gone and the others are as before. */
  predicate TokensLeft(d: Data, d': Data, email: Email)
  {
    && (forall h | h in d'.actions :: h in d.actions && d.actions[h].email != email && d'.actions[h] == d.actions[h])
    && (forall h | h in d.actions && d.actions[h].email != email :: h in d'.actions)
  }

  /** With a live reset token the account it belongs to gets the password and the next
      version, loses its sessions, and nothing else changes but the email's tokens. */
  lemma ResetChangesOneAccount(d: Data, now: Time, token: Hash, password: Hash, handle: Handle, id: UserId)
    requires Inv(d) && LiveToken(d, now, token, ResetPassword)
    ensures var email := d.actions[token].email;
            var (d', r) := CompleteAction(d, now, token, ResetPassword, password, handle, id);
            && r == Done(true) && AccountOf(d, email).Some?
            && var a := AccountOf(d, email).value;
            && AccountOf(d', email) == Some(a.(password := password, version := a.version + 1))
            && (forall other | other != email :: AccountOf(d', other) == AccountOf(d, other))
            && TokensLeft(d, d', email) && d'.counters == d.counters && d'.users == d.users
            && (forall h | h in d'.sessions :: h in d.sessions && d'.sessions[h] == d.sessions[h] && d.sessions[h].user != a.user)
            && (forall h | h in d.sessions && d.sessions[h].user != a.user :: h in d'.sessions)
  {
    var a := d.actions[token];
    assert Owned(a, d.credentials);
    var i := ByEmail(d.credentials, a.email);
    var c := d.credentials[i];
    assert ByUser(d.credentials, c.user) == i by { assert d.credentials[ByUser(d.credentials, c.user)].user == c.user; }
    var rows' := d.credentials[i := c.(password := password, version := c.version + 1)];
    forall email ensures ByEmail(rows', email) == ByEmail(d.credentials, email) { SameEmails(d.credentials, rows', email); }
  }

  lemma {:induction false} SameEmails(a: seq<Credential>, b: seq<Credential>, email: Email)
    requires |a| == |b| && forall i | 0 <= i < |a| :: a[i].email == b[i].email
    ensures ByEmail(a, email) == ByEmail(b, email)
  {
    if a != [] { SameEmails(a[..|a| - 1], b[..|b| - 1], email); }
  }

  /** Without a live token of the purpose nothing changes. */
  lemma NoTokenNoChange(d: Data, now: Time, token: Hash, purpose: Purpose, password: Hash, handle: Handle, id: UserId)
    requires !LiveToken(d, now, token, purpose)
    ensures CompleteAction(d, now, token, purpose, password, handle, id) == (d, Done(false))
  {
  }

  // --------------------------------------------------------------------- issued tokens

  /** A token is issued exactly to verify an email without an account or to reset one with
      an account; it then works for its purpose up to its time, is the email's only one for
      it, and every other token is as before. */
  lemma IssuedTokenWorks(d: Data, now: Time, email: Email, purpose: Purpose, token: Hash, ttl: int, t: Time)
    ensures var (d', r) := IssueAction(d, now, email, purpose, token, ttl);
            && (r == Done(false) <==> purpose.VerifyEmail? == (exists i | 0 <= i < |d.credentials| :: d.credentials[i].email == email))
            && (r.Conflict? <==> r != Done(false) && token in d.actions && !(d.actions[token].email == email && d.actions[token].purpose == purpose))
            && (r != Done(true) ==> d' == d)
            && (r == Done(true) ==>
                  && (LiveToken(d', t, token, purpose) <==> t < now + ttl) && d'.actions[token].email == email
                  && (purpose.ResetPassword? ==> exists i | 0 <= i < |d.credentials| ::
                        d.credentials[i].email == email && d'.actions[token].user == Some(d.credentials[i].user))
                  && (forall h | h in d'.actions && h != token :: h in d.actions && d'.actions[h] == d.actions[h]
                        && !(d.actions[h].email == email && d.actions[h].purpose == purpose))
                  && (forall h | h in d.actions && !(d.actions[h].email == email && d.actions[h].purpose == purpose) :: h in d'.actions)
                  && d' == d.(actions := d'.actions))
  {
    var i := ByEmail(d.credentials, email);
  }

  // -------------------------------------------------------------------------- sessions

  /** A login succeeds exactly while the account still has the password and version that were
      read; its session answers with that account up to its time, and only the replaced
      session ends. */
  lemma LoginAnswers(d: Data, now: Time, account: Account, token: Hash, ttl: int, replaced: Option<Hash>, t: Time)
    requires UniqueCredentials(d.credentials)
    ensures var (d', r) := CreateSession(d, now, account, token, ttl, replaced);
            var current := exists i | 0 <= i < |d.credentials| :: d.credentials[i].user == account.user && account.user in d.users
                             && d.credentials[i].password == account.password && d.credentials[i].version == account.version;
            && (r == Done(None) <==> !current)
            && (r.Conflict? <==> current && token in d.sessions && replaced != Some(token))
            && (r == Done(None) || r.Conflict? ==> d' == d)
            && (r.Done? && r.value.Some? ==>
                  && r.value.value.1 == now + ttl && r.value.value.0.user == account.user
                  && SessionOf(d', t, token) == (if t < now + ttl then r.value else None)
                  && d' == d.(sessions := d'.sessions)
                  && d'.sessions.Keys == (if replaced.Some? then d.sessions.Keys - {replaced.value} else d.sessions.Keys) + {token}
                  && forall h | h in d'.sessions && h != token :: d'.sessions[h] == d.sessions[h])
  {
    var i := ByUser(d.credentials, account.user);
    if i < |d.credentials| { assert d.credentials[i].user == account.user; }
  }

  /** A revoked session answers no more, and every other one as before. */
  lemma RevokedIsOut(d: Data, token: Hash, t: Time, other: Hash)
    ensures SessionOf(Revoke(d, token), t, token) == None
    ensures other != token ==> SessionOf(Revoke(d, token), t, other) == SessionOf(d, t, other)
    ensures Revoke(d, token) == d.(sessions := Revoke(d, token).sessions)
  {
  }

  /** Throttling prunes only what had expired: what is live answers as before. */
  lemma ThrottleKeepsLive(d: Data, now: Time, buckets: seq<(Bucket, int)>, seconds: int, t: Time, token: Hash, purpose: Purpose)
    requires now <= t
    ensures var d' := AuthStore.Throttle(d, now, buckets, seconds).0;
            && SessionOf(d', t, token) == SessionOf(d, t, token)
            && (LiveToken(d', t, token, purpose) <==> LiveToken(d, t, token, purpose))
            && (token in d'.actions ==> d'.actions[token] == d.actions[token] && d'.actions[token].expires > now)
            && (token in d'.sessions ==> d'.sessions[token].expires > now)
            && d'.users == d.users && d'.credentials == d.credentials
  {
  }

  // --------------------------------------------------------------------------- accounts

  /** Provisioning adds the account with the role it was given, exactly when what is stored is
      what was expected, nothing is, and identifier and handle are free. */
  lemma ProvisionAnswers(d: Data, email: Email, password: Hash, handle: Handle, role: Role, expected: Option<Account>, id: UserId)
    requires Joined(d)
    ensures var (d', r) := AuthStore.Provision(d, email, password, handle, role, expected, id);
            && r == (if AccountOf(d, email) != expected then Conflict
                     else if AccountOf(d, email).Some? then Done(false)
                     else if Free(d, id, handle, email) then Done(true) else Conflict)
            && (r != Done(true) ==> d' == d)
            && (r == Done(true) ==> AddsAccount(d, d', Account(id, handle, role, email, password, 1))
                                    && d'.sessions == d.sessions && d'.actions == d.actions && d'.counters == d.counters)
  {
    InsertAdds(d, id, email, password, handle, role);
  }

  /** Setting a role changes the role of that account and nothing else. */
  lemma RoleChangesOnly(d: Data, user: UserId, role: Role, email: Email)
    requires AccountOf(d, email).Some?
    ensures var (d', found) := AuthStore.SetRole(d, user, role);
            var a := AccountOf(d, email).value;
            && (found <==> user in d.users)
            && AccountOf(d', email) == Some(if a.user == user then a.(role := role) else a)
            && d' == d.(users := d'.users) && d'.users.Keys == d.users.Keys
  {
  }

  // ---------------------------------------------------------------------- administrators

  /** Some transaction of the run gave this account the administrator role. */
  predicate Granted(ts: seq<Timed>, user: UserId) { exists i | 0 <= i < |ts| :: Grants(ts[i].event, user) }

  predicate Grants(e: Event, user: UserId)
  {
    (e.Provision? && e.id == user && e.role == Admin) || (e.SetRole? && e.user == user && e.role == Admin)
  }

  predicate IsAdmin(d: Data, user: UserId) { user in d.users && d.users[user].role == Admin }

  lemma StepGrants(d: Data, t: Timed, user: UserId)
    requires IsAdmin(Next(d, t), user) && !IsAdmin(d, user)
    ensures Grants(t.event, user)
  {
    match t.event
    case Complete(_, _, _, _, _) => CompleteAddsMembers(d, t, user);
    case Provision(_, _, _, _, _, _) => ProvisionAdds(d, t);
    case _ =>
  }

  lemma CompleteAddsMembers(d: Data, t: Timed, user: UserId)
    requires t.event.Complete? && user in Next(d, t).users
    ensures (user in d.users && Next(d, t).users[user] == d.users[user]) || Next(d, t).users[user].role == Member
  {
  }

  /** In every run an account is an administrator's only by provisioning or a change of role:
      no visitor gets there by tokens. */
  lemma {:induction false} AdministratorsAreAppointed(ts: seq<Timed>, user: UserId)
    requires IsAdmin(Throttling.After(ts), user)
    ensures Granted(ts, user)
  {
    if ts != [] {
      var front, last := ts[..|ts| - 1], ts[|ts| - 1];
      if IsAdmin(Throttling.After(front), user) {
        AdministratorsAreAppointed(front, user);
        var i :| 0 <= i < |front| && Grants(front[i].event, user);
        assert ts[i] == front[i];
      } else {
        StepGrants(Throttling.After(front), last, user);
        assert ts[|ts| - 1] == last;
      }
    }
  }
}

/** Sessions, one-time tokens and accounts over whole runs of the account store. */
module Credentials {
  import opened Basics
  import opened AuthStore
  import opened Throttling

  // ------------------------------------------------------------------------ invariant

  ghost predicate UniqueCredentials(rows: seq<Credential>)
  {
    forall i, j | 0 <= i < j < |rows| :: rows[i].user != rows[j].user && rows[i].email != rows[j].email
  }

  ghost predicate UniqueHandles(users: map<UserId, User>)
  {
    forall u, v | u in users && v in users && u != v :: users[u].handle != users[v].handle
  }

  ghost predicate Joined(d: Data)
  {
    && (forall i | 0 <= i < |d.credentials| :: d.credentials[i].user in d.users)
    && (forall h | h in d.sessions :: ByUser(d.credentials, d.sessions[h].user) < |d.credentials|)
  }

  ghost predicate OneActionEach(actions: map<Hash, Action>)
  {
    forall g, h | g in actions && h in actions && g != h ::
      actions[g].email != actions[h].email || actions[g].purpose != actions[h].purpose
  }

  /** A reset token belongs to the account with its email. */
  predicate Owned(a: Action, rows: seq<Credential>)
  {
    a.purpose == ResetPassword ==>
      var i := ByEmail(rows, a.email);
      i < |rows| && a.user == Some(rows[i].user)
  }

  ghost predicate Inv(d: Data)
  {
    && UniqueCredentials(d.credentials) && UniqueHandles(d.users) && Joined(d)
    && OneActionEach(d.actions) && AllOwned(d.actions, d.credentials)
  }

  /** Rows are only appended or given a new password and version. */
  predicate SameOwners(rows: seq<Credential>, rows': seq<Credential>)
  {
    |rows| <= |rows'| && forall i | 0 <= i < |rows| ::
      rows'[i].user == rows[i].user && rows'[i].email == rows[i].email && rows'[i].version >= rows[i].version
  }

  lemma SameLookup(rows: seq<Credential>, rows': seq<Credential>, user: UserId, email: Email)
    requires SameOwners(rows, rows') && UniqueCredentials(rows')
    ensures ByUser(rows, user) < |rows| ==> ByUser(rows', user) == ByUser(rows, user)
    ensures ByEmail(rows, email) < |rows| ==> ByEmail(rows', email) == ByEmail(rows, email)
  {
    var i, j := ByUser(rows, user), ByEmail(rows, email);
    if i < |rows| { assert rows'[i].user == user; }
    if j < |rows| { assert rows'[j].email == email; }
  }

  predicate Fewer<K, V(==)>(m: map<K, V>, m': map<K, V>) { forall k | k in m' :: k in m && m'[k] == m[k] }

  ghost predicate AllOwned(actions: map<Hash, Action>, rows: seq<Credential>)
  {
    forall h | h in actions :: Owned(actions[h], rows)
  }

  lemma StillOwned(actions: map<Hash, Action>, actions': map<Hash, Action>, rows: seq<Credential>, rows': seq<Credential>)
    requires AllOwned(actions, rows) && OneActionEach(actions) && Fewer(actions, actions')
    requires SameOwners(rows, rows') && UniqueCredentials(rows')
    ensures AllOwned(actions', rows') && OneActionEach(actions')
  {
    forall h | h in actions' ensures Owned(actions'[h], rows') {
      SameLookup(rows, rows', 0, actions'[h].email);
    }
  }

  lemma StillJoined(d: Data, d': Data)
    requires Joined(d) && SameOwners(d.credentials, d'.credentials) && UniqueCredentials(d'.credentials)
    requires Fewer(d.sessions, d'.sessions) && d.users.Keys <= d'.users.Keys
    requires forall i | |d.credentials| <= i < |d'.credentials| :: d'.credentials[i].user in d'.users
    ensures Joined(d')
  {
    forall h | h in d'.sessions ensures ByUser(d'.credentials, d'.sessions[h].user) < |d'.credentials| {
      SameLookup(d.credentials, d'.credentials, d.sessions[h].user, 0);
    }
  }

  lemma InsertIsUnique(d: Data, id: UserId, email: Email, password: Hash, handle: Handle, role: Role)
    requires Inv(d) && InsertAccount(d, id, email, password, handle, role).Some?
    ensures var d' := InsertAccount(d, id, email, password, handle, role).value;
            Inv(d') && SameOwners(d.credentials, d'.credentials)
  {
    var d' := InsertAccount(d, id, email, password, handle, role).value;
    assert UniqueCredentials(d'.credentials);
    StillOwned(d.actions, d'.actions, d.credentials, d'.credentials);
    StillJoined(d, d');
  }

  lemma ResetIsUnique(d: Data, user: UserId, password: Hash)
    requires UniqueCredentials(d.credentials)
    ensures var rows' := ResetCredential(d, user, password).credentials;
            UniqueCredentials(rows') && SameOwners(d.credentials, rows')
  {
  }

  lemma ResetOnlyRemoves(d: Data, user: UserId, password: Hash)
    ensures var d' := ResetCredential(d, user, password);
            Fewer(d.sessions, d'.sessions) && d'.users == d.users && d'.actions == d.actions && |d'.credentials| == |d.credentials|
  {
  }

  lemma ResetKeepsInv(d: Data, user: UserId, password: Hash)
    requires Inv(d)
    ensures var d' := ResetCredential(d, user, password);
            Inv(d') && SameOwners(d.credentials, d'.credentials)
  {
    var d' := ResetCredential(d, user, password);
    ResetIsUnique(d, user, password);
    ResetOnlyRemoves(d, user, password);
    StillOwned(d.actions, d'.actions, d.credentials, d'.credentials);
    StillJoined(d, d');
  }

  lemma FewerActionsKeepInv(d: Data, email: Email)
    requires Inv(d)
    ensures Inv(WithoutActions(d, email))
  {
  }

  lemma CompleteKeepsInv(d: Data, t: Timed)
    requires Inv(d) && t.event.Complete?
    ensures Inv(Next(d, t)) && SameOwners(d.credentials, Next(d, t).credentials)
  {
    var e := t.event;
    if e.token in d.actions {
      var a := d.actions[e.token];
      if e.purpose == VerifyEmail && InsertAccount(d, e.id, a.email, e.password, e.handle, Role.Member).Some? {
        InsertIsUnique(d, e.id, a.email, e.password, e.handle, Role.Member);
        FewerActionsKeepInv(InsertAccount(d, e.id, a.email, e.password, e.handle, Role.Member).value, a.email);
      } else if e.purpose == ResetPassword && a.user.Some? {
        ResetKeepsInv(d, a.user.value, e.password);
        FewerActionsKeepInv(ResetCredential(d, a.user.value, e.password), a.email);
      }
      FewerActionsKeepInv(d, a.email);
    }
  }

  lemma OneMoreAction(actions: map<Hash, Action>, rows: seq<Credential>, token: Hash, a: Action)
    requires AllOwned(actions, rows) && OneActionEach(actions) && Owned(a, rows)
    requires forall h | h in actions :: actions[h].email != a.email || actions[h].purpose != a.purpose
    ensures AllOwned(actions[token := a], rows) && OneActionEach(actions[token := a])
  {
  }

  function OtherActions(d: Data, email: Email, purpose: Purpose): map<Hash, Action>
  {
    map h | h in d.actions && !(d.actions[h].email == email && d.actions[h].purpose == purpose) :: d.actions[h]
  }

  lemma IssueKeepsInv(d: Data, t: Timed)
    requires Inv(d) && t.event.Issue?
    ensures Inv(Next(d, t)) && SameOwners(d.credentials, Next(d, t).credentials)
  {
    var e, d' := t.event, Next(d, t);
    if d' != d {
      var others := OtherActions(d, e.email, e.purpose);
      StillOwned(d.actions, others, d.credentials, d.credentials);
      OneMoreAction(others, d.credentials, e.token, d'.actions[e.token]);
    }
  }

  lemma AttemptKeepsInv(d: Data, t: Timed)
    requires Inv(d) && t.event.Attempt?
    ensures Inv(Next(d, t)) && SameOwners(d.credentials, Next(d, t).credentials)
  {
    var d' := Next(d, t);
    StillOwned(d.actions, d'.actions, d.credentials, d.credentials);
    StillJoined(d, d');
  }

  lemma StepKeepsInv(d: Data, t: Timed)
    requires Inv(d)
    ensures Inv(Next(d, t)) && SameOwners(d.credentials, Next(d, t).credentials)
  {
    match t.event
    case Attempt(_, _) => AttemptKeepsInv(d, t);
    case Issue(_, _, _, _) => IssueKeepsInv(d, t);
    case Complete(_, _, _, _, _) => CompleteKeepsInv(d, t);
    case Provision(_, _, _, _, _, _) => ProvisionKeepsInv(d, t);
    case Login(_, _, _, _) => LoginKeepsInv(d, t);
    case _ =>
  }

  lemma ProvisionAdds(d: Data, t: Timed)
    requires t.event.Provision?
    ensures var e := t.event;
            || Next(d, t) == d
            || (InsertAccount(d, e.id, e.email, e.password, e.handle, e.role).Some?
                && Next(d, t) == InsertAccount(d, e.id, e.email, e.password, e.handle, e.role).value)
  {
  }

  lemma ProvisionKeepsInv(d: Data, t: Timed)
    requires Inv(d) && t.event.Provision?
    ensures Inv(Next(d, t)) && SameOwners(d.credentials, Next(d, t).credentials)
  {
    var e := t.event;
    ProvisionAdds(d, t);
    if InsertAccount(d, e.id, e.email, e.password, e.handle, e.role).Some? {
      InsertIsUnique(d, e.id, e.email, e.password, e.handle, e.role);
    }
  }

  lemma LoginKeepsInv(d: Data, t: Timed)
    requires Inv(d) && t.event.Login?
    ensures Inv(Next(d, t)) && SameOwners(d.credentials, Next(d, t).credentials)
  {
  }

  lemma {:induction false} RunKeepsInv(d: Data, ts: seq<Timed>)
    requires Inv(d)
    ensures Inv(Run(d, ts)) && SameOwners(d.credentials, Run(d, ts).credentials)
  {
    if ts != [] {
      RunKeepsInv(d, ts[..|ts| - 1]);
      StepKeepsInv(Run(d, ts[..|ts| - 1]), ts[|ts| - 1]);
    }
  }

  // ------------------------------------------------------------------------- sessions

  predicate LogsIn(d: Data, t: Timed)
  {
    t.event.Login? && CreateSession(d, t.now, t.event.account, t.event.token, t.event.ttl, t.event.replaced).1.Done?
    && CreateSession(d, t.now, t.event.account, t.event.token, t.event.ttl, t.event.replaced).1.value.Some?
  }

  /** The credential version each session was minted under, by its token. */
  function Minted(d: Data, ts: seq<Timed>): map<Hash, nat>
  {
    if ts == [] then map[]
    else
      var front, t := ts[..|ts| - 1], ts[|ts| - 1];
      if LogsIn(Run(d, front), t) then Minted(d, front)[t.event.token := t.event.account.version] else Minted(d, front)
  }

  ghost predicate Current(d: Data, minted: map<Hash, nat>)
  {
    forall h | h in d.sessions :: h in minted && VersionOf(d, d.sessions[h].user) == Some(minted[h])
  }

  function VersionOf(d: Data, user: UserId): Option<nat>
  {
    var i := ByUser(d.credentials, user);
    if i < |d.credentials| then Some(d.credentials[i].version) else None
  }

  lemma SameVersions(d: Data, d': Data, minted: map<Hash, nat>)
    requires Inv(d) && Current(d, minted) && Fewer(d.sessions, d'.sessions)
    requires UniqueCredentials(d'.credentials) && SameOwners(d.credentials, d'.credentials)
    requires forall i | 0 <= i < |d.credentials| ::
               d'.credentials[i].version == d.credentials[i].version || forall h | h in d'.sessions :: d'.sessions[h].user != d.credentials[i].user
    ensures Current(d', minted)
  {
    forall h | h in d'.sessions ensures h in minted && VersionOf(d', d'.sessions[h].user) == Some(minted[h]) {
      SameLookup(d.credentials, d'.credentials, d.sessions[h].user, 0);
      var i := ByUser(d.credentials, d.sessions[h].user);
      assert d.credentials[i].user == d'.sessions[h].user;
    }
  }

  lemma InsertKeepsCurrent(d: Data, d': Data, minted: map<Hash, nat>)
    requires Inv(d) && Current(d, minted) && Fewer(d.sessions, d'.sessions)
    requires UniqueCredentials(d'.credentials) && d.credentials <= d'.credentials
    ensures Current(d', minted)
  {
    SameVersions(d, d', minted);
  }

  lemma ResetKeepsCurrent(d: Data, user: UserId, password: Hash, minted: map<Hash, nat>)
    requires Inv(d) && Current(d, minted)
    ensures Current(ResetCredential(d, user, password), minted)
  {
    ResetIsUnique(d, user, password);
    SameVersions(d, ResetCredential(d, user, password), minted);
  }

  lemma ResetWithoutActions(d: Data, t: Timed, minted: map<Hash, nat>)
    requires Inv(d) && Current(d, minted) && t.event.Complete? && t.event.purpose == ResetPassword
    ensures Current(Next(d, t), minted)
  {
    if t.event.token in d.actions && d.actions[t.event.token].user.Some? {
      ResetKeepsCurrent(d, d.actions[t.event.token].user.value, t.event.password, minted);
    }
  }

  lemma CompleteKeepsCurrent(d: Data, t: Timed, minted: map<Hash, nat>)
    requires Inv(d) && Current(d, minted) && t.event.Complete?
    ensures Current(Next(d, t), minted)
  {
    if t.event.purpose == VerifyEmail {
      CompleteKeepsInv(d, t);
      InsertKeepsCurrent(d, Next(d, t), minted);
    } else {
      ResetWithoutActions(d, t, minted);
    }
  }

  lemma StepKeepsCurrent(d: Data, t: Timed, minted: map<Hash, nat>)
    requires Inv(d) && Current(d, minted)
    ensures Current(Next(d, t), if LogsIn(d, t) then minted[t.event.token := t.event.account.version] else minted)
  {
    if t.event.Login? {
    } else if t.event.Complete? {
      CompleteKeepsCurrent(d, t, minted);
    } else {
      OthersKeepVersions(d, t);
      InsertKeepsCurrent(d, Next(d, t), minted);
    }
  }

  lemma OthersKeepVersions(d: Data, t: Timed)
    requires Inv(d) && !t.event.Login? && !t.event.Complete?
    ensures d.credentials <= Next(d, t).credentials && UniqueCredentials(Next(d, t).credentials)
    ensures Fewer(d.sessions, Next(d, t).sessions)
  {
    match t.event
    case Provision(_, _, _, _, _, _) =>
      ProvisionKeepsInv(d, t);
      ProvisionAdds(d, t);
    case _ => KeptCredentials(d, t);
  }

  lemma KeptCredentials(d: Data, t: Timed)
    requires t.event.Attempt? || t.event.Issue? || t.event.Logout? || t.event.SetRole?
    ensures Next(d, t).credentials == d.credentials && Fewer(d.sessions, Next(d, t).sessions)
  {
    match t.event
    case Attempt(_, _) =>
    case Issue(_, _, _, _) =>
    case Logout(_) =>
    case SetRole(_, _) =>
  }

  lemma {:induction false} RunKeepsCurrent(ts: seq<Timed>)
    ensures Current(After(ts), Minted(Empty, ts))
  {
    if ts != [] {
      var front := ts[..|ts| - 1];
      RunKeepsCurrent(front);
      RunKeepsInv(Empty, front);
      StepKeepsCurrent(After(front), ts[|ts| - 1], Minted(Empty, front));
    }
  }

  /** In every reachable state a session that still answers was minted under the version its
      account has now, and answers with that account. */
  lemma SessionsAreCurrent(ts: seq<Timed>, now: Time, token: Hash)
    ensures var d := After(ts);
            token in d.sessions ==>
              && token in Minted(Empty, ts)
              && VersionOf(d, d.sessions[token].user) == Some(Minted(Empty, ts)[token])
    ensures var r := SessionOf(After(ts), now, token);
            r.Some? ==> token in Minted(Empty, ts) && r.value.0.version == Minted(Empty, ts)[token]
                        && r.value.0.user == After(ts).sessions[token].user
  {
    RunKeepsCurrent(ts);
  }

  // ---------------------------------------------------------------------------- resets

  /** A live reset token of this account, used now. */
  predicate Resets(d: Data, t: Timed, user: UserId)
  {
    && t.event.Complete? && t.event.purpose == ResetPassword && t.event.token in d.actions
    && var a := d.actions[t.event.token];
       a.purpose == ResetPassword && a.expires > t.now && a.user == Some(user)
  }

  lemma ResetRaisesVersion(d: Data, user: UserId, password: Hash)
    requires Inv(d) && ByUser(d.credentials, user) < |d.credentials|
    ensures var d' := ResetCredential(d, user, password);
            var i := ByUser(d'.credentials, user);
            && i < |d'.credentials| && d'.credentials[i].password == password
            && VersionOf(d', user) == Some(VersionOf(d, user).value + 1)
            && forall h | h in d'.sessions :: d'.sessions[h].user != user
  {
    var d' := ResetCredential(d, user, password);
    ResetIsUnique(d, user, password);
    SameLookup(d.credentials, d'.credentials, user, 0);
  }

  lemma ResetIsOwned(d: Data, t: Timed, user: UserId)
    requires Inv(d) && Resets(d, t, user)
    ensures ByUser(d.credentials, user) < |d.credentials|
  {
    var a := d.actions[t.event.token];
    assert Owned(a, d.credentials);
    assert d.credentials[ByEmail(d.credentials, a.email)].user == user;
  }

  lemma ResetCompletes(d: Data, t: Timed, user: UserId)
    requires Resets(d, t, user)
    ensures CompleteAction(d, t.now, t.event.token, ResetPassword, t.event.password, t.event.handle, t.event.id).1 == Done(true)
    ensures Next(d, t) == WithoutActions(ResetCredential(d, user, t.event.password), d.actions[t.event.token].email)
    ensures t.event.token !in Next(d, t).actions
  {
  }

  /** Using a live reset token ends every session of its account, raises its version and
      uses the token up. */
  lemma ResetEndsSessions(ts: seq<Timed>, t: Timed, user: UserId)
    requires Resets(After(ts), t, user)
    ensures var d, d' := After(ts), Next(After(ts), t);
            && CompleteAction(d, t.now, t.event.token, ResetPassword, t.event.password, t.event.handle, t.event.id).1 == Done(true)
            && (forall h | h in d'.sessions :: d'.sessions[h].user != user)
            && VersionOf(d, user).Some? && VersionOf(d', user) == Some(VersionOf(d, user).value + 1)
            && d'.credentials[ByUser(d'.credentials, user)].password == t.event.password
            && t.event.token !in d'.actions
  {
    var d := After(ts);
    RunKeepsInv(Empty, ts);
    ResetIsOwned(d, t, user);
    ResetRaisesVersion(d, user, t.event.password);
    ResetCompletes(d, t, user);
  }

  lemma VersionsNeverFall(d: Data, ts: seq<Timed>, user: UserId)
    requires Inv(d) && VersionOf(d, user).Some?
    ensures VersionOf(Run(d, ts), user).Some? && VersionOf(Run(d, ts), user).value >= VersionOf(d, user).value
  {
    RunKeepsInv(d, ts);
    SameLookup(d.credentials, Run(d, ts).credentials, user, 0);
  }

  lemma {:induction false} RunsCompose(d: Data, a: seq<Timed>, b: seq<Timed>)
    ensures Run(d, a + b) == Run(Run(d, a), b)
  {
    if b == [] {
      assert a + b == a;
    } else {
      assert (a + b)[..|a + b| - 1] == a + b[..|b| - 1];
      RunsCompose(d, a, b[..|b| - 1]);
    }
  }

  /** A login that read its account before a reset never gets a session after it, and every
      session the account has from then on was minted under a newer version. */
  lemma ResetFencesEarlierLogins(ts: seq<Timed>, before: seq<Timed>, reset: Timed, after: seq<Timed>, account: Account,
                                 now: Time, token: Hash, ttl: int, replaced: Option<Hash>)
    requires AccountAt(After(ts), ByUser(After(ts).credentials, account.user)) == Some(account)
    requires Resets(After(ts + before), reset, account.user)
    ensures var run := ts + before + [reset] + after;
            var d := After(run);
            && CreateSession(d, now, account, token, ttl, replaced) == (d, Done(None))
            && (forall h | h in d.sessions && d.sessions[h].user == account.user ::
                  h in Minted(Empty, run) && Minted(Empty, run)[h] > account.version)
  {
    var upto := ts + before + [reset];
    ResetRaisesBeyond(ts, before, reset, account);
    RunKeepsInv(Empty, upto);
    RunsCompose(Empty, upto, after);
    VersionsNeverFall(After(upto), after, account.user);
    RunKeepsCurrent(upto + after);
  }

  /** After the reset the account's version is beyond what the login had read. */
  lemma ResetRaisesBeyond(ts: seq<Timed>, before: seq<Timed>, reset: Timed, account: Account)
    requires AccountAt(After(ts), ByUser(After(ts).credentials, account.user)) == Some(account)
    requires Resets(After(ts + before), reset, account.user)
    ensures var d := After(ts + before + [reset]);
            VersionOf(d, account.user).Some? && VersionOf(d, account.user).value > account.version
  {
    var upto := ts + before + [reset];
    RunKeepsInv(Empty, ts);
    RunsCompose(Empty, ts, before);
    VersionsNeverFall(After(ts), before, account.user);
    ResetEndsSessions(ts + before, reset, account.user);
    assert upto[..|upto| - 1] == ts + before;
  }

  // ------------------------------------------------------------------- one-time tokens

  /** An email has at most one live or stale token per purpose, in every reachable state. */
  lemma OneTokenPerPurpose(ts: seq<Timed>, g: Hash, h: Hash)
    requires var d := After(ts);
             g in d.actions && h in d.actions && d.actions[g].email == d.actions[h].email && d.actions[g].purpose == d.actions[h].purpose
    ensures g == h
  {
    RunKeepsInv(Empty, ts);
  }

  predicate Reissues(t: Timed, token: Hash) { t.event.Issue? && t.event.token == token }

  lemma StepAddsNoOther(d: Data, t: Timed, token: Hash)
    requires token !in d.actions && !Reissues(t, token)
    ensures token !in Next(d, t).actions
  {
    match t.event
    case Attempt(_, _) =>
    case Complete(_, _, _, _, _) =>
    case _ =>
  }

  lemma {:induction false} GoneStaysGone(d: Data, ts: seq<Timed>, token: Hash)
    requires token !in d.actions && forall i | 0 <= i < |ts| :: !Reissues(ts[i], token)
    ensures token !in Run(d, ts).actions
  {
    if ts != [] {
      GoneStaysGone(d, ts[..|ts| - 1], token);
      StepAddsNoOther(Run(d, ts[..|ts| - 1]), ts[|ts| - 1], token);
    }
  }

  /** A token completes at most once: after it did, and as long as it is not issued anew,
      it completes nothing, for any purpose. */
  lemma EachTokenCompletesOnce(d: Data, first: Timed, ts: seq<Timed>, again: Timed)
    requires first.event.Complete? && again.event.Complete? && again.event.token == first.event.token
    requires var e := first.event;
             CompleteAction(d, first.now, e.token, e.purpose, e.password, e.handle, e.id).1 == Done(true)
    requires forall i | 0 <= i < |ts| :: !Reissues(ts[i], first.event.token)
    ensures var e, d' := again.event, Run(Next(d, first), ts);
            CompleteAction(d', again.now, e.token, e.purpose, e.password, e.handle, e.id) == (d', Done(false))
  {
    GoneStaysGone(Next(d, first), ts, first.event.token);
  }

  /** Verifying an email never touches an account that already has it: it conflicts and
      changes nothing. */
  lemma VerifyNeverReplaces(d: Data, t: Timed)
    requires t.event.Complete? && t.event.purpose == VerifyEmail && t.event.token in d.actions
    requires ByEmail(d.credentials, d.actions[t.event.token].email) < |d.credentials|
    ensures Next(d, t) == d
    ensures var e := t.event;
            CompleteAction(d, t.now, e.token, e.purpose, e.password, e.handle, e.id).1 != Done(true)
  {
  }
}

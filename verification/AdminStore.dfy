/** Revisioned teaching content, its append-only audit rows and the admission fence. */
module AdminStore {
  import opened Basics
  import AuthStore
  import SubmissionStore

  type ChallengeId = nat
  type Digest = nat
  type Content = nat
  type Time = int
  type UserId = AuthStore.UserId

  const MAX_EXPECTED_REVISION := 9223372036854775806

  datatype State = State(source: Option<Digest>, revision: nat, draft: Option<Content>, published: Option<Content>,
                         publishedRevision: nat, publishedSource: Option<Digest>, closed: bool)

  const Fresh := State(None, 0, None, None, 0, None, false)

  datatype Action = Save(content: Content) | Check | Publish | Admissions(closed: bool)
  datatype Request = Request(challenge: ChallengeId, fingerprint: Digest, token: AuthStore.Hash, expectedUser: Option<UserId>,
                             expectedRevision: int, action: Action, hasContract: bool, canReopen: bool)

  datatype Issue = SourceChanged | DraftRequired | DraftInvalid
  datatype Refusal =
    | InvalidExpectedRevision
    | ExpectedAccountRequired
    | InvalidContent
    | InvalidToken
    | AccountChanged
    | AdminRequired
    | RevisionConflict
    | HasIssue(issue: Issue)
    | NotOpen
  datatype Reply = Changed(state: State) | Checked(canPublish: bool, issues: seq<Issue>, revision: nat) | Refused(refusal: Refusal)

  /** What an audit row keeps of the action. */
  datatype Kind = Saved | Published | AdmissionsSet
  datatype Audit = Audit(challenge: ChallengeId, revision: nat, kind: Kind, operator: UserId, created: Time, previous: State, next: State)

  /** Audit rows in the order they were inserted. */
  datatype Tables = Tables(states: map<ChallengeId, State>, audits: seq<Audit>)

  // ------------------------------------------------------------------------ the state

  predicate Matches(s: State, fingerprint: Digest) { s.source.None? || s.source.value == fingerprint }

  predicate ClosedFor(s: State, fingerprint: Digest) { s.closed || !Matches(s, fingerprint) }

  datatype Shown = Nothing | Teaching(content: Content) | Unreadable

  /** What students see; stored text the validator no longer takes cannot be read. */
  function PublishedContent(s: State, fingerprint: Digest, valid: Content -> bool): Shown
  {
    if s.publishedSource != Some(fingerprint) || s.published.None? then Nothing
    else if valid(s.published.value) then Teaching(s.published.value) else Unreadable
  }

  function Issues(s: State, fingerprint: Digest, valid: Content -> bool): seq<Issue>
  {
    (if !Matches(s, fingerprint) then [SourceChanged] else [])
    + (if s.draft.None? then [DraftRequired] else if !valid(s.draft.value) then [DraftInvalid] else [])
  }

  function Previous(states: map<ChallengeId, State>, challenge: ChallengeId): State
  {
    if challenge in states then states[challenge] else Fresh
  }

  predicate AdmissionsOpen(states: map<ChallengeId, State>, challenge: ChallengeId, fingerprint: Option<Digest>)
  {
    challenge in states ==> !states[challenge].closed && states[challenge].source == fingerprint
  }

  // ---------------------------------------------------------------------- transactions

  function Authorize(auth: AuthStore.Data, now: Time, token: AuthStore.Hash, expectedUser: Option<UserId>): (Option<Refusal>, UserId)
  {
    if !(token in auth.sessions && auth.sessions[token].expires > now && auth.sessions[token].user in auth.users)
    then (Some(InvalidToken), 0)
    else
      var user := auth.sessions[token].user;
      if expectedUser.Some? && expectedUser.value != user then (Some(AccountChanged), user)
      else if auth.users[user].role != AuthStore.Admin then (Some(AdminRequired), user)
      else (None, user)
  }

  function Malformed(r: Request, valid: Content -> bool): Option<Refusal>
  {
    if !(0 <= r.expectedRevision <= MAX_EXPECTED_REVISION) then Some(InvalidExpectedRevision)
    else if r.expectedUser.None? then Some(ExpectedAccountRequired)
    else if r.action.Save? && !valid(r.action.content) then Some(InvalidContent)
    else None
  }

  /** The state an accepted request leaves, or why it is refused. */
  function Edit(previous: State, r: Request, valid: Content -> bool): (Option<Refusal>, State)
  {
    var s := previous.(revision := previous.revision + 1, source := Some(r.fingerprint));
    match r.action
    case Check => (None, previous)
    case Save(content) =>
      (None, s.(draft := Some(content), closed := previous.closed || (r.hasContract && !Matches(previous, r.fingerprint))))
    case Publish =>
      var issues := Issues(previous, r.fingerprint, valid);
      if issues != [] then (Some(HasIssue(issues[0])), previous)
      else (None, s.(published := previous.draft, publishedRevision := s.revision, publishedSource := Some(r.fingerprint)))
    case Admissions(closed) =>
      if !Matches(previous, r.fingerprint) then (Some(HasIssue(SourceChanged)), previous)
      else if !r.hasContract || (!closed && !r.canReopen) then (Some(NotOpen), previous)
      else (None, s.(closed := closed))
  }

  function KindOf(a: Action): Kind
    requires !a.Check?
  {
    match a case Save(_) => Saved case Publish => Published case Admissions(_) => AdmissionsSet
  }

  /** `now` is read when the transaction begins, `later` again once the task's lock is held. */
  function Change(t: Tables, auth: AuthStore.Data, now: Time, later: Time, r: Request, valid: Content -> bool): (Tables, Reply)
  {
    if Malformed(r, valid).Some? then (t, Refused(Malformed(r, valid).value))
    else if Authorize(auth, now, r.token, r.expectedUser).0.Some? then (t, Refused(Authorize(auth, now, r.token, r.expectedUser).0.value))
    else
      var (refusal, operator) := Authorize(auth, later, r.token, r.expectedUser);
      if refusal.Some? then (t, Refused(refusal.value)) else
      var previous := Previous(t.states, r.challenge);
      if previous.revision != r.expectedRevision then (t, Refused(RevisionConflict)) else
      var issues := Issues(previous, r.fingerprint, valid);
      if r.action.Check? then (t, Checked(issues == [], issues, previous.revision)) else
      var (refused, next) := Edit(previous, r, valid);
      if refused.Some? then (t, Refused(refused.value))
      else
        (Tables(t.states[r.challenge := next],
                t.audits + [Audit(r.challenge, next.revision, KindOf(r.action), operator, later, previous, next)]),
         Changed(next))
  }

  // ------------------------------------------------------------- the store as written

  class AdminStoreMixin {
    var states: map<ChallengeId, State>
    var audits: seq<Audit>

    function View(): Tables reads this { Tables(states, audits) }

    constructor ()
      ensures View() == Tables(map[], [])
    {
      states, audits := map[], [];
    }

    method AdminChange(auth: AuthStore.Data, now: Time, later: Time, r: Request, valid: Content -> bool) returns (reply: Reply)
      modifies this
      ensures (View(), reply) == Change(old(View()), auth, now, later, r, valid)
    {
      if !(0 <= r.expectedRevision <= MAX_EXPECTED_REVISION) { return Refused(InvalidExpectedRevision); }
      if r.expectedUser.None? { return Refused(ExpectedAccountRequired); }
      if r.action.Save? && !valid(r.action.content) { return Refused(InvalidContent); }
      var (refusal, operator) := Authorize(auth, now, r.token, r.expectedUser);
      if refusal.Some? { return Refused(refusal.value); }
      var (refusal', operator') := Authorize(auth, later, r.token, r.expectedUser);
      if refusal'.Some? { return Refused(refusal'.value); }
      var previous := if r.challenge in states then states[r.challenge] else Fresh;
      if previous.revision != r.expectedRevision { return Refused(RevisionConflict); }
      var issues := Issues(previous, r.fingerprint, valid);
      if r.action.Check? { return Checked(issues == [], issues, previous.revision); }
      var current := previous.(revision := previous.revision + 1);
      if r.action.Save? {
        var changed := r.hasContract && !Matches(previous, r.fingerprint);
        current := current.(source := Some(r.fingerprint), draft := Some(r.action.content), closed := previous.closed || changed);
      } else {
        if !Matches(previous, r.fingerprint) { return Refused(HasIssue(issues[0])); }
        current := current.(source := Some(r.fingerprint));
        if r.action.Publish? {
          if issues != [] { return Refused(HasIssue(issues[0])); }
          current := current.(published := previous.draft, publishedRevision := current.revision, publishedSource := Some(r.fingerprint));
        } else {
          if !r.hasContract || (!r.action.closed && !r.canReopen) { return Refused(NotOpen); }
          current := current.(closed := r.action.closed);
        }
      }
      states := states[r.challenge := current];
      audits := audits + [Audit(r.challenge, current.revision, KindOf(r.action), operator', later, previous, current)];
      return Changed(current);
    }

    method AssertAdmissionsOpen(challenge: ChallengeId, fingerprint: Option<Digest>) returns (open: bool)
      ensures open == AdmissionsOpen(states, challenge, fingerprint)
    {
      open := true;
      if challenge in states {
        var row := states[challenge];
        if row.closed || row.source != fingerprint { open := false; }
      }
    }
  }

  // ------------------------------------------------------------------------------ runs

  /** A request with the clock readings, the accounts and the validator it met. */
  datatype Event = Event(request: Request, auth: AuthStore.Data, now: Time, later: Time, valid: Content -> bool)

  function Step(t: Tables, e: Event): (Tables, Reply) { Change(t, e.auth, e.now, e.later, e.request, e.valid) }

  function Run(t: Tables, es: seq<Event>): Tables
  {
    if es == [] then t else Step(Run(t, es[..|es| - 1]), es[|es| - 1]).0
  }

  const Empty := Tables(map[], [])

  lemma {:induction false} RunsCompose(t: Tables, a: seq<Event>, b: seq<Event>)
    ensures Run(t, a + b) == Run(Run(t, a), b)
  {
    if b == [] {
      assert a + b == a;
    } else {
      assert (a + b)[..|a + b| - 1] == a + b[..|b| - 1];
      RunsCompose(t, a, b[..|b| - 1]);
    }
  }

  // ----------------------------------------------------------------------- audit chain

  function RowsOf(audits: seq<Audit>, challenge: ChallengeId): seq<Audit>
  {
    if audits == [] then []
    else
      RowsOf(audits[..|audits| - 1], challenge)
      + if audits[|audits| - 1].challenge == challenge then [audits[|audits| - 1]] else []
  }

  /** Rows numbered from 1, each starting from the state the one before it left. */
  predicate Chained(rows: seq<Audit>)
  {
    forall k | 0 <= k < |rows| :: rows[k].revision == k + 1 == rows[k].next.revision && rows[k].previous == StateAfter(rows, k)
  }

  /** The state the first k rows lead to. */
  function StateAfter(rows: seq<Audit>, k: nat): State
    requires k <= |rows|
  {
    if k == 0 then Fresh else rows[k - 1].next
  }

  ghost predicate AuditInv(t: Tables)
  {
    forall c: ChallengeId :: Accounts(RowsOf(t.audits, c), Previous(t.states, c))
  }

  ghost predicate Accounts(rows: seq<Audit>, state: State)
  {
    Chained(rows) && StateAfter(rows, |rows|) == state && state.revision == |rows|
  }

  /** What a step does to one challenge: nothing, or one accepted edit with its audit row. */
  lemma StepRows(t: Tables, e: Event, c: ChallengeId)
    ensures var t' := Step(t, e).0;
            var rows, rows', previous := RowsOf(t.audits, c), RowsOf(t'.audits, c), Previous(t.states, c);
            if Step(t, e).1.Changed? && e.request.challenge == c then
              var (refused, next) := Edit(previous, e.request, e.valid);
              var a := t'.audits[|t.audits|];
              && !e.request.action.Check? && refused.None? && next == Previous(t'.states, c)
              && rows' == rows + [a] && a.previous == previous && a.next == next && a.revision == next.revision
              && a.kind == KindOf(e.request.action)
            else rows' == rows && Previous(t'.states, c) == previous
  {
    var t' := Step(t, e).0;
    if Step(t, e).1.Changed? {
      assert t'.audits[..|t.audits|] == t.audits;
    }
  }

  lemma StepKeepsAccounts(t: Tables, e: Event, c: ChallengeId)
    requires Accounts(RowsOf(t.audits, c), Previous(t.states, c))
    ensures Accounts(RowsOf(Step(t, e).0.audits, c), Previous(Step(t, e).0.states, c))
  {
    StepRows(t, e, c);
    if Step(t, e).1.Changed? && e.request.challenge == c {
      ChainOneMore(RowsOf(t.audits, c), Step(t, e).0.audits[|t.audits|]);
    }
  }

  lemma ChainOneMore(rows: seq<Audit>, a: Audit)
    requires Chained(rows) && a.previous == StateAfter(rows, |rows|) && a.revision == a.next.revision == |rows| + 1
    ensures Accounts(rows + [a], a.next)
  {
    var rows' := rows + [a];
    forall k | 0 <= k < |rows'| ensures rows'[k].revision == k + 1 == rows'[k].next.revision && rows'[k].previous == StateAfter(rows', k) {
      if k < |rows| { assert rows'[k] == rows[k] && StateAfter(rows', k) == StateAfter(rows, k); }
    }
  }

  lemma StepKeepsAudit(t: Tables, e: Event)
    requires AuditInv(t)
    ensures AuditInv(Step(t, e).0)
  {
    forall c: ChallengeId ensures Accounts(RowsOf(Step(t, e).0.audits, c), Previous(Step(t, e).0.states, c)) {
      StepKeepsAccounts(t, e, c);
    }
  }

  lemma {:induction false} RunKeepsAudit(es: seq<Event>)
    ensures AuditInv(Run(Empty, es))
  {
    if es == [] {
      assert forall c: ChallengeId :: RowsOf(Empty.audits, c) == [];
    } else {
      RunKeepsAudit(es[..|es| - 1]);
      StepKeepsAudit(Run(Empty, es[..|es| - 1]), es[|es| - 1]);
    }
  }

  /** In every reachable state a challenge's audit rows are numbered 1 to its revision, each
      row's previous state is the prior row's next state, and the last leads to the state. */
  lemma AuditRowsFormAChain(es: seq<Event>, c: ChallengeId)
    ensures var t := Run(Empty, es);
            var rows, state := RowsOf(t.audits, c), Previous(t.states, c);
            && |rows| == state.revision
            && (forall k | 0 <= k < |rows| :: rows[k].revision == k + 1)
            && (forall k | 0 < k < |rows| :: rows[k].previous == rows[k - 1].next)
            && (rows != [] ==> rows[0].previous == Fresh && rows[|rows| - 1].next == state)
  {
    RunKeepsAudit(es);
    var t := Run(Empty, es);
    assert Accounts(RowsOf(t.audits, c), Previous(t.states, c));
  }

  /** Audit rows are never changed or removed, and each names an administrator whose session
      was live when the lock was held. */
  lemma AuditsOnlyGrow(t: Tables, e: Event)
    ensures var (t', reply) := Step(t, e);
            && t.audits <= t'.audits
            && (reply.Changed? <==> |t'.audits| == |t.audits| + 1)
            && (!reply.Changed? ==> t' == t)
            && (reply.Changed? ==>
                  var row, session := t'.audits[|t.audits|], e.request.token;
                  && session in e.auth.sessions && e.auth.sessions[session].expires > e.later
                  && e.auth.sessions[session].user == row.operator && Some(row.operator) == e.request.expectedUser
                  && row.operator in e.auth.users && e.auth.users[row.operator].role == AuthStore.Admin
                  && row.challenge == e.request.challenge && row.created == e.later && row.revision == e.request.expectedRevision + 1
                  && (row.kind == Saved <==> e.request.action.Save?) && (row.kind == Published <==> e.request.action.Publish?))
  {
  }

  /** Of the requests that expect one revision of a challenge, at most one changes it. */
  lemma OneChangePerRevision(es: seq<Event>, first: Event, between: seq<Event>, again: Event)
    requires Step(Run(Empty, es), first).1.Changed?
    requires again.request.challenge == first.request.challenge && again.request.expectedRevision == first.request.expectedRevision
    ensures var t := Run(Empty, es + [first] + between);
            Step(t, again).0 == t && !Step(t, again).1.Changed?
  {
    var c, upto := first.request.challenge, es + [first];
    assert upto[..|upto| - 1] == es;
    RunsCompose(Empty, upto, between);
    ChangeRaisesRevision(Run(Empty, es), first);
    RevisionsOnlyRise(Run(Empty, upto), between, c);
  }

  lemma ChangeRaisesRevision(t: Tables, e: Event)
    requires Step(t, e).1.Changed?
    ensures Previous(t.states, e.request.challenge).revision == e.request.expectedRevision
    ensures Previous(Step(t, e).0.states, e.request.challenge).revision == e.request.expectedRevision + 1
  {
  }

  lemma {:induction false} RevisionsOnlyRise(t: Tables, es: seq<Event>, c: ChallengeId)
    ensures Previous(t.states, c).revision <= Previous(Run(t, es).states, c).revision
  {
    if es != [] { RevisionsOnlyRise(t, es[..|es| - 1], c); }
  }

  // ------------------------------------------------------------------- visible content

  /** Some of the first n rows saved this draft under this source. */
  predicate SavedBefore(rows: seq<Audit>, n: nat, draft: Content, source: Digest)
  {
    exists j | 0 <= j < n && j < |rows| :: IsSave(rows[j], draft, source)
  }

  predicate IsSave(a: Audit, draft: Content, source: Digest)
  {
    a.kind == Saved && a.next.draft == Some(draft) && a.next.source == Some(source)
  }

  /** Row k published this content under this source, and it had been saved under it before. */
  predicate PublishedAt(rows: seq<Audit>, k: nat, content: Content, source: Digest)
  {
    && k < |rows| && rows[k].kind == Published
    && rows[k].next.published == Some(content) && rows[k].next.publishedSource == Some(source)
    && SavedBefore(rows, k, content, source)
  }

  predicate DraftInv(rows: seq<Audit>, s: State)
  {
    s.draft.Some? ==> s.source.Some? && SavedBefore(rows, |rows|, s.draft.value, s.source.value)
  }

  predicate PublishedInv(rows: seq<Audit>, s: State)
  {
    && (s.published.Some? <==> s.publishedSource.Some?)
    && (s.published.Some? ==>
          s.publishedRevision >= 1 && PublishedAt(rows, s.publishedRevision - 1, s.published.value, s.publishedSource.value))
  }

  predicate ContentInv(rows: seq<Audit>, s: State)
  {
    (s.source.None? ==> s == Fresh) && DraftInv(rows, s) && PublishedInv(rows, s)
  }

  lemma MoreRowsStillSaved(rows: seq<Audit>, more: seq<Audit>, n: nat, m: nat, draft: Content, source: Digest)
    requires SavedBefore(rows, n, draft, source) && n <= m
    ensures SavedBefore(rows + more, m, draft, source)
  {
    var j :| 0 <= j < n && j < |rows| && IsSave(rows[j], draft, source);
    assert (rows + more)[j] == rows[j];
  }

  predicate Accepts(previous: State, r: Request, valid: Content -> bool, a: Audit)
  {
    && !r.action.Check? && Edit(previous, r, valid).0.None?
    && a.kind == KindOf(r.action) && a.next == Edit(previous, r, valid).1
  }

  lemma EditKeepsDraft(rows: seq<Audit>, previous: State, r: Request, valid: Content -> bool, a: Audit)
    requires DraftInv(rows, previous) && Accepts(previous, r, valid, a)
    ensures DraftInv(rows + [a], a.next)
  {
    if r.action.Save? {
      assert (rows + [a])[|rows|] == a && IsSave(a, r.action.content, r.fingerprint);
    } else if previous.draft.Some? {
      MoreRowsStillSaved(rows, [a], |rows|, |rows| + 1, previous.draft.value, previous.source.value);
    }
  }

  lemma StillPublished(rows: seq<Audit>, a: Audit, k: nat, content: Content, source: Digest)
    requires PublishedAt(rows, k, content, source)
    ensures PublishedAt(rows + [a], k, content, source)
  {
    assert (rows + [a])[k] == rows[k];
    MoreRowsStillSaved(rows, [a], k, k, content, source);
  }

  lemma JustPublished(rows: seq<Audit>, a: Audit, content: Content, source: Digest)
    requires SavedBefore(rows, |rows|, content, source)
    requires a.kind == Published && a.next.published == Some(content) && a.next.publishedSource == Some(source)
    ensures PublishedAt(rows + [a], |rows|, content, source)
  {
    assert (rows + [a])[|rows|] == a;
    MoreRowsStillSaved(rows, [a], |rows|, |rows|, content, source);
  }

  lemma PublishKeepsPublished(rows: seq<Audit>, previous: State, r: Request, valid: Content -> bool, a: Audit)
    requires Accounts(rows, previous) && DraftInv(rows, previous) && Accepts(previous, r, valid, a) && r.action.Publish?
    ensures PublishedInv(rows + [a], a.next)
  {
    JustPublished(rows, a, previous.draft.value, r.fingerprint);
  }

  lemma EditKeepsPublished(rows: seq<Audit>, previous: State, r: Request, valid: Content -> bool, a: Audit)
    requires Accounts(rows, previous) && ContentInv(rows, previous) && Accepts(previous, r, valid, a)
    ensures PublishedInv(rows + [a], a.next)
  {
    if r.action.Publish? {
      PublishKeepsPublished(rows, previous, r, valid, a);
    } else {
      OthersKeepPublished(rows, previous, r, valid, a);
    }
  }

  lemma OthersKeepPublished(rows: seq<Audit>, previous: State, r: Request, valid: Content -> bool, a: Audit)
    requires PublishedInv(rows, previous) && Accepts(previous, r, valid, a) && !r.action.Publish?
    ensures PublishedInv(rows + [a], a.next)
  {
    if previous.published.Some? {
      StillPublished(rows, a, previous.publishedRevision - 1, previous.published.value, previous.publishedSource.value);
    }
  }

  lemma EditKeepsContent(rows: seq<Audit>, previous: State, r: Request, valid: Content -> bool, a: Audit)
    requires Accounts(rows, previous) && ContentInv(rows, previous) && Accepts(previous, r, valid, a)
    ensures ContentInv(rows + [a], a.next)
  {
    EditKeepsDraft(rows, previous, r, valid, a);
    EditKeepsPublished(rows, previous, r, valid, a);
  }

  lemma {:induction false} RunKeepsContent(es: seq<Event>, c: ChallengeId)
    ensures ContentInv(RowsOf(Run(Empty, es).audits, c), Previous(Run(Empty, es).states, c))
  {
    if es != [] {
      var front, e := es[..|es| - 1], es[|es| - 1];
      var t := Run(Empty, front);
      RunKeepsContent(front, c);
      RunKeepsAudit(front);
      StepRows(t, e, c);
      if Step(t, e).1.Changed? && e.request.challenge == c {
        EditKeepsContent(RowsOf(t.audits, c), Previous(t.states, c), e.request, e.valid, Step(t, e).0.audits[|t.audits|]);
      }
    }
  }

  /** Whatever students see under a source was saved as a draft under that source, and then
      published under it by the row its published revision names. */
  lemma VisibleContentWasSavedAndPublished(es: seq<Event>, c: ChallengeId, fingerprint: Digest, valid: Content -> bool)
    ensures var t := Run(Empty, es);
            var s, rows := Previous(t.states, c), RowsOf(t.audits, c);
            PublishedContent(s, fingerprint, valid) != Nothing ==>
              && s.publishedRevision >= 1
              && PublishedAt(rows, s.publishedRevision - 1, s.published.value, fingerprint)
  {
    RunKeepsContent(es, c);
  }

  // -------------------------------------------------------------------- admission fence

  /** A save that records another source for a task with a contract. */
  predicate RecordsChange(t: Tables, e: Event)
  {
    && Step(t, e).1.Changed? && e.request.action.Save? && e.request.hasContract
    && !Matches(Previous(t.states, e.request.challenge), e.request.fingerprint)
  }

  /** An explicit, permitted reopening of the task. */
  predicate Reopens(t: Tables, e: Event, c: ChallengeId)
  {
    && Step(t, e).1.Changed? && e.request.challenge == c && e.request.action == Admissions(false)
    && e.request.hasContract && e.request.canReopen
  }

  ghost predicate NeverReopened(t: Tables, es: seq<Event>, c: ChallengeId)
  {
    forall i | 0 <= i < |es| :: !Reopens(Run(t, es[..i]), es[i], c)
  }

  lemma {:induction false} StaysClosed(t: Tables, es: seq<Event>, c: ChallengeId)
    requires c in t.states && t.states[c].closed && NeverReopened(t, es, c)
    ensures c in Run(t, es).states && Run(t, es).states[c].closed
  {
    if es != [] {
      var front := es[..|es| - 1];
      forall i | 0 <= i < |front| ensures !Reopens(Run(t, front[..i]), front[i], c) {
        assert front[..i] == es[..i];
      }
      StaysClosed(t, front, c);
      assert !Reopens(Run(t, es[..|front|]), es[|front|], c);
    }
  }

  /** From such a save until a permitted reopening, no source's submissions are admitted,
      and creating one leaves the submission store as it is. */
  lemma ChangedSourceFencesAdmissions(t: Tables, e: Event, es: seq<Event>, fingerprint: Option<Digest>,
                                      s: SubmissionStore.Store, now: SubmissionStore.Time, id: nat, user: nat, key: nat, request: nat,
                                      contract: SubmissionStore.Contract, limits: SubmissionStore.Limits)
    requires RecordsChange(t, e) && NeverReopened(Step(t, e).0, es, e.request.challenge)
    ensures var c := e.request.challenge;
            var open := AdmissionsOpen(Run(Step(t, e).0, es).states, c, fingerprint);
            && !open
            && SubmissionStore.Create(s, now, id, user, key, request, contract, open, limits).0 == s
  {
    StaysClosed(Step(t, e).0, es, e.request.challenge);
  }

  /** Submissions are admitted exactly when the task was never administered, or is open and
      its recorded source is the submission's. */
  lemma {:induction false} OpenIffReviewed(es: seq<Event>, c: ChallengeId, fingerprint: Digest)
    ensures var t := Run(Empty, es);
            AdmissionsOpen(t.states, c, Some(fingerprint)) <==> !ClosedFor(Previous(t.states, c), fingerprint)
  {
    RunKeepsStored(es, c);
  }

  lemma {:induction false} RunKeepsStored(es: seq<Event>, c: ChallengeId)
    ensures c in Run(Empty, es).states ==> Run(Empty, es).states[c].source.Some?
  {
    if es != [] { RunKeepsStored(es[..|es| - 1], c); }
  }
}

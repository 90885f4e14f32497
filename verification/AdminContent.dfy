/** What administrators' requests answer and change, and that a task's draft and its visible
    content are those of the requests accepted last. */
module AdminContent {
  import opened Basics
  import opened AdminStore
  import AuthStore

  /** The session is live then and belongs to the administrator the request expects. */
  predicate LiveAdmin(auth: AuthStore.Data, now: Time, r: Request)
  {
    && r.token in auth.sessions && now < auth.sessions[r.token].expires
    && r.expectedUser == Some(auth.sessions[r.token].user)
    && auth.sessions[r.token].user in auth.users && auth.users[auth.sessions[r.token].user].role == AuthStore.Admin
  }

  predicate WellFormed(r: Request, valid: Content -> bool)
  {
    0 <= r.expectedRevision < 9223372036854775807 && r.expectedUser.Some? && (r.action.Save? ==> valid(r.action.content))
  }

  /** A well-formed request of an administrator, live before and under the lock, that expects
      the revision it finds. */
  predicate Admitted(t: Tables, e: Event)
  {
    && WellFormed(e.request, e.valid) && LiveAdmin(e.auth, e.now, e.request) && LiveAdmin(e.auth, e.later, e.request)
    && Previous(t.states, e.request.challenge).revision == e.request.expectedRevision
  }

  predicate SameSource(s: State, fingerprint: Digest) { s.source.None? || s.source == Some(fingerprint) }

  predicate Publishable(s: State, fingerprint: Digest, valid: Content -> bool)
  {
    SameSource(s, fingerprint) && s.draft.Some? && valid(s.draft.value)
  }

  /** What the action itself asks for. */
  predicate Allowed(s: State, e: Event)
  {
    match e.request.action
    case Save(_) => true
    case Check => false
    case Publish => Publishable(s, e.request.fingerprint, e.valid)
    case Admissions(closed) => SameSource(s, e.request.fingerprint) && e.request.hasContract && (closed || e.request.canReopen)
  }

  /** Each action changes its own part of the state and no other. */
  predicate Leaves(s: State, e: Event, s': State)
  {
    && s'.revision == s.revision + 1 && s'.source == Some(e.request.fingerprint)
    && match e.request.action
       case Save(content) =>
         && s'.draft == Some(content) && s'.published == s.published
         && s'.publishedRevision == s.publishedRevision && s'.publishedSource == s.publishedSource
         && (s'.closed <==> s.closed || (e.request.hasContract && !SameSource(s, e.request.fingerprint)))
       case Publish =>
         && s'.draft == s.draft == s'.published && s'.publishedRevision == s'.revision
         && s'.publishedSource == Some(e.request.fingerprint) && s'.closed == s.closed
       case Admissions(closed) =>
         && s'.draft == s.draft && s'.published == s.published && s'.closed == closed
         && s'.publishedRevision == s.publishedRevision && s'.publishedSource == s.publishedSource
       case Check => false
  }

  lemma NoIssuesIff(s: State, fingerprint: Digest, valid: Content -> bool)
    ensures Issues(s, fingerprint, valid) == [] <==> Publishable(s, fingerprint, valid)
    ensures Matches(s, fingerprint) <==> SameSource(s, fingerprint)
  {
  }

  /** When a request changes its task, exactly, and to what; no other task changes. */
  lemma ChangesIff(t: Tables, e: Event)
    ensures Step(t, e).1.Changed? <==> Admitted(t, e) && Allowed(Previous(t.states, e.request.challenge), e)
    ensures Step(t, e).1.Changed? ==>
              && Step(t, e).1.state == Previous(Step(t, e).0.states, e.request.challenge)
              && Leaves(Previous(t.states, e.request.challenge), e, Step(t, e).1.state)
    ensures forall c | c != e.request.challenge || !Step(t, e).1.Changed? :: Previous(Step(t, e).0.states, c) == Previous(t.states, c)
  {
    NoIssuesIff(Previous(t.states, e.request.challenge), e.request.fingerprint, e.valid);
  }

  /** A check changes nothing, and says a task can be published exactly if the same
      administrator's publish would be accepted then. */
  lemma CheckPredictsPublish(t: Tables, e: Event)
    requires e.request.action.Check? && Admitted(t, e)
    ensures var publish := e.(request := e.request.(action := Publish));
            && Step(t, e).0 == t && Step(t, e).1.Checked?
            && Step(t, e).1.revision == Previous(t.states, e.request.challenge).revision
            && (Step(t, e).1.canPublish <==> Step(t, publish).1.Changed?)
            && (Step(t, e).1.canPublish <==> Step(t, e).1.issues == [])
            && (!Step(t, e).1.canPublish ==> Step(t, publish).1 == Refused(HasIssue(Step(t, e).1.issues[0])))
  {
    ChangesIff(t, e.(request := e.request.(action := Publish)));
  }

  /** Which refusal it is, for a request that is not accepted. */
  lemma RefusalsAre(t: Tables, e: Event)
    requires !e.request.action.Check?
    ensures var r, s, reply := e.request, Previous(t.states, e.request.challenge), Step(t, e).1;
            var session := r.token in e.auth.sessions && e.auth.sessions[r.token].expires > e.now && e.auth.sessions[r.token].user in e.auth.users;
            && (!WellFormed(r, e.valid) ==> reply in {Refused(InvalidExpectedRevision), Refused(ExpectedAccountRequired), Refused(InvalidContent)})
            && (WellFormed(r, e.valid) && !session ==> reply == Refused(InvalidToken))
            && (WellFormed(r, e.valid) && session && r.expectedUser != Some(e.auth.sessions[r.token].user) ==> reply == Refused(AccountChanged))
            && (WellFormed(r, e.valid) && LiveAdmin(e.auth, e.now, r) && LiveAdmin(e.auth, e.later, r) && s.revision != r.expectedRevision
                ==> reply == Refused(RevisionConflict))
            && (Admitted(t, e) && !r.action.Save? && !SameSource(s, r.fingerprint) ==> reply == Refused(HasIssue(SourceChanged)))
            && (Admitted(t, e) && r.action.Publish? && SameSource(s, r.fingerprint) && !Publishable(s, r.fingerprint, e.valid)
                ==> reply == Refused(HasIssue(if s.draft.None? then DraftRequired else DraftInvalid)))
            && (Admitted(t, e) && r.action.Admissions? && SameSource(s, r.fingerprint) && !Allowed(s, e) ==> reply == Refused(NotOpen))
  {
  }

  // ------------------------------------------------------- content as the run's requests

  /** The run's last request is on this task and was accepted. */
  predicate TakesLast(es: seq<Event>, c: ChallengeId)
    requires es != []
  {
    es[|es| - 1].request.challenge == c && Step(Run(Empty, es[..|es| - 1]), es[|es| - 1]).1.Changed?
  }

  /** The content of the last save accepted on a task. */
  function LastSaved(es: seq<Event>, c: ChallengeId): Option<Content>
  {
    if es == [] then None
    else
      var front, last := es[..|es| - 1], es[|es| - 1].request;
      if TakesLast(es, c) && last.action.Save? then Some(last.action.content) else LastSaved(front, c)
  }

  /** What was the last saved at the last publish accepted on a task, and its source. */
  function LastPublished(es: seq<Event>, c: ChallengeId): Option<(Option<Content>, Digest)>
  {
    if es == [] then None
    else
      var front, last := es[..|es| - 1], es[|es| - 1].request;
      if TakesLast(es, c) && last.action.Publish? then Some((LastSaved(front, c), last.fingerprint)) else LastPublished(front, c)
  }

  lemma {:induction false} ContentIsTheRequests(es: seq<Event>, c: ChallengeId)
    ensures var s := Previous(Run(Empty, es).states, c);
            && s.draft == LastSaved(es, c)
            && match LastPublished(es, c)
               case None => s.published.None? && s.publishedSource.None?
               case Some(p) => s.published == p.0 && p.0.Some? && s.publishedSource == Some(p.1)
  {
    if es != [] {
      var front, e := es[..|es| - 1], es[|es| - 1];
      ContentIsTheRequests(front, c);
      ChangesIff(Run(Empty, front), e);
    }
  }

  /** In every run students see, under a source, exactly the content that the last accepted
      save before the last accepted publish was sent with, if that publish was for the
      source; nothing before the first publish. */
  lemma VisibleContentIsTheRequests(es: seq<Event>, c: ChallengeId, fingerprint: Digest, valid: Content -> bool)
    ensures PublishedContent(Previous(Run(Empty, es).states, c), fingerprint, valid)
         == match LastPublished(es, c)
            case Some((Some(content), source)) =>
              if source != fingerprint then Nothing else if valid(content) then Teaching(content) else Unreadable
            case _ => Nothing
  {
    ContentIsTheRequests(es, c);
  }
}

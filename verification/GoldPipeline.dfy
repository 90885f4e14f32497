/** From parsed treebank tokens to the dataset sample, the gold validator, the model's input
    and the scorers: what each stage promises the next. */
module GoldPipeline {
  import opened Basics
  import opened Evaluation
  import opened Aggregation

  /** A parsed row; the parser turns "_" into None except in the form. */
  datatype Token = Token(id: int, form: string, upos: Option<string>, xpos: Option<string>, head: Option<int>,
                         deprel: Option<string>, translit: Option<string>)
  datatype GoldArc = GoldArc(token: int, form: string, head: int, headForm: string, deprel: string)

  datatype Answer = Strings(items: seq<string>) | Arcs(arcs: seq<GoldArc>)
  datatype Sample = Sample(text: string, answers: map<Task, Answer>, tasks: seq<Task>)

  const MISSING := "_"
  const UPOS: set<string> := {"ADJ", "ADP", "ADV", "AUX", "CCONJ", "DET", "INTJ", "NOUN", "NUM", "PART", "PRON", "PROPN",
                              "PUNCT", "SCONJ", "SYM", "VERB", "X"}

  predicate Visible(s: string) { s != "" && s != MISSING }

  predicate AllVisible(s: seq<string>) { forall i | 0 <= i < |s| :: Visible(s[i]) }

  predicate Given(v: Option<string>) { v.Some? && Visible(v.value) }

  // ------------------------------------------------------------------------ the builder

  function Forms(ts: seq<Token>): seq<string> { seq(|ts|, i requires 0 <= i < |ts| => ts[i].form) }

  predicate VisibleForms(ts: seq<Token>) { ts != [] && forall i | 0 <= i < |ts| :: Visible(ts[i].form) }

  predicate UposKnown(ts: seq<Token>) { forall i | 0 <= i < |ts| :: ts[i].upos.Some? && ts[i].upos.value in UPOS }

  predicate XposGiven(ts: seq<Token>) { forall i | 0 <= i < |ts| :: Given(ts[i].xpos) }

  predicate TranslitGiven(ts: seq<Token>) { forall i | 0 <= i < |ts| :: Given(ts[i].translit) }

  predicate TreeGiven(ts: seq<Token>)
  {
    && (forall i | 0 <= i < |ts| :: ts[i].id == i + 1)
    && (forall i | 0 <= i < |ts| :: ts[i].head.Some? && 0 <= ts[i].head.value <= |ts|)
    && (forall i | 0 <= i < |ts| :: Given(ts[i].deprel))
  }

  function ArcOf(ts: seq<Token>, i: nat): GoldArc
    requires i < |ts| && TreeGiven(ts)
  {
    var head := ts[i].head.value;
    GoldArc(ts[i].id, ts[i].form, head, if head == 0 then "ROOT" else ts[head - 1].form, ts[i].deprel.value)
  }

  predicate Eligible(ts: seq<Token>, task: Task)
  {
    && VisibleForms(ts)
    && match task
       case Segmentation => true
       case Upos => UposKnown(ts)
       case Xpos => XposGiven(ts)
       case Dependency => TreeGiven(ts)
       case Transliteration => TranslitGiven(ts)
  }

  function AnswerOf(ts: seq<Token>, task: Task): Answer
    requires Eligible(ts, task)
  {
    match task
    case Segmentation => Strings(Forms(ts))
    case Upos => Strings(seq(|ts|, i requires 0 <= i < |ts| => ts[i].upos.value))
    case Xpos => Strings(seq(|ts|, i requires 0 <= i < |ts| => ts[i].xpos.value))
    case Dependency => Arcs(seq(|ts|, i requires 0 <= i < |ts| => ArcOf(ts, i)))
    case Transliteration => Strings(seq(|ts|, i requires 0 <= i < |ts| => ts[i].translit.value))
  }

  const ALL_TASKS: set<Task> := {Segmentation, Upos, Xpos, Dependency, Transliteration}

  function Offered(ts: seq<Token>, task: Task): seq<Task> { if Eligible(ts, task) then [task] else [] }

  function SampleOf(ts: seq<Token>, text: string): Sample
  {
    Sample(text, AnswersFor(ts, ALL_TASKS),
           Offered(ts, Segmentation) + Offered(ts, Upos) + Offered(ts, Xpos) + Offered(ts, Dependency) + Offered(ts, Transliteration))
  }

  function AnswersFor(ts: seq<Token>, tasks: set<Task>): map<Task, Answer>
  {
    map task | task in tasks && Eligible(ts, task) :: AnswerOf(ts, task)
  }

  /** One of the builder's blocks: fill the answer and append the task, if eligible. */
  method Offer(ts: seq<Token>, task: Task, answers: map<Task, Answer>, tasks: seq<Task>, ghost done: set<Task>)
    returns (answers': map<Task, Answer>, tasks': seq<Task>)
    requires answers == AnswersFor(ts, done) && task !in done
    ensures answers' == AnswersFor(ts, done + {task}) && tasks' == tasks + Offered(ts, task)
  {
    answers', tasks' := answers, tasks;
    if Eligible(ts, task) {
      answers', tasks' := answers[task := AnswerOf(ts, task)], tasks + [task];
    }
  }

  method MakeSample(ts: seq<Token>, text: string) returns (s: Sample)
    ensures s == SampleOf(ts, text)
  {
    var answers: map<Task, Answer>, tasks: seq<Task> := map[], [];
    if !VisibleForms(ts) { return Sample(text, answers, tasks); }
    answers, tasks := Offer(ts, Segmentation, answers, tasks, {});
    answers, tasks := Offer(ts, Upos, answers, tasks, {Segmentation});
    answers, tasks := Offer(ts, Xpos, answers, tasks, {Segmentation, Upos});
    answers, tasks := Offer(ts, Dependency, answers, tasks, {Segmentation, Upos, Xpos});
    answers, tasks := Offer(ts, Transliteration, answers, tasks, {Segmentation, Upos, Xpos, Dependency});
    return Sample(text, answers, tasks);
  }

  predicate Plain(v: Option<string>) { v.Some? && v.value != "" && v.value != "_" }

  predicate PlainForms(ts: seq<Token>) { ts != [] && forall i | 0 <= i < |ts| :: ts[i].form != "" && ts[i].form != "_" }

  /** What token i must give for a task. */
  predicate Gives(ts: seq<Token>, i: nat, task: Task)
    requires i < |ts|
  {
    match task
    case Segmentation => true
    case Upos => ts[i].upos.Some? && ts[i].upos.value in UPOS
    case Xpos => Plain(ts[i].xpos)
    case Transliteration => Plain(ts[i].translit)
    case Dependency => ts[i].id == i + 1 && ts[i].head.Some? && 0 <= ts[i].head.value <= |ts| && Plain(ts[i].deprel)
  }

  lemma EligibleIff(ts: seq<Token>, task: Task)
    ensures Eligible(ts, task) <==> PlainForms(ts) && forall i | 0 <= i < |ts| :: Gives(ts, i, task)
  {
    forall i | 0 <= i < |ts|
      ensures task.Upos? ==> (Gives(ts, i, task) <==> ts[i].upos.Some? && ts[i].upos.value in UPOS)
      ensures task.Xpos? ==> (Gives(ts, i, task) <==> Given(ts[i].xpos))
      ensures task.Transliteration? ==> (Gives(ts, i, task) <==> Given(ts[i].translit))
      ensures task.Dependency? ==>
                (Gives(ts, i, task) <==> ts[i].id == i + 1 && ts[i].head.Some? && 0 <= ts[i].head.value <= |ts| && Given(ts[i].deprel))
    {
    }
    var all := forall i | 0 <= i < |ts| :: Gives(ts, i, task);
    assert task.Upos? ==> (all <==> UposKnown(ts));
    assert task.Xpos? ==> (all <==> XposGiven(ts));
    assert task.Transliteration? ==> (all <==> TranslitGiven(ts));
    assert task.Dependency? ==> (all <==> TreeGiven(ts));
  }

  lemma OfferedAreEligible(ts: seq<Token>, text: string, task: Task)
    ensures task in SampleOf(ts, text).tasks <==> Eligible(ts, task)
    ensures task in SampleOf(ts, text).answers <==> Eligible(ts, task)
  {
    assert task in ALL_TASKS;
  }

  /** A task is offered, with an answer, exactly when every form is there and every token has
      its column, for dependencies with the tokens numbered from 1 and every head among them
      or the root. */
  lemma OfferedIff(ts: seq<Token>, text: string, task: Task)
    ensures task in SampleOf(ts, text).tasks <==> PlainForms(ts) && forall i | 0 <= i < |ts| :: Gives(ts, i, task)
    ensures task in SampleOf(ts, text).tasks <==> task in SampleOf(ts, text).answers
    ensures SampleOf(ts, text).text == text
  {
    OfferedAreEligible(ts, text, task);
    EligibleIff(ts, task);
  }

  /** The answer to a task is its column, token by token; an arc carries its token's number,
      form, head and relation, and the form of the token the head names. */
  lemma AnswersAreColumns(ts: seq<Token>, text: string, i: nat)
    requires i < |ts|
    ensures var answers := SampleOf(ts, text).answers;
            && (Segmentation in answers ==> answers[Segmentation].Strings? && |answers[Segmentation].items| == |ts|
                                            && answers[Segmentation].items[i] == ts[i].form)
            && (Upos in answers ==> answers[Upos].Strings? && |answers[Upos].items| == |ts| && Some(answers[Upos].items[i]) == ts[i].upos)
            && (Xpos in answers ==> answers[Xpos].Strings? && |answers[Xpos].items| == |ts| && Some(answers[Xpos].items[i]) == ts[i].xpos)
            && (Transliteration in answers ==> answers[Transliteration].Strings? && |answers[Transliteration].items| == |ts|
                                               && Some(answers[Transliteration].items[i]) == ts[i].translit)
            && (Dependency in answers ==> answers[Dependency].Arcs? && |answers[Dependency].arcs| == |ts|
                                          && ArcIsOf(answers[Dependency].arcs[i], ts, i))
  {
  }

  predicate ArcIsOf(a: GoldArc, ts: seq<Token>, i: nat)
    requires i < |ts|
  {
    && a.token == ts[i].id && a.form == ts[i].form && Some(a.head) == ts[i].head && Some(a.deprel) == ts[i].deprel
    && (a.head == 0 ==> a.headForm == "ROOT")
    && (a.head != 0 ==> exists j | 0 <= j < |ts| :: ts[j].id == a.head && ts[j].form == a.headForm)
  }

  // ---------------------------------------------------------------------- the validator

  function FixedTokens(s: Sample): Option<seq<string>>
  {
    if Segmentation in s.answers && s.answers[Segmentation].Strings? && s.answers[Segmentation].items != []
       && AllVisible(s.answers[Segmentation].items)
    then Some(s.answers[Segmentation].items) else None
  }

  predicate ArcAligned(a: GoldArc, tokens: seq<string>)
  {
    && 0 < a.token <= |tokens|
    && 0 <= a.head <= |tokens|
    && a.form != "" && a.headForm != "" && a.deprel != ""
    && a.form == tokens[a.token - 1]
    && a.headForm == if a.head == 0 then "ROOT" else tokens[a.head - 1]
  }

  function ArcTokens(arcs: seq<GoldArc>): set<int>
  {
    if arcs == [] then {} else ArcTokens(arcs[..|arcs| - 1]) + {arcs[|arcs| - 1].token}
  }

  /** The arc at i is aligned and its token was not seen before. */
  predicate ArcFits(arcs: seq<GoldArc>, i: nat, tokens: seq<string>)
    requires i < |arcs|
  {
    ArcAligned(arcs[i], tokens) && arcs[i].token !in ArcTokens(arcs[..i])
  }

  predicate TreeAligned(arcs: seq<GoldArc>, tokens: seq<string>)
  {
    && |arcs| == |tokens|
    && (forall i | 0 <= i < |arcs| :: ArcFits(arcs, i, tokens))
    && ArcTokens(arcs) == Range(1, |arcs|)
  }

  /** What the validator demands of one answer against the segmentation. */
  predicate AnswerAccepted(a: Answer, task: Task, tokens: seq<string>)
  {
    match a
    case Arcs(arcs) => task.Dependency? && arcs != [] && TreeAligned(arcs, tokens)
    case Strings(items) =>
      && !task.Dependency? && items != [] && |items| == |tokens| && AllVisible(items)
      && (task.Upos? ==> forall i | 0 <= i < |items| :: items[i] in UPOS)
  }

  /** The items the validator counts, or None when it raises. */
  predicate Accepted(s: Sample, task: Task)
  {
    FixedTokens(s).Some? && task in s.answers && AnswerAccepted(s.answers[task], task, FixedTokens(s).value)
  }

  method ValidatedGoldItemCount(s: Sample, task: Task) returns (count: Option<nat>)
    ensures count.Some? <==> Accepted(s, task)
    ensures count.Some? ==> count.value == |FixedTokens(s).value|
  {
    var fixed := FixedTokens(s);
    if fixed.None? { return None; }
    var tokens := fixed.value;
    if task.Segmentation? { return Some(|tokens|); }
    if task !in s.answers { return None; }
    match s.answers[task] {
      case Strings(items) =>
        if task.Dependency? || items == [] || |items| != |tokens| || !AllVisible(items) { return None; }
        if task.Upos? && exists i | 0 <= i < |items| :: items[i] !in UPOS { return None; }
        return Some(|items|);
      case Arcs(arcs) =>
        if !task.Dependency? || arcs == [] || |arcs| != |tokens| { return None; }
        var aligned := ChecksTree(arcs, tokens);
        if !aligned { return None; }
        return Some(|arcs|);
    }
  }

  /** The loop over the arcs, collecting the token numbers seen. */
  method ChecksTree(arcs: seq<GoldArc>, tokens: seq<string>) returns (ok: bool)
    requires |arcs| == |tokens|
    ensures ok <==> TreeAligned(arcs, tokens)
  {
    var seen: set<int> := {};
    for i := 0 to |arcs|
      invariant seen == ArcTokens(arcs[..i])
      invariant forall j | 0 <= j < i :: ArcFits(arcs, j, tokens)
    {
      if !ArcAligned(arcs[i], tokens) || arcs[i].token in seen {
        assert !ArcFits(arcs, i, tokens);
        return false;
      }
      assert arcs[..i + 1][..i] == arcs[..i];
      seen := seen + {arcs[i].token};
    }
    assert arcs[..|arcs|] == arcs;
    return seen == Range(1, |arcs|);
  }

  /** Token t has an arc. */
  predicate HasArc(arcs: seq<GoldArc>, t: int) { exists i | 0 <= i < |arcs| :: arcs[i].token == t }

  /** The arc names its token's form, and its head's or the root. */
  predicate NamesForms(a: GoldArc, tokens: seq<string>)
  {
    && 1 <= a.token <= |tokens| && a.form == tokens[a.token - 1] && a.deprel != ""
    && ((a.head == 0 && a.headForm == "ROOT") || (1 <= a.head <= |tokens| && a.headForm == tokens[a.head - 1]))
  }

  lemma {:induction false} ArcTokensAre(arcs: seq<GoldArc>, t: int)
    ensures t in ArcTokens(arcs) <==> exists i | 0 <= i < |arcs| :: arcs[i].token == t
  {
    if arcs != [] {
      var front := arcs[..|arcs| - 1];
      ArcTokensAre(front, t);
      assert forall i | 0 <= i < |front| :: front[i] == arcs[i];
    }
  }

  function TokenNumbers(arcs: seq<GoldArc>): seq<int> { seq(|arcs|, i requires 0 <= i < |arcs| => arcs[i].token) }

  lemma NumbersAreDistinct(arcs: seq<GoldArc>, tokens: seq<string>)
    requires |arcs| == |tokens| && (forall i | 0 <= i < |arcs| :: NamesForms(arcs[i], tokens))
    requires forall t | 1 <= t <= |tokens| :: HasArc(arcs, t)
    ensures Distinct(TokenNumbers(arcs)) && ArcTokens(arcs) == Range(1, |arcs|)
  {
    var numbers := TokenNumbers(arcs);
    forall t ensures t in Elems(numbers) <==> t in Range(1, |arcs|) {
      if 1 <= t <= |arcs| {
        assert HasArc(arcs, t);
        var i :| 0 <= i < |arcs| && arcs[i].token == t;
        assert numbers[i] == t;
      }
    }
    assert Elems(numbers) == Range(1, |arcs|);
    DistinctSize(numbers);
    forall t ensures t in ArcTokens(arcs) <==> t in Range(1, |arcs|) { ArcTokensAre(arcs, t); }
  }

  /** A tree is aligned exactly when there are as many arcs as tokens, one for each, and each
      names its token's form and its head's. */
  lemma AlignedIff(arcs: seq<GoldArc>, tokens: seq<string>)
    requires AllVisible(tokens)
    ensures TreeAligned(arcs, tokens)
       <==> |arcs| == |tokens| && (forall i | 0 <= i < |arcs| :: NamesForms(arcs[i], tokens)) && (forall t | 1 <= t <= |tokens| :: HasArc(arcs, t))
  {
    if TreeAligned(arcs, tokens) {
      forall i | 0 <= i < |arcs| ensures NamesForms(arcs[i], tokens) { assert ArcFits(arcs, i, tokens); }
      forall t | 1 <= t <= |tokens| ensures HasArc(arcs, t) { ArcTokensAre(arcs, t); }
    } else if |arcs| == |tokens| && (forall i | 0 <= i < |arcs| :: NamesForms(arcs[i], tokens)) && (forall t | 1 <= t <= |tokens| :: HasArc(arcs, t)) {
      NumbersAreDistinct(arcs, tokens);
      forall i | 0 <= i < |arcs| ensures ArcFits(arcs, i, tokens) {
        ArcTokensAre(arcs[..i], arcs[i].token);
        assert NamesForms(arcs[i], tokens);
        assert forall j | 0 <= j < i :: arcs[..i][j] == arcs[j] && TokenNumbers(arcs)[j] != TokenNumbers(arcs)[i];
      }
    }
  }

  /** What the validator accepts, of the answers themselves: visible items, one for each token
      of a visible segmentation, tags of the universal set, and an aligned tree. */
  lemma AcceptedIff(s: Sample, task: Task)
    ensures Accepted(s, task)
       <==> && Segmentation in s.answers && s.answers[Segmentation].Strings? && s.answers[Segmentation].items != []
            && (forall i | 0 <= i < |s.answers[Segmentation].items| :: s.answers[Segmentation].items[i] !in {"", "_"})
            && task in s.answers
            && var (a, tokens) := (s.answers[task], s.answers[Segmentation].items);
               if task.Dependency? then
                 && a.Arcs? && |a.arcs| == |tokens| && (forall i | 0 <= i < |a.arcs| :: NamesForms(a.arcs[i], tokens))
                 && (forall t | 1 <= t <= |tokens| :: HasArc(a.arcs, t))
               else
                 && a.Strings? && |a.items| == |tokens|
                 && (forall i | 0 <= i < |a.items| :: a.items[i] !in {"", "_"} && (task.Upos? ==> a.items[i] in UPOS))
  {
    if FixedTokens(s).Some? && task.Dependency? && task in s.answers && s.answers[task].Arcs? {
      AlignedIff(s.answers[task].arcs, FixedTokens(s).value);
    }
  }

  // -------------------------------------------------------------------- the model's input

  datatype ModelInput =
    | SegmentationInput(text: string)
    | TaggingInput(tokens: seq<string>)
    | DependencyInput(numbered: seq<(int, string)>)
    | TransliterationInput(text: string, tokens: seq<string>)

  predicate NonEmptyStrings(tokens: seq<string>) { tokens != [] && forall i | 0 <= i < |tokens| :: tokens[i] != "" }

  /** What the constructors of the inputs demand. */
  predicate ValidInput(m: ModelInput)
  {
    match m
    case SegmentationInput(text) => text != ""
    case TaggingInput(tokens) => NonEmptyStrings(tokens)
    case DependencyInput(numbered) =>
      numbered != [] && forall i | 0 <= i < |numbered| :: numbered[i].0 == i + 1 && numbered[i].1 != ""
    case TransliterationInput(text, tokens) => text != "" && NonEmptyStrings(tokens)
  }

  /** The input, or None where its constructor raises. */
  function Construct(m: ModelInput): Option<ModelInput> { if ValidInput(m) then Some(m) else None }

  function BuildModelInput(s: Sample, task: Task): Option<ModelInput>
  {
    match FixedTokens(s)
    case None => None
    case Some(tokens) =>
      match task
      case Segmentation => Construct(SegmentationInput(Surface(tokens)))
      case Upos => Construct(TaggingInput(tokens))
      case Xpos => Construct(TaggingInput(tokens))
      case Dependency => Construct(DependencyInput(seq(|tokens|, i requires 0 <= i < |tokens| => (i + 1, tokens[i]))))
      case Transliteration => Construct(TransliterationInput(s.text, tokens))
  }

  function TokensShown(m: ModelInput): seq<string>
  {
    match m
    case SegmentationInput(_) => []
    case TaggingInput(tokens) => tokens
    case DependencyInput(numbered) => seq(|numbered|, i requires 0 <= i < |numbered| => numbered[i].1)
    case TransliterationInput(_, tokens) => tokens
  }

  predicate InputMatches(task: Task, m: ModelInput)
  {
    match task
    case Segmentation => m.SegmentationInput?
    case Upos => m.TaggingInput?
    case Xpos => m.TaggingInput?
    case Dependency => m.DependencyInput?
    case Transliteration => m.TransliterationInput?
  }

  /** An input rebuilt from its own fields; None where the type or a field is wrong. */
  function Canonicalize(task: Task, m: ModelInput): Option<ModelInput>
  {
    if !InputMatches(task, m) then None
    else match m
      case SegmentationInput(text) => Construct(SegmentationInput(text))
      case TaggingInput(tokens) => Construct(TaggingInput(tokens))
      case DependencyInput(numbered) =>
        Construct(DependencyInput(seq(|numbered|, i requires 0 <= i < |numbered| => (numbered[i].0, numbered[i].1))))
      case TransliterationInput(text, tokens) => Construct(TransliterationInput(text, tokens))
  }

  /** Expected item count and token numbers of the canonical input. */
  function ResponseExpectations(task: Task, m: ModelInput): Option<(Option<nat>, Option<seq<int>>)>
  {
    match Canonicalize(task, m)
    case None => None
    case Some(SegmentationInput(_)) => Some((None, None))
    case Some(TaggingInput(tokens)) => Some((Some(|tokens|), None))
    case Some(DependencyInput(numbered)) =>
      Some((Some(|numbered|), Some(seq(|numbered|, i requires 0 <= i < |numbered| => numbered[i].0))))
    case Some(TransliterationInput(_, tokens)) => Some((Some(|tokens|), None))
  }

  // ------------------------------------------------------------------------ main results

  lemma {:induction false} ConsecutiveArcs(arcs: seq<GoldArc>)
    requires forall i | 0 <= i < |arcs| :: arcs[i].token == i + 1
    ensures forall t :: t in ArcTokens(arcs) <==> 1 <= t <= |arcs|
  {
    if arcs != [] {
      ConsecutiveArcs(arcs[..|arcs| - 1]);
    }
  }

  lemma BuiltTreeAligns(ts: seq<Token>)
    requires VisibleForms(ts) && TreeGiven(ts)
    ensures TreeAligned(seq(|ts|, i requires 0 <= i < |ts| => ArcOf(ts, i)), Forms(ts))
  {
    var arcs := seq(|ts|, i requires 0 <= i < |ts| => ArcOf(ts, i));
    var forms := Forms(ts);
    forall i | 0 <= i < |arcs|
      ensures ArcFits(arcs, i, forms)
    {
      assert arcs[i] == ArcOf(ts, i) && ts[i].id == i + 1 && Visible(ts[i].form) && Given(ts[i].deprel);
      ConsecutiveArcs(arcs[..i]);
    }
    ConsecutiveArcs(arcs);
    assert ArcTokens(arcs) == Range(1, |arcs|);
  }

  lemma EligibleIsAccepted(ts: seq<Token>, task: Task)
    requires Eligible(ts, task)
    ensures AnswerAccepted(AnswerOf(ts, task), task, Forms(ts))
  {
    if task.Dependency? { BuiltTreeAligns(ts); }
    assert UPOS !! {"", MISSING};
  }

  /** The builder advertises exactly the tasks whose gold the validator accepts. */
  lemma AdvertisedIffAccepted(ts: seq<Token>, text: string, task: Task)
    ensures task in SampleOf(ts, text).tasks <==> Accepted(SampleOf(ts, text), task)
  {
    var s := SampleOf(ts, text);
    assert task in ALL_TASKS && Segmentation in ALL_TASKS;
    if Eligible(ts, task) {
      assert FixedTokens(s) == Some(Forms(ts));
      EligibleIsAccepted(ts, task);
    }
  }

  lemma CountedUp(s: seq<int>, n: nat)
    requires |s| == n && forall i | 0 <= i < n :: s[i] == i + 1
    ensures Elems(s) == Range(1, n)
  {
    forall x | 1 <= x <= n ensures x in s { assert s[x - 1] == x; }
  }

  /** Rebuilding accepts exactly the well-formed inputs of the task, and changes none. */
  lemma CanonicalIffWellFormed(task: Task, m: ModelInput)
    ensures Canonicalize(task, m) == if InputMatches(task, m) && ValidInput(m) then Some(m) else None
  {
    if m.DependencyInput? {
      assert seq(|m.numbered|, i requires 0 <= i < |m.numbered| => (m.numbered[i].0, m.numbered[i].1)) == m.numbered;
    }
  }

  /** An input is built exactly for samples with gold tokens, and text where it is shown. */
  lemma BuiltIffTokens(s: Sample, task: Task)
    ensures BuildModelInput(s, task).Some? <==> FixedTokens(s).Some? && (task.Transliteration? ==> s.text != "")
    ensures BuildModelInput(s, task).Some? ==> Canonicalize(task, BuildModelInput(s, task).value) == BuildModelInput(s, task)
  {
    if FixedTokens(s).Some? {
      EmptySurface(FixedTokens(s).value);
      var m := BuildModelInput(s, task);
      if m.Some? { CanonicalIffWellFormed(task, m.value); }
    }
  }

  /** An accepted sample with text is shown its gold tokens, one expected item for each. */
  lemma CountsAgreeAcrossStages(s: Sample, task: Task)
    requires Accepted(s, task) && s.text != ""
    ensures BuildModelInput(s, task).Some? && ResponseExpectations(task, BuildModelInput(s, task).value).Some?
    ensures var (count, ids) := ResponseExpectations(task, BuildModelInput(s, task).value).value;
            && (task.Segmentation? <==> count.None?)
            && (!task.Segmentation? ==> count.value == |FixedTokens(s).value|
                                        && TokensShown(BuildModelInput(s, task).value) == FixedTokens(s).value)
            && (task.Transliteration? ==> BuildModelInput(s, task).value.text == s.text)
            && (task.Dependency? <==> ids.Some?)
            && (task.Dependency? ==> Elems(ids.value) == ArcTokens(s.answers[task].arcs))
  {
    BuiltIffTokens(s, task);
    if task.Dependency? {
      var (count, ids) := ResponseExpectations(task, BuildModelInput(s, task).value).value;
      CountedUp(ids.value, |FixedTokens(s).value|);
      assert Elems(ids.value) == Range(1, |FixedTokens(s).value|);
    }
  }

  /** A prediction keeps the surface exactly when it concatenates to the text shown. */
  lemma ValidSurfaceIffTextShown(s: Sample, predicted: seq<string>)
    requires Accepted(s, Segmentation) && ValidTokens(predicted)
    ensures ScoreSegmentation(FixedTokens(s).value, predicted).Some?
    ensures ScoreSegmentation(FixedTokens(s).value, predicted).value.validSurface
       <==> BuildModelInput(s, Segmentation) == Some(SegmentationInput(Surface(predicted)))
  {
    BuiltIffTokens(s, Segmentation);
  }

  function Unlabel(arcs: seq<GoldArc>): seq<Arc>
  {
    seq(|arcs|, i requires 0 <= i < |arcs| => Arc(arcs[i].token, arcs[i].head, arcs[i].deprel))
  }

  lemma {:induction false} SameTokens(arcs: seq<GoldArc>)
    ensures Evaluation.Tokens(Unlabel(arcs)) == ArcTokens(arcs)
  {
    if arcs != [] {
      SameTokens(arcs[..|arcs| - 1]);
      assert Unlabel(arcs)[..|arcs| - 1] == Unlabel(arcs[..|arcs| - 1]);
    }
  }

  lemma GoldTreeIndexes(arcs: seq<GoldArc>, tokens: seq<string>)
    requires TreeAligned(arcs, tokens)
    ensures IndexArcs(Unlabel(arcs)).Some?
  {
    var a := Unlabel(arcs);
    forall i | 0 <= i < |a| ensures ValidArc(a[i]) && a[i].token !in Evaluation.Tokens(a[..i]) {
      SameTokens(arcs[..i]);
      assert Unlabel(arcs[..i]) == a[..i];
      assert ArcFits(arcs, i, tokens);
    }
    DistinctArcsIndex(a);
  }

  lemma SelfScoresOne(a: seq<Arc>)
    requires a != [] && IndexArcs(a).Some?
    ensures ScoreDependencies(a, a) == Some(DependencyScore(1.0, 1.0, |a|, |a|, |a|, true))
  {
    IndexKeys(a);
    var m := IndexArcs(a).value;
    assert HeadMatches(m, m) == m.Keys && LabelMatches(m, m) == m.Keys;
    RatioIsOne(|a|, |a|);
  }

  /** Gold handed back as the prediction scores 1 in every task the validator accepts. */
  ghost predicate ScoresOne(s: Sample, task: Task, nfc: string -> string)
    requires Accepted(s, task)
  {
    var n := |FixedTokens(s).value|;
    match s.answers[task]
    case Arcs(arcs) => ScoreDependencies(Unlabel(arcs), Unlabel(arcs)) == Some(DependencyScore(1.0, 1.0, n, n, n, true))
    case Strings(items) =>
      if task.Segmentation? then
        ScoreSegmentation(items, items) == Some(SegmentationScore(1.0, 1.0, 1.0, n, n, n, true, true))
      else if task.Transliteration? then
        ScoreTransliteration(items, items, nfc) == Some(TransliterationScore(1.0, n, n, true, true))
      else ScoreTags(items, items) == Some(TaggingScore(1.0, n, n, true))
  }

  lemma GoldAsPredictionScoresOne(s: Sample, task: Task, nfc: string -> string)
    requires Accepted(s, task)
    ensures ScoresOne(s, task, nfc)
  {
    match s.answers[task]
    case Arcs(arcs) =>
      GoldTreeIndexes(arcs, FixedTokens(s).value);
      SelfScoresOne(Unlabel(arcs));
    case Strings(items) =>
      assert ValidTokens(items);
      RatioIsOne(|items|, |items|);
      if task.Segmentation? {
        PerfectExactlyWhenIdentical(items, items);
        OneSpanPerToken(items);
        assert Spans(items) * Spans(items) == Spans(items);
      } else if task.Transliteration? {
        MatchesBounds(Normalized(items, nfc), Normalized(items, nfc));
      } else {
        MatchesBounds(items, items);
      }
  }
}

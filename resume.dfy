/**
  The resume page (`ResumeAnalyser`): the user id sent with every request,
  the ordered checks each of the three requests makes before anything is
  sent, the cleaning of the structured resume before generation, and the
  form editor that updates, appends and removes entries of its nested lists.
 */
module Resume {
  import opened JsText
  import opened JsArray

  // ---------------------------------------------------------------------------
  // getUserId
  // ---------------------------------------------------------------------------

  /** The fields of the signed-in account that the page reads. */
  datatype User = User(username: Option<JsString>, primaryEmail: Option<JsString>, id: JsString)

  /** `getUserId()`: `null` without a user, otherwise
      `user.username || user.primaryEmailAddress?.emailAddress || user.id`. */
  function GetUserId(user: Option<User>): (r: Option<JsString>)
    ensures user.None? <==> r.None?
  {
    if user.None? then None
    else Some(FirstTruthy([user.value.username, user.value.primaryEmail], NonEmpty, user.value.id))
  }

  /** `!!userId`: the id is neither null nor the empty string. */
  predicate Identified(userId: Option<JsString>) {
    userId.Some? && userId.value != []
  }

  /** The username takes precedence, then the primary e-mail, then the id. */
  lemma UserIdPriority(u: User)
    ensures Truthy(u.username, NonEmpty) ==> GetUserId(Some(u)) == u.username
    ensures !Truthy(u.username, NonEmpty) && Truthy(u.primaryEmail, NonEmpty) ==>
      GetUserId(Some(u)) == u.primaryEmail
    ensures !Truthy(u.username, NonEmpty) && !Truthy(u.primaryEmail, NonEmpty) ==>
      GetUserId(Some(u)) == Some(u.id)
  {
    var fields := [u.username, u.primaryEmail];
    assert fields[0] == u.username && fields[1] == u.primaryEmail;
  }

  /** A user is identified exactly when one of the three fields is non-empty;
      without a user there is no id at all. */
  lemma IdentifiedIffSomeField(user: Option<User>)
    ensures Identified(GetUserId(user)) <==>
      user.Some? && (Truthy(user.value.username, NonEmpty) || Truthy(user.value.primaryEmail, NonEmpty)
                     || user.value.id != [])
  {
    if user.Some? {
      UserIdPriority(user.value);
    }
  }

  // ---------------------------------------------------------------------------
  // Ordered validation before a request
  // ---------------------------------------------------------------------------

  /** The checks a request can fail, each with the message it shows. */
  datatype ValidationError =
    | NotSignedIn
    | MissingResumeFields
    | MissingTargetRole
    | UnknownUser
    | MissingNameOrEmail

  function Message(e: ValidationError): JsString {
    match e
    case NotSignedIn => Lit("Please sign in to use this feature")
    case MissingResumeFields => Lit("Please fill in both resume text and target role")
    case MissingTargetRole => Lit("Please specify a target role")
    case UnknownUser => Lit("Unable to identify user")
    case MissingNameOrEmail => Lit("Please fill in at least name and email")
  }

  datatype Checked<+T> = Pass(value: T) | Fail(error: ValidationError)

  /** The checks of `handleAnalyze` and `handleEnhance`; on success, the id
      to send. */
  function ValidateTextRequest(signedIn: bool, resumeText: JsString, targetRole: JsString,
                               userId: Option<JsString>): (r: Checked<JsString>)
    ensures r.Pass? ==> signedIn && Some(r.value) == userId && r.value != []
  {
    if !signedIn then Fail(NotSignedIn)
    else if IsBlank(resumeText) || IsBlank(targetRole) then Fail(MissingResumeFields)
    else if !Identified(userId) then Fail(UnknownUser)
    else Pass(userId.value)
  }

  /** The checks run in order (signed in, then resume text and role non-blank,
      then a user id): each failure is reported exactly when every earlier
      check passed, and a request passes only with all three. */
  lemma TextRequestChecksInOrder(signedIn: bool, resumeText: JsString, targetRole: JsString,
                                 userId: Option<JsString>)
    ensures var r := ValidateTextRequest(signedIn, resumeText, targetRole, userId);
      && (r == Fail(NotSignedIn) <==> !signedIn)
      && (r == Fail(MissingResumeFields) <==> signedIn && (IsBlank(resumeText) || IsBlank(targetRole)))
      && (r == Fail(UnknownUser) <==> signedIn && !IsBlank(resumeText) && !IsBlank(targetRole) && !Identified(userId))
      && (r.Pass? <==> signedIn && !IsBlank(resumeText) && !IsBlank(targetRole) && Identified(userId))
      && (r.Pass? ==> Some(r.value) == userId)
  {
  }

  /** `disabled={loading || !resumeText.trim() || !targetRole.trim() || !isSignedIn}`, negated. */
  predicate TextRequestEnabled(loading: bool, signedIn: bool, resumeText: JsString, targetRole: JsString) {
    !loading && !IsBlank(resumeText) && !IsBlank(targetRole) && signedIn
  }

  /** Through the enabled Analyze/Enhance button, the only check that can
      still fail is the user id. */
  lemma EnabledTextRequestFailsOnlyOnUser(loading: bool, signedIn: bool, resumeText: JsString,
                                          targetRole: JsString, userId: Option<JsString>)
    requires TextRequestEnabled(loading, signedIn, resumeText, targetRole)
    ensures var r := ValidateTextRequest(signedIn, resumeText, targetRole, userId);
      r.Pass? || r == Fail(UnknownUser)
  {
  }

  // ---------------------------------------------------------------------------
  // The structured resume and cleanedData
  // ---------------------------------------------------------------------------

  datatype PersonalInfo = PersonalInfo(name: JsString, email: JsString, phone: JsString,
                                       location: JsString, linkedin: JsString)

  datatype Experience = Experience(title: JsString, company: JsString, duration: JsString,
                                   highlights: seq<JsString>)

  datatype Education = Education(degree: JsString, institution: JsString, year: JsString)

  datatype ResumeData = ResumeData(
    personalInfo: PersonalInfo,
    summary: JsString,
    experience: seq<Experience>,
    education: seq<Education>,
    skills: seq<JsString>,
    certifications: seq<JsString>,
    targetRole: JsString)

  const EmptyExperience := Experience([], [], [], [[]])
  const EmptyEducation := Education([], [], [])

  /** The form's initial state: every list holds one empty entry. */
  const InitialData := ResumeData(PersonalInfo([], [], [], [], []), [], [EmptyExperience],
                                  [EmptyEducation], [[]], [[]], [])

  /** `s.trim()` is truthy. */
  predicate NotBlank(s: JsString) {
    !IsBlank(s)
  }

  /** `exp.title.trim() || exp.company.trim()`. */
  predicate KeepExperience(e: Experience) {
    NotBlank(e.title) || NotBlank(e.company)
  }

  /** `edu.degree.trim() || edu.institution.trim()`. */
  predicate KeepEducation(e: Education) {
    NotBlank(e.degree) || NotBlank(e.institution)
  }

  /** `{ ...exp, highlights: exp.highlights.filter(h => h.trim()) }`. */
  function CleanHighlights(e: Experience): (r: Experience)
    ensures r.title == e.title && r.company == e.company && r.duration == e.duration
    ensures forall h | h in r.highlights :: h in e.highlights && NotBlank(h)
    ensures forall h | h in e.highlights && NotBlank(h) :: h in r.highlights
    ensures forall h | h in e.highlights ::
      multiset(r.highlights)[h] == if NotBlank(h) then multiset(e.highlights)[h] else 0
    ensures IsSubsequence(r.highlights, e.highlights)
  {
    FilterIsSubsequence(e.highlights, NotBlank);
    e.(highlights := Filter(e.highlights, NotBlank))
  }

  function CleanAll(es: seq<Experience>): (r: seq<Experience>)
    ensures |r| == |es|
    ensures forall i | 0 <= i < |r| :: r[i] == CleanHighlights(es[i])
  {
    seq(|es|, i requires 0 <= i < |es| => CleanHighlights(es[i]))
  }

  /** `cleanedData`: the resume with its four lists filtered. */
  function CleanedData(d: ResumeData): (r: ResumeData)
    ensures r.personalInfo == d.personalInfo && r.summary == d.summary && r.targetRole == d.targetRole
    ensures |r.experience| <= |d.experience| && |r.education| <= |d.education|
    ensures |r.skills| <= |d.skills| && |r.certifications| <= |d.certifications|
  {
    d.(experience := CleanAll(Filter(d.experience, KeepExperience)),
       education := Filter(d.education, KeepEducation),
       skills := Filter(d.skills, NotBlank),
       certifications := Filter(d.certifications, NotBlank))
  }

  /** Only the four lists change. Every experience entry with a title or
      company is kept with its blank highlights dropped, and every cleaned
      entry is such an entry; nothing kept is trimmed. */
  lemma CleanedDataSpec(d: ResumeData)
    ensures var r := CleanedData(d);
      && r.personalInfo == d.personalInfo && r.summary == d.summary && r.targetRole == d.targetRole
      && (forall e | e in r.experience :: KeepExperience(e) && forall h | h in e.highlights :: NotBlank(h))
      && (forall e | e in d.experience && KeepExperience(e) :: CleanHighlights(e) in r.experience)
      && (forall e | e in r.experience ::
            exists e0 | e0 in d.experience && KeepExperience(e0) :: e == CleanHighlights(e0))
  {
    var kept := Filter(d.experience, KeepExperience);
    var cleaned := CleanAll(kept);
    assert forall e | e in cleaned :: exists i | 0 <= i < |kept| :: e == CleanHighlights(kept[i]);
    assert forall i | 0 <= i < |kept| :: kept[i] in kept;
    assert forall e | e in d.experience && KeepExperience(e) ::
      exists i | 0 <= i < |kept| :: kept[i] == e && cleaned[i] == CleanHighlights(e);
  }

  /** Education entries with a degree or institution are kept, and blank
      skills and certifications are dropped; every kept entry stays as often
      as it occurs, untrimmed, and nothing else is kept. */
  lemma CleanedListsSpec(d: ResumeData)
    ensures var r := CleanedData(d);
      && (forall e | e in r.education :: e in d.education && KeepEducation(e))
      && (forall e | e in d.education ::
            multiset(r.education)[e] == if KeepEducation(e) then multiset(d.education)[e] else 0)
      && (forall s | s in r.skills :: s in d.skills && NotBlank(s))
      && (forall s | s in d.skills ::
            multiset(r.skills)[s] == if NotBlank(s) then multiset(d.skills)[s] else 0)
      && (forall s | s in r.certifications :: s in d.certifications && NotBlank(s))
      && (forall s | s in d.certifications ::
            multiset(r.certifications)[s] == if NotBlank(s) then multiset(d.certifications)[s] else 0)
  {
  }

  /** Cleaning keeps the order of every list. The cleaned experience list is,
      entry by entry, the kept entries (those with a title or company, each
      as often as it occurs, in order) with their highlights cleaned. */
  lemma CleaningKeepsOrder(d: ResumeData)
    ensures IsSubsequence(CleanedData(d).education, d.education)
    ensures IsSubsequence(CleanedData(d).skills, d.skills)
    ensures IsSubsequence(CleanedData(d).certifications, d.certifications)
    ensures var kept := Filter(d.experience, KeepExperience);
      && IsSubsequence(kept, d.experience)
      && (forall e | e in d.experience ::
            multiset(kept)[e] == if KeepExperience(e) then multiset(d.experience)[e] else 0)
      && |CleanedData(d).experience| == |kept|
      && (forall i | 0 <= i < |kept| :: CleanedData(d).experience[i] == CleanHighlights(kept[i]))
  {
    FilterIsSubsequence(d.education, KeepEducation);
    FilterIsSubsequence(d.skills, NotBlank);
    FilterIsSubsequence(d.certifications, NotBlank);
    FilterIsSubsequence(d.experience, KeepExperience);
  }

  /** Cleaning a cleaned resume changes nothing. */
  lemma CleaningIdempotent(d: ResumeData)
    ensures CleanedData(CleanedData(d)) == CleanedData(d)
  {
    var c := CleanedData(d);
    CleanedExperienceIsStable(d.experience);
    FilterIdempotent(d.education, KeepEducation);
    FilterIdempotent(d.skills, NotBlank);
    FilterIdempotent(d.certifications, NotBlank);
  }

  /** The experience list after cleaning keeps every entry and every highlight
      when cleaned again. */
  lemma CleanedExperienceIsStable(es: seq<Experience>)
    ensures var c := CleanAll(Filter(es, KeepExperience));
      CleanAll(Filter(c, KeepExperience)) == c
  {
    var kept := Filter(es, KeepExperience);
    var c := CleanAll(kept);
    CleanedEntriesAreClean(kept);
    FilterAllPass(c, KeepExperience);
  }

  lemma CleanedEntriesAreClean(kept: seq<Experience>)
    requires forall e | e in kept :: KeepExperience(e)
    ensures forall e | e in CleanAll(kept) :: KeepExperience(e)
    ensures CleanAll(CleanAll(kept)) == CleanAll(kept)
  {
    var c := CleanAll(kept);
    forall i | 0 <= i < |c|
      ensures KeepExperience(c[i]) && CleanHighlights(c[i]) == c[i]
    {
      assert kept[i] in kept;
      FilterAllPass(c[i].highlights, NotBlank);
    }
  }

  /** What `handleGenerate` sends: the user id and the cleaned resume. */
  datatype GenerateRequest = GenerateRequest(userId: JsString, data: ResumeData)

  /** The checks of `handleGenerate`; on success, the request to send. */
  function ValidateGenerate(signedIn: bool, d: ResumeData, userId: Option<JsString>): (r: Checked<GenerateRequest>)
    ensures r.Pass? ==> signedIn && Some(r.value.userId) == userId && r.value.userId != []
  {
    if !signedIn then Fail(NotSignedIn)
    else if IsBlank(d.targetRole) then Fail(MissingTargetRole)
    else if !Identified(userId) then Fail(UnknownUser)
    else if IsBlank(d.personalInfo.name) || IsBlank(d.personalInfo.email) then Fail(MissingNameOrEmail)
    else Pass(GenerateRequest(userId.value, CleanedData(d)))
  }

  /** The checks run in order (signed in, target role non-blank, a user id,
      then name and e-mail non-blank): each failure is reported exactly when
      every earlier check passed, and a passing request carries the id and
      the cleaned resume. */
  lemma GenerateChecksInOrder(signedIn: bool, d: ResumeData, userId: Option<JsString>)
    ensures var r := ValidateGenerate(signedIn, d, userId);
      && (r == Fail(NotSignedIn) <==> !signedIn)
      && (r == Fail(MissingTargetRole) <==> signedIn && IsBlank(d.targetRole))
      && (r == Fail(UnknownUser) <==> signedIn && NotBlank(d.targetRole) && !Identified(userId))
      && (r == Fail(MissingNameOrEmail) <==>
            signedIn && NotBlank(d.targetRole) && Identified(userId) &&
            (IsBlank(d.personalInfo.name) || IsBlank(d.personalInfo.email)))
      && (r.Pass? <==>
            signedIn && NotBlank(d.targetRole) && Identified(userId) &&
            NotBlank(d.personalInfo.name) && NotBlank(d.personalInfo.email))
      && (r.Pass? ==> Some(r.value.userId) == userId && r.value.data == CleanedData(d))
  {
  }

  /** The Generate button: `disabled={loading || !target_role.trim() ||
      !name.trim() || !email.trim() || !isSignedIn}`, negated. */
  predicate GenerateEnabled(loading: bool, signedIn: bool, d: ResumeData) {
    !loading && NotBlank(d.targetRole) && NotBlank(d.personalInfo.name) &&
    NotBlank(d.personalInfo.email) && signedIn
  }

  /** Through the enabled Generate button, the only check that can still fail
      is the user id; a request that passes carries a role, a name and an
      e-mail. */
  lemma EnabledGenerateFailsOnlyOnUser(loading: bool, signedIn: bool, d: ResumeData, userId: Option<JsString>)
    requires GenerateEnabled(loading, signedIn, d)
    ensures var r := ValidateGenerate(signedIn, d, userId);
      (r.Pass? <==> Identified(userId)) && (r.Fail? ==> r.error == UnknownUser)
  {
  }

  /** A request that passes has a role, a name and an e-mail to send; these
      survive cleaning unchanged. */
  lemma PassedGenerateHasRequiredFields(signedIn: bool, d: ResumeData, userId: Option<JsString>)
    requires ValidateGenerate(signedIn, d, userId).Pass?
    ensures var data := ValidateGenerate(signedIn, d, userId).value.data;
      NotBlank(data.targetRole) && NotBlank(data.personalInfo.name) && NotBlank(data.personalInfo.email)
  {
    GenerateChecksInOrder(signedIn, d, userId);
    var data := CleanedData(d);
    assert data.targetRole == d.targetRole && data.personalInfo == d.personalInfo;
  }

  // ---------------------------------------------------------------------------
  // Field editors
  // ---------------------------------------------------------------------------

  datatype PersonalField = Name | Email | Phone | Location | Linkedin

  function PersonalGet(p: PersonalInfo, f: PersonalField): JsString {
    match f
    case Name => p.name
    case Email => p.email
    case Phone => p.phone
    case Location => p.location
    case Linkedin => p.linkedin
  }

  /** `{ ...personal_info, [field]: value }`. */
  function PersonalSet(p: PersonalInfo, f: PersonalField, v: JsString): (r: PersonalInfo)
    ensures PersonalGet(r, f) == v
    ensures forall g | g != f :: PersonalGet(r, g) == PersonalGet(p, g)
  {
    match f
    case Name => p.(name := v)
    case Email => p.(email := v)
    case Phone => p.(phone := v)
    case Location => p.(location := v)
    case Linkedin => p.(linkedin := v)
  }

  datatype ExperienceField = Title | Company | Duration

  function ExperienceGet(e: Experience, f: ExperienceField): JsString {
    match f
    case Title => e.title
    case Company => e.company
    case Duration => e.duration
  }

  /** `{ ...experience[index], [field]: value }`. */
  function ExperienceSet(e: Experience, f: ExperienceField, v: JsString): (r: Experience)
    ensures ExperienceGet(r, f) == v && r.highlights == e.highlights
    ensures forall g | g != f :: ExperienceGet(r, g) == ExperienceGet(e, g)
  {
    match f
    case Title => e.(title := v)
    case Company => e.(company := v)
    case Duration => e.(duration := v)
  }

  datatype EducationField = Degree | Institution | Year

  function EducationGet(e: Education, f: EducationField): JsString {
    match f
    case Degree => e.degree
    case Institution => e.institution
    case Year => e.year
  }

  /** `{ ...education[index], [field]: value }`. */
  function EducationSet(e: Education, f: EducationField, v: JsString): (r: Education)
    ensures EducationGet(r, f) == v
    ensures forall g | g != f :: EducationGet(r, g) == EducationGet(e, g)
  {
    match f
    case Degree => e.(degree := v)
    case Institution => e.(institution := v)
    case Year => e.(year := v)
  }

  /** Writing a field and reading it back; writing the value already there
      changes nothing. */
  lemma FieldWritesRoundTrip(p: PersonalInfo, f: PersonalField, e: Experience, g: ExperienceField,
                             u: Education, h: EducationField)
    ensures PersonalSet(p, f, PersonalGet(p, f)) == p
    ensures ExperienceSet(e, g, ExperienceGet(e, g)) == e
    ensures EducationSet(u, h, EducationGet(u, h)) == u
  {
  }

  // ---------------------------------------------------------------------------
  // The page state
  // ---------------------------------------------------------------------------

  /** The three requests of the page. */
  datatype RequestKind = Analyze | Enhance | Generate

  /** The fallback of `err.message || '…'` for each request. */
  function DefaultError(kind: RequestKind): JsString {
    match kind
    case Analyze => Lit("An error occurred during analysis")
    case Enhance => Lit("An error occurred during enhancement")
    case Generate => Lit("An error occurred during generation")
  }

  /** The decoded reply of a request, kept as its JSON text. */
  datatype Reply = Reply(json: JsString)

  /** Every list has an entry and every experience has a highlight. */
  predicate WellFormed(d: ResumeData) {
    && |d.experience| >= 1 && |d.education| >= 1 && |d.skills| >= 1 && |d.certifications| >= 1
    && forall i | 0 <= i < |d.experience| :: |d.experience[i].highlights| >= 1
  }

  class ResumeForm {
    var resumeText: JsString
    var targetRole: JsString
    var loading: bool
    var error: JsString
    var result: Option<Reply>
    var structuredData: ResumeData

    /** The form never shows a list without an entry: lists start with one and
        remove buttons exist only from the second entry on. */
    ghost predicate Valid()
      reads this
    {
      WellFormed(structuredData) && (loading ==> result.None?)
    }

    constructor ()
      ensures Valid()
      ensures resumeText == [] && targetRole == [] && !loading && error == [] && result == None
      ensures structuredData == InitialData
    {
      resumeText, targetRole, loading, error, result := [], [], false, [], None;
      structuredData := InitialData;
    }

    /** The resume text and target role of the Analyze/Enhance tabs. */
    method SetTextFields(text: JsString, role: JsString)
      requires Valid()
      modifies this`resumeText, this`targetRole
      ensures Valid() && resumeText == text && targetRole == role
    {
      resumeText, targetRole := text, role;
    }

    /** `handleAnalyze` / `handleEnhance` up to the request: the first failing
        check sets its message and nothing else; otherwise the request starts
        and the returned id is the one sent. */
    method BeginTextRequest(signedIn: bool, userId: Option<JsString>) returns (sent: Option<JsString>)
      requires Valid() && !loading
      modifies this`loading, this`error, this`result
      ensures Valid()
      ensures var r := ValidateTextRequest(signedIn, resumeText, targetRole, userId);
        (r.Fail? ==> sent.None? && error == Message(r.error) && !loading && result == old(result)) &&
        (r.Pass? ==> sent == Some(r.value) && loading && error == [] && result == None)
    {
      var r := ValidateTextRequest(signedIn, resumeText, targetRole, userId);
      if r.Pass? {
        loading, error, result := true, [], None;
        sent := Some(r.value);
      } else {
        error := Message(r.error);
        sent := None;
      }
    }

    /** `handleGenerate` up to the request: the first failing check sets its
        message; otherwise the cleaned resume is what is sent. */
    method BeginGenerate(signedIn: bool, userId: Option<JsString>) returns (sent: Option<GenerateRequest>)
      requires Valid() && !loading
      modifies this`loading, this`error, this`result
      ensures Valid() && structuredData == old(structuredData)
      ensures var r := ValidateGenerate(signedIn, old(structuredData), userId);
        (r.Fail? ==> sent.None? && error == Message(r.error) && !loading && result == old(result)) &&
        (r.Pass? ==> sent == Some(r.value) && loading && error == [] && result == None)
    {
      var r := ValidateGenerate(signedIn, structuredData, userId);
      if r.Pass? {
        loading, error, result := true, [], None;
        sent := Some(r.value);
      } else {
        error := Message(r.error);
        sent := None;
      }
    }

    /** How any of the three requests settles: the reply is shown, or the
        error's message (or the request's default when it is empty). */
    method FinishRequest(kind: RequestKind, outcome: FetchOutcome<Reply>)
      requires Valid() && loading
      modifies this`loading, this`error, this`result
      ensures Valid() && !loading
      ensures outcome.Received? ==> result == Some(outcome.data) && error == old(error)
      ensures outcome.Failed? && outcome.message != [] ==> error == outcome.message && result == None
      ensures outcome.Failed? && outcome.message == [] ==> error == DefaultError(kind) && result == None
    {
      match outcome {
        case Received(data) =>
          result := Some(data);
        case Failed(message) =>
          error := FirstTruthy([Some(message)], NonEmpty, DefaultError(kind));
      }
      loading := false;
    }

    /** The target role and summary fields of the Generate tab. */
    method SetRoleAndSummary(role: JsString, summary: JsString)
      requires Valid()
      modifies this`structuredData
      ensures Valid()
      ensures structuredData == old(structuredData).(targetRole := role, summary := summary)
    {
      structuredData := structuredData.(targetRole := role, summary := summary);
    }

    method UpdatePersonalInfo(f: PersonalField, v: JsString)
      requires Valid()
      modifies this`structuredData
      ensures Valid()
      ensures structuredData == old(structuredData).(personalInfo := PersonalSet(old(structuredData).personalInfo, f, v))
    {
      structuredData := structuredData.(personalInfo := PersonalSet(structuredData.personalInfo, f, v));
    }

    method UpdateExperience(index: nat, f: ExperienceField, v: JsString)
      requires Valid() && index < |structuredData.experience|
      modifies this`structuredData
      ensures Valid()
      ensures structuredData == old(structuredData).(experience :=
        old(structuredData).experience[index := ExperienceSet(old(structuredData).experience[index], f, v)])
    {
      var es := structuredData.experience;
      structuredData := structuredData.(experience := es[index := ExperienceSet(es[index], f, v)]);
    }

    method UpdateExperienceHighlight(expIndex: nat, highlightIndex: nat, v: JsString)
      requires Valid() && expIndex < |structuredData.experience|
      requires highlightIndex < |structuredData.experience[expIndex].highlights|
      modifies this`structuredData
      ensures Valid()
      ensures var es := old(structuredData).experience;
        structuredData == old(structuredData).(experience :=
          es[expIndex := es[expIndex].(highlights := es[expIndex].highlights[highlightIndex := v])])
    {
      var es := structuredData.experience;
      var e := es[expIndex];
      structuredData := structuredData.(experience := es[expIndex := e.(highlights := e.highlights[highlightIndex := v])]);
    }

    method AddExperience()
      requires Valid()
      modifies this`structuredData
      ensures Valid()
      ensures structuredData == old(structuredData).(experience := old(structuredData).experience + [EmptyExperience])
    {
      structuredData := structuredData.(experience := structuredData.experience + [EmptyExperience]);
    }

    /** Offered only from the second entry on; past the end it changes
        nothing, as `splice` does. */
    method RemoveExperience(index: nat)
      requires Valid() && 0 < index
      modifies this`structuredData
      ensures Valid()
      ensures structuredData == old(structuredData).(experience := RemoveAt(old(structuredData).experience, index))
    {
      var es := structuredData.experience;
      RemoveAfterFirstKeepsOne(es, index);
      structuredData := structuredData.(experience := RemoveAt(es, index));
    }

    method AddExperienceHighlight(expIndex: nat)
      requires Valid() && expIndex < |structuredData.experience|
      modifies this`structuredData
      ensures Valid()
      ensures var es := old(structuredData).experience;
        structuredData == old(structuredData).(experience :=
          es[expIndex := es[expIndex].(highlights := es[expIndex].highlights + [[]])])
    {
      var es := structuredData.experience;
      var e := es[expIndex];
      structuredData := structuredData.(experience := es[expIndex := e.(highlights := e.highlights + [[]])]);
    }

    /** Offered only from the second highlight on; past the end it changes
        nothing, as `splice` does. */
    method RemoveExperienceHighlight(expIndex: nat, highlightIndex: nat)
      requires Valid() && expIndex < |structuredData.experience|
      requires 0 < highlightIndex
      modifies this`structuredData
      ensures Valid()
      ensures var es := old(structuredData).experience;
        structuredData == old(structuredData).(experience :=
          es[expIndex := es[expIndex].(highlights := RemoveAt(es[expIndex].highlights, highlightIndex))])
    {
      var es := structuredData.experience;
      var e := es[expIndex];
      RemoveAfterFirstKeepsOne(e.highlights, highlightIndex);
      structuredData := structuredData.(experience :=
        es[expIndex := e.(highlights := RemoveAt(e.highlights, highlightIndex))]);
    }

    method UpdateEducation(index: nat, f: EducationField, v: JsString)
      requires Valid() && index < |structuredData.education|
      modifies this`structuredData
      ensures Valid()
      ensures structuredData == old(structuredData).(education :=
        old(structuredData).education[index := EducationSet(old(structuredData).education[index], f, v)])
    {
      var es := structuredData.education;
      structuredData := structuredData.(education := es[index := EducationSet(es[index], f, v)]);
    }

    method AddEducation()
      requires Valid()
      modifies this`structuredData
      ensures Valid()
      ensures structuredData == old(structuredData).(education := old(structuredData).education + [EmptyEducation])
    {
      structuredData := structuredData.(education := structuredData.education + [EmptyEducation]);
    }

    /** Offered only from the second entry on; past the end it changes
        nothing, as `splice` does. */
    method RemoveEducation(index: nat)
      requires Valid() && 0 < index
      modifies this`structuredData
      ensures Valid()
      ensures structuredData == old(structuredData).(education := RemoveAt(old(structuredData).education, index))
    {
      RemoveAfterFirstKeepsOne(structuredData.education, index);
      structuredData := structuredData.(education := RemoveAt(structuredData.education, index));
    }

    method AddSkill()
      requires Valid()
      modifies this`structuredData
      ensures Valid()
      ensures structuredData == old(structuredData).(skills := old(structuredData).skills + [[]])
    {
      structuredData := structuredData.(skills := structuredData.skills + [[]]);
    }

    method UpdateSkill(index: nat, v: JsString)
      requires Valid() && index < |structuredData.skills|
      modifies this`structuredData
      ensures Valid()
      ensures structuredData == old(structuredData).(skills := old(structuredData).skills[index := v])
    {
      structuredData := structuredData.(skills := structuredData.skills[index := v]);
    }

    /** Offered only from the second entry on; past the end it changes
        nothing, as `splice` does. */
    method RemoveSkill(index: nat)
      requires Valid() && 0 < index
      modifies this`structuredData
      ensures Valid()
      ensures structuredData == old(structuredData).(skills := RemoveAt(old(structuredData).skills, index))
    {
      RemoveAfterFirstKeepsOne(structuredData.skills, index);
      structuredData := structuredData.(skills := RemoveAt(structuredData.skills, index));
    }

    method AddCertification()
      requires Valid()
      modifies this`structuredData
      ensures Valid()
      ensures structuredData == old(structuredData).(certifications := old(structuredData).certifications + [[]])
    {
      structuredData := structuredData.(certifications := structuredData.certifications + [[]]);
    }

    method UpdateCertification(index: nat, v: JsString)
      requires Valid() && index < |structuredData.certifications|
      modifies this`structuredData
      ensures Valid()
      ensures structuredData == old(structuredData).(certifications := old(structuredData).certifications[index := v])
    {
      structuredData := structuredData.(certifications := structuredData.certifications[index := v]);
    }

    /** Offered only from the second entry on; past the end it changes
        nothing, as `splice` does. */
    method RemoveCertification(index: nat)
      requires Valid() && 0 < index
      modifies this`structuredData
      ensures Valid()
      ensures structuredData == old(structuredData).(certifications := RemoveAt(old(structuredData).certifications, index))
    {
      RemoveAfterFirstKeepsOne(structuredData.certifications, index);
      structuredData := structuredData.(certifications := RemoveAt(structuredData.certifications, index));
    }
  }
}

/** The survey submission schema: field constraints, the comment and consent
    validators, the identifier derivation that runs before them, and the
    two-phase construction "derive, then validate". */
module Survey {
  import opened Decimal
  import opened Whitespace
  import opened PyValues

  /** The email syntax check of `EmailStr`, supplied by an outside library. */
  type EmailCheck = string -> bool

  /** `sha256_hex`: the hex digest of the UTF-8 bytes of a string. */
  type Hasher = string -> string

  const NameMinLength := 1
  const NameMaxLength := 100
  const AgeMin := 13
  const AgeMax := 120
  const RatingMin := 1
  const RatingMax := 5
  const CommentsMaxLength := 1000
  const ConsentMessage := "consent must be true"

  /** The keys of the input and output mappings: the submission's eight
      fields and the two the stored record adds. */
  datatype Key =
    | Name | Email | Age | Consent | Rating | Comments | UserAgent | SubmissionId
    | ReceivedAt | Ip

  /** The keys the submission schema reads from its input. */
  const Fields: set<Key> :=
    {Name, Email, Age, Consent, Rating, Comments, UserAgent, SubmissionId}

  /** Why one field was rejected. */
  datatype Reason =
    | Missing                    // a required key is absent
    | NoneNotAllowed             // a required key holds None
    | WrongType                  // the value is not of the field's Python type
    | TooShort                   // a str below its min_length
    | TooLong                    // a str above its max_length
    | BelowMinimum               // an int below its `ge` bound
    | AboveMaximum               // an int above its `le` bound
    | InvalidEmail               // the email syntax check failed
    | ValueError(message: string) // a field validator raised ValueError

  /** A validated submission. */
  datatype Submission = Submission(
    name: string,
    email: string,
    age: int,
    consent: bool,
    rating: int,
    comments: Option<string>,
    userAgent: Option<string>,
    submissionId: Option<string>)
  {
    /** Every field constraint of the schema holds; the stored comment is
        then already stripped, so stripping it again changes nothing. */
    predicate Valid(validEmail: EmailCheck)
      ensures Valid(validEmail) && comments.Some? ==> Strip(comments.value) == comments.value
    {
      && NameMinLength <= |name| <= NameMaxLength
      && validEmail(email)
      && AgeMin <= age <= AgeMax
      && consent
      && RatingMin <= rating <= RatingMax
      && (comments.Some? ==> |comments.value| <= CommentsMaxLength && IsStripped(comments.value))
    }
  }

  // ---------------------------------------------------------------------------
  // Per-field validation

  /** A required field: absent and None are both rejected. */
  function Required(f: Option<Value>): (r: Result<Value, Reason>)
    ensures r.Ok? <==> f.Some? && f.value != VNone
    ensures r.Ok? ==> r.value == f.value
    ensures f.None? ==> r == Err(Missing)
    ensures f == Some(VNone) ==> r == Err(NoneNotAllowed)
  {
    match f
    case None => Err(Missing)
    case Some(VNone) => Err(NoneNotAllowed)
    case Some(v) => Ok(v)
  }

  /** A required `str` with a length range. */
  function CheckStr(f: Option<Value>, minLength: nat, maxLength: nat): (r: Result<string, Reason>)
    ensures r.Ok? <==> f.Some? && f.value.VStr? && minLength <= |f.value.s| <= maxLength
    ensures r.Ok? ==> f == Some(VStr(r.value))
  {
    match Required(f)
    case Err(e) => Err(e)
    case Ok(v) =>
      if !v.VStr? then Err(WrongType)
      else if |v.s| < minLength then Err(TooShort)
      else if |v.s| > maxLength then Err(TooLong)
      else Ok(v.s)
  }

  /** A required `EmailStr`. */
  function CheckEmail(f: Option<Value>, validEmail: EmailCheck): (r: Result<string, Reason>)
    ensures r.Ok? <==> f.Some? && f.value.VStr? && validEmail(f.value.s)
    ensures r.Ok? ==> f == Some(VStr(r.value))
    ensures f.Some? && f.value.VStr? && !validEmail(f.value.s) ==> r == Err(InvalidEmail)
  {
    match Required(f)
    case Err(e) => Err(e)
    case Ok(v) =>
      if !v.VStr? then Err(WrongType)
      else if !validEmail(v.s) then Err(InvalidEmail)
      else Ok(v.s)
  }

  /** A required `int` with inclusive bounds. */
  function CheckInt(f: Option<Value>, lo: int, hi: int): (r: Result<int, Reason>)
    ensures r.Ok? <==> f.Some? && f.value.VInt? && lo <= f.value.i <= hi
    ensures r.Ok? ==> f == Some(VInt(r.value))
    ensures f.Some? && f.value.VInt? && f.value.i < lo ==> r == Err(BelowMinimum)
    ensures f.Some? && f.value.VInt? && lo <= f.value.i && hi < f.value.i ==> r == Err(AboveMaximum)
  {
    match Required(f)
    case Err(e) => Err(e)
    case Ok(v) =>
      if !v.VInt? then Err(WrongType)
      else if v.i < lo then Err(BelowMinimum)
      else if v.i > hi then Err(AboveMaximum)
      else Ok(v.i)
  }

  /** `_must_consent`: the consent flag passes only when it is true. */
  function MustConsent(consent: bool): (r: Result<bool, Reason>)
    ensures r.Ok? <==> consent
    ensures r.Ok? ==> r.value
    ensures r.Err? ==> r.error == ValueError(ConsentMessage)
  {
    if consent != true then Err(ValueError(ConsentMessage)) else Ok(consent)
  }

  /** The required `bool` field `consent`, followed by `_must_consent`. */
  function CheckConsent(f: Option<Value>): (r: Result<bool, Reason>)
    ensures r.Ok? <==> f == Some(VBool(true))
    ensures r.Ok? ==> r.value
    ensures f == Some(VBool(false)) ==> r == Err(ValueError(ConsentMessage))
  {
    match Required(f)
    case Err(e) => Err(e)
    case Ok(v) => if !v.VBool? then Err(WrongType) else MustConsent(v.b)
  }

  /** `_strip_comments`: a str is stripped; anything else is returned as it is. */
  function StripComments(v: Value): (r: Value)
    ensures v.VStr? ==> r.VStr? && IsStripped(r.s) && |r.s| <= |v.s|
    ensures v.VStr? ==> var i := LeadingSpace(v.s);
              AllSpace(v.s[..i]) && i + |r.s| <= |v.s| && r.s == v.s[i..i + |r.s|] && AllSpace(v.s[i + |r.s|..])
    ensures !v.VStr? ==> r == v
  {
    if v.VStr? then VStr(Strip(v.s)) else v
  }

  /** The optional field `comments`: its length bound is checked on the raw
      text, and only then does `_strip_comments` run. */
  function CheckComments(f: Option<Value>): (r: Result<Option<string>, Reason>)
    ensures r.Ok? <==> f.None? || f.value.VNone? || (f.value.VStr? && |f.value.s| <= CommentsMaxLength)
    ensures r.Ok? && r.value.Some? ==> f.Some? && f.value.VStr? && r.value.value == Strip(f.value.s)
    ensures r.Ok? && r.value.Some? ==> |r.value.value| <= CommentsMaxLength && IsStripped(r.value.value)
    ensures r.Ok? && r.value.None? ==> f.None? || f.value.VNone?
    ensures f.Some? && f.value.VStr? && |f.value.s| > CommentsMaxLength ==> r == Err(TooLong)
  {
    match f
    case None => Ok(None)
    case Some(VNone) => Ok(None)
    case Some(VStr(s)) =>
      if |s| > CommentsMaxLength then Err(TooLong)
      else
        var w := StripComments(VStr(s));
        Ok(Some(w.s))
    case Some(_) => Err(WrongType)
  }

  /** An optional `str` without constraints (`user_agent`, `submission_id`). */
  function CheckOptionalStr(f: Option<Value>): (r: Result<Option<string>, Reason>)
    ensures r.Ok? <==> f.None? || f.value.VNone? || f.value.VStr?
    ensures r.Ok? && r.value.Some? ==> f == Some(VStr(r.value.value))
    ensures r.Ok? && r.value.None? ==> f.None? || f.value.VNone?
  {
    match f
    case None => Ok(None)
    case Some(VNone) => Ok(None)
    case Some(VStr(s)) => Ok(Some(s))
    case Some(_) => Err(WrongType)
  }

  /** The reason a check reports, if any. */
  function ErrorIn<T>(r: Result<T, Reason>): Option<Reason> {
    if r.Err? then Some(r.error) else None
  }

  // ---------------------------------------------------------------------------
  // Validation phase

  /** The reason the schema rejects one field of the input, if it does. The
      stored record's own keys are not fields of the submission schema. */
  function FieldError(values: map<Key, Value>, validEmail: EmailCheck, field: Key): Option<Reason> {
    var v := Lookup(values, field);
    match field
    case Name => ErrorIn(CheckStr(v, NameMinLength, NameMaxLength))
    case Email => ErrorIn(CheckEmail(v, validEmail))
    case Age => ErrorIn(CheckInt(v, AgeMin, AgeMax))
    case Consent => ErrorIn(CheckConsent(v))
    case Rating => ErrorIn(CheckInt(v, RatingMin, RatingMax))
    case Comments => ErrorIn(CheckComments(v))
    case UserAgent => ErrorIn(CheckOptionalStr(v))
    case SubmissionId => ErrorIn(CheckOptionalStr(v))
    case ReceivedAt => None
    case Ip => None
  }

  /** The field constraints stated directly on the raw input, one key at a time. */
  ghost predicate Conforms(values: map<Key, Value>, validEmail: EmailCheck, field: Key) {
    var v := Get(values, field);
    match field
    case Name => v.VStr? && NameMinLength <= |v.s| <= NameMaxLength
    case Email => v.VStr? && validEmail(v.s)
    case Age => v.VInt? && AgeMin <= v.i <= AgeMax
    case Consent => v == VBool(true)
    case Rating => v.VInt? && RatingMin <= v.i <= RatingMax
    case Comments => v.VNone? || (v.VStr? && |v.s| <= CommentsMaxLength)
    case UserAgent => v.VNone? || v.VStr?
    case SubmissionId => v.VNone? || v.VStr?
    case ReceivedAt => true
    case Ip => true
  }

  /** How an accepted submission's fields come from the raw input: copied,
      except that the comment is stripped and absent optional fields are None. */
  ghost predicate Normalises(values: map<Key, Value>, s: Submission) {
    && Get(values, Name) == VStr(s.name)
    && Get(values, Email) == VStr(s.email)
    && Get(values, Age) == VInt(s.age)
    && Get(values, Consent) == VBool(s.consent)
    && Get(values, Rating) == VInt(s.rating)
    && (if Get(values, Comments) == VNone then s.comments == None
        else Get(values, Comments).VStr? && s.comments == Some(Strip(Get(values, Comments).s)))
    && (if Get(values, UserAgent) == VNone then s.userAgent == None
        else s.userAgent.Some? && Get(values, UserAgent) == VStr(s.userAgent.value))
    && (if Get(values, SubmissionId) == VNone then s.submissionId == None
        else s.submissionId.Some? && Get(values, SubmissionId) == VStr(s.submissionId.value))
  }

  /** Every field of the submission schema passes its check. */
  predicate Accepts(values: map<Key, Value>, validEmail: EmailCheck) {
    forall f :: f in Fields ==> FieldError(values, validEmail, f).None?
  }

  /** The submission built from input whose every field passed. */
  function Build(values: map<Key, Value>, validEmail: EmailCheck): (s: Submission)
    requires Accepts(values, validEmail)
    ensures s.Valid(validEmail) && Normalises(values, s)
  {
    assert FieldError(values, validEmail, Name).None?;
    assert FieldError(values, validEmail, Email).None?;
    assert FieldError(values, validEmail, Age).None?;
    assert FieldError(values, validEmail, Consent).None?;
    assert FieldError(values, validEmail, Rating).None?;
    assert FieldError(values, validEmail, Comments).None?;
    assert FieldError(values, validEmail, UserAgent).None?;
    assert FieldError(values, validEmail, SubmissionId).None?;
    Submission(
      CheckStr(Lookup(values, Name), NameMinLength, NameMaxLength).value,
      CheckEmail(Lookup(values, Email), validEmail).value,
      CheckInt(Lookup(values, Age), AgeMin, AgeMax).value,
      CheckConsent(Lookup(values, Consent)).value,
      CheckInt(Lookup(values, Rating), RatingMin, RatingMax).value,
      CheckComments(Lookup(values, Comments)).value,
      CheckOptionalStr(Lookup(values, UserAgent)).value,
      CheckOptionalStr(Lookup(values, SubmissionId)).value)
  }

  /** Validates every field and either builds the submission or reports every
      offending field with its reason; nothing is built when any field fails. */
  function Validate(values: map<Key, Value>, validEmail: EmailCheck): (r: Result<Submission, map<Key, Reason>>)
    ensures r.Ok? ==> r.value.Valid(validEmail) && Normalises(values, r.value)
    ensures r.Err? ==> r.error != map[] && r.error.Keys <= Fields
    ensures r.Ok? <==> Accepts(values, validEmail)
    ensures r.Err? ==> forall f :: f in Fields ==> (f in r.error <==> FieldError(values, validEmail, f).Some?)
    ensures r.Err? ==> forall f :: f in r.error ==> r.error[f] == FieldError(values, validEmail, f).value
  {
    var errors := map f | f in Fields && FieldError(values, validEmail, f).Some? :: FieldError(values, validEmail, f).value;
    if Accepts(values, validEmail) then
      Ok(Build(values, validEmail))
    else
      assert forall f :: f in Fields && FieldError(values, validEmail, f).Some? ==> f in errors;
      Err(errors)
  }

  /** The reasons a validation result reports, empty on success. */
  function Rejections(r: Result<Submission, map<Key, Reason>>): map<Key, Reason> {
    if r.Err? then r.error else map[]
  }

  // ---------------------------------------------------------------------------
  // Derivation phase

  /** `datetime.strftime("%Y%m%d%H")`: the ten-digit UTC hour bucket. */
  function HourString(now: DateTime): (s: string)
    ensures |s| == 10 && AllDigits(s)
    ensures ValueOf(s[..4]) == now.year && ValueOf(s[4..6]) == now.month
    ensures ValueOf(s[6..8]) == now.day && ValueOf(s[8..]) == now.hour
  {
    var y, m, d, h := Padded(now.year, 4), Padded(now.month, 2), Padded(now.day, 2), Padded(now.hour, 2);
    assert Pow10(2) == 100;
    assert Pow10(4) == 10000;
    PaddedValue(now.year, 4);
    PaddedValue(now.month, 2);
    PaddedValue(now.day, 2);
    PaddedValue(now.hour, 2);
    FieldsReadBack(y, m, d, h);
    y + m + d + h
  }

  /** The four fields of a concatenated bucket are its slices 0-4, 4-6, 6-8 and 8-10. */
  lemma FieldsReadBack(y: string, m: string, d: string, h: string)
    requires |y| == 4 && |m| == 2 && |d| == 2 && |h| == 2
    requires AllDigits(y) && AllDigits(m) && AllDigits(d) && AllDigits(h)
    ensures AllDigits(y + m + d + h)
    ensures var s := y + m + d + h;
            s[..4] == y && s[4..6] == m && s[6..8] == d && s[8..] == h
  {
    var s := y + m + d + h;
    assert s[..4] == y;
    assert s[4..6] == m;
    assert s[6..8] == d;
    assert s[8..] == h;
  }

  predicate SameHour(a: DateTime, b: DateTime) {
    a.year == b.year && a.month == b.month && a.day == b.day && a.hour == b.hour
  }

  /** The text hashed into a derived identifier: `f"{email}{now}"`, the
      email's `str` followed by the ten digits of the hour bucket. */
  function DerivationInput(email: Value, now: DateTime): (s: string)
    ensures |s| == |Text(email)| + 10
    ensures s[..|Text(email)|] == Text(email)
    ensures s[|Text(email)|..] == HourString(now) && AllDigits(s[|Text(email)|..])
  {
    Text(email) + HourString(now)
  }

  /** `assign_submission_id`, the pre-validation hook: a truthy caller
      identifier is kept; otherwise, when the email is truthy, the identifier
      becomes the hash of the email followed by the hour bucket. */
  function AssignSubmissionId(values: map<Key, Value>, now: DateTime, hash: Hasher): (r: map<Key, Value>)
    ensures r.Keys == values.Keys || r.Keys == values.Keys + {SubmissionId}
    ensures forall k :: k in values && k != SubmissionId ==> r[k] == values[k]
    ensures Truthy(Get(values, SubmissionId)) || !Truthy(Get(values, Email)) ==> r == values
    ensures !Truthy(Get(values, SubmissionId)) && Truthy(Get(values, Email)) ==>
              r == values[SubmissionId := VStr(hash(DerivationInput(Get(values, Email), now)))]
  {
    if Truthy(Get(values, SubmissionId)) then
      values
    else
      var email := Get(values, Email);
      if Truthy(email) then
        values[SubmissionId := VStr(hash(DerivationInput(email, now)))]
      else
        values
  }

  /** Constructing a submission: derive the identifier, then validate. */
  function Construct(raw: map<Key, Value>, now: DateTime, hash: Hasher, validEmail: EmailCheck): (r: Result<Submission, map<Key, Reason>>)
    ensures r.Ok? ==> r.value.Valid(validEmail)
  {
    Validate(AssignSubmissionId(raw, now, hash), validEmail)
  }

  /** `SurveySubmission.dict()`: every field under its own key, None for an
      absent optional field. */
  function SubmissionDict(s: Submission): (m: map<Key, Value>)
    ensures m.Keys == Fields
  {
    map[
      Name := VStr(s.name),
      Email := VStr(s.email),
      Age := VInt(s.age),
      Consent := VBool(s.consent),
      Rating := VInt(s.rating),
      Comments := OptionalText(s.comments),
      UserAgent := OptionalText(s.userAgent),
      SubmissionId := OptionalText(s.submissionId)]
  }

  function OptionalText(o: Option<string>): Value {
    if o.Some? then VStr(o.value) else VNone
  }

  // ---------------------------------------------------------------------------
  // Properties

  /** A submission is accepted exactly when every field meets its constraint,
      and a rejection names exactly the fields that do not. */
  lemma ValidationVerdict(values: map<Key, Value>, validEmail: EmailCheck)
    ensures Validate(values, validEmail).Ok? <==> forall f :: f in Fields ==> Conforms(values, validEmail, f)
    ensures forall f :: f in Fields ==> (f in Rejections(Validate(values, validEmail)) <==> !Conforms(values, validEmail, f))
  {
    forall f | f in Fields
      ensures FieldError(values, validEmail, f).None? <==> Conforms(values, validEmail, f)
    {
      FieldVerdict(values, validEmail, f);
    }
  }

  /** One field's check rejects it exactly when it breaks its constraint. */
  lemma FieldVerdict(values: map<Key, Value>, validEmail: EmailCheck, f: Key)
    ensures FieldError(values, validEmail, f).None? <==> Conforms(values, validEmail, f)
  {
    match f
    case Name =>
    case Email =>
    case Age =>
    case Consent =>
    case Rating =>
    case Comments =>
    case UserAgent =>
    case SubmissionId =>
    case ReceivedAt =>
    case Ip =>
  }

  /** Age is checked against 13..120 inclusive: 12 and 121 are rejected with
      their reason, 13 and 120 pass. */
  lemma AgeBoundaries(values: map<Key, Value>, validEmail: EmailCheck)
    ensures Age in Rejections(Validate(values[Age := VInt(12)], validEmail)) && Rejections(Validate(values[Age := VInt(12)], validEmail))[Age] == BelowMinimum
    ensures Age in Rejections(Validate(values[Age := VInt(121)], validEmail)) && Rejections(Validate(values[Age := VInt(121)], validEmail))[Age] == AboveMaximum
    ensures Age !in Rejections(Validate(values[Age := VInt(13)], validEmail))
    ensures Age !in Rejections(Validate(values[Age := VInt(120)], validEmail))
  {
    RejectionIs(values[Age := VInt(12)], validEmail, Age);
    assert FieldError(values[Age := VInt(12)], validEmail, Age) == Some(BelowMinimum);
    RejectionIs(values[Age := VInt(121)], validEmail, Age);
    assert FieldError(values[Age := VInt(121)], validEmail, Age) == Some(AboveMaximum);
    RejectionIs(values[Age := VInt(13)], validEmail, Age);
    assert FieldError(values[Age := VInt(13)], validEmail, Age) == None;
    RejectionIs(values[Age := VInt(120)], validEmail, Age);
    assert FieldError(values[Age := VInt(120)], validEmail, Age) == None;
  }

  /** Rating is checked against 1..5 inclusive: 0 and 6 are rejected with
      their reason, 1 and 5 pass. */
  lemma RatingBoundaries(values: map<Key, Value>, validEmail: EmailCheck)
    ensures Rating in Rejections(Validate(values[Rating := VInt(0)], validEmail)) && Rejections(Validate(values[Rating := VInt(0)], validEmail))[Rating] == BelowMinimum
    ensures Rating in Rejections(Validate(values[Rating := VInt(6)], validEmail)) && Rejections(Validate(values[Rating := VInt(6)], validEmail))[Rating] == AboveMaximum
    ensures Rating !in Rejections(Validate(values[Rating := VInt(1)], validEmail))
    ensures Rating !in Rejections(Validate(values[Rating := VInt(5)], validEmail))
  {
    RejectionIs(values[Rating := VInt(0)], validEmail, Rating);
    assert FieldError(values[Rating := VInt(0)], validEmail, Rating) == Some(BelowMinimum);
    RejectionIs(values[Rating := VInt(6)], validEmail, Rating);
    assert FieldError(values[Rating := VInt(6)], validEmail, Rating) == Some(AboveMaximum);
    RejectionIs(values[Rating := VInt(1)], validEmail, Rating);
    assert FieldError(values[Rating := VInt(1)], validEmail, Rating) == None;
    RejectionIs(values[Rating := VInt(5)], validEmail, Rating);
    assert FieldError(values[Rating := VInt(5)], validEmail, Rating) == None;
  }

  /** Name length is checked against 1..100: the empty name and a 101-character
      name are rejected with their reason, a 100-character name passes. */
  lemma NameBoundaries(values: map<Key, Value>, validEmail: EmailCheck)
    ensures Name in Rejections(Validate(values[Name := VStr("")], validEmail)) && Rejections(Validate(values[Name := VStr("")], validEmail))[Name] == TooShort
    ensures Name in Rejections(Validate(values[Name := VStr(seq(101, _ => 'a'))], validEmail)) && Rejections(Validate(values[Name := VStr(seq(101, _ => 'a'))], validEmail))[Name] == TooLong
    ensures Name !in Rejections(Validate(values[Name := VStr(seq(100, _ => 'a'))], validEmail))
  {
    RejectionIs(values[Name := VStr("")], validEmail, Name);
    assert FieldError(values[Name := VStr("")], validEmail, Name) == Some(TooShort);
    RejectionIs(values[Name := VStr(seq(101, _ => 'a'))], validEmail, Name);
    assert FieldError(values[Name := VStr(seq(101, _ => 'a'))], validEmail, Name) == Some(TooLong);
    RejectionIs(values[Name := VStr(seq(100, _ => 'a'))], validEmail, Name);
    assert FieldError(values[Name := VStr(seq(100, _ => 'a'))], validEmail, Name) == None;
  }

  /** The comment bound is 1000 characters of the text as given: 1001 spaces
      are rejected although they would strip to nothing; 1000 characters pass. */
  lemma CommentsBoundaries(values: map<Key, Value>, validEmail: EmailCheck)
    ensures Strip(seq(1001, _ => ' ')) == ""
    ensures Comments in Rejections(Validate(values[Comments := VStr(seq(1001, _ => ' '))], validEmail)) && Rejections(Validate(values[Comments := VStr(seq(1001, _ => ' '))], validEmail))[Comments] == TooLong
    ensures Comments !in Rejections(Validate(values[Comments := VStr(seq(1000, _ => 'a'))], validEmail))
  {
    StripAllSpace(seq(1001, _ => ' '));
    RejectionIs(values[Comments := VStr(seq(1001, _ => ' '))], validEmail, Comments);
    assert FieldError(values[Comments := VStr(seq(1001, _ => ' '))], validEmail, Comments) == Some(TooLong);
    RejectionIs(values[Comments := VStr(seq(1000, _ => 'a'))], validEmail, Comments);
    assert FieldError(values[Comments := VStr(seq(1000, _ => 'a'))], validEmail, Comments) == None;
  }

  /** What `Validate` reports for one field is that field's own check. */
  lemma RejectionIs(values: map<Key, Value>, validEmail: EmailCheck, f: Key)
    requires f in Fields
    ensures f in Rejections(Validate(values, validEmail)) <==> FieldError(values, validEmail, f).Some?
    ensures f in Rejections(Validate(values, validEmail)) ==>
              Rejections(Validate(values, validEmail))[f] == FieldError(values, validEmail, f).value
  {
  }

  /** Consent is accepted only when it is exactly true; false is rejected with
      the validator's message, whatever the other fields hold. */
  lemma ConsentMustBeTrue(raw: map<Key, Value>, now: DateTime, hash: Hasher, validEmail: EmailCheck)
    ensures Construct(raw, now, hash, validEmail).Ok? ==> Get(raw, Consent) == VBool(true)
    ensures Get(raw, Consent) != VBool(true) ==> Consent in Rejections(Construct(raw, now, hash, validEmail))
    ensures Get(raw, Consent) == VBool(false) ==>
              Rejections(Construct(raw, now, hash, validEmail))[Consent] == ValueError("consent must be true")
  {
    var derived := AssignSubmissionId(raw, now, hash);
    assert Get(derived, Consent) == Get(raw, Consent);
    ValidationVerdict(derived, validEmail);
  }

  /** Input whose every field meets its constraint, with no identifier and
      no optional field, is accepted as given, with the identifier derived
      from the email and the hour. */
  lemma AcceptedAsGiven(raw: map<Key, Value>, name: string, email: string, age: int, rating: int,
                        now: DateTime, hash: Hasher, validEmail: EmailCheck)
    requires Get(raw, Name) == VStr(name) && NameMinLength <= |name| <= NameMaxLength
    requires Get(raw, Email) == VStr(email) && email != "" && validEmail(email)
    requires Get(raw, Age) == VInt(age) && AgeMin <= age <= AgeMax
    requires Get(raw, Consent) == VBool(true)
    requires Get(raw, Rating) == VInt(rating) && RatingMin <= rating <= RatingMax
    requires Get(raw, Comments) == VNone && Get(raw, UserAgent) == VNone && Get(raw, SubmissionId) == VNone
    ensures Construct(raw, now, hash, validEmail)
            == Ok(Submission(name, email, age, true, rating, None, None, Some(hash(email + HourString(now)))))
  {
    var derived := AssignSubmissionId(raw, now, hash);
    var expected := Submission(name, email, age, true, rating, None, None, Some(hash(email + HourString(now))));
    assert Get(derived, SubmissionId) == VStr(hash(email + HourString(now)));
    assert Normalises(derived, expected);
    AcceptedAsGivenFields(derived, validEmail);
    NormalisesUnique(derived, Validate(derived, validEmail).value, expected);
  }

  lemma AcceptedAsGivenFields(values: map<Key, Value>, validEmail: EmailCheck)
    requires Get(values, Name).VStr? && NameMinLength <= |Get(values, Name).s| <= NameMaxLength
    requires Get(values, Email).VStr? && validEmail(Get(values, Email).s)
    requires Get(values, Age).VInt? && AgeMin <= Get(values, Age).i <= AgeMax
    requires Get(values, Consent) == VBool(true)
    requires Get(values, Rating).VInt? && RatingMin <= Get(values, Rating).i <= RatingMax
    requires Get(values, Comments) == VNone && Get(values, UserAgent) == VNone && Get(values, SubmissionId).VStr?
    ensures Validate(values, validEmail).Ok?
  {
    assert FieldError(values, validEmail, Name) == None;
    assert FieldError(values, validEmail, Email) == None;
    assert FieldError(values, validEmail, Age) == None;
    assert FieldError(values, validEmail, Consent) == None;
    assert FieldError(values, validEmail, Rating) == None;
    assert FieldError(values, validEmail, Comments) == None;
    assert FieldError(values, validEmail, UserAgent) == None;
    assert FieldError(values, validEmail, SubmissionId) == None;
  }

  /** The accepted submission is determined by its input. */
  lemma NormalisesUnique(values: map<Key, Value>, a: Submission, b: Submission)
    requires Normalises(values, a) && Normalises(values, b)
    ensures a == b
  {
  }

  /** Every field of a valid submission's dict passes its check. */
  lemma DictAccepted(s: Submission, validEmail: EmailCheck)
    requires s.Valid(validEmail)
    ensures Accepts(SubmissionDict(s), validEmail)
  {
    DictRequiredFieldsPass(s, validEmail);
    DictOptionalFieldsPass(s, validEmail);
  }

  lemma DictRequiredFieldsPass(s: Submission, validEmail: EmailCheck)
    requires s.Valid(validEmail)
    ensures FieldError(SubmissionDict(s), validEmail, Name) == None
    ensures FieldError(SubmissionDict(s), validEmail, Email) == None
    ensures FieldError(SubmissionDict(s), validEmail, Age) == None
    ensures FieldError(SubmissionDict(s), validEmail, Consent) == None
    ensures FieldError(SubmissionDict(s), validEmail, Rating) == None
  {
  }

  lemma DictOptionalFieldsPass(s: Submission, validEmail: EmailCheck)
    requires s.Valid(validEmail)
    ensures FieldError(SubmissionDict(s), validEmail, Comments) == None
    ensures FieldError(SubmissionDict(s), validEmail, UserAgent) == None
    ensures FieldError(SubmissionDict(s), validEmail, SubmissionId) == None
  {
  }

  /** A valid submission's own dict validates back to the same submission. */
  lemma ValidateDictRoundTrip(s: Submission, validEmail: EmailCheck)
    requires s.Valid(validEmail)
    ensures Validate(SubmissionDict(s), validEmail) == Ok(s)
  {
    var d := SubmissionDict(s);
    DictAccepted(s, validEmail);
    DictNormalises(s, validEmail);
    NormalisesUnique(d, Validate(d, validEmail).value, s);
  }

  lemma DictNormalises(s: Submission, validEmail: EmailCheck)
    requires s.Valid(validEmail)
    ensures Normalises(SubmissionDict(s), s)
  {
    if s.comments.Some? {
      StripKeepsStripped(s.comments.value);
    }
  }

  /** Derivation touches only the identifier, so every other field is
      judged on the raw input: construction accepts only input whose other
      fields meet their constraints, and rejects each one that does not. */
  lemma ConstructVerdict(raw: map<Key, Value>, now: DateTime, hash: Hasher, validEmail: EmailCheck)
    ensures Construct(raw, now, hash, validEmail).Ok? ==>
              forall f :: f in Fields && f != SubmissionId ==> Conforms(raw, validEmail, f)
    ensures forall f :: f in Fields && f != SubmissionId ==>
              (f in Rejections(Construct(raw, now, hash, validEmail)) <==> !Conforms(raw, validEmail, f))
    ensures (forall f :: f in Fields ==> Conforms(raw, validEmail, f)) ==>
              && Construct(raw, now, hash, validEmail).Ok?
              && Normalises(AssignSubmissionId(raw, now, hash), Construct(raw, now, hash, validEmail).value)
  {
    ConstructRejects(raw, now, hash, validEmail);
    ConstructAccepts(raw, now, hash, validEmail);
  }

  /** Construction judges every field other than the identifier on the raw input. */
  lemma ConstructRejects(raw: map<Key, Value>, now: DateTime, hash: Hasher, validEmail: EmailCheck)
    ensures Construct(raw, now, hash, validEmail).Ok? ==>
              forall f :: f in Fields && f != SubmissionId ==> Conforms(raw, validEmail, f)
    ensures forall f :: f in Fields && f != SubmissionId ==>
              (f in Rejections(Construct(raw, now, hash, validEmail)) <==> !Conforms(raw, validEmail, f))
  {
    var derived := AssignSubmissionId(raw, now, hash);
    assert forall f :: f != SubmissionId ==> Get(derived, f) == Get(raw, f);
    forall f | f != SubmissionId
      ensures Conforms(derived, validEmail, f) == Conforms(raw, validEmail, f)
    {
    }
    ValidationVerdict(derived, validEmail);
  }

  /** Input whose every field conforms is accepted, with the fields of the
      derived input normalised. */
  lemma ConstructAccepts(raw: map<Key, Value>, now: DateTime, hash: Hasher, validEmail: EmailCheck)
    ensures (forall f :: f in Fields ==> Conforms(raw, validEmail, f)) ==>
              && Construct(raw, now, hash, validEmail).Ok?
              && Normalises(AssignSubmissionId(raw, now, hash), Construct(raw, now, hash, validEmail).value)
  {
    if forall f :: f in Fields ==> Conforms(raw, validEmail, f) {
      var derived := AssignSubmissionId(raw, now, hash);
      forall f | f in Fields
        ensures Conforms(derived, validEmail, f)
      {
        if f == SubmissionId {
          assert Conforms(raw, validEmail, SubmissionId);
        } else {
          assert Get(derived, f) == Get(raw, f);
          assert Conforms(raw, validEmail, f);
        }
      }
      ValidationVerdict(derived, validEmail);
    }
  }

  /** Re-constructing from a valid submission's dict gives it back when it
      carries a non-empty identifier. */
  lemma ConstructKeepsDictId(s: Submission, now: DateTime, hash: Hasher, validEmail: EmailCheck)
    requires s.Valid(validEmail) && s.submissionId.Some? && s.submissionId.value != ""
    ensures Construct(SubmissionDict(s), now, hash, validEmail) == Ok(s)
  {
    assert AssignSubmissionId(SubmissionDict(s), now, hash) == SubmissionDict(s);
    ValidateDictRoundTrip(s, validEmail);
  }

  /** Re-constructing from a valid submission's dict without an identifier
      derives one from its (non-empty) email and the hour. */
  lemma ConstructDerivesDictId(s: Submission, now: DateTime, hash: Hasher, validEmail: EmailCheck)
    requires s.Valid(validEmail) && s.submissionId.None? && s.email != ""
    ensures Construct(SubmissionDict(s), now, hash, validEmail)
            == Ok(s.(submissionId := Some(hash(s.email + HourString(now)))))
  {
    var id := hash(s.email + HourString(now));
    var d := SubmissionDict(s);
    assert Get(d, SubmissionId) == VNone && Get(d, Email) == VStr(s.email);
    assert AssignSubmissionId(d, now, hash) == d[SubmissionId := VStr(id)];
    DictWithId(s, id);
    ValidateDictRoundTrip(s.(submissionId := Some(id)), validEmail);
  }

  lemma DictWithId(s: Submission, id: string)
    ensures SubmissionDict(s)[SubmissionId := VStr(id)] == SubmissionDict(s.(submissionId := Some(id)))
  {
  }

  /** A non-empty identifier supplied by the caller is kept verbatim, and the
      outcome depends neither on the clock nor on the hash. */
  lemma CallerIdWins(raw: map<Key, Value>, id: string, now1: DateTime, now2: DateTime,
                     hash1: Hasher, hash2: Hasher, validEmail: EmailCheck)
    requires Get(raw, SubmissionId) == VStr(id) && id != ""
    ensures Construct(raw, now1, hash1, validEmail) == Construct(raw, now2, hash2, validEmail)
    ensures Construct(raw, now1, hash1, validEmail).Ok? ==>
              Construct(raw, now1, hash1, validEmail).value.submissionId == Some(id)
  {
    assert AssignSubmissionId(raw, now1, hash1) == raw;
    assert AssignSubmissionId(raw, now2, hash2) == raw;
  }

  /** Without a truthy identifier or email, derivation changes nothing and
      does not fail: the identifier stays unset (or the empty string given). */
  lemma NoEmailNoDerivation(raw: map<Key, Value>, now: DateTime, hash: Hasher, validEmail: EmailCheck)
    requires !Truthy(Get(raw, SubmissionId)) && !Truthy(Get(raw, Email))
    ensures AssignSubmissionId(raw, now, hash) == raw
    ensures Construct(raw, now, hash, validEmail) == Validate(raw, validEmail)
    ensures Construct(raw, now, hash, validEmail).Ok? ==>
              Construct(raw, now, hash, validEmail).value.submissionId
              == (if Get(raw, SubmissionId) == VNone then None else Some(""))
  {
  }

  /** With no truthy identifier and a truthy email, the identifier is the hash
      of the email text followed by the hour bucket; derivation runs before
      validation, so a malformed address is hashed too and then rejected. */
  lemma DerivedFromEmailAndHour(raw: map<Key, Value>, email: string, now: DateTime, hash: Hasher, validEmail: EmailCheck)
    requires !Truthy(Get(raw, SubmissionId)) && Get(raw, Email) == VStr(email) && email != ""
    ensures Get(AssignSubmissionId(raw, now, hash), SubmissionId) == VStr(hash(email + HourString(now)))
    ensures Construct(raw, now, hash, validEmail).Ok? ==>
              Construct(raw, now, hash, validEmail).value.submissionId == Some(hash(email + HourString(now)))
    ensures !validEmail(email) ==> Rejections(Construct(raw, now, hash, validEmail))[Email] == InvalidEmail
  {
  }

  /** The hour bucket identifies the hour: two clock readings give the same
      bucket exactly when they fall in the same UTC hour. */
  lemma HourStringIdentifiesHour(a: DateTime, b: DateTime)
    ensures HourString(a) == HourString(b) <==> SameHour(a, b)
  {
    if SameHour(a, b) {
      assert HourString(a) == HourString(b);
    }
  }

  /** Same email and same hour give the same submission; different hours give
      different hash inputs, hence different identifiers under an injective hash. */
  lemma HourBucketedIdentifier(raw: map<Key, Value>, a: DateTime, b: DateTime, hash: Hasher, validEmail: EmailCheck)
    requires !Truthy(Get(raw, SubmissionId)) && Truthy(Get(raw, Email))
    ensures SameHour(a, b) ==> Construct(raw, a, hash, validEmail) == Construct(raw, b, hash, validEmail)
    ensures !SameHour(a, b) ==> DerivationInput(Get(raw, Email), a) != DerivationInput(Get(raw, Email), b)
    ensures !SameHour(a, b) && (forall x, y :: hash(x) == hash(y) ==> x == y) ==>
              Get(AssignSubmissionId(raw, a, hash), SubmissionId) != Get(AssignSubmissionId(raw, b, hash), SubmissionId)
  {
    HourStringIdentifiesHour(a, b);
    var e := Text(Get(raw, Email));
    assert (e + HourString(a))[|e|..] == HourString(a);
    assert (e + HourString(b))[|e|..] == HourString(b);
  }

  /** Different email texts give different hash inputs, whatever the two hours:
      the hour bucket is always ten characters, so the email text is the input
      with its last ten characters removed. Under an injective hash, the derived
      identifiers differ too. */
  lemma DistinctEmailsDistinctIdentifiers(raw1: map<Key, Value>, raw2: map<Key, Value>,
                                          a: DateTime, b: DateTime, hash: Hasher)
    requires !Truthy(Get(raw1, SubmissionId)) && Truthy(Get(raw1, Email))
    requires !Truthy(Get(raw2, SubmissionId)) && Truthy(Get(raw2, Email))
    requires Text(Get(raw1, Email)) != Text(Get(raw2, Email))
    ensures DerivationInput(Get(raw1, Email), a) != DerivationInput(Get(raw2, Email), b)
    ensures (forall x, y :: hash(x) == hash(y) ==> x == y) ==>
              Get(AssignSubmissionId(raw1, a, hash), SubmissionId) != Get(AssignSubmissionId(raw2, b, hash), SubmissionId)
  {
  }
}

# Survey submission schema — a Dafny model

This project models the survey schema of `models.py`. A survey submission has a name, an email, an age, a consent flag, a rating, and optional comments, user agent and submission identifier. Building one runs in two phases:

1. **Derivation.** A pre-validation hook picks the submission identifier. A truthy identifier from the caller is kept. Otherwise, if the email is truthy, the identifier becomes the SHA-256 hex digest of the email text followed by the current UTC hour as `YYYYMMDDHH`. Otherwise it is left alone.
2. **Validation.** Every field is checked, and every failing field is reported together with its reason. Comments are length-checked on the raw text and then stripped of surrounding whitespace. Consent must be exactly true.

A stored record adds the receipt time and the origin IP address to a submission. Its export is the record's mapping with `email` and `age` replaced by the hashes of their `str` forms. Every other key passes through unchanged.

Files, one module each:

- `decimal.dfy` (`Decimal`): decimal text of integers. This covers `str(int)` and the zero-padded `%Y%m%d%H` directives. It proves that digits read back and that the text of an int determines the int.
- `whitespace.dfy` (`Whitespace`): Python's `str.strip()` over the characters `str.isspace()` accepts, characterised as a slice, and proved idempotent.
- `pyvalues.dfy` (`PyValues`): the Python values that can appear in the input mapping: None, bool, int, str and datetime. It also holds truthiness, `dict.get` and `str()`.
- `survey.dfy` (`Survey`): the submission schema. This covers the field checks, `_strip_comments`, `_must_consent`, `assign_submission_id`, validation, the two-phase construction, the submission's `dict()`, and the properties.
- `stored.dfy` (`StoredRecords`): the stored record, its construction, its overridden `dict()` (here `Export`), and the properties.

The three outside pieces are parameters:

- **`hash: string -> string`** stands for `sha256_hex`. Every lemma holds for every such function. Where a lemma needs a property of the hash (digest shape, or injectivity), that property is a hypothesis of the lemma.
- **`validEmail: string -> bool`** stands for the `EmailStr` syntax check.
- **`now: DateTime`** stands for the reading of `datetime.utcnow()`.

Mappings are keyed by a `Key` datatype, one constructor per field of the schema.

Four behaviours of `models.py` worth stating explicitly:

- **No lowercasing.** The identifier is hashed from the email exactly as given, followed by the hour (`f"{email}{now}"`), and the email is not lowercased.
- **Length before strip.** The 1000-character bound on comments applies to the raw text, before stripping, as pydantic v1 orders constrained types before validators. A 1001-character comment of blanks is rejected even though it would strip to nothing.
- **Derivation before validation.** A malformed email is hashed into the identifier and then rejected by validation.
- **Empty identifier.** An empty-string identifier is falsy. With a truthy email it is replaced by a derived one. Without one it stays `""`.

## Model

| member | source | states |
|---|---|---|
| `Decimal.PaddedValue` | models.py:38 | a zero-padded field that fits its width reads back as the number, so `%Y`, `%m`, `%d`, `%H` lose no information |
| `Decimal.IntTextInjective` | models.py:51 | distinct ints have distinct `str` texts, so distinct ages give distinct hash inputs |
| `Whitespace.Strip` | models.py:21 | `strip()` returns the slice after the leading whitespace, followed only by whitespace, with no whitespace at either end |
| `Whitespace.StripIdempotent` | models.py:21 | stripping twice equals stripping once |
| `Whitespace.StripKeepsStripped` | models.py:21 | a string without surrounding whitespace is its own strip |
| `Whitespace.StripAllSpace` | models.py:21 | a string of whitespace strips to the empty string |
| `Whitespace.StripHello` | models.py:21 | `"  hello  ".strip()` is `"hello"` |
| `PyValues.Truthy` | models.py:32-36 | the tests `if values.get("submission_id")` and `if email` fail exactly on None, False, 0 and "" |
| `PyValues.Text` | models.py:39 | `str` of a str is the str itself, so the email is interpolated (and, at line 50, hashed) verbatim; `str` of an int is its decimal text; `str` of a datetime has 19 characters, or 26 with microseconds |
| `Decimal.IntText` | models.py:51 | `str(self.age)` is the sign, when negative, followed by digits without leading zeros (only 0 itself starts with '0') that read back as the number's magnitude |
| `Survey.Submission.Valid` | models.py:10-15 | the field constraints of a validated submission; a valid submission's comment is its own strip |
| `Survey.Required` | models.py:10-14 | a required field passes exactly when present and not None; absent gives Missing, None gives NoneNotAllowed |
| `Survey.CheckStr` | models.py:10 | `name` passes exactly when it is a str of length 1..100, and the accepted value is that str |
| `Survey.CheckEmail` | models.py:11 | the email passes exactly when it is a str accepted by the syntax check; a str the check refuses is rejected as InvalidEmail |
| `Survey.CheckInt` | models.py:12-14 | age and rating pass exactly when they are ints within their inclusive bounds; below gives BelowMinimum, above gives AboveMaximum |
| `Survey.MustConsent` | models.py:23-27 | `_must_consent` passes exactly true and rejects false with ValueError("consent must be true") |
| `Survey.CheckConsent` | models.py:13 | the consent field passes exactly when it is the bool True; False gets the consent ValueError |
| `Survey.StripComments` | models.py:19-21 | `_strip_comments` strips a str, with the slice characterisation, and returns any other value unchanged |
| `Survey.CheckComments` | models.py:15 | comments pass when absent, None, or a str of at most 1000 characters before stripping; the stored comment is the stripped text, at most 1000 characters |
| `Survey.CheckOptionalStr` | models.py:16-17 | user_agent and submission_id pass when absent, None or a str, and are kept verbatim |
| `Survey.Build` | models.py:9-17 | the submission built from fully passing input is valid and normalises the input |
| `Survey.Validate` | models.py:9-27 | succeeds exactly when every field passes; the result is valid and normalises the input; otherwise every failing field is reported with its reason, and only those |
| `Survey.HourString` | models.py:38 | the hour bucket is ten decimal digits in `%Y%m%d%H` order: characters 0-4 read back as the year, 4-6 as the month, 6-8 as the day and 8-10 as the hour |
| `Survey.DerivationInput` | models.py:39 | `f"{email}{now}"` is the email's `str` followed by exactly the ten digits of the hour bucket |
| `Survey.AssignSubmissionId` | models.py:29-40 | keeps the input when the identifier is truthy or the email is falsy, else sets the identifier to the hash of the email text plus the hour bucket; other keys untouched |
| `Survey.Construct` | models.py:29-40 | derive-then-validate yields only valid submissions (the converse, conforming input is accepted, is `ConstructVerdict`) |
| `Survey.SubmissionDict` | models.py:48 | the submission's mapping has exactly the eight schema keys |
| `Survey.ValidationVerdict` | models.py:10-27 | acceptance holds exactly when every field meets its constraint stated on the raw input, and a rejection names exactly the fields that break theirs |
| `Survey.FieldVerdict` | models.py:10-27 | each field's check rejects it exactly when it breaks its constraint |
| `Survey.AgeBoundaries` | models.py:12 | age 12 and 121 are rejected with their reason; 13 and 120 are not rejected |
| `Survey.RatingBoundaries` | models.py:14 | rating 0 and 6 are rejected with their reason; 1 and 5 are not rejected |
| `Survey.NameBoundaries` | models.py:10 | the empty name and a 101-character name are rejected; a 100-character name is not |
| `Survey.CommentsBoundaries` | models.py:15-21 | 1001 blanks are rejected as too long although they strip to ""; 1000 characters are not rejected |
| `Survey.ConsentMustBeTrue` | models.py:23-27 | construction succeeds only with consent exactly true; any other consent is rejected, and False with "consent must be true", whatever the other fields |
| `Survey.AcceptedAsGiven` | models.py:9-40 | conforming input without identifier or optional fields is accepted as given, with the identifier derived from the email and the hour |
| `Survey.NormalisesUnique` | models.py:9-21 | the accepted submission is determined by its input |
| `Survey.ValidateDictRoundTrip` | models.py:9-21 | a valid submission's own dict validates back to the same submission |
| `Survey.ConstructVerdict` | models.py:29-40 | derivation touches only the identifier: acceptance and rejection of every other field are decided on the raw input, and input whose every field conforms (comments, user agent and caller identifier included) is accepted with its normalised fields |
| `Survey.ConstructAccepts` | models.py:9-40 | input whose every field conforms is accepted, and the submission normalises the derived input |
| `Survey.ConstructKeepsDictId` | models.py:31-33 | re-constructing from a valid submission's dict with a non-empty identifier gives the same submission |
| `Survey.ConstructDerivesDictId` | models.py:35-39 | re-constructing from a valid submission's dict without identifier gives it back with the derived identifier |
| `Survey.CallerIdWins` | models.py:31-33 | a non-empty caller identifier is kept verbatim, and the outcome does not depend on the clock or the hash |
| `Survey.NoEmailNoDerivation` | models.py:35-40 | with no truthy identifier or email, derivation changes nothing and does not fail; the identifier stays unset or "" |
| `Survey.DerivedFromEmailAndHour` | models.py:35-39 | the derived identifier is hash(email + hour bucket); a malformed email is hashed and then rejected as InvalidEmail |
| `Survey.HourStringIdentifiesHour` | models.py:38 | two clock readings give the same hour bucket exactly when they fall in the same UTC hour |
| `Survey.HourBucketedIdentifier` | models.py:36-39 | same email and hour give the same result; different hours give different hash inputs, and different identifiers under an injective hash |
| `Survey.DistinctEmailsDistinctIdentifiers` | models.py:35-39 | different email texts give different hash inputs whatever the two hours, since the hour bucket is always ten characters, and different identifiers under an injective hash |
| `StoredRecords.CheckDateTime` | models.py:44 | `received_at` passes exactly when it is a datetime |
| `StoredRecords.CheckText` | models.py:45 | `ip` passes exactly when it is a str |
| `StoredRecords.ConstructRecord` | models.py:43-45 | a stored record is built exactly when the submission and both receipt fields pass; all failures are reported together |
| `StoredRecords.RecordDict` | models.py:48 | the record's plain mapping has the schema keys plus received_at and ip |
| `StoredRecords.Export` | models.py:47-52 | email becomes hash(email), age becomes hash(str(age)); every other key equals the record's plain mapping |
| `StoredRecords.ExportPassesThrough` | models.py:47-52 | name, consent, rating, comments, user_agent, submission_id, received_at and ip are exported unchanged |
| `StoredRecords.ExportHidesPlaintext` | models.py:49-51 | with a hash yielding 64-character hex digests, the exported age is never the plaintext age, and the exported email is never a plaintext email that is not itself a digest |
| `StoredRecords.ExportSeparatesRecords` | models.py:50-51 | under an injective hash, different ages or emails export different hashes |
| `StoredRecords.AnnStored` | models.py:29-45 | the example input (Ann, ann@x.com, 30, consent, rating 4) is stored with the identifier derived from email and hour |
| `StoredRecords.AnnExport` | models.py:47-52 | the example record exports name, rating, ip and comments unchanged and hashes email and age ("30") |

## Left out

- SHA-256 itself (FIPS 180-4) is the parameter `hash`. Its output shape, 64 lowercase hex characters, is a hypothesis of `ExportHidesPlaintext`, and its one-way property is not modelled.
- The email syntax check of `EmailStr` is the parameter `validEmail`. `EmailStr`'s normalisation (stripping surrounding whitespace, unwrapping the `Name <addr>` form, the case of the domain) is not modelled: the stored email is the text as given. In the source, derivation hashes the raw text from the input mapping (models.py:35-39) while export hashes the normalised address (models.py:50), so the two texts can differ there; in the model they are the same.
- The clock read `datetime.utcnow()` is the parameter `now`. Years before 1000 are padded to four digits, which some platforms' `strftime` does not do.
- Pydantic's type coercion (such as "30" to 30, 1 to True, or an int to str) is not modelled. A field accepts only a value of its own Python type and rejects any other as WrongType.
- Keys outside the schema, which pydantic ignores, cannot appear in the modelled input mapping. Values other than None, bool, int, str and datetime are not represented.
- Pydantic's error messages, apart from "consent must be true", and the shape of `ValidationError` are not modelled. A failure is a map from each offending field to a reason.
- The `*args/**kwargs` options of `dict()` (include, exclude and the like) are not modelled. Export always produces the full mapping.
- `assign_submission_id` and `StoredSurveyRecord.dict` update a dictionary in place. They are modelled as pure map updates, since neither touches shared state. So "exporting twice gives equal maps" and "export leaves the record unchanged" hold by construction; no lemma states them.
- `received_at` is accepted only as a datetime value. Parsing it from text or timestamps is not modelled.
- `ExportHidesPlaintext`: for the email it is stated only for an address that is not itself a 64-character hex string, because nothing rules out such an address.
- AssignSubmissionId: the derivation never fails in the model. In Python it can fail in two ways. `sha256_hex` raises UnicodeEncodeError (a ValueError) on a str holding a lone surrogate such as `"\ud800"` (models.py:7). On Python 3.11 and later, `f"{email}"` raises ValueError for an int email of more than 4300 digits (models.py:39). Pydantic then reports a single root error and validates no field. Neither failure is modelled: a Dafny `char` cannot hold a surrogate, and `Text` is defined for every int.

/** The stored record: a submission plus the receipt time and origin address
    set by the receiving side, and its export, in which the email and the age
    are replaced by their hashes. */
module StoredRecords {
  import opened Decimal
  import opened PyValues
  import opened Survey

  datatype StoredRecord = StoredRecord(submission: Submission, receivedAt: DateTime, ip: string)

  /** The keys of a stored record's mapping. */
  const RecordKeys: set<Key> := Fields + {ReceivedAt, Ip}

  /** The required `datetime` field `received_at`. */
  function CheckDateTime(f: Option<Value>): (r: Result<DateTime, Reason>)
    ensures r.Ok? <==> f.Some? && f.value.VTime?
    ensures r.Ok? ==> f == Some(VTime(r.value))
  {
    match Required(f)
    case Err(e) => Err(e)
    case Ok(v) => if v.VTime? then Ok(v.t) else Err(WrongType)
  }

  /** The required `str` field `ip`. */
  function CheckText(f: Option<Value>): (r: Result<string, Reason>)
    ensures r.Ok? <==> f.Some? && f.value.VStr?
    ensures r.Ok? ==> f == Some(VStr(r.value))
  {
    match Required(f)
    case Err(e) => Err(e)
    case Ok(v) => if v.VStr? then Ok(v.s) else Err(WrongType)
  }

  function ErrorOf<T>(field: Key, r: Result<T, Reason>): map<Key, Reason> {
    if r.Err? then map[field := r.error] else map[]
  }

  /** Constructing a stored record from its raw input: the submission schema
      (derivation included) plus the two receipt fields, with the failures of
      all of them reported together. */
  function ConstructRecord(raw: map<Key, Value>, now: DateTime, hash: Hasher, validEmail: EmailCheck): (r: Result<StoredRecord, map<Key, Reason>>)
    ensures r.Ok? <==> Construct(raw, now, hash, validEmail).Ok? && Get(raw, ReceivedAt).VTime? && Get(raw, Ip).VStr?
    ensures r.Ok? ==> && r.value.submission == Construct(raw, now, hash, validEmail).value
                      && Get(raw, ReceivedAt) == VTime(r.value.receivedAt)
                      && Get(raw, Ip) == VStr(r.value.ip)
    ensures r.Err? ==> r.error.Keys == Rejections(Construct(raw, now, hash, validEmail)).Keys
                                       + (if Get(raw, ReceivedAt).VTime? then {} else {ReceivedAt})
                                       + (if Get(raw, Ip).VStr? then {} else {Ip})
  {
    var submission := Construct(raw, now, hash, validEmail);
    var receivedAt := CheckDateTime(Lookup(raw, ReceivedAt));
    var ip := CheckText(Lookup(raw, Ip));
    if submission.Ok? && receivedAt.Ok? && ip.Ok? then
      Ok(StoredRecord(submission.value, receivedAt.value, ip.value))
    else
      Err(Rejections(submission) + ErrorOf(ReceivedAt, receivedAt) + ErrorOf(Ip, ip))
  }

  /** The record's plain mapping before pseudonymisation: the submission's
      fields followed by the two receipt fields. */
  function RecordDict(rec: StoredRecord): (m: map<Key, Value>)
    ensures m.Keys == RecordKeys
  {
    SubmissionDict(rec.submission)[ReceivedAt := VTime(rec.receivedAt)][Ip := VStr(rec.ip)]
  }

  /** `StoredSurveyRecord.dict()`: the record's mapping with `email` and `age`
      overwritten by the hashes of their `str` forms; every other key is the
      record's own value. */
  function Export(rec: StoredRecord, hash: Hasher): (m: map<Key, Value>)
    ensures m.Keys == RecordKeys
    ensures m[Email] == VStr(hash(rec.submission.email))
    ensures m[Age] == VStr(hash(IntText(rec.submission.age)))
    ensures forall k :: k in m && k != Email && k != Age ==> m[k] == RecordDict(rec)[k]
  {
    var data := RecordDict(rec);
    data[Email := VStr(hash(Text(VStr(rec.submission.email))))][Age := VStr(hash(Text(VInt(rec.submission.age))))]
  }

  predicate IsLowerHex(c: char) {
    '0' <= c <= '9' || 'a' <= c <= 'f'
  }

  /** The shape of a SHA-256 hex digest: 64 lowercase hexadecimal characters. */
  predicate IsHexDigest(s: string) {
    |s| == 64 && forall i :: 0 <= i < |s| ==> IsLowerHex(s[i])
  }

  // ---------------------------------------------------------------------------
  // Properties

  /** Export passes every field other than email and age through unchanged. */
  lemma ExportPassesThrough(rec: StoredRecord, hash: Hasher)
    ensures Export(rec, hash)[Name] == VStr(rec.submission.name)
    ensures Export(rec, hash)[Consent] == VBool(rec.submission.consent)
    ensures Export(rec, hash)[Rating] == VInt(rec.submission.rating)
    ensures Export(rec, hash)[Comments] == OptionalText(rec.submission.comments)
    ensures Export(rec, hash)[UserAgent] == OptionalText(rec.submission.userAgent)
    ensures Export(rec, hash)[SubmissionId] == OptionalText(rec.submission.submissionId)
    ensures Export(rec, hash)[ReceivedAt] == VTime(rec.receivedAt)
    ensures Export(rec, hash)[Ip] == VStr(rec.ip)
  {
    RecordDictValues(rec);
  }

  lemma RecordDictValues(rec: StoredRecord)
    ensures RecordDict(rec)[Name] == VStr(rec.submission.name)
    ensures RecordDict(rec)[Consent] == VBool(rec.submission.consent)
    ensures RecordDict(rec)[Rating] == VInt(rec.submission.rating)
    ensures RecordDict(rec)[Comments] == OptionalText(rec.submission.comments)
    ensures RecordDict(rec)[UserAgent] == OptionalText(rec.submission.userAgent)
    ensures RecordDict(rec)[SubmissionId] == OptionalText(rec.submission.submissionId)
    ensures RecordDict(rec)[ReceivedAt] == VTime(rec.receivedAt)
    ensures RecordDict(rec)[Ip] == VStr(rec.ip)
  {
  }

  /** When the hash yields hex digests, the exported age is never the plaintext
      age (as int or as text), and the exported email is not the plaintext
      email unless that email is itself a hex digest. */
  lemma ExportHidesPlaintext(rec: StoredRecord, hash: Hasher)
    requires forall x :: IsHexDigest(hash(x))
    requires AgeMin <= rec.submission.age <= AgeMax
    ensures Export(rec, hash)[Age] != VInt(rec.submission.age)
    ensures Export(rec, hash)[Age] != VStr(IntText(rec.submission.age))
    ensures !IsHexDigest(rec.submission.email) ==> Export(rec, hash)[Email] != VStr(rec.submission.email)
  {
    assert Pow10(3) == 1000;
    NatTextLength(rec.submission.age, 3);
    assert IsHexDigest(hash(IntText(rec.submission.age)));
    assert IsHexDigest(hash(rec.submission.email));
  }

  /** Under an injective hash, records with different ages export different
      age hashes, and records with different emails different email hashes. */
  lemma ExportSeparatesRecords(a: StoredRecord, b: StoredRecord, hash: Hasher)
    requires forall x, y :: hash(x) == hash(y) ==> x == y
    ensures a.submission.age != b.submission.age ==> Export(a, hash)[Age] != Export(b, hash)[Age]
    ensures a.submission.email != b.submission.email ==> Export(a, hash)[Email] != Export(b, hash)[Email]
  {
    if IntText(a.submission.age) == IntText(b.submission.age) {
      IntTextInjective(a.submission.age, b.submission.age);
    }
  }

  /** The raw input of the worked example: no identifier, no comment. */
  function AnnInput(receivedAt: DateTime): map<Key, Value> {
    map[Name := VStr("Ann"), Email := VStr("ann@x.com"), Age := VInt(30),
        Consent := VBool(true), Rating := VInt(4),
        ReceivedAt := VTime(receivedAt), Ip := VStr("10.0.0.1")]
  }

  /** The worked example is accepted, with the identifier derived from the
      email and the hour, and stored with its receipt fields. */
  lemma AnnStored(now: DateTime, receivedAt: DateTime, hash: Hasher, validEmail: EmailCheck)
    requires validEmail("ann@x.com")
    ensures ConstructRecord(AnnInput(receivedAt), now, hash, validEmail)
            == Ok(StoredRecord(Submission("Ann", "ann@x.com", 30, true, 4, None, None,
                                          Some(hash("ann@x.com" + HourString(now)))),
                               receivedAt, "10.0.0.1"))
  {
    var raw := AnnInput(receivedAt);
    AcceptedAsGiven(raw, "Ann", "ann@x.com", 30, 4, now, hash, validEmail);
  }

  /** The worked example's export: hashed email and age, every other field as given. */
  lemma AnnExport(id: string, receivedAt: DateTime, hash: Hasher)
    ensures var rec := StoredRecord(Submission("Ann", "ann@x.com", 30, true, 4, None, None, Some(id)),
                                    receivedAt, "10.0.0.1");
            && Export(rec, hash)[Name] == VStr("Ann")
            && Export(rec, hash)[Rating] == VInt(4)
            && Export(rec, hash)[Ip] == VStr("10.0.0.1")
            && Export(rec, hash)[Comments] == VNone
            && Export(rec, hash)[SubmissionId] == VStr(id)
            && Export(rec, hash)[Email] == VStr(hash("ann@x.com"))
            && Export(rec, hash)[Age] == VStr(hash("30"))
  {
    var rec := StoredRecord(Submission("Ann", "ann@x.com", 30, true, 4, None, None, Some(id)),
                            receivedAt, "10.0.0.1");
    ExportPassesThrough(rec, hash);
    assert IntText(30) == "30";
  }
}

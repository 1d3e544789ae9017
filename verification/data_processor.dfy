/**
 * `DefaultDataProcessor` (`packages/rankiro/src/analytics/data-processor.ts`):
 * lenient parsing of untyped records, validation, and derivation of missing
 * fields. Time-bucket aggregation is in module `Aggregation`.
 */
module MetricsProcessing {
  import opened Wrappers
  import opened Types
  import opened AnalyticsTypes

  // ---------------------------------------------------------------------------
  // Parsing (`processMetrics`, `parseRawMetrics`)
  // ---------------------------------------------------------------------------

  /**
   * The properties of an untyped input object that parsing reads. A field is
   * `None` when absent or falsy; `timestamp` holds the result of
   * `new Date(...)` on a present value.
   */
  datatype RawRecord = RawRecord(
    videoId: Option<string>,
    timestamp: Option<Date>,
    views: Option<real>,
    likes: Option<real>,
    dislikes: Option<real>,
    comments: Option<real>,
    shares: Option<real>,
    watchTime: Option<real>,
    averageViewDuration: Option<real>,
    engagementRate: Option<real>)

  /**
   * One element of the `unknown[]` handed to `processMetrics`. `RawPrimitive`
   * stands for every value whose `typeof` is not `'object'` (booleans,
   * numbers, strings, functions); arrays are objects with none of the fields.
   */
  datatype RawInput = RawNull | RawUndefined | RawPrimitive | RawArray | RawObject(fields: RawRecord)

  const NoFields: RawRecord := RawRecord(None, None, None, None, None, None, None, None, None, None)

  /** Inputs that pass the `!raw || typeof raw !== 'object'` guard. */
  predicate IsObject(raw: RawInput) {
    raw.RawArray? || raw.RawObject?
  }

  function FieldsOf(raw: RawInput): RawRecord {
    if raw.RawObject? then raw.fields else NoFields
  }

  /** `v` is the present value of `o`, or `default` when `o` is absent. */
  predicate Resolved<T(==)>(o: Option<T>, v: T, default: T) {
    if o.Some? then v == o.value else v == default
  }

  /** The metric record with every field taken from `m`: parsing it gives `m` back. */
  function ToRaw(m: VideoMetrics): RawRecord {
    RawRecord(Some(m.videoId), Some(m.timestamp), Some(m.views), Some(m.likes), Some(m.dislikes),
              Some(m.comments), Some(m.shares), Some(m.watchTime), Some(m.averageViewDuration),
              Some(m.engagementRate))
  }

  /** `parseRawMetrics`: never rejects an object, defaults every absent field. */
  function ParseRawMetrics(raw: RawInput): (r: Option<VideoMetrics>)
    ensures r.Some? <==> IsObject(raw)
    ensures r.Some? ==>
      var f := FieldsOf(raw);
      && Resolved(f.videoId, r.value.videoId, "")
      && Resolved(f.timestamp, r.value.timestamp, None)
      && Resolved(f.views, r.value.views, 0.0)
      && Resolved(f.likes, r.value.likes, 0.0)
      && Resolved(f.dislikes, r.value.dislikes, 0.0)
      && Resolved(f.comments, r.value.comments, 0.0)
      && Resolved(f.shares, r.value.shares, 0.0)
      && Resolved(f.watchTime, r.value.watchTime, 0.0)
      && Resolved(f.averageViewDuration, r.value.averageViewDuration, 0.0)
      && Resolved(f.engagementRate, r.value.engagementRate, 0.0)
  {
    if !IsObject(raw) then None
    else
      var f := FieldsOf(raw);
      Some(VideoMetrics(
        f.videoId.GetOr(""),
        f.timestamp.GetOr(None),
        f.views.GetOr(0.0),
        f.likes.GetOr(0.0),
        f.dislikes.GetOr(0.0),
        f.comments.GetOr(0.0),
        f.shares.GetOr(0.0),
        f.watchTime.GetOr(0.0),
        f.averageViewDuration.GetOr(0.0),
        f.engagementRate.GetOr(0.0)))
  }

  /** A record with every field present parses back to itself. */
  lemma ParseRoundTrip(m: VideoMetrics)
    ensures ParseRawMetrics(RawObject(ToRaw(m))) == Some(m)
  {
  }

  /** An object with none of the fields yields an empty id, an Invalid Date and zeros. */
  lemma ParseEmptyObject()
    ensures ParseRawMetrics(RawObject(NoFields))
         == Some(VideoMetrics("", None, 0.0, 0.0, 0.0, 0.0, 0.0, 0.0, 0.0, 0.0))
    ensures ParseRawMetrics(RawArray) == ParseRawMetrics(RawObject(NoFields))
  {
  }

  /** Number of inputs that are objects. */
  function CountObjects(raws: seq<RawInput>): nat
  {
    if |raws| == 0 then 0
    else CountObjects(raws[..|raws| - 1]) + (if IsObject(raws[|raws| - 1]) then 1 else 0)
  }

  /** The parsed records of the objects among `raws`, in input order. */
  function Accepted(raws: seq<RawInput>): seq<VideoMetrics>
  {
    if |raws| == 0 then []
    else
      var last := ParseRawMetrics(raws[|raws| - 1]);
      Accepted(raws[..|raws| - 1]) + (if last.Some? then [last.value] else [])
  }

  /** `processMetrics`: parses every input, keeping the objects and skipping the rest. */
  method ProcessMetrics(raws: seq<RawInput>) returns (r: seq<VideoMetrics>)
    ensures r == Accepted(raws)
    ensures |r| == CountObjects(raws)
    ensures forall i :: 0 <= i < |raws| && IsObject(raws[i]) ==>
      CountObjects(raws[..i]) < |r| && Some(r[CountObjects(raws[..i])]) == ParseRawMetrics(raws[i])
  {
    r := [];
    var i := 0;
    while i < |raws|
      invariant 0 <= i <= |raws|
      invariant r == Accepted(raws[..i])
      invariant |r| == CountObjects(raws[..i])
      invariant forall j :: 0 <= j < i && IsObject(raws[j]) ==>
        CountObjects(raws[..j]) < |r| && Some(r[CountObjects(raws[..j])]) == ParseRawMetrics(raws[j])
    {
      assert raws[..i + 1][..i] == raws[..i];
      var metrics := ParseRawMetrics(raws[i]);
      if metrics.Some? {
        r := r + [metrics.value];
      }
      i := i + 1;
    }
    assert raws[..i] == raws;
  }

  lemma {:induction false} AcceptedConcat(a: seq<RawInput>, b: seq<RawInput>)
    ensures Accepted(a + b) == Accepted(a) + Accepted(b)
    decreases |b|
  {
    if |b| == 0 {
      assert a + b == a;
    } else {
      var b' := b[..|b| - 1];
      assert (a + b)[..|a + b| - 1] == a + b';
      AcceptedConcat(a, b');
    }
  }

  /** One input that is not an object changes nothing for the others. */
  lemma AcceptedSkipsNonObject(a: seq<RawInput>, x: RawInput, b: seq<RawInput>)
    requires !IsObject(x)
    ensures Accepted(a + [x] + b) == Accepted(a + b)
  {
    AcceptedConcat(a + [x], b);
    AcceptedConcat(a, [x]);
    AcceptedConcat(a, b);
    assert Accepted([x]) == [] by {
      assert [x][..0] == [];
    }
  }

  // ---------------------------------------------------------------------------
  // Validation (`validateMetrics`)
  // ---------------------------------------------------------------------------

  /** The counters checked for negative values, in the order they are checked. */
  const NumericFields: seq<string> :=
    ["views", "likes", "dislikes", "comments", "shares", "watchTime", "averageViewDuration"]

  /** Every field the validator can report an error on, in the order it checks them. */
  const CheckedFields: seq<string> := ["videoId", "timestamp"] + NumericFields + ["engagementRate"]

  /** `metric[field]` for the numeric fields. */
  function NumericField(m: VideoMetrics, field: string): real
  {
    if field == "views" then m.views
    else if field == "likes" then m.likes
    else if field == "dislikes" then m.dislikes
    else if field == "comments" then m.comments
    else if field == "shares" then m.shares
    else if field == "watchTime" then m.watchTime
    else if field == "averageViewDuration" then m.averageViewDuration
    else m.engagementRate
  }

  /** One error per listed field whose value is negative, in list order. */
  function NegativeFieldErrors(m: VideoMetrics, fields: seq<string>): seq<ValidationIssue>
  {
    if |fields| == 0 then []
    else
      var value := NumericField(m, fields[0]);
      (if value < 0.0 then [ValidationIssue(fields[0], fields[0] + " cannot be negative", NumberValue(value))] else [])
      + NegativeFieldErrors(m, fields[1..])
  }

  lemma {:induction false} NegativeFieldErrorsNone(m: VideoMetrics, fields: seq<string>)
    requires forall k :: 0 <= k < |fields| ==> NumericField(m, fields[k]) >= 0.0
    ensures NegativeFieldErrors(m, fields) == []
  {
    if |fields| > 0 {
      NegativeFieldErrorsNone(m, fields[1..]);
    }
  }

  /**
   * The errors one record contributes. The timestamp check of the source
   * (`!metric.timestamp`) never fires: a `Date` object, even an Invalid Date,
   * is truthy.
   */
  function RecordErrors(m: VideoMetrics): seq<ValidationIssue>
  {
    (if m.videoId == "" then [ValidationIssue("videoId", "Video ID is required", TextValue(m.videoId))] else [])
    + NegativeFieldErrors(m, NumericFields)
    + (if m.engagementRate < 0.0 || m.engagementRate > 1.0
       then [ValidationIssue("engagementRate", "Engagement rate must be between 0 and 1", NumberValue(m.engagementRate))]
       else [])
  }

  /** The warnings one record contributes. */
  function RecordWarnings(m: VideoMetrics): seq<ValidationIssue>
  {
    (if m.likes > m.views
     then [ValidationIssue("likes", "Likes exceed views, which is unusual", NumberValue(m.likes))]
     else [])
    + (if m.averageViewDuration > m.watchTime && m.views > 1.0
       then [ValidationIssue("averageViewDuration", "Average view duration exceeds total watch time", NumberValue(m.averageViewDuration))]
       else [])
  }

  /** Whether `field` of `m` violates its rule, stated field by field. */
  predicate Violates(m: VideoMetrics, field: string)
  {
    || (field == "videoId" && m.videoId == "")
    || (field == "views" && m.views < 0.0)
    || (field == "likes" && m.likes < 0.0)
    || (field == "dislikes" && m.dislikes < 0.0)
    || (field == "comments" && m.comments < 0.0)
    || (field == "shares" && m.shares < 0.0)
    || (field == "watchTime" && m.watchTime < 0.0)
    || (field == "averageViewDuration" && m.averageViewDuration < 0.0)
    || (field == "engagementRate" && (m.engagementRate < 0.0 || m.engagementRate > 1.0))
  }

  /** The fields among `fields` that `m` violates, in list order. */
  function ViolatedFields(m: VideoMetrics, fields: seq<string>): seq<string>
  {
    if |fields| == 0 then []
    else (if Violates(m, fields[0]) then [fields[0]] else []) + ViolatedFields(m, fields[1..])
  }

  function FieldNames(issues: seq<ValidationIssue>): (r: seq<string>)
    ensures |r| == |issues|
  {
    if |issues| == 0 then [] else [issues[0].field] + FieldNames(issues[1..])
  }

  lemma FieldNamesConcat(a: seq<ValidationIssue>, b: seq<ValidationIssue>)
    ensures FieldNames(a + b) == FieldNames(a) + FieldNames(b)
  {
    if |a| == 0 {
      assert a + b == b;
    } else {
      assert (a + b)[1..] == a[1..] + b;
      FieldNamesConcat(a[1..], b);
    }
  }

  lemma ViolatedFieldsConcat(m: VideoMetrics, a: seq<string>, b: seq<string>)
    ensures ViolatedFields(m, a + b) == ViolatedFields(m, a) + ViolatedFields(m, b)
  {
    if |a| == 0 {
      assert a + b == b;
    } else {
      assert (a + b)[1..] == a[1..] + b;
      ViolatedFieldsConcat(m, a[1..], b);
    }
  }

  lemma {:induction false} NegativeFieldErrorsFields(m: VideoMetrics, fields: seq<string>)
    requires forall k :: 0 <= k < |fields| ==> fields[k] in NumericFields
    ensures FieldNames(NegativeFieldErrors(m, fields)) == ViolatedFields(m, fields)
  {
    if |fields| > 0 {
      var head := if NumericField(m, fields[0]) < 0.0
        then [ValidationIssue(fields[0], fields[0] + " cannot be negative", NumberValue(NumericField(m, fields[0])))]
        else [];
      NegativeFieldErrorsFields(m, fields[1..]);
      FieldNamesConcat(head, NegativeFieldErrors(m, fields[1..]));
    }
  }

  /**
   * The errors of one record name exactly the violated fields, in the order
   * id, timestamp, the seven counters, engagement rate: no check
   * short-circuits another.
   */
  lemma RecordErrorOrder(m: VideoMetrics)
    ensures FieldNames(RecordErrors(m)) == ViolatedFields(m, CheckedFields)
  {
    var idPart := if m.videoId == "" then [ValidationIssue("videoId", "Video ID is required", TextValue(m.videoId))] else [];
    var ratePart := if m.engagementRate < 0.0 || m.engagementRate > 1.0
      then [ValidationIssue("engagementRate", "Engagement rate must be between 0 and 1", NumberValue(m.engagementRate))]
      else [];
    NegativeFieldErrorsFields(m, NumericFields);
    FieldNamesConcat(idPart, NegativeFieldErrors(m, NumericFields));
    FieldNamesConcat(idPart + NegativeFieldErrors(m, NumericFields), ratePart);
    ViolatedFieldsConcat(m, ["videoId", "timestamp"], NumericFields);
    ViolatedFieldsConcat(m, ["videoId", "timestamp"] + NumericFields, ["engagementRate"]);
    IdCheckFields(m);
    RateCheckFields(m);
  }

  /** The id check reports the id exactly when it is violated; the timestamp check never fires. */
  lemma IdCheckFields(m: VideoMetrics)
    ensures FieldNames(if m.videoId == "" then [ValidationIssue("videoId", "Video ID is required", TextValue(m.videoId))] else [])
         == ViolatedFields(m, ["videoId", "timestamp"])
  {
    assert ["videoId", "timestamp"][1..] == ["timestamp"];
    assert ["timestamp"][1..] == [];
    assert !Violates(m, "timestamp");
    assert ViolatedFields(m, ["timestamp"]) == [];
    assert Violates(m, "videoId") <==> m.videoId == "";
    assert ViolatedFields(m, ["videoId", "timestamp"]) == (if m.videoId == "" then ["videoId"] else []) + [];
  }

  /** The range check reports the engagement rate exactly when it is violated. */
  lemma RateCheckFields(m: VideoMetrics)
    ensures FieldNames(if m.engagementRate < 0.0 || m.engagementRate > 1.0
        then [ValidationIssue("engagementRate", "Engagement rate must be between 0 and 1", NumberValue(m.engagementRate))]
        else [])
         == ViolatedFields(m, ["engagementRate"])
  {
    assert ["engagementRate"][1..] == [];
  }

  /** A record that passes every rule, stated without reference to the error list. */
  predicate Sane(m: VideoMetrics)
  {
    && m.videoId != ""
    && m.views >= 0.0 && m.likes >= 0.0 && m.dislikes >= 0.0 && m.comments >= 0.0
    && m.shares >= 0.0 && m.watchTime >= 0.0 && m.averageViewDuration >= 0.0
    && 0.0 <= m.engagementRate <= 1.0
  }

  lemma {:induction false} ViolatedFieldsEmpty(m: VideoMetrics, fields: seq<string>)
    ensures ViolatedFields(m, fields) == [] <==> forall k :: 0 <= k < |fields| ==> !Violates(m, fields[k])
  {
    if |fields| > 0 {
      ViolatedFieldsEmpty(m, fields[1..]);
      assert forall k :: 1 <= k < |fields| ==> fields[k] == fields[1..][k - 1];
    }
  }

  /** A record contributes no error exactly when it is sane. */
  lemma RecordErrorsEmpty(m: VideoMetrics)
    ensures RecordErrors(m) == [] <==> Sane(m)
  {
    RecordErrorOrder(m);
    ViolatedFieldsEmpty(m, CheckedFields);
    assert CheckedFields[0] == "videoId" && CheckedFields[2] == "views" && CheckedFields[3] == "likes";
    assert CheckedFields[4] == "dislikes" && CheckedFields[5] == "comments" && CheckedFields[6] == "shares";
    assert CheckedFields[7] == "watchTime" && CheckedFields[8] == "averageViewDuration";
    assert CheckedFields[9] == "engagementRate" && |CheckedFields| == 10;
  }

  function AllErrors(ms: seq<VideoMetrics>): seq<ValidationIssue>
  {
    if |ms| == 0 then [] else AllErrors(ms[..|ms| - 1]) + RecordErrors(ms[|ms| - 1])
  }

  function AllWarnings(ms: seq<VideoMetrics>): seq<ValidationIssue>
  {
    if |ms| == 0 then [] else AllWarnings(ms[..|ms| - 1]) + RecordWarnings(ms[|ms| - 1])
  }

  /**
   * `validateMetrics`: the errors and warnings of every record, record by
   * record; valid exactly when every record is sane. Warnings play no part
   * in validity.
   */
  method ValidateMetrics(ms: seq<VideoMetrics>) returns (r: ValidationResult)
    ensures r == ValidationResult(|AllErrors(ms)| == 0, AllErrors(ms), AllWarnings(ms))
    ensures r.isValid <==> forall i :: 0 <= i < |ms| ==> Sane(ms[i])
  {
    var errors: seq<ValidationIssue> := [];
    var warnings: seq<ValidationIssue> := [];
    var i := 0;
    while i < |ms|
      invariant 0 <= i <= |ms|
      invariant errors == AllErrors(ms[..i])
      invariant warnings == AllWarnings(ms[..i])
    {
      PrefixStep(ms, i);
      errors := errors + RecordErrors(ms[i]);
      warnings := warnings + RecordWarnings(ms[i]);
      i := i + 1;
    }
    assert ms[..i] == ms;
    AllErrorsEmpty(ms);
    r := ValidationResult(|errors| == 0, errors, warnings);
  }

  /** A batch draws no error exactly when every record in it is sane. */
  lemma {:induction false} AllErrorsEmpty(ms: seq<VideoMetrics>)
    ensures |AllErrors(ms)| == 0 <==> forall j :: 0 <= j < |ms| ==> Sane(ms[j])
  {
    if |ms| > 0 {
      var p := ms[..|ms| - 1];
      AllErrorsEmpty(p);
      RecordErrorsEmpty(ms[|ms| - 1]);
      assert forall j :: 0 <= j < |p| ==> p[j] == ms[j];
    }
  }

  /** The lists of the first `i + 1` records extend those of the first `i` by record `i`'s own. */
  lemma PrefixStep(ms: seq<VideoMetrics>, i: int)
    requires 0 <= i < |ms|
    ensures AllErrors(ms[..i + 1]) == AllErrors(ms[..i]) + RecordErrors(ms[i])
    ensures AllWarnings(ms[..i + 1]) == AllWarnings(ms[..i]) + RecordWarnings(ms[i])
  {
    assert ms[..i + 1][..i] == ms[..i];
  }

  /** The warning rules, as a record's warning list reports them. */
  lemma RecordWarningRules(m: VideoMetrics)
    ensures (exists k :: 0 <= k < |RecordWarnings(m)| && RecordWarnings(m)[k].field == "likes") <==> m.likes > m.views
    ensures (exists k :: 0 <= k < |RecordWarnings(m)| && RecordWarnings(m)[k].field == "averageViewDuration")
        <==> m.averageViewDuration > m.watchTime && m.views > 1.0
  {
    var w := RecordWarnings(m);
    assert forall k :: 0 <= k < |w| ==> w[k].field == "likes" || w[k].field == "averageViewDuration";
    if m.likes > m.views {
      assert w[0].field == "likes";
    } else {
      assert forall k :: 0 <= k < |w| ==> w[k].field == "averageViewDuration";
    }
    if m.averageViewDuration > m.watchTime && m.views > 1.0 {
      assert w[|w| - 1].field == "averageViewDuration";
    } else {
      assert forall k :: 0 <= k < |w| ==> w[k].field == "likes";
    }
  }

  /**
   * No record draws a timestamp error, an Invalid Date included: the check
   * only catches a missing value, and a typed record always holds a `Date`.
   */
  lemma InvalidDateNotFlagged(m: VideoMetrics)
    ensures forall k :: 0 <= k < |RecordErrors(m)| ==> RecordErrors(m)[k].field != "timestamp"
  {
    RecordErrorOrder(m);
    NeverViolated(m, CheckedFields, "timestamp");
    forall k | 0 <= k < |RecordErrors(m)|
      ensures RecordErrors(m)[k].field != "timestamp"
    {
      FieldNamesAt(RecordErrors(m), k);
    }
  }

  /** A field that `m` does not violate is never listed among its violated fields. */
  lemma {:induction false} NeverViolated(m: VideoMetrics, fields: seq<string>, f: string)
    requires !Violates(m, f)
    ensures f !in ViolatedFields(m, fields)
  {
    if |fields| > 0 {
      NeverViolated(m, fields[1..], f);
    }
  }

  lemma {:induction false} FieldNamesAt(issues: seq<ValidationIssue>, k: int)
    requires 0 <= k < |issues|
    ensures FieldNames(issues)[k] == issues[k].field
  {
    if k > 0 {
      FieldNamesAt(issues[1..], k - 1);
    }
  }

  // ---------------------------------------------------------------------------
  // Derived metrics (`calculateDerivedMetrics`)
  // ---------------------------------------------------------------------------

  function Min(a: real, b: real): real {
    if a <= b then a else b
  }

  /**
   * Fills engagement rate and average view duration when they are exactly 0
   * and views are positive; caps the engagement rate at 1.0 in every case.
   */
  function DeriveRecord(m: VideoMetrics): (r: VideoMetrics)
    ensures r == m.(engagementRate := r.engagementRate, averageViewDuration := r.averageViewDuration)
    ensures r.engagementRate <= 1.0
    ensures m.engagementRate != 0.0 ==> r.engagementRate == Min(m.engagementRate, 1.0)
    ensures m.engagementRate == 0.0 && m.views <= 0.0 ==> r.engagementRate == 0.0
    ensures m.engagementRate == 0.0 && m.views > 0.0 ==>
      r.engagementRate == Min((m.likes + m.comments + m.shares) / m.views, 1.0)
    ensures m.averageViewDuration != 0.0 || m.views <= 0.0 ==> r.averageViewDuration == m.averageViewDuration
    ensures m.averageViewDuration == 0.0 && m.views > 0.0 ==> r.averageViewDuration * m.views == m.watchTime
  {
    var engagementRate :=
      if m.engagementRate == 0.0 && m.views > 0.0
      then (m.likes + m.comments + m.shares) / m.views
      else m.engagementRate;
    var averageViewDuration :=
      if m.averageViewDuration == 0.0 && m.views > 0.0
      then m.watchTime / m.views
      else m.averageViewDuration;
    m.(engagementRate := Min(engagementRate, 1.0), averageViewDuration := averageViewDuration)
  }

  /** `calculateDerivedMetrics`: derives every record, keeping length and order. */
  function CalculateDerivedMetrics(ms: seq<VideoMetrics>): (r: seq<VideoMetrics>)
    ensures |r| == |ms|
    ensures forall i :: 0 <= i < |ms| ==> r[i] == DeriveRecord(ms[i])
    ensures forall i :: 0 <= i < |ms| ==>
      r[i] == ms[i].(engagementRate := r[i].engagementRate, averageViewDuration := r[i].averageViewDuration)
    ensures forall i :: 0 <= i < |ms| ==> r[i].engagementRate <= 1.0
  {
    seq(|ms|, i requires 0 <= i < |ms| => DeriveRecord(ms[i]))
  }

  lemma DeriveRecordIdempotent(m: VideoMetrics)
    ensures DeriveRecord(DeriveRecord(m)) == DeriveRecord(m)
  {
  }

  /** Deriving twice gives what deriving once gives. */
  lemma DerivedMetricsIdempotent(ms: seq<VideoMetrics>)
    ensures CalculateDerivedMetrics(CalculateDerivedMetrics(ms)) == CalculateDerivedMetrics(ms)
  {
    forall i | 0 <= i < |ms| {
      DeriveRecordIdempotent(ms[i]);
    }
  }

  /** The three worked cases: fill (0.175 and 15), cap (1.0), keep (0.2 and 200). */
  lemma DerivedExamples(t: Date)
    ensures DeriveRecord(VideoMetrics("video-123", t, 1000.0, 100.0, 5.0, 50.0, 25.0, 15000.0, 0.0, 0.0)).engagementRate == 0.175
    ensures DeriveRecord(VideoMetrics("video-123", t, 1000.0, 100.0, 5.0, 50.0, 25.0, 15000.0, 0.0, 0.0)).averageViewDuration == 15.0
    ensures DeriveRecord(VideoMetrics("video-123", t, 100.0, 200.0, 5.0, 50.0, 25.0, 1500.0, 0.0, 0.0)).engagementRate == 1.0
    ensures DeriveRecord(VideoMetrics("video-123", t, 1000.0, 100.0, 5.0, 50.0, 25.0, 15000.0, 200.0, 0.2))
         == VideoMetrics("video-123", t, 1000.0, 100.0, 5.0, 50.0, 25.0, 15000.0, 200.0, 0.2)
  {
  }

  /** A record with no negative count or rate reads non-negative on every field name. */
  lemma NumericFieldsNonNegative(m: VideoMetrics)
    requires m.views >= 0.0 && m.likes >= 0.0 && m.dislikes >= 0.0 && m.comments >= 0.0
    requires m.shares >= 0.0 && m.watchTime >= 0.0 && m.averageViewDuration >= 0.0
    ensures NegativeFieldErrors(m, NumericFields) == []
  {
    NegativeFieldErrorsNone(m, NumericFields);
  }

  /** The worked record without an id: only the id is reported. */
  lemma MissingIdExample(t: Date)
    ensures RecordErrors(VideoMetrics("", t, 1000.0, 100.0, 5.0, 50.0, 25.0, 15000.0, 150.0, 0.18))
         == [ValidationIssue("videoId", "Video ID is required", TextValue(""))]
  {
    NumericFieldsNonNegative(VideoMetrics("", t, 1000.0, 100.0, 5.0, 50.0, 25.0, 15000.0, 150.0, 0.18));
  }

  /** The worked record with negative views: only the views are reported. */
  lemma NegativeViewsExample(t: Date)
    ensures RecordErrors(VideoMetrics("video-123", t, -100.0, 100.0, 5.0, 50.0, 25.0, 15000.0, 150.0, 0.18))
         == [ValidationIssue("views", "views cannot be negative", NumberValue(-100.0))]
  {
    var m := VideoMetrics("video-123", t, -100.0, 100.0, 5.0, 50.0, 25.0, 15000.0, 150.0, 0.18);
    OnlyViewsNegative(m);
    ViewsCheckedFirst(m);
  }

  /** The views are the first field checked for a negative value. */
  lemma ViewsCheckedFirst(m: VideoMetrics)
    requires m.views < 0.0
    ensures NegativeFieldErrors(m, NumericFields)
         == [ValidationIssue("views", "views cannot be negative", NumberValue(m.views))] + NegativeFieldErrors(m, NumericFields[1..])
  {
    assert NumericFields[0] == "views";
    assert "views" + " cannot be negative" == "views cannot be negative";
  }

  /** When only the views are negative, the fields after them add no error. */
  lemma OnlyViewsNegative(m: VideoMetrics)
    requires m.likes >= 0.0 && m.dislikes >= 0.0 && m.comments >= 0.0
    requires m.shares >= 0.0 && m.watchTime >= 0.0 && m.averageViewDuration >= 0.0 && m.engagementRate >= 0.0
    ensures NegativeFieldErrors(m, NumericFields[1..]) == []
  {
    var rest := NumericFields[1..];
    assert rest == ["likes", "dislikes", "comments", "shares", "watchTime", "averageViewDuration"];
    NegativeFieldErrorsNone(m, rest);
  }

  /** The worked record with a rate of 1.5: only the rate is reported. */
  lemma RateOutOfRangeExample(t: Date)
    ensures RecordErrors(VideoMetrics("video-123", t, 1000.0, 100.0, 5.0, 50.0, 25.0, 15000.0, 150.0, 1.5))
         == [ValidationIssue("engagementRate", "Engagement rate must be between 0 and 1", NumberValue(1.5))]
  {
    NumericFieldsNonNegative(VideoMetrics("video-123", t, 1000.0, 100.0, 5.0, 50.0, 25.0, 15000.0, 150.0, 1.5));
  }

  /** The worked record with likes above views: no error, one warning. */
  lemma LikesAboveViewsExample(t: Date)
    ensures RecordErrors(VideoMetrics("video-123", t, 1000.0, 2000.0, 5.0, 50.0, 25.0, 15000.0, 150.0, 0.18)) == []
    ensures RecordWarnings(VideoMetrics("video-123", t, 1000.0, 2000.0, 5.0, 50.0, 25.0, 15000.0, 150.0, 0.18))
         == [ValidationIssue("likes", "Likes exceed views, which is unusual", NumberValue(2000.0))]
  {
    NumericFieldsNonNegative(VideoMetrics("video-123", t, 1000.0, 2000.0, 5.0, 50.0, 25.0, 15000.0, 150.0, 0.18));
  }
}

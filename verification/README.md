# rankiro core, modelled in Dafny

This project models the core of the rankiro video-ranking monorepo:

- The analytics processor `DefaultDataProcessor`. It parses untyped metric records leniently and validates them. It fills in derived engagement and view-duration figures, and aggregates records into hour, day, week or month buckets per video.
- The ranking service `DefaultRankingService`. It scores videos with a pluggable algorithm and sorts the batch stably by descending score. It then assigns ranks 1..N, saves the batch, and gates ranking weights.
- The CDK helpers. `CDKNamingUtils` builds resource names, bucket names, log-group names and tags, and classifies environments. `EnvironmentConfigReader` builds per-environment deployment settings from defaults, overrides, the CDK context or environment variables.
- The small validators of `validation.ts` and the date helpers of `date-utils.ts`.

Every operation is a pure function, or in two cases a method with a loop. Numbers are `real`. A `Date` is `Option<int>`: its time value in milliseconds, or `None` for an Invalid Date. Local calendar fields come from a civil calendar built here (`Calendar`) and a fixed zone offset `zone`, in milliseconds east of UTC. Values typed `unknown` in the source are a `JsValue`. The wall clock is a parameter wherever the source reads it.

`processMetrics` accepts arrays, because `typeof []` is `'object'` (packages/rankiro/src/analytics/data-processor.ts:165). `ParseRawMetrics` parses an array as an object with no fields.

Modules:

| file | module | models |
|---|---|---|
| wrappers.dfy | `Wrappers` | `Option`, `Result` (a value or a thrown message), `Outcome` (pass or a thrown message) |
| text.dfy | `Text` | `toLowerCase` (ASCII), `trim`, `Array.join`, decimal printing of integers |
| types.dfy | `Types`, `AnalyticsTypes`, `JsValues` | the records of `data/types.ts` and `analytics/interfaces.ts`; untyped JavaScript values |
| calendar.dfy | `Calendar` | the proleptic Gregorian calendar behind `getFullYear`/`getMonth`/`getDate`/`getDay`/`getHours` |
| data_processor.dfy | `MetricsProcessing` | `processMetrics`, `parseRawMetrics`, `validateMetrics`, `calculateDerivedMetrics` |
| aggregation.dfy | `Aggregation` | `getPeriodKey`, `getPeriodDate`, `aggregateMetrics` |
| stable_sort.dfy | `StableSort` | the stable `Array.prototype.sort` by descending score |
| ranking_service.dfy | `RankingService` | `calculateRankingScore`, `calculateBatchRankingScores`, `updateRankingFactors`, `validateRankingFactors` |
| naming.dfy | `Naming` | `CDKNamingUtils` |
| environment_config.dfy | `EnvironmentConfigReader` | `EnvironmentConfigReader` |
| validation.dfy | `Validation` | `validation.ts` |
| date_utils.dfy | `DateUtils` | `date-utils.ts` |

## Model

| member | source | states |
|---|---|---|
| Text.Lower | packages/cdk-utils/src/naming/cdk-naming-utils.ts:35 | lower-casing maps each character on its own and keeps the length |
| Text.LowerIsLowerCase | packages/cdk-utils/src/naming/cdk-naming-utils.ts:35 | a lower-cased string has no upper-case letter, and lower-casing it again changes nothing |
| Text.LowerConcat | packages/cdk-utils/src/naming/cdk-naming-utils.ts:35 | lower-casing a joined name is joining the lower-cased parts |
| Text.Trim | packages/rankiro/src/utils/validation.ts:6 | trim removes only white space, and only from the two ends, leaving a slice with no white space at either end |
| Text.TrimFixedPoint | packages/rankiro/src/utils/validation.ts:6 | a string equals its trim exactly when it is empty or has no white space at either end |
| Text.TrimIdempotent | packages/rankiro/src/utils/validation.ts:37 | trimming twice is trimming once |
| Text.LowerMatches | packages/cdk-utils/src/naming/cdk-naming-utils.ts:157-176 | a string lower-cases to a lower-case word exactly when it spells that word in any letter case |
| Text.NatToString | packages/cdk-utils/src/naming/cdk-naming-utils.ts:67 | a non-empty run of decimal digits, without a leading zero, whose decimal value is the number, so different numbers print differently |
| Calendar.CivilOfDay | packages/rankiro/src/analytics/data-processor.ts:190-192 | every day number has a valid year, month (0-11) and day of month that count back to that day |
| Calendar.CivilOfDayInjective | packages/rankiro/src/analytics/data-processor.ts:190-192 | two days have the same calendar date exactly when they are the same day |
| Calendar.CivilOfDayOfCivil | packages/rankiro/src/analytics/data-processor.ts:190-192 | every valid calendar date is the date of its own day number |
| Calendar.MonthUnique | packages/rankiro/src/analytics/data-processor.ts:190-192 | a day of the year lies in exactly one month |
| Calendar.MonthStartDay | packages/rankiro/src/analytics/data-processor.ts:226 | `setDate(1)` moves to the first day of the same month, never later |
| Calendar.Weekday | packages/rankiro/src/analytics/data-processor.ts:202 | `getDay` is in 0..6 |
| Calendar.WeekdayCycle | packages/rankiro/src/analytics/data-processor.ts:202 | the weekday advances by one each day and wraps after Saturday (6), and 1970-01-04, a Sunday, has weekday 0 |
| Calendar.HourOfDay | packages/rankiro/src/analytics/data-processor.ts:193 | `getHours` is in 0..23 and is the hour of the local day that contains the instant |
| MetricsProcessing.ParseRawMetrics | packages/rankiro/src/analytics/data-processor.ts:164-187 | null, undefined and primitives give no record; every object (arrays included) gives one, each field present or defaulted ("" id, Invalid Date, 0 counters) |
| MetricsProcessing.ParseRoundTrip | packages/rankiro/src/analytics/data-processor.ts:172-183 | an object carrying every field of a record parses back to that record |
| MetricsProcessing.ParseEmptyObject | packages/rankiro/tests/data-processor.test.ts:65-82 | an object without fields, and an array, parse to an empty id, an Invalid Date and zeros |
| MetricsProcessing.ProcessMetrics | packages/rankiro/src/analytics/data-processor.ts:15-31 | one record per object input, in input order, each the parse of its input; non-objects are skipped |
| MetricsProcessing.AcceptedConcat | packages/rankiro/src/analytics/data-processor.ts:18-28 | processing is element-wise: processing a concatenation concatenates the results |
| MetricsProcessing.AcceptedSkipsNonObject | packages/rankiro/tests/data-processor.test.ts:48-63 | a null, undefined or primitive input changes nothing for the others |
| MetricsProcessing.NegativeFieldErrorsFields | packages/rankiro/src/analytics/data-processor.ts:55-66 | the negative-value errors name exactly the negative counters, in checking order |
| MetricsProcessing.RecordErrorOrder | packages/rankiro/src/analytics/data-processor.ts:37-75 | a record's errors name exactly its violated fields, in the order id, timestamp, the seven counters, engagement rate |
| MetricsProcessing.RecordErrorsEmpty | packages/rankiro/src/analytics/data-processor.ts:37-75 | a record has no error exactly when it is sane (id non-empty, counters non-negative, rate in [0, 1]) |
| MetricsProcessing.ValidateMetrics | packages/rankiro/src/analytics/data-processor.ts:33-100 | the errors and warnings of all records, record by record; valid exactly when there is no error, that is when every record is sane; warnings never decide validity |
| MetricsProcessing.AllErrorsEmpty | packages/rankiro/src/analytics/data-processor.ts:33-100 | a batch has no error exactly when every one of its records is sane |
| MetricsProcessing.RecordWarningRules | packages/rankiro/src/analytics/data-processor.ts:77-92 | a likes warning exactly when likes exceed views; a duration warning exactly when average duration exceeds watch time with more than one view |
| MetricsProcessing.InvalidDateNotFlagged | packages/rankiro/src/analytics/data-processor.ts:47-53 | no record, whatever its other errors, draws a timestamp error; so an Invalid Date is never reported |
| MetricsProcessing.DeriveRecord | packages/rankiro/src/analytics/data-processor.ts:141-161 | only rate and average duration change; a zero rate with positive views becomes engagement over views; a zero duration with positive views becomes watch time over views; the rate is capped at 1 |
| MetricsProcessing.CalculateDerivedMetrics | packages/rankiro/src/analytics/data-processor.ts:141-162 | one derived record per input, in order, every rate at most 1 |
| MetricsProcessing.DerivedMetricsIdempotent | packages/rankiro/src/analytics/data-processor.ts:141-162 | deriving twice gives what deriving once gives |
| MetricsProcessing.DerivedExamples | packages/rankiro/tests/data-processor.test.ts:212-270 | the fill (0.175 and 15), cap (1.0) and keep (0.2 and 200) cases |
| MetricsProcessing.NumericFieldsNonNegative | packages/rankiro/src/analytics/data-processor.ts:55-66 | a record with no negative counter gets no negative-field error |
| MetricsProcessing.MissingIdExample | packages/rankiro/tests/data-processor.test.ts:98-156 | a record with an empty id gets exactly the "Video ID is required" error |
| MetricsProcessing.NegativeViewsExample | packages/rankiro/tests/data-processor.test.ts:98-156 | a record with views -100 gets exactly the "views cannot be negative" error |
| MetricsProcessing.RateOutOfRangeExample | packages/rankiro/tests/data-processor.test.ts:98-156 | a rate of 1.5 gets exactly the engagement-rate range error |
| MetricsProcessing.LikesAboveViewsExample | packages/rankiro/tests/data-processor.test.ts:98-156 | likes above views is no error and exactly one "Likes exceed views" warning |
| Aggregation.GetPeriodKey | packages/rankiro/src/analytics/data-processor.ts:189-209 | the NaN key exactly for an Invalid Date; otherwise an hour key exactly for hour grouping and a month key exactly for month grouping |
| Aggregation.PeriodKeyNamesBucket | packages/rankiro/src/analytics/data-processor.ts:189-209 | an hour key names the local day and the hour containing the instant, a day key the local day, a week key the Sunday that starts the local week, a month key the month containing the local day |
| Aggregation.GetPeriodDate | packages/rankiro/src/analytics/data-processor.ts:211-232 | the bucket start is at or before the instant and less than one bucket before it; it falls on a local hour or midnight, on a Sunday for weeks and on the 1st for months; Invalid Date stays invalid |
| Aggregation.PeriodKeyMatchesDate | packages/rankiro/src/analytics/data-processor.ts:189-232 | two dates get the same period key exactly when they get the same bucket start |
| Aggregation.PeriodDateIdempotent | packages/rankiro/src/analytics/data-processor.ts:211-232 | the bucket of a bucket start is itself |
| Aggregation.FirstSeen | packages/rankiro/src/analytics/data-processor.ts:138 | the distinct keys, each once, every key present |
| Aggregation.SummaryStep | packages/rankiro/src/analytics/data-processor.ts:115-123 | absorbing one more record extends the exact totals and merges the rate pairwise |
| Aggregation.FoldSummarises | packages/rankiro/src/analytics/data-processor.ts:106-138 | the map after the loop has one entry per distinct key, in first-seen order, each the summary of that key's records |
| Aggregation.FoldPair | packages/rankiro/src/analytics/data-processor.ts:112-135 | two records with one key merge into one entry; two keys give two seeded entries |
| Aggregation.AggregateMetrics | packages/rankiro/src/analytics/data-processor.ts:102-139 | one aggregate per distinct (video, bucket), in order of first appearance, with the group's exact totals, its pairwise-merged rate, and its first record's video and bucket start |
| Aggregation.GroupKeyMeansBucket | packages/rankiro/src/analytics/data-processor.ts:109-110 | two records share an aggregate exactly when they have the same video and the same bucket start |
| Aggregation.AggregateIsHomogeneous | packages/rankiro/src/analytics/data-processor.ts:108-135 | every record of an aggregate has that aggregate's video and bucket |
| Aggregation.AggregateByDayExample | packages/rankiro/tests/data-processor.test.ts:158-209 | two records of one day merge into totals 1500 and 150 with rate (0.18 + 0.17) / 2; no records give none |
| Aggregation.AggregateByHourExample | packages/rankiro/tests/data-processor.test.ts:158-209 | grouped by hour, the same two records stay apart, in input order |
| Aggregation.SourceAggregateMetrics | packages/rankiro/src/analytics/data-processor.ts:106-138 | grouping by the joined string key `id-period`: one aggregate per distinct string, with exact totals |
| Aggregation.SourceKeyCoarser | packages/rankiro/src/analytics/data-processor.ts:110 | records the pair key groups together, the string key groups together too |
| Aggregation.SourceKeyCollision | packages/rankiro/src/analytics/data-processor.ts:110 | video "a" in year -1 (2 BCE) and video "a-" in year 1 share the string key "a--1-0-1" and are merged into one aggregate; the pair key keeps them apart |
| Aggregation.SourceKeyCollisionWitness | packages/rankiro/src/analytics/data-processor.ts:110 | concrete records of video "a" on -000001-01-01 and video "a-" on 0001-01-01 meet the premises: one string-key aggregate, two pair-key aggregates |
| StableSort.Insert | packages/rankiro/src/ranking/ranking-service.ts:52 | inserting into a sorted sequence keeps it sorted and adds exactly one element |
| StableSort.InsertionSort | packages/rankiro/src/ranking/ranking-service.ts:52 | the sort yields a permutation of its input in descending key order |
| StableSort.InsertionSortStable | packages/rankiro/src/ranking/ranking-service.ts:52 | elements with equal keys keep their input order |
| StableSort.SortedUnique | packages/rankiro/src/ranking/ranking-service.ts:52 | a descending order that keeps equal keys in input order is unique |
| RankingService.CalculateRankingScore | packages/rankiro/src/ranking/ranking-service.ts:14-33 | the video's id and category, rank 0, the given factors and time, and the boosted algorithm score |
| RankingService.MetricsIndex | packages/rankiro/src/ranking/ranking-service.ts:40 | the map holds every video id that has metrics, with the last record for that id |
| RankingService.Matched | packages/rankiro/src/ranking/ranking-service.ts:43-49 | every kept video is an input video that has metrics, and every input video with metrics is kept |
| RankingService.MatchedConcat | packages/rankiro/src/ranking/ranking-service.ts:43-49 | filtering a concatenation concatenates the filtered parts, so kept videos stay in input order |
| RankingService.MatchedSingle | packages/rankiro/src/ranking/ranking-service.ts:43-49 | a single video is kept, once, exactly when it has metrics |
| RankingService.CalculateBatchRankingScores | packages/rankiro/src/ranking/ranking-service.ts:35-62 | one score per video with metrics; sorted by descending score, stably; ranked 1..N by position; the batch is saved exactly once and is what is returned |
| RankingService.BatchOrderDetermined | packages/rankiro/src/ranking/ranking-service.ts:52-56 | any stable descending order of the single scores is the batch's order: the result is fully determined |
| RankingService.BatchCoversAllMatched | packages/rankiro/src/ranking/ranking-service.ts:43-49 | the batch covers every video exactly when every video has metrics |
| RankingService.MatchedMeansHasMetrics | packages/rankiro/src/ranking/ranking-service.ts:43-49 | a video is scored exactly when some metrics record carries its id |
| RankingService.ValidateRankingFactors | packages/rankiro/src/ranking/ranking-service.ts:85-107 | pass exactly when the weights sum to 1 within 0.001 and each is in [0, 1]; the sum error comes first, then the range error |
| RankingService.UpdateRankingFactors | packages/rankiro/src/ranking/ranking-service.ts:68-72 | the validation outcome, with the repository untouched |
| RankingService.RangeFailureCause | packages/rankiro/src/ranking/ranking-service.ts:92-106 | with no negative weight, a range failure needs a weight just above 1 that the sum tolerance let through |
| RankingService.ExactWeightsPass | packages/rankiro/src/ranking/ranking-service.ts:85-107 | weights in [0, 1] summing to exactly 1 pass |
| RankingService.MockBoostFactor | packages/rankiro/tests/ranking-service.test.ts:21-25 | the test algorithm's boost multiplies by 1 or 1.1 |
| RankingService.MockScorePositive | packages/rankiro/tests/ranking-service.test.ts:97-109 | with positive views and weight the test algorithm's score is positive |
| RankingService.FactorExamples | packages/rankiro/tests/ranking-service.test.ts:154-178 | the test factors pass; a sum of 1.1 fails on the sum; a negative weight fails on the range |
| RankingService.BatchRanksByViews | packages/rankiro/tests/ranking-service.test.ts:111-134 | with the test algorithm, two measured videos rank 1 and 2 with the higher-viewed first |
| RankingService.BatchDropsUnmeasured | packages/rankiro/tests/ranking-service.test.ts:111-134 | a video without metrics is dropped from the batch, and the measured one ranks 1 |
| Naming.JoinOptional | packages/cdk-utils/src/naming/cdk-naming-utils.ts:29-35 | joining with "-" after pushing only the truthy optional parts appends "-part" for each of them |
| Naming.ResourceName | packages/cdk-utils/src/naming/cdk-naming-utils.ts:28-36 | the lower-cased `project-environment-type-name`, plus `-suffix` when the suffix is non-empty; always lower case |
| Naming.TypedName | packages/cdk-utils/src/naming/cdk-naming-utils.ts:41-112 | each typed name is the resource name with its fixed type token in third place |
| Naming.TypedNamesDistinct | packages/cdk-utils/src/naming/cdk-naming-utils.ts:41-112 | two different resource kinds never give the same name |
| Naming.LogGroupName | packages/cdk-utils/src/naming/cdk-naming-utils.ts:117-119 | `/aws/lambda/` followed by the `log` resource name, all lower case |
| Naming.BucketName | packages/cdk-utils/src/naming/cdk-naming-utils.ts:55-70 | the lower-cased `project-environment-name`, plus `-region` and `-suffix` when non-empty, then `-` and the decimal time; always lower case |
| Naming.BucketNamesUnique | packages/cdk-utils/src/naming/cdk-naming-utils.ts:55-70 | bucket names taken at two different times differ |
| Naming.ResourceTags | packages/cdk-utils/src/naming/cdk-naming-utils.ts:124-131 | the three default tags plus the additional ones, an additional tag overriding a default one |
| Naming.IsProduction | packages/cdk-utils/src/naming/cdk-naming-utils.ts:157-160 | the name spells "prod" or "production" in any letter case |
| Naming.IsDevelopment | packages/cdk-utils/src/naming/cdk-naming-utils.ts:165-168 | the name spells "dev" or "development" in any letter case |
| Naming.IsStaging | packages/cdk-utils/src/naming/cdk-naming-utils.ts:173-176 | the name spells "staging" or "stage" in any letter case |
| Naming.ClassesExclusive | packages/cdk-utils/src/naming/cdk-naming-utils.ts:157-176 | no environment is two of production, development and staging |
| Naming.ClassesIgnoreCase | packages/cdk-utils/src/naming/cdk-naming-utils.ts:157-176 | the classification does not depend on letter case |
| Naming.ResourceNameExample | packages/cdk-utils/tests/naming-utils.test.ts:42-45 | `rankiro-dev-lambda-api-handler-test` |
| Naming.LogGroupExample | packages/cdk-utils/tests/naming-utils.test.ts:109-113 | `/aws/lambda/rankiro-dev-log-api-test` |
| Naming.NoSuffixExample | packages/cdk-utils/tests/naming-utils.test.ts:47-55 | an empty suffix is left out |
| Naming.UpperCaseExample | packages/cdk-utils/tests/naming-utils.test.ts:57-66 | upper-case parts come out lower case |
| Naming.ClassificationExamples | packages/cdk-utils/tests/naming-utils.test.ts:187-255 | the test suite's classifications |
| EnvironmentConfigReader.ProfileOf | packages/cdk-utils/src/config/environment-config.ts:96-171 | the profile chosen is development, staging or production exactly when the naming utilities classify the name so |
| EnvironmentConfigReader.GetDefaultConfig | packages/cdk-utils/src/config/environment-config.ts:88-172 | the base settings (us-east-1, empty account, rankiro) always; database, monitoring and security blocks exactly for a known profile; Postgres; instance class t3.micro, t3.small or t3.medium by profile; multi-AZ, deletion protection and GuardDuty only in production; WAF outside development |
| EnvironmentConfigReader.ProfilesScaleUp | packages/cdk-utils/tests/environment-config.test.ts:69-99 | instance class, backup retention and log retention grow from development to staging to production |
| EnvironmentConfigReader.DefaultsIgnoreCase | packages/cdk-utils/src/config/environment-config.ts:96 | the defaults of a name and of its lower-cased form differ only in the environment field |
| EnvironmentConfigReader.MergeWithDefaults | packages/cdk-utils/src/config/environment-config.ts:199-211 | the environment is always the parameter; a given top-level property wins over the default; a given nested block is the default's block overridden field by field; an absent nested block keeps the default's |
| EnvironmentConfigReader.MergeVpc | packages/cdk-utils/src/config/environment-config.ts:206 | over an absent block the given block; over a present one each field the given value when present, else the base value |
| EnvironmentConfigReader.MergeDatabase | packages/cdk-utils/src/config/environment-config.ts:207 | the given engine; over an absent block the given block; over a present one each field the given value when present, else the base value |
| EnvironmentConfigReader.MergeMonitoring | packages/cdk-utils/src/config/environment-config.ts:208 | over an absent block the given block; over a present one each field the given value when present, else the base value |
| EnvironmentConfigReader.MergeSecurity | packages/cdk-utils/src/config/environment-config.ts:209 | over an absent block the given block; over a present one each field the given value when present, else the base value |
| EnvironmentConfigReader.MergeEmptyIsDefault | packages/cdk-utils/src/config/environment-config.ts:199-211 | merging nothing gives the defaults |
| EnvironmentConfigReader.MergeOfDefaultsIsIdentity | packages/cdk-utils/src/config/environment-config.ts:199-211 | merging the defaults over themselves gives them back |
| EnvironmentConfigReader.MergeIdempotent | packages/cdk-utils/src/config/environment-config.ts:199-211 | merging a merged configuration again changes nothing |
| EnvironmentConfigReader.MergeExamples | packages/cdk-utils/tests/environment-config.test.ts:124-170 | the test suite's merge scenarios |
| EnvironmentConfigReader.ValidateConfig | packages/cdk-utils/src/config/environment-config.ts:177-194 | the region error first, then the account error, success exactly when both are non-empty; the project is the entry's when non-empty, else rankiro; domain, certificate, hosted zone and the nested blocks are the entry's; the entry's own environment property wins over the parameter |
| EnvironmentConfigReader.FromContext | packages/cdk-utils/src/config/environment-config.ts:54-62 | a missing context entry is the "not found" error; a present one is validated |
| EnvironmentConfigReader.ContextExamples | packages/cdk-utils/tests/environment-config.test.ts:173-237 | the test suite's context scenarios |
| EnvironmentConfigReader.FromEnvironmentVariables | packages/cdk-utils/src/config/environment-config.ts:67-83 | success exactly when AWS_ACCOUNT_ID or CDK_DEFAULT_ACCOUNT is non-empty; region from AWS_REGION, else CDK_DEFAULT_REGION, else us-east-1; account from AWS_ACCOUNT_ID, else CDK_DEFAULT_ACCOUNT; project from PROJECT_NAME, else rankiro; domain, certificate and hosted zone as set; no nested blocks |
| EnvironmentConfigReader.EnvironmentVariableExamples | packages/cdk-utils/tests/environment-config.test.ts:20-66 | the test suite's environment-variable scenarios |
| Validation.IsValidId | packages/rankiro/src/utils/validation.ts:5-7 | a non-empty string with no white space at either end |
| Validation.EmailShapeMatches | packages/rankiro/src/utils/validation.ts:12-13 | the matcher accepts exactly the strings of `^[^\s@]+@[^\s@]+\.[^\s@]+$` |
| Validation.IsValidEmail | packages/rankiro/src/utils/validation.ts:9-14 | a string that matches the pattern |
| Validation.AcceptedEmailShape | packages/rankiro/src/utils/validation.ts:9-14 | an accepted address has no white space and one '@' after a non-empty local part, and its domain holds a '.' with text on both sides |
| Validation.EmailAccepted | packages/rankiro/src/utils/validation.ts:12 | `a@b.c` is accepted |
| Validation.EmailWithoutDotRejected | packages/rankiro/src/utils/validation.ts:12 | `a@b` is rejected |
| Validation.EmailWithSpaceRejected | packages/rankiro/src/utils/validation.ts:12 | `a @b.c` is rejected |
| Validation.EmailWithTwoAtsRejected | packages/rankiro/src/utils/validation.ts:12 | `a@b@c.d` is rejected |
| Validation.IsPositiveNumber | packages/rankiro/src/utils/validation.ts:27-29 | a number at least 0; NaN and non-numbers are rejected |
| Validation.IsValidPercentage | packages/rankiro/src/utils/validation.ts:31-33 | a number in [0, 1]; NaN and non-numbers are rejected |
| Validation.PercentageIsPositive | packages/rankiro/src/utils/validation.ts:27-33 | every percentage is a positive number; the positive numbers that are not percentages are those above 1 |
| Validation.RemoveAngles | packages/rankiro/src/utils/validation.ts:37 | no '<' or '>' is left, no character is added, and a string without them is unchanged |
| Validation.RemoveAnglesKeepsOthers | packages/rankiro/src/utils/validation.ts:37 | every character other than '<' and '>' occurs as often after stripping as before |
| Validation.RemoveAnglesConcat | packages/rankiro/src/utils/validation.ts:37 | stripping a concatenation concatenates the stripped parts, so the kept characters keep their order |
| Validation.SanitizeString | packages/rankiro/src/utils/validation.ts:35-38 | "" for a non-string; otherwise the trimmed input with every '<' and '>' removed: no longer than the input and without angle brackets |
| Validation.SanitizeStringNotIdempotent | packages/rankiro/src/utils/validation.ts:37 | sanitizing `"< a"` gives `" a"`, and sanitizing that again gives `"a"` |
| Validation.Sanitize | packages/rankiro/src/utils/validation.ts:35-38 | "" for a non-string; otherwise the input with every '<' and '>' removed, then trimmed: no angle bracket, no white space at either end |
| Validation.SanitizeIdempotent | packages/rankiro/src/utils/validation.ts:35-38 | sanitizing twice gives what sanitizing once gives |
| Validation.SanitizeAgreesWithoutAngles | packages/rankiro/src/utils/validation.ts:35-38 | on input without angle brackets both step orders give the trim |
| Validation.ValidateRequired | packages/rankiro/src/utils/validation.ts:40-45 | the error "<field> is required" exactly for null, undefined and ""; otherwise the value unchanged |
| Validation.RequiredAcceptsOtherFalsy | packages/rankiro/src/utils/validation.ts:41 | 0, false, NaN and " " are accepted |
| DateUtils.IsValidDate | packages/rankiro/src/utils/date-utils.ts:5-7 | a Date whose time value is not NaN; any other value is rejected |
| DateUtils.ParseAPIDate | packages/rankiro/src/utils/date-utils.ts:13-19 | the error "Invalid date string: <s>" exactly when the parse is invalid; otherwise the parsed date |
| DateUtils.CeilDiv | packages/rankiro/src/utils/date-utils.ts:31 | the smallest whole number of divisors covering the dividend |
| DateUtils.GetDaysDifference | packages/rankiro/src/utils/date-utils.ts:29-32 | the smallest whole number of days covering the gap; NaN when either date is invalid |
| DateUtils.DaysDifferenceSmallGaps | packages/rankiro/src/utils/date-utils.ts:29-32 | 0 for equal instants, 1 for a positive gap of at most one day |
| DateUtils.DaysDifferenceShift | packages/rankiro/src/utils/date-utils.ts:29-32 | moving both dates by the same amount keeps the difference |
| DateUtils.IsWithinDateRange | packages/rankiro/src/utils/date-utils.ts:34-39 | start ≤ date ≤ end, both ends included; false when any date is invalid |
| DateUtils.EmptyRange | packages/rankiro/src/utils/date-utils.ts:38 | no date lies in a range whose start is after its end |
| DateUtils.RangeEndsInclusive | packages/rankiro/src/utils/date-utils.ts:38 | both ends belong to a non-empty range |

## Left out

- Promises and `await`. Every operation is synchronous.
- `console.warn` in `processMetrics`. Parsing a typed record never throws, so the `catch` branch is unreachable.
- JavaScript coercion: `String(...)`, `Number(...)` and `new Date(any)`. Input fields are typed options. An id or counter that is absent or falsy is `None` and gets its default. The timestamp has no `||` default: an absent timestamp gives an Invalid Date, and a present one already holds the result of `new Date`, so a falsy timestamp other than `undefined` (null, 0, false) is the epoch, `Some(Some(0))`.
- IEEE-754 rounding, infinities and `-0`. Numbers are exact reals. The 0.001 tolerance of the factor gate exists because float sums are inexact.
- DateUtils.GetDaysDifference: a small negative gap gives `-0` in JavaScript and 0 here.
- Validation.IsPositiveNumber: `Infinity` is not a `JsValue`, so it is not modelled.
- Unicode case mapping. `Text.Lower` lower-cases ASCII letters only. The white-space set of `trim` and `\s` is the ECMAScript one.
- The local time zone and daylight saving. Local time is UTC plus a fixed offset. The JavaScript Date range limit (±8.64e15 ms) is not modelled.
- The wall clock. `new Date()` in the score timestamp, `Date.now()` in `bucketName` and in the test algorithm's boost are parameters. `getDateRange` is left out because it reads the clock.
- RankingService.CalculateBatchRankingScores: one `now` serves the whole batch. The source calls `new Date()` once per scored video (packages/rankiro/src/ranking/ranking-service.ts:28), so timestamps within one batch can differ.
- RankingService.BatchOrderDetermined: the algorithm is a pure function. The test suite's algorithm reads `Date.now()` on every boost call (packages/rankiro/tests/ranking-service.test.ts:22-23), so its scores can change during a batch. The order is fully determined only for a pure algorithm.
- `formatDateForAPI` is `toISOString`, a foreign formatter.
- `isValidUrl` relies on the foreign `URL` constructor.
- `getRankings` and `getVideoRankingHistory` only forward to the repository, whose storage, filtering and pagination are external. The repository is modelled as the log of saved batches.
- Concrete ranking algorithms. The algorithm is three arbitrary total functions. The test suite's algorithm is one instance, `RankingService.MockAlgorithm`. Its normaliser returns 0 for an empty score range, where the source's division gives NaN. The service never calls the normaliser.
- The getters `getEnvironment`, `getProject` and `getRegion` of the naming utilities only return a constructor option.
- `packages/cdk-utils/src/constructs/base-construct.ts` is not part of this model. It only delegates to the naming utilities.
- The `AnalyticsService` interface, which has no implementation.
- `validateConfig` also writes the default project into its input object. Only the returned configuration is modelled.
- EnvironmentConfigReader.FromContext: the context entry is an optional typed partial configuration. A falsy non-object entry counts as missing, and entries of any other shape are not modelled.
- EnvironmentConfigReader.MergeWithDefaults: a property present but holding `undefined` counts as absent. In JavaScript the spread would copy the `undefined` over the default.
- The `!metric.timestamp` check of `validateMetrics` cannot fire: a typed record always holds a `Date` object, and even an Invalid Date is truthy. It is kept in the error order but is never violated.

## Findings

| source | as written | input that shows it | evidently intended | confidence | as-written member | corrected member |
|---|---|---|---|---|---|---|
| packages/rankiro/src/analytics/data-processor.ts:110 | the map key is the string `${videoId}-${periodKey}`, and a negative year prints its own '-', so different (video, period) pairs can share one key | video "a" on -000001-01-01 (2 BCE; `getFullYear()` -1, month 0, day 1) and video "a-" on 0001-01-01: both keys are "a--1-0-1", and the two records are merged into one aggregate of video "a" | one aggregate per (video, period) pair | low: needs a video id ending in '-' and a date before year 0; not executed | Aggregation.SourceKeyCollision, Aggregation.SourceKeyCollisionWitness | Aggregation.AggregateMetrics |
| packages/rankiro/src/utils/validation.ts:37 | `sanitizeString` trims first and strips '<' and '>' afterwards, so stripping can expose white space, and the result is not idempotent | `"< a"` sanitizes to `" a"`, which sanitizes to `"a"` | a trimmed result without angle brackets, stable under re-sanitizing | medium: not executed | Validation.SanitizeStringNotIdempotent | Validation.Sanitize |

/**
 * The platform's core records (`packages/rankiro/src/data/types.ts`).
 * Numbers are `real` (no IEEE-754 rounding); a `Date` is a time value in
 * milliseconds since the epoch, or `None` for an Invalid Date (time value NaN).
 */
module Types {
  import opened Wrappers

  type Date = Option<int>

  datatype Video = Video(
    id: string,
    title: string,
    description: string,
    uploadDate: Date,
    creatorId: string,
    duration: real,
    thumbnailUrl: Option<string>,
    tags: seq<string>,
    category: string)

  datatype VideoMetrics = VideoMetrics(
    videoId: string,
    timestamp: Date,
    views: real,
    likes: real,
    dislikes: real,
    comments: real,
    shares: real,
    watchTime: real,
    averageViewDuration: real,
    engagementRate: real)

  datatype RankingFactors = RankingFactors(
    viewsWeight: real,
    engagementWeight: real,
    recencyWeight: real,
    qualityWeight: real,
    trendingWeight: real)

  datatype RankingScore = RankingScore(
    videoId: string,
    score: real,
    rank: int,
    category: string,
    timestamp: Date,
    factors: RankingFactors)
}

/**
 * The analytics result records (`packages/rankiro/src/analytics/interfaces.ts`).
 */
module AnalyticsTypes {
  import opened Types

  /** The `value: unknown` carried by a validation issue. */
  datatype IssueValue = TextValue(text: string) | NumberValue(number: real) | DateValue(date: Date)

  /** Both `ValidationError` and `ValidationWarning` have this shape. */
  datatype ValidationIssue = ValidationIssue(field: string, message: string, value: IssueValue)

  datatype ValidationResult = ValidationResult(
    isValid: bool,
    errors: seq<ValidationIssue>,
    warnings: seq<ValidationIssue>)

  datatype AggregatedMetrics = AggregatedMetrics(
    period: Date,
    videoId: string,
    totalViews: real,
    totalLikes: real,
    totalComments: real,
    totalShares: real,
    averageEngagementRate: real,
    totalWatchTime: real)

  /** The `groupBy` argument of `aggregateMetrics`. */
  datatype Granularity = Hour | Day | Week | Month
}

/**
 * A JavaScript value of unknown type, as received by the validation and date
 * helpers (`value: unknown`). Only the distinctions those helpers make are kept.
 */
module JsValues {
  import opened Types

  datatype JsValue =
    | JsUndefined
    | JsNull
    | JsBool(flag: bool)
    | JsNumber(number: real)
    | JsNaN
    | JsString(text: string)
    | JsDate(date: Date)
    | JsObject
}

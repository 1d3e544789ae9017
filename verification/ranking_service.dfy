/**
 * `DefaultRankingService` (`packages/rankiro/src/ranking/ranking-service.ts`):
 * scoring one video through an injected algorithm, scoring and ranking a
 * batch, and the ranking-factor gate.
 *
 * The injected `RankingAlgorithm` is a record of three total functions and
 * the repository is the log of batches saved to it. The wall clock read for
 * a score's timestamp is the parameter `now`.
 */
module RankingService {
  import opened Wrappers
  import opened Types
  import opened StableSort
  import Calendar

  /** `RankingAlgorithm`: the scoring strategy the service is built with. */
  datatype Algorithm = Algorithm(
    calculateScore: (Video, VideoMetrics, RankingFactors) -> real,
    normalizeScore: (real, real, real) -> real,
    applyTrendingBoost: (real, Video, VideoMetrics) -> real)

  /** `RankingRepository`, as far as the service writes to it: the batches saved, oldest first. */
  datatype Repository = Repository(saved: seq<seq<RankingScore>>)

  // ---------------------------------------------------------------------------
  // calculateRankingScore
  // ---------------------------------------------------------------------------

  /**
   * `calculateRankingScore`: the algorithm's raw score with the trending
   * boost applied, rank 0, the video's id and category, the factors as given.
   */
  function CalculateRankingScore(alg: Algorithm, video: Video, metrics: VideoMetrics, factors: RankingFactors, now: Date): (r: RankingScore)
    ensures r.videoId == video.id && r.category == video.category
    ensures r.rank == 0
    ensures r.factors == factors && r.timestamp == now
    ensures r.score == alg.applyTrendingBoost(alg.calculateScore(video, metrics, factors), video, metrics)
  {
    var score := alg.calculateScore(video, metrics, factors);
    var boosted := alg.applyTrendingBoost(score, video, metrics);
    RankingScore(video.id, boosted, 0, video.category, now, factors)
  }

  // ---------------------------------------------------------------------------
  // The metrics map
  // ---------------------------------------------------------------------------

  /** The position of the last record of video `id`, or -1 when there is none. */
  function LastIndexOf(ms: seq<VideoMetrics>, id: string): (i: int)
    ensures -1 <= i < |ms|
    ensures i >= 0 ==> ms[i].videoId == id && forall j :: i < j < |ms| ==> ms[j].videoId != id
    ensures i < 0 ==> forall j :: 0 <= j < |ms| ==> ms[j].videoId != id
  {
    if |ms| == 0 then -1
    else if ms[|ms| - 1].videoId == id then |ms| - 1
    else LastIndexOf(ms[..|ms| - 1], id)
  }

  /**
   * `new Map(metrics.map(m => [m.videoId, m]))`: entries are set in input
   * order, so the last record of each video wins.
   */
  function MetricsIndex(ms: seq<VideoMetrics>): (r: map<string, VideoMetrics>)
    ensures forall id :: id in r <==> LastIndexOf(ms, id) >= 0
    ensures forall id :: id in r ==> r[id] == ms[LastIndexOf(ms, id)]
  {
    if |ms| == 0 then map[]
    else MetricsIndex(ms[..|ms| - 1])[ms[|ms| - 1].videoId := ms[|ms| - 1]]
  }

  // ---------------------------------------------------------------------------
  // calculateBatchRankingScores
  // ---------------------------------------------------------------------------

  /** The videos that have metrics, in input order. */
  function Matched(videos: seq<Video>, index: map<string, VideoMetrics>): (r: seq<Video>)
    ensures |r| <= |videos|
    ensures forall i :: 0 <= i < |r| ==> r[i] in videos && r[i].id in index
    ensures forall i :: 0 <= i < |videos| && videos[i].id in index ==> videos[i] in r
  {
    if |videos| == 0 then []
    else
      var v := videos[|videos| - 1];
      Matched(videos[..|videos| - 1], index) + (if v.id in index then [v] else [])
  }

  /**
   * Filtering works piece by piece: the videos of `a` that have metrics come
   * before those of `b`, each kept exactly where it was. With `MatchedSingle`
   * this fixes both the order and the multiplicity of `Matched`.
   */
  lemma {:induction false} MatchedConcat(a: seq<Video>, b: seq<Video>, index: map<string, VideoMetrics>)
    ensures Matched(a + b, index) == Matched(a, index) + Matched(b, index)
  {
    if |b| == 0 {
      assert a + b == a;
    } else {
      var p, v := b[..|b| - 1], b[|b| - 1];
      var t: seq<Video> := if v.id in index then [v] else [];
      assert (a + b)[..|a + b| - 1] == a + p;
      assert (a + b)[|a + b| - 1] == v;
      assert Matched(a + b, index) == Matched(a + p, index) + t;
      assert Matched(b, index) == Matched(p, index) + t;
      MatchedConcat(a, p, index);
      assert (Matched(a, index) + Matched(p, index)) + t == Matched(a, index) + (Matched(p, index) + t);
    }
  }

  /** A single video is kept exactly when it has metrics. */
  lemma MatchedSingle(v: Video, index: map<string, VideoMetrics>)
    ensures Matched([v], index) == if v.id in index then [v] else []
  {
    assert [v][..0] == [];
  }

  /** Each video scored on its own metrics, as `calculateRankingScore` does. */
  function ScoreEach(alg: Algorithm, videos: seq<Video>, index: map<string, VideoMetrics>, factors: RankingFactors, now: Date): (r: seq<RankingScore>)
    requires forall i :: 0 <= i < |videos| ==> videos[i].id in index
    ensures |r| == |videos|
    ensures forall i :: 0 <= i < |r| ==> r[i] == CalculateRankingScore(alg, videos[i], index[videos[i].id], factors, now)
  {
    seq(|videos|, i requires 0 <= i < |videos| => CalculateRankingScore(alg, videos[i], index[videos[i].id], factors, now))
  }

  /** The sort key of `scores.sort((a, b) => b.score - a.score)`. */
  function ScoreKey(): RankingScore -> real {
    (s: RankingScore) => s.score
  }

  /** The ranks of a sorted batch: position plus one. */
  function AssignRanks(s: seq<RankingScore>): (r: seq<RankingScore>)
    ensures |r| == |s|
    ensures forall i :: 0 <= i < |s| ==> r[i].rank == i + 1 && r[i].(rank := s[i].rank) == s[i]
  {
    seq(|s|, i requires 0 <= i < |s| => s[i].(rank := i + 1))
  }

  /** A batch with every rank put back to the 0 of a single score. */
  function Unranked(s: seq<RankingScore>): (r: seq<RankingScore>)
    ensures |r| == |s|
    ensures forall i :: 0 <= i < |s| ==> r[i] == s[i].(rank := 0)
  {
    seq(|s|, i requires 0 <= i < |s| => s[i].(rank := 0))
  }

  /** The single scores of the batch, before sorting: one per video with metrics, in video order. */
  function SingleScores(alg: Algorithm, videos: seq<Video>, metrics: seq<VideoMetrics>, factors: RankingFactors, now: Date): (r: seq<RankingScore>)
    ensures |r| == |Matched(videos, MetricsIndex(metrics))|
    ensures forall i :: 0 <= i < |r| ==> r[i].rank == 0
  {
    var index := MetricsIndex(metrics);
    ScoreEach(alg, Matched(videos, index), index, factors, now)
  }

  /**
   * `calculateBatchRankingScores`: the videos with metrics are scored,
   * stably sorted by descending score, ranked 1..N by position and saved
   * once; the saved batch is the one returned.
   */
  function CalculateBatchRankingScores(alg: Algorithm, repo: Repository, videos: seq<Video>, metrics: seq<VideoMetrics>, factors: RankingFactors, now: Date): (r: (seq<RankingScore>, Repository))
    ensures var (ranked, repo') := r;
      var singles := SingleScores(alg, videos, metrics, factors, now);
      && repo'.saved == repo.saved + [ranked]
      && |ranked| == |Matched(videos, MetricsIndex(metrics))|
      && (forall i :: 0 <= i < |ranked| ==> ranked[i].rank == i + 1)
      && SortedDesc(ranked, ScoreKey())
      && multiset(Unranked(ranked)) == multiset(singles)
      && (forall v :: WithKey(Unranked(ranked), ScoreKey(), v) == WithKey(singles, ScoreKey(), v))
  {
    var singles := SingleScores(alg, videos, metrics, factors, now);
    var sorted := InsertionSort(singles, ScoreKey());
    var ranked := AssignRanks(sorted);
    BatchFacts(singles, sorted, ranked);
    (ranked, Repository(repo.saved + [ranked]))
  }

  /** What ranking a stably sorted permutation of rank-0 scores yields. */
  lemma BatchFacts(singles: seq<RankingScore>, sorted: seq<RankingScore>, ranked: seq<RankingScore>)
    requires forall i :: 0 <= i < |singles| ==> singles[i].rank == 0
    requires sorted == InsertionSort(singles, ScoreKey())
    requires ranked == AssignRanks(sorted)
    ensures Unranked(ranked) == sorted
    ensures SortedDesc(ranked, ScoreKey())
    ensures forall v :: WithKey(sorted, ScoreKey(), v) == WithKey(singles, ScoreKey(), v)
  {
    forall i | 0 <= i < |sorted|
      ensures sorted[i].rank == 0
    {
      assert sorted[i] in multiset(singles);
    }
    assert Unranked(ranked) == sorted;
    forall v
      ensures WithKey(sorted, ScoreKey(), v) == WithKey(singles, ScoreKey(), v)
    {
      InsertionSortStable(singles, ScoreKey(), v);
    }
  }

  /**
   * The batch order is the only one allowed: any order of the single scores
   * that is sorted by descending score and keeps equal scores in video order
   * is the returned batch without its ranks.
   */
  lemma BatchOrderDetermined(alg: Algorithm, repo: Repository, videos: seq<Video>, metrics: seq<VideoMetrics>, factors: RankingFactors, now: Date, other: seq<RankingScore>)
    requires SortedDesc(other, ScoreKey())
    requires forall v :: WithKey(other, ScoreKey(), v) == WithKey(SingleScores(alg, videos, metrics, factors, now), ScoreKey(), v)
    ensures other == Unranked(CalculateBatchRankingScores(alg, repo, videos, metrics, factors, now).0)
  {
    var ranked := CalculateBatchRankingScores(alg, repo, videos, metrics, factors, now).0;
    var u := Unranked(ranked);
    UnrankedSorted(ranked);
    SortedUnique(other, u, ScoreKey());
  }

  /** Dropping the ranks keeps a batch sorted. */
  lemma UnrankedSorted(ranked: seq<RankingScore>)
    requires SortedDesc(ranked, ScoreKey())
    ensures SortedDesc(Unranked(ranked), ScoreKey())
  {
    var u := Unranked(ranked);
    assert forall i :: 0 <= i < |u| ==> u[i].score == ranked[i].score;
  }

  /** Videos without metrics are dropped, and only they: the batch covers every video exactly when each has metrics. */
  lemma BatchCoversAllMatched(videos: seq<Video>, metrics: seq<VideoMetrics>)
    ensures (forall i :: 0 <= i < |videos| ==> videos[i].id in MetricsIndex(metrics))
        <==> Matched(videos, MetricsIndex(metrics)) == videos
  {
    var index := MetricsIndex(metrics);
    if forall i :: 0 <= i < |videos| ==> videos[i].id in index {
      MatchedAll(videos, index);
    }
  }

  lemma {:induction false} MatchedAll(videos: seq<Video>, index: map<string, VideoMetrics>)
    requires forall i :: 0 <= i < |videos| ==> videos[i].id in index
    ensures Matched(videos, index) == videos
  {
    if |videos| > 0 {
      var p := videos[..|videos| - 1];
      MatchedAll(p, index);
      assert videos == p + [videos[|videos| - 1]];
    }
  }

  /** A video has a score in the batch exactly when some metrics record carries its id. */
  lemma MatchedMeansHasMetrics(videos: seq<Video>, metrics: seq<VideoMetrics>, i: int)
    requires 0 <= i < |videos|
    ensures videos[i] in Matched(videos, MetricsIndex(metrics))
        <==> exists j :: 0 <= j < |metrics| && metrics[j].videoId == videos[i].id
  {
    var index := MetricsIndex(metrics);
    if videos[i] in Matched(videos, index) {
      var k :| 0 <= k < |Matched(videos, index)| && Matched(videos, index)[k] == videos[i];
      assert videos[i].id in index;
      var j := LastIndexOf(metrics, videos[i].id);
      assert metrics[j].videoId == videos[i].id;
    }
  }

  // ---------------------------------------------------------------------------
  // updateRankingFactors / validateRankingFactors
  // ---------------------------------------------------------------------------

  const SumMessage := "Ranking factors must sum to 1.0"
  const RangeMessage := "All ranking factors must be between 0 and 1"

  /** The five weights in declaration order. */
  function Weights(f: RankingFactors): (r: seq<real>)
    ensures |r| == 5
  {
    [f.viewsWeight, f.engagementWeight, f.recencyWeight, f.qualityWeight, f.trendingWeight]
  }

  function TotalWeight(f: RankingFactors): real {
    f.viewsWeight + f.engagementWeight + f.recencyWeight + f.qualityWeight + f.trendingWeight
  }

  function Abs(x: real): real {
    if x < 0.0 then -x else x
  }

  /** The sum is close enough to 1.0; the tolerance absorbs floating-point error in the source. */
  predicate SumsToOne(f: RankingFactors) {
    Abs(TotalWeight(f) - 1.0) <= 0.001
  }

  predicate InUnitRange(w: real) {
    0.0 <= w <= 1.0
  }

  /**
   * `validateRankingFactors`: the sum is checked first, the range of each
   * weight only afterwards.
   */
  function ValidateRankingFactors(f: RankingFactors): (r: Outcome<string>)
    ensures r.Pass? <==> SumsToOne(f) && forall i :: 0 <= i < 5 ==> InUnitRange(Weights(f)[i])
    ensures r == Fail(SumMessage) <==> !SumsToOne(f)
    ensures r == Fail(RangeMessage) <==> SumsToOne(f) && exists i :: 0 <= i < 5 && !InUnitRange(Weights(f)[i])
  {
    assert forall i :: 0 <= i < 5 ==> Weights(f)[i] in Weights(f);
    if Abs(TotalWeight(f) - 1.0) > 0.001 then Fail(SumMessage)
    else if exists w :: w in Weights(f) && (w < 0.0 || w > 1.0) then Fail(RangeMessage)
    else Pass
  }

  /** `updateRankingFactors`: the gate's outcome, with the repository untouched. */
  function UpdateRankingFactors(repo: Repository, f: RankingFactors): (r: (Outcome<string>, Repository))
    ensures r.1 == repo
    ensures r.0.Pass? <==> SumsToOne(f) && forall i :: 0 <= i < 5 ==> InUnitRange(Weights(f)[i])
    ensures r.0.Fail? ==> r.0.error == SumMessage || r.0.error == RangeMessage
  {
    (ValidateRankingFactors(f), repo)
  }

  /**
   * A range failure without a negative weight needs a weight just above 1:
   * the sum tolerance lets a weight in (1, 1.001] through to the second check.
   */
  lemma RangeFailureCause(f: RankingFactors)
    requires ValidateRankingFactors(f) == Fail(RangeMessage)
    requires forall i :: 0 <= i < 5 ==> Weights(f)[i] >= 0.0
    ensures exists i :: 0 <= i < 5 && 1.0 < Weights(f)[i] <= 1.001
  {
    var ws := Weights(f);
    var i :| 0 <= i < 5 && !InUnitRange(ws[i]);
    assert ws[0] >= 0.0 && ws[1] >= 0.0 && ws[2] >= 0.0 && ws[3] >= 0.0 && ws[4] >= 0.0;
    assert TotalWeight(f) == ws[0] + ws[1] + ws[2] + ws[3] + ws[4];
    assert ws[i] <= TotalWeight(f);
  }

  /** Weights in [0, 1] that sum to exactly 1 always pass. */
  lemma ExactWeightsPass(f: RankingFactors)
    requires TotalWeight(f) == 1.0
    requires forall i :: 0 <= i < 5 ==> InUnitRange(Weights(f)[i])
    ensures ValidateRankingFactors(f) == Pass
  {
  }

  // ---------------------------------------------------------------------------
  // The algorithm used by the service's tests
  // ---------------------------------------------------------------------------

  /**
   * The test suite's algorithm: views times the views weight plus 1000 times
   * engagement rate times the engagement weight, boosted by 10% for a video
   * uploaded less than 24 hours before `nowMs`. An Invalid Date upload is
   * never boosted (its age is NaN). The normaliser divides by the score
   * range, and returns 0 for an empty range, where the source's division
   * yields NaN.
   */
  function MockAlgorithm(nowMs: int): Algorithm {
    Algorithm(
      (v: Video, m: VideoMetrics, f: RankingFactors) => m.views * f.viewsWeight + m.engagementRate * f.engagementWeight * 1000.0,
      (score: real, lo: real, hi: real) => if hi == lo then 0.0 else (score - lo) / (hi - lo),
      (score: real, v: Video, m: VideoMetrics) =>
        match v.uploadDate
        case Some(u) => if nowMs - u < Calendar.MsPerDay then score * 1.1 else score
        case None => score)
  }

  /** The boost only ever multiplies by 1 or 1.1, so it preserves the order of scores of one video. */
  lemma MockBoostFactor(nowMs: int, score: real, v: Video, m: VideoMetrics)
    ensures var b := MockAlgorithm(nowMs).applyTrendingBoost(score, v, m);
      b == score || b == score * 1.1
  {
  }

  /** With positive views and weights the test algorithm scores above zero. */
  lemma MockScorePositive(nowMs: int, v: Video, m: VideoMetrics, f: RankingFactors, now: Date)
    requires m.views > 0.0 && f.viewsWeight > 0.0
    requires m.engagementRate >= 0.0 && f.engagementWeight >= 0.0
    ensures CalculateRankingScore(MockAlgorithm(nowMs), v, m, f, now).score > 0.0
  {
    var raw := m.views * f.viewsWeight + m.engagementRate * f.engagementWeight * 1000.0;
    assert m.engagementRate * f.engagementWeight >= 0.0;
    assert raw > 0.0;
  }

  /** The test suite's factors. */
  function TestFactors(): RankingFactors {
    RankingFactors(0.4, 0.3, 0.1, 0.1, 0.1)
  }

  /** The factor gate on the test suite's inputs. */
  lemma FactorExamples()
    ensures ValidateRankingFactors(TestFactors()) == Pass
    ensures ValidateRankingFactors(TestFactors().(viewsWeight := 0.5)) == Fail(SumMessage)
    ensures ValidateRankingFactors(RankingFactors(-0.1, 0.5, 0.2, 0.2, 0.2)) == Fail(RangeMessage)
  {
    assert !InUnitRange(Weights(RankingFactors(-0.1, 0.5, 0.2, 0.2, 0.2))[0]);
  }

  /** The test suite's video, uploaded on 2023-01-01. */
  function TestVideo(id: string): Video {
    Video(id, "Test Video", "A test video", Some(1672531200000), "creator-123", 300.0,
          Some("https://example.com/thumb.jpg"), ["test", "video"], "entertainment")
  }

  /** The test suite's metrics, with the views varied. */
  function TestMetrics(id: string, views: real, at: Date): VideoMetrics {
    VideoMetrics(id, at, views, 100.0, 5.0, 50.0, 25.0, 15000.0, 150.0, 0.18)
  }

  /** The metrics index of the test suite's metrics. */
  lemma TestIndexes(now: Date)
    ensures var m1, m2 := TestMetrics("video-123", 1000.0, now), TestMetrics("video-456", 2000.0, now);
      && MetricsIndex([m1, m2]) == map["video-123" := m1, "video-456" := m2]
      && MetricsIndex([m1]) == map["video-123" := m1]
  {
    var m1, m2 := TestMetrics("video-123", 1000.0, now), TestMetrics("video-456", 2000.0, now);
    assert [m1, m2][..1] == [m1];
    assert [m1][..0] == [];
  }

  /** Both test videos have metrics in the full index; only the first in the partial one. */
  lemma TestMatches(index: map<string, VideoMetrics>)
    ensures "video-123" in index && "video-456" in index ==>
      Matched([TestVideo("video-123"), TestVideo("video-456")], index) == [TestVideo("video-123"), TestVideo("video-456")]
    ensures "video-123" in index && "video-456" !in index ==>
      Matched([TestVideo("video-123"), TestVideo("video-456")], index) == [TestVideo("video-123")]
  {
    var v1, v2 := TestVideo("video-123"), TestVideo("video-456");
    assert [v1, v2][..1] == [v1];
    assert [v1][..0] == [];
  }

  /** The test algorithm scores 1000 views at 454 and 2000 views at 854, before the boost. */
  lemma TestRawScores(nowMs: int, at: Date)
    ensures var alg, f := MockAlgorithm(nowMs), TestFactors();
      && alg.calculateScore(TestVideo("video-123"), TestMetrics("video-123", 1000.0, at), f) == 454.0
      && alg.calculateScore(TestVideo("video-456"), TestMetrics("video-456", 2000.0, at), f) == 854.0
  {
  }

  /** The test video with more views scores higher, whatever the boost does. */
  lemma TestScoresOrdered(nowMs: int)
    ensures var alg, f, now := MockAlgorithm(nowMs), TestFactors(), Some(nowMs);
      CalculateRankingScore(alg, TestVideo("video-123"), TestMetrics("video-123", 1000.0, now), f, now).score
        < CalculateRankingScore(alg, TestVideo("video-456"), TestMetrics("video-456", 2000.0, now), f, now).score
  {
    var now := Some(nowMs);
    TestRawScores(nowMs, now);
    MockBoostFactor(nowMs, 454.0, TestVideo("video-123"), TestMetrics("video-123", 1000.0, now));
    MockBoostFactor(nowMs, 854.0, TestVideo("video-456"), TestMetrics("video-456", 2000.0, now));
  }

  /** Sorting two scores puts the higher first. */
  lemma SortTwo(a: RankingScore, b: RankingScore)
    requires a.score < b.score
    ensures InsertionSort([a, b], ScoreKey()) == [b, a]
  {
    assert [a, b][..1] == [a];
    assert [a][..0] == [];
    assert InsertionSort([a], ScoreKey()) == [a];
  }

  /** The test suite's batch scenario: the video with more views ranks first. */
  lemma BatchRanksByViews(nowMs: int)
    ensures var b := CalculateBatchRankingScores(MockAlgorithm(nowMs), Repository([]),
        [TestVideo("video-123"), TestVideo("video-456")],
        [TestMetrics("video-123", 1000.0, Some(nowMs)), TestMetrics("video-456", 2000.0, Some(nowMs))],
        TestFactors(), Some(nowMs));
      && |b.0| == 2 && b.0[0].rank == 1 && b.0[1].rank == 2
      && b.0[0].videoId == "video-456" && b.0[1].videoId == "video-123"
      && b.1.saved == [b.0]
  {
    var alg, f, now := MockAlgorithm(nowMs), TestFactors(), Some(nowMs);
    var v1, v2 := TestVideo("video-123"), TestVideo("video-456");
    var m1, m2 := TestMetrics("video-123", 1000.0, now), TestMetrics("video-456", 2000.0, now);
    TestIndexes(now);
    var index := MetricsIndex([m1, m2]);
    TestMatches(index);
    var s1 := CalculateRankingScore(alg, v1, m1, f, now);
    var s2 := CalculateRankingScore(alg, v2, m2, f, now);
    assert SingleScores(alg, [v1, v2], [m1, m2], f, now) == [s1, s2];
    TestScoresOrdered(nowMs);
    SortTwo(s1, s2);
  }

  /** The test suite's missing-metrics scenario: a video without metrics is dropped. */
  lemma BatchDropsUnmeasured(nowMs: int)
    ensures var b := CalculateBatchRankingScores(MockAlgorithm(nowMs), Repository([]),
        [TestVideo("video-123"), TestVideo("video-456")],
        [TestMetrics("video-123", 1000.0, Some(nowMs))],
        TestFactors(), Some(nowMs));
      |b.0| == 1 && b.0[0].videoId == "video-123" && b.0[0].rank == 1
  {
    var alg, f, now := MockAlgorithm(nowMs), TestFactors(), Some(nowMs);
    var v1, m1 := TestVideo("video-123"), TestMetrics("video-123", 1000.0, now);
    TestIndexes(now);
    var index := MetricsIndex([m1]);
    TestMatches(index);
    var s1 := CalculateRankingScore(alg, v1, m1, f, now);
    assert SingleScores(alg, [v1, TestVideo("video-456")], [m1], f, now) == [s1];
    assert [s1][..0] == [];
    assert InsertionSort([s1], ScoreKey()) == [s1];
  }
}

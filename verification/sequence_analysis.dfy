/** The loops of the sequence analyser. `SequenceAnalyzer` holds nothing but its
    configuration, so each operation takes that configuration (as built by
    `AnalyzerConfig`) as its first parameter; every method is proved equal to its
    definition in SequenceSpec, where the properties are proved. */
module SequenceAnalysis {
  import opened Wrappers
  import opened Sorting
  import opened SequenceSpec

  /** `split_into_sequences`: sort by timestamp, then group the sorted images. */
  method SplitIntoSequences(config: SequenceAnalyzerConfig, images: seq<ImageMetrics>)
    returns (sequences: seq<seq<ImageMetrics>>)
    ensures sequences == SplitSpec(config, images)
  {
    if images == [] {
      return [];
    }
    var sorted := SortedByTimestamp(images);
    SortBySorted(images, TimestampKey);
    var gapSeconds := GapSeconds(config.sessionGapMinutes);
    sequences := GroupSessions(sorted, gapSeconds);
  }

  /** The grouping loop of `split_into_sequences`: walk the sorted images, closing the
      current session whenever the step from its last image exceeds the gap. */
  method GroupSessions(sorted: seq<ImageMetrics>, gap: int) returns (sequences: seq<seq<ImageMetrics>>)
    requires sorted != []
    ensures sequences == Sessions(sorted, gap)
  {
    sequences := [];
    var current := [sorted[0]];
    assert sorted[..1] == current;
    for i := 1 to |sorted|
      invariant current != [] && current[|current| - 1] == sorted[i - 1]
      invariant Sessions(sorted[..i], gap) == sequences + [current]
    {
      var prevTs := Ts(current[|current| - 1]);
      var currTs := Ts(sorted[i]);
      ghost var before := sequences + [current];
      SessionsStep(sorted, i, gap);
      if currTs - prevTs > gap {
        sequences := sequences + [current];
        current := [];
        assert current + [sorted[i]] == [sorted[i]];
      } else {
        assert before[..|before| - 1] == sequences;
        assert before[|before| - 1] == current;
      }
      current := current + [sorted[i]];
    }
    if current != [] {
      sequences := sequences + [current];
    }
    assert sorted[..|sorted|] == sorted;
  }

  /** `compute_temporal_scores`: a zero-filled score vector written frame by frame, with the
      four EWMA baselines updated after each frame. */
  method ComputeTemporalScores(config: SequenceAnalyzerConfig, images: seq<ImageMetrics>)
    returns (scores: seq<real>)
    ensures scores == TemporalScores(config, images)
  {
    var alpha := config.ewmaAlpha;
    var tw := config.temporalWeights;
    var n := |images|;
    var out := new real[n](_ => 0.0);
    var blStars: Option<real> := None;
    var blBg: Option<real> := None;
    var blHfr: Option<real> := None;
    var blSnr: Option<real> := None;
    for i := 0 to n
      invariant Baselines(blStars, blBg, blHfr, blSnr) == BaselinesAfter(alpha, images[..i])
      invariant out[..i] == TemporalScores(config, images[..i])
    {
      var img := images[i];
      ghost var before := Baselines(blStars, blBg, blHfr, blSnr);
      var starDev := Deviation(img.starCount, blStars, true);
      var bgDev := Deviation(img.background, blBg, false);
      var hfrDev := Deviation(img.hfr, blHfr, false);
      var snrDev := Deviation(img.snr, blSnr, true);
      out[i] := tw.starCount * starDev + tw.background * bgDev + tw.hfr * hfrDev + tw.snr * snrDev;
      TemporalScoreOf(tw, img, before, starDev, bgDev, hfrDev, snrDev);

      blStars := Ewma(alpha, blStars, img.starCount);
      blBg := Ewma(alpha, blBg, img.background);
      blHfr := Ewma(alpha, blHfr, img.hfr);
      blSnr := Ewma(alpha, blSnr, img.snr);
      assert Baselines(blStars, blBg, blHfr, blSnr) == UpdateBaselines(alpha, before, img);
      TemporalStep(config, images, i);
      assert out[..i + 1] == out[..i] + [out[i]];
    }
    assert images[..n] == images;
    scores := out[..];
  }

  /** `weighted_sum_available`: accumulate the weighted present values and their weights. */
  method WeightedSumAvailable(items: seq<(Option<real>, real)>) returns (sum: real, totalWeight: real)
    ensures sum == WeightedSum(items).0 && totalWeight == WeightedSum(items).1
  {
    sum, totalWeight := 0.0, 0.0;
    for i := 0 to |items|
      invariant sum == WeightedSum(items[..i]).0 && totalWeight == WeightedSum(items[..i]).1
    {
      var (value, weight) := items[i];
      WeightedSumStep(items, i);
      if value.Some? {
        sum := sum + value.value * weight;
        totalWeight := totalWeight + weight;
      }
    }
    assert items[..|items|] == items;
  }

  /** `is_gradual_change`: count the small steps over the window ending at `idx`. */
  method IsGradualChange(config: SequenceAnalyzerConfig, images: seq<ImageMetrics>, idx: nat, m: Metric, window: nat)
    returns (gradual: bool)
    requires idx < |images| && window >= 1
    ensures gradual == IsGradual(config, images, idx, m, window)
  {
    if idx < window {
      return false;
    }
    ghost var flags := SmallFlags(config, images, m);
    var consecutiveSmall: nat := 0;
    for j := idx - window + 1 to idx + 1
      invariant consecutiveSmall == CountTrue(flags, idx - window + 1, j)
    {
      assert flags[j] == SmallStep(config, images, m, j);
      var prev := MetricOf(images[j - 1], m);
      if prev.None? || prev.value <= 0.0 {
        continue;
      }
      var curr := MetricOf(images[j], m);
      if curr.None? {
        continue;
      }
      var rate := Abs((curr.value - prev.value) / prev.value);
      if rate < config.suddenChangeRate {
        consecutiveSmall := consecutiveSmall + 1;
      }
    }
    gradual := consecutiveSmall >= window - 1;
  }

  /** `classify_issues`: every frame below 0.7 gets the category of the first matching rule
      and its explanation, in place. */
  method ClassifyIssues(config: SequenceAnalyzerConfig, results: array<ImageQualityResult>,
                        images: seq<ImageMetrics>, fmt: NumberFormat)
    requires |images| <= results.Length
    modifies results
    ensures results[..] == Classified(config, old(results[..]), images, fmt)
  {
    var n := |images|;
    if n < 2 {
      return;
    }
    for i := 0 to n
      invariant forall k :: 0 <= k < i ==> results[k] == ClassifyOne(config, old(results[k]), images, k, fmt)
      invariant forall k :: i <= k < results.Length ==> results[k] == old(results[k])
    {
      if results[i].qualityScore >= 0.7 {
        continue;
      }
      var starDrop := FractionalChange(images, i, StarCount, true);
      var bgRise := FractionalChange(images, i, Background, false);
      var hfrRise := FractionalChange(images, i, Hfr, false);
      var eccRise := FractionalChange(images, i, Eccentricity, false);
      var gradualHfr := IsGradualChange(config, images, i, Hfr, GradualWindow);
      var gradualBg := IsGradualChange(config, images, i, Background, GradualWindow);
      var signals := Signals(starDrop, bgRise, hfrRise, eccRise, gradualHfr, gradualBg);
      var category := Ladder(config, signals, results[i].qualityScore);
      var details := if category.Some? then Some(Details(category.value, signals, fmt)) else None;
      results[i] := results[i].(category := category, details := details);
    }
  }

  /** `build_summary`: one pass bumping a score bucket and the category tallies. */
  method BuildSummary(results: seq<ImageQualityResult>) returns (summary: SequenceSummary)
    ensures summary == Summary(results)
  {
    summary := SequenceSummary(0, 0, 0, 0, 0, 0, false, false);
    for i := 0 to |results|
      invariant summary == Summary(results[..i])
    {
      var r := results[i];
      var q := r.qualityScore;
      if q >= 0.90 {
        summary := summary.(excellentCount := summary.excellentCount + 1);
      } else if q >= 0.70 {
        summary := summary.(goodCount := summary.goodCount + 1);
      } else if q >= 0.50 {
        summary := summary.(fairCount := summary.fairCount + 1);
      } else if q >= 0.30 {
        summary := summary.(poorCount := summary.poorCount + 1);
      } else {
        summary := summary.(badCount := summary.badCount + 1);
      }
      match r.category {
        case Some(LikelyClouds) => summary := summary.(cloudEventsDetected := summary.cloudEventsDetected + 1);
        case Some(FocusDrift) => summary := summary.(focusDriftDetected := true);
        case Some(TrackingError) => summary := summary.(trackingIssuesDetected := true);
        case _ =>
      }
      assert results[..i + 1][..i] == results[..i];
    }
    assert results[..|results|] == results;
  }

  /** The per-image results before classification, pushed one by one. */
  method ScoreImages(config: SequenceAnalyzerConfig, images: seq<ImageMetrics>) returns (rs: seq<ImageQualityResult>)
    ensures rs == UnclassifiedResults(config, images)
  {
    var n := |images|;
    var norm := NormalizeAll(images);
    var temporalScores := ComputeTemporalScores(config, images);
    ghost var spec := UnclassifiedResults(config, images);
    rs := [];
    for i := 0 to n
      invariant |rs| == i
      invariant forall j :: 0 <= j < i ==> rs[j] == spec[j]
    {
      var nm := MetricsAt(norm, i);
      UnclassifiedResultAt(config, images, i);
      var r := ScoreImage(config.qualityWeights, images[i], nm, temporalScores[i]);
      rs := rs + [r];
    }
  }

  /** The composite score of one image: the weighted mean of its present normalised
      metrics, scaled down by the temporal penalty and clamped to [0, 1]. */
  method ScoreImage(w: QualityWeights, img: ImageMetrics, nm: NormalizedMetrics, temporal: real)
    returns (r: ImageQualityResult)
    ensures r == UnclassifiedResult(w, img, nm, temporal)
  {
    var score, totalWeight := WeightedSumAvailable(MetricItems(w, nm));
    var qualityScore := if totalWeight > 0.0 then score / totalWeight else 1.0;
    var penalty := 1.0 - Min(temporal, 0.5);
    var finalScore := Clamp(qualityScore * penalty, 0.0, 1.0);
    UnclassifiedResultOf(w, img, nm, temporal, score, totalWeight, finalScore);
    r := ImageQualityResult(img.imageId, finalScore, temporal, None, nm, None);
  }

  /** `score_sequence`: a short sequence scores every image 1; otherwise the images are
      scored, classified in place and summarised. */
  method ScoreSequence(config: SequenceAnalyzerConfig, images: seq<ImageMetrics>, targetId: int,
                       targetName: string, filterName: string, fmt: NumberFormat)
    returns (scored: ScoredSequence)
    ensures scored == ScoreSpec(config, images, targetId, targetName, filterName, fmt)
  {
    var imageCount := |images|;
    var sessionStart := if images == [] then None else images[0].timestamp;
    var sessionEnd := if images == [] then None else images[imageCount - 1].timestamp;
    if imageCount < config.minSequenceLength {
      var results := seq(imageCount, i requires 0 <= i < imageCount => ShortResult(images[i]));
      return ScoredSequence(targetId, targetName, filterName, sessionStart, sessionEnd, imageCount,
                            ReferenceValues(None, None, None, None, None), results,
                            SequenceSummary(imageCount, 0, 0, 0, 0, 0, false, false));
    }
    var rs := ScoreImages(config, images);
    var results := new ImageQualityResult[imageCount](i requires 0 <= i < imageCount => rs[i]);
    assert results[..] == rs;
    ClassifyIssues(config, results, images, fmt);
    var referenceValues := ReferenceValues(
      BestValue(images, StarCount, true), BestValue(images, Hfr, false),
      BestValue(images, Eccentricity, false), BestValue(images, Snr, true),
      BestValue(images, Background, false));
    var summary := BuildSummary(results[..]);
    scored := ScoredSequence(targetId, targetName, filterName, sessionStart, sessionEnd, imageCount,
                             referenceValues, results[..], summary);
  }

  /** `analyze`: split into sessions and score each one. */
  method Analyze(config: SequenceAnalyzerConfig, images: seq<ImageMetrics>, targetId: int,
                 targetName: string, filterName: string, fmt: NumberFormat)
    returns (scored: seq<ScoredSequence>)
    ensures scored == AnalyzeSpec(config, images, targetId, targetName, filterName, fmt)
  {
    var sequences := SplitIntoSequences(config, images);
    scored := [];
    for k := 0 to |sequences|
      invariant scored == ScoreAll(config, sequences[..k], targetId, targetName, filterName, fmt)
    {
      var s := ScoreSequence(config, sequences[k], targetId, targetName, filterName, fmt);
      assert sequences[..k + 1][..k] == sequences[..k];
      scored := scored + [s];
    }
    assert sequences[..|sequences|] == sequences;
  }
}

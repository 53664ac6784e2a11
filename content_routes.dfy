/**
 * The scoring and generation helpers of the content routes, and the selection the
 * comparison route makes: a quality score and an SEO score for a text, a word-list
 * sentiment, template-based text generation with per-platform formatting, and the
 * comparison of several stored texts by their analytics reports.
 */
module ContentRoutes {
  import opened Wrappers
  import opened Text
  import Analytics

  // ---------------------------------------------------------------------------------------
  // calculate_quality_score

  /** `sum(len(word) for word in words)` */
  function TotalLetters(ws: seq<string>): nat
  {
    if ws == [] then 0 else TotalLetters(ws[..|ws| - 1]) + |ws[|ws| - 1]|
  }

  /** `max(n, 1)` */
  function AtLeastOne(n: nat): (m: nat)
    ensures m >= 1 && m >= n
    ensures n >= 1 ==> m == n
    ensures n == 0 ==> m == 1
  {
    if n >= 1 then n else 1
  }

  /** Between 50 and 300 words earn 20 points, more than 300 earn 10. */
  function LengthBonus(wordCount: nat): int
  {
    if 50 <= wordCount <= 300 then 20
    else if wordCount > 300 then 10
    else 0
  }

  /** The letters per word, over at least one word. */
  function AverageWordLength(content: string): real
  {
    TotalLetters(Words(content)) as real / AtLeastOne(|Words(content)|) as real
  }

  /** An average word length between 4 and 6 earns 15 points. */
  function WordLengthBonus(content: string): int
  {
    if 4.0 <= AverageWordLength(content) <= 6.0 then 15 else 0
  }

  function LowerAll(ws: seq<string>): (r: seq<string>)
    ensures |r| == |ws|
    ensures forall i | 0 <= i < |ws| :: r[i] == LowerStr(ws[i])
  {
    seq(|ws|, i requires 0 <= i < |ws| => LowerStr(ws[i]))
  }

  /** `sum(1 for kw in keywords if kw.lower() in content.lower())` */
  function KeywordsPresent(content: string, keywords: seq<string>): nat
  {
    Analytics.CountPresent(LowerAll(keywords), LowerStr(content))
  }

  /** Five points per keyword present, at most 15; nothing without keywords. */
  function KeywordBonus(content: string, keywords: seq<string>): int
  {
    if keywords == [] then 0 else Analytics.Min(KeywordsPresent(content, keywords) * 5, 15)
  }

  /** `calculate_quality_score(content, keywords)`; a missing keyword list is the empty one. */
  function QualityScore(content: string, keywords: seq<string>): (s: int)
    ensures 50 <= s <= 100
  {
    var score := 50 + LengthBonus(|Words(content)|) + WordLengthBonus(content) + KeywordBonus(content, keywords);
    if score <= 100 then score else 100
  }

  /** The cap at 100 never takes effect: the score is the base plus the three bonuses. */
  lemma QualityScoreIsSum(content: string, keywords: seq<string>)
    ensures QualityScore(content, keywords)
            == 50 + LengthBonus(|Words(content)|) + WordLengthBonus(content) + KeywordBonus(content, keywords)
    ensures KeywordBonus(content, keywords) <= 15 && WordLengthBonus(content) <= 15 && LengthBonus(|Words(content)|) <= 20
  {
  }

  /** `w / n` lies in `[lo, hi]` exactly when `lo * n <= w <= hi * n`. */
  lemma RatioWithin(w: nat, n: nat, lo: nat, hi: nat)
    requires n >= 1
    ensures lo as real <= w as real / n as real <= hi as real <==> lo * n <= w <= hi * n
  {
    assert w as real / n as real * n as real == w as real;
  }

  /** The word-length bonus is earned exactly when there are words and they average four to
      six letters, stated without division. */
  lemma WordLengthBonusIff(content: string)
    ensures WordLengthBonus(content) == 15
            <==> var n := |Words(content)|; n > 0 && 4 * n <= TotalLetters(Words(content)) <= 6 * n
  {
    var n := |Words(content)|;
    RatioWithin(TotalLetters(Words(content)), AtLeastOne(n), 4, 6);
  }

  /** Keyword `kw` counts as present exactly when the analytics service finds it. */
  lemma PresentIffOccurs(content: string, kw: string)
    ensures Contains(LowerStr(content), LowerStr(kw)) <==> Analytics.Occurrences(content, kw) > 0
  {
    CountPositiveIffContains(LowerStr(content), LowerStr(kw));
  }

  /** The keywords the quality score counts are the ones the keyword analysis reports as
      found. */
  lemma {:induction false} KeywordsPresentIsFound(content: string, keywords: seq<string>)
    ensures KeywordsPresent(content, keywords) == |Analytics.Found(content, keywords)|
    decreases |keywords|
  {
    if keywords != [] {
      var init := keywords[..|keywords| - 1];
      var last := keywords[|keywords| - 1];
      KeywordsPresentIsFound(content, init);
      PresentIffOccurs(content, last);
      assert LowerAll(keywords)[..|keywords| - 1] == LowerAll(init);
    }
  }

  /** With keywords, the bonus is full once three are present and nothing when none is. */
  lemma KeywordBonusMeaning(content: string, keywords: seq<string>)
    requires keywords != []
    ensures KeywordBonus(content, keywords) == 15 <==> KeywordsPresent(content, keywords) >= 3
    ensures KeywordBonus(content, keywords) == 0
            <==> forall i | 0 <= i < |keywords| :: !Contains(LowerStr(content), LowerStr(keywords[i]))
  {
    var lowered := LowerAll(keywords);
    assert forall i | 0 <= i < |keywords| :: lowered[i] == LowerStr(keywords[i]);
  }

  // ---------------------------------------------------------------------------------------
  // calculate_seo_score

  /** `keyword_count / max(total_words, 1) * 100` */
  function SeoDensity(content: string, keywords: seq<string>): real
  {
    Analytics.TotalOccurrences(content, keywords) as real / AtLeastOne(|Words(content)|) as real * 100.0
  }

  /** `calculate_seo_score(content, keywords)`: 50 without keywords, 90 for a density of 1 to 3
      percent, 60 below it, 70 above it. */
  function SeoScore(content: string, keywords: seq<string>): (s: int)
    ensures s == 50 || s == 60 || s == 70 || s == 90
    ensures s == 50 <==> keywords == []
  {
    if keywords == [] then 50
    else
      var density := SeoDensity(content, keywords);
      if 1.0 <= density <= 3.0 then 90
      else if density < 1.0 then 60
      else 70
  }

  /** `100 * c / n` compared with `k`, without division. */
  lemma PercentCompare(c: nat, n: nat, k: nat)
    requires n >= 1
    ensures c as real / n as real * 100.0 >= k as real <==> 100 * c >= k * n
    ensures c as real / n as real * 100.0 <= k as real <==> 100 * c <= k * n
  {
    assert c as real / n as real * n as real == c as real;
  }

  /** The three bands of the SEO score in integers: with `c` keyword occurrences among `n`
      words (at least one), 90 means `n <= 100c <= 3n`, 60 means `100c < n`, 70 means
      `100c > 3n`. */
  lemma SeoScoreBands(content: string, keywords: seq<string>)
    requires keywords != []
    ensures var c := Analytics.TotalOccurrences(content, keywords);
            var n := AtLeastOne(|Words(content)|);
            && (SeoScore(content, keywords) == 90 <==> n <= 100 * c <= 3 * n)
            && (SeoScore(content, keywords) == 60 <==> 100 * c < n)
            && (SeoScore(content, keywords) == 70 <==> 100 * c > 3 * n)
  {
    var c := Analytics.TotalOccurrences(content, keywords);
    var n := AtLeastOne(|Words(content)|);
    PercentCompare(c, n, 1);
    PercentCompare(c, n, 3);
  }

  /** The SEO score's density is the keyword analysis's density, so a 90 is exactly the case
      in which the overall report gives its full density bonus. */
  lemma SeoDensityIsAnalyticsDensity(content: string, keywords: seq<string>)
    ensures SeoDensity(content, keywords) == Analytics.Density(content, keywords)
  {
    WordsLowerCount(content);
  }

  // ---------------------------------------------------------------------------------------
  // analyze_sentiment

  const PositiveTerms: seq<string> :=
    ["great", "excellent", "amazing", "wonderful", "fantastic", "love", "best", "perfect"]
  const NegativeTerms: seq<string> :=
    ["bad", "terrible", "awful", "worst", "hate", "poor", "disappointing"]

  datatype SentimentResult = SentimentResult(sentiment: string, confidence: real)

  /** `min(count * 0.3, 0.95)` */
  function Confidence(count: nat): real
  {
    if count as real * 0.3 <= 0.95 then count as real * 0.3 else 0.95
  }

  /** `analyze_sentiment(content)`: the side with more listed words present wins; a tie is
      neutral with confidence one half. */
  function AnalyzeSentiment(content: string): (r: SentimentResult)
    ensures var p := Analytics.CountPresent(PositiveTerms, LowerStr(content));
            var n := Analytics.CountPresent(NegativeTerms, LowerStr(content));
            && (r.sentiment == "positive" <==> p > n)
            && (r.sentiment == "negative" <==> n > p)
            && (r.sentiment == "neutral" <==> p == n)
    ensures r.sentiment == "neutral" ==> r.confidence == 0.5
    ensures r.sentiment != "neutral" ==> 0.3 <= r.confidence <= 0.95
  {
    var lower := LowerStr(content);
    var p := Analytics.CountPresent(PositiveTerms, lower);
    var n := Analytics.CountPresent(NegativeTerms, lower);
    if p > n then SentimentResult("positive", Confidence(p))
    else if n > p then SentimentResult("negative", Confidence(n))
    else SentimentResult("neutral", 0.5)
  }

  /** Confidence grows with the count of words and reaches its cap at four. */
  lemma ConfidenceMeaning(a: nat, b: nat)
    ensures a <= b ==> Confidence(a) <= Confidence(b)
    ensures Confidence(a) == 0.95 <==> a >= 4
  {
  }

  /** A decided sentiment is fully confident exactly when its side has four listed words. */
  lemma SentimentFullConfidence(content: string)
    ensures var r := AnalyzeSentiment(content);
            var p := Analytics.CountPresent(PositiveTerms, LowerStr(content));
            var n := Analytics.CountPresent(NegativeTerms, LowerStr(content));
            r.sentiment != "neutral" ==> (r.confidence == 0.95 <==> (if p > n then p else n) >= 4)
  {
    var lower := LowerStr(content);
    ConfidenceMeaning(Analytics.CountPresent(PositiveTerms, lower), 0);
    ConfidenceMeaning(Analytics.CountPresent(NegativeTerms, lower), 0);
  }

  // ---------------------------------------------------------------------------------------
  // generate_ai_content

  /** What follows `prompt - ` in each of the five response templates. */
  const TemplateTails: seq<string> :=
    ["A captivating and engaging message tailored for your audience.",
     "A professional and concise message to drive conversions.",
     "A creative and innovative approach to marketing your product.",
     "Discover the power of exceptional marketing that resonates.",
     "Transform your brand story with compelling, audience-focused content."]

  /** Response template `choice`, which starts with the prompt. */
  function Template(prompt: string, choice: nat): (t: string)
    requires choice < |TemplateTails|
    ensures prompt + " - " <= t
  {
    var t := prompt + " - " + TemplateTails[choice];
    assert t[..|prompt + " - "|] == prompt + " - ";
    t
  }

  /** `keywords[:3]` */
  function FirstThree(keywords: seq<string>): (r: seq<string>)
    ensures |r| <= 3 && r <= keywords
    ensures |keywords| <= 3 ==> r == keywords
    ensures |keywords| > 3 ==> r == keywords[..3]
  {
    if |keywords| <= 3 then keywords else keywords[..3]
  }

  /** The phrase appended for a non-empty keyword list. */
  function KeywordPhrase(keywords: seq<string>): string
  {
    if keywords == [] then "" else " Focus on: " + Join(", ", FirstThree(keywords))
  }

  const TwitterLimit := 280
  const TwitterTags := " #marketing #content"
  const LinkedInSuffix := "\n\nLet's connect and discuss how this can benefit your business."
  const InstagramSuffix := "\n\n\U{1F4F8}\U{2728} #marketing #creative #engagement"

  /** The platform name as the formatting sees it: a missing or empty name selects none. */
  function PlatformName(platform: Option<string>): string
  {
    if platform.Some? then LowerStr(platform.value) else ""
  }

  /** The formatting each platform applies; unknown platforms leave the text alone. */
  function PlatformFormat(text: string, platform: Option<string>): string
  {
    var name := PlatformName(platform);
    if name == "twitter" then (if |text| <= TwitterLimit then text else text[..TwitterLimit]) + TwitterTags
    else if name == "linkedin" then text + LinkedInSuffix
    else if name == "instagram" then text + InstagramSuffix
    else text
  }

  /** `s[:n]` with Python's reading of a negative `n` as counting from the end. */
  function PyPrefix(s: string, n: int): (r: string)
    ensures r <= s
    ensures n >= 0 ==> |r| == if n <= |s| then n else |s|
    ensures n < 0 ==> |r| == if |s| + n >= 0 then |s| + n else 0
  {
    if n >= 0 then (if n <= |s| then s[..n] else s)
    else if |s| + n >= 0 then s[..|s| + n]
    else ""
  }

  /** The text before the final cut to `length`. */
  function Formatted(prompt: string, keywords: seq<string>, platform: Option<string>, choice: nat): string
    requires choice < |TemplateTails|
  {
    PlatformFormat(Template(prompt, choice) + KeywordPhrase(keywords), platform)
  }

  /**
   * `generate_ai_content(prompt, tone, length, keywords, platform)`. The template the source
   * picks at random is the parameter `choice`; `tone` is accepted and, as in the source,
   * unused.
   */
  method GenerateAiContent(prompt: string, tone: string, length: int, keywords: seq<string>,
                           platform: Option<string>, choice: nat) returns (r: string)
    requires choice < |TemplateTails|
    ensures r == PyPrefix(Formatted(prompt, keywords, platform, choice), length)
    ensures length >= 0 ==> |r| <= length
  {
    var base := Template(prompt, choice);
    if keywords != [] {
      var keywordPhrase := " Focus on: " + Join(", ", FirstThree(keywords));
      base := base + keywordPhrase;
    }
    assert base == Template(prompt, choice) + KeywordPhrase(keywords);
    base := FormatForPlatform(base, platform);
    r := PyPrefix(base, length);
  }

  /** The platform-specific formatting step of `generate_ai_content`. */
  method FormatForPlatform(text: string, platform: Option<string>) returns (t: string)
    ensures t == PlatformFormat(text, platform)
  {
    t := text;
    if platform.Some? && platform.value != "" {
      var platformLower := LowerStr(platform.value);
      if platformLower == "twitter" {
        t := if |t| <= TwitterLimit then t else t[..TwitterLimit];
        t := t + TwitterTags;
      } else if platformLower == "linkedin" {
        t := t + LinkedInSuffix;
      } else if platformLower == "instagram" {
        t := t + InstagramSuffix;
      }
    }
  }

  /** Only the first three keywords ever reach the text. */
  lemma OnlyFirstThreeKeywords(prompt: string, keywords: seq<string>, platform: Option<string>, choice: nat)
    requires choice < |TemplateTails|
    ensures Formatted(prompt, keywords, platform, choice) == Formatted(prompt, FirstThree(keywords), platform, choice)
  {
    if |keywords| > 3 {
      assert FirstThree(FirstThree(keywords)) == FirstThree(keywords);
    }
  }

  /** For Twitter the text is cut to 280 characters and then tagged, so it never exceeds
      300 characters and always ends with the tags. */
  lemma TwitterShape(text: string, platform: Option<string>)
    requires PlatformName(platform) == "twitter"
    ensures var t := PlatformFormat(text, platform);
            |t| <= TwitterLimit + |TwitterTags| && t[|t| - |TwitterTags|..] == TwitterTags
            && t[..|t| - |TwitterTags|] <= text
  {
  }

  /** On every other platform the text is the template, the keyword phrase and the
      platform's suffix, in that order, and so begins with the prompt. */
  lemma UntruncatedShape(prompt: string, keywords: seq<string>, platform: Option<string>, choice: nat)
    requires choice < |TemplateTails| && PlatformName(platform) != "twitter"
    ensures var name := PlatformName(platform);
            var suffix := if name == "linkedin" then LinkedInSuffix
                          else if name == "instagram" then InstagramSuffix else "";
            Formatted(prompt, keywords, platform, choice) == Template(prompt, choice) + KeywordPhrase(keywords) + suffix
            && prompt + " - " <= Formatted(prompt, keywords, platform, choice)
  {
    var t := Template(prompt, choice);
    var f := Formatted(prompt, keywords, platform, choice);
    assert prompt + " - " <= t;
    assert t <= f by {
      assert f[..|t|] == t;
    }
  }

  // ---------------------------------------------------------------------------------------
  // compare_content

  /** A stored content record: its text and its keywords (none stored reads as none). */
  datatype StoredContent = StoredContent(content: string, keywords: seq<string>)

  /** One row of the comparison, read off the content's analytics report. */
  datatype Comparison = Comparison(contentId: string, overallScore: real, readabilityScore: real,
                                   engagementScore: int, keywordDensity: real)

  datatype CompareError = InsufficientData | ContentNotFound
  {
    function Message(): string
    {
      match this
      case InsufficientData => "At least 2 content IDs required for comparison"
      case ContentNotFound => "None of the provided content IDs"
    }
  }

  datatype ComparisonReport = ComparisonReport(count: nat, comparisons: seq<Comparison>,
                                               bestOverall: string, bestReadability: string,
                                               bestEngagement: string)

  /** The row for one stored content, from the report the analytics service computes. */
  function ComparisonOf(id: string, stored: StoredContent): Comparison
  {
    Comparison(id, Analytics.OverallScore(stored.content, stored.keywords),
               Analytics.ReadabilityOf(stored.content).readingEase,
               Analytics.EngagementOf(stored.content).score,
               Analytics.KeywordAnalysisOf(stored.content, stored.keywords).density)
  }

  /** The requested ids that are stored, in request order, repeats kept. */
  function StoredIds<V>(db: map<string, V>, ids: seq<string>): (s: seq<string>)
    ensures |s| <= |ids|
    ensures forall j | 0 <= j < |s| :: s[j] in db && s[j] in ids
  {
    if ids == [] then []
    else
      var init := ids[..|ids| - 1];
      var last := ids[|ids| - 1];
      assert forall x | x in init :: x in ids;
      StoredIds(db, init) + (if last in db then [last] else [])
  }

  /** No requested id is stored exactly when none of them is. */
  lemma {:induction false} StoredIdsEmpty<V>(db: map<string, V>, ids: seq<string>)
    ensures StoredIds(db, ids) == [] <==> forall i | 0 <= i < |ids| :: ids[i] !in db
    decreases |ids|
  {
    if ids != [] {
      var init := ids[..|ids| - 1];
      StoredIdsEmpty(db, init);
      assert forall i | 0 <= i < |init| :: ids[i] == init[i];
    }
  }

  /** A stored requested id is among the stored ids. */
  lemma {:induction false} StoredIdsHas<V>(db: map<string, V>, ids: seq<string>, k: nat) returns (j: nat)
    requires k < |ids| && ids[k] in db
    ensures j < |StoredIds(db, ids)| && StoredIds(db, ids)[j] == ids[k]
    decreases |ids|
  {
    var init := ids[..|ids| - 1];
    if k == |ids| - 1 {
      j := |StoredIds(db, init)|;
    } else {
      j := StoredIdsHas(db, init, k);
    }
  }

  /** The rows of the ids found in `db`, in the order of `ids`; unknown ids are skipped. */
  function Comparisons(db: map<string, StoredContent>, ids: seq<string>): seq<Comparison>
  {
    var s := StoredIds(db, ids);
    seq(|s|, j requires 0 <= j < |s| => ComparisonOf(s[j], db[s[j]]))
  }

  /** One more requested id adds its row at the end when it is stored. */
  lemma ComparisonsSnoc(db: map<string, StoredContent>, ids: seq<string>, id: string)
    ensures Comparisons(db, ids + [id])
            == Comparisons(db, ids) + (if id in db then [ComparisonOf(id, db[id])] else [])
  {
    assert (ids + [id])[..|ids|] == ids;
  }

  /** Every row belongs to a requested, stored id and describes that id's content; there are
      no more rows than ids, and none exactly when no requested id is stored. */
  lemma ComparisonsFacts(db: map<string, StoredContent>, ids: seq<string>)
    ensures var cs := Comparisons(db, ids);
            && |cs| <= |ids|
            && (forall j | 0 <= j < |cs| :: cs[j].contentId in ids && cs[j].contentId in db
                                            && cs[j] == ComparisonOf(cs[j].contentId, db[cs[j].contentId]))
            && (cs == [] <==> forall i | 0 <= i < |ids| :: ids[i] !in db)
  {
    StoredIdsEmpty(db, ids);
  }

  datatype Metric = Overall | ReadabilityScore | EngagementScore

  function Key(c: Comparison, m: Metric): real
  {
    match m
    case Overall => c.overallScore
    case ReadabilityScore => c.readabilityScore
    case EngagementScore => c.engagementScore as real
  }

  /** `max(cs, key=...)`: scanning left to right, a later row replaces the best so far only
      when it scores strictly higher, so the result is the first row with the highest score. */
  function Best(cs: seq<Comparison>, m: Metric): (i: nat)
    requires cs != []
    ensures i < |cs|
    ensures forall j | 0 <= j < |cs| :: Key(cs[j], m) <= Key(cs[i], m)
    ensures forall j | 0 <= j < i :: Key(cs[j], m) < Key(cs[i], m)
  {
    if |cs| == 1 then 0
    else
      var i := Best(cs[..|cs| - 1], m);
      assert forall j | 0 <= j < |cs| - 1 :: cs[..|cs| - 1][j] == cs[j];
      if Key(cs[|cs| - 1], m) > Key(cs[i], m) then |cs| - 1 else i
  }

  /** `compare_content(content_ids)` over the content store `db`. */
  method CompareContent(db: map<string, StoredContent>, contentIds: seq<string>)
    returns (r: Result<ComparisonReport, CompareError>)
    ensures |contentIds| < 2 ==> r == Failure(InsufficientData)
    ensures |contentIds| >= 2 && Comparisons(db, contentIds) == [] ==> r == Failure(ContentNotFound)
    ensures r.Success? ==>
              var cs := Comparisons(db, contentIds);
              && cs != []
              && r.value.comparisons == cs && r.value.count == |cs|
              && r.value.bestOverall == cs[Best(cs, Overall)].contentId
              && r.value.bestReadability == cs[Best(cs, ReadabilityScore)].contentId
              && r.value.bestEngagement == cs[Best(cs, EngagementScore)].contentId
    ensures r.Failure? ==> |contentIds| < 2 || Comparisons(db, contentIds) == []
  {
    if |contentIds| < 2 {
      return Failure(InsufficientData);
    }
    var comparisons := CollectComparisons(db, contentIds);
    if comparisons == [] {
      return Failure(ContentNotFound);
    }
    var bestOverall := comparisons[Best(comparisons, Overall)];
    var bestReadability := comparisons[Best(comparisons, ReadabilityScore)];
    var bestEngagement := comparisons[Best(comparisons, EngagementScore)];
    r := Success(ComparisonReport(|comparisons|, comparisons, bestOverall.contentId,
                                  bestReadability.contentId, bestEngagement.contentId));
  }

  /** The loop of `compare_content`: one row per stored requested id, in request order. */
  method CollectComparisons(db: map<string, StoredContent>, contentIds: seq<string>)
    returns (comparisons: seq<Comparison>)
    ensures comparisons == Comparisons(db, contentIds)
  {
    comparisons := [];
    for i := 0 to |contentIds|
      invariant comparisons == Comparisons(db, contentIds[..i])
    {
      assert contentIds[..i + 1] == contentIds[..i] + [contentIds[i]];
      ComparisonsSnoc(db, contentIds[..i], contentIds[i]);
      var contentId := contentIds[i];
      if contentId in db {
        var row := CompareOne(contentId, db[contentId]);
        comparisons := comparisons + [row];
      }
    }
    assert contentIds[..|contentIds|] == contentIds;
  }

  /** The comparison row of one stored content, read off its analytics report. */
  method CompareOne(contentId: string, stored: StoredContent) returns (row: Comparison)
    ensures row == ComparisonOf(contentId, stored)
  {
    var analysis, _ := Analytics.GenerateContentReport(stored.content, stored.keywords);
    row := Comparison(contentId, analysis.overallScore, analysis.readability.readingEase,
                      analysis.engagement.score, analysis.keywordAnalysis.density);
  }

  /** For every metric, the best id is a requested, stored id whose content scores at least
      as high as that of every other stored requested id, and higher than that of every id
      whose row comes before it. */
  lemma BestIsBest(db: map<string, StoredContent>, ids: seq<string>, m: Metric, k: nat)
    requires Comparisons(db, ids) != [] && k < |ids| && ids[k] in db
    ensures var cs := Comparisons(db, ids);
            var best := cs[Best(cs, m)].contentId;
            && best in ids && best in db
            && cs[Best(cs, m)] == ComparisonOf(best, db[best])
            && Key(ComparisonOf(ids[k], db[ids[k]]), m) <= Key(ComparisonOf(best, db[best]), m)
  {
    var cs := Comparisons(db, ids);
    ComparisonsFacts(db, ids);
    var j := StoredIdsHas(db, ids, k);
    assert Key(cs[j], m) <= Key(cs[Best(cs, m)], m);
  }
}

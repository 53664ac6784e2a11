/**
 * The content-analysis service: readability (a Flesch reading-ease estimate), engagement
 * factors, keyword density, SEO recommendations and the combined report.
 *
 * Scores that the service computes as floats but that only ever take whole values (the
 * engagement score) are integers here; averages, densities and the reading-ease score are
 * exact rationals (`real`), and their rounding to two places is not modelled.
 */
module Analytics {
  import opened Wrappers
  import opened Seqs
  import opened Text

  // ---------------------------------------------------------------------------------------
  // _count_syllables

  predicate IsVowel(c: char)
  {
    c in "aeiouy"
  }

  /** Position `i` starts a maximal run of vowels. */
  predicate IsGroupStart(w: string, i: nat)
    requires i < |w|
  {
    IsVowel(w[i]) && (i == 0 || !IsVowel(w[i - 1]))
  }

  /** The positions below `k` at which a vowel run starts */
  function GroupStartsBelow(w: string, k: nat): set<nat>
    requires k <= |w|
  {
    set i: nat | i < k && IsGroupStart(w, i)
  }

  /** The number of maximal runs of vowels in `w` */
  function VowelGroups(w: string): nat
  {
    |GroupStartsBelow(w, |w|)|
  }

  predicate EndsWithE(w: string)
  {
    w != [] && w[|w| - 1] == 'e'
  }

  /** The syllable estimate: vowel runs of the lower-cased word, one fewer for a final 'e',
      and never fewer than one. */
  function Syllables(word: string): (n: int)
    ensures n >= 1
  {
    var w := LowerStr(word);
    FinalEHasGroup(w);
    var g := VowelGroups(w) - (if EndsWithE(w) then 1 else 0);
    if g == 0 then 1 else g
  }

  /** A final 'e' is a vowel, so such a word has a vowel run to take away. */
  lemma FinalEHasGroup(w: string)
    ensures EndsWithE(w) ==> VowelGroups(w) >= 1
  {
    if EndsWithE(w) {
      VowelHasGroupStart(w, |w| - 1);
      var i: nat :| i <= |w| - 1 && IsGroupStart(w, i);
      assert i in GroupStartsBelow(w, |w|);
    }
  }

  lemma {:induction false} VowelHasGroupStart(w: string, j: nat)
    requires j < |w| && IsVowel(w[j])
    ensures exists i: nat | i <= j :: IsGroupStart(w, i)
  {
    if j > 0 && IsVowel(w[j - 1]) {
      VowelHasGroupStart(w, j - 1);
    } else {
      assert IsGroupStart(w, j);
    }
  }

  lemma GroupStartsStep(w: string, k: nat)
    requires k < |w|
    ensures |GroupStartsBelow(w, k + 1)| == |GroupStartsBelow(w, k)| + (if IsGroupStart(w, k) then 1 else 0)
  {
    GroupStartsGrow(w, k);
    assert k !in GroupStartsBelow(w, k);
  }

  /** One position more adds that position exactly when a vowel run starts there. */
  lemma GroupStartsGrow(w: string, k: nat)
    requires k < |w|
    ensures GroupStartsBelow(w, k + 1) == GroupStartsBelow(w, k) + (if IsGroupStart(w, k) then {k} else {})
  {
    var below, next := GroupStartsBelow(w, k), GroupStartsBelow(w, k + 1);
    forall i | i in next ensures i in below + (if IsGroupStart(w, k) then {k} else {}) {
      if i < k {
        assert i in below;
      }
    }
  }

  /** The syllable estimate never sees the case of a letter. */
  lemma SyllablesIgnoreCase(word: string)
    ensures Syllables(LowerStr(word)) == Syllables(word)
  {
    LowerStrIdempotent(word);
  }

  /** `_count_syllables(word)` */
  method CountSyllables(word: string) returns (n: int)
    ensures n == Syllables(word)
  {
    var w := LowerStr(word);
    n := 0;
    var previousWasVowel := false;
    for k := 0 to |w|
      invariant n == |GroupStartsBelow(w, k)|
      invariant previousWasVowel == (k > 0 && IsVowel(w[k - 1]))
    {
      var isVowel := IsVowel(w[k]);
      GroupStartsStep(w, k);
      if isVowel && !previousWasVowel {
        n := n + 1;
      }
      previousWasVowel := isVowel;
    }
    if |w| > 0 && w[|w| - 1] == 'e' {
      n := n - 1;
    }
    if n == 0 {
      n := 1;
    }
  }

  // ---------------------------------------------------------------------------------------
  // analyze_readability

  predicate IsTerminator(c: char)
  {
    c == '.' || c == '!' || c == '?'
  }

  function Terminators(s: string): nat
  {
    if s == [] then 0 else (if IsTerminator(s[0]) then 1 else 0) + Terminators(s[1..])
  }

  /**
   * The pieces of `s` between sentence terminators, one piece per terminator plus one. Where
   * terminators follow one another this yields empty pieces that a split on runs of
   * terminators would not; `Sentences` drops blank pieces, so the two agree there.
   */
  function Fragments(s: string): (fs: seq<string>)
    ensures |fs| == Terminators(s) + 1
    ensures forall f | f in fs :: forall c | c in f :: !IsTerminator(c)
  {
    if s == [] then [""]
    else
      var rest := Fragments(s[1..]);
      assert rest[0] in rest;
      if IsTerminator(s[0]) then [""] + rest
      else
        assert forall c | c in [s[0]] + rest[0] :: c == s[0] || c in rest[0];
        assert forall f | f in rest[1..] :: f in rest;
        [[s[0]] + rest[0]] + rest[1..]
  }

  /** `[f.strip() for f in fragments if f.strip()]` */
  function NonBlank(fs: seq<string>): (r: seq<string>)
    ensures |r| <= |fs|
    ensures forall x | x in r :: x != []
  {
    if fs == [] then []
    else (if Strip(fs[0]) != [] then [Strip(fs[0])] else []) + NonBlank(fs[1..])
  }

  function Sentences(s: string): seq<string>
  {
    NonBlank(Fragments(s))
  }

  /** There are never more sentences than terminators plus one. */
  lemma SentencesBound(s: string)
    ensures |Sentences(s)| <= Terminators(s) + 1
  {
  }

  /** Text without a terminator that is not blank is one sentence, its stripped self. */
  lemma {:induction false} OneSentence(s: string)
    requires Terminators(s) == 0 && Strip(s) != []
    ensures Sentences(s) == [Strip(s)]
  {
    NoTerminatorOneFragment(s);
  }

  lemma {:induction false} NoTerminatorOneFragment(s: string)
    requires Terminators(s) == 0
    ensures Fragments(s) == [s]
  {
    if s != [] {
      NoTerminatorOneFragment(s[1..]);
      assert [s[0]] + s[1..] == s;
    }
  }

  function SumSyllables(words: seq<string>): (n: nat)
    ensures n >= |words|
  {
    if words == [] then 0 else Syllables(words[0]) + SumSyllables(words[1..])
  }

  datatype Readability = Readability(readingEase: real, avgWordsPerSentence: real,
                                     totalWords: nat, totalSentences: nat)

  function Clamp(x: real, lo: real, hi: real): (r: real)
    requires lo <= hi
    ensures lo <= r <= hi
    ensures lo <= x <= hi ==> r == x
  {
    if x < lo then lo else if x > hi then hi else x
  }

  /** `max(len(sentences), 1)` */
  function SentenceCount(content: string): (n: nat)
    ensures n >= 1
  {
    var k := |Sentences(content)|;
    if k > 1 then k else 1
  }

  /** `word_count / sentence_count` */
  function AvgWordsPerSentence(content: string): real
  {
    |Words(content)| as real / SentenceCount(content) as real
  }

  /** The Flesch reading-ease estimate, clamped to [0, 100] */
  function ReadingEase(content: string): (e: real)
    ensures 0.0 <= e <= 100.0
  {
    var words := Words(content);
    var wordCount := |words|;
    var avgSyllables := SumSyllables(words) as real / (if wordCount > 1 then wordCount else 1) as real;
    Clamp(206.835 - 1.015 * AvgWordsPerSentence(content) - 84.6 * avgSyllables, 0.0, 100.0)
  }

  /** `analyze_readability(content)` before rounding */
  function ReadabilityOf(content: string): (r: Readability)
    ensures 0.0 <= r.readingEase <= 100.0
  {
    Readability(ReadingEase(content), AvgWordsPerSentence(content), |Words(content)|, SentenceCount(content))
  }

  /** The report counts the words and the non-blank sentences, and at least one sentence. */
  lemma ReadabilityCounts(content: string)
    ensures var r := ReadabilityOf(content);
      && r.totalWords == |Words(content)|
      && r.totalSentences >= 1
      && r.totalSentences == if Sentences(content) == [] then 1 else |Sentences(content)|
  {
  }

  /** The average exceeds a whole number `k` exactly when the text has more than `k` words per
      counted sentence, with no rounding involved. */
  lemma AverageAbove(content: string, k: nat)
    ensures AvgWordsPerSentence(content) > k as real <==> |Words(content)| > k * SentenceCount(content)
  {
    RatioAbove(|Words(content)|, SentenceCount(content), k);
  }

  lemma RatioAbove(w: nat, n: nat, k: nat)
    requires n >= 1
    ensures w as real / n as real > k as real <==> w > k * n
  {
    assert w as real / n as real * n as real == w as real;
  }

  /** Every word has at least one syllable, so any text with words scores at most 121.22 before
      clamping; the clamp to 100 is what bounds the score. */
  lemma AverageSyllablesAtLeastOne(content: string)
    requires Words(content) != []
    ensures SumSyllables(Words(content)) as real / |Words(content)| as real >= 1.0
  {
    var words := Words(content);
    RatioAtLeastOne(SumSyllables(words) as real, |words| as real);
  }

  lemma RatioAtLeastOne(x: real, y: real)
    requires 0.0 < y <= x
    ensures x / y >= 1.0
  {
  }

  // ---------------------------------------------------------------------------------------
  // analyze_engagement_potential

  const PositiveWords: seq<string> :=
    ["amazing", "excellent", "fantastic", "great", "outstanding",
     "wonderful", "perfect", "best", "love", "incredible"]
  const NegativeWords: seq<string> :=
    ["bad", "terrible", "awful", "worst", "hate", "disappointing", "poor", "failure", "useless"]
  const ActionWords: seq<string> :=
    ["buy", "get", "discover", "learn", "start", "join", "subscribe", "download", "register", "click", "shop"]

  /** The positions of the listed words that occur in `text` */
  function PresentAt(words: seq<string>, text: string): set<int>
  {
    set i | 0 <= i < |words| && Contains(text, words[i])
  }

  /** `sum(1 for word in words if word in text)`, one word more at a time from the end */
  function CountPresent(words: seq<string>, text: string): (n: nat)
    ensures n == |PresentAt(words, text)|
    ensures n <= |words|
    ensures n == 0 <==> forall i | 0 <= i < |words| :: !Contains(text, words[i])
    ensures n == |words| <==> forall i | 0 <= i < |words| :: Contains(text, words[i])
  {
    if words == [] then 0
    else
      var init, last := words[..|words| - 1], words[|words| - 1];
      var rest := CountPresent(init, text);
      PresentAtGrow(words, text);
      assert forall i | 0 <= i < |init| :: init[i] == words[i];
      rest + (if Contains(text, last) then 1 else 0)
  }

  lemma PresentAtGrow(words: seq<string>, text: string)
    requires words != []
    ensures var k := |words| - 1;
      && k !in PresentAt(words[..k], text)
      && PresentAt(words, text) == PresentAt(words[..k], text) + (if Contains(text, words[k]) then {k} else {})
  {
    var k := |words| - 1;
    var below, all := PresentAt(words[..k], text), PresentAt(words, text);
    forall i | i in all ensures i in below + (if Contains(text, words[k]) then {k} else {}) {
      if i < k { assert words[..k][i] == words[i]; }
    }
  }

  /** The listed words that occur in `text` */
  function WordsPresent(words: seq<string>, text: string): set<string>
  {
    set w | w in words && Contains(text, w)
  }

  lemma WordsPresentGrow(words: seq<string>, text: string)
    requires words != []
    ensures var k := |words| - 1;
      WordsPresent(words, text) == WordsPresent(words[..k], text) + (if Contains(text, words[k]) then {words[k]} else {})
  {
    assert words == words[..|words| - 1] + [words[|words| - 1]];
  }

  lemma DistinctInit(words: seq<string>)
    requires words != [] && Distinct(words)
    ensures var k := |words| - 1; Distinct(words[..k]) && words[k] !in words[..k]
  {
    var k := |words| - 1;
    forall i | 0 <= i < k ensures words[..k][i] == words[i] != words[k] {
    }
  }

  /** On a list without repeats, the count is the number of distinct listed words that occur. */
  lemma {:induction false} CountPresentDistinct(words: seq<string>, text: string)
    requires Distinct(words)
    ensures CountPresent(words, text) == |WordsPresent(words, text)|
  {
    if words != [] {
      var k := |words| - 1;
      DistinctInit(words);
      CountPresentDistinct(words[..k], text);
      WordsPresentGrow(words, text);
    }
  }

  /** None of the three engagement lists repeats a word. */
  lemma EngagementListsDistinct()
    ensures Distinct(PositiveWords) && Distinct(NegativeWords) && Distinct(ActionWords)
  {
  }

  /** `bool(re.search(r'\d', s))` */
  predicate HasDigit(s: string)
  {
    s != [] && (IsDigit(s[0]) || HasDigit(s[1..]))
  }

  lemma {:induction false} HasDigitIff(s: string)
    ensures HasDigit(s) <==> exists i | 0 <= i < |s| :: IsDigit(s[i])
  {
    if s != [] {
      HasDigitIff(s[1..]);
      if HasDigit(s[1..]) {
        var i :| 0 <= i < |s[1..]| && IsDigit(s[1..][i]);
        assert IsDigit(s[i + 1]);
      }
      if exists i | 0 <= i < |s| :: IsDigit(s[i]) {
        var i :| 0 <= i < |s| && IsDigit(s[i]);
        if i > 0 {
          assert IsDigit(s[1..][i - 1]);
        }
      }
    }
  }

  function Min(a: int, b: int): int
  {
    if a <= b then a else b
  }

  datatype Engagement = Engagement(score: int, actionWords: nat, positiveWords: nat, negativeWords: nat,
                                   hasQuestions: bool, questionCount: nat, hasNumbers: bool)

  /** `analyze_engagement_potential(content)` */
  function EngagementOf(content: string): (e: Engagement)
    ensures 50 <= e.score <= 100
    ensures e.actionWords == |PresentAt(ActionWords, LowerStr(content))| <= |ActionWords|
    ensures e.positiveWords == |PresentAt(PositiveWords, LowerStr(content))| <= |PositiveWords|
    ensures e.negativeWords == |PresentAt(NegativeWords, LowerStr(content))| <= |NegativeWords|
    ensures e.questionCount == multiset(content)['?']
    ensures e.hasQuestions <==> e.questionCount > 0
    ensures e.hasNumbers <==> exists i | 0 <= i < |content| :: IsDigit(content[i])
  {
    var lower := LowerStr(content);
    var actions := CountPresent(ActionWords, lower);
    var positive := CountPresent(PositiveWords, lower);
    var negative := CountPresent(NegativeWords, lower);
    var hasQuestions := Contains(content, "?");
    var questions := Count(content, "?");
    var hasNumbers := HasDigit(content);
    CountPositiveIffContains(content, "?");
    CountChar(content, '?');
    HasDigitIff(content);
    var score := 50 + Min(actions * 10, 30) + Min(positive * 5, 15) + questions * 5 + (if hasNumbers then 5 else 0);
    Engagement(Min(score, 100), actions, positive, negative, hasQuestions, questions, hasNumbers)
  }

  /** Each engagement count is the number of distinct list words that occur in the
      lower-cased text; it is zero exactly when none occurs and full exactly when all do. */
  lemma EngagementCountsWords(content: string)
    ensures var e, lower := EngagementOf(content), LowerStr(content);
      && e.actionWords == |WordsPresent(ActionWords, lower)|
      && e.positiveWords == |WordsPresent(PositiveWords, lower)|
      && e.negativeWords == |WordsPresent(NegativeWords, lower)|
      && (e.actionWords == 0 <==> forall i | 0 <= i < |ActionWords| :: !Contains(lower, ActionWords[i]))
      && (e.positiveWords == |PositiveWords| <==> forall i | 0 <= i < |PositiveWords| :: Contains(lower, PositiveWords[i]))
  {
    var lower := LowerStr(content);
    EngagementListsDistinct();
    CountPresentDistinct(ActionWords, lower);
    CountPresentDistinct(PositiveWords, lower);
    CountPresentDistinct(NegativeWords, lower);
  }

  // ---------------------------------------------------------------------------------------
  // analyze_keyword_density

  /** `content.lower().count(keyword.lower())` */
  function Occurrences(content: string, keyword: string): nat
  {
    Count(LowerStr(content), LowerStr(keyword))
  }

  /** `keywords_found`: the keywords that occur, in input order, repeats kept */
  function Found(content: string, keywords: seq<string>): seq<string>
  {
    if keywords == [] then []
    else
      var last := keywords[|keywords| - 1];
      Found(content, keywords[..|keywords| - 1]) + (if Occurrences(content, last) > 0 then [last] else [])
  }

  /** `total_keyword_occurrences`: every keyword's count, a repeated keyword once per repeat */
  function TotalOccurrences(content: string, keywords: seq<string>): nat
  {
    if keywords == [] then 0
    else TotalOccurrences(content, keywords[..|keywords| - 1]) + Occurrences(content, keywords[|keywords| - 1])
  }

  /** `keyword_frequency`: the dictionary the loop fills, one entry per keyword that occurs */
  function Frequency(content: string, keywords: seq<string>): map<string, nat>
  {
    if keywords == [] then map[]
    else
      var last := keywords[|keywords| - 1];
      var m := Frequency(content, keywords[..|keywords| - 1]);
      var c := Occurrences(content, last);
      if c > 0 then m[last := c] else m
  }

  /** A keyword is found exactly when it occurs, and there are no more found than given. */
  lemma {:induction false} FoundFacts(content: string, keywords: seq<string>)
    ensures |Found(content, keywords)| <= |keywords|
    ensures forall k | k in Found(content, keywords) :: k in keywords && Occurrences(content, k) > 0
    ensures forall k | k in keywords && Occurrences(content, k) > 0 :: k in Found(content, keywords)
  {
    if keywords != [] {
      var init := keywords[..|keywords| - 1];
      FoundFacts(content, init);
      assert forall k | k in keywords :: k in init || k == keywords[|keywords| - 1];
    }
  }

  /** Each found keyword occurs at least once, so the total is at least the number found. */
  lemma {:induction false} TotalAtLeastFound(content: string, keywords: seq<string>)
    ensures TotalOccurrences(content, keywords) >= |Found(content, keywords)|
  {
    if keywords != [] {
      TotalAtLeastFound(content, keywords[..|keywords| - 1]);
    }
  }

  /** The frequency map has the found keywords as keys, each mapped to its positive count. */
  lemma {:induction false} FrequencyFacts(content: string, keywords: seq<string>)
    ensures Frequency(content, keywords).Keys == Elements(Found(content, keywords))
    ensures forall k | k in Frequency(content, keywords) ::
              Frequency(content, keywords)[k] == Occurrences(content, k) && Frequency(content, keywords)[k] > 0
  {
    if keywords != [] {
      var init := keywords[..|keywords| - 1];
      FrequencyFacts(content, init);
    }
  }

  /** `(total / max(words, 1)) * 100` */
  function Density(content: string, keywords: seq<string>): (d: real)
    ensures d >= 0.0
  {
    var words := |Words(LowerStr(content))|;
    TotalOccurrences(content, keywords) as real / (if words > 1 then words else 1) as real * 100.0
  }

  datatype KeywordAnalysis = KeywordAnalysis(density: real, found: seq<string>, frequency: map<string, nat>,
                                             totalOccurrences: Option<nat>)

  /** What `analyze_keyword_density(content, keywords)` returns, before rounding; an empty
      keyword list yields no `total_keyword_occurrences` entry. */
  function KeywordAnalysisOf(content: string, keywords: seq<string>): (r: KeywordAnalysis)
    ensures r.density >= 0.0
  {
    if keywords == [] then KeywordAnalysis(0.0, [], map[], None)
    else
      KeywordAnalysis(Density(content, keywords), Found(content, keywords), Frequency(content, keywords),
                      Some(TotalOccurrences(content, keywords)))
  }

  /** Without keywords the analysis is empty; with keywords the total is present and counts at
      least one occurrence per found keyword, and the frequency map has exactly the found
      keywords as its keys. */
  lemma KeywordAnalysisShape(content: string, keywords: seq<string>)
    ensures var r := KeywordAnalysisOf(content, keywords);
      && (keywords == [] ==> r.density == 0.0 && r.found == [] && r.frequency == map[] && r.totalOccurrences == None)
      && (keywords != [] ==> r.totalOccurrences.Some? && r.totalOccurrences.value >= |r.found|)
      && r.frequency.Keys == Elements(r.found)
  {
    if keywords != [] {
      TotalAtLeastFound(content, keywords);
      FrequencyFacts(content, keywords);
    }
  }

  lemma {:induction false} TotalAppend(content: string, a: seq<string>, b: seq<string>)
    ensures TotalOccurrences(content, a + b) == TotalOccurrences(content, a) + TotalOccurrences(content, b)
    decreases |b|
  {
    if b == [] {
      assert a + b == a;
    } else {
      assert (a + b)[..|a + b| - 1] == a + b[..|b| - 1];
      TotalAppend(content, a, b[..|b| - 1]);
    }
  }

  /** A keyword listed twice is counted twice. */
  lemma TotalCountsRepeats(content: string, keywords: seq<string>)
    ensures TotalOccurrences(content, keywords + keywords) == 2 * TotalOccurrences(content, keywords)
  {
    TotalAppend(content, keywords, keywords);
  }

  /** The empty keyword counts as found: Python counts the empty string |s| + 1 times. */
  lemma EmptyKeywordIsFound(content: string, keywords: seq<string>)
    requires "" in keywords
    ensures "" in Found(content, keywords)
    ensures Occurrences(content, "") == |content| + 1
  {
    FoundFacts(content, keywords);
  }

  /** The density is taken over as many words as the original text has. */
  lemma DensityOverWords(content: string, keywords: seq<string>)
    requires Words(content) != []
    ensures Density(content, keywords) == TotalOccurrences(content, keywords) as real / |Words(content)| as real * 100.0
  {
    WordsLowerCount(content);
  }

  /** One more keyword extends the three accumulated results by that keyword's count. */
  lemma KeywordStep(content: string, keywords: seq<string>, i: nat)
    requires i < |keywords|
    ensures var k := keywords[i];
      var c := Occurrences(content, k);
      && Found(content, keywords[..i + 1]) == Found(content, keywords[..i]) + (if c > 0 then [k] else [])
      && TotalOccurrences(content, keywords[..i + 1]) == TotalOccurrences(content, keywords[..i]) + c
      && Frequency(content, keywords[..i + 1]) == (if c > 0 then Frequency(content, keywords[..i])[k := c]
                                                  else Frequency(content, keywords[..i]))
  {
    assert keywords[..i + 1][..i] == keywords[..i];
  }

  /** `analyze_keyword_density(content, keywords)` */
  method AnalyzeKeywordDensity(content: string, keywords: seq<string>) returns (r: KeywordAnalysis)
    ensures r == KeywordAnalysisOf(content, keywords)
  {
    if keywords == [] {
      return KeywordAnalysis(0.0, [], map[], None);
    }
    var contentLower := LowerStr(content);
    var totalWords := |Words(contentLower)|;
    var frequency: map<string, nat> := map[];
    var found: seq<string> := [];
    var total: nat := 0;
    for i := 0 to |keywords|
      invariant found == Found(content, keywords[..i])
      invariant frequency == Frequency(content, keywords[..i])
      invariant total == TotalOccurrences(content, keywords[..i])
    {
      var keyword := keywords[i];
      var count := Count(contentLower, LowerStr(keyword));
      KeywordStep(content, keywords, i);
      if count > 0 {
        frequency := frequency[keyword := count];
        found := found + [keyword];
        total := total + count;
      }
    }
    assert keywords[..|keywords|] == keywords;
    var density := total as real / (if totalWords > 1 then totalWords else 1) as real * 100.0;
    return KeywordAnalysis(density, found, frequency, Some(total));
  }

  // ---------------------------------------------------------------------------------------
  // generate_seo_recommendations

  datatype Recommendation =
    | ContentShort
    | ContentVeryLong
    | DensityLow
    | DensityHigh
    | MissingKeywords(names: seq<string>)
    | AddQuestions
    | AddNumbers
    | LongSentences
    | LooksGood
  {
    /** The message text */
    function Message(): string
    {
      match this
      case ContentShort => "Content is short. Consider adding more detail (aim for 300-1000 words)."
      case ContentVeryLong => "Content is very long. Consider breaking it into multiple pieces."
      case DensityLow => "Keyword density is low. Try to naturally incorporate more target keywords."
      case DensityHigh => "Keyword density is high. Reduce keyword usage to avoid keyword stuffing."
      case MissingKeywords(names) => "Missing keywords: " + Join(", ", names)
      case AddQuestions => "Consider adding questions to increase engagement."
      case AddNumbers => "Adding numbers or statistics can improve credibility and engagement."
      case LongSentences => "Sentences are long. Shorten them for better readability."
      case LooksGood => "Content looks good! No major SEO issues detected."
    }

    /** The place of the check that adds this message, in the order the checks run */
    function Rank(): nat
    {
      match this
      case ContentShort => 0
      case ContentVeryLong => 1
      case DensityLow => 2
      case DensityHigh => 3
      case MissingKeywords(_) => 4
      case AddQuestions => 5
      case AddNumbers => 6
      case LongSentences => 7
      case LooksGood => 8
    }
  }

  /** `set(keywords) - set(keywords_found)` */
  function MissingSet(content: string, keywords: seq<string>): set<string>
  {
    Elements(keywords) - Elements(KeywordAnalysisOf(content, keywords).found)
  }

  /** `list(missing)[:3]` for some iteration order of the set */
  predicate ValidMissingNames(names: seq<string>, missing: set<string>)
  {
    && Distinct(names)
    && Elements(names) <= missing
    && |names| == (if |missing| < 3 then |missing| else 3)
  }

  /** Everything about the text that the recommendation rules look at */
  datatype Signals = Signals(wordCount: nat, keywordsGiven: bool, density: real, anyMissing: bool,
                             hasQuestion: bool, hasDigit: bool, avgWordsPerSentence: real)

  function SignalsOf(content: string, keywords: seq<string>): Signals
  {
    Signals(|Words(content)|, keywords != [], KeywordAnalysisOf(content, keywords).density,
            MissingSet(content, keywords) != {}, '?' in content, HasDigit(content),
            AvgWordsPerSentence(content))
  }

  /** Whether the check that adds the message `r` fires */
  predicate Applies(g: Signals, r: Recommendation)
  {
    match r
    case ContentShort => g.wordCount < 300
    case ContentVeryLong => g.wordCount > 2000
    case DensityLow => g.keywordsGiven && g.density < 1.0
    case DensityHigh => g.keywordsGiven && g.density > 3.0
    case MissingKeywords(_) => g.keywordsGiven && g.anyMissing
    case AddQuestions => !g.hasQuestion
    case AddNumbers => !g.hasDigit
    case LongSentences => g.avgWordsPerSentence > 20.0
    case LooksGood => false
  }

  /** Every check, in the order the method runs them */
  function Checks(names: seq<string>): seq<Recommendation>
  {
    [ContentShort, ContentVeryLong, DensityLow, DensityHigh, MissingKeywords(names),
     AddQuestions, AddNumbers, LongSentences]
  }

  predicate StrictlyRanked(recs: seq<Recommendation>)
  {
    forall i, j | 0 <= i < j < |recs| :: recs[i].Rank() < recs[j].Rank()
  }

  /** The message `r` if its check fires, else nothing */
  function Piece(g: Signals, r: Recommendation): seq<Recommendation>
  {
    if Applies(g, r) then [r] else []
  }

  /** The messages among `rs` whose checks fire, in order */
  function Select(g: Signals, rs: seq<Recommendation>): seq<Recommendation>
  {
    if rs == [] then [] else Select(g, rs[..|rs| - 1]) + Piece(g, rs[|rs| - 1])
  }

  /** Selection keeps exactly the messages whose checks fire, and keeps their order. */
  lemma {:induction false} SelectFacts(g: Signals, rs: seq<Recommendation>)
    ensures forall x | x in Select(g, rs) :: x in rs && Applies(g, x)
    ensures forall x | x in rs && Applies(g, x) :: x in Select(g, rs)
    ensures StrictlyRanked(rs) ==> StrictlyRanked(Select(g, rs))
  {
    if rs != [] {
      var init := rs[..|rs| - 1];
      var last := rs[|rs| - 1];
      SelectFacts(g, init);
      var r := Select(g, init);
      assert forall x | x in rs :: x in init || x == last;
      if StrictlyRanked(rs) && Applies(g, last) {
        assert StrictlyRanked(init);
        forall x | x in r ensures x.Rank() < last.Rank() {
          var i :| 0 <= i < |init| && init[i] == x;
          assert rs[i] == x;
        }
        assert forall i | 0 <= i < |r| :: r[i] in r;
      }
    }
  }

  lemma SelectSnoc(g: Signals, done: seq<Recommendation>, x: Recommendation)
    ensures Select(g, done + [x]) == Select(g, done) + Piece(g, x)
  {
    assert (done + [x])[..|done|] == done;
  }

  /** The messages of the checks that fire, check by check in the order they run */
  function Issues(g: Signals, names: seq<string>): seq<Recommendation>
  {
    Piece(g, ContentShort) + Piece(g, ContentVeryLong) + Piece(g, DensityLow) + Piece(g, DensityHigh)
    + Piece(g, MissingKeywords(names)) + Piece(g, AddQuestions) + Piece(g, AddNumbers)
    + Piece(g, LongSentences)
  }

  /** The recommendations for the signals of a text, given the names that the missing-keyword
      message lists: the messages of the checks that fire, or "looks good" if none does */
  function Recommendations(g: Signals, names: seq<string>): seq<Recommendation>
  {
    var issues := Select(g, Checks(names));
    if issues == [] then [LooksGood] else issues
  }

  /** Writing the checks out one by one is the same as selecting from the list of all checks. */
  lemma IssuesAreSelected(g: Signals, names: seq<string>)
    ensures Issues(g, names) == Select(g, Checks(names))
  {
    var c := Checks(names);
    assert c[..0] == [];
    assert c[..1] == c[..0] + [c[0]];
    assert c[..2] == c[..1] + [c[1]];
    assert c[..3] == c[..2] + [c[2]];
    assert c[..4] == c[..3] + [c[3]];
    assert c[..5] == c[..4] + [c[4]];
    assert c[..6] == c[..5] + [c[5]];
    assert c[..7] == c[..6] + [c[6]];
    assert c == c[..7] + [c[7]];
    SelectSnoc(g, c[..0], c[0]);
    SelectSnoc(g, c[..1], c[1]);
    SelectSnoc(g, c[..2], c[2]);
    SelectSnoc(g, c[..3], c[3]);
    SelectSnoc(g, c[..4], c[4]);
    SelectSnoc(g, c[..5], c[5]);
    SelectSnoc(g, c[..6], c[6]);
    SelectSnoc(g, c[..7], c[7]);
  }

  /** The list is never empty, "looks good" comes alone or not at all, the messages come in
      the fixed order length, density, missing keywords, questions, numbers, sentence length,
      each at most once, and "short" and "very long" never appear together. */
  lemma RecommendationsShape(g: Signals, names: seq<string>)
    ensures var recs := Recommendations(g, names);
      && recs != []
      && (LooksGood in recs <==> recs == [LooksGood])
      && StrictlyRanked(recs)
      && !(ContentShort in recs && ContentVeryLong in recs)
      && !(DensityLow in recs && DensityHigh in recs)
  {
    assert StrictlyRanked(Checks(names));
    SelectFacts(g, Checks(names));
  }

  /** A message is in the list exactly when its check fires, and "looks good" exactly when no
      check fires. */
  lemma RecommendationsConditions(g: Signals, names: seq<string>)
    ensures var recs := Recommendations(g, names);
      && (forall r | r in Checks(names) :: r in recs <==> Applies(g, r))
      && (LooksGood in recs <==> forall r | r in Checks(names) :: !Applies(g, r))
  {
    var issues := Select(g, Checks(names));
    SelectFacts(g, Checks(names));
    if issues == [] {
      assert forall r | r in Checks(names) :: !Applies(g, r);
    } else {
      assert issues[0] in issues;
    }
  }

  /** The signals of a text say what their names suggest. */
  lemma SignalsMeaning(content: string, keywords: seq<string>)
    ensures var g := SignalsOf(content, keywords);
      && g.wordCount == |Words(content)|
      && (g.hasQuestion <==> Contains(content, "?"))
      && (g.hasDigit <==> exists i | 0 <= i < |content| :: IsDigit(content[i]))
      && (g.keywordsGiven && g.anyMissing <==> exists k | k in keywords :: Occurrences(content, k) == 0)
  {
    ContainsChar(content, '?');
    HasDigitIff(content);
    FoundFacts(content, keywords);
    if keywords != [] {
      var found := Found(content, keywords);
      if exists k | k in keywords :: Occurrences(content, k) == 0 {
        var k :| k in keywords && Occurrences(content, k) == 0;
        assert k in MissingSet(content, keywords);
      }
    }
  }

  /** The names in the missing-keyword message are keywords that were not found, at most 3. */
  lemma MissingNamesAreMissing(content: string, keywords: seq<string>, names: seq<string>)
    requires ValidMissingNames(names, MissingSet(content, keywords))
    ensures |names| <= 3 && Distinct(names)
    ensures forall n | n in names :: n in keywords && Occurrences(content, n) == 0
  {
    FoundFacts(content, keywords);
    forall n | n in names ensures n in keywords && Occurrences(content, n) == 0 {
      assert n in MissingSet(content, keywords);
      assert n in keywords && keywords != [];
      assert n !in Found(content, keywords);
    }
  }

  /** `list(set)`: the elements of a set in some order, each once */
  method Enumerate(s: set<string>) returns (xs: seq<string>)
    ensures Distinct(xs) && Elements(xs) == s && |xs| == |s|
  {
    xs := [];
    var rest := s;
    while rest != {}
      invariant Distinct(xs)
      invariant Elements(xs) + rest == s && Elements(xs) !! rest
      decreases rest
    {
      var x :| x in rest;
      xs := xs + [x];
      rest := rest - {x};
    }
    DistinctCard(xs);
  }

  /** The word-count block of `generate_seo_recommendations`, which starts the list: "short"
      below 300 words, "very long" above 2000. */
  method LengthRecommendations(content: string, ghost g: Signals) returns (recs: seq<Recommendation>)
    requires g.wordCount == |Words(content)|
    ensures recs == Piece(g, ContentShort) + Piece(g, ContentVeryLong)
  {
    recs := [];
    var wordCount := |Words(content)|;
    if wordCount < 300 {
      recs := recs + [ContentShort];
    } else if wordCount > 2000 {
      recs := recs + [ContentVeryLong];
    }
  }

  /** The keyword block of `generate_seo_recommendations`, run when keywords are given: a
      density message if the density is outside [1, 3], then the missing-keyword message. */
  method AddKeywordRecommendations(content: string, keywords: seq<string>, ghost g: Signals,
                                   recs0: seq<Recommendation>)
      returns (recs: seq<Recommendation>, ghost names: seq<string>)
    requires keywords != [] && g.keywordsGiven
    requires g.density == KeywordAnalysisOf(content, keywords).density
    requires g.anyMissing == (MissingSet(content, keywords) != {})
    ensures recs == recs0 + Piece(g, DensityLow) + Piece(g, DensityHigh) + Piece(g, MissingKeywords(names))
    ensures g.anyMissing ==> ValidMissingNames(names, MissingSet(content, keywords))
  {
    recs := recs0;
    var analysis := AnalyzeKeywordDensity(content, keywords);
    if analysis.density < 1.0 {
      recs := recs + [DensityLow];
    } else if analysis.density > 3.0 {
      recs := recs + [DensityHigh];
    }
    ghost var densityPart := recs;
    assert densityPart == recs0 + Piece(g, DensityLow) + Piece(g, DensityHigh);
    names := [];
    var missing := Elements(keywords) - Elements(analysis.found);
    if missing != {} {
      var listed := Enumerate(missing);
      var shown := listed[..if |listed| < 3 then |listed| else 3];
      recs := recs + [MissingKeywords(shown)];
      names := shown;
    }
    assert recs == densityPart + Piece(g, MissingKeywords(names));
  }

  /** The question and number checks of `generate_seo_recommendations` */
  method AddStructureRecommendations(content: string, ghost g: Signals, recs0: seq<Recommendation>)
      returns (recs: seq<Recommendation>)
    requires g.hasQuestion == ('?' in content) && g.hasDigit == HasDigit(content)
    ensures recs == recs0 + Piece(g, AddQuestions) + Piece(g, AddNumbers)
  {
    recs := recs0;
    if '?' !in content {
      recs := recs + [AddQuestions];
    }
    ghost var questionPart := recs;
    if !HasDigit(content) {
      recs := recs + [AddNumbers];
    }
    assert recs == questionPart + Piece(g, AddNumbers);
  }

  /** The readability block of `generate_seo_recommendations`: the long-sentence message when
      the sentences average more than 20 words. */
  method AddReadabilityRecommendation(content: string, ghost g: Signals, recs0: seq<Recommendation>)
      returns (recs: seq<Recommendation>)
    requires g.avgWordsPerSentence == AvgWordsPerSentence(content)
    ensures recs == recs0 + Piece(g, LongSentences)
  {
    recs := recs0;
    var readability := ReadabilityOf(content);
    if readability.avgWordsPerSentence > 20.0 {
      recs := recs + [LongSentences];
    }
  }

  /** `generate_seo_recommendations(content, keywords)`: the missing-keyword message lists
      whichever three missing keywords the set enumerates first. */
  method GenerateSeoRecommendations(content: string, keywords: seq<string>)
      returns (recs: seq<Recommendation>, ghost names: seq<string>)
    ensures recs == Recommendations(SignalsOf(content, keywords), names)
    ensures MissingSet(content, keywords) != {} ==> ValidMissingNames(names, MissingSet(content, keywords))
  {
    ghost var g := SignalsOf(content, keywords);
    names := [];
    recs := LengthRecommendations(content, g);
    if keywords != [] {
      recs, names := AddKeywordRecommendations(content, keywords, g, recs);
    } else {
      assert MissingSet(content, keywords) == {};
    }
    recs := AddStructureRecommendations(content, g, recs);
    recs := AddReadabilityRecommendation(content, g, recs);
    assert recs == Issues(g, names);
    IssuesAreSelected(g, names);
    if recs == [] {
      recs := [LooksGood];
    }
  }

  // ---------------------------------------------------------------------------------------
  // generate_content_report

  /** `overall_score` before rounding */
  function OverallScore(content: string, keywords: seq<string>): (s: real)
    ensures 35.0 <= s <= 100.0
  {
    var density := KeywordAnalysisOf(content, keywords).density;
    ReadabilityOf(content).readingEase * 0.3 + EngagementOf(content).score as real * 0.4
    + (if 1.0 <= density <= 3.0 then 100.0 else 50.0) * 0.3
  }

  /** Without keywords the keyword part of the score is the lower one, so the overall score is at
      most 85. */
  lemma NoKeywordsScore(content: string)
    ensures OverallScore(content, []) <= 85.0
  {
  }

  datatype Report = Report(overallScore: real, readability: Readability, engagement: Engagement,
                           keywordAnalysis: KeywordAnalysis, recommendations: seq<Recommendation>)

  /** `generate_content_report(content, keywords)`; the time stamp is not modelled. */
  method GenerateContentReport(content: string, keywords: seq<string>) returns (r: Report, ghost names: seq<string>)
    ensures 35.0 <= r.overallScore <= 100.0
    ensures r.overallScore == OverallScore(content, keywords)
    ensures r.readability == ReadabilityOf(content) && r.engagement == EngagementOf(content)
    ensures r.keywordAnalysis == KeywordAnalysisOf(content, keywords)
    ensures r.recommendations == Recommendations(SignalsOf(content, keywords), names)
    ensures r.recommendations != []
  {
    var readability := ReadabilityOf(content);
    var engagement := EngagementOf(content);
    var keywordAnalysis := AnalyzeKeywordDensity(content, keywords);
    var recommendations;
    recommendations, names := GenerateSeoRecommendations(content, keywords);
    RecommendationsShape(SignalsOf(content, keywords), names);
    var density := keywordAnalysis.density;
    var overall := readability.readingEase * 0.3 + engagement.score as real * 0.4
                   + (if 1.0 <= density <= 3.0 then 100.0 else 50.0) * 0.3;
    r := Report(overall, readability, engagement, keywordAnalysis, recommendations);
  }
}

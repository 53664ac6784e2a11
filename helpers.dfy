/**
 * The string and list utilities: input sanitising, slugs, the e-mail recogniser, and chunking
 * and flattening of lists. Character classes are ASCII (see README).
 */
module Helpers {
  import opened Wrappers
  import opened Seqs
  import opened Text
  import Time

  // ---------------------------------------------------------------------------------------
  // sanitize_input

  /** The characters `re.sub(r"[<>\"';]", "", …)` removes */
  const Harmful: set<char> := {'<', '>', '"', '\'', ';'}

  /** `re.sub(r"[<>\"';]", "", s).strip()` */
  function SanitizeText(s: string): (r: string)
  {
    Strip(FilterOut(s, Harmful))
  }

  /** The JSON-like values `sanitize_input` walks through: strings, dictionaries (kept as their
      items in order), lists, and anything else, which is passed through untouched */
  datatype Value =
    | Str(s: string)
    | Object(entries: seq<Entry>)
    | Array(items: seq<Value>)
    | Number(n: int)
    | Flag(b: bool)
    | Null

  datatype Entry = Entry(key: string, value: Value)

  /** `sanitize_input(input_data)` */
  function Sanitize(v: Value): (r: Value)
  {
    match v
    case Str(s) => Str(SanitizeText(s))
    case Object(es) => Object(SanitizeEntries(es))
    case Array(xs) => Array(SanitizeItems(xs))
    case _ => v
  }

  /** `{key: sanitize_input(value) for key, value in input_data.items()}` */
  function SanitizeEntries(es: seq<Entry>): (r: seq<Entry>)
  {
    if es == [] then [] else [Entry(es[0].key, Sanitize(es[0].value))] + SanitizeEntries(es[1..])
  }

  /** `[sanitize_input(item) for item in input_data]` */
  function SanitizeItems(xs: seq<Value>): (r: seq<Value>)
  {
    if xs == [] then [] else [Sanitize(xs[0])] + SanitizeItems(xs[1..])
  }

  /** A sanitised string holds none of the removed characters and has no whitespace at either
      end; it is a contiguous piece of the input with those characters taken out. */
  lemma SanitizeTextShape(s: string)
    ensures var r := SanitizeText(s);
      && (forall c | c in r :: c !in Harmful && c in s)
      && (r == [] || (!IsSpace(r[0]) && !IsSpace(r[|r| - 1])))
  {
    var t := FilterOut(s, Harmful);
    StripShape(t);
  }

  /** Sanitising a string twice gives the same as sanitising it once. */
  lemma SanitizeTextIdempotent(s: string)
    ensures SanitizeText(SanitizeText(s)) == SanitizeText(s)
  {
    var r := SanitizeText(s);
    SanitizeTextShape(s);
    FilterOutAbsent(r, Harmful);
    StripFixpoint(r);
  }

  /** Sanitising keeps the shape: a string stays a string, a dictionary keeps its keys in their
      order, a list keeps its length, and every other value comes back unchanged. */
  lemma {:induction false} SanitizeShape(v: Value)
    ensures v.Str? <==> Sanitize(v).Str?
    ensures v.Object? ==>
      && Sanitize(v).Object? && |Sanitize(v).entries| == |v.entries|
      && forall i | 0 <= i < |v.entries| ::
           Sanitize(v).entries[i] == Entry(v.entries[i].key, Sanitize(v.entries[i].value))
    ensures v.Array? ==>
      && Sanitize(v).Array? && |Sanitize(v).items| == |v.items|
      && forall i | 0 <= i < |v.items| :: Sanitize(v).items[i] == Sanitize(v.items[i])
    ensures !v.Str? && !v.Object? && !v.Array? ==> Sanitize(v) == v
  {
    match v
    case Object(es) => SanitizeEntriesShape(es);
    case Array(xs) => SanitizeItemsShape(xs);
    case _ =>
  }

  lemma {:induction false} SanitizeEntriesShape(es: seq<Entry>)
    ensures |SanitizeEntries(es)| == |es|
    ensures forall i | 0 <= i < |es| :: SanitizeEntries(es)[i] == Entry(es[i].key, Sanitize(es[i].value))
  {
    if es != [] {
      SanitizeEntriesShape(es[1..]);
    }
  }

  lemma {:induction false} SanitizeItemsShape(xs: seq<Value>)
    ensures |SanitizeItems(xs)| == |xs|
    ensures forall i | 0 <= i < |xs| :: SanitizeItems(xs)[i] == Sanitize(xs[i])
  {
    if xs != [] {
      SanitizeItemsShape(xs[1..]);
    }
  }

  /** Sanitising any value twice gives the same as sanitising it once. */
  lemma {:induction false} SanitizeIdempotent(v: Value)
    ensures Sanitize(Sanitize(v)) == Sanitize(v)
  {
    match v
    case Str(s) => SanitizeTextIdempotent(s);
    case Object(es) => SanitizeEntriesIdempotent(es);
    case Array(xs) => SanitizeItemsIdempotent(xs);
    case _ =>
  }

  lemma {:induction false} SanitizeEntriesIdempotent(es: seq<Entry>)
    ensures SanitizeEntries(SanitizeEntries(es)) == SanitizeEntries(es)
  {
    if es != [] {
      SanitizeIdempotent(es[0].value);
      SanitizeEntriesIdempotent(es[1..]);
      var r := SanitizeEntries(es);
      assert r[1..] == SanitizeEntries(es[1..]);
    }
  }

  lemma {:induction false} SanitizeItemsIdempotent(xs: seq<Value>)
    ensures SanitizeItems(SanitizeItems(xs)) == SanitizeItems(xs)
  {
    if xs != [] {
      SanitizeIdempotent(xs[0]);
      SanitizeItemsIdempotent(xs[1..]);
      var r := SanitizeItems(xs);
      assert r[1..] == SanitizeItems(xs[1..]);
    }
  }

  // ---------------------------------------------------------------------------------------
  // generate_slug

  /** The characters `[\w\s-]` keeps */
  predicate IsSlugSource(c: char)
  {
    IsWordChar(c) || IsSpace(c) || c == '-'
  }

  /** `re.sub(r"[^\w\s-]", "", s)` */
  function KeepSlugSource(s: string): (r: string)
  {
    if s == [] then [] else (if IsSlugSource(s[0]) then [s[0]] else []) + KeepSlugSource(s[1..])
  }

  /** `s` without its leading whitespace */
  function DropSpaces(s: string): (r: string)
    ensures |r| <= |s|
  {
    if s != [] && IsSpace(s[0]) then DropSpaces(s[1..]) else s
  }

  /** `re.sub(r"\s+", "-", s)`: each maximal run of whitespace becomes one hyphen */
  function DashRuns(s: string): (r: string)
    decreases |s|
  {
    if s == [] then []
    else if IsSpace(s[0]) then "-" + DashRuns(DropSpaces(s[1..]))
    else [s[0]] + DashRuns(s[1..])
  }

  /** `generate_slug(text)` */
  function Slug(text: string): (r: string)
  {
    LowerStr(DashRuns(KeepSlugSource(SanitizeText(text))))
  }

  /** The characters a slug may contain: `[a-z0-9_-]` */
  predicate IsSlugChar(c: char)
  {
    IsLower(c) || IsDigit(c) || c == '_' || c == '-'
  }

  lemma {:induction false} KeepSlugSourceChars(s: string)
    ensures forall c | c in KeepSlugSource(s) :: IsSlugSource(c) && c in s
  {
    if s != [] {
      KeepSlugSourceChars(s[1..]);
    }
  }

  lemma {:induction false} DropSpacesShape(s: string)
    ensures forall c | c in DropSpaces(s) :: c in s
    ensures DropSpaces(s) == [] || !IsSpace(DropSpaces(s)[0])
  {
    if s != [] && IsSpace(s[0]) {
      DropSpacesShape(s[1..]);
    }
  }

  /** Replacing the whitespace runs leaves no whitespace and brings in only hyphens. */
  lemma {:induction false} DashRunsChars(s: string)
    ensures forall c | c in DashRuns(s) :: !IsSpace(c) && (c in s || c == '-')
    decreases |s|
  {
    if s != [] {
      if IsSpace(s[0]) {
        DropSpacesShape(s[1..]);
        DashRunsChars(DropSpaces(s[1..]));
      } else {
        DashRunsChars(s[1..]);
      }
    }
  }

  /** A string with no whitespace has no run to replace. */
  lemma {:induction false} DashRunsNoSpace(s: string)
    requires forall c | c in s :: !IsSpace(c)
    ensures DashRuns(s) == s
  {
    if s != [] {
      assert s[0] in s;
      DashRunsNoSpace(s[1..]);
    }
  }

  /** A string of kept characters keeps them all. */
  lemma {:induction false} KeepSlugSourceAll(s: string)
    requires forall c | c in s :: IsSlugSource(c)
    ensures KeepSlugSource(s) == s
  {
    if s != [] {
      assert s[0] in s;
      KeepSlugSourceAll(s[1..]);
    }
  }

  /** A slug is lower case and made of `[a-z0-9_-]` only, so it holds no whitespace. */
  lemma SlugChars(text: string)
    ensures forall c | c in Slug(text) :: IsSlugChar(c) && !IsSpace(c)
  {
    var k := KeepSlugSource(SanitizeText(text));
    KeepSlugSourceChars(SanitizeText(text));
    DashRunsChars(k);
    var d := DashRuns(k);
    forall c | c in Slug(text) ensures IsSlugChar(c) && !IsSpace(c) {
      var i :| 0 <= i < |d| && Slug(text)[i] == c;
      assert d[i] in d;
    }
  }

  /** A string with none of the removed characters and no whitespace at either end is left as
      it is. */
  lemma SanitizeTextFixpoint(s: string)
    requires forall c | c in s :: c !in Harmful
    requires s == [] || (!IsSpace(s[0]) && !IsSpace(s[|s| - 1]))
    ensures SanitizeText(s) == s
  {
    FilterOutAbsent(s, Harmful);
    StripFixpoint(s);
  }

  /** A string of slug characters is its own slug. */
  lemma SlugFixpoint(s: string)
    requires forall c | c in s :: IsSlugChar(c)
    ensures Slug(s) == s
  {
    assert forall c | c in s :: c !in Harmful && IsSlugSource(c) && !IsSpace(c) by {
      forall c | c in s ensures c !in Harmful && IsSlugSource(c) && !IsSpace(c) {
        assert IsSlugChar(c);
      }
    }
    assert forall i | 0 <= i < |s| :: !IsUpper(s[i]) by {
      forall i | 0 <= i < |s| ensures !IsUpper(s[i]) {
        assert IsSlugChar(s[i]);
      }
    }
    if s != [] {
      assert s[0] in s && s[|s| - 1] in s;
    }
    SanitizeTextFixpoint(s);
    KeepSlugSourceAll(s);
    DashRunsNoSpace(s);
    LowerStrNoUpper(s);
  }

  /** A slug is its own slug. */
  lemma SlugIdempotent(text: string)
    ensures Slug(Slug(text)) == Slug(text)
  {
    SlugChars(text);
    SlugFixpoint(Slug(text));
  }

  // ---------------------------------------------------------------------------------------
  // is_valid_email

  /** `[a-zA-Z0-9_.+-]` */
  predicate IsLocalChar(c: char)
  {
    IsUpper(c) || IsLower(c) || IsDigit(c) || c == '_' || c == '.' || c == '+' || c == '-'
  }

  /** `[a-zA-Z0-9-]` */
  predicate IsDomainChar(c: char)
  {
    IsUpper(c) || IsLower(c) || IsDigit(c) || c == '-'
  }

  /** `[a-zA-Z0-9-.]` */
  predicate IsSuffixChar(c: char)
  {
    IsDomainChar(c) || c == '.'
  }

  predicate AllLocal(s: string)
  {
    forall i | 0 <= i < |s| :: IsLocalChar(s[i])
  }

  predicate AllDomain(s: string)
  {
    forall i | 0 <= i < |s| :: IsDomainChar(s[i])
  }

  predicate AllSuffix(s: string)
  {
    forall i | 0 <= i < |s| :: IsSuffixChar(s[i])
  }

  /** The position of the first `c` in `s` */
  function IndexOf(s: string, c: char): (r: Option<nat>)
    ensures r.Some? ==> r.value < |s| && s[r.value] == c && c !in s[..r.value]
    ensures r.None? ==> c !in s
  {
    if s == [] then None
    else if s[0] == c then Some(0)
    else match IndexOf(s[1..], c)
      case None => None
      case Some(i) => assert s[..i + 1] == [s[0]] + s[1..][..i]; Some(i + 1)
  }

  /** The first `c` is at `k` when `s[k]` is `c` and no earlier character is. */
  lemma {:induction false} IndexOfAt(s: string, c: char, k: nat)
    requires k < |s| && s[k] == c && c !in s[..k]
    ensures IndexOf(s, c) == Some(k)
  {
    if k > 0 {
      assert s[0] in s[..k];
      assert s[1..][..k - 1] == s[1..k];
      assert forall x | x in s[1..k] :: x in s[..k];
      IndexOfAt(s[1..], c, k - 1);
    }
  }

  /** What follows the `@`: a domain label, a dot, and a non-empty suffix. As the label holds no
      dot, the dot the pattern matches is the first one. */
  predicate DomainMatches(t: string)
  {
    match IndexOf(t, '.')
    case None => false
    case Some(d) => d > 0 && AllDomain(t[..d]) && d + 1 < |t| && AllSuffix(t[d + 1..])
  }

  /** The whole string is matched by `[a-zA-Z0-9_.+-]+@[a-zA-Z0-9-]+\.[a-zA-Z0-9-.]+`. As no class
      holds `@`, the `@` the pattern matches is the first one. */
  predicate FullMatch(s: string)
  {
    match IndexOf(s, '@')
    case None => false
    case Some(a) => a > 0 && AllLocal(s[..a]) && DomainMatches(s[a + 1..])
  }

  /** `is_valid_email(email)`: `re.match` anchors at the start, and `$` matches at the end or just
      before a final newline. */
  predicate IsValidEmail(email: string)
  {
    FullMatch(email) || (email != [] && email[|email| - 1] == '\n' && FullMatch(email[..|email| - 1]))
  }

  /** The pattern read directly: some split of the string into the three parts. */
  ghost predicate PatternMatches(s: string)
  {
    exists local: string, host: string, suffix: string ::
      && s == local + "@" + host + "." + suffix
      && local != [] && AllLocal(local)
      && host != [] && AllDomain(host)
      && suffix != [] && AllSuffix(suffix)
  }

  lemma FullMatchGivesPattern(s: string)
    requires FullMatch(s)
    ensures PatternMatches(s)
  {
    var a := IndexOf(s, '@').value;
    var t := s[a + 1..];
    var d := IndexOf(t, '.').value;
    assert s == s[..a] + "@" + t[..d] + "." + t[d + 1..];
  }

  lemma {:induction false} PatternGivesFullMatch(s: string, local: string, host: string, suffix: string)
    requires s == local + "@" + host + "." + suffix
    requires local != [] && AllLocal(local)
    requires host != [] && AllDomain(host)
    requires suffix != [] && AllSuffix(suffix)
    ensures FullMatch(s)
  {
    assert '@' !in local by {
      forall i | 0 <= i < |local| ensures local[i] != '@' {
        assert IsLocalChar(local[i]);
      }
    }
    assert s[..|local|] == local;
    IndexOfAt(s, '@', |local|);
    var t := s[|local| + 1..];
    assert t == host + "." + suffix;
    assert '.' !in host by {
      forall i | 0 <= i < |host| ensures host[i] != '.' {
        assert IsDomainChar(host[i]);
      }
    }
    assert t[..|host|] == host;
    IndexOfAt(t, '.', |host|);
    assert t[|host| + 1..] == suffix;
  }

  /** The first-`@`, first-dot reading agrees with the pattern on every string. */
  lemma FullMatchIsPattern(s: string)
    ensures FullMatch(s) <==> PatternMatches(s)
  {
    if FullMatch(s) {
      FullMatchGivesPattern(s);
    }
    if PatternMatches(s) {
      var local: string, host: string, suffix: string :|
        && s == local + "@" + host + "." + suffix
        && local != [] && AllLocal(local)
        && host != [] && AllDomain(host)
        && suffix != [] && AllSuffix(suffix);
      PatternGivesFullMatch(s, local, host, suffix);
    }
  }

  /** Exactly one position of `s` holds an `@`, and it is `a`. */
  predicate OnlyAtSignAt(s: string, a: nat)
  {
    a < |s| && s[a] == '@' && forall i | 0 <= i < |s| && i != a :: s[i] != '@'
  }

  /** A fully matched string has exactly one `@`, something before it, and after it a non-empty
      label followed by a dot. */
  lemma FullMatchShape(s: string)
    requires FullMatch(s)
    ensures exists a, d | 0 < a && a + 1 < d < |s| :: OnlyAtSignAt(s, a) && s[d] == '.'
  {
    var a := IndexOf(s, '@').value;
    var t := s[a + 1..];
    var d := IndexOf(t, '.').value;
    forall i | 0 <= i < |s| && i != a ensures s[i] != '@' {
      if i < a {
        assert s[i] in s[..a];
      } else {
        var j := i - a - 1;
        assert s[i] == t[j];
        if j < d {
          assert IsDomainChar(t[..d][j]);
        } else if j > d {
          assert IsSuffixChar(t[d + 1..][j - d - 1]);
        }
      }
    }
    assert OnlyAtSignAt(s, a) && s[a + 1 + d] == '.';
  }

  /** An accepted address has exactly one `@`, something before it, and after it a non-empty
      label followed by a dot; a final newline is the only extra character allowed. */
  lemma ValidEmailShape(email: string)
    requires IsValidEmail(email)
    ensures exists a, d | 0 < a && a + 1 < d < |email| :: OnlyAtSignAt(email, a) && email[d] == '.'
  {
    if !FullMatch(email) {
      var s := email[..|email| - 1];
      FullMatchShape(s);
      var a, d :| 0 < a && a + 1 < d < |s| && OnlyAtSignAt(s, a) && s[d] == '.';
      assert OnlyAtSignAt(email, a);
    } else {
      FullMatchShape(email);
    }
  }

  // ---------------------------------------------------------------------------------------
  // chunk_list and flatten_list

  /** `chunk_list(data, chunk_size)`: a `ValueError` for a size below 1, else the chunks */
  function ChunkList<T>(data: seq<T>, chunkSize: int): (r: Result<seq<seq<T>>, string>)
  {
    if chunkSize <= 0 then Failure("chunk_size must be greater than 0") else Success(Chunks(data, chunkSize))
  }

  /** `[data[i:i + n] for i in range(0, len(data), n)]`, slice by slice from the front */
  function Chunks<T>(data: seq<T>, n: nat): (r: seq<seq<T>>)
    requires n > 0
    decreases |data|
  {
    if data == [] then []
    else if |data| <= n then [data]
    else [data[..n]] + Chunks(data[n..], n)
  }

  /** `flatten_list(nested_list)`: the lists one after another */
  function Flatten<T>(xs: seq<seq<T>>): (r: seq<T>)
  {
    if xs == [] then [] else xs[0] + Flatten(xs[1..])
  }

  function TotalLength<T>(xs: seq<seq<T>>): nat
  {
    if xs == [] then 0 else |xs[0]| + TotalLength(xs[1..])
  }

  /** The length of a flattened list is the sum of the lengths. */
  lemma {:induction false} FlattenLength<T>(xs: seq<seq<T>>)
    ensures |Flatten(xs)| == TotalLength(xs)
  {
    if xs != [] {
      FlattenLength(xs[1..]);
    }
  }

  /** Flattening two lists one after the other flattens each. */
  lemma {:induction false} FlattenAppend<T>(xs: seq<seq<T>>, ys: seq<seq<T>>)
    ensures Flatten(xs + ys) == Flatten(xs) + Flatten(ys)
  {
    if xs == [] {
      assert xs + ys == ys;
    } else {
      assert (xs + ys)[1..] == xs[1..] + ys;
      FlattenAppend(xs[1..], ys);
    }
  }

  /** The chunks of a valid size: every one holds `n` elements except the last, which holds
      between 1 and `n`, so there are `ceil(len / n)` of them. */
  lemma {:induction false} ChunksShape<T>(data: seq<T>, n: nat)
    requires n > 0
    ensures var cs := Chunks(data, n);
      && (forall k | 0 <= k < |cs| - 1 :: |cs[k]| == n)
      && (cs != [] ==> 0 < |cs[|cs| - 1]| <= n)
      && (cs == [] <==> data == [])
      && (|cs| - 1) * n < |data| <= |cs| * n
    decreases |data|
  {
    if |data| > n {
      var rest := Chunks(data[n..], n);
      ChunksShape(data[n..], n);
      assert |rest| * n == (|rest| - 1) * n + n;
      assert (|rest| + 1) * n == |rest| * n + n;
    }
  }

  /** `flatten_list(chunk_list(data, n)) == data` for every valid size. */
  lemma {:induction false} FlattenChunks<T>(data: seq<T>, n: nat)
    requires n > 0
    ensures Flatten(Chunks(data, n)) == data
    decreases |data|
  {
    if |data| > n {
      FlattenChunks(data[n..], n);
      assert data == data[..n] + data[n..];
    }
  }

  /** For a size of at least 1, `chunk_list` succeeds and its chunks flatten back to the list;
      there are `ceil(len / n)` of them. */
  lemma ChunkListRoundTrip<T>(data: seq<T>, n: int)
    requires n > 0
    ensures ChunkList(data, n).Success?
    ensures Flatten(ChunkList(data, n).value) == data
    ensures |ChunkList(data, n).value| == (|data| + n - 1) / n
  {
    FlattenChunks(data, n);
    ChunksShape(data, n);
    var c := |Chunks(data, n)|;
    CeilIs(|data|, n, c);
  }

  /** `c` is `ceil(len / n)` when `(c - 1) * n < len <= c * n`. */
  lemma CeilIs(len: nat, n: nat, c: nat)
    requires n > 0
    requires (c - 1) * n < len <= c * n
    ensures (len + n - 1) / n == c
  {
    Time.MulSub(c, 1, n);
    Time.UniqueDivision(len + n - 1, n, c, len + n - 1 - c * n);
  }

  /** A size below 1 is refused. */
  lemma ChunkListRefuses<T>(data: seq<T>, n: int)
    ensures ChunkList(data, n).Failure? <==> n <= 0
  {
  }
}

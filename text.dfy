/**
 * The string primitives the modelled code takes from Python's `str` and `re`, restricted to
 * ASCII: `isspace` (used by `split()` and `strip()`), `\d`, `\w`, `lower()`, `split()`,
 * `strip()`, `sub in s`, `s.count(sub)`, `sep.join(xs)`, `str(n)` and string ordering.
 */
module Text {

  /** ASCII characters for which `str.isspace()` holds: space, \t \n \v \f \r and \x1c-\x1f */
  predicate IsSpace(c: char)
  {
    c == ' ' || ('\t' <= c <= '\r') || ('\U{1C}' <= c <= '\U{1F}')
  }

  /** `\d` over ASCII */
  predicate IsDigit(c: char)
  {
    '0' <= c <= '9'
  }

  predicate IsUpper(c: char)
  {
    'A' <= c <= 'Z'
  }

  predicate IsLower(c: char)
  {
    'a' <= c <= 'z'
  }

  /** `\w` over ASCII: letters, digits and underscore */
  predicate IsWordChar(c: char)
  {
    IsUpper(c) || IsLower(c) || IsDigit(c) || c == '_'
  }

  /** `str.lower()` on one ASCII character */
  function Lower(c: char): (r: char)
    ensures !IsUpper(r)
    ensures IsUpper(c) ==> IsLower(r)
    ensures !IsUpper(c) ==> r == c
  {
    if IsUpper(c) then (c as int + 32) as char else c
  }

  function LowerStr(s: string): (r: string)
    ensures |r| == |s|
    ensures forall i | 0 <= i < |s| :: r[i] == Lower(s[i])
  {
    seq(|s|, i requires 0 <= i < |s| => Lower(s[i]))
  }

  lemma LowerStrIdempotent(s: string)
    ensures LowerStr(LowerStr(s)) == LowerStr(s)
  {
  }

  /** Lowercasing commutes with slicing. */
  lemma LowerStrSlice(s: string, i: nat, j: nat)
    requires i <= j <= |s|
    ensures LowerStr(s)[i..j] == LowerStr(s[i..j])
  {
  }

  /** A string without capitals is already lower case. */
  lemma LowerStrNoUpper(s: string)
    requires forall i | 0 <= i < |s| :: !IsUpper(s[i])
    ensures LowerStr(s) == s
  {
  }

  /** Lowercasing keeps every whitespace character where it was. */
  lemma LowerKeepsSpace(c: char)
    ensures IsSpace(Lower(c)) <==> IsSpace(c)
  {
  }

  // ---------------------------------------------------------------------------------------
  // str.split() with no argument: maximal runs of non-whitespace characters

  /** The length of the run of non-whitespace characters at the start of `s` */
  function TokenLength(s: string): (n: nat)
    ensures n <= |s|
    ensures forall i | 0 <= i < n :: !IsSpace(s[i])
    ensures n < |s| ==> IsSpace(s[n])
  {
    if s == [] || IsSpace(s[0]) then 0 else 1 + TokenLength(s[1..])
  }

  /** `s.split()` */
  function Words(s: string): (ws: seq<string>)
    decreases |s|
  {
    if s == [] then []
    else if IsSpace(s[0]) then Words(s[1..])
    else
      var n := TokenLength(s);
      [s[..n]] + Words(s[n..])
  }

  /** Every word is a non-empty run without whitespace. */
  lemma {:induction false} WordsAreTokens(s: string)
    ensures forall w | w in Words(s) :: w != [] && forall i | 0 <= i < |w| :: !IsSpace(w[i])
    decreases |s|
  {
    if s == [] {
    } else if IsSpace(s[0]) {
      WordsAreTokens(s[1..]);
    } else {
      WordsAreTokens(s[TokenLength(s)..]);
    }
  }

  /** `s` with every whitespace character removed */
  function RemoveSpaces(s: string): (r: string)
  {
    if s == [] then [] else (if IsSpace(s[0]) then [] else [s[0]]) + RemoveSpaces(s[1..])
  }

  lemma {:induction false} RemoveSpacesToken(s: string, n: nat)
    requires n <= |s|
    requires forall i | 0 <= i < n :: !IsSpace(s[i])
    ensures RemoveSpaces(s) == s[..n] + RemoveSpaces(s[n..])
  {
    if n > 0 {
      RemoveSpacesToken(s[1..], n - 1);
      assert s[1..][..n - 1] == s[1..n];
      assert s[1..][n - 1..] == s[n..];
      assert s[..n] == [s[0]] + s[1..n];
    }
  }

  /** The words, put back together, are exactly the non-whitespace characters, in order. */
  lemma {:induction false} WordsJoinToNonSpace(s: string)
    ensures Join("", Words(s)) == RemoveSpaces(s)
    decreases |s|
  {
    if s == [] {
    } else if IsSpace(s[0]) {
      WordsJoinToNonSpace(s[1..]);
    } else {
      var n := TokenLength(s);
      WordsJoinToNonSpace(s[n..]);
      RemoveSpacesToken(s, n);
      JoinEmptyCons(s[..n], Words(s[n..]));
    }
  }

  /** Lowercasing changes the words but not how many there are. */
  lemma {:induction false} WordsLowerCount(s: string)
    ensures |Words(LowerStr(s))| == |Words(s)|
    decreases |s|
  {
    var l := LowerStr(s);
    if s == [] {
    } else if IsSpace(s[0]) {
      LowerKeepsSpace(s[0]);
      assert l[1..] == LowerStr(s[1..]);
      WordsLowerCount(s[1..]);
    } else {
      LowerKeepsSpace(s[0]);
      var n := TokenLength(s);
      TokenLengthLower(s);
      assert l[n..] == LowerStr(s[n..]);
      WordsLowerCount(s[n..]);
    }
  }

  lemma {:induction false} TokenLengthLower(s: string)
    ensures TokenLength(LowerStr(s)) == TokenLength(s)
  {
    if s != [] {
      LowerKeepsSpace(s[0]);
      assert LowerStr(s)[1..] == LowerStr(s[1..]);
      TokenLengthLower(s[1..]);
    }
  }

  // ---------------------------------------------------------------------------------------
  // str.strip() with no argument

  /** How many whitespace characters `s` starts with */
  function LeadingSpaces(s: string): (n: nat)
    ensures n <= |s|
    ensures forall i | 0 <= i < n :: IsSpace(s[i])
    ensures n < |s| ==> !IsSpace(s[n])
  {
    if s != [] && IsSpace(s[0]) then 1 + LeadingSpaces(s[1..]) else 0
  }

  /** How many whitespace characters `s` ends with */
  function TrailingSpaces(s: string): (n: nat)
    ensures n <= |s|
    ensures forall i | |s| - n <= i < |s| :: IsSpace(s[i])
    ensures n < |s| ==> !IsSpace(s[|s| - 1 - n])
  {
    if s != [] && IsSpace(s[|s| - 1]) then 1 + TrailingSpaces(s[..|s| - 1]) else 0
  }

  /** `s.strip()` */
  function Strip(s: string): (r: string)
  {
    var t := s[LeadingSpaces(s)..];
    t[..|t| - TrailingSpaces(t)]
  }

  /** What strip promises: a contiguous piece of `s` with no whitespace at either end, and
      only whitespace cut away. */
  lemma StripShape(s: string)
    ensures Strip(s) == [] || (!IsSpace(Strip(s)[0]) && !IsSpace(Strip(s)[|Strip(s)| - 1]))
    ensures exists i, j | 0 <= i <= j <= |s| ::
              && Strip(s) == s[i..j]
              && (forall k | 0 <= k < i :: IsSpace(s[k]))
              && (forall k | j <= k < |s| :: IsSpace(s[k]))
  {
    var i := LeadingSpaces(s);
    var t := s[i..];
    var j := i + |t| - TrailingSpaces(t);
    assert Strip(s) == s[i..j];
  }

  /** A string with no whitespace at either end is left alone by strip. */
  lemma StripFixpoint(s: string)
    requires s == [] || (!IsSpace(s[0]) && !IsSpace(s[|s| - 1]))
    ensures Strip(s) == s
  {
    assert LeadingSpaces(s) == 0;
    assert TrailingSpaces(s) == 0;
  }

  lemma StripIdempotent(s: string)
    ensures Strip(Strip(s)) == Strip(s)
  {
    StripShape(s);
    StripFixpoint(Strip(s));
  }

  // ---------------------------------------------------------------------------------------
  // `sub in s` and `s.count(sub)`

  /** `sub in s`: `sub` occurs in `s` as a contiguous piece (the empty string always does) */
  predicate Contains(s: string, sub: string)
    decreases |s|
  {
    sub <= s || (s != [] && Contains(s[1..], sub))
  }

  /**
   * `s.count(sub)`: occurrences of `sub` found scanning left to right without overlap.
   * Python counts the empty string once before every character and once at the end.
   */
  function Count(s: string, sub: string): (n: nat)
    decreases |s|
  {
    if sub == [] then |s| + 1
    else if |s| < |sub| then 0
    else if sub <= s then 1 + Count(s[|sub|..], sub)
    else Count(s[1..], sub)
  }

  lemma {:induction false} ContainsTooShort(s: string, sub: string)
    requires |s| < |sub|
    ensures !Contains(s, sub)
    decreases |s|
  {
    if s != [] {
      ContainsTooShort(s[1..], sub);
    }
  }

  /** Some occurrence is counted exactly when the piece occurs at all. */
  lemma {:induction false} CountPositiveIffContains(s: string, sub: string)
    ensures Count(s, sub) > 0 <==> Contains(s, sub)
    decreases |s|
  {
    if sub == [] {
    } else if |s| < |sub| {
      ContainsTooShort(s, sub);
    } else if sub <= s {
    } else {
      CountPositiveIffContains(s[1..], sub);
    }
  }

  /** A one-character piece occurs iff the character is in the string. */
  lemma {:induction false} ContainsChar(s: string, c: char)
    ensures Contains(s, [c]) <==> c in s
    decreases |s|
  {
    if s != [] {
      ContainsChar(s[1..], c);
      assert s == [s[0]] + s[1..];
    }
  }

  /** A one-character piece is counted once per occurrence of that character. */
  lemma {:induction false} CountChar(s: string, c: char)
    ensures Count(s, [c]) == multiset(s)[c]
    decreases |s|
  {
    if s != [] {
      CountChar(s[1..], c);
      assert s == [s[0]] + s[1..];
    }
  }

  // ---------------------------------------------------------------------------------------
  // sep.join(xs), str(n), string ordering

  /** `sep.join(xs)` */
  function Join(sep: string, xs: seq<string>): (r: string)
  {
    if xs == [] then ""
    else if |xs| == 1 then xs[0]
    else xs[0] + sep + Join(sep, xs[1..])
  }

  lemma JoinEmptyCons(x: string, xs: seq<string>)
    ensures Join("", [x] + xs) == x + Join("", xs)
  {
    if xs == [] {
    } else {
      assert ([x] + xs)[1..] == xs;
    }
  }

  function DigitChar(d: nat): (c: char)
    requires d < 10
    ensures IsDigit(c)
  {
    "0123456789"[d]
  }

  /** `str(n)` for a natural number: its decimal digits, most significant first */
  function NatToString(n: nat): (r: string)
    ensures r != []
    ensures forall i | 0 <= i < |r| :: IsDigit(r[i])
    decreases n
  {
    if n < 10 then [DigitChar(n)] else NatToString(n / 10) + [DigitChar(n % 10)]
  }

  /** `str(i)` for an integer */
  function IntToString(i: int): string
  {
    if i < 0 then "-" + NatToString(-i) else NatToString(i)
  }

  /** Python's `<=` on strings: lexicographic by code point, a proper prefix first */
  predicate StrLe(a: string, b: string)
    decreases |a|
  {
    a == [] || (b != [] && (a[0] < b[0] || (a[0] == b[0] && StrLe(a[1..], b[1..]))))
  }

  lemma {:induction false} StrLeTotal(a: string, b: string)
    ensures StrLe(a, b) || StrLe(b, a)
    decreases |a|
  {
    if a != [] && b != [] && a[0] == b[0] {
      StrLeTotal(a[1..], b[1..]);
    }
  }

  lemma {:induction false} StrLeAntisymmetric(a: string, b: string)
    requires StrLe(a, b) && StrLe(b, a)
    ensures a == b
    decreases |a|
  {
    if a != [] && b != [] {
      StrLeAntisymmetric(a[1..], b[1..]);
      assert a == [a[0]] + a[1..] && b == [b[0]] + b[1..];
    }
  }

  lemma {:induction false} StrLeTransitive(a: string, b: string, c: string)
    requires StrLe(a, b) && StrLe(b, c)
    ensures StrLe(a, c)
    decreases |a|
  {
    if a != [] && b != [] && c != [] && a[0] == b[0] && b[0] == c[0] {
      StrLeTransitive(a[1..], b[1..], c[1..]);
    }
  }
}

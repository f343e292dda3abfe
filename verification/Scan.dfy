/** `ReplaceAllString` for a regular expression of the shape `\bR\b`, over any language `R` of
    brace-free tokens: the leftmost scan, and which matches its output can still contain. */
module Scan {
  import opened Text

  type Lang = string -> bool

  predicate IsWord(c: char) { IsAlnum(c) || c == '_' }

  predicate WordBefore(s: string, i: nat) requires i <= |s| { i > 0 && IsWord(s[i - 1]) }

  predicate WordAt(s: string, i: nat) requires i <= |s| { i < |s| && IsWord(s[i]) }

  /** `\b` between positions `i - 1` and `i`. */
  predicate Boundary(s: string, i: nat) requires i <= |s| { WordBefore(s, i) != WordAt(s, i) }

  predicate MatchAt(lang: Lang, s: string, i: nat, j: nat) {
    i < j <= |s| && Boundary(s, i) && Boundary(s, j) && lang(s[i..j])
  }

  ghost predicate NoMatch(lang: Lang, s: string) {
    forall i: nat, j: nat :: !MatchAt(lang, s, i, j)
  }

  predicate Plain(c: char) { c != '{' && c != '}' && !IsSpace(c) }

  /** Words of the language are not empty, hold no brace and no space, and end in a word character. */
  ghost predicate TokenLang(lang: Lang) {
    forall w :: lang(w) ==> w != "" && IsWord(w[|w| - 1]) && forall i | 0 <= i < |w| :: Plain(w[i])
  }

  /** A replacement word without its braces, no part of which is in the language. */
  ghost predicate Silent(lang: Lang, inner: string) {
    forall a, b | 0 <= a < b <= |inner| :: !lang(inner[a..b])
  }

  function Braced(inner: string): string { "{" + inner + "}" }

  /** The end of the longest match that starts at `i` and ends by `j`, or `i` when there is none. */
  function MatchEnd(lang: Lang, s: string, i: nat, j: nat): (e: nat)
    requires i <= j <= |s|
    ensures i <= e <= j
    ensures e > i ==> MatchAt(lang, s, i, e)
    ensures forall k: nat :: e < k <= j ==> !MatchAt(lang, s, i, k)
  {
    if j == i then i
    else if MatchAt(lang, s, i, j) then j
    else MatchEnd(lang, s, i, j - 1)
  }

  /** `ReplaceAllString` from position `i` on: leftmost, non-overlapping. */
  function ReplaceFrom(lang: Lang, inner: string, s: string, i: nat): string
    requires i <= |s|
    decreases |s| - i
  {
    if i == |s| then ""
    else
      var e := MatchEnd(lang, s, i, |s|);
      if e > i then Braced(inner) + ReplaceFrom(lang, inner, s, e)
      else [s[i]] + ReplaceFrom(lang, inner, s, i + 1)
  }

  function ReplaceAll(lang: Lang, inner: string, s: string): string { ReplaceFrom(lang, inner, s, 0) }

  /** `\b` at position `k` of `t` when the character before `t` is a word character iff `left`. */
  predicate BoundaryAfter(t: string, k: nat, left: bool) requires k <= |t| {
    (if k == 0 then left else WordBefore(t, k)) != WordAt(t, k)
  }

  /** What precedes position `i` in the output: the same kind of character as in `s`, or the brace
      that closes a replacement, after which no word character follows. */
  predicate LeftContext(s: string, i: nat, left: bool) requires i <= |s| {
    left == WordBefore(s, i) || (!left && !WordAt(s, i))
  }

  predicate MatchAfter(lang: Lang, t: string, left: bool, a: nat, b: nat) {
    a < b <= |t| && BoundaryAfter(t, a, left) && BoundaryAfter(t, b, left) && lang(t[a..b])
  }

  lemma {:induction false} MatchWithoutPrefix(lang: Lang, pre: string, t: string, left: bool, a: nat, b: nat)
    requires |pre| >= 1 && a >= |pre| && MatchAfter(lang, pre + t, left, a, b)
    ensures MatchAfter(lang, t, IsWord(pre[|pre| - 1]), a - |pre|, b - |pre|)
  {
    var n := |pre|;
    assert (pre + t)[a..b] == t[a - n..b - n];
    assert forall k | 0 <= k < |t| :: (pre + t)[n + k] == t[k];
    assert a > n ==> (pre + t)[a - 1] == t[a - 1 - n];
    assert b > n ==> (pre + t)[b - 1] == t[b - 1 - n];
  }

  lemma TokensArePlain(lang: Lang, t: string, a: nat, b: nat)
    requires TokenLang(lang) && a < b <= |t| && lang(t[a..b])
    ensures forall k | a <= k < b :: Plain(t[k])
  {
    assert forall k | a <= k < b :: t[k] == t[a..b][k - a];
  }

  /** No match of `q` starts inside a replacement word. */
  lemma NoMatchInReplacement(q: Lang, inner: string, rest: string, left: bool, a: nat, b: nat)
    requires TokenLang(q) && Silent(q, inner)
    requires a < |Braced(inner)|
    ensures !MatchAfter(q, Braced(inner) + rest, left, a, b)
  {
    var t, n := Braced(inner) + rest, |Braced(inner)|;
    assert t[0] == '{' && t[n - 1] == '}';
    assert 0 < a < b <= n - 1 ==> t[a..b] == inner[a - 1..b - 1];
    if MatchAfter(q, t, left, a, b) {
      TokensArePlain(q, t, a, b);
    }
  }

  /** One step of the scan. */
  lemma ScanStep(lang: Lang, inner: string, s: string, i: nat)
    requires i < |s|
    ensures var e, t := MatchEnd(lang, s, i, |s|), ReplaceFrom(lang, inner, s, i);
            t == if e > i then Braced(inner) + ReplaceFrom(lang, inner, s, e) else [s[i]] + ReplaceFrom(lang,
                  inner, s, i + 1)
  {
  }

  lemma ScanEnd(lang: Lang, inner: string, s: string)
    ensures ReplaceFrom(lang, inner, s, |s|) == ""
  {
  }

  /** A stretch of output without an opening brace was copied from the input. */
  lemma {:induction false} CopiedStretch(lang: Lang, inner: string, s: string, i: nat, n: nat)
    requires i <= |s| && n <= |ReplaceFrom(lang, inner, s, i)|
    requires forall k | 0 <= k < n :: ReplaceFrom(lang, inner, s, i)[k] != '{'
    ensures i + n <= |s|
    ensures ReplaceFrom(lang, inner, s, i) == s[i..i + n] + ReplaceFrom(lang, inner, s, i + n)
    ensures n > 0 ==> MatchEnd(lang, s, i, |s|) == i
    decreases |s| - i
  {
    hide ReplaceFrom, MatchEnd, MatchAt;
    var t := ReplaceFrom(lang, inner, s, i);
    if i == |s| {
      ScanEnd(lang, inner, s);
    } else if n > 0 {
      assert t[0] != '{';
      ScanStep(lang, inner, s, i);
      var rest := ReplaceFrom(lang, inner, s, i + 1);
      assert t == [s[i]] + rest;
      forall k | 0 <= k < n - 1 ensures rest[k] != '{' { assert t[k + 1] != '{'; }
      CopiedStretch(lang, inner, s, i + 1, n - 1);
      CopiedOneMore(s, i, n, ReplaceFrom(lang, inner, s, i + n), rest);
    } else {
      assert s[i..i] == "";
    }
  }

  lemma CopiedOneMore(s: string, i: nat, n: nat, end: string, rest: string)
    requires n > 0 && i + n <= |s| && rest == s[i + 1..i + n] + end
    ensures [s[i]] + rest == s[i..i + n] + end
  {
    assert s[i..i + n] == [s[i]] + s[i + 1..i + n];
  }

  /** Where a copied stretch stops, the input has a boundary if the output has one. */
  lemma EndBoundaryKept(lang: Lang, inner: string, s: string, i: nat, n: nat)
    requires 0 < n && i + n <= |s|
    requires Boundary(s[i..i + n] + ReplaceFrom(lang, inner, s, i + n), n)
    ensures Boundary(s, i + n)
  {
    var rest := ReplaceFrom(lang, inner, s, i + n);
    var t := s[i..i + n] + rest;
    assert t[n - 1] == s[i + n - 1];
    if i + n < |s| && MatchEnd(lang, s, i + n, |s|) == i + n {
      assert t[n] == rest[0] == s[i + n];
    }
  }

  lemma MatchNeedsInput(lang: Lang, inner: string, q: Lang, s: string, i: nat, left: bool, a: nat, b: nat)
    requires i <= |s| && MatchAfter(q, ReplaceFrom(lang, inner, s, i), left, a, b)
    ensures i < |s| && a < b
  {
    ScanEnd(lang, inner, s);
  }

  lemma HitEndsInWord(lang: Lang, s: string, i: nat, e: nat)
    requires TokenLang(lang) && MatchAt(lang, s, i, e)
    ensures LeftContext(s, e, false)
  {
    var w := s[i..e];
    assert lang(w) && w[|w| - 1] == s[e - 1];
  }

  lemma MatchAfterHit(lang: Lang, inner: string, q: Lang, s: string, i: nat, left: bool, a: nat, b: nat)
    requires TokenLang(lang) && TokenLang(q) && Silent(q, inner)
    requires i < |s| && MatchEnd(lang, s, i, |s|) > i
    requires MatchAfter(q, ReplaceFrom(lang, inner, s, i), left, a, b)
    ensures a >= |Braced(inner)|
    ensures LeftContext(s, MatchEnd(lang, s, i, |s|), false)
    ensures MatchAfter(q, ReplaceFrom(lang, inner, s, MatchEnd(lang, s, i, |s|)), false,
                       a - |Braced(inner)|, b - |Braced(inner)|)
  {
    hide ReplaceFrom, MatchEnd, MatchAt, MatchAfter, LeftContext, TokenLang, Silent;
    var e := MatchEnd(lang, s, i, |s|);
    var rest := ReplaceFrom(lang, inner, s, e);
    HitEndsInWord(lang, s, i, e);
    ScanStep(lang, inner, s, i);
    if a < |Braced(inner)| {
      NoMatchInReplacement(q, inner, rest, left, a, b);
    }
    MatchWithoutPrefix(q, Braced(inner), rest, left, a, b);
  }

  lemma MatchAfterKeep(lang: Lang, inner: string, q: Lang, s: string, i: nat, left: bool, a: nat, b: nat)
    requires i < |s| && MatchEnd(lang, s, i, |s|) == i && a >= 1
    requires MatchAfter(q, ReplaceFrom(lang, inner, s, i), left, a, b)
    ensures LeftContext(s, i + 1, IsWord(s[i]))
    ensures MatchAfter(q, ReplaceFrom(lang, inner, s, i + 1), IsWord(s[i]), a - 1, b - 1)
  {
    ScanStep(lang, inner, s, i);
    MatchWithoutPrefix(q, [s[i]], ReplaceFrom(lang, inner, s, i + 1), left, a, b);
  }

  /** Every match of any language `q` in the output of a scan for `lang` is a match of `q` in the
      scan's input, at a position where `lang` itself does not match. */
  lemma {:induction false} MatchComesFromInput(lang: Lang, inner: string, q: Lang, s: string, i: nat,
                                               left: bool, a: nat, b: nat)
      returns (i': nat, j': nat)
    requires TokenLang(lang) && TokenLang(q) && Silent(q, inner)
    requires i <= |s| && LeftContext(s, i, left)
    requires MatchAfter(q, ReplaceFrom(lang, inner, s, i), left, a, b)
    ensures MatchAt(q, s, i', j') && MatchEnd(lang, s, i', |s|) == i'
    decreases |s| - i
  {
    hide ReplaceFrom, MatchEnd, MatchAt, MatchAfter, LeftContext, TokenLang, Silent, Braced, IsWord;
    MatchNeedsInput(lang, inner, q, s, i, left, a, b);
    var e, n := MatchEnd(lang, s, i, |s|), |Braced(inner)|;
    if e > i {
      MatchAfterHit(lang, inner, q, s, i, left, a, b);
      i', j' := MatchComesFromInput(lang, inner, q, s, e, false, a - n, b - n);
    } else if a >= 1 {
      MatchAfterKeep(lang, inner, q, s, i, left, a, b);
      i', j' := MatchComesFromInput(lang, inner, q, s, i + 1, IsWord(s[i]), a - 1, b - 1);
    } else {
      i', j' := MatchAtCopiedStart(lang, inner, q, s, i, left, b);
    }
  }

  lemma MatchAtCopiedStart(lang: Lang, inner: string, q: Lang, s: string, i: nat, left: bool, b: nat)
      returns (i': nat, j': nat)
    requires TokenLang(q)
    requires i <= |s| && LeftContext(s, i, left)
    requires MatchAfter(q, ReplaceFrom(lang, inner, s, i), left, 0, b)
    ensures MatchAt(q, s, i', j') && MatchEnd(lang, s, i', |s|) == i'
  {
    var t := ReplaceFrom(lang, inner, s, i);
    var w := t[0..b];
    assert forall k | 0 <= k < b :: t[k] == w[k] && Plain(w[k]);
    CopiedStretch(lang, inner, s, i, b);
    assert w == s[i..i + b];
    assert t[0] == s[i];
    EndBoundaryKept(lang, inner, s, i, b);
    i', j' := i, i + b;
  }

  /** A scan removes every match of its own language and creates no match of another. */
  lemma ScanRemovesMatches(lang: Lang, inner: string, q: Lang, s: string)
    requires TokenLang(lang) && TokenLang(q) && Silent(q, inner)
    requires q == lang || NoMatch(q, s)
    ensures NoMatch(q, ReplaceAll(lang, inner, s))
  {
    var t := ReplaceAll(lang, inner, s);
    forall a: nat, b: nat
      ensures !MatchAt(q, t, a, b)
    {
      if MatchAt(q, t, a, b) {
        assert MatchAfter(q, t, false, a, b);
        var i, j := MatchComesFromInput(lang, inner, q, s, 0, false, a, b);
      }
    }
  }

  lemma {:induction false} ScanWithoutMatch(lang: Lang, inner: string, s: string, i: nat)
    requires NoMatch(lang, s) && i <= |s|
    ensures ReplaceFrom(lang, inner, s, i) == s[i..]
    decreases |s| - i
  {
    if i < |s| {
      ScanWithoutMatch(lang, inner, s, i + 1);
    }
  }

  /** A scan leaves a text alone exactly when nothing matches. */
  lemma ScanIsIdentityIff(lang: Lang, inner: string, s: string)
    requires TokenLang(lang) && Silent(lang, inner)
    ensures ReplaceAll(lang, inner, s) == s <==> NoMatch(lang, s)
  {
    if NoMatch(lang, s) {
      ScanWithoutMatch(lang, inner, s, 0);
    } else {
      ScanRemovesMatches(lang, inner, lang, s);
    }
  }

  // ------------------------------------------------------------ scans and separators

  /** A character that no token holds and that is no word character: a space or a brace. */
  predicate Separator(c: char) { !Plain(c) && !IsWord(c) }

  lemma MatchBeforeSeparator(lang: Lang, a: string, sep: char, b: string, i: nat, j: nat)
    requires Separator(sep) && j <= |a|
    ensures MatchAt(lang, a + [sep] + b, i, j) == MatchAt(lang, a, i, j)
  {
    var s := a + [sep] + b;
    assert forall k | 0 <= k < |a| :: s[k] == a[k];
    if i < j {
      assert s[i..j] == a[i..j];
    }
  }

  lemma BoundaryAfterSeparator(a: string, sep: char, b: string, i: nat)
    requires Separator(sep) && i <= |b|
    ensures Boundary(a + [sep] + b, |a| + 1 + i) == Boundary(b, i)
  {
    var s, n := a + [sep] + b, |a| + 1;
    assert s[n - 1] == sep;
    assert i > 0 ==> s[n + i - 1] == b[i - 1];
    assert i < |b| ==> s[n + i] == b[i];
  }

  lemma MatchAfterSeparator(lang: Lang, a: string, sep: char, b: string, i: nat, j: nat)
    requires Separator(sep)
    ensures MatchAt(lang, a + [sep] + b, |a| + 1 + i, |a| + 1 + j) == MatchAt(lang, b, i, j)
  {
    hide Boundary;
    var s, n := a + [sep] + b, |a| + 1;
    if i < j <= |b| {
      BoundaryAfterSeparator(a, sep, b, i);
      BoundaryAfterSeparator(a, sep, b, j);
      assert s[n + i..n + j] == b[i..j];
    }
  }

  lemma NoMatchAcrossSeparator(lang: Lang, a: string, sep: char, b: string, i: nat, j: nat)
    requires Separator(sep) && TokenLang(lang) && i <= |a| < j
    ensures !MatchAt(lang, a + [sep] + b, i, j)
  {
    var s := a + [sep] + b;
    assert s[|a|] == sep;
    if MatchAt(lang, s, i, j) {
      TokensArePlain(lang, s, i, j);
    }
  }

  lemma MatchEndBeforeSeparator(lang: Lang, a: string, sep: char, b: string, i: nat)
    requires Separator(sep) && TokenLang(lang) && i <= |a|
    ensures MatchEnd(lang, a + [sep] + b, i, |a + [sep] + b|) == MatchEnd(lang, a, i, |a|)
  {
    var s := a + [sep] + b;
    var e, f := MatchEnd(lang, s, i, |s|), MatchEnd(lang, a, i, |a|);
    if e > i {
      if e > |a| { NoMatchAcrossSeparator(lang, a, sep, b, i, e); }
      MatchBeforeSeparator(lang, a, sep, b, i, e);
    }
    if f > i { MatchBeforeSeparator(lang, a, sep, b, i, f); }
  }

  lemma MatchEndAfterSeparator(lang: Lang, a: string, sep: char, b: string, i: nat)
    requires Separator(sep) && i <= |b|
    ensures MatchEnd(lang, a + [sep] + b, |a| + 1 + i, |a + [sep] + b|) == |a| + 1 + MatchEnd(lang, b, i, |b|)
  {
    var s, n := a + [sep] + b, |a| + 1;
    var e, f := MatchEnd(lang, s, n + i, |s|), MatchEnd(lang, b, i, |b|);
    MatchAfterSeparator(lang, a, sep, b, i, e - n);
    MatchAfterSeparator(lang, a, sep, b, i, f);
  }

  lemma {:induction false} ScanAfterSeparator(lang: Lang, inner: string, a: string, sep: char, b: string, i: nat)
    requires Separator(sep) && TokenLang(lang) && i <= |b|
    ensures ReplaceFrom(lang, inner, a + [sep] + b, |a| + 1 + i) == ReplaceFrom(lang, inner, b, i)
    decreases |b| - i
  {
    hide ReplaceFrom, MatchEnd, MatchAt, TokenLang, Braced;
    var s, n := a + [sep] + b, |a| + 1;
    if i == |b| {
      ScanEnd(lang, inner, s);
      ScanEnd(lang, inner, b);
    } else {
      MatchEndAfterSeparator(lang, a, sep, b, i);
      ScanStep(lang, inner, s, n + i);
      ScanStep(lang, inner, b, i);
      assert s[n + i] == b[i];
      var f := MatchEnd(lang, b, i, |b|);
      ScanAfterSeparator(lang, inner, a, sep, b, if f > i then f else i + 1);
    }
  }

  lemma Associative(x: string, y: string, z: string)
    ensures x + (y + z) == (x + y) + z
  {
  }

  /** At the separator, the scan copies it and goes on with the second text. */
  lemma ScanAtSeparator(lang: Lang, inner: string, a: string, sep: char, b: string)
    requires Separator(sep) && TokenLang(lang)
    ensures ReplaceFrom(lang, inner, a + [sep] + b, |a|) == [sep] + ReplaceFrom(lang, inner, b, 0)
  {
    hide ReplaceFrom, MatchAt, TokenLang, Braced;
    var s := a + [sep] + b;
    MatchEndBeforeSeparator(lang, a, sep, b, |a|);
    ScanStep(lang, inner, s, |a|);
    ScanAfterSeparator(lang, inner, a, sep, b, 0);
    assert s[|a|] == sep;
  }

  lemma {:induction false} ScanBeforeSeparator(lang: Lang, inner: string, a: string, sep: char, b: string, i: nat)
    requires Separator(sep) && TokenLang(lang) && i <= |a|
    ensures ReplaceFrom(lang, inner, a + [sep] + b, i)
         == ReplaceFrom(lang, inner, a, i) + ([sep] + ReplaceFrom(lang, inner, b, 0))
    decreases |a| - i
  {
    hide ReplaceFrom, MatchEnd, MatchAt, TokenLang, Braced;
    var s := a + [sep] + b;
    var tail := [sep] + ReplaceFrom(lang, inner, b, 0);
    if i == |a| {
      ScanEnd(lang, inner, a);
      ScanAtSeparator(lang, inner, a, sep, b);
      assert "" + tail == tail;
    } else {
      MatchEndBeforeSeparator(lang, a, sep, b, i);
      ScanStep(lang, inner, s, i);
      ScanStep(lang, inner, a, i);
      assert s[i] == a[i];
      var f := MatchEnd(lang, a, i, |a|);
      var next, piece := if f > i then f else i + 1, if f > i then Braced(inner) else [s[i]];
      ScanBeforeSeparator(lang, inner, a, sep, b, next);
      Associative(piece, ReplaceFrom(lang, inner, a, next), tail);
    }
  }

  /** Scanning two texts joined by a separator is scanning each of them. */
  lemma ScanSplitsAt(lang: Lang, inner: string, a: string, sep: char, b: string)
    requires Separator(sep) && TokenLang(lang)
    ensures ReplaceAll(lang, inner, a + [sep] + b) == ReplaceAll(lang, inner, a) + [sep] + ReplaceAll(lang, inner, b)
  {
    ScanBeforeSeparator(lang, inner, a, sep, b, 0);
  }

  /** A scan either finds nothing, or its output holds the replacement word with its braces. */
  lemma {:induction false} HitLeavesWord(lang: Lang, inner: string, s: string, i: nat) returns (x: string, y: string)
    requires i <= |s| && ReplaceFrom(lang, inner, s, i) != s[i..]
    ensures ReplaceFrom(lang, inner, s, i) == x + Braced(inner) + y
    decreases |s| - i
  {
    hide ReplaceFrom, MatchEnd, Braced;
    ScanEnd(lang, inner, s);
    assert s[|s|..] == "" && i < |s|;
    ScanStep(lang, inner, s, i);
    var e := MatchEnd(lang, s, i, |s|);
    if e > i {
      x, y := "", ReplaceFrom(lang, inner, s, e);
    } else {
      assert s[i..] == [s[i]] + s[i + 1..];
      x, y := HitLeavesWord(lang, inner, s, i + 1);
      assert [s[i]] + (x + Braced(inner) + y) == [s[i]] + x + Braced(inner) + y;
      x := [s[i]] + x;
    }
  }

  /** A replacement word that is already in a text stays there under every scan. */
  lemma WordStays(lang: Lang, inner: string, word: string, x: string, y: string)
    requires TokenLang(lang) && Silent(lang, word)
    ensures ReplaceAll(lang, inner, x + Braced(word) + y)
         == ReplaceAll(lang, inner, x) + Braced(word) + ReplaceAll(lang, inner, y)
  {
    hide ReplaceAll;
    assert x + Braced(word) + y == x + ['{'] + (word + ['}'] + y);
    ScanSplitsAt(lang, inner, x, '{', word + ['}'] + y);
    ScanSplitsAt(lang, inner, word, '}', y);
    SilentTextStays(lang, inner, word);
  }

  lemma SilentTextStays(lang: Lang, inner: string, word: string)
    requires Silent(lang, word)
    ensures ReplaceAll(lang, inner, word) == word
  {
    ScanWithoutMatch(lang, inner, word, 0);
  }

  /** A text that does not begin with a word character keeps its first character. */
  lemma FirstStays(lang: Lang, inner: string, s: string)
    requires s != "" && !IsWord(s[0])
    ensures ReplaceAll(lang, inner, s) != "" && ReplaceAll(lang, inner, s)[0] == s[0]
  {
    assert !WordBefore(s, 0) && !WordAt(s, 0);
    assert MatchEnd(lang, s, 0, |s|) == 0;
  }

  /** A text that is one word of the language is replaced as a whole. */
  lemma ScanOfToken(lang: Lang, inner: string, w: string)
    requires w != "" && lang(w) && IsWord(w[0]) && IsWord(w[|w| - 1])
    ensures ReplaceAll(lang, inner, w) == Braced(inner)
  {
    assert w[0..|w|] == w;
    assert MatchAt(lang, w, 0, |w|);
    assert ReplaceFrom(lang, inner, w, |w|) == "";
  }
}

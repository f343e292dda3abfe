/** The languages of the normaliser's five patterns. */
module Patterns {
  import opened Text
  import opened Scan

  datatype Pattern = Uuid | Email | Ip | LongId | Number

  /** The replacement word, without its braces. */
  function Inner(p: Pattern): string {
    match p
    case Uuid => "uuid"
    case Email => "email"
    case Ip => "ip"
    case LongId => "id"
    case Number => "number"
  }

  predicate IsHex(c: char) { IsDigit(c) || 'a' <= c <= 'f' || 'A' <= c <= 'F' }

  predicate LocalChar(c: char) { IsAlnum(c) || c in "._%+-" }

  predicate DomainChar(c: char) { IsAlnum(c) || c in ".-" }

  predicate HyphenAt(i: int) { i == 8 || i == 13 || i == 18 || i == 23 }

  /** `[0-9a-f]{8}-[0-9a-f]{4}-[1-5][0-9a-f]{3}-[89ab][0-9a-f]{3}-[0-9a-f]{12}`, ignoring case. */
  predicate IsUuid(w: string) {
    && |w| == 36
    && (forall i | 0 <= i < 36 :: if HyphenAt(i) then w[i] == '-' else IsHex(w[i]))
    && '1' <= w[14] <= '5'
    && w[19] in "89abAB"
  }

  /** `[A-Za-z0-9._%+\-]+@[A-Za-z0-9.\-]+\.[A-Za-z]{2,}`, with the `@` at `at` and the last dot at `dot`. */
  predicate EmailSplit(w: string, at: int, dot: int) {
    && 1 <= at && at + 2 <= dot && dot + 3 <= |w|
    && (forall i | 0 <= i < at :: LocalChar(w[i]))
    && w[at] == '@'
    && (forall i | at < i < dot :: DomainChar(w[i]))
    && w[dot] == '.'
    && (forall i | dot < i < |w| :: IsLetter(w[i]))
  }

  predicate IsEmail(w: string) {
    exists at, dot | 0 <= at < |w| && 0 <= dot < |w| :: EmailSplit(w, at, dot)
  }

  predicate AllDigits(w: string) { forall i | 0 <= i < |w| :: IsDigit(w[i]) }

  predicate AllAlnum(w: string) { forall i | 0 <= i < |w| :: IsAlnum(w[i]) }

  /** `groups` leading groups `\d{1,3}\.`, then one `\d{1,3}`. */
  predicate IsDotted(w: string, groups: nat) {
    if groups == 0 then 1 <= |w| <= 3 && AllDigits(w)
    else exists n | 1 <= n <= 3 :: DottedHead(w, n) && IsDotted(w[n + 1..], groups - 1)
  }

  predicate DottedHead(w: string, n: nat) {
    n < |w| && AllDigits(w[..n]) && w[n] == '.'
  }

  predicate InLang(p: Pattern, w: string) {
    match p
    case Uuid => IsUuid(w)
    case Email => IsEmail(w)
    case Ip => IsDotted(w, 3)
    case LongId => |w| >= 16 && AllAlnum(w)
    case Number => |w| >= 1 && AllDigits(w)
  }

  function LangOf(p: Pattern): Lang { w => InLang(p, w) }

  predicate DottedChar(c: char) { IsDigit(c) || c == '.' }

  /** Digits and dots, with a digit at both ends. */
  predicate DottedText(w: string) {
    w != "" && IsDigit(w[0]) && IsDigit(w[|w| - 1]) && forall i | 0 <= i < |w| :: DottedChar(w[i])
  }

  lemma DottedGrows(w: string, n: nat)
    requires 1 <= n && DottedHead(w, n) && DottedText(w[n + 1..])
    ensures DottedText(w) && '.' in w
  {
    forall i | 0 <= i < |w|
      ensures DottedChar(w[i])
    {
      if i < n {
        assert w[i] == w[..n][i];
      } else if i > n {
        assert w[i] == w[n + 1..][i - (n + 1)];
      }
    }
    assert w[0] == w[..n][0];
  }

  lemma {:induction false} DottedIsText(w: string, groups: nat)
    requires IsDotted(w, groups)
    ensures DottedText(w)
    ensures groups > 0 ==> '.' in w
  {
    if groups > 0 {
      var n :| 1 <= n <= 3 && DottedHead(w, n) && IsDotted(w[n + 1..], groups - 1);
      DottedIsText(w[n + 1..], groups - 1);
      hide IsDotted;
      DottedGrows(w, n);
    }
  }

  lemma IpIsText(w: string)
    ensures IsDotted(w, 3) ==> DottedText(w) && '.' in w
  {
    if IsDotted(w, 3) { DottedIsText(w, 3); }
  }

  predicate TokenChar(c: char) { LocalChar(c) || c == '@' }

  lemma PatternText(p: Pattern, w: string)
    requires InLang(p, w)
    ensures w != "" && IsWord(w[|w| - 1])
    ensures p != Email ==> IsWord(w[0])
    ensures forall i | 0 <= i < |w| :: TokenChar(w[i])
  {
    match p
    case Ip => DottedIsText(w, 3);
    case Uuid =>
      assert IsHex(w[0]) && IsHex(w[35]);
    case Email =>
      var at, dot :| EmailSplit(w, at, dot);
      assert IsLetter(w[|w| - 1]);
    case LongId => assert IsAlnum(w[0]) && IsAlnum(w[|w| - 1]);
    case Number => assert IsDigit(w[0]) && IsDigit(w[|w| - 1]);
  }

  lemma PatternIsTokenLang(p: Pattern)
    ensures TokenLang(LangOf(p))
  {
    forall w | LangOf(p)(w)
      ensures w != "" && IsWord(w[|w| - 1]) && forall i | 0 <= i < |w| :: Plain(w[i])
    {
      PatternText(p, w);
    }
  }

  predicate ShortLetters(w: string) {
    |w| <= 6 && forall i | 0 <= i < |w| :: IsLowerCase(w[i])
  }

  /** A few lower-case letters are in none of the languages. */
  lemma ShortLettersAreNoToken(p: Pattern, w: string)
    requires ShortLetters(w)
    ensures !InLang(p, w)
  {
    match p
    case Ip =>
      IpIsText(w);
    case Email =>
      assert forall i | 0 <= i < |w| :: w[i] != '@';
    case Number =>
      assert w != "" ==> !IsDigit(w[0]);
    case _ =>
  }

  lemma InnerIsShort(p: Pattern)
    ensures ShortLetters(Inner(p))
  {
  }

  lemma InnerIsSilent(p: Pattern, q: Pattern)
    ensures Silent(LangOf(q), Inner(p))
  {
    InnerIsShort(p);
    forall a, b | 0 <= a < b <= |Inner(p)|
      ensures !LangOf(q)(Inner(p)[a..b])
    {
      assert forall i | 0 <= i < b - a :: Inner(p)[a..b][i] == Inner(p)[a + i];
      ShortLettersAreNoToken(q, Inner(p)[a..b]);
    }
  }

  // ------------------------------------------------------------ lower case

  lemma LowerKeepsDotted(w: string)
    requires DottedText(w)
    ensures ToLower(w) == w
  {
    assert forall i | 0 <= i < |w| :: DottedChar(w[i]);
  }

  lemma LowerKeepsEmail(w: string, at: int, dot: int)
    requires EmailSplit(w, at, dot)
    ensures EmailSplit(ToLower(w), at, dot)
  {
    var v := ToLower(w);
    forall i | 0 <= i < at ensures LocalChar(v[i]) { assert LocalChar(w[i]); }
    forall i | at < i < dot ensures DomainChar(v[i]) { assert DomainChar(w[i]); }
    forall i | dot < i < |w| ensures IsLetter(v[i]) { assert IsLetter(w[i]); }
  }

  /** Lower-casing keeps a word in its language. */
  lemma LowerKeepsLang(p: Pattern, w: string)
    requires InLang(p, w)
    ensures InLang(p, ToLower(w))
  {
    var v := ToLower(w);
    match p
    case Ip =>
      IpIsText(w);
      LowerKeepsDotted(w);
    case Uuid =>
      forall i | 0 <= i < 36
        ensures if HyphenAt(i) then v[i] == '-' else IsHex(v[i])
      {
        assert if HyphenAt(i) then w[i] == '-' else IsHex(w[i]);
      }
    case Email =>
      var at, dot :| EmailSplit(w, at, dot);
      LowerKeepsEmail(w, at, dot);
    case LongId =>
    case Number =>
  }
}

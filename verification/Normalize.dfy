/** `NormalizeMessage`: what it produces, that it is idempotent, and that it works word by word. */
module Normalize {
  import opened Text
  import opened Scan
  import opened Patterns

  function Apply(p: Pattern, s: string): string { ReplaceAll(LangOf(p), Inner(p), s) }

  /** The five replacements, in the order of the source. */
  function ReplacePatterns(s: string): string {
    var s := Apply(Uuid, s);
    var s := Apply(Email, s);
    var s := Apply(Ip, s);
    var s := Apply(LongId, s);
    Apply(Number, s)
  }

  function NormalizeMessage(msg: string): (r: (string, string))
    ensures r.0 == msg
  {
    (msg, ReplacePatterns(ToLower(Join(Fields(TrimSpace(msg))))))
  }

  function Normalized(msg: string): string { NormalizeMessage(msg).1 }

  ghost predicate Unmatched(p: Pattern, s: string) { NoMatch(LangOf(p), s) }

  // ------------------------------------------------------------ one pass

  lemma PassRemoves(p: Pattern, s: string)
    ensures Unmatched(p, Apply(p, s))
  {
    PatternIsTokenLang(p);
    InnerIsSilent(p, p);
    ScanRemovesMatches(LangOf(p), Inner(p), LangOf(p), s);
  }

  lemma PassCreatesNone(p: Pattern, q: Pattern, s: string)
    requires Unmatched(q, s)
    ensures Unmatched(q, Apply(p, s))
  {
    PatternIsTokenLang(p);
    PatternIsTokenLang(q);
    InnerIsSilent(p, q);
    ScanRemovesMatches(LangOf(p), Inner(p), LangOf(q), s);
  }

  lemma PassIsIdentity(p: Pattern, s: string)
    requires Unmatched(p, s)
    ensures Apply(p, s) == s
  {
    ScanWithoutMatch(LangOf(p), Inner(p), s, 0);
  }

  predicate WordText(s: string) { s != "" && SpaceFree(s) && NoUpper(s) }

  lemma {:induction false} PassKeepsText(p: Pattern, s: string, i: nat)
    requires i <= |s|
    ensures SpaceFree(s) ==> SpaceFree(ReplaceFrom(LangOf(p), Inner(p), s, i))
    ensures NoUpper(s) ==> NoUpper(ReplaceFrom(LangOf(p), Inner(p), s, i))
    ensures i < |s| ==> ReplaceFrom(LangOf(p), Inner(p), s, i) != ""
    decreases |s| - i
  {
    if i < |s| {
      var e := MatchEnd(LangOf(p), s, i, |s|);
      PassKeepsText(p, s, if e > i then e else i + 1);
      InnerIsShort(p);
      assert s[i] in s;
    }
  }

  lemma PassesKeepText(s: string)
    ensures NoUpper(s) ==> NoUpper(ReplacePatterns(s))
    ensures WordText(s) ==> WordText(ReplacePatterns(s))
  {
    var a := Apply(Uuid, s);
    var b := Apply(Email, a);
    var c := Apply(Ip, b);
    var d := Apply(LongId, c);
    PassKeepsText(Uuid, s, 0);
    PassKeepsText(Email, a, 0);
    PassKeepsText(Ip, b, 0);
    PassKeepsText(LongId, c, 0);
    PassKeepsText(Number, d, 0);
  }

  // ------------------------------------------------------------ nothing is left to replace

  /** After the five passes no pattern matches anywhere. */
  lemma NothingLeftToReplace(s: string, p: Pattern)
    ensures Unmatched(p, ReplacePatterns(s))
  {
    var a := Apply(Uuid, s);
    var b := Apply(Email, a);
    var c := Apply(Ip, b);
    var d := Apply(LongId, c);
    match p
    case Uuid =>
      PassRemoves(Uuid, s);
      PassCreatesNone(Email, p, a); PassCreatesNone(Ip, p, b); PassCreatesNone(LongId, p, c); PassCreatesNone(Number, p, d);
    case Email =>
      PassRemoves(Email, a);
      PassCreatesNone(Ip, p, b); PassCreatesNone(LongId, p, c); PassCreatesNone(Number, p, d);
    case Ip =>
      PassRemoves(Ip, b);
      PassCreatesNone(LongId, p, c); PassCreatesNone(Number, p, d);
    case LongId =>
      PassRemoves(LongId, c);
      PassCreatesNone(Number, p, d);
    case Number =>
      PassRemoves(Number, d);
  }

  /** The passes leave a text alone exactly when no pattern matches in it. */
  lemma PassesAreIdentityIff(s: string)
    ensures ReplacePatterns(s) == s <==> forall p :: Unmatched(p, s)
  {
    if ReplacePatterns(s) == s {
      forall p ensures Unmatched(p, s) { NothingLeftToReplace(s, p); }
    }
    if forall p :: Unmatched(p, s) {
      PassIsIdentity(Uuid, s);
      PassIsIdentity(Email, s);
      PassIsIdentity(Ip, s);
      PassIsIdentity(LongId, s);
      PassIsIdentity(Number, s);
    }
  }

  // ------------------------------------------------------------ word by word

  function NormalizeWord(w: string): string { ReplacePatterns(ToLower(w)) }

  function NormalizeWords(words: seq<string>): (r: seq<string>)
    ensures |r| == |words|
    ensures forall i | 0 <= i < |words| :: r[i] == NormalizeWord(words[i])
  {
    if words == [] then [] else [NormalizeWord(words[0])] + NormalizeWords(words[1..])
  }

  lemma PassesSplitAtSpace(a: string, b: string)
    ensures ReplacePatterns(a + " " + b) == ReplacePatterns(a) + " " + ReplacePatterns(b)
  {
    PassSplitsAtSpace(Uuid, a, b);
    var a1, b1 := Apply(Uuid, a), Apply(Uuid, b);
    PassSplitsAtSpace(Email, a1, b1);
    var a2, b2 := Apply(Email, a1), Apply(Email, b1);
    PassSplitsAtSpace(Ip, a2, b2);
    var a3, b3 := Apply(Ip, a2), Apply(Ip, b2);
    PassSplitsAtSpace(LongId, a3, b3);
    PassSplitsAtSpace(Number, Apply(LongId, a3), Apply(LongId, b3));
  }

  lemma PassSplitsAtSpace(p: Pattern, a: string, b: string)
    ensures Apply(p, a + " " + b) == Apply(p, a) + " " + Apply(p, b)
  {
    PatternIsTokenLang(p);
    assert a + " " + b == a + [' '] + b;
    ScanSplitsAt(LangOf(p), Inner(p), a, ' ', b);
  }

  lemma {:induction false} PassesWordByWord(words: seq<string>)
    ensures ReplacePatterns(ToLower(Join(words))) == Join(NormalizeWords(words))
  {
    if words == [] {
    } else if |words| == 1 {
    } else {
      var tail := Join(words[1..]);
      PassesWordByWord(words[1..]);
      LowerConcat(words[0] + " ", tail);
      LowerConcat(words[0], " ");
      assert ToLower(" ") == " ";
      PassesSplitAtSpace(ToLower(words[0]), ToLower(tail));
      assert NormalizeWords(words)[1..] == NormalizeWords(words[1..]);
    }
  }

  /** Normalisation treats the fields of a message independently and joins them with single spaces. */
  lemma NormalizesWordByWord(msg: string)
    ensures Normalized(msg) == Join(NormalizeWords(Fields(msg)))
  {
    FieldsOfTrim(msg);
    PassesWordByWord(Fields(msg));
  }

  lemma NormalizedFields(msg: string)
    ensures Fields(Normalized(msg)) == NormalizeWords(Fields(msg))
    ensures forall w | w in NormalizeWords(Fields(msg)) :: WordText(w)
  {
    NormalizesWordByWord(msg);
    FieldsAreWords(msg, "");
    var words := Fields(msg);
    var out := NormalizeWords(words);
    forall w | w in out
      ensures WordText(w)
    {
      var i :| 0 <= i < |out| && out[i] == w;
      assert words[i] in words;
      LowerIsNoUpper(words[i]);
      PassesKeepText(ToLower(words[i]));
    }
    FieldsOfJoin(out);
  }

  /** Two messages get the same normal form exactly when they have the same number of fields and
      corresponding fields get the same normal form. */
  lemma SameNormalFormIff(a: string, b: string)
    ensures Normalized(a) == Normalized(b)
       <==> && |Fields(a)| == |Fields(b)|
            && forall i | 0 <= i < |Fields(a)| :: NormalizeWord(Fields(a)[i]) == NormalizeWord(Fields(b)[i])
  {
    NormalizedFields(a);
    NormalizedFields(b);
    NormalizesWordByWord(a);
    NormalizesWordByWord(b);
    var u, v := NormalizeWords(Fields(a)), NormalizeWords(Fields(b));
    if |u| == |v| && forall i | 0 <= i < |Fields(a)| :: NormalizeWord(Fields(a)[i]) == NormalizeWord(Fields(b)[i]) {
      assert u == v;
    }
    if u == v {
      forall i | 0 <= i < |Fields(a)|
        ensures NormalizeWord(Fields(a)[i]) == NormalizeWord(Fields(b)[i])
      {
        assert u[i] == v[i];
      }
    }
  }

  // ------------------------------------------------------------ idempotence

  lemma NormalWordIsFixed(w: string)
    ensures NormalizeWord(NormalizeWord(w)) == NormalizeWord(w)
  {
    var v := NormalizeWord(w);
    LowerIsNoUpper(w);
    PassesKeepText(ToLower(w));
    LowerIsNoUpper(v);
    forall p ensures Unmatched(p, v) { NothingLeftToReplace(ToLower(w), p); }
    PassesAreIdentityIff(v);
  }

  lemma NormalFormHasNoUpper(msg: string)
    ensures NoUpper(Normalized(msg))
  {
    var joined := Join(Fields(TrimSpace(msg)));
    LowerIsNoUpper(joined);
    PassesKeepText(ToLower(joined));
  }

  /** Normalising a normal form changes nothing. */
  lemma NormalizationIsIdempotent(msg: string)
    ensures Normalized(Normalized(msg)) == Normalized(msg)
  {
    NormalizedFields(msg);
    NormalizesWordByWord(msg);
    NormalizesWordByWord(Normalized(msg));
    var words := Fields(msg);
    forall i | 0 <= i < |words|
      ensures NormalizeWord(NormalizeWord(words[i])) == NormalizeWord(words[i])
    {
      NormalWordIsFixed(words[i]);
    }
    assert NormalizeWords(NormalizeWords(words)) == NormalizeWords(words);
  }

  // ------------------------------------------------------------ what becomes of a token

  function Rank(p: Pattern): nat {
    match p
    case Uuid => 0
    case Email => 1
    case Ip => 2
    case LongId => 3
    case Number => 4
  }

  lemma ReplacementIsUnmatched(p: Pattern, q: Pattern)
    ensures Unmatched(q, Braced(Inner(p)))
  {
    PatternIsTokenLang(q);
    InnerIsSilent(p, q);
    var t := Braced(Inner(p));
    forall a: nat, b: nat
      ensures !MatchAt(LangOf(q), t, a, b)
    {
      assert MatchAt(LangOf(q), t, a, b) ==> MatchAfter(LangOf(q), t, false, a, b);
      assert t + "" == t;
      if a < |t| {
        NoMatchInReplacement(LangOf(q), Inner(p), "", false, a, b);
      }
    }
  }

  lemma TokenPass(p: Pattern, w: string)
    requires InLang(p, w) && IsWord(w[0])
    ensures Apply(p, w) == Braced(Inner(p))
  {
    PatternText(p, w);
    ScanOfToken(LangOf(p), Inner(p), w);
  }

  lemma TokenPasses(p: Pattern, w: string)
    requires w != "" && InLang(p, w) && IsWord(w[0])
    requires forall q | Rank(q) < Rank(p) :: Unmatched(q, w)
    ensures ReplacePatterns(w) == Braced(Inner(p))
  {
    var t := Braced(Inner(p));
    TokenPass(p, w);
    forall q ensures Apply(q, t) == t {
      ReplacementIsUnmatched(p, q);
      PassIsIdentity(q, t);
    }
    forall q | Rank(q) < Rank(p) ensures Apply(q, w) == w { PassIsIdentity(q, w); }
    match p
    case Uuid =>
    case Email => assert Rank(Uuid) < Rank(p);
    case Ip => assert Rank(Uuid) < Rank(p) && Rank(Email) < Rank(p);
    case LongId => assert Rank(Uuid) < Rank(p) && Rank(Email) < Rank(p) && Rank(Ip) < Rank(p);
    case Number => assert Rank(Uuid) < Rank(p) && Rank(Email) < Rank(p) && Rank(Ip) < Rank(p) && Rank(LongId) < Rank(p);
  }

  /** A character that every word of the pattern holds. */
  function Mark(p: Pattern): char {
    match p
    case Uuid => '-'
    case Email => '@'
    case _ => '.'
  }

  lemma NoMarkNoMatch(p: Pattern, s: string)
    requires p.Uuid? || p.Email? || p.Ip?
    requires Mark(p) !in s
    ensures Unmatched(p, s)
  {
    forall i: nat, j: nat
      ensures !MatchAt(LangOf(p), s, i, j)
    {
      if i < j <= |s| {
        var w := s[i..j];
        assert forall k | 0 <= k < |w| :: w[k] == s[i + k] && w[k] != Mark(p);
        match p
        case Uuid => assert |w| == 36 ==> HyphenAt(8) && w[8] != '-';
        case Email =>
        case Ip => IpIsText(w);
      }
    }
  }

  /** The conditions under which a field that is one token is replaced as a whole: an e-mail address
      has to start with a word character and hold no UUID, a number has to be shorter than an id. */
  ghost predicate WholeToken(p: Pattern, w: string) {
    && w != "" && InLang(p, w) && IsWord(w[0])
    && (p.Email? ==> Unmatched(Uuid, ToLower(w)))
    && (p.Number? ==> |w| < 16)
  }

  /** A field that is one token becomes the replacement word of that pattern, whatever the token. */
  lemma TokenBecomesItsWord(p: Pattern, w: string)
    requires WholeToken(p, w)
    ensures NormalizeWord(w) == Braced(Inner(p))
  {
    var v := ToLower(w);
    LowerKeepsLang(p, w);
    PatternText(p, v);
    assert IsWord(v[0]);
    forall q | Rank(q) < Rank(p)
      ensures Unmatched(q, v)
    {
      EarlierPatternsMissToken(p, q, v);
    }
    TokenPasses(p, v);
  }

  lemma EarlierPatternsMissToken(p: Pattern, q: Pattern, v: string)
    requires InLang(p, v) && Rank(q) < Rank(p)
    requires p.Email? ==> Unmatched(Uuid, v)
    requires p.Number? ==> |v| < 16
    ensures Unmatched(q, v)
  {
    if p.Ip? { DottedIsText(v, 3); }
    if p.LongId? { assert forall i | 0 <= i < |v| :: IsAlnum(v[i]); }
    if p.Number? { assert forall i | 0 <= i < |v| :: IsDigit(v[i]); }
    if !p.Email? && !q.LongId? {
      assert p.Ip? ==> q.Uuid? || q.Email?;
      assert p.Ip? ==> forall i | 0 <= i < |v| :: DottedChar(v[i]);
      NoMarkNoMatch(q, v);
    }
  }

  /** A replacement word that the passes meet in a text survives all of them. */
  lemma WordSurvives(p: Pattern, q: Pattern, x: string, y: string)
    ensures Apply(q, x + Braced(Inner(p)) + y) == Apply(q, x) + Braced(Inner(p)) + Apply(q, y)
  {
    PatternIsTokenLang(q);
    InnerIsSilent(p, q);
    WordStays(LangOf(q), Inner(q), Inner(p), x, y);
  }

  /** A text with a UUID keeps the word for it to the end. */
  lemma UuidLeavesItsWord(v: string) returns (x: string, y: string)
    requires !Unmatched(Uuid, v)
    ensures ReplacePatterns(v) == x + Braced(Inner(Uuid)) + y
  {
    hide Apply, Braced;
    x, y := UuidPassLeavesItsWord(v);
    WordSurvives(Uuid, Email, x, y);
    var x1, y1 := Apply(Email, x), Apply(Email, y);
    WordSurvives(Uuid, Ip, x1, y1);
    var x2, y2 := Apply(Ip, x1), Apply(Ip, y1);
    WordSurvives(Uuid, LongId, x2, y2);
    var x3, y3 := Apply(LongId, x2), Apply(LongId, y2);
    WordSurvives(Uuid, Number, x3, y3);
    x, y := Apply(Number, x3), Apply(Number, y3);
  }

  lemma UuidPassLeavesItsWord(v: string) returns (x: string, y: string)
    requires !Unmatched(Uuid, v)
    ensures Apply(Uuid, v) == x + Braced(Inner(Uuid)) + y
  {
    hide ReplaceFrom;
    PatternIsTokenLang(Uuid);
    InnerIsSilent(Uuid, Uuid);
    ScanIsIdentityIff(LangOf(Uuid), Inner(Uuid), v);
    x, y := HitLeavesWord(LangOf(Uuid), Inner(Uuid), v, 0);
  }

  lemma PassesKeepFirst(v: string)
    requires v != "" && !IsWord(v[0])
    ensures ReplacePatterns(v) != "" && ReplacePatterns(v)[0] == v[0]
  {
    hide ReplaceAll;
    var a := Apply(Uuid, v);
    FirstStays(LangOf(Uuid), Inner(Uuid), v);
    var b := Apply(Email, a);
    FirstStays(LangOf(Email), Inner(Email), a);
    var c := Apply(Ip, b);
    FirstStays(LangOf(Ip), Inner(Ip), b);
    var d := Apply(LongId, c);
    FirstStays(LangOf(LongId), Inner(LongId), c);
    FirstStays(LangOf(Number), Inner(Number), d);
  }

  lemma UuidWordIsNotInEmailWord(x: string, y: string)
    ensures x + Braced(Inner(Uuid)) + y != Braced(Inner(Email))
  {
    var s, t := x + Braced(Inner(Uuid)) + y, Braced(Inner(Email));
    assert s[|x|] == '{' && s[|x| + 1] == 'u';
    assert forall i | 0 <= i < |t| :: t[i] != 'u';
  }

  lemma PartialEmailIsNotItsWord(w: string)
    requires InLang(Email, w) && (!IsWord(w[0]) || !Unmatched(Uuid, ToLower(w)))
    ensures NormalizeWord(w) != Braced(Inner(Email))
  {
    hide ReplacePatterns;
    var v := ToLower(w);
    PatternText(Email, w);
    if !IsWord(w[0]) {
      assert TokenChar(w[0]) && v[0] == w[0];
      PassesKeepFirst(v);
    } else {
      var x, y := UuidLeavesItsWord(v);
      UuidWordIsNotInEmailWord(x, y);
    }
  }

  /** A field that is one token becomes the word of that pattern if and only if no earlier pattern takes it
      or a part of it, and it starts with a word character. */
  lemma TokenBecomesItsWordIff(p: Pattern, w: string)
    requires InLang(p, w)
    ensures NormalizeWord(w) == Braced(Inner(p)) <==> WholeToken(p, w)
  {
    hide ReplacePatterns;
    PatternText(p, w);
    if WholeToken(p, w) {
      TokenBecomesItsWord(p, w);
    } else if p.Number? {
      assert forall i | 0 <= i < |w| :: IsDigit(w[i]);
      TokenBecomesItsWord(LongId, w);
    } else {
      PartialEmailIsNotItsWord(w);
    }
  }

  /** The word that stands for each kind of token. */
  lemma MaskOfToken(p: Pattern, w: string)
    requires WholeToken(p, w)
    ensures NormalizeWord(w) == match p case Uuid => "{uuid}" case Email => "{email}" case Ip => "{ip}"
                                        case LongId => "{id}" case Number => "{number}"
  {
    hide NormalizeWord, WholeToken;
    TokenBecomesItsWord(p, w);
  }

  ghost predicate SameKind(v: string, w: string) { exists p :: WholeToken(p, v) && WholeToken(p, w) }

  /** Messages that differ only in the UUIDs, addresses, ids and numbers that stand in their fields have one
      normal form. */
  lemma MaskedFieldsDoNotMatter(a: string, b: string)
    requires |Fields(a)| == |Fields(b)|
    requires forall i | 0 <= i < |Fields(a)| :: Fields(a)[i] == Fields(b)[i] || SameKind(Fields(a)[i], Fields(b)[i])
    ensures Normalized(a) == Normalized(b)
  {
    hide NormalizeWord, WholeToken, Normalized, SameKind;
    forall i | 0 <= i < |Fields(a)|
      ensures NormalizeWord(Fields(a)[i]) == NormalizeWord(Fields(b)[i])
    {
      if Fields(a)[i] != Fields(b)[i] { SameKindSameWord(Fields(a)[i], Fields(b)[i]); }
    }
    SameNormalFormIff(a, b);
  }

  lemma SameKindSameWord(v: string, w: string)
    requires SameKind(v, w)
    ensures NormalizeWord(v) == NormalizeWord(w)
  {
    hide NormalizeWord, WholeToken;
    var p :| WholeToken(p, v) && WholeToken(p, w);
    TokenBecomesItsWord(p, v);
    TokenBecomesItsWord(p, w);
  }

  // ------------------------------------------------------------ ordinary words, and an example

  predicate ShortWord(w: string) { |w| < 16 && forall i | 0 <= i < |w| :: IsLetter(w[i]) }

  lemma ShortWordIsNoToken(p: Pattern, w: string)
    requires ShortWord(w)
    ensures !InLang(p, w)
  {
    match p
    case Ip => IpIsText(w);
    case Email => assert forall i | 0 <= i < |w| :: w[i] != '@';
    case Number => assert w != "" ==> !IsDigit(w[0]);
    case _ =>
  }

  /** A field of fewer than 16 letters is only lower-cased. */
  lemma ShortWordStays(w: string)
    requires ShortWord(w)
    ensures NormalizeWord(w) == ToLower(w)
  {
    hide ReplacePatterns, InLang;
    var v := ToLower(w);
    assert forall i | 0 <= i < |v| :: IsLetter(v[i]);
    forall p ensures Unmatched(p, v) {
      forall i: nat, j: nat
        ensures !MatchAt(LangOf(p), v, i, j)
      {
        if i < j <= |v| {
          assert forall k | 0 <= k < j - i :: v[i..j][k] == v[i + k];
          ShortWordIsNoToken(p, v[i..j]);
        }
      }
    }
    PassesAreIdentityIff(v);
  }

  /** A message of three fields, the middle one a number: the number does not matter. */
  lemma NumberedMessage(a: string, n: string, b: string)
    requires ShortWord(a) && ShortWord(b) && a != "" && b != ""
    requires 1 <= |n| < 16 && forall i | 0 <= i < |n| :: IsDigit(n[i])
    ensures Normalized(a + " " + n + " " + b) == ToLower(a) + " {number} " + ToLower(b)
  {
    hide NormalizeWord, WholeToken, Normalized, ToLower, Join, Fields, ShortWord;
    var words, out := [a, n, b], [ToLower(a), "{number}", ToLower(b)];
    IsNumberToken(n);
    AlnumIsWord(a);
    AlnumIsWord(n);
    AlnumIsWord(b);
    JoinOfThree(a, n, b);
    JoinOfThree(ToLower(a), "{number}", ToLower(b));
    FieldsOfJoin(words);
    NormalizesWordByWord(Join(words));
    ShortWordStays(a);
    MaskOfToken(Number, n);
    ShortWordStays(b);
    assert NormalizeWords(words) == out;
    assert " {number} " == " " + "{number}" + " ";
    assert ToLower(a) + " " + "{number}" + " " == ToLower(a) + " {number} ";
  }

  lemma AlnumIsWord(w: string)
    ensures ShortWord(w) || AllDigits(w) ==> SpaceFree(w)
  {
    if ShortWord(w) || AllDigits(w) { assert forall i | 0 <= i < |w| :: IsAlnum(w[i]); }
  }

  lemma IsNumberToken(n: string)
    requires 1 <= |n| < 16 && forall i | 0 <= i < |n| :: IsDigit(n[i])
    ensures WholeToken(Number, n)
  {
  }

  lemma JoinOfThree(a: string, b: string, c: string)
    ensures Join([a, b, c]) == a + " " + b + " " + c
  {
    assert [a, b, c][1..] == [b, c] && [b, c][1..] == [c];
    assert Join([c]) == c && Join([b, c]) == b + " " + c;
    assert Join([a, b, c]) == a + " " + Join([b, c]);
    assert a + " " + (b + " " + c) == a + " " + b + " " + c;
  }
}

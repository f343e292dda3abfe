/** Error categories and the fingerprint pre-image. SHA-256 is taken to be injective, so a fingerprint
    is represented by the string that is hashed. */
module Fingerprint {
  import opened Text
  import opened Normalize

  /** `strings.Contains`. */
  predicate Contains(s: string, key: string) { exists i | 0 <= i <= |s| :: OccursAt(s, key, i) }

  predicate OccursAt(s: string, key: string, i: nat) { i + |key| <= |s| && s[i..i + |key|] == key }

  method ContainsAny(s: string, keywords: seq<string>) returns (found: bool)
    ensures found <==> exists k | k in keywords :: Contains(s, k)
  {
    for i := 0 to |keywords|
      invariant forall j | 0 <= j < i :: !Contains(s, keywords[j])
    {
      if Contains(s, keywords[i]) {
        return true;
      }
    }
    return false;
  }

  predicate HasAny(s: string, keywords: seq<string>) { exists k | k in keywords :: Contains(s, k) }

  datatype Category = AuthError | DatabaseError | NetworkTimeout | ThirdPartyApiError | ValidationError
                    | InternalServerError | UnknownError

  function CategoryName(c: Category): string {
    match c
    case AuthError => "AUTH_ERROR"
    case DatabaseError => "DATABASE_ERROR"
    case NetworkTimeout => "NETWORK_TIMEOUT"
    case ThirdPartyApiError => "THIRD_PARTY_API_ERROR"
    case ValidationError => "VALIDATION_ERROR"
    case InternalServerError => "INTERNAL_SERVER_ERROR"
    case UnknownError => "UNKNOWN_ERROR"
  }

  function Keywords(c: Category): seq<string> {
    match c
    case AuthError => ["jwt", "token", "unauthorized", "forbidden"]
    case DatabaseError => ["database", "sql", "connection pool", "deadlock", "transaction"]
    case NetworkTimeout => ["timeout", "deadline exceeded", "connection refused", "connection reset", "eof"]
    case ThirdPartyApiError => ["upstream", "third party", "external api"]
    case ValidationError => ["validation failed", "invalid request", "bad request"]
    case InternalServerError => ["panic", "runtime error", "nil pointer", "index out of range"]
    case UnknownError => []
  }

  /** The order in which the categories are tried. */
  function Priority(c: Category): nat {
    match c
    case AuthError => 0
    case DatabaseError => 1
    case NetworkTimeout => 2
    case ThirdPartyApiError => 3
    case ValidationError => 4
    case InternalServerError => 5
    case UnknownError => 6
  }

  /** The first category one of whose keywords occurs in the message, and otherwise the unknown one. */
  function Classify(msg: string): (c: Category)
    ensures c != UnknownError ==> HasAny(msg, Keywords(c))
    ensures forall d | Priority(d) < Priority(c) :: !HasAny(msg, Keywords(d))
  {
    if HasAny(msg, Keywords(AuthError)) then AuthError
    else if HasAny(msg, Keywords(DatabaseError)) then DatabaseError
    else if HasAny(msg, Keywords(NetworkTimeout)) then NetworkTimeout
    else if HasAny(msg, Keywords(ThirdPartyApiError)) then ThirdPartyApiError
    else if HasAny(msg, Keywords(ValidationError)) then ValidationError
    else if HasAny(msg, Keywords(InternalServerError)) then InternalServerError
    else UnknownError
  }

  /** `GenerateFingerprint` before hashing. */
  function PreImage(app: string, level: string, category: string, normalized: string): string {
    app + "|" + level + "|" + category + "|" + normalized
  }

  const LEVELS: set<string> := {"INFO", "WARN", "ERROR", "CRITICAL"}

  // ------------------------------------------------------------ unique decoding

  predicate BarFree(s: string) { forall i | 0 <= i < |s| :: s[i] != '|' }

  /** Text after the last upper-case letter: where it starts is fixed by the whole string. */
  lemma SplitAfterLastUpper(a: string, b: string, x: string, y: string)
    requires a != "" && b != "" && IsUpperCase(a[|a| - 1]) && IsUpperCase(b[|b| - 1])
    requires NoUpper(x) && NoUpper(y)
    requires a + x == b + y
    ensures a == b && x == y
  {
    var s := a + x;
    assert s[|a| - 1] == a[|a| - 1] && (b + y)[|b| - 1] == b[|b| - 1];
    assert forall i | 0 <= i < |x| :: s[|a| + i] == x[i] && x[i] in x;
    assert forall i | 0 <= i < |y| :: (b + y)[|b| + i] == y[i] && y[i] in y;
    assert |a| == |b|;
    assert a == s[..|a|] && b == (b + y)[..|b|];
    assert x == s[|a|..] && y == (b + y)[|b|..];
  }

  /** The part after the last bar is fixed by the whole string. */
  lemma SplitAtLastBar(a: string, b: string, x: string, y: string)
    requires BarFree(x) && BarFree(y)
    requires a + "|" + x == b + "|" + y
    ensures a == b && x == y
  {
    var s, t := a + "|" + x, b + "|" + y;
    assert s[|a|] == '|' && t[|b|] == '|';
    assert forall i | 0 <= i < |x| :: s[|a| + 1 + i] == x[i];
    assert forall i | 0 <= i < |y| :: t[|b| + 1 + i] == y[i];
    assert |a| == |b|;
    assert a == s[..|a|] && b == t[..|b|];
    assert x == s[|a| + 1..] && y == t[|b| + 1..];
  }

  /** What the text of a name says about itself, position by position. */
  predicate UpperName(s: string) {
    s != "" && IsUpperCase(s[|s| - 1]) && forall i | 0 <= i < |s| :: IsUpperCase(s[i]) || s[i] == '_'
  }

  lemma FirstCategoriesText(c: Category)
    ensures Priority(c) <= 2 ==> UpperName(CategoryName(c))
  {
    match c
    case AuthError =>
    case DatabaseError =>
    case NetworkTimeout =>
    case _ =>
  }

  lemma MiddleCategoriesText(c: Category)
    ensures 3 <= Priority(c) <= 4 ==> UpperName(CategoryName(c))
  {
    match c
    case ThirdPartyApiError =>
    case ValidationError =>
    case _ =>
  }

  lemma LastCategoriesText(c: Category)
    ensures 5 <= Priority(c) ==> UpperName(CategoryName(c))
  {
    match c
    case InternalServerError =>
    case UnknownError =>
    case _ =>
  }

  lemma CategoryText(c: Category)
    ensures UpperName(CategoryName(c)) && BarFree(CategoryName(c))
  {
    hide CategoryName;
    FirstCategoriesText(c);
    MiddleCategoriesText(c);
    LastCategoriesText(c);
  }

  lemma CategoryNamesDiffer(c: Category, d: Category)
    requires CategoryName(c) == CategoryName(d)
    ensures c == d
  {
    assert CategoryName(c)[0] == CategoryName(d)[0];
    assert |CategoryName(c)| == |CategoryName(d)|;
  }

  /** Category and message are always fixed by the joined string, and so is what stands before them. */
  lemma FrontCategoryAndMessage(app: string, level: string, c: Category, msg: string,
                                app': string, level': string, c': Category, msg': string)
    requires NoUpper(msg) && NoUpper(msg')
    requires PreImage(app, level, CategoryName(c), msg) == PreImage(app', level', CategoryName(c'), msg')
    ensures c == c' && msg == msg' && app + "|" + level == app' + "|" + level'
  {
    hide CategoryName;
    var k, k' := CategoryName(c), CategoryName(c');
    CategoryText(c);
    CategoryText(c');
    var front, front' := app + "|" + level, app' + "|" + level';
    var a, b := front + "|" + k, front' + "|" + k';
    assert NoUpper("|" + msg) && NoUpper("|" + msg');
    assert PreImage(app, level, k, msg) == a + ("|" + msg);
    assert PreImage(app', level', k', msg') == b + ("|" + msg');
    SplitAfterLastUpper(a, b, "|" + msg, "|" + msg');
    assert msg == ("|" + msg)[1..] && msg' == ("|" + msg')[1..];
    SplitAtLastBar(front, front', k, k');
    CategoryNamesDiffer(c, c');
  }

  /** `longer` is some text, a bar and `shorter`. */
  predicate EndsInLevel(longer: string, shorter: string) {
    |longer| > |shorter| && longer[|longer| - |shorter| - 1..] == "|" + shorter
  }

  /** No level of the set ends in a bar and another level of the set. */
  ghost predicate NoLevelEndsInAnother(levels: set<string>) {
    forall l, l' | l in levels && l' in levels :: !EndsInLevel(l, l')
  }

  /** Over these levels, the classifier's categories and texts without upper-case letters, the joined string
      determines all four parts. */
  ghost predicate UniquelyDecodable(levels: set<string>) {
    forall app, level, c, msg, app', level', c', msg' |
      && level in levels && level' in levels && NoUpper(msg) && NoUpper(msg')
      && PreImage(app, level, CategoryName(c), msg) == PreImage(app', level', CategoryName(c'), msg') ::
      app == app' && level == level' && c == c' && msg == msg'
  }

  lemma DropFront(a: string, b: string, n: nat)
    requires |a| <= n <= |a| + |b|
    ensures (a + b)[n..] == b[n - |a|..]
  {
  }

  lemma SplitAtLevel(app: string, level: string, app': string, level': string)
    requires app + "|" + level == app' + "|" + level' && |level| >= |level'|
    ensures (app == app' && level == level') || EndsInLevel(level, level')
  {
    var s := app + "|" + level;
    var n := |app'|;
    DropFront(app', "|" + level', n);
    assert s == app' + ("|" + level') && ("|" + level')[0..] == "|" + level';
    if |level| == |level'| {
      assert app == s[..n] == app';
      DropFront(app + "|", level, n + 1);
      DropFront(app' + "|", level', n + 1);
      assert level[0..] == level && level'[0..] == level';
    } else {
      DropFront(app + "|", level, n);
    }
  }

  /** Two different pairs with one joined string: the text before the last bar of the longer level can
      belong to the application just as well. */
  lemma LevelsCollide(x: string, l: string, app: string, c: Category, msg: string)
    ensures PreImage(app + "|" + x, l, CategoryName(c), msg) == PreImage(app, x + "|" + l, CategoryName(c), msg)
  {
    hide CategoryName;
    assert (app + "|" + x) + "|" + l == app + "|" + (x + "|" + l);
  }

  /** For any set of levels: every joined string decodes uniquely, although names and messages may hold bars,
      if and only if no level is some text, a bar and another level of the set. */
  lemma UniquelyDecodableIff(levels: set<string>)
    ensures UniquelyDecodable(levels) <==> NoLevelEndsInAnother(levels)
  {
    hide CategoryName, PreImage, EndsInLevel;
    if NoLevelEndsInAnother(levels) {
      forall app, level, c, msg, app', level', c', msg' |
        && level in levels && level' in levels && NoUpper(msg) && NoUpper(msg')
        && PreImage(app, level, CategoryName(c), msg) == PreImage(app', level', CategoryName(c'), msg')
        ensures app == app' && level == level' && c == c' && msg == msg'
      {
        FrontCategoryAndMessage(app, level, c, msg, app', level', c', msg');
        if |level| >= |level'| {
          SplitAtLevel(app, level, app', level');
        } else {
          SplitAtLevel(app', level', app, level);
        }
      }
    } else {
      var longer, l :| longer in levels && l in levels && EndsInLevel(longer, l);
      var x := PrefixOfLevel(longer, l);
      LevelsCollide(x, l, "", UnknownError, "");
      assert |longer| > |l|;
    }
  }

  lemma PrefixOfLevel(longer: string, shorter: string) returns (x: string)
    requires EndsInLevel(longer, shorter)
    ensures longer == x + "|" + shorter
  {
    x := longer[..|longer| - |shorter| - 1];
    assert longer == x + longer[|x|..];
  }

  lemma EndingHasBar(longer: string, shorter: string)
    ensures EndsInLevel(longer, shorter) ==> '|' in longer
  {
    if EndsInLevel(longer, shorter) {
      assert longer[|longer| - |shorter| - 1] == ("|" + shorter)[0];
    }
  }

  lemma LevelText(level: string)
    requires level in LEVELS
    ensures '|' !in level
  {
    assert level == "INFO" || level == "WARN" || level == "ERROR" || level == "CRITICAL";
  }

  lemma GatewayLevelsAreApart()
    ensures NoLevelEndsInAnother(LEVELS)
  {
    hide EndsInLevel;
    forall l, l' | l in LEVELS && l' in LEVELS ensures !EndsInLevel(l, l') {
      LevelText(l);
      EndingHasBar(l, l');
    }
  }

  /** Over the gateway's levels the joined string determines all four parts, although names and messages may
      hold bars. */
  lemma PreImageIsUniquelyDecodable(app: string, level: string, c: Category, msg: string,
                                    app': string, level': string, c': Category, msg': string)
    requires level in LEVELS && level' in LEVELS
    requires NoUpper(msg) && NoUpper(msg')
    requires PreImage(app, level, CategoryName(c), msg) == PreImage(app', level', CategoryName(c'), msg')
    ensures app == app' && level == level' && c == c' && msg == msg'
  {
    hide CategoryName, PreImage;
    GatewayLevelsAreApart();
    UniquelyDecodableIff(LEVELS);
  }

  function FingerprintOf(app: string, level: string, message: string): string {
    var normalized := Normalized(message);
    PreImage(app, level, CategoryName(Classify(normalized)), normalized)
  }

  /** Two logs share a fingerprint exactly when application, level and normal form agree. */
  lemma SameFingerprintIff(app: string, level: string, message: string, app': string, level': string, message': string)
    requires level in LEVELS && level' in LEVELS
    ensures FingerprintOf(app, level, message) == FingerprintOf(app', level', message')
       <==> app == app' && level == level' && Normalized(message) == Normalized(message')
  {
    NormalFormHasNoUpper(message);
    NormalFormHasNoUpper(message');
    if FingerprintOf(app, level, message) == FingerprintOf(app', level', message') {
      var n, n' := Normalized(message), Normalized(message');
      PreImageIsUniquelyDecodable(app, level, Classify(n), n, app', level', Classify(n'), n');
    }
  }

  /** Levels outside the gateway's list can make different logs collide: whatever the category and the message,
      "a|b" at level "c" and "a" at level "b|c" share the joined string. */
  lemma FreeLevelsCollide(c: Category, msg: string)
    ensures PreImage("a|b", "c", CategoryName(c), msg) == PreImage("a", "b|c", CategoryName(c), msg)
    ensures !UniquelyDecodable({"c", "b|c"})
  {
    hide CategoryName, PreImage;
    LevelsCollide("b", "c", "a", c, msg);
    assert "a" + "|" + "b" == "a|b" && "b" + "|" + "c" == "b|c";
    assert EndsInLevel("b|c", "c") by {
      assert "b|c"[1..] == "|" + "c";
    }
    UniquelyDecodableIff({"c", "b|c"});
  }
}

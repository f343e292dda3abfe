/** ASCII text: the parts of Go's `strings` and `unicode` packages that normalisation uses. */
module Text {
  predicate IsDigit(c: char) { '0' <= c <= '9' }

  predicate IsLowerCase(c: char) { 'a' <= c <= 'z' }

  predicate IsUpperCase(c: char) { 'A' <= c <= 'Z' }

  predicate IsLetter(c: char) { IsLowerCase(c) || IsUpperCase(c) }

  predicate IsAlnum(c: char) { IsLetter(c) || IsDigit(c) }

  predicate IsSpace(c: char) { c == ' ' || 9 as char <= c <= 13 as char }

  predicate SpaceFree(s: string) { forall c | c in s :: !IsSpace(c) }

  predicate NoUpper(s: string) { forall c | c in s :: !IsUpperCase(c) }

  function LowerChar(c: char): (d: char)
    ensures !IsUpperCase(d)
    ensures IsAlnum(d) == IsAlnum(c) && IsDigit(d) == IsDigit(c) && IsSpace(d) == IsSpace(c)
  {
    if IsUpperCase(c) then (c as int + 32) as char else c
  }

  /** `strings.ToLower` on ASCII text. */
  function ToLower(s: string): (t: string)
    ensures |t| == |s|
    ensures forall i :: 0 <= i < |s| ==> t[i] == LowerChar(s[i])
  {
    if s == "" then "" else [LowerChar(s[0])] + ToLower(s[1..])
  }

  lemma LowerConcat(a: string, b: string)
    ensures ToLower(a + b) == ToLower(a) + ToLower(b)
  {
  }

  lemma LowerIsNoUpper(s: string)
    ensures NoUpper(ToLower(s))
    ensures SpaceFree(s) ==> SpaceFree(ToLower(s))
    ensures NoUpper(s) ==> ToLower(s) == s
  {
    forall c | c in ToLower(s)
      ensures !IsUpperCase(c) && (SpaceFree(s) ==> !IsSpace(c))
    {
      var i :| 0 <= i < |s| && ToLower(s)[i] == c;
      assert s[i] in s;
    }
    if NoUpper(s) {
      forall i | 0 <= i < |s|
        ensures ToLower(s)[i] == s[i]
      {
        assert s[i] in s;
      }
    }
  }

  /** `strings.TrimSpace`. */
  function TrimSpace(s: string): string {
    TrimRight(TrimLeft(s))
  }

  function TrimLeft(s: string): string {
    if s != "" && IsSpace(s[0]) then TrimLeft(s[1..]) else s
  }

  function TrimRight(s: string): string {
    if s != "" && IsSpace(s[|s| - 1]) then TrimRight(s[..|s| - 1]) else s
  }

  predicate Trimmed(s: string) {
    s != "" && !IsSpace(s[0]) && !IsSpace(s[|s| - 1])
  }

  lemma {:induction false} TrimLeftTrims(s: string)
    ensures TrimLeft(s) != "" ==> !IsSpace(TrimLeft(s)[0])
  {
    if s != "" && IsSpace(s[0]) {
      TrimLeftTrims(s[1..]);
    }
  }

  lemma {:induction false} TrimRightTrims(s: string)
    ensures TrimRight(s) <= s
    ensures TrimRight(s) != "" ==> !IsSpace(TrimRight(s)[|TrimRight(s)| - 1])
  {
    if s != "" && IsSpace(s[|s| - 1]) {
      TrimRightTrims(s[..|s| - 1]);
    }
  }

  /** What `TrimSpace` returns is empty or begins and ends with a non-space, and such a text is unchanged. */
  lemma TrimSpaceTrims(s: string)
    ensures TrimSpace(s) == "" || Trimmed(TrimSpace(s))
    ensures TrimSpace(s) == s <==> s == "" || Trimmed(s)
  {
    TrimLeftTrims(s);
    TrimRightTrims(TrimLeft(s));
  }

  /** `strings.Fields`: the maximal space-free substrings, left to right. */
  function Fields(s: string): seq<string> {
    FieldsFrom(s, "")
  }

  function FieldsFrom(s: string, current: string): seq<string> {
    var done := if current == "" then [] else [current];
    if s == "" then done
    else if IsSpace(s[0]) then done + FieldsFrom(s[1..], "")
    else FieldsFrom(s[1..], current + [s[0]])
  }

  /** `strings.Join(words, " ")`. */
  function Join(words: seq<string>): string {
    if words == [] then ""
    else if |words| == 1 then words[0]
    else words[0] + " " + Join(words[1..])
  }

  predicate IsWordList(words: seq<string>) {
    forall w | w in words :: w != "" && SpaceFree(w)
  }

  lemma {:induction false} FieldsAreWords(s: string, current: string)
    requires SpaceFree(current)
    ensures IsWordList(FieldsFrom(s, current))
    decreases |s|
  {
    if s == "" {
    } else if IsSpace(s[0]) {
      FieldsAreWords(s[1..], "");
    } else {
      FieldsAreWords(s[1..], current + [s[0]]);
    }
  }

  lemma {:induction false} FieldsOfWord(w: string, rest: string, current: string)
    requires SpaceFree(w)
    ensures FieldsFrom(w + rest, current) == FieldsFrom(rest, current + w)
    decreases |w|
  {
    if w == "" {
      assert w + rest == rest && current + w == current;
    } else {
      assert w[0] in w;
      assert (w + rest)[1..] == w[1..] + rest;
      FieldsOfWord(w[1..], rest, current + [w[0]]);
      assert current + [w[0]] + w[1..] == current + w;
    }
  }

  /** Joining words with single spaces and splitting again gives the words back. */
  lemma {:induction false} FieldsOfJoin(words: seq<string>)
    requires IsWordList(words)
    ensures Fields(Join(words)) == words
  {
    if words == [] {
    } else if |words| == 1 {
      FieldsOfWord(words[0], "", "");
      assert words[0] + "" == words[0] && "" + words[0] == words[0];
    } else {
      var tail := words[1..];
      forall w | w in tail ensures w != "" && SpaceFree(w) { assert w in words; }
      FieldsOfJoin(tail);
      assert Join(words) == words[0] + (" " + Join(tail));
      FieldsOfWord(words[0], " " + Join(tail), "");
      assert "" + words[0] == words[0];
      assert (" " + Join(tail))[1..] == Join(tail);
    }
  }

  lemma {:induction false} FieldsOfTrimLeft(s: string)
    ensures Fields(TrimLeft(s)) == Fields(s)
  {
    if s != "" && IsSpace(s[0]) {
      FieldsOfTrimLeft(s[1..]);
    }
  }

  lemma {:induction false} FieldsOfTrailingSpace(s: string, c: char, current: string)
    requires IsSpace(c)
    ensures FieldsFrom(s + [c], current) == FieldsFrom(s, current)
    decreases |s|
  {
    if s == "" {
      assert s + [c] == [c];
      assert [c][1..] == "";
    } else {
      assert (s + [c])[1..] == s[1..] + [c];
      if IsSpace(s[0]) {
        FieldsOfTrailingSpace(s[1..], c, "");
      } else {
        FieldsOfTrailingSpace(s[1..], c, current + [s[0]]);
      }
    }
  }

  lemma {:induction false} FieldsOfTrimRight(s: string)
    ensures Fields(TrimRight(s)) == Fields(s)
  {
    if s != "" && IsSpace(s[|s| - 1]) {
      FieldsOfTrimRight(s[..|s| - 1]);
      FieldsOfTrailingSpace(s[..|s| - 1], s[|s| - 1], "");
      assert s == s[..|s| - 1] + [s[|s| - 1]];
    }
  }

  /** Trimming first does not change the fields. */
  lemma FieldsOfTrim(s: string)
    ensures Fields(TrimSpace(s)) == Fields(s)
  {
    FieldsOfTrimLeft(s);
    FieldsOfTrimRight(TrimLeft(s));
  }
}

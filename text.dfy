/**
 * The Python string built-ins the generator relies on: `str.strip()`,
 * `str.count`, `str.split` on a one-character separator and `str.title()`.
 */
module Text {

  /** Python's `str.isspace()`: the code points `str.strip()` removes. */
  predicate IsSpace(c: char) {
    || ('\t' <= c <= '\r')
    || ('\U{1C}' <= c <= '\U{1F}')
    || c == ' '
    || c == '\U{85}'
    || c == '\U{A0}'
    || c == '\U{1680}'
    || ('\U{2000}' <= c <= '\U{200A}')
    || c == '\U{2028}'
    || c == '\U{2029}'
    || c == '\U{202F}'
    || c == '\U{205F}'
    || c == '\U{3000}'
  }

  /** The position of the first non-whitespace character at or after `i`, or `|s|`. */
  function Lead(s: string, i: nat): (a: nat)
    requires i <= |s|
    ensures i <= a <= |s|
    ensures forall j | i <= j < a :: IsSpace(s[j])
    ensures a == |s| || !IsSpace(s[a])
    decreases |s| - i
  {
    if i < |s| && IsSpace(s[i]) then Lead(s, i + 1) else i
  }

  /** The end of `s[a..b]` once its trailing whitespace is dropped. */
  function Trail(s: string, a: nat, b: nat): (e: nat)
    requires a <= b <= |s|
    ensures a <= e <= b
    ensures forall j | e <= j < b :: IsSpace(s[j])
    ensures e == a || !IsSpace(s[e - 1])
    decreases b - a
  {
    if a < b && IsSpace(s[b - 1]) then Trail(s, a, b - 1) else b
  }

  /** A string made of whitespace only (the empty string included). */
  predicate Blank(s: string) {
    forall i | 0 <= i < |s| :: IsSpace(s[i])
  }

  /**
   * `str.strip()`: the line without its leading and trailing whitespace.
   * The result is empty exactly when the line is blank; otherwise it starts
   * and ends with a non-whitespace character, and it is the slice of the line
   * that begins at the first such character with only whitespace after it.
   */
  function Strip(s: string): (r: string)
    ensures r == [] <==> Blank(s)
    ensures r != [] ==> !IsSpace(r[0]) && !IsSpace(r[|r| - 1])
    ensures var a := Lead(s, 0);
            && a + |r| <= |s|
            && r == s[a..a + |r|]
            && (forall j | 0 <= j < a :: IsSpace(s[j]))
            && (forall j | a + |r| <= j < |s| :: IsSpace(s[j]))
  {
    var a := Lead(s, 0);
    var e := Trail(s, a, |s|);
    StripBlank(s, a, e);
    s[a..e]
  }

  lemma {:induction false} StripBlank(s: string, a: nat, e: nat)
    requires a == Lead(s, 0) && e == Trail(s, a, |s|)
    ensures a == e <==> Blank(s)
  {
    if a != e {
      assert !IsSpace(s[e - 1]);
    }
  }

  /** `s.count(c)` for a one-character `c`. */
  function CountChar(s: string, c: char): (n: nat)
    ensures n <= |s|
    ensures n == 0 <==> c !in s
    ensures n == multiset(s)[c]
  {
    assert s != [] ==> s == [s[0]] + s[1..];
    if s == [] then 0
    else (if s[0] == c then 1 else 0) + CountChar(s[1..], c)
  }

  /**
   * `s.split(sep)` for a one-character separator: one piece more than there
   * are separators, and no piece contains the separator.
   */
  function SplitOn(s: string, sep: char): (r: seq<string>)
    ensures |r| == CountChar(s, sep) + 1
    ensures forall i | 0 <= i < |r| :: sep !in r[i]
  {
    if s == [] then [[]]
    else
      var rest := SplitOn(s[1..], sep);
      if s[0] == sep then [[]] + rest
      else [[s[0]] + rest[0]] + rest[1..]
  }

  /** `sep.join(pieces)`. */
  function Join(pieces: seq<string>, sep: char): string
    requires |pieces| > 0
  {
    if |pieces| == 1 then pieces[0] else pieces[0] + [sep] + Join(pieces[1..], sep)
  }

  /** Splitting and joining again gives back the string. */
  lemma {:induction false} JoinSplitOn(s: string, sep: char)
    ensures Join(SplitOn(s, sep), sep) == s
  {
    if s != [] {
      var rest := SplitOn(s[1..], sep);
      JoinSplitOn(s[1..], sep);
      if s[0] == sep {
        assert SplitOn(s, sep) == [[]] + rest;
        calc {
          Join([[]] + rest, sep);
          { assert ([[]] + rest)[1..] == rest; }
          [] + [sep] + Join(rest, sep);
          { assert [sep] + s[1..] == s; }
          s;
        }
      } else {
        assert SplitOn(s, sep) == [[s[0]] + rest[0]] + rest[1..];
        calc {
          Join([[s[0]] + rest[0]] + rest[1..], sep);
          { JoinCons(s[0], rest, sep); }
          [s[0]] + Join(rest, sep);
          { assert [s[0]] + s[1..] == s; }
          s;
        }
      }
    }
  }

  /** Gluing a character onto the first piece glues it onto the joined string. */
  lemma {:induction false} JoinCons(c: char, rest: seq<string>, sep: char)
    requires |rest| > 0
    ensures Join([[c] + rest[0]] + rest[1..], sep) == [c] + Join(rest, sep)
  {
    var r := [[c] + rest[0]] + rest[1..];
    if |rest| > 1 {
      var j := Join(rest[1..], sep);
      assert r[1..] == rest[1..];
      assert ([c] + rest[0]) + [sep] + j == [c] + (rest[0] + [sep] + j);
    }
  }

  lemma {:induction false} SplitOnFree(x: string, sep: char)
    requires sep !in x
    ensures SplitOn(x, sep) == [x]
  {
    if x != [] {
      SplitOnFree(x[1..], sep);
      assert [x[0]] + x[1..] == x;
    }
  }

  lemma {:induction false} SplitOnFirst(x: string, y: string, sep: char)
    requires sep !in x
    ensures SplitOn(x + [sep] + y, sep) == [x] + SplitOn(y, sep)
  {
    if x != [] {
      assert (x + [sep] + y)[1..] == x[1..] + [sep] + y;
      SplitOnFirst(x[1..], y, sep);
      assert [x[0]] + x[1..] == x;
    } else {
      assert (x + [sep] + y)[1..] == y;
    }
  }

  /** Joining pieces free of the separator and splitting again gives back the pieces. */
  lemma {:induction false} SplitOnJoin(pieces: seq<string>, sep: char)
    requires |pieces| > 0
    requires forall i | 0 <= i < |pieces| :: sep !in pieces[i]
    ensures SplitOn(Join(pieces, sep), sep) == pieces
  {
    if |pieces| == 1 {
      SplitOnFree(pieces[0], sep);
    } else {
      SplitOnJoin(pieces[1..], sep);
      SplitOnFirst(pieces[0], Join(pieces[1..], sep), sep);
      assert pieces == [pieces[0]] + pieces[1..];
    }
  }

  predicate IsUpper(c: char) { 'A' <= c <= 'Z' }
  predicate IsLower(c: char) { 'a' <= c <= 'z' }

  /** The characters `str.title()` treats as cased (ASCII letters in this model). */
  predicate IsCased(c: char) { IsUpper(c) || IsLower(c) }

  function ToUpper(c: char): char {
    if IsLower(c) then (c as int - 32) as char else c
  }

  function ToLower(c: char): char {
    if IsUpper(c) then (c as int + 32) as char else c
  }

  /**
   * `str.title()` as CPython computes it: one pass that remembers whether
   * the previous character was cased, lower-casing a cased character after
   * a cased one and upper-casing it otherwise.
   */
  function TitleFrom(s: string, previousIsCased: bool): (r: string)
    ensures |r| == |s|
  {
    if s == [] then []
    else
      var c := if !IsCased(s[0]) then s[0]
               else if previousIsCased then ToLower(s[0])
               else ToUpper(s[0]);
      [c] + TitleFrom(s[1..], IsCased(s[0]))
  }

  function Title(s: string): (r: string)
    ensures |r| == |s|
  {
    TitleFrom(s, false)
  }

  /** The rule `str.title()` is documented by: a word starts upper-case, the rest of it is lower-case. */
  function TitleAt(s: string, i: nat): char
    requires i < |s|
  {
    if !IsCased(s[i]) then s[i]
    else if i > 0 && IsCased(s[i - 1]) then ToLower(s[i])
    else ToUpper(s[i])
  }

  lemma {:induction false} TitleFromAt(s: string, previousIsCased: bool, i: nat)
    requires i < |s|
    ensures TitleFrom(s, previousIsCased)[i] ==
            if i == 0 && IsCased(s[0]) && previousIsCased then ToLower(s[0])
            else TitleAt(s, i)
  {
    if i > 0 {
      TitleFromAt(s[1..], IsCased(s[0]), i - 1);
    }
  }

  /** Each character of the title-cased string follows the word rule. */
  lemma {:induction false} TitleIsWordRule(s: string)
    ensures forall i | 0 <= i < |s| :: Title(s)[i] == TitleAt(s, i)
  {
    forall i | 0 <= i < |s| ensures Title(s)[i] == TitleAt(s, i) {
      TitleFromAt(s, false, i);
    }
  }

  /** Title-casing is idempotent. */
  lemma {:induction false} TitleIdempotent(s: string)
    ensures Title(Title(s)) == Title(s)
  {
    var t := Title(s);
    TitleIsWordRule(s);
    TitleIsWordRule(t);
    forall i | 0 <= i < |s| ensures Title(t)[i] == t[i] {
      assert IsCased(t[i]) == IsCased(s[i]);
      if i > 0 {
        assert IsCased(t[i - 1]) == IsCased(s[i - 1]);
      }
    }
  }

  /** A word of lower-case letters only gets its first letter upper-cased. */
  lemma {:induction false} TitleOfLowerWord(s: string)
    requires s != []
    requires forall i | 0 <= i < |s| :: IsLower(s[i])
    ensures Title(s) == [ToUpper(s[0])] + s[1..]
  {
    TitleIsWordRule(s);
  }
}

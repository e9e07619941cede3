/**
 * The handful of Python string operations the modelled code relies on:
 * `str.split()` with no argument, `sep.join(...)`, `str.strip()`, slicing
 * with clamped bounds, `str.lower()`, `str.title()`, the `in` test on
 * strings and decimal rendering of integers.
 */
module Text {

  /** Python's `str.isspace()` for one character (the set `str.split()` and `str.strip()` use). */
  predicate IsSpace(c: char) {
    c == ' ' || ('\U{9}' <= c <= '\U{D}') || ('\U{1C}' <= c <= '\U{1F}')
    || c == '\U{85}' || c == '\U{A0}' || c == '\U{1680}' || ('\U{2000}' <= c <= '\U{200A}')
    || c == '\U{2028}' || c == '\U{2029}' || c == '\U{202F}' || c == '\U{205F}' || c == '\U{3000}'
  }

  predicate NoSpace(s: string) {
    forall i :: 0 <= i < |s| ==> !IsSpace(s[i])
  }

  /** A word as `str.split()` yields it: non-empty and free of whitespace. */
  predicate IsWord(w: string) {
    w != [] && NoSpace(w)
  }

  /** `s.lstrip()` */
  function LStrip(s: string): (r: string)
    ensures |r| <= |s|
    ensures r == [] || !IsSpace(r[0])
    decreases |s|
  {
    if s != [] && IsSpace(s[0]) then LStrip(s[1..]) else s
  }

  /** `s.rstrip()` */
  function RStrip(s: string): (r: string)
    ensures |r| <= |s|
    decreases |s|
  {
    if s != [] && IsSpace(s[|s| - 1]) then RStrip(s[..|s| - 1]) else s
  }

  /** `s.strip()` */
  function Strip(s: string): string {
    RStrip(LStrip(s))
  }

  /** The longest prefix of `s` that holds no whitespace. */
  function WordPrefix(s: string): (w: string)
    ensures |w| <= |s|
    ensures s != [] && !IsSpace(s[0]) ==> w != []
  {
    if s == [] || IsSpace(s[0]) then [] else [s[0]] + WordPrefix(s[1..])
  }

  lemma {:induction false} WordPrefixNoSpace(s: string)
    ensures NoSpace(WordPrefix(s))
  {
    if s != [] && !IsSpace(s[0]) {
      WordPrefixNoSpace(s[1..]);
      var w := WordPrefix(s[1..]);
      assert WordPrefix(s) == [s[0]] + w;
      forall i | 0 <= i < |WordPrefix(s)|
        ensures !IsSpace(WordPrefix(s)[i])
      {
        if i > 0 {
          assert WordPrefix(s)[i] == w[i - 1];
        }
      }
    }
  }

  /** `s.split()`: the maximal runs of non-whitespace characters, in order. */
  function Words(s: string): seq<string>
    decreases |s|
  {
    var t := LStrip(s);
    if t == [] then []
    else
      var w := WordPrefix(t);
      [w] + Words(t[|w|..])
  }

  /** Every piece `str.split()` yields is a word. */
  lemma {:induction false} WordsAreWords(s: string)
    ensures forall i :: 0 <= i < |Words(s)| ==> IsWord(Words(s)[i])
    decreases |s|
  {
    var t := LStrip(s);
    if t != [] {
      var w := WordPrefix(t);
      WordPrefixNoSpace(t);
      var rest := Words(t[|w|..]);
      WordsAreWords(t[|w|..]);
      assert Words(s) == [w] + rest;
      forall i | 0 <= i < |Words(s)|
        ensures IsWord(Words(s)[i])
      {
        if i > 0 {
          assert Words(s)[i] == rest[i - 1];
        }
      }
    }
  }

  lemma WordAt(s: string, i: nat)
    requires i < |Words(s)|
    ensures IsWord(Words(s)[i])
  {
    WordsAreWords(s);
  }

  /** `sep.join(ws)` */
  function Join(ws: seq<string>, sep: string): string {
    if |ws| == 0 then ""
    else if |ws| == 1 then ws[0]
    else ws[0] + sep + Join(ws[1..], sep)
  }

  /** `s[a:b]` for non-negative bounds: out-of-range bounds are clamped, a reversed range is empty. */
  function Slice(s: string, a: nat, b: nat): (r: string)
    ensures |r| <= |s|
    ensures a <= b <= |s| ==> r == s[a..b]
  {
    var hi := if b <= |s| then b else |s|;
    if a < hi then s[a..hi] else ""
  }

  /** `s[:n]` for a sequence. */
  function Prefix<T>(s: seq<T>, n: nat): (r: seq<T>)
    ensures |r| == (if n <= |s| then n else |s|) && r == s[..|r|]
  {
    if n <= |s| then s[..n] else s
  }

  predicate StartsWith(s: string, p: string) {
    |p| <= |s| && s[..|p|] == p
  }

  /** Python's `t in s` for strings. */
  predicate Contains(s: string, t: string)
    decreases |s|
  {
    StartsWith(s, t) || (s != [] && Contains(s[1..], t))
  }

  predicate IsUpper(c: char) { 'A' <= c <= 'Z' }
  predicate IsLower(c: char) { 'a' <= c <= 'z' }
  predicate IsLetter(c: char) { IsUpper(c) || IsLower(c) }

  function LowerChar(c: char): char {
    if IsUpper(c) then (c as int + 32) as char else c
  }

  function UpperChar(c: char): char {
    if IsLower(c) then (c as int - 32) as char else c
  }

  /** `s.lower()` on ASCII letters; every other character is kept. */
  function Lower(s: string): (r: string)
    ensures |r| == |s| && forall i :: 0 <= i < |s| ==> r[i] == LowerChar(s[i])
  {
    seq(|s|, i requires 0 <= i < |s| => LowerChar(s[i]))
  }

  /** `s.title()` on ASCII letters: a letter is upper-cased after a non-letter, lower-cased after a letter. */
  function Title(s: string): string {
    TitleAfter(s, false)
  }

  function TitleAfter(s: string, afterLetter: bool): (r: string)
    ensures |r| == |s|
  {
    if s == [] then []
    else
      var c := s[0];
      var c' := if !IsLetter(c) then c else if afterLetter then LowerChar(c) else UpperChar(c);
      [c'] + TitleAfter(s[1..], IsLetter(c))
  }

  /** Decimal rendering of a natural number (`str(n)`, `f"{n}"`). */
  function NatToString(n: nat): (s: string)
    ensures s != [] && forall i :: 0 <= i < |s| ==> '0' <= s[i] <= '9'
  {
    if n < 10 then ["0123456789"[n]] else NatToString(n / 10) + ["0123456789"[n % 10]]
  }

  // ---------------------------------------------------------------------
  // Facts about splitting, joining and stripping
  // ---------------------------------------------------------------------

  lemma WordPrefixOfWord(w: string, rest: string)
    requires NoSpace(w)
    requires rest == [] || IsSpace(rest[0])
    ensures WordPrefix(w + rest) == w
  {
    if w != [] {
      assert (w + rest)[1..] == w[1..] + rest;
      WordPrefixOfWord(w[1..], rest);
    } else {
      assert w + rest == rest;
    }
  }

  lemma WordsAfterSpace(s: string)
    ensures Words(" " + s) == Words(s)
  {
    assert (" " + s)[1..] == s;
  }

  lemma WordsOfWord(w: string)
    requires IsWord(w)
    ensures Words(w) == [w]
  {
    WordPrefixOfWord(w, "");
    assert w + "" == w;
  }

  /** Unfolding `Words` on a string that starts with a word. */
  lemma WordsStep(s: string)
    requires s != [] && !IsSpace(s[0])
    ensures Words(s) == [WordPrefix(s)] + Words(s[|WordPrefix(s)|..])
  {
  }

  /** A word followed by a space splits off as the first word. */
  lemma WordsOfWordThenSpace(w: string, rest: string)
    requires IsWord(w)
    ensures Words(w + (" " + rest)) == [w] + Words(rest)
  {
    var s := w + (" " + rest);
    assert s[0] == w[0];
    WordPrefixOfWord(w, " " + rest);
    WordsStep(s);
    assert s[|w|..] == " " + rest;
    WordsAfterSpace(rest);
  }

  /** The join of two or more words is the first word, a space and the join of the rest. */
  lemma JoinCons(ws: seq<string>, sep: string)
    requires |ws| > 1
    ensures Join(ws, sep) == ws[0] + (sep + Join(ws[1..], sep))
  {
  }

  /** Splitting the single-space join of words gives back the words. */
  lemma {:induction false} WordsOfJoin(ws: seq<string>)
    requires forall i :: 0 <= i < |ws| ==> IsWord(ws[i])
    ensures Words(Join(ws, " ")) == ws
  {
    if |ws| == 0 {
      assert Join(ws, " ") == "";
    } else if |ws| == 1 {
      assert Join(ws, " ") == ws[0];
      WordsOfWord(ws[0]);
    } else {
      var rest := ws[1..];
      assert forall i :: 0 <= i < |rest| ==> rest[i] == ws[i + 1];
      WordsOfJoin(rest);
      JoinCons(ws, " ");
      WordsOfWordThenSpace(ws[0], Join(rest, " "));
      HeadTail(ws);
    }
  }

  lemma HeadTail<T>(s: seq<T>)
    requires |s| > 0
    ensures s == [s[0]] + s[1..]
  {
  }

  /** The join of one or more words starts with a non-space character. */
  lemma {:induction false} JoinStartsWithWord(ws: seq<string>, sep: string)
    requires |ws| > 0 && IsWord(ws[0])
    ensures Join(ws, sep) != [] && Join(ws, sep)[0] == ws[0][0]
  {
  }

  lemma {:induction false} RStripKeepsFirst(s: string)
    requires s != [] && !IsSpace(s[0])
    ensures RStrip(s) != []
    decreases |s|
  {
    if IsSpace(s[|s| - 1]) {
      RStripKeepsFirst(s[..|s| - 1]);
    }
  }

  /** A string that starts with a non-space character survives `strip()`. */
  lemma StripNonEmpty(s: string)
    requires s != [] && !IsSpace(s[0])
    ensures Strip(s) != []
  {
    RStripKeepsFirst(s);
  }

  /** A string that is not blank has at least one word. */
  lemma NonBlankHasWords(s: string)
    requires Strip(s) != []
    ensures Words(s) != []
  {
  }

  /** A string occurs in any string that has it in the middle. */
  lemma {:induction false} ContainsMiddle(a: string, b: string, c: string)
    ensures Contains(a + b + c, b)
    decreases |a|
  {
    if a == [] {
      assert a + b + c == b + c;
      assert (b + c)[..|b|] == b;
    } else {
      assert (a + b + c)[1..] == a[1..] + b + c;
      ContainsMiddle(a[1..], b, c);
    }
  }

  /** A string contains every string that occurs at some position in it. */
  lemma {:induction false} ContainsAt(s: string, t: string, i: nat)
    requires i + |t| <= |s| && s[i..i + |t|] == t
    ensures Contains(s, t)
    decreases i
  {
    if i > 0 {
      assert s[1..][i - 1..i - 1 + |t|] == s[i..i + |t|];
      ContainsAt(s[1..], t, i - 1);
    }
  }

  /** a + b + c + d + e starts with a and contains c and e. */
  lemma PiecesOfConcat(a: string, b: string, c: string, d: string, e: string)
    ensures StartsWith(a + b + c + d + e, a)
    ensures Contains(a + b + c + d + e, c) && Contains(a + b + c + d + e, e)
  {
    var s := a + b + c + d + e;
    assert s[..|a|] == a;
    assert s[|a| + |b|..|a| + |b| + |c|] == c;
    ContainsAt(s, c, |a| + |b|);
    assert s[|s| - |e|..|s|] == e;
    ContainsAt(s, e, |s| - |e|);
  }

  /** `any(t in s for t in terms)` */
  predicate ContainsAny(s: string, terms: seq<string>)
    decreases |terms|
  {
    terms != [] && (Contains(s, terms[0]) || ContainsAny(s, terms[1..]))
  }

  /** t matches s at position i from t's index j on, compared character by character. */
  predicate MatchesAt(s: string, t: string, i: nat, j: nat)
    requires i + |t| <= |s| && j <= |t|
    decreases |t| - j
  {
    j == |t| || (s[i + j] == t[j] && MatchesAt(s, t, i, j + 1))
  }

  /** t occurs in s at position i or later: a form of `Contains` that unfolds on literals. */
  predicate OccursFrom(s: string, t: string, i: nat)
    decreases |s| - i
  {
    i + |t| <= |s| && (MatchesAt(s, t, i, 0) || OccursFrom(s, t, i + 1))
  }

  lemma {:induction false} MatchesAtSpec(s: string, t: string, i: nat, j: nat)
    requires i + |t| <= |s| && j <= |t|
    ensures MatchesAt(s, t, i, j) <==> s[i + j..i + |t|] == t[j..]
    decreases |t| - j
  {
    if j < |t| {
      MatchesAtSpec(s, t, i, j + 1);
      assert s[i + j..i + |t|] == [s[i + j]] + s[i + j + 1..i + |t|];
      assert t[j..] == [t[j]] + t[j + 1..];
    }
  }

  lemma {:induction false} ContainsLength(s: string, t: string)
    requires Contains(s, t)
    ensures |t| <= |s|
    decreases |s|
  {
    if !StartsWith(s, t) {
      ContainsLength(s[1..], t);
    }
  }

  lemma {:induction false} OccursFromSpec(s: string, t: string, i: nat)
    requires i <= |s|
    ensures OccursFrom(s, t, i) <==> Contains(s[i..], t)
    decreases |s| - i
  {
    if i + |t| <= |s| {
      MatchesAtSpec(s, t, i, 0);
      assert s[i..][..|t|] == s[i..i + |t|];
    }
    if Contains(s[i..], t) {
      ContainsLength(s[i..], t);
    }
    if i < |s| {
      assert s[i..][1..] == s[i + 1..];
      OccursFromSpec(s, t, i + 1);
    }
  }

  /** `Contains` decided by the character-wise scan. */
  lemma ContainsByScan(s: string, t: string)
    ensures Contains(s, t) <==> OccursFrom(s, t, 0)
  {
    OccursFromSpec(s, t, 0);
    assert s[0..] == s;
  }

  lemma {:induction false} SomeOccurs(s: string, terms: seq<string>, i: nat)
    requires i < |terms| && OccursFrom(s, terms[i], 0)
    ensures ContainsAny(s, terms)
    decreases i
  {
    if i == 0 {
      ContainsByScan(s, terms[0]);
    } else {
      assert terms[1..][i - 1] == terms[i];
      SomeOccurs(s, terms[1..], i - 1);
    }
  }

  lemma {:induction false} OccursEarlier(s: string, t: string, i: nat, j: nat)
    requires i <= j && OccursFrom(s, t, j)
    ensures OccursFrom(s, t, i)
    decreases j - i
  {
    if i < j {
      OccursEarlier(s, t, i + 1, j);
    }
  }

  /** A string is not contained in one that lacks one of its characters. */
  lemma {:induction false} MissingChar(s: string, t: string, k: nat)
    requires k < |t| && t[k] !in s
    ensures !Contains(s, t)
    decreases |s|
  {
    assert !StartsWith(s, t);
    if s != [] {
      MissingChar(s[1..], t, k);
    }
  }

  lemma {:induction false} NoneContained(s: string, terms: seq<string>)
    requires forall i | 0 <= i < |terms| :: !Contains(s, terms[i])
    ensures !ContainsAny(s, terms)
    decreases |terms|
  {
    if terms != [] {
      assert forall i | 0 <= i < |terms[1..]| :: terms[1..][i] == terms[i + 1];
      NoneContained(s, terms[1..]);
    }
  }

  /** No term occurs in s when each term has a character, at the index given by `at`, that s lacks. */
  lemma LacksAll(s: string, terms: seq<string>, at: seq<nat>)
    requires |at| == |terms|
    requires forall i | 0 <= i < |terms| :: at[i] < |terms[i]| && terms[i][at[i]] !in s
    ensures !ContainsAny(s, terms)
  {
    forall i | 0 <= i < |terms|
      ensures !Contains(s, terms[i])
    {
      MissingChar(s, terms[i], at[i]);
    }
    NoneContained(s, terms);
  }

  lemma {:induction false} ContainsAnyConcat(s: string, a: seq<string>, b: seq<string>)
    ensures ContainsAny(s, a + b) <==> ContainsAny(s, a) || ContainsAny(s, b)
    decreases |a|
  {
    if a != [] {
      assert (a + b)[0] == a[0];
      assert (a + b)[1..] == a[1..] + b;
      ContainsAnyConcat(s, a[1..], b);
    } else {
      assert a + b == b;
    }
  }

  /** The word at the front of a concatenation: it runs into the second part only when the first part is all word. */
  lemma {:induction false} WordPrefixConcat(a: string, r: string)
    ensures WordPrefix(a + r) == if |WordPrefix(a)| < |a| then WordPrefix(a) else a + WordPrefix(r)
    decreases |a|
  {
    if a == [] {
      assert a + r == r;
    } else if !IsSpace(a[0]) {
      assert (a + r)[0] == a[0] && (a + r)[1..] == a[1..] + r;
      WordPrefixConcat(a[1..], r);
    } else {
      assert (a + r)[0] == a[0];
    }
  }

  lemma {:induction false} WordPrefixIsPrefix(s: string)
    ensures WordPrefix(s) == s[..|WordPrefix(s)|]
  {
    if s != [] && !IsSpace(s[0]) {
      WordPrefixIsPrefix(s[1..]);
    }
  }

  /** Leading whitespace does not change the split. */
  lemma WordsSkipSpace(s: string)
    requires s != [] && IsSpace(s[0])
    ensures Words(s) == Words(s[1..])
  {
  }

  /** Splitting two strings joined by a space gives the words of each, in order. */
  lemma {:induction false} WordsOfSpaceJoin(a: string, b: string)
    ensures Words(a + (" " + b)) == Words(a) + Words(b)
    decreases |a|, 1
  {
    var s := a + (" " + b);
    if a == [] {
      assert s == " " + b;
      WordsAfterSpace(b);
    } else if IsSpace(a[0]) {
      assert s[0] == a[0] && s[1..] == a[1..] + (" " + b);
      WordsSkipSpace(s);
      WordsSkipSpace(a);
      WordsOfSpaceJoin(a[1..], b);
    } else {
      WordsOfSpaceJoinWord(a, b);
    }
  }

  /** A space ends the first word. */
  lemma PrefixBeforeSpace(a: string, b: string)
    ensures WordPrefix(a + (" " + b)) == WordPrefix(a)
  {
    var r := " " + b;
    WordPrefixConcat(a, r);
    assert WordPrefix(r) == [];
    WordPrefixIsPrefix(a);
    assert a + [] == a;
  }

  /** The case of `WordsOfSpaceJoin` where the first part starts with a word. */
  lemma {:induction false} WordsOfSpaceJoinWord(a: string, b: string)
    requires a != [] && !IsSpace(a[0])
    ensures Words(a + (" " + b)) == Words(a) + Words(b)
    decreases |a|, 0
  {
    var r := " " + b;
    var s := a + r;
    var w := WordPrefix(a);
    assert s[0] == a[0];
    PrefixBeforeSpace(a, b);
    WordsStep(s);
    WordsStep(a);
    if |w| < |a| {
      var rest := a[|w|..];
      assert s[|w|..] == rest + r;
      WordsOfSpaceJoin(rest, b);
      var x, y := Words(rest), Words(b);
      assert Words(s) == [w] + (x + y);
      assert Words(a) == [w] + x;
      assert [w] + (x + y) == ([w] + x) + y;
    } else {
      assert s[|w|..] == r;
      assert a[|w|..] == [];
      WordsAfterSpace(b);
      assert Words(s) == [w] + Words(b);
      assert Words(a) == [w];
    }
  }

  /** `sum(len(v.split()) for v in vs)` */
  function WordTotal(vs: seq<string>): nat
    decreases |vs|
  {
    if vs == [] then 0 else |Words(vs[0])| + WordTotal(vs[1..])
  }

  /** Counting the words of each string and summing is counting the words of their single-space join. */
  lemma {:induction false} WordsOfSpaceJoinAll(vs: seq<string>)
    ensures |Words(Join(vs, " "))| == WordTotal(vs)
    decreases |vs|
  {
    if |vs| == 1 {
      assert WordTotal(vs[1..]) == 0;
    } else if |vs| > 1 {
      JoinCons(vs, " ");
      WordsOfSpaceJoin(vs[0], Join(vs[1..], " "));
      WordsOfSpaceJoinAll(vs[1..]);
    }
  }

  /** A join starts with its first piece. */
  lemma JoinStartsWith(ws: seq<string>, sep: string)
    requires |ws| > 0
    ensures StartsWith(Join(ws, sep), ws[0])
  {
    if |ws| > 1 {
      JoinCons(ws, sep);
      assert (ws[0] + (sep + Join(ws[1..], sep)))[..|ws[0]|] == ws[0];
    }
  }

  /** Each piece of a join occurs in it. */
  lemma {:induction false} JoinContains(ws: seq<string>, sep: string, i: nat)
    requires i < |ws|
    ensures Contains(Join(ws, sep), ws[i])
    decreases |ws|
  {
    if i == 0 {
      JoinStartsWith(ws, sep);
    } else {
      JoinCons(ws, sep);
      var rest := Join(ws[1..], sep);
      {
        JoinContains(ws[1..], sep, i - 1);
        ContainsSuffix(ws[0] + sep, rest, ws[i]);
        assert ws[0] + (sep + rest) == (ws[0] + sep) + rest;
      }
    }
  }

  /** What a string contains, its extension on the left contains too. */
  lemma {:induction false} ContainsSuffix(p: string, s: string, t: string)
    requires Contains(s, t)
    ensures Contains(p + s, t)
    decreases |p|
  {
    if p != [] {
      assert (p + s)[1..] == p[1..] + s;
      ContainsSuffix(p[1..], s, t);
    } else {
      assert p + s == s;
    }
  }

  /** A join headed by h starts with h and holds each of the pieces after it. */
  lemma JoinAfterHead(h: string, ls: seq<string>, sep: string)
    ensures StartsWith(Join([h] + ls, sep), h)
    ensures forall i :: 0 <= i < |ls| ==> Contains(Join([h] + ls, sep), ls[i])
  {
    var parts := [h] + ls;
    JoinStartsWith(parts, sep);
    forall i | 0 <= i < |ls|
      ensures Contains(Join(parts, sep), ls[i])
    {
      assert parts[i + 1] == ls[i];
      JoinContains(parts, sep, i + 1);
    }
  }
}

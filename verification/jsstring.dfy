/** The few JavaScript string operations the panel relies on, written out so
    that their edge cases are explicit: `trim`, `toLowerCase`, `startsWith`,
    `replace` with a string pattern, `split` on one character and `join`. */
module JsString {
  import opened Wrappers

  /** The ECMAScript WhiteSpace and LineTerminator code points, which `trim` removes. */
  predicate IsWhitespace(c: char) {
    || c == '\t' || c == '\n' || c == '\U{B}' || c == '\U{C}' || c == '\r' || c == ' '
    || c == '\U{A0}' || c == '\U{1680}' || ('\U{2000}' <= c <= '\U{200A}')
    || c == '\U{2028}' || c == '\U{2029}' || c == '\U{202F}' || c == '\U{205F}'
    || c == '\U{3000}' || c == '\U{FEFF}'
  }

  /** Drops leading whitespace. */
  function TrimStart(s: string): (r: string)
    ensures |r| <= |s| && r == s[|s| - |r|..]
    ensures r == [] || !IsWhitespace(r[0])
    ensures forall i :: 0 <= i < |s| - |r| ==> IsWhitespace(s[i])
  {
    if |s| > 0 && IsWhitespace(s[0]) then
      var t := s[1..];
      var r := TrimStart(t);
      assert t[|t| - |r|..] == s[|s| - |r|..];
      assert forall i :: 1 <= i < |s| - |r| ==> s[i] == t[i - 1];
      r
    else s
  }

  /** Drops trailing whitespace. */
  function TrimEnd(s: string): (r: string)
    ensures |r| <= |s| && r == s[..|r|]
    ensures r == [] || !IsWhitespace(r[|r| - 1])
    ensures forall i :: |r| <= i < |s| ==> IsWhitespace(s[i])
  {
    if |s| > 0 && IsWhitespace(s[|s| - 1]) then
      var t := s[..|s| - 1];
      var r := TrimEnd(t);
      assert t[..|r|] == s[..|r|];
      assert forall i :: |r| <= i < |t| ==> s[i] == t[i];
      r
    else s
  }

  /** `s.trim()`: the text between the first and the last non-whitespace
      character (`TrimIsSlice` states that it is a slice of `s`). */
  function Trim(s: string): (r: string)
    ensures r == [] || (!IsWhitespace(r[0]) && !IsWhitespace(r[|r| - 1]))
    ensures r == [] <==> forall i :: 0 <= i < |s| ==> IsWhitespace(s[i])
  {
    TrimEnd(TrimStart(s))
  }

  /** What `trim` removes: the trimmed text is a slice of `s`, and only
      whitespace lies before and after it. */
  lemma TrimIsSlice(s: string)
    ensures exists i, j ::
      && 0 <= i <= j <= |s| && Trim(s) == s[i..j]
      && (forall k :: 0 <= k < i ==> IsWhitespace(s[k]))
      && (forall k :: j <= k < |s| ==> IsWhitespace(s[k]))
  {
    var t := TrimStart(s);
    var r := TrimEnd(t);
    CutSlice(s, t, r);
    var i := |s| - |t|;
    assert s[i..i + |r|] == r;
  }

  /** Cutting a whitespace prefix off `s`, then a whitespace suffix off what
      remains, leaves a slice of `s` with only whitespace outside it. */
  lemma CutSlice(s: string, t: string, r: string)
    requires |t| <= |s| && t == s[|s| - |t|..]
    requires forall k :: 0 <= k < |s| - |t| ==> IsWhitespace(s[k])
    requires |r| <= |t| && r == t[..|r|]
    requires forall k :: |r| <= k < |t| ==> IsWhitespace(t[k])
    ensures var i := |s| - |t|; r == s[i..i + |r|]
    ensures forall k :: |s| - |t| + |r| <= k < |s| ==> IsWhitespace(s[k])
  {
    var i := |s| - |t|;
    assert t[..|r|] == s[i..i + |r|];
    forall k | i + |r| <= k < |s|
      ensures IsWhitespace(s[k])
    {
      assert s[k] == t[k - i];
    }
  }

  /** `!s.trim()`: the string is empty or whitespace only. */
  predicate IsBlank(s: string) {
    Trim(s) == []
  }

  /** Trimming leaves a string alone exactly when it has no whitespace at either end. */
  lemma TrimFixedPoint(s: string)
    ensures Trim(s) == s <==> (s == [] || (!IsWhitespace(s[0]) && !IsWhitespace(s[|s| - 1])))
  {
    if s != [] && !IsWhitespace(s[0]) && !IsWhitespace(s[|s| - 1]) {
      assert TrimStart(s) == s;
      assert TrimEnd(s) == s;
    }
  }

  /** A line terminated by a newline trims to the line, when the line has no
      whitespace at either end. */
  lemma TrimLineEnd(line: string)
    requires line != [] && !IsWhitespace(line[0]) && !IsWhitespace(line[|line| - 1])
    ensures Trim(line + "\n") == line
  {
    var out := line + "\n";
    assert TrimStart(out) == out;
    assert out[..|out| - 1] == line;
    TrimFixedPoint(line);
  }

  /** A leading whitespace character does not change what trimming gives. */
  lemma TrimDropsLeadingWhitespace(s: string, c: char)
    requires IsWhitespace(c)
    ensures Trim([c] + s) == Trim(s)
  {
    assert ([c] + s)[1..] == s;
  }

  /** A line ending with a non-whitespace character, followed by one more newline,
      trims to the line. */
  lemma TrimDropsTrailingNewline(s: string)
    requires |s| > 0 && !IsWhitespace(s[0]) && s[|s| - 1] == '\n'
    requires |s| > 1 && !IsWhitespace(s[|s| - 2])
    ensures Trim(s + "\n") == s[..|s| - 1]
  {
    var line := s[..|s| - 1];
    assert s == line + "\n";
    var t := s + "\n";
    assert TrimStart(t) == t;
    assert t[..|t| - 1] == s;
    assert TrimEnd(t) == TrimEnd(s);
    assert TrimEnd(s) == TrimEnd(line);
    TrimFixedPoint(line);
    assert TrimStart(line) == line;
  }

  /** `toLowerCase` on the ASCII letters. */
  function LowerChar(c: char): (r: char)
    ensures 'A' <= c <= 'Z' ==> 'a' <= r <= 'z' && r as int - c as int == 32
    ensures !('A' <= c <= 'Z') ==> r == c
  {
    if 'A' <= c <= 'Z' then (c as int + 32) as char else c
  }

  function ToLower(s: string): (r: string)
    ensures |r| == |s|
    ensures forall i :: 0 <= i < |s| ==> r[i] == LowerChar(s[i])
  {
    seq(|s|, i requires 0 <= i < |s| => LowerChar(s[i]))
  }

  /** Lower-casing twice is lower-casing once. */
  lemma ToLowerIdempotent(s: string)
    ensures ToLower(ToLower(s)) == ToLower(s)
  {
  }

  /** A string without capital letters is its own lower-case form. */
  lemma ToLowerKeepsLower(s: string)
    requires forall i :: 0 <= i < |s| ==> !('A' <= s[i] <= 'Z')
    ensures ToLower(s) == s
  {
  }

  /** `s.startsWith(p)`. */
  predicate StartsWith(s: string, p: string) {
    |p| <= |s| && s[..|p|] == p
  }

  /** `pat` occurs in `s` starting at index `i`. */
  predicate OccursAt(s: string, pat: string, i: int) {
    0 <= i && i + |pat| <= |s| && s[i..i + |pat|] == pat
  }

  /** The first index at or after `from` where `pat` occurs in `s`. */
  function FindFrom(s: string, pat: string, from: nat): (r: Option<nat>)
    ensures r.Some? ==> from <= r.value && OccursAt(s, pat, r.value)
    ensures r.Some? ==> forall j :: from <= j < r.value ==> !OccursAt(s, pat, j)
    ensures r.None? ==> forall j :: from <= j ==> !OccursAt(s, pat, j)
    decreases |s| - from
  {
    if from + |pat| > |s| then None
    else if OccursAt(s, pat, from) then Some(from)
    else FindFrom(s, pat, from + 1)
  }

  /** `s.indexOf(pat)`, with `None` for -1. */
  function IndexOf(s: string, pat: string): (r: Option<nat>)
    ensures r.Some? ==> OccursAt(s, pat, r.value) && forall j :: 0 <= j < r.value ==> !OccursAt(s, pat, j)
    ensures r.None? ==> forall j :: !OccursAt(s, pat, j)
  {
    FindFrom(s, pat, 0)
  }

  /** `s.replace(pat, rep)` with a string pattern: only the first occurrence is replaced. */
  function ReplaceFirst(s: string, pat: string, rep: string): (r: string)
    ensures IndexOf(s, pat).None? ==> r == s
    ensures IndexOf(s, pat).Some? ==>
      var i := IndexOf(s, pat).value;
      |r| == |s| - |pat| + |rep| && r[..i] == s[..i] && r[i..i + |rep|] == rep && r[i + |rep|..] == s[i + |pat|..]
  {
    match IndexOf(s, pat)
    case None => s
    case Some(i) => s[..i] + rep + s[i + |pat|..]
  }

  /** Replacing a pattern the string starts with swaps that leading copy. */
  lemma ReplaceLeading(pat: string, rest: string, rep: string)
    ensures ReplaceFirst(pat + rest, pat, rep) == rep + rest
  {
    var s := pat + rest;
    assert s[0..|pat|] == pat;
    assert OccursAt(s, pat, 0);
    assert s[|pat|..] == rest;
  }

  /** `parts.join(sep)` for a one-character separator. */
  function Join(parts: seq<string>, sep: char): string {
    if |parts| == 0 then ""
    else if |parts| == 1 then parts[0]
    else parts[0] + [sep] + Join(parts[1..], sep)
  }

  /** Joining a concatenation of two non-empty lists puts one separator between their joins. */
  lemma {:induction false} JoinAppend(p: seq<string>, q: seq<string>, sep: char)
    requires |p| >= 1 && |q| >= 1
    ensures Join(p + q, sep) == Join(p, sep) + [sep] + Join(q, sep)
    decreases |p|
  {
    assert (p + q)[0] == p[0];
    assert (p + q)[1..] == p[1..] + q;
    if |p| > 1 {
      JoinAppend(p[1..], q, sep);
    }
  }

  /** The first character of a join of two or more pieces. */
  lemma JoinFront(parts: seq<string>, sep: char)
    requires |parts| >= 2
    ensures |Join(parts, sep)| > 0
    ensures Join(parts, sep)[0] == if parts[0] == "" then sep else parts[0][0]
  {
  }

  /** Joining splits off the last piece as well as the first. */
  lemma {:induction false} JoinSnoc(parts: seq<string>, sep: char)
    requires |parts| >= 2
    ensures Join(parts, sep) == Join(parts[..|parts| - 1], sep) + [sep] + parts[|parts| - 1]
    decreases |parts|
  {
    if |parts| > 2 {
      JoinSnoc(parts[1..], sep);
      assert parts[1..][..|parts| - 2] == parts[..|parts| - 1][1..];
    }
  }

  /** The last character of a join of two or more pieces. */
  lemma JoinBack(parts: seq<string>, sep: char)
    requires |parts| >= 2
    ensures |Join(parts, sep)| > 0
    ensures var j := Join(parts, sep); var last := parts[|parts| - 1];
      j[|j| - 1] == if last == "" then sep else last[|last| - 1]
  {
    JoinSnoc(parts, sep);
  }

  /** A join of one or more pieces starts with the first piece and ends with the last. */
  lemma JoinEnds(parts: seq<string>, sep: char)
    requires |parts| >= 1
    ensures var j := Join(parts, sep); var last := parts[|parts| - 1];
      |parts[0]| <= |j| && j[..|parts[0]|] == parts[0] && |last| <= |j| && j[|j| - |last|..] == last
  {
    if |parts| >= 2 {
      JoinSnoc(parts, sep);
    }
  }

  /** `s.split(sep)` for a one-character separator: never empty, no piece holds
      the separator, and joining the pieces gives back `s`. */
  function Split(s: string, sep: char): (parts: seq<string>)
    ensures |parts| >= 1
    ensures forall k :: 0 <= k < |parts| ==> sep !in parts[k]
    ensures Join(parts, sep) == s
    decreases |s|
  {
    if |s| == 0 then [""]
    else
      var rest := Split(s[1..], sep);
      if s[0] == sep then [""] + rest
      else
        var parts := [[s[0]] + rest[0]] + rest[1..];
        assert parts[1..] == rest[1..];
        parts
  }

  /** Splitting a string that starts with a separator-free prefix glues the
      prefix onto the first piece of the rest. */
  lemma {:induction false} SplitFreePrefix(p: string, rest: string, sep: char)
    requires sep !in p
    ensures Split(p + rest, sep) == [p + Split(rest, sep)[0]] + Split(rest, sep)[1..]
    decreases |p|
  {
    var sr := Split(rest, sep);
    if |p| == 0 {
      assert p + rest == rest;
      assert p + sr[0] == sr[0];
      assert sr == [sr[0]] + sr[1..];
    } else {
      assert (p + rest)[1..] == p[1..] + rest;
      SplitFreePrefix(p[1..], rest, sep);
      assert [p[0]] + (p[1..] + Split(rest, sep)[0]) == p + Split(rest, sep)[0];
    }
  }

  lemma SplitAfterSep(tail: string, sep: char)
    ensures Split([sep] + tail, sep) == [""] + Split(tail, sep)
  {
    assert ([sep] + tail)[1..] == tail;
  }

  /** The first piece of a split starts the string; it is the whole string
      exactly when there is one piece, and otherwise a separator follows it and
      the rest of the string splits into the other pieces. */
  lemma SplitStep(t: string, sep: char)
    ensures var g := Split(t, sep);
      && |g[0]| <= |t| && t[..|g[0]|] == g[0]
      && (|g| == 1 <==> |g[0]| == |t|)
      && (|g| > 1 ==> t[|g[0]|] == sep && Split(t[|g[0]| + 1..], sep) == g[1..])
  {
    var g := Split(t, sep);
    if |g| > 1 {
      var rest := Join(g[1..], sep);
      assert t == g[0] + [sep] + rest;
      assert t[|g[0]| + 1..] == rest;
      SplitJoin(g[1..], sep);
    }
  }

  /** Splitting undoes joining when no piece contains the separator. */
  lemma {:induction false} SplitJoin(parts: seq<string>, sep: char)
    requires |parts| >= 1
    requires forall k :: 0 <= k < |parts| ==> sep !in parts[k]
    ensures Split(Join(parts, sep), sep) == parts
    decreases |parts|
  {
    if |parts| == 1 {
      SplitFreePrefix(parts[0], "", sep);
      assert parts[0] + "" == parts[0];
      assert Split("", sep) == [""];
    } else {
      var tail := Join(parts[1..], sep);
      var rest := [sep] + tail;
      assert Join(parts, sep) == parts[0] + rest;
      SplitFreePrefix(parts[0], rest, sep);
      SplitAfterSep(tail, sep);
      SplitJoin(parts[1..], sep);
      assert Split(rest, sep) == [""] + parts[1..];
      assert parts[0] + "" == parts[0];
      assert parts == [parts[0]] + parts[1..];
    }
  }

  /** `xs.filter(x => x)` on strings: keeps the non-empty ones, in order, each
      as often as it occurs. */
  function NonEmpty(xs: seq<string>): (r: seq<string>)
    ensures |r| <= |xs|
    ensures forall k :: 0 <= k < |r| ==> r[k] != ""
    ensures forall x :: x in r <==> x in xs && x != ""
    ensures forall x :: x != "" ==> multiset(r)[x] == multiset(xs)[x]
  {
    if |xs| == 0 then []
    else
      var rest := NonEmpty(xs[1..]);
      assert xs == [xs[0]] + xs[1..];
      if xs[0] == "" then rest else [xs[0]] + rest
  }

  /** Filtering one string keeps it exactly when it is non-empty. */
  lemma NonEmptyOne(x: string)
    ensures NonEmpty([x]) == if x == "" then [] else [x]
  {
    assert [x][1..] == [];
  }

  /** Filtering a concatenation filters each part and keeps them in order. */
  lemma {:induction false} NonEmptyAppend(a: seq<string>, b: seq<string>)
    ensures NonEmpty(a + b) == NonEmpty(a) + NonEmpty(b)
  {
    if |a| == 0 {
      assert a + b == b;
    } else {
      assert (a + b)[0] == a[0];
      assert (a + b)[1..] == a[1..] + b;
      NonEmptyAppend(a[1..], b);
    }
  }

  /** Filtering drops nothing from a list of non-empty strings. */
  lemma {:induction false} NonEmptyKeepsAll(xs: seq<string>)
    requires forall k :: 0 <= k < |xs| ==> xs[k] != ""
    ensures NonEmpty(xs) == xs
  {
    if |xs| > 0 {
      NonEmptyKeepsAll(xs[1..]);
    }
  }
}

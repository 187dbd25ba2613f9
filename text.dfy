/** The Python string operations the chatbot relies on, over `string`
    (a sequence of Unicode scalar values): `str.isspace`, `strip`, `split()`,
    `" ".join`, `lower`, `capitalize`, `startswith`, `endswith`, `in`,
    `replace`, and reading a text file line by line. */
module Text {
  import opened Collections

  /** `c.isspace()`: the characters Python's `split()` and `strip()` treat as whitespace. */
  predicate IsSpace(c: char) {
    var n := c as int;
    n == 32 || 9 <= n <= 13 || 28 <= n <= 31 || n == 0x85 || n == 0xA0 || n == 0x1680
    || 0x2000 <= n <= 0x200A || n == 0x2028 || n == 0x2029 || n == 0x202F || n == 0x205F
    || n == 0x3000
  }

  /** Characters that end a line when a file is read in text mode (universal newlines). */
  predicate IsLineBreak(c: char) {
    c == '\n' || c == '\r'
  }

  predicate IsBlank(s: string) {
    forall i :: 0 <= i < |s| ==> IsSpace(s[i])
  }

  predicate HasNoSpace(s: string) {
    forall i :: 0 <= i < |s| ==> !IsSpace(s[i])
  }

  predicate HasNoLineBreak(s: string) {
    forall i :: 0 <= i < |s| ==> !IsLineBreak(s[i])
  }

  // ---------------------------------------------------------------- strip

  function TrimStart(s: string): (r: string)
    ensures |r| <= |s| && r == s[|s| - |r|..]
    ensures r == [] || !IsSpace(r[0])
    ensures IsBlank(s[..|s| - |r|])
  {
    if s != [] && IsSpace(s[0]) then
      var r := TrimStart(s[1..]);
      assert forall i :: 1 <= i < |s| - |r| ==> s[i] == s[1..][..|s| - 1 - |r|][i - 1];
      r
    else s
  }

  function TrimEnd(s: string): (r: string)
    ensures |r| <= |s| && r == s[..|r|]
    ensures r == [] || !IsSpace(r[|r| - 1])
    ensures IsBlank(s[|r|..])
  {
    if s != [] && IsSpace(s[|s| - 1]) then
      var r := TrimEnd(s[..|s| - 1]);
      assert forall i :: |r| <= i < |s| - 1 ==> s[i] == s[..|s| - 1][|r|..][i - |r|];
      r
    else s
  }

  /** `s.strip()`: the longest slice of `s` that neither starts nor ends with whitespace. */
  function Strip(s: string): (r: string)
    ensures r == [] <==> IsBlank(s)
    ensures r != [] ==> !IsSpace(r[0]) && !IsSpace(r[|r| - 1])
    ensures |r| <= |s|
  {
    var t := TrimStart(s);
    var r := TrimEnd(t);
    assert r == [] ==> IsBlank(s) by {
      if r == [] {
        assert s == s[..|s| - |t|] + t;
        assert t == t[0..];
      }
    }
    r
  }

  /** `s` neither starts nor ends with whitespace: `s.strip() == s`. */
  predicate IsStripped(s: string) {
    s == [] || (!IsSpace(s[0]) && !IsSpace(s[|s| - 1]))
  }

  /** `strip` yields a stripped text, and leaves a stripped text unchanged. */
  lemma StripFixes(s: string)
    ensures IsStripped(Strip(s))
    ensures IsStripped(s) ==> Strip(s) == s
  {}

  /** `strip` only removes characters. */
  lemma StripChars(s: string)
    ensures forall c :: c in Strip(s) ==> c in s
  {
    var t := TrimStart(s);
    forall c | c in Strip(s) ensures c in s {
      var j :| 0 <= j < |Strip(s)| && Strip(s)[j] == c;
      assert c == t[j];
      assert c == s[|s| - |t| + j];
    }
  }

  /** A space in front of a stripped text is removed by `strip`. */
  lemma StripLeadingSpace(s: string)
    requires IsStripped(s)
    ensures Strip(" " + s) == s
  {
    var t := " " + s;
    assert t[1..] == s;
    assert TrimStart(s) == s;
    assert TrimStart(t) == s;
    assert TrimEnd(s) == s;
  }

  // ---------------------------------------------------------------- split / join

  /** A word in the sense of `split()`: non-empty and without whitespace. */
  predicate IsWord(w: string) {
    w != [] && HasNoSpace(w)
  }

  /** Length of the run of non-whitespace characters that starts `s`. */
  function WordLength(s: string): (k: nat)
    ensures k <= |s|
    ensures forall j :: 0 <= j < k ==> !IsSpace(s[j])
    ensures k < |s| ==> IsSpace(s[k])
  {
    if s == [] || IsSpace(s[0]) then 0 else 1 + WordLength(s[1..])
  }

  /** `s.split()`: the maximal runs of non-whitespace characters, in order. */
  function Split(s: string): (r: seq<string>)
    ensures forall i :: 0 <= i < |r| ==> IsWord(r[i])
    decreases |s|
  {
    if s == [] then []
    else if IsSpace(s[0]) then Split(s[1..])
    else
      var k := WordLength(s);
      [s[..k]] + Split(s[k..])
  }

  /** Every character of every word of `s` is a character of `s`. */
  lemma {:induction false} SplitChars(s: string)
    ensures forall i, j :: 0 <= i < |Split(s)| && 0 <= j < |Split(s)[i]| ==> Split(s)[i][j] in s
    decreases |s|
  {
    if s != [] {
      if IsSpace(s[0]) {
        SplitChars(s[1..]);
        assert forall c :: c in s[1..] ==> c in s;
      } else {
        var k := WordLength(s);
        SplitChars(s[k..]);
        assert forall c :: c in s[k..] ==> c in s;
        assert forall c :: c in s[..k] ==> c in s;
      }
    }
  }

  /** Stripping stripped texts changes none of them. */
  lemma StripAll(ls: seq<string>)
    requires forall i :: 0 <= i < |ls| ==> IsStripped(ls[i])
    ensures Map(ls, Strip) == ls
  {
    forall i | 0 <= i < |ls| ensures Strip(ls[i]) == ls[i] {
      StripFixes(ls[i]);
    }
  }

  /** Stripping a text without line breaks leaves none. */
  lemma StripNoBreak(l: string)
    requires HasNoLineBreak(l)
    ensures HasNoLineBreak(Strip(l))
  {
    StripChars(l);
    NoBreakFromChars(Strip(l), l, "");
  }

  /** A text made only of characters of texts without line breaks has none. */
  lemma NoBreakFromChars(s: string, t: string, u: string)
    requires HasNoLineBreak(t) && HasNoLineBreak(u)
    requires forall c :: c in s ==> c in t || c in u
    ensures HasNoLineBreak(s)
  {
    forall i | 0 <= i < |s| ensures !IsLineBreak(s[i]) {
      assert s[i] in s;
    }
  }

  /** `s.split()` is empty exactly when `s` is blank. */
  lemma {:induction false} SplitEmpty(s: string)
    ensures Split(s) == [] <==> IsBlank(s)
    decreases |s|
  {
    if s != [] && IsSpace(s[0]) {
      SplitEmpty(s[1..]);
      assert forall i :: 1 <= i < |s| ==> s[i] == s[1..][i - 1];
    }
  }

  /** `sep.join(ws)` */
  function Join(ws: seq<string>, sep: string): string {
    if ws == [] then []
    else if |ws| == 1 then ws[0]
    else ws[0] + sep + Join(ws[1..], sep)
  }

  lemma SplitSpaceHead(s: string)
    requires s != [] && IsSpace(s[0])
    ensures Split(s) == Split(s[1..])
  {}

  lemma {:induction false} WordLengthAppend(a: string, b: string)
    requires WordLength(a) < |a| || (b != [] && IsSpace(b[0]))
    ensures WordLength(a + b) == WordLength(a)
  {
    if a != [] && !IsSpace(a[0]) {
      assert (a + b)[1..] == a[1..] + b;
      WordLengthAppend(a[1..], b);
    }
  }

  lemma {:induction false} SplitAllBlank(a: string, b: string)
    requires IsBlank(a)
    ensures Split(a + b) == Split(b)
  {
    if a != [] {
      assert (a + b)[1..] == a[1..] + b;
      assert IsBlank(a[1..]);
      SplitAllBlank(a[1..], b);
    } else {
      assert a + b == b;
    }
  }

  /** Splitting two texts glued with a whitespace character gives the words
      of the first followed by the words of the second. */
  lemma {:induction false} SplitAround(a: string, c: char, b: string)
    requires IsSpace(c)
    ensures Split(a + [c] + b) == Split(a) + Split(b)
    decreases |a|
  {
    var s := a + [c] + b;
    if a == [] {
      assert s == [c] + b;
      SplitSpaceHead(s);
      assert s[1..] == b;
    } else if IsSpace(a[0]) {
      SplitSpaceHead(s);
      SplitSpaceHead(a);
      assert s[1..] == a[1..] + [c] + b;
      SplitAround(a[1..], c, b);
    } else {
      SplitWordHead(a, c, b);
    }
  }

  lemma {:induction false} SplitWordHead(a: string, c: char, b: string)
    requires IsSpace(c) && a != [] && !IsSpace(a[0])
    ensures Split(a + [c] + b) == Split(a) + Split(b)
    decreases |a|, 0
  {
    var s := a + [c] + b;
    var k := WordLength(a);
    assert a + ([c] + b) == s;
    WordLengthAppend(a, [c] + b);
    assert s[0] == a[0];
    SplitWordStep(s);
    SplitWordStep(a);
    assert s[..k] == a[..k];
    assert s[k..] == a[k..] + [c] + b;
    SplitAround(a[k..], c, b);
    ConcatAssoc([a[..k]], Split(a[k..]), Split(b));
  }

  lemma SplitWordStep(s: string)
    requires s != [] && !IsSpace(s[0])
    ensures Split(s) == [s[..WordLength(s)]] + Split(s[WordLength(s)..])
  {}

  /** `split()` undoes `" ".join` on words. */
  lemma {:induction false} SplitJoin(ws: seq<string>)
    requires forall i :: 0 <= i < |ws| ==> IsWord(ws[i])
    ensures Split(Join(ws, " ")) == ws
  {
    if ws == [] {
    } else if |ws| == 1 {
      SplitWord(ws[0]);
    } else {
      SplitJoin(ws[1..]);
      SplitWord(ws[0]);
      assert ws[0] + " " + Join(ws[1..], " ") == ws[0] + [' '] + Join(ws[1..], " ");
      SplitAround(ws[0], ' ', Join(ws[1..], " "));
      assert ws == [ws[0]] + ws[1..];
    }
  }

  lemma SplitWord(w: string)
    requires IsWord(w)
    ensures Split(w) == [w]
  {
    WordLengthOfWord(w);
    assert !IsSpace(w[0]);
    assert w[..|w|] == w;
    assert w[|w|..] == [];
  }

  lemma {:induction false} WordLengthOfWord(w: string)
    requires HasNoSpace(w)
    ensures WordLength(w) == |w|
  {
    if w != [] {
      WordLengthOfWord(w[1..]);
    }
  }

  // ---------------------------------------------------------------- case

  /** `c.lower()` for ASCII and Latin-1 letters. */
  function LowerChar(c: char): char {
    if 'A' <= c <= 'Z' || ('À' <= c <= 'Þ' && c != '×') then (c as int + 32) as char
    else c
  }

  /** `c.upper()` (equal to the title case here) for ASCII and Latin-1 letters. */
  function UpperChar(c: char): char {
    if 'a' <= c <= 'z' || ('à' <= c <= 'þ' && c != '÷') then (c as int - 32) as char
    else if c == 'ÿ' then 'Ÿ'
    else if c == 'µ' then 'Μ'
    else c
  }

  /** `s.lower()` */
  function Lower(s: string): (r: string)
    ensures |r| == |s| && forall i :: 0 <= i < |s| ==> r[i] == LowerChar(s[i])
  {
    seq(|s|, i requires 0 <= i < |s| => LowerChar(s[i]))
  }

  /** `s.capitalize()`: the first character in title case, the rest lower-cased
      (the German sharp s becomes the two characters "Ss"). */
  function Capitalize(s: string): string {
    if s == [] then []
    else if s[0] == 'ß' then "Ss" + Lower(s[1..])
    else [UpperChar(s[0])] + Lower(s[1..])
  }

  // ---------------------------------------------------------------- search

  /** `s.startswith(p)` */
  predicate StartsWith(s: string, p: string) {
    |p| <= |s| && s[..|p|] == p
  }

  /** A text lacking some character of `p` does not contain `p`. */
  lemma {:induction false} MissingCharNotContained(s: string, p: string, c: char)
    requires c in p && c !in s
    ensures !Contains(s, p)
    decreases |s|
  {
    if s != [] {
      assert c !in s[1..];
      MissingCharNotContained(s[1..], p, c);
    }
  }

  /** `s.endswith(p)` */
  predicate EndsWith(s: string, p: string) {
    |p| <= |s| && s[|s| - |p|..] == p
  }

  /** `p in s` */
  predicate Contains(s: string, p: string)
    decreases |s|
  {
    StartsWith(s, p) || (s != [] && Contains(s[1..], p))
  }

  /** `s.replace(pat, rep)`: every non-overlapping occurrence of `pat`, scanning
      from the left, is replaced by `rep`. */
  function ReplaceAll(s: string, pat: string, rep: string): string
    requires pat != []
    decreases |s|
  {
    if |s| < |pat| then s
    else if s[..|pat|] == pat then rep + ReplaceAll(s[|pat|..], pat, rep)
    else [s[0]] + ReplaceAll(s[1..], pat, rep)
  }

  lemma {:induction false} ReplaceAllAbsent(s: string, pat: string, rep: string)
    requires pat != [] && !Contains(s, pat)
    ensures ReplaceAll(s, pat, rep) == s
    decreases |s|
  {
    if |s| >= |pat| {
      ReplaceAllAbsent(s[1..], pat, rep);
      assert s == [s[0]] + s[1..];
    }
  }

  /** The characters of a replacement result come from the text or from the
      replacement. */
  lemma {:induction false} ReplaceAllChars(s: string, pat: string, rep: string)
    requires pat != []
    ensures forall c :: c in ReplaceAll(s, pat, rep) ==> c in s || c in rep
    decreases |s|
  {
    if |s| >= |pat| {
      if s[..|pat|] == pat {
        ReplaceAllChars(s[|pat|..], pat, rep);
        assert forall c :: c in s[|pat|..] ==> c in s;
      } else {
        ReplaceAllChars(s[1..], pat, rep);
        assert forall c :: c in s[1..] ==> c in s;
      }
    }
  }

  /** Replacing a single character in a text that ends with it puts the
      replacement at the very end. */
  lemma {:induction false} ReplaceAllLastChar(s: string, c: char, rep: string)
    ensures ReplaceAll(s + [c], [c], rep) == ReplaceAll(s, [c], rep) + rep
  {
    if s == [] {
      assert [c][1..] == [];
    } else {
      assert (s + [c])[1..] == s[1..] + [c];
      ReplaceAllLastChar(s[1..], c, rep);
    }
  }

  // ---------------------------------------------------------------- files

  /** Index of the first line break of `s`, or `|s|`. */
  function LineEnd(s: string): (k: nat)
    ensures k <= |s|
    ensures forall j :: 0 <= j < k ==> !IsLineBreak(s[j])
    ensures k < |s| ==> IsLineBreak(s[k])
  {
    if s == [] || IsLineBreak(s[0]) then 0 else 1 + LineEnd(s[1..])
  }

  /** Where the line after the first one starts: past "\r\n" or past a single break. */
  function NextLine(s: string): (n: nat)
    requires LineEnd(s) < |s|
    ensures LineEnd(s) < n <= |s|
  {
    var k := LineEnd(s);
    if s[k] == '\r' && k + 1 < |s| && s[k + 1] == '\n' then k + 2 else k + 1
  }

  /** The lines of a text file read in text mode, without their terminators:
      "\n", "\r" and "\r\n" each end a line, and a final line without a
      terminator still counts. `|FileLines(s)|` is `len(f.readlines())`. */
  function FileLines(s: string): (r: seq<string>)
    decreases |s|
  {
    if s == [] then []
    else if LineEnd(s) == |s| then [s]
    else [s[..LineEnd(s)]] + FileLines(s[NextLine(s)..])
  }

  /** No line read from a file holds a line break. */
  lemma {:induction false} FileLinesNoBreak(s: string)
    ensures forall i :: 0 <= i < |FileLines(s)| ==> HasNoLineBreak(FileLines(s)[i])
    decreases |s|
  {
    if s != [] && LineEnd(s) < |s| {
      FileLinesNoBreak(s[NextLine(s)..]);
    }
  }

  /** The text written by `f.write(l + "\n")` for each `l` of `ls` in turn. */
  function Unlines(ls: seq<string>): string {
    if ls == [] then [] else ls[0] + "\n" + Unlines(ls[1..])
  }

  /** `[l.strip() for l in f if l.strip()]` */
  function StrippedLines(content: string): seq<string> {
    Filter(Map(FileLines(content), Strip), (l: string) => l != [])
  }

  lemma {:induction false} UnlinesAppend(a: seq<string>, b: seq<string>)
    ensures Unlines(a + b) == Unlines(a) + Unlines(b)
  {
    if a == [] {
      assert a + b == b;
    } else {
      assert (a + b)[1..] == a[1..] + b;
      UnlinesAppend(a[1..], b);
    }
  }

  /** Reading back what `Unlines` wrote gives the same lines. */
  lemma {:induction false} FileLinesUnlines(ls: seq<string>)
    requires forall i :: 0 <= i < |ls| ==> HasNoLineBreak(ls[i])
    ensures FileLines(Unlines(ls)) == ls
  {
    if ls != [] {
      var s := Unlines(ls);
      var l := ls[0];
      assert s == l + ("\n" + Unlines(ls[1..]));
      LineEndOfLine(l, "\n" + Unlines(ls[1..]));
      assert s[|l|] == '\n';
      assert s[..|l|] == l;
      assert s[|l| + 1..] == Unlines(ls[1..]);
      FileLinesUnlines(ls[1..]);
      assert ls == [l] + ls[1..];
    }
  }

  lemma {:induction false} LineEndOfLine(l: string, rest: string)
    requires HasNoLineBreak(l)
    requires rest == [] || IsLineBreak(rest[0])
    ensures LineEnd(l + rest) == |l|
  {
    if l == [] {
      assert l + rest == rest;
    } else {
      assert (l + rest)[1..] == l[1..] + rest;
      LineEndOfLine(l[1..], rest);
    }
  }

  /** A file that is empty or ends with "\n" gains exactly the appended lines. */
  lemma {:induction false} FileLinesAppend(a: string, b: string)
    requires a == [] || a[|a| - 1] == '\n'
    ensures FileLines(a + b) == FileLines(a) + FileLines(b)
    decreases |a|
  {
    if a == [] {
      assert a + b == b;
    } else {
      var n := FileLinesStep(a, b);
      FileLinesAppend(a[n..], b);
      ConcatAssoc([a[..LineEnd(a)]], FileLines(a[n..]), FileLines(b));
    }
  }

  /** Text appended to a file that is empty or ends with "\n" adds exactly
      its own stripped lines. */
  lemma StrippedLinesAppend(a: string, b: string)
    requires a == [] || a[|a| - 1] == '\n'
    ensures StrippedLines(a + b) == StrippedLines(a) + StrippedLines(b)
  {
    FileLinesAppend(a, b);
    MapAppend(FileLines(a), FileLines(b), Strip);
    FilterAppend(Map(FileLines(a), Strip), Map(FileLines(b), Strip), (l: string) => l != []);
  }

  /** One line of `a + b` is the first line of `a` when `a` ends with "\n". */
  lemma FileLinesStep(a: string, b: string) returns (n: nat)
    requires a != [] && a[|a| - 1] == '\n'
    ensures 0 < n <= |a| && (a[n..] == [] || a[n..][|a[n..]| - 1] == '\n')
    ensures FileLines(a) == [a[..LineEnd(a)]] + FileLines(a[n..])
    ensures FileLines(a + b) == [a[..LineEnd(a)]] + FileLines(a[n..] + b)
  {
    var s := a + b;
    NextLinePrefix(a, b);
    n := NextLine(a);
    SlicesOfAppend(a, b, LineEnd(a), n);
  }

  lemma SlicesOfAppend(a: string, b: string, k: nat, n: nat)
    requires k <= n <= |a|
    ensures (a + b)[..k] == a[..k] && (a + b)[n..] == a[n..] + b
  {}

  lemma NextLinePrefix(a: string, b: string)
    requires a != [] && a[|a| - 1] == '\n'
    ensures LineEnd(a) < |a| && LineEnd(a + b) == LineEnd(a)
    ensures NextLine(a + b) == NextLine(a)
  {
    LineEndPrefix(a, b);
    var k := LineEnd(a);
    if k + 1 < |a| {
      assert (a + b)[k + 1] == a[k + 1];
    }
  }

  lemma {:induction false} LineEndPrefix(a: string, b: string)
    requires LineEnd(a) < |a| || (a != [] && IsLineBreak(a[|a| - 1]))
    ensures LineEnd(a + b) == LineEnd(a)
  {
    if !IsLineBreak(a[0]) {
      assert (a + b)[1..] == a[1..] + b;
      LineEndPrefix(a[1..], b);
    }
  }

  lemma UnlinesEndsWithNewline(ls: seq<string>)
    requires ls != []
    ensures var s := Unlines(ls); s != [] && s[|s| - 1] == '\n'
  {
    UnlinesAppend(ls[..|ls| - 1], [ls[|ls| - 1]]);
    assert ls == ls[..|ls| - 1] + [ls[|ls| - 1]];
  }
}

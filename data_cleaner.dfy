/** The standalone cleaner of the training data (limpiar_data.py): every
    line of data.txt is stripped, and only short natural lines are kept,
    each written back on its own line. */
module DataCleaner {
  import opened Collections
  import opened Text
  import opened Files

  /** Lines with more words than this are dropped. */
  const MaxWords := 6

  /** The tell-tale of two turns run together on one line. */
  const Concatenation := "como estas estoy bien gracias"

  /** Whether a stripped line of data.txt is kept: it has text, between one
      and `MaxWords` words, and does not hold `Concatenation` in any case.
      For a stripped line the last test adds nothing. */
  predicate KeepForTraining(l: string): (r: bool)
    ensures IsStripped(l) ==> (r <==> l != [] && |Split(l)| <= MaxWords && !Contains(Lower(l), Concatenation))
  {
    SplitEmpty(l);
    && l != []
    && |Split(l)| <= MaxWords
    && !Contains(Lower(l), Concatenation)
    && 1 <= |Split(l)|
  }

  /** `[l.strip() for l in lines if keep(l.strip())]`: the stripped lines
      passing a test, in order. */
  function Kept(lines: seq<string>, keep: string -> bool): seq<string> {
    Filter(Map(lines, Strip), keep)
  }

  /** A file rewritten with the stripped lines of its old content that pass
      `keep`, each followed by a newline. */
  function Rewritten(content: string, keep: string -> bool): string {
    Unlines(Kept(FileLines(content), keep))
  }

  /** data.txt after cleaning. */
  function Cleaned(content: string): string {
    Rewritten(content, KeepForTraining)
  }

  /** The cleaning loop: blank lines, long lines and run-together turns are
      skipped, the rest collected. */
  method CleanLines(lines: seq<string>) returns (kept: seq<string>)
    ensures kept == Kept(lines, KeepForTraining)
  {
    kept := [];
    for i := 0 to |lines|
      invariant kept == Kept(lines[..i], KeepForTraining)
    {
      FilterMapStep(lines, i, Strip, KeepForTraining);
      var line := Strip(lines[i]);
      if line == [] {
        continue;
      }
      var words := Split(line);
      if |words| > MaxWords {
        continue;
      }
      if Contains(Lower(line), Concatenation) {
        continue;
      }
      if 1 <= |words| <= MaxWords {
        kept := kept + [line];
      }
    }
    assert lines[..|lines|] == lines;
  }

  /** `limpiar_data_txt()`: rewrites data.txt with the kept lines and
      reports how many there are. Without data.txt, opening it raises and
      the script stops with nothing written (`None`). */
  method CleanDataFile(ws: Workspace) returns (count: Option<nat>)
    modifies ws`data
    ensures old(ws.data).None? ==> ws.data == None && count == None
    ensures old(ws.data).Some? ==>
      && ws.data == Some(Cleaned(old(ws.data).value))
      && count == Some(|Kept(FileLines(old(ws.data).value), KeepForTraining)|)
  {
    if ws.data.None? {
      return None;
    }
    var kept := CleanLines(FileLines(ws.data.value));
    ws.data := Some(Unlines(kept));
    count := Some(|kept|);
  }

  /** A stripped line with text has at least one word, so the last test of
      the loop never fails once the others passed. */
  lemma LastTestPasses(l: string)
    requires l != [] && IsStripped(l)
    ensures 1 <= |Split(l)|
  {
    SplitEmpty(l);
  }

  /** Every kept line is a stripped line without line breaks that passes
      the test, and the kept lines are stripped input lines in their order,
      never more than the input had. */
  lemma KeptShape(content: string, keep: string -> bool)
    ensures var kept := Kept(FileLines(content), keep);
      && |kept| <= |FileLines(content)|
      && IsSubsequence(kept, Map(FileLines(content), Strip))
      && forall l :: l in kept ==> IsStripped(l) && HasNoLineBreak(l) && keep(l)
  {
    var lines := FileLines(content);
    var stripped := Map(lines, Strip);
    FileLinesNoBreak(content);
    forall i | 0 <= i < |stripped| ensures IsStripped(stripped[i]) && HasNoLineBreak(stripped[i]) {
      StripFixes(lines[i]);
      StripNoBreak(lines[i]);
    }
    FilterIsSubsequence(stripped, keep);
  }

  /** A line is kept exactly when some line of the input strips to it and it
      passes the test. */
  lemma KeptExactly(content: string, keep: string -> bool, l: string)
    ensures l in Kept(FileLines(content), keep) <==> l in Map(FileLines(content), Strip) && keep(l)
  {
    FilterIsSubsequence(Map(FileLines(content), Strip), keep);
  }

  /** The rewritten file reads back as the kept lines, and rewriting it
      again with the same test changes nothing. */
  lemma RewrittenReadBack(content: string, keep: string -> bool)
    ensures FileLines(Rewritten(content, keep)) == Kept(FileLines(content), keep)
    ensures Kept(Kept(FileLines(content), keep), keep) == Kept(FileLines(content), keep)
    ensures Rewritten(Rewritten(content, keep), keep) == Rewritten(content, keep)
  {
    var kept := Kept(FileLines(content), keep);
    KeptShape(content, keep);
    assert forall i :: 0 <= i < |kept| ==> IsStripped(kept[i]) && HasNoLineBreak(kept[i]) && keep(kept[i]) by {
      forall i | 0 <= i < |kept| ensures IsStripped(kept[i]) && HasNoLineBreak(kept[i]) && keep(kept[i]) {
        assert kept[i] in kept;
      }
    }
    FileLinesUnlines(kept);
    assert FileLines(Rewritten(content, keep)) == kept;
    StripAll(kept);
    FilterKeepsAll(kept, keep);
    assert Kept(kept, keep) == kept;
  }

  /** Every line the cleaner keeps has text, one to `MaxWords` words and no
      `Concatenation` in any letter case. */
  lemma CleanedLines(content: string)
    ensures forall l :: l in FileLines(Cleaned(content)) ==>
      && l != [] && IsStripped(l) && HasNoLineBreak(l)
      && 1 <= |Split(l)| <= MaxWords
      && !Contains(Lower(l), Concatenation)
  {
    KeptShape(content, KeepForTraining);
    RewrittenReadBack(content, KeepForTraining);
  }

  /** A line holding `Concatenation`, in any letter case, is not in the
      output. */
  lemma ConcatenationDropped(content: string, i: nat)
    requires i < |FileLines(content)|
    requires Contains(Lower(Strip(FileLines(content)[i])), Concatenation)
    ensures Strip(FileLines(content)[i]) !in FileLines(Cleaned(content))
  {
    KeptExactly(content, KeepForTraining, Strip(FileLines(content)[i]));
    RewrittenReadBack(content, KeepForTraining);
  }
}

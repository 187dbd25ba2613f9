/** The trainer's data preparation (train.py): data.txt is read as
    alternating prompt and response lines, at least three pairs are
    required, the vocabulary is built from all of their words, and each pair
    becomes one next-token example. Then the decision whether the previous
    model's weights are reused. The training loop itself is not modelled. */
module Training {
  import opened Collections
  import opened Text
  import opened Tokenizer
  import opened Corpus
  import opened Dataset
  import opened ModelFile

  /** Fewer pairs than this and the trainer exits with an error. */
  const MinPairs := 3

  // ---------------------------------------------------------------- pairs

  /** `zip(prompts, responses)` */
  function Zip(prompts: seq<string>, responses: seq<string>): (ps: seq<Pair>)
    ensures |ps| == if |prompts| <= |responses| then |prompts| else |responses|
    ensures forall k :: 0 <= k < |ps| ==> ps[k] == Pair(prompts[k], responses[k])
  {
    if prompts == [] || responses == [] then []
    else [Pair(prompts[0], responses[0])] + Zip(prompts[1..], responses[1..])
  }

  /** The pairs read from the data lines: lines `i` and `i + 1` for every
      even `i` with `i + 1` a line, kept when both have text. */
  function PairUp(lines: seq<string>): seq<Pair>
    decreases |lines|
  {
    if |lines| < 2 then []
    else (if lines[0] != [] && lines[1] != [] then [Pair(lines[0], lines[1])] else []) + PairUp(lines[2..])
  }

  /** The pairing loop over the stripped non-blank lines of data.txt. */
  method ReadPairs(lines: seq<string>) returns (prompts: seq<string>, responses: seq<string>)
    ensures |prompts| == |responses|
    ensures Zip(prompts, responses) == PairUp(lines)
  {
    prompts, responses := [], [];
    var i := 0;
    while i < |lines| - 1
      invariant 0 <= i <= |lines|
      invariant |prompts| == |responses|
      invariant Zip(prompts, responses) + PairUp(lines[i..]) == PairUp(lines)
    {
      var prompt := lines[i];
      var response := if i + 1 < |lines| then lines[i + 1] else "";
      ReadPairsStep(lines, i, prompts, responses);
      if prompt != [] && response != [] {
        prompts := prompts + [prompt];
        responses := responses + [response];
      }
      i := i + 2;
    }
    assert PairUp(lines[i..]) == [];
  }

  /** One step of the pairing loop keeps its invariant. */
  lemma ReadPairsStep(lines: seq<string>, i: nat, prompts: seq<string>, responses: seq<string>)
    requires i + 1 < |lines| && |prompts| == |responses|
    requires Zip(prompts, responses) + PairUp(lines[i..]) == PairUp(lines)
    ensures lines[i] != [] && lines[i + 1] != [] ==>
      Zip(prompts + [lines[i]], responses + [lines[i + 1]]) + PairUp(lines[i + 2..]) == PairUp(lines)
    ensures !(lines[i] != [] && lines[i + 1] != []) ==>
      Zip(prompts, responses) + PairUp(lines[i + 2..]) == PairUp(lines)
  {
    var rest := lines[i..];
    assert rest[0] == lines[i] && rest[1] == lines[i + 1] && rest[2..] == lines[i + 2..];
    if lines[i] != [] && lines[i + 1] != [] {
      var head := [Pair(lines[i], lines[i + 1])];
      assert PairUp(rest) == head + PairUp(lines[i + 2..]);
      ZipSnoc(prompts, responses, lines[i], lines[i + 1]);
      ConcatAssoc(Zip(prompts, responses), head, PairUp(lines[i + 2..]));
    } else {
      assert PairUp(rest) == PairUp(rest[2..]);
    }
  }

  lemma ZipSnoc(prompts: seq<string>, responses: seq<string>, p: string, r: string)
    requires |prompts| == |responses|
    ensures Zip(prompts + [p], responses + [r]) == Zip(prompts, responses) + [Pair(p, r)]
  {
  }

  /** When every line has text, the pairs are lines 0 and 1, 2 and 3, and so
      on; an odd last line is left over. */
  lemma {:induction false} PairUpTextLines(lines: seq<string>)
    requires forall i :: 0 <= i < |lines| ==> lines[i] != []
    ensures |PairUp(lines)| == |lines| / 2
    ensures forall k :: 0 <= k < |lines| / 2 ==> PairUp(lines)[k] == Pair(lines[2 * k], lines[2 * k + 1])
    decreases |lines|
  {
    if |lines| >= 2 {
      PairUpTextLines(lines[2..]);
      var rest := PairUp(lines[2..]);
      forall k | 1 <= k < |lines| / 2
        ensures PairUp(lines)[k] == Pair(lines[2 * k], lines[2 * k + 1])
      {
        assert PairUp(lines)[k] == rest[k - 1];
        assert lines[2..][2 * (k - 1)] == lines[2 * k];
        assert lines[2..][2 * (k - 1) + 1] == lines[2 * k + 1];
      }
    }
  }

  /** Pairing lines after an even number of lines pairs the two parts apart. */
  lemma {:induction false} PairUpAppend(a: seq<string>, b: seq<string>)
    requires |a| % 2 == 0
    ensures PairUp(a + b) == PairUp(a) + PairUp(b)
    decreases |a|
  {
    if a != [] {
      PairUpAppend(a[2..], b);
      assert (a + b)[2..] == a[2..] + b;
      assert (a + b)[0] == a[0] && (a + b)[1] == a[1];
      var head := if a[0] != [] && a[1] != [] then [Pair(a[0], a[1])] else [];
      assert PairUp(a + b) == head + (PairUp(a[2..]) + PairUp(b));
      assert PairUp(a) == head + PairUp(a[2..]);
    } else {
      assert a + b == b;
    }
  }

  /** Pairs whose two lines have text are read back from their lines. */
  lemma {:induction false} PairUpPairLines(ps: seq<Pair>)
    requires forall k :: 0 <= k < |ps| ==> ps[k].prompt != [] && ps[k].response != []
    ensures PairUp(PairLines(ps)) == ps
  {
    if ps != [] {
      PairUpPairLines(ps[1..]);
      assert PairLines(ps)[2..] == PairLines(ps[1..]);
    }
  }

  /** Lines read from a file, stripped and without blank ones, hold no line
      break. */
  lemma StrippedLinesNoBreak(content: string)
    ensures forall l :: l in StrippedLines(content) ==> HasNoLineBreak(l)
  {
    var lines := FileLines(content);
    var stripped := Map(lines, Strip);
    FileLinesNoBreak(content);
    forall i | 0 <= i < |stripped| ensures HasNoLineBreak(stripped[i]) {
      StripNoBreak(lines[i]);
    }
    FilterIsSubsequence(stripped, (l: string) => l != []);
  }

  /** `line.replace(tag, "").strip()` of a line without line breaks is a
      stripped text without line breaks. */
  lemma ExtractClean(line: string, tag: string)
    requires tag != [] && HasNoLineBreak(line)
    ensures IsStripped(Extract(line, tag)) && HasNoLineBreak(Extract(line, tag))
  {
    var removed := ReplaceAll(line, tag, "");
    ReplaceAllChars(line, tag, "");
    NoBreakFromChars(removed, line, "");
    StripChars(removed);
    NoBreakFromChars(Strip(removed), removed, "");
    StripFixes(removed);
  }

  /** Every pair `build_dataset` writes has two clean lines. */
  lemma PairsClean(lines: seq<string>)
    requires forall l :: l in lines ==> HasNoLineBreak(l)
    ensures forall k :: 0 <= k < |Pairs(lines)| ==>
      CleanLine(Pairs(lines)[k].prompt) && CleanLine(Pairs(lines)[k].response)
  {
    var idx := PairsOrigin(lines);
    forall k | 0 <= k < |Pairs(lines)|
      ensures CleanLine(Pairs(lines)[k].prompt) && CleanLine(Pairs(lines)[k].response)
    {
      ExtractClean(lines[idx[k]], UserLabel);
      ExtractClean(lines[idx[k] + 1], BotLabel);
    }
  }

  /** What `build_dataset` appends to data.txt, the trainer reads back as the
      same pairs, after the pairs already there, as long as data.txt held an
      even number of text lines and ended with a line break. */
  lemma DataReadBack(base: string, chat: string)
    requires base == [] || base[|base| - 1] == '\n'
    requires |StrippedLines(base)| % 2 == 0
    ensures PairUp(StrippedLines(base + Appended(chat))) == PairUp(StrippedLines(base)) + Pairs(StrippedLines(chat))
  {
    var ps := Pairs(StrippedLines(chat));
    StrippedLinesNoBreak(chat);
    PairsClean(StrippedLines(chat));
    var ls := PairLines(ps);
    PairLinesClean(ps);
    CleanLinesRead(ls);
    StrippedLinesAppend(base, Appended(chat));
    PairUpAppend(StrippedLines(base), ls);
    PairUpPairLines(ps);
  }

  /** The lines of pairs with clean sides are clean. */
  lemma {:induction false} PairLinesClean(ps: seq<Pair>)
    requires forall k :: 0 <= k < |ps| ==> CleanLine(ps[k].prompt) && CleanLine(ps[k].response)
    ensures forall l :: l in PairLines(ps) ==> CleanLine(l)
  {
    if ps != [] {
      PairLinesClean(ps[1..]);
      assert PairLines(ps) == [ps[0].prompt, ps[0].response] + PairLines(ps[1..]);
    }
  }

  // ---------------------------------------------------------------- vocabulary

  /** `" ".join(prompts + responses)` */
  function AllText(prompts: seq<string>, responses: seq<string>): string {
    Join(prompts + responses, " ")
  }

  lemma LowerAppend(a: string, b: string)
    ensures Lower(a + b) == Lower(a) + Lower(b)
  {
  }

  /** Tokenizing texts joined by spaces gives their tokens one after the other. */
  lemma {:induction false} TokenizeJoin(ts: seq<string>)
    ensures Tokenize(Join(ts, " ")) == Flatten(Map(ts, Tokenize))
  {
    if |ts| == 1 {
      assert Flatten(Map(ts, Tokenize)) == Tokenize(ts[0]) + Flatten(Map(ts[1..], Tokenize));
    } else if |ts| > 1 {
      TokenizeJoin(ts[1..]);
      var rest := Join(ts[1..], " ");
      LowerAppend(ts[0] + " ", rest);
      LowerAppend(ts[0], " ");
      assert Lower(" ") == [' '];
      SplitAround(Lower(ts[0]), ' ', Lower(rest));
      assert Map(ts, Tokenize) == [Tokenize(ts[0])] + Map(ts[1..], Tokenize);
    }
  }

  /** A token of some text of the list is a token of the joined text. */
  lemma TokenOfJoin(ts: seq<string>, k: nat, t: string)
    requires k < |ts| && t in Tokenize(ts[k])
    ensures t in Tokenize(Join(ts, " "))
  {
    TokenizeJoin(ts);
    FlattenMember(Map(ts, Tokenize), k, t);
  }

  lemma {:induction false} FlattenMember(ss: seq<seq<string>>, k: nat, t: string)
    requires k < |ss| && t in ss[k]
    ensures t in Flatten(ss)
  {
    assert ss == [ss[0]] + ss[1..];
    FlattenAppend([ss[0]], ss[1..]);
    if k > 0 {
      FlattenMember(ss[1..], k - 1, t);
    }
  }

  /** Every word of every pair is in the vocabulary built from all pairs. */
  lemma VocabCoversPairs(prompts: seq<string>, responses: seq<string>, k: nat, t: string)
    requires k < |prompts| && k < |responses|
    requires t in Tokenize(prompts[k]) || t in Tokenize(responses[k])
    ensures t in BuildVocab(AllText(prompts, responses)).stoi
  {
    var all := prompts + responses;
    if t in Tokenize(prompts[k]) {
      assert all[k] == prompts[k];
      TokenOfJoin(all, k, t);
    } else {
      assert all[|prompts| + k] == responses[k];
      TokenOfJoin(all, |prompts| + k, t);
    }
  }

  // ---------------------------------------------------------------- examples

  /** One training example: the ids of a pair's words but the last, and the
      same ids shifted by one. */
  datatype Example = Example(input: seq<int>, target: seq<int>)

  /** The ids of a pair: its prompt's tokens, then its response's. */
  function Sequence(p: Pair, stoi: map<string, int>): seq<int> {
    Encode(Tokenize(p.prompt), stoi) + Encode(Tokenize(p.response), stoi)
  }

  /** The example a pair gives, when its sequence has at least two ids. */
  function ExampleOf(p: Pair, stoi: map<string, int>): seq<Example> {
    var s := Sequence(p, stoi);
    if |s| > 1 then [Example(s[..|s| - 1], s[1..])] else []
  }

  /** The examples of the pairs, in order. */
  function Examples(ps: seq<Pair>, stoi: map<string, int>): (es: seq<Example>)
    ensures |es| <= |ps|
  {
    if ps == [] then [] else ExampleOf(ps[0], stoi) + Examples(ps[1..], stoi)
  }

  lemma {:induction false} ExamplesSnoc(ps: seq<Pair>, p: Pair, stoi: map<string, int>)
    ensures Examples(ps + [p], stoi) == Examples(ps, stoi) + ExampleOf(p, stoi)
  {
    if ps != [] {
      assert (ps + [p])[1..] == ps[1..] + [p];
      ExamplesSnoc(ps[1..], p, stoi);
    }
  }

  lemma ExamplesPrefix(ps: seq<Pair>, k: nat, stoi: map<string, int>)
    requires k < |ps|
    ensures Examples(ps[..k + 1], stoi) == Examples(ps[..k], stoi) + ExampleOf(ps[k], stoi)
  {
    assert ps[..k + 1] == ps[..k] + [ps[k]];
    ExamplesSnoc(ps[..k], ps[k], stoi);
  }

  function InputOf(e: Example): seq<int> { e.input }
  function TargetOf(e: Example): seq<int> { e.target }

  /** One more pair adds its example's input and target, if it has one. */
  lemma SequencesStep(ps: seq<Pair>, k: nat, stoi: map<string, int>)
    requires k < |ps|
    ensures var s := Sequence(ps[k], stoi);
      && Map(Examples(ps[..k + 1], stoi), InputOf)
         == Map(Examples(ps[..k], stoi), InputOf) + (if |s| > 1 then [s[..|s| - 1]] else [])
      && Map(Examples(ps[..k + 1], stoi), TargetOf)
         == Map(Examples(ps[..k], stoi), TargetOf) + (if |s| > 1 then [s[1..]] else [])
  {
    ExamplesPrefix(ps, k, stoi);
    MapAppend(Examples(ps[..k], stoi), ExampleOf(ps[k], stoi), InputOf);
    MapAppend(Examples(ps[..k], stoi), ExampleOf(ps[k], stoi), TargetOf);
    ExampleParts(ps[k], stoi);
  }

  /** A pair's example, if any, is its sequence without the last id as
      input and without the first as target. */
  lemma ExampleParts(p: Pair, stoi: map<string, int>)
    ensures var s := Sequence(p, stoi);
      && Map(ExampleOf(p, stoi), InputOf) == (if |s| > 1 then [s[..|s| - 1]] else [])
      && Map(ExampleOf(p, stoi), TargetOf) == (if |s| > 1 then [s[1..]] else [])
  {
  }

  /** The loop building `X_data` and `Y_data` over `zip(prompts, responses)`:
      they are the inputs and the targets of the pairs' examples, in order. */
  method MakeSequences(prompts: seq<string>, responses: seq<string>, stoi: map<string, int>)
    returns (xs: seq<seq<int>>, ys: seq<seq<int>>)
    ensures xs == Map(Examples(Zip(prompts, responses), stoi), InputOf)
    ensures ys == Map(Examples(Zip(prompts, responses), stoi), TargetOf)
  {
    var ps := Zip(prompts, responses);
    xs, ys := [], [];
    for k := 0 to |ps|
      invariant xs == Map(Examples(ps[..k], stoi), InputOf)
      invariant ys == Map(Examples(ps[..k], stoi), TargetOf)
    {
      var ids := Sequence(ps[k], stoi);
      SequencesStep(ps, k, stoi);
      if |ids| > 1 {
        xs := xs + [ids[..|ids| - 1]];
        ys := ys + [ids[1..]];
      }
    }
    assert ps[..|ps|] == ps;
  }

  /** Each target is its input shifted by one: the network learns to predict
      every next id. */
  lemma {:induction false} ExamplesShifted(ps: seq<Pair>, stoi: map<string, int>)
    ensures forall e :: e in Examples(ps, stoi) ==>
      && |e.input| == |e.target| >= 1
      && e.input[1..] == e.target[..|e.target| - 1]
  {
    if ps != [] {
      ExamplesShifted(ps[1..], stoi);
    }
  }

  /** When every pair has at least two words, each pair gives exactly one
      example, from its own ids. */
  lemma {:induction false} ExamplesOfLongPairs(ps: seq<Pair>, stoi: map<string, int>)
    requires forall k :: 0 <= k < |ps| ==> |Sequence(ps[k], stoi)| > 1
    ensures |Examples(ps, stoi)| == |ps|
    ensures forall k :: 0 <= k < |ps| ==> Examples(ps, stoi)[k] == ExampleOf(ps[k], stoi)[0]
  {
    if ps != [] {
      ExamplesOfLongPairs(ps[1..], stoi);
      assert forall k :: 1 <= k < |ps| ==> ps[1..][k - 1] == ps[k];
    }
  }

  /** With the vocabulary built from the pairs themselves, every id of every
      example names a vocabulary word: the 0 for unknown words is never used
      as a fallback. */
  lemma ExampleIdsInVocab(prompts: seq<string>, responses: seq<string>)
    ensures var v := BuildVocab(AllText(prompts, responses));
      forall e :: e in Examples(Zip(prompts, responses), v.stoi) ==>
        (forall i :: 0 <= i < |e.input| ==> e.input[i] in v.itos) &&
        (forall i :: 0 <= i < |e.target| ==> e.target[i] in v.itos)
  {
    var v := BuildVocab(AllText(prompts, responses));
    var ps := Zip(prompts, responses);
    forall k | 0 <= k < |ps| ensures IdsIn(Sequence(ps[k], v.stoi), v.itos) {
      SequenceInVocab(prompts, responses, k);
    }
    ExamplesInVocab(ps, v.stoi, v.itos);
  }

  predicate IdsIn(s: seq<int>, itos: map<int, string>) {
    forall i :: 0 <= i < |s| ==> s[i] in itos
  }

  lemma SequenceInVocab(prompts: seq<string>, responses: seq<string>, k: nat)
    requires k < |Zip(prompts, responses)|
    ensures var v := BuildVocab(AllText(prompts, responses));
      IdsIn(Sequence(Zip(prompts, responses)[k], v.stoi), v.itos)
  {
    var v := BuildVocab(AllText(prompts, responses));
    var p := Zip(prompts, responses)[k];
    var a, b := Tokenize(p.prompt), Tokenize(p.response);
    forall i | 0 <= i < |a| ensures Encode(a, v.stoi)[i] in v.itos {
      VocabCoversPairs(prompts, responses, k, a[i]);
    }
    forall i | 0 <= i < |b| ensures Encode(b, v.stoi)[i] in v.itos {
      VocabCoversPairs(prompts, responses, k, b[i]);
    }
  }

  lemma {:induction false} ExamplesInVocab(ps: seq<Pair>, stoi: map<string, int>, itos: map<int, string>)
    requires forall k :: 0 <= k < |ps| ==> IdsIn(Sequence(ps[k], stoi), itos)
    ensures forall e :: e in Examples(ps, stoi) ==> IdsIn(e.input, itos) && IdsIn(e.target, itos)
  {
    if ps != [] {
      ExamplesInVocab(ps[1..], stoi, itos);
      var s := Sequence(ps[0], stoi);
      assert IdsIn(s, itos);
      if |s| > 1 {
        assert IdsIn(s[..|s| - 1], itos) && IdsIn(s[1..], itos);
      }
    }
  }

  // ---------------------------------------------------------------- preparation

  /** The outcome of the data preparation: data.txt could not be read, too
      few pairs (the trainer exits with status 1), or the training data. */
  datatype Preparation =
    | Unreadable
    | TooFewPairs(count: nat)
    | Ready(prompts: seq<string>, responses: seq<string>, vocab: Vocab,
            inputs: seq<seq<int>>, targets: seq<seq<int>>)

  /** The preparation of the training data from the content of data.txt
      (`None` when it cannot be opened). */
  method Prepare(data: Option<string>) returns (r: Preparation)
    ensures data.None? <==> r.Unreadable?
    ensures data.Some? ==> (|PairUp(StrippedLines(data.value))| < MinPairs <==> r.TooFewPairs?)
    ensures r.TooFewPairs? ==> r.count == |PairUp(StrippedLines(data.value))|
    ensures r.Ready? ==>
      && |r.prompts| == |r.responses|
      && Zip(r.prompts, r.responses) == PairUp(StrippedLines(data.value))
      && r.vocab == BuildVocab(AllText(r.prompts, r.responses))
      && r.inputs == Map(Examples(Zip(r.prompts, r.responses), r.vocab.stoi), InputOf)
      && r.targets == Map(Examples(Zip(r.prompts, r.responses), r.vocab.stoi), TargetOf)
  {
    if data.None? {
      return Unreadable;
    }
    var lines := StrippedLines(data.value);
    var prompts, responses := ReadPairs(lines);
    if |prompts| < MinPairs {
      return TooFewPairs(|prompts|);
    }
    var vocab := BuildVocab(AllText(prompts, responses));
    var xs, ys := MakeSequences(prompts, responses, vocab.stoi);
    r := Ready(prompts, responses, vocab, xs, ys);
  }

  // ---------------------------------------------------------------- reusing the model

  /** The weights training starts from. */
  datatype Start = Resume(state: seq<int>) | FromScratch

  /** The trainer's reading of the previous model (`None` when model.pth is
      missing or cannot be loaded): a dictionary whose vocabulary size equals
      the new vocabulary's gives its weights; anything else, including the
      old tuple format, a changed vocabulary, or a missing or malformed
      weights entry (the load raises and is caught), starts from scratch. */
  function InitialWeights(c: Option<Checkpoint>, vocabSize: nat): Start {
    if c.Some? && c.value.Dict? then
      var e := c.value.entries;
      if VocabSizeKey in e && e[VocabSizeKey] == Number(vocabSize) && StateKey in e && e[StateKey].StateDict? then
        Resume(e[StateKey].params)
      else FromScratch
    else FromScratch
  }

  /** A model saved by the trainer is resumed exactly when the vocabulary
      kept its size, and then with its own weights. */
  lemma ResumeSaved(a: Artifact, vocabSize: nat)
    ensures InitialWeights(Some(Saved(a)), vocabSize) ==
      if |a.stoi| == vocabSize then Resume(a.state) else FromScratch
  {
    var e := Saved(a).entries;
    assert e[VocabSizeKey] == Number(|a.stoi|);
    assert e[StateKey] == StateDict(a.state);
  }

  /** Weights are only reused from a dictionary recording the same
      vocabulary size; the old tuple format, which the generator still
      loads, is always retrained. */
  lemma ResumeNeedsSize(c: Option<Checkpoint>, vocabSize: nat)
    ensures InitialWeights(c, vocabSize).Resume? ==>
      c.Some? && c.value.Dict? && VocabSizeKey in c.value.entries
      && c.value.entries[VocabSizeKey] == Number(vocabSize)
    ensures c.Some? && c.value.Tuple? ==> InitialWeights(c, vocabSize) == FromScratch
  {
  }
}

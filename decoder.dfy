/** The reply generator (`generar`): how a user message becomes a prompt,
    when the message is rejected as not understood, how words are drawn
    from the network one at a time until a stop rule fires, and how the
    drawn words are formatted into a reply. The network and the random
    draws are a parameter `next`: given the token context so far it names
    the id drawn next. */
module Decoder {
  import opened Collections
  import opened Text
  import opened Tokenizer
  import opened ModelFile

  const Greeting := "Hola, ¿cómo estás?"

  /** Replies for a message with too few known words. */
  const NotUnderstood: seq<string> :=
    ["No entiendo completamente", "¿Puedes explicar mejor?", "Interesante pregunta", "Hablemos de otra cosa"]

  /** Drawn words that end the reply. */
  const StopWords: seq<string> :=
    [".", "!", "?", "fin", "adiós", "adios", "bye", "chao", "luego", "stop", "parar"]

  /** Words added to a one-word reply. */
  const Fillers: seq<string> := ["bien", "gracias", "si", "no", "tal vez", "claro"]

  /** Replies when no word could be drawn. */
  const Fallbacks: seq<string> :=
    ["No sé qué decir sobre eso.", "Podrías reformular la pregunta?", "Eso es interesante, dime más.",
     "No estoy seguro de cómo responder.", "Hablemos de otra cosa."]

  /** The longest reply the application asks for. */
  const DefaultMaxWords := 8

  // ---------------------------------------------------------------- the prompt

  /** Ids of the message's words as written: a word outside the vocabulary
      gets the sentinel 0. */
  function SeedIdsAsWritten(seed: string, stoi: map<string, int>): (ids: seq<int>)
    ensures |ids| == |Tokenize(seed)|
  {
    Encode(Tokenize(seed), stoi)
  }

  /** The test `id != 0` by which the code as written tells known words. */
  predicate NonZero(id: int) {
    id != 0
  }

  /** A word of the vocabulary is a word the tokenizer returns unchanged. */
  lemma TokenizeToken(text: string, w: string)
    requires w in Tokenize(text)
    ensures Tokenize(w) == [w]
  {
    var k :| 0 <= k < |Tokenize(text)| && Tokenize(text)[k] == w;
    assert Lower(w) == w;
    SplitWord(w);
  }

  /** The ids of the message's words that are in the vocabulary, in order. */
  function PromptIds(words: seq<string>, stoi: map<string, int>): (ids: seq<int>)
    ensures |ids| <= |words|
    ensures forall i :: 0 <= i < |ids| ==> ids[i] in stoi.Values
  {
    if words == [] then []
    else if words[0] in stoi then [stoi[words[0]]] + PromptIds(words[1..], stoi)
    else PromptIds(words[1..], stoi)
  }

  /** The ids `generar` counts as known and draws from. As written, every
      id 0 is removed from the encoding with the sentinel, which also
      removes the word the vocabulary numbers 0; corrected, exactly the
      words in the vocabulary give their ids. */
  function Prompt(seed: string, stoi: map<string, int>, v: Version): seq<int> {
    match v
    case AsWritten => Filter(SeedIdsAsWritten(seed, stoi), NonZero)
    case Corrected => PromptIds(Tokenize(seed), stoi)
  }

  /** The rejection test: no words, or fewer known words than one, or than
      30% of the words. */
  predicate TooFewKnown(seed: string, stoi: map<string, int>, v: Version): (r: bool)
    ensures Tokenize(seed) == [] ==> r
    ensures !r ==> 1 <= |Prompt(seed, stoi, v)| <= |Tokenize(seed)|
  {
    var n := |Tokenize(seed)|;
    var known := |Prompt(seed, stoi, v)|;
    n == 0 || known < 1 || 10 * known < 3 * n
  }

  /** As written, the prompt is the corrected prompt with its zeros removed;
      when no word of the message is numbered 0 the two are the same. */
  lemma {:induction false} PromptAsWritten(words: seq<string>, stoi: map<string, int>)
    ensures Filter(Encode(words, stoi), NonZero) == Filter(PromptIds(words, stoi), NonZero)
    ensures (forall k :: 0 <= k < |words| && words[k] in stoi ==> stoi[words[k]] != 0) ==>
      Filter(Encode(words, stoi), NonZero) == PromptIds(words, stoi)
  {
    if words != [] {
      var w := words[0];
      var rest := words[1..];
      PromptAsWritten(rest, stoi);
      assert Encode(words, stoi) == [if w in stoi then stoi[w] else 0] + Encode(rest, stoi);
      if w in stoi {
        assert PromptIds(words, stoi) == [stoi[w]] + PromptIds(rest, stoi);
        FilterCons(stoi[w], Encode(rest, stoi), NonZero);
        FilterCons(stoi[w], PromptIds(rest, stoi), NonZero);
        if forall k :: 0 <= k < |words| && words[k] in stoi ==> stoi[words[k]] != 0 {
          assert forall k :: 0 <= k < |rest| && rest[k] in stoi ==> stoi[rest[k]] != 0 by {
            forall k | 0 <= k < |rest| && rest[k] in stoi ensures stoi[rest[k]] != 0 {
              assert rest[k] == words[k + 1];
            }
          }
        }
      } else {
        FilterCons(0, Encode(rest, stoi), NonZero);
        if forall k :: 0 <= k < |words| && words[k] in stoi ==> stoi[words[k]] != 0 {
          assert forall k :: 0 <= k < |rest| && rest[k] in stoi ==> stoi[rest[k]] != 0 by {
            forall k | 0 <= k < |rest| && rest[k] in stoi ensures stoi[rest[k]] != 0 {
              assert rest[k] == words[k + 1];
            }
          }
        }
      }
    }
  }

  /** A word of the message that is in the vocabulary gives its id to the
      corrected prompt. */
  lemma {:induction false} PromptIdsHas(words: seq<string>, stoi: map<string, int>, w: string)
    requires w in words && w in stoi
    ensures stoi[w] in PromptIds(words, stoi)
  {
    if words[0] != w {
      assert w in words[1..];
      PromptIdsHas(words[1..], stoi, w);
    }
  }

  /** The vocabulary numbers its alphabetically smallest word 0, so a
      message made of that word alone is rejected as not understood although
      the word is in the vocabulary. */
  lemma SmallestWordRejectedAsWritten(text: string, w: string)
    requires w in Tokenize(text)
    requires forall u :: u in Tokenize(text) ==> u == w || Less(w, u)
    ensures w in BuildVocab(text).stoi
    ensures TooFewKnown(w, BuildVocab(text).stoi, AsWritten)
  {
    var stoi := BuildVocab(text).stoi;
    SmallestWordIsZero(text, w);
    TokenizeToken(text, w);
    var ids := SeedIdsAsWritten(w, stoi);
    assert ids == [0];
    assert Filter(ids, NonZero) == [];
  }

  /** In any message holding the vocabulary's smallest word, the code as
      written drops that word's id 0 from the context it draws from, while
      the corrected prompt keeps it. */
  lemma SmallestWordDroppedAsWritten(text: string, w: string, seed: string)
    requires w in Tokenize(text) && w in Tokenize(seed)
    requires forall u :: u in Tokenize(text) ==> u == w || Less(w, u)
    ensures 0 !in Prompt(seed, BuildVocab(text).stoi, AsWritten)
    ensures 0 in Prompt(seed, BuildVocab(text).stoi, Corrected)
  {
    var stoi := BuildVocab(text).stoi;
    SmallestWordIsZero(text, w);
    PromptIdsHas(Tokenize(seed), stoi, w);
  }

  /** When every word is in the vocabulary, the prompt is their ids in order. */
  lemma {:induction false} PromptOfKnownWords(words: seq<string>, stoi: map<string, int>)
    requires forall k :: 0 <= k < |words| ==> words[k] in stoi
    ensures |PromptIds(words, stoi)| == |words|
    ensures forall k :: 0 <= k < |words| ==> PromptIds(words, stoi)[k] == stoi[words[k]]
  {
    if words != [] {
      PromptOfKnownWords(words[1..], stoi);
    }
  }

  /** A message whose words all occur in the training text is never
      rejected by the corrected test. */
  lemma VocabularyMessageUnderstood(text: string, seed: string)
    requires Tokenize(seed) != []
    requires forall u :: u in Tokenize(seed) ==> u in Tokenize(text)
    ensures !TooFewKnown(seed, BuildVocab(text).stoi, Corrected)
  {
    var stoi := BuildVocab(text).stoi;
    var ws := Tokenize(seed);
    assert forall k :: 0 <= k < |ws| ==> ws[k] in stoi by {
      forall k | 0 <= k < |ws| ensures ws[k] in stoi {
        assert ws[k] in Tokenize(text);
      }
    }
    PromptOfKnownWords(ws, stoi);
  }

  // ---------------------------------------------------------------- drawing words

  /** The drawn words and the token context they were drawn from. */
  datatype Emission = Emission(words: seq<string>, context: seq<int>)

  /** `itos.get(id, "")` */
  function Lookup(itos: map<int, string>, id: int): (w: string)
    ensures w != [] ==> id in itos && w == itos[id]
  {
    if id in itos then itos[id] else ""
  }

  /** The distinct words drawn so far. */
  function Elements(words: seq<string>): set<string> {
    set w | w in words
  }

  /** The last two drawn words (fewer when fewer were drawn). */
  function LastTwo(words: seq<string>): seq<string> {
    if |words| <= 2 then words else words[|words| - 2..]
  }

  /** The stop rules checked on the word drawn at step `i`, after `words`. */
  predicate Stops(w: string, i: nat, words: seq<string>) {
    || w == []
    || w in StopWords
    || (i >= 5 && |words| >= 3)
    || w in LastTwo(words)
    || |Elements(words)| >= 7
  }

  /** What the drawing loop works with besides its own state: the step
      limit, the vocabulary, the network's draw for a context, and the rule
      that rejects a drawn word. */
  datatype Drawer = Drawer(maxWords: nat, itos: map<int, string>, next: seq<int> -> int,
                           stop: (string, nat, seq<string>) -> bool)

  /** The drawer of `generar`, with its stop rules. */
  function Sampler(maxWords: nat, itos: map<int, string>, next: seq<int> -> int): (d: Drawer)
    ensures d.stop == Stops
  {
    Drawer(maxWords, itos, next, Stops)
  }

  /** The drawing loop from step `i` on, with context `x` and the words
      drawn so far. */
  function Emit(d: Drawer, x: seq<int>, words: seq<string>, i: nat): (e: Emission)
    ensures |words| <= |e.words| && e.words[..|words|] == words
    ensures i <= d.maxWords ==> |e.words| <= |words| + d.maxWords - i
    ensures i >= d.maxWords ==> e.words == words
    ensures |e.context| == |x| + |e.words| - |words| && e.context[..|x|] == x
    decreases d.maxWords - i
  {
    if i >= d.maxWords then Emission(words, x)
    else
      var id := d.next(x);
      var w := Lookup(d.itos, id);
      if d.stop(w, i, words) then Emission(words, x)
      else
        var e := Emit(d, x + [id], words + [w], i + 1);
        assert e.words[..|words|] == (e.words[..|words| + 1])[..|words|];
        assert e.context[..|x|] == (e.context[..|x| + 1])[..|x|];
        e
  }

  /** The loop ends at the step limit or at a draw the stop rule rejects. */
  lemma {:induction false} EmitStopped(d: Drawer, x: seq<int>, words: seq<string>)
    ensures |Emit(d, x, words, |words|).words| < d.maxWords ==>
      d.stop(Lookup(d.itos, d.next(Emit(d, x, words, |words|).context)), |Emit(d, x, words, |words|).words|,
             Emit(d, x, words, |words|).words)
    decreases d.maxWords - |words|
  {
    var i := |words|;
    if i < d.maxWords {
      var id := d.next(x);
      var w := Lookup(d.itos, id);
      if !d.stop(w, i, words) {
        EmitStopped(d, x + [id], words + [w]);
      }
    }
  }

  /** What the loop draws: each id added to the context is the one drawn
      from the context before it. */
  lemma {:induction false} EmitDraws(d: Drawer, x: seq<int>, words: seq<string>)
    ensures forall j :: |x| <= j < |Emit(d, x, words, |words|).context| ==>
      Emit(d, x, words, |words|).context[j] == d.next(Emit(d, x, words, |words|).context[..j])
    decreases d.maxWords - |words|
  {
    var i := |words|;
    if i < d.maxWords && !d.stop(Lookup(d.itos, d.next(x)), i, words) {
      var id := d.next(x);
      var w := Lookup(d.itos, id);
      var x2, words2 := x + [id], words + [w];
      EmitDraws(d, x2, words2);
      var e := EmitStep(d, x, words);
      DrawAt(x, id, e.context);
      forall j | |x| <= j < |e.context|
        ensures e.context[j] == d.next(e.context[..j])
      {
      }
    }
  }

  /** Each word kept is the vocabulary word of the id drawn with it. */
  lemma {:induction false} EmitLooksUp(d: Drawer, x: seq<int>, words: seq<string>)
    ensures forall j :: |x| <= j < |Emit(d, x, words, |words|).context| ==>
      Emit(d, x, words, |words|).words[|words| + j - |x|] == Lookup(d.itos, Emit(d, x, words, |words|).context[j])
    decreases d.maxWords - |words|
  {
    var i := |words|;
    if i < d.maxWords && !d.stop(Lookup(d.itos, d.next(x)), i, words) {
      var id := d.next(x);
      var w := Lookup(d.itos, id);
      var x2, words2 := x + [id], words + [w];
      EmitLooksUp(d, x2, words2);
      var e := EmitStep(d, x, words);
      DrawAt(x, id, e.context);
      DrawAt(words, w, e.words);
      forall j | |x| <= j < |e.context|
        ensures e.words[i + j - |x|] == Lookup(d.itos, e.context[j])
      {
        if j > |x| {
          assert |x2| <= j && |words2| + j - |x2| == i + j - |x|;
        }
      }
    }
  }

  /** The stop rule held for no kept word. */
  lemma {:induction false} EmitKept(d: Drawer, x: seq<int>, words: seq<string>)
    ensures forall k :: |words| <= k < |Emit(d, x, words, |words|).words| ==>
      !d.stop(Emit(d, x, words, |words|).words[k], k, Emit(d, x, words, |words|).words[..k])
    decreases d.maxWords - |words|
  {
    var i := |words|;
    if i < d.maxWords && !d.stop(Lookup(d.itos, d.next(x)), i, words) {
      var id := d.next(x);
      var w := Lookup(d.itos, id);
      EmitKept(d, x + [id], words + [w]);
      var e := EmitStep(d, x, words);
      DrawAt(words, w, e.words);
    }
  }

  /** One step of the loop: a draw the stop rule does not reject is kept. */
  lemma EmitStep(d: Drawer, x: seq<int>, words: seq<string>) returns (e: Emission)
    requires |words| < d.maxWords && !d.stop(Lookup(d.itos, d.next(x)), |words|, words)
    ensures e == Emit(d, x, words, |words|)
    ensures e == Emit(d, x + [d.next(x)], words + [Lookup(d.itos, d.next(x))], |words| + 1)
  {
    e := Emit(d, x + [d.next(x)], words + [Lookup(d.itos, d.next(x))], |words| + 1);
  }

  lemma DrawAt<T>(x: seq<T>, id: T, context: seq<T>)
    requires |x| < |context| && context[..|x| + 1] == x + [id]
    ensures context[..|x|] == x && context[|x|] == id
  {
    assert context[..|x|] == (context[..|x| + 1])[..|x|];
    assert context[|x|] == (context[..|x| + 1])[|x|];
  }

  lemma ElementsSnoc(s: seq<string>, w: string)
    ensures Elements(s + [w]) == Elements(s) + {w}
  {
  }

  /** `len(set(s)) <= len(s)` */
  lemma {:induction false} ElementsBound(s: seq<string>)
    ensures |Elements(s)| <= |s|
  {
    if s != [] {
      ElementsBound(s[1..]);
      assert Elements(s) == {s[0]} + Elements(s[1..]);
    }
  }

  /** A word the stop rules let through at step `k`, after `prev`. */
  lemma KeptWord(w: string, k: nat, prev: seq<string>)
    requires |prev| == k && !Stops(w, k, prev)
    ensures w != [] && w !in StopWords && k < 5
    ensures k >= 1 ==> w != prev[k - 1]
    ensures k >= 2 ==> w != prev[k - 2]
  {
    if k >= 1 {
      assert prev[k - 1] in LastTwo(prev);
    }
    if k >= 2 {
      assert prev[k - 2] in LastTwo(prev);
    }
  }

  /** The drawn words: at most five (and at most the limit), each a
      non-empty vocabulary word that is no stop word and differs from the two
      words before it. */
  lemma EmitShape(x: seq<int>, maxWords: nat, itos: map<int, string>, next: seq<int> -> int)
    ensures var r := Emit(Sampler(maxWords, itos, next), x, [], 0).words;
      && |r| <= maxWords && |r| <= 5
      && (forall k :: 0 <= k < |r| ==>
            && r[k] != [] && r[k] in itos.Values && r[k] !in StopWords
            && (k >= 1 ==> r[k] != r[k - 1])
            && (k >= 2 ==> r[k] != r[k - 2]))
  {
    var r := Emit(Sampler(maxWords, itos, next), x, [], 0).words;
    forall k | 0 <= k < |r|
      ensures && r[k] != [] && r[k] in itos.Values && r[k] !in StopWords
              && (k >= 1 ==> r[k] != r[k - 1])
              && (k >= 2 ==> r[k] != r[k - 2])
    {
      DrawnWord(x, maxWords, itos, next, k);
    }
    if r != [] {
      DrawnWord(x, maxWords, itos, next, |r| - 1);
    }
  }

  /** The `k`-th drawn word is a vocabulary word the stop rules let through. */
  predicate WellDrawn(r: seq<string>, k: nat, itos: map<int, string>)
    requires k < |r|
  {
    && r[k] != [] && r[k] in itos.Values && r[k] !in StopWords && k < 5
    && (k >= 1 ==> r[k] != r[k - 1])
    && (k >= 2 ==> r[k] != r[k - 2])
  }

  lemma DrawnWord(x: seq<int>, maxWords: nat, itos: map<int, string>, next: seq<int> -> int, k: nat)
    requires k < |Emit(Sampler(maxWords, itos, next), x, [], 0).words|
    ensures WellDrawn(Emit(Sampler(maxWords, itos, next), x, [], 0).words, k, itos)
  {
    var d := Sampler(maxWords, itos, next);
    var e := Emit(d, x, [], 0);
    var r := e.words;
    EmitKept(d, x, []);
    assert !d.stop(r[k], k, r[..k]);
    KeptWord(r[k], k, r[..k]);
    DrawnFromVocabulary(d, x, k);
  }

  /** The `k`-th drawn word is the vocabulary's word for the `k`-th draw. */
  lemma DrawnFromVocabulary(d: Drawer, x: seq<int>, k: nat)
    requires k < |Emit(d, x, [], 0).words|
    ensures Emit(d, x, [], 0).words[k] == Lookup(d.itos, Emit(d, x, [], 0).context[|x| + k])
  {
    var e := Emit(d, x, [], 0);
    EmitLooksUp(d, x, []);
    var j := |x| + k;
    assert |x| <= j < |e.context|;
    assert e.words[j - |x|] == Lookup(d.itos, e.context[j]);
  }

  /** The rule on seven distinct words never fires: at most five words are
      ever drawn. */
  lemma DistinctRuleDormant(x: seq<int>, maxWords: nat, itos: map<int, string>, next: seq<int> -> int)
    ensures var r := Emit(Sampler(maxWords, itos, next), x, [], 0).words;
      forall k :: 0 <= k <= |r| ==> |Elements(r[..k])| < 7
  {
    var r := Emit(Sampler(maxWords, itos, next), x, [], 0).words;
    EmitShape(x, maxWords, itos, next);
    forall k | 0 <= k <= |r| ensures |Elements(r[..k])| < 7 {
      ElementsBound(r[..k]);
    }
  }

  /** The drawing loop of `generar`, from the prompt: at most `maxWords`
      draws, each checked against the stop rules before it is kept. */
  method SampleWords(prompt: seq<int>, maxWords: nat, itos: map<int, string>, next: seq<int> -> int)
    returns (words: seq<string>)
    ensures words == Emit(Sampler(maxWords, itos, next), prompt, [], 0).words
  {
    ghost var d := Sampler(maxWords, itos, next);
    words := [];
    var used: set<string> := {};
    var x := prompt;
    for i := 0 to maxWords
      invariant |words| == i
      invariant used == Elements(words)
      invariant Emit(d, x, words, |words|) == Emit(d, prompt, [], 0)
    {
      var id := next(x);
      var w := Lookup(itos, id);
      var recent := if |words| <= 2 then words else words[|words| - 2..];
      var stop := w == [] || w in StopWords || (i >= 5 && |words| >= 3) || w in recent || |used| >= 7;
      StopsAsChecked(w, words, used);
      if stop {
        EmitHalts(d, x, words);
        break;
      }
      ghost var e := EmitStep(d, x, words);
      ElementsSnoc(words, w);
      words := words + [w];
      used := used + {w};
      x := x + [id];
    }
  }

  /** The stop rules as the loop checks them, with the set of the words so far. */
  lemma StopsAsChecked(w: string, words: seq<string>, used: set<string>)
    requires used == Elements(words)
    ensures Stops(w, |words|, words) ==
      (w == [] || w in StopWords || (|words| >= 5 && |words| >= 3)
       || w in (if |words| <= 2 then words else words[|words| - 2..]) || |used| >= 7)
  {
  }

  /** A draw the stop rule rejects ends the loop. */
  lemma EmitHalts(d: Drawer, x: seq<int>, words: seq<string>)
    requires |words| < d.maxWords && d.stop(Lookup(d.itos, d.next(x)), |words|, words)
    ensures Emit(d, x, words, |words|) == Emission(words, x)
  {
  }

  // ---------------------------------------------------------------- formatting

  predicate IsMark(c: char) {
    c == '.' || c == '!' || c == '?'
  }

  /** `s.endswith((".", "!", "?"))` */
  predicate EndsWithMark(s: string) {
    s != [] && IsMark(s[|s| - 1])
  }

  /** A final period unless the text already ends with a mark. */
  function Punctuate(s: string): (r: string)
    ensures EndsWithMark(r)
  {
    if EndsWithMark(s) then s else s + "."
  }

  /** A text of more than eight words is cut to its first eight, joined by
      single spaces, and given a period. */
  function CutToEight(s: string): string {
    var parts := Split(s);
    if |parts| > 8 then Join(parts[..8], " ") + "." else s
  }

  /** Formatting of the capitalized text: punctuated, cut to eight words,
      and, when it was a single word and ends in a period, every period
      replaced by a space, the filler `extra` and a period. */
  function Format(cap: string, extra: string): (r: string)
    ensures EndsWithMark(r)
  {
    var marked := Punctuate(cap);
    var cut := CutToEight(marked);
    if |Split(marked)| < 2 && EndsWith(cut, ".") then
      FillerKeepsMark(cut, " " + extra + ".");
      ReplaceAll(cut, ".", " " + extra + ".")
    else
      cut
  }

  /** The reply made of the drawn words: joined by spaces, capitalized and
      formatted; it always ends with a mark. */
  function Finish(words: seq<string>, extra: string): (r: string)
    ensures EndsWithMark(r)
  {
    Format(Capitalize(Join(words, " ")), extra)
  }

  /** The replies `Finish` can give for the drawn words, one per filler. */
  function FinishedReplies(words: seq<string>): set<string> {
    set e | e in Fillers :: Finish(words, e)
  }

  /** Replacing the periods of a text that ends with one by a text that
      ends with a period leaves a text ending with a period. */
  lemma FillerKeepsMark(cut: string, rep: string)
    requires EndsWith(cut, ".") && EndsWith(rep, ".")
    ensures EndsWithMark(ReplaceAll(cut, ".", rep))
  {
    var body := cut[..|cut| - 1];
    assert cut == body + ['.'];
    ReplaceAllLastChar(body, '.', rep);
  }

  /** Changing case keeps whitespace and marks where they are. */
  lemma CaseChar(c: char)
    ensures IsSpace(LowerChar(c)) == IsSpace(c) && IsMark(LowerChar(c)) == IsMark(c)
    ensures IsSpace(UpperChar(c)) == IsSpace(c) && IsMark(UpperChar(c)) == IsMark(c)
  {
  }

  /** A capitalized word without marks is still such a word. */
  lemma CapitalizeWord(w: string)
    requires IsWord(w) && forall j :: 0 <= j < |w| ==> !IsMark(w[j])
    ensures IsWord(Capitalize(w)) && forall j :: 0 <= j < |Capitalize(w)| ==> !IsMark(Capitalize(w)[j])
  {
    var rest := Lower(w[1..]);
    forall j | 0 <= j < |rest| ensures !IsSpace(rest[j]) && !IsMark(rest[j]) {
      CaseChar(w[1..][j]);
    }
    CaseChar(w[0]);
  }

  /** A single drawn word without marks becomes the capitalized word, a
      space, the filler and a period. */
  lemma FinishOneWord(w: string, extra: string)
    requires IsWord(w) && forall j :: 0 <= j < |w| ==> !IsMark(w[j])
    ensures Finish([w], extra) == Capitalize(w) + " " + extra + "."
  {
    CapitalizeWord(w);
    assert Join([w], " ") == w;
    PadOneWord(Capitalize(w), extra);
  }

  /** A single word without marks gets a period, and then the period
      becomes the filler. */
  lemma PadOneWord(cap: string, extra: string)
    requires IsWord(cap) && forall j :: 0 <= j < |cap| ==> !IsMark(cap[j])
    ensures Format(cap, extra) == cap + " " + extra + "."
  {
    PunctuateWord(cap);
    PeriodBecomesFiller(cap, " " + extra + ".");
  }

  /** A word without marks is punctuated with a period, stays one word and
      is not cut. */
  lemma PunctuateWord(cap: string)
    requires IsWord(cap) && forall j :: 0 <= j < |cap| ==> !IsMark(cap[j])
    ensures Punctuate(cap) == cap + "."
    ensures |Split(cap + ".")| < 2 && CutToEight(cap + ".") == cap + "."
    ensures EndsWith(cap + ".", ".")
  {
    var marked := cap + ".";
    assert IsWord(marked);
    SplitWord(marked);
  }

  /** In a text without periods, only the final period is replaced. */
  lemma PeriodBecomesFiller(cap: string, rep: string)
    requires forall j :: 0 <= j < |cap| ==> !IsMark(cap[j])
    ensures ReplaceAll(cap + ".", ".", rep) == cap + rep
  {
    assert '.' !in cap;
    MissingCharNotContained(cap, ".", '.');
    ReplaceAllAbsent(cap, ".", rep);
    ReplaceAllLastChar(cap, '.', rep);
  }

  // ---------------------------------------------------------------- generar

  /** The replies `generar(seed, maxWords)` may give in version `v` with
      the model `a` and the draws `next`: the greeting for a blank message; one of the
      not-understood replies when too few of its words are known; otherwise,
      for the words drawn, a fallback sentence when none were kept and a
      finished sentence when some were. */
  predicate Answers(a: Artifact, next: seq<int> -> int, seed: string, maxWords: nat, v: Version, reply: string) {
    && (IsBlank(seed) ==> reply == Greeting)
    && (!IsBlank(seed) && TooFewKnown(seed, a.stoi, v) ==> reply in NotUnderstood)
    && (!IsBlank(seed) && !TooFewKnown(seed, a.stoi, v) ==>
          var r := Emit(Sampler(maxWords, a.itos, next), Prompt(seed, a.stoi, v), [], 0).words;
          (r == [] ==> reply in Fallbacks) && (r != [] ==> reply in FinishedReplies(r)))
  }

  /** `generar(seed, max_palabras)` with the loaded artifact `a`: a blank
      message is greeted, a message with too few known words gets one of the
      not-understood replies, otherwise words are drawn from the prompt and
      formatted, or a fallback sentence is chosen when none was drawn. The
      random choices among fixed replies are left open. `v` says whether the
      known words are told as written (`AsWritten`) or by vocabulary
      membership (`Corrected`). */
  method Generate(a: Artifact, next: seq<int> -> int, seed: string, maxWords: nat, v: Version)
    returns (reply: string)
    ensures Answers(a, next, seed, maxWords, v, reply)
  {
    if IsBlank(seed) {
      return Greeting;
    }
    var words := Tokenize(seed);
    var prompt := Prompt(seed, a.stoi, v);
    if words == [] || |prompt| < 1 || 10 * |prompt| < 3 * |words| {
      assert NotUnderstood[0] in NotUnderstood;
      reply :| reply in NotUnderstood;
      return;
    }
    var drawn := SampleWords(prompt, maxWords, a.itos, next);
    if drawn != [] {
      assert Fillers[0] in Fillers;
      var extra :| extra in Fillers;
      reply := Finish(drawn, extra);
    } else {
      assert Fallbacks[0] in Fallbacks;
      reply :| reply in Fallbacks;
    }
  }

  /** Every reply `generar` gives after drawing words ends with a mark, and
      so does every fallback sentence. */
  lemma GeneratedRepliesEnd(words: seq<string>, reply: string)
    requires reply in FinishedReplies(words) || reply in Fallbacks
    ensures EndsWithMark(reply)
  {
    if reply in FinishedReplies(words) {
      var e :| e in Fillers && reply == Finish(words, e);
    }
  }

  /** No reply of `generar` is blank. */
  lemma AnswerNotBlank(a: Artifact, next: seq<int> -> int, seed: string, maxWords: nat, v: Version, reply: string)
    requires Answers(a, next, seed, maxWords, v, reply)
    ensures !IsBlank(reply)
  {
    if IsBlank(seed) {
      assert !IsSpace(reply[0]);
    } else if TooFewKnown(seed, a.stoi, v) {
      assert forall r :: r in NotUnderstood ==> !IsSpace(r[0]);
      assert !IsSpace(reply[0]);
    } else {
      var r := Emit(Sampler(maxWords, a.itos, next), Prompt(seed, a.stoi, v), [], 0).words;
      GeneratedRepliesEnd(r, reply);
      assert !IsSpace(reply[|reply| - 1]);
    }
  }
}

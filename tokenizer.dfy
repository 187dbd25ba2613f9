/** The tokenizer: lower-case whitespace tokenization, and the vocabulary
    that numbers the distinct tokens of a text in sorted order. */
module Tokenizer {
  import opened Collections
  import opened Text

  /** `tokenize(text)`: `text.lower().split()`. */
  function Tokenize(text: string): (r: seq<string>)
    ensures forall i :: 0 <= i < |r| ==> IsWord(r[i]) && Lower(r[i]) == r[i]
  {
    var low := Lower(text);
    SplitChars(low);
    var r := Split(low);
    assert forall i, j :: 0 <= i < |r| && 0 <= j < |r[i]| ==> LowerChar(r[i][j]) == r[i][j] by {
      forall i, j | 0 <= i < |r| && 0 <= j < |r[i]|
        ensures LowerChar(r[i][j]) == r[i][j]
      {
        var k :| 0 <= k < |low| && low[k] == r[i][j];
        assert low[k] == LowerChar(text[k]);
      }
    }
    r
  }

  /** `[stoi.get(t, 0) for t in tokens]`: the lookup the trainer and the
      generator both make, with 0 for a token outside the vocabulary. */
  function Encode(tokens: seq<string>, stoi: map<string, int>): (ids: seq<int>)
    ensures |ids| == |tokens|
  {
    Map(tokens, (t: string) => if t in stoi then stoi[t] else 0)
  }

  // ---------------------------------------------------------------- order

  /** Python's `<` on `str`: lexicographic by code point, a proper prefix first. */
  predicate Less(a: string, b: string)
    decreases |a|
  {
    b != [] && (a == [] || a[0] < b[0] || (a[0] == b[0] && Less(a[1..], b[1..])))
  }

  lemma {:induction false} LessIrreflexive(a: string)
    ensures !Less(a, a)
  {
    if a != [] {
      LessIrreflexive(a[1..]);
    }
  }

  lemma {:induction false} LessTransitive(a: string, b: string, c: string)
    requires Less(a, b) && Less(b, c)
    ensures Less(a, c)
    decreases |a|
  {
    if a != [] && a[0] == b[0] && b[0] == c[0] {
      LessTransitive(a[1..], b[1..], c[1..]);
    }
  }

  lemma {:induction false} LessTotal(a: string, b: string)
    ensures a == b || Less(a, b) || Less(b, a)
    decreases |a|
  {
    if a != [] && b != [] && a[0] == b[0] {
      LessTotal(a[1..], b[1..]);
      if a[1..] == b[1..] {
        assert a == [a[0]] + a[1..] && b == [b[0]] + b[1..];
      }
    }
  }

  lemma LessAsymmetric(a: string, b: string)
    requires Less(a, b)
    ensures !Less(b, a)
  {
    if Less(b, a) {
      LessTransitive(a, b, a);
      LessIrreflexive(a);
    }
  }

  predicate StrictlySorted(s: seq<string>) {
    forall i, j :: 0 <= i < j < |s| ==> Less(s[i], s[j])
  }

  /** Adds `w` to a strictly sorted list of distinct words, keeping it so. */
  function Insert(s: seq<string>, w: string): (r: seq<string>)
    requires StrictlySorted(s)
    ensures StrictlySorted(r)
    ensures forall x :: x in r <==> x in s || x == w
  {
    if s == [] then [w]
    else if w == s[0] then s
    else if Less(w, s[0]) then
      assert forall j :: 0 < j < |s| ==> Less(w, s[j]) by {
        forall j | 0 < j < |s| ensures Less(w, s[j]) { LessTransitive(w, s[0], s[j]); }
      }
      [w] + s
    else
      LessTotal(w, s[0]);
      var t := Insert(s[1..], w);
      assert forall x :: x in t ==> Less(s[0], x);
      [s[0]] + t
  }

  /** `sorted(set(tokens))` */
  function SortedDistinct(tokens: seq<string>): (r: seq<string>)
    ensures StrictlySorted(r)
    ensures forall x :: x in r <==> x in tokens
  {
    if tokens == [] then []
    else Insert(SortedDistinct(tokens[1..]), tokens[0])
  }

  // ---------------------------------------------------------------- vocabulary

  /** The two directions of the vocabulary, as saved in the model artifact. */
  datatype Vocab = Vocab(stoi: map<string, int>, itos: map<int, string>)

  /** The distinct tokens of `text`, in sorted order. */
  function Words(text: string): seq<string> {
    SortedDistinct(Tokenize(text))
  }

  /** `build_vocab(text)`: word i of the sorted distinct tokens gets index i. */
  function BuildVocab(text: string): (v: Vocab)
    ensures v.stoi.Keys == set t | t in Tokenize(text)
    ensures forall i :: i in v.itos <==> 0 <= i < |Words(text)|
    ensures forall w :: w in v.stoi ==> v.stoi[w] in v.itos && v.itos[v.stoi[w]] == w
    ensures forall i :: i in v.itos ==> v.itos[i] in v.stoi && v.stoi[v.itos[i]] == i
    ensures forall i, j :: i in v.itos && j in v.itos && i < j ==> Less(v.itos[i], v.itos[j])
  {
    var ws := Words(text);
    Numbering(ws);
    Vocab(Stoi(ws), Itos(ws))
  }

  /** Word `ws[i]` gets index `i`. */
  function Stoi(ws: seq<string>): map<string, int>
    requires StrictlySorted(ws)
  {
    SortedIsDistinct(ws);
    map i | 0 <= i < |ws| :: ws[i] := i
  }

  /** Index `i` names word `ws[i]`. */
  function Itos(ws: seq<string>): map<int, string> {
    map i | 0 <= i < |ws| :: ws[i]
  }

  /** The two maps of a sorted word list are inverse to each other and number
      the words in sorted order. */
  lemma Numbering(ws: seq<string>)
    requires StrictlySorted(ws)
    ensures forall w :: w in Stoi(ws) <==> w in ws
    ensures forall i :: i in Itos(ws) <==> 0 <= i < |ws|
    ensures forall w :: w in Stoi(ws) ==> Stoi(ws)[w] in Itos(ws) && Itos(ws)[Stoi(ws)[w]] == w
    ensures forall i :: i in Itos(ws) ==> Itos(ws)[i] in Stoi(ws) && Stoi(ws)[Itos(ws)[i]] == i
    ensures forall i, j :: i in Itos(ws) && j in Itos(ws) && i < j ==> Less(Itos(ws)[i], Itos(ws)[j])
  {
    var stoi, itos := Stoi(ws), Itos(ws);
    SortedIsDistinct(ws);
    assert forall w :: w in stoi <==> w in ws;
    forall i | i in itos ensures stoi[itos[i]] == i {
      assert itos[i] == ws[i];
    }
  }

  lemma SortedIsDistinct(ws: seq<string>)
    requires StrictlySorted(ws)
    ensures forall i, j :: 0 <= i < |ws| && 0 <= j < |ws| && i != j ==> ws[i] != ws[j]
  {
    forall i, j | 0 <= i < |ws| && 0 <= j < |ws| && i != j ensures ws[i] != ws[j] {
      LessIrreflexive(ws[i]);
    }
  }

  /** Every index names a distinct word: the vocabulary has one entry per
      distinct token, in both directions. */
  lemma VocabSize(text: string)
    ensures |BuildVocab(text).stoi| == |BuildVocab(text).itos| == |set t | t in Tokenize(text)|
  {
    ItosSize(text);
    StoiSize(text);
  }

  lemma ItosSize(text: string)
    ensures |BuildVocab(text).itos| == |Words(text)|
  {
    var itos := BuildVocab(text).itos;
    assert itos.Keys == Range(|Words(text)|);
    assert |itos| == |itos.Keys|;
  }

  lemma StoiSize(text: string)
    ensures |BuildVocab(text).stoi| == |Words(text)| == |set t | t in Tokenize(text)|
  {
    var ws := Words(text);
    DistinctCard(ws);
    var keys := BuildVocab(text).stoi.Keys;
    assert (set x | x in ws) == keys;
    assert |BuildVocab(text).stoi| == |keys|;
  }

  /** The indices 0 .. n-1. */
  function Range(n: nat): (r: set<int>)
    ensures forall i :: i in r <==> 0 <= i < n
    ensures |r| == n
  {
    if n == 0 then {} else Range(n - 1) + {n - 1}
  }

  lemma {:induction false} DistinctCard(s: seq<string>)
    requires StrictlySorted(s)
    ensures |set x | x in s| == |s|
  {
    if s != [] {
      DistinctCard(s[1..]);
      assert (set x | x in s) == {s[0]} + (set x | x in s[1..]);
      assert s[0] !in s[1..] by {
        if s[0] in s[1..] {
          var j :| 0 <= j < |s[1..]| && s[1..][j] == s[0];
          assert Less(s[0], s[j + 1]);
          LessIrreflexive(s[0]);
        }
      }
    }
  }

  /** The alphabetically smallest token of the text is the one numbered 0. */
  lemma SmallestWordIsZero(text: string, w: string)
    requires w in Tokenize(text)
    ensures var v := BuildVocab(text);
      0 in v.itos && (v.stoi[w] == 0 <==> forall u :: u in Tokenize(text) ==> u == w || Less(w, u))
  {
    var v := BuildVocab(text);
    assert w in v.stoi;
    var z := v.itos[0];
    if v.stoi[w] == 0 {
      forall u | u in Tokenize(text) ensures u == w || Less(w, u) {
        assert u in v.stoi;
      }
    } else {
      assert z in Tokenize(text);
      assert Less(z, w);
      LessAsymmetric(z, w);
    }
  }
}

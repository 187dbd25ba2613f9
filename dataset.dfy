/** Dataset construction (build_dataset.py): the corpus lines are paired
    into (prompt, response) lines appended to data.txt. */
module Dataset {
  import opened Collections
  import opened Text
  import opened Files
  import opened Corpus

  /** One training pair as written to data.txt: prompt line, response line. */
  datatype Pair = Pair(prompt: string, response: string)

  /** `line.replace(label, "").strip()`: every occurrence of the label is
      removed, not only the leading one. */
  function Extract(line: string, tag: string): string
    requires tag != []
  {
    Strip(ReplaceAll(line, tag, ""))
  }

  /** Whether lines `a`, `b` (in this order) form a pair the loop writes. */
  predicate IsPair(a: string, b: string) {
    && StartsWith(a, UserLabel) && StartsWith(b, BotLabel)
    && Extract(a, UserLabel) != [] && Extract(b, BotLabel) != []
  }

  /** The pair written for lines `a` and `b`. */
  function MakePair(a: string, b: string): Pair {
    Pair(Extract(a, UserLabel), Extract(b, BotLabel))
  }

  /** The shape of the loop of `build_dataset` over `lines`, for any test
      `ok` of two consecutive lines and any pair `make` builds from them: a
      pair consumes two lines, anything else skips one line, and a last
      unpaired line is never used. */
  function Scan<P>(lines: seq<string>, ok: (string, string) -> bool, make: (string, string) -> P): seq<P> {
    if |lines| < 2 then []
    else if ok(lines[0], lines[1]) then [make(lines[0], lines[1])] + Scan(lines[2..], ok, make)
    else Scan(lines[1..], ok, make)
  }

  /** The pairs `build_dataset` writes for the stripped, non-blank corpus lines. */
  function Pairs(lines: seq<string>): seq<Pair> {
    Scan(lines, IsPair, MakePair)
  }

  /** The lines written for a list of pairs: prompt then response, in order. */
  function PairLines(ps: seq<Pair>): (r: seq<string>)
    ensures |r| == 2 * |ps|
    ensures forall k :: 0 <= k < |ps| ==> r[2 * k] == ps[k].prompt && r[2 * k + 1] == ps[k].response
  {
    if ps == [] then []
    else
      var rest := PairLines(ps[1..]);
      assert forall k :: 1 <= k < |ps| ==> ps[k] == ps[1..][k - 1];
      [ps[0].prompt, ps[0].response] + rest
  }

  lemma {:induction false} PairLinesAppend(ps: seq<Pair>, p: Pair)
    ensures PairLines(ps + [p]) == PairLines(ps) + [p.prompt, p.response]
  {
    if ps != [] {
      assert (ps + [p])[1..] == ps[1..] + [p];
      PairLinesAppend(ps[1..], p);
    }
  }

  /** Every element of a scan is built from two consecutive lines that pass
      the test; the elements follow the order of the lines and no two share
      a line. */
  lemma {:induction false} ScanOrigin<P>(lines: seq<string>, ok: (string, string) -> bool, make: (string, string) -> P)
    returns (idx: seq<nat>)
    ensures |idx| == |Scan(lines, ok, make)|
    ensures forall k :: 0 <= k < |idx| ==>
      && idx[k] + 1 < |lines|
      && ok(lines[idx[k]], lines[idx[k] + 1])
      && Scan(lines, ok, make)[k] == make(lines[idx[k]], lines[idx[k] + 1])
    ensures forall k, m :: 0 <= k < m < |idx| ==> idx[k] + 2 <= idx[m]
  {
    if |lines| < 2 {
      idx := [];
    } else if ok(lines[0], lines[1]) {
      var rest := ScanOrigin(lines[2..], ok, make);
      var shifted := Shift(lines, 2, rest, Scan(lines[2..], ok, make), ok, make);
      idx := [0] + shifted;
      assert forall k :: 0 < k < |idx| ==> idx[k] == shifted[k - 1];
    } else {
      var rest := ScanOrigin(lines[1..], ok, make);
      idx := Shift(lines, 1, rest, Scan(lines[1..], ok, make), ok, make);
    }
  }

  /** Origins found in `lines[d..]`, moved to `lines`. */
  lemma Shift<P>(lines: seq<string>, d: nat, rest: seq<nat>, r: seq<P>, ok: (string, string) -> bool, make: (string, string) -> P)
    returns (shifted: seq<nat>)
    requires d <= |lines| && |rest| == |r|
    requires forall k :: 0 <= k < |rest| ==>
      && rest[k] + 1 < |lines[d..]|
      && ok(lines[d..][rest[k]], lines[d..][rest[k] + 1])
      && r[k] == make(lines[d..][rest[k]], lines[d..][rest[k] + 1])
    requires forall k, m :: 0 <= k < m < |rest| ==> rest[k] + 2 <= rest[m]
    ensures |shifted| == |rest|
    ensures forall k :: 0 <= k < |shifted| ==>
      && shifted[k] == rest[k] + d
      && shifted[k] + 1 < |lines|
      && ok(lines[shifted[k]], lines[shifted[k] + 1])
      && r[k] == make(lines[shifted[k]], lines[shifted[k] + 1])
    ensures forall k, m :: 0 <= k < m < |shifted| ==> shifted[k] + 2 <= shifted[m]
  {
    shifted := seq(|rest|, k requires 0 <= k < |rest| => rest[k] + d);
    forall k | 0 <= k < |rest|
      ensures lines[d..][rest[k]] == lines[shifted[k]] && lines[d..][rest[k] + 1] == lines[shifted[k] + 1]
    {}
  }

  /** Every pair written comes from two consecutive corpus lines labelled
      `usuario:` and `ia:` that both have text once the labels are removed;
      the pairs follow corpus order and never share a line. */
  lemma PairsOrigin(lines: seq<string>) returns (idx: seq<nat>)
    ensures |idx| == |Pairs(lines)|
    ensures forall k :: 0 <= k < |idx| ==>
      && idx[k] + 1 < |lines|
      && IsPair(lines[idx[k]], lines[idx[k] + 1])
      && Pairs(lines)[k] == MakePair(lines[idx[k]], lines[idx[k] + 1])
    ensures forall k, m :: 0 <= k < m < |idx| ==> idx[k] + 2 <= idx[m]
  {
    idx := ScanOrigin(lines, IsPair, MakePair);
  }

  /** Both lines of every pair written have text. */
  lemma PairsNonEmpty(lines: seq<string>)
    ensures forall k :: 0 <= k < |Pairs(lines)| ==>
      Pairs(lines)[k].prompt != [] && Pairs(lines)[k].response != []
  {
    var idx := PairsOrigin(lines);
  }

  /** No line labelled `usuario:` means nothing is written. */
  lemma {:induction false} NoPromptNoPairs(lines: seq<string>)
    requires forall i :: 0 <= i < |lines| ==> !StartsWith(lines[i], UserLabel)
    ensures Pairs(lines) == []
  {
    if |lines| >= 2 {
      NoPromptNoPairs(lines[1..]);
    }
  }

  /** The data.txt text `build_dataset` appends for the corpus `chat`. */
  function Appended(chat: string): string {
    Unlines(PairLines(Pairs(StrippedLines(chat))))
  }

  /** `build_dataset()`. data.txt is opened for appending before the corpus
      is opened for reading, so it exists afterwards even when the corpus is
      missing (`ok` false: the open raises). Otherwise every pair is appended
      and nothing already in data.txt is removed. */
  method BuildDataset(ws: Workspace) returns (ok: bool)
    modifies ws`data
    ensures ok <==> ws.chatLogs.Some?
    ensures !ok ==> ws.data == Some(old(ws.data).GetOr(""))
    ensures ok ==> ws.data == Some(old(ws.data).GetOr("") + Appended(ws.chatLogs.value))
  {
    var base := ws.data.GetOr("");
    ws.data := Some(base);
    if ws.chatLogs.None? {
      return false;
    }
    var lines := StrippedLines(ws.chatLogs.value);
    var i := 0;
    ghost var written: seq<Pair> := [];
    assert base + Unlines(PairLines(written)) == base;
    while i < |lines| - 1
      invariant 0 <= i <= |lines|
      invariant written + Pairs(lines[i..]) == Pairs(lines)
      invariant ws.data == Some(base + Unlines(PairLines(written)))
    {
      assert lines[i..][0] == lines[i] && lines[i..][1] == lines[i + 1];
      if StartsWith(lines[i], UserLabel) && StartsWith(lines[i + 1], BotLabel) {
        var prompt := Extract(lines[i], UserLabel);
        var response := Extract(lines[i + 1], BotLabel);
        if prompt != [] && response != [] {
          ws.data := Some(ws.data.value + prompt + "\n");
          ws.data := Some(ws.data.value + response + "\n");
          WriteStep(base, written, Pair(prompt, response));
          assert lines[i..][2..] == lines[i + 2..];
          ConcatAssoc(written, [Pair(prompt, response)], Pairs(lines[i + 2..]));
          written := written + [Pair(prompt, response)];
          i := i + 2;
        } else {
          assert lines[i..][1..] == lines[i + 1..];
          i := i + 1;
        }
      } else {
        assert lines[i..][1..] == lines[i + 1..];
        i := i + 1;
      }
    }
    assert written == Pairs(lines);
    return true;
  }

  lemma WriteStep(base: string, written: seq<Pair>, p: Pair)
    ensures base + Unlines(PairLines(written)) + p.prompt + "\n" + p.response + "\n"
         == base + Unlines(PairLines(written + [p]))
  {
    var u := Unlines(PairLines(written));
    PairLinesAppend(written, p);
    UnlinesAppend(PairLines(written), [p.prompt, p.response]);
    UnlinesTwo(p.prompt, p.response);
    var x, y := p.prompt + "\n", p.response + "\n";
    assert base + u + p.prompt + "\n" + p.response + "\n" == base + u + x + y;
    ConcatAssoc(base + u, x, y);
    ConcatAssoc(base, u, x + y);
  }

  lemma UnlinesTwo(a: string, b: string)
    ensures Unlines([a, b]) == (a + "\n") + (b + "\n")
  {
    assert [a, b][1..] == [b];
    assert Unlines([b]) == b + "\n" + [];
  }

  // ---------------------------------------------------------------- corpus round trip

  /** The pair a chat turn is meant to become. */
  function TurnPair(t: Turn): Pair {
    Pair(t.user, t.reply)
  }

  /** Removing the label of a line written as `label + " " + s` gives `s` back. */
  lemma ExtractLabelled(tag: string, s: string)
    requires tag != [] && !IsSpace(tag[0])
    requires s != [] && IsStripped(s) && !Contains(s, tag)
    ensures StartsWith(tag + " " + s, tag)
    ensures Extract(tag + " " + s, tag) == s
  {
    var line := tag + " " + s;
    var t := " " + s;
    assert line[..|tag|] == tag && line[|tag|..] == t;
    assert ReplaceAll(line, tag, "") == ReplaceAll(t, tag, "");
    assert !StartsWith(t, tag) by {
      if |tag| <= |t| {
        assert t[..|tag|][0] == t[0];
      }
    }
    assert t[1..] == s;
    assert !Contains(t, tag);
    ReplaceAllAbsent(t, tag, "");
    StripLeadingSpace(s);
  }

  /** The two lines of a clean turn form the pair of that turn. */
  lemma TurnLinesPair(t: Turn, rest: seq<string>)
    requires CleanTurn(t)
    ensures Pairs(TurnLines(t) + rest) == [TurnPair(t)] + Pairs(rest)
  {
    var a, b := TurnLines(t)[0], TurnLines(t)[1];
    TurnIsPair(t);
    assert TurnLines(t) == [a, b];
    ScanCons(a, b, rest, IsPair, MakePair);
  }

  lemma ScanCons<P>(a: string, b: string, rest: seq<string>, ok: (string, string) -> bool, make: (string, string) -> P)
    requires ok(a, b)
    ensures Scan([a, b] + rest, ok, make) == [make(a, b)] + Scan(rest, ok, make)
  {
    assert ([a, b] + rest)[2..] == rest;
  }

  lemma TurnIsPair(t: Turn)
    requires CleanTurn(t)
    ensures IsPair(TurnLines(t)[0], TurnLines(t)[1])
    ensures MakePair(TurnLines(t)[0], TurnLines(t)[1]) == TurnPair(t)
  {
    var a, b := UserLabel + " " + t.user, BotLabel + " " + t.reply;
    ExtractLabelled(UserLabel, t.user);
    ExtractLabelled(BotLabel, t.reply);
    assert StartsWith(a, UserLabel) && StartsWith(b, BotLabel);
  }

  /** The pairs read from the lines of clean turns are the turns themselves. */
  lemma {:induction false} PairsOfTurnLines(turns: seq<Turn>)
    requires forall k :: 0 <= k < |turns| ==> CleanTurn(turns[k])
    ensures Pairs(Flatten(Map(turns, TurnLines))) == Map(turns, TurnPair)
  {
    if turns != [] {
      var t := turns[0];
      var rest := Flatten(Map(turns[1..], TurnLines));
      assert Map(turns, TurnLines) == [TurnLines(t)] + Map(turns[1..], TurnLines);
      assert Flatten(Map(turns, TurnLines)) == TurnLines(t) + rest;
      TurnLinesPair(t, rest);
      PairsOfTurnLines(turns[1..]);
      assert Map(turns, TurnPair) == [TurnPair(t)] + Map(turns[1..], TurnPair);
    }
  }

  /** Round trip: the turns the chat handler logged into an empty corpus are
      exactly the pairs `build_dataset` extracts from it, so data.txt gains
      each user message followed by the reply it got. */
  lemma CorpusRoundTrip(turns: seq<Turn>)
    requires forall k :: 0 <= k < |turns| ==> CleanTurn(turns[k])
    ensures Pairs(StrippedLines(CorpusText(turns))) == Map(turns, TurnPair)
    ensures Appended(CorpusText(turns)) == Unlines(PairLines(Map(turns, TurnPair)))
  {
    CorpusLines(turns);
    PairsOfTurnLines(turns);
  }

  /** The lines the corrected build appends for a corpus holding one clean
      turn: its message, then its reply, each on its own line. */
  lemma OneTurnAppended(t: Turn)
    requires CleanTurn(t)
    ensures Appended(CorpusText([t])) == t.user + "\n" + t.reply + "\n"
  {
    CorpusRoundTrip([t]);
    assert Map([t], TurnPair) == [TurnPair(t)];
    var ls := PairLines([TurnPair(t)]);
    assert ls == [t.user, t.reply];
    UnlinesTwo(t.user, t.reply);
  }

  /** A concrete turn the chat handler accepts and logs cleanly. */
  lemma SampleTurnClean()
    ensures CleanTurn(Turn("hola", "bien"))
  {
    assert UserLabel[7] == ':' && BotLabel[2] == ':';
    MissingCharNotContained("hola", UserLabel, ':');
    MissingCharNotContained("bien", BotLabel, ':');
  }
}

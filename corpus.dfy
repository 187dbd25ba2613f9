/** The conversation corpus (chat_logs.txt): each accepted chat turn is
    stored as a `usuario:` line followed by an `ia:` line. */
module Corpus {
  import opened Collections
  import opened Text

  const UserLabel := "usuario:"
  const BotLabel := "ia:"

  /** One accepted exchange: the user's message and the reply given. */
  datatype Turn = Turn(user: string, reply: string)

  /** The two lines the chat handler writes for a turn. */
  function TurnLines(t: Turn): seq<string> {
    [UserLabel + " " + t.user, BotLabel + " " + t.reply]
  }

  /** The corpus written by a sequence of turns, starting from an empty file. */
  function CorpusText(turns: seq<Turn>): string {
    Unlines(Flatten(Map(turns, TurnLines)))
  }

  /** A line the training trigger counts: it starts with one of the two labels. */
  predicate IsConversationLine(l: string) {
    StartsWith(l, UserLabel) || StartsWith(l, BotLabel)
  }

  /** A turn whose two sides are single stripped non-empty lines that do not
      themselves contain the tag of their line. */
  predicate CleanTurn(t: Turn) {
    && t.user != [] && IsStripped(t.user) && HasNoLineBreak(t.user) && !Contains(t.user, UserLabel)
    && t.reply != [] && IsStripped(t.reply) && HasNoLineBreak(t.reply) && !Contains(t.reply, BotLabel)
  }

  lemma LabelledLine(tag: string, s: string)
    requires tag != [] && !IsSpace(tag[0]) && HasNoLineBreak(tag)
    requires s != [] && IsStripped(s) && HasNoLineBreak(s)
    ensures CleanLine(tag + " " + s)
  {
    var l := tag + " " + s;
    assert l[|l| - 1] == s[|s| - 1];
  }

  /** A line the readers see unchanged: non-empty, stripped, unbroken. */
  predicate CleanLine(l: string) {
    l != [] && IsStripped(l) && HasNoLineBreak(l)
  }

  /** The lines of a corpus written by clean turns, as the readers see them
      after stripping and dropping blank lines: exactly the turns' lines. */
  lemma CorpusLines(turns: seq<Turn>)
    requires forall k :: 0 <= k < |turns| ==> CleanTurn(turns[k])
    ensures FileLines(CorpusText(turns)) == Flatten(Map(turns, TurnLines))
    ensures StrippedLines(CorpusText(turns)) == Flatten(Map(turns, TurnLines))
  {
    TurnLinesClean(turns);
    CleanLinesRead(Flatten(Map(turns, TurnLines)));
  }

  /** Clean lines written one per line are read back unchanged. */
  lemma CleanLinesRead(ls: seq<string>)
    requires forall l :: l in ls ==> CleanLine(l)
    ensures FileLines(Unlines(ls)) == ls
    ensures StrippedLines(Unlines(ls)) == ls
  {
    assert forall i :: 0 <= i < |ls| ==> CleanLine(ls[i]);
    FileLinesUnlines(ls);
    StripAll(ls);
    FilterAll(ls);
  }

  lemma {:induction false} TurnLinesClean(turns: seq<Turn>)
    requires forall k :: 0 <= k < |turns| ==> CleanTurn(turns[k])
    ensures forall l :: l in Flatten(Map(turns, TurnLines)) ==> CleanLine(l)
  {
    if turns != [] {
      var t := turns[0];
      TurnLinesClean(turns[1..]);
      TurnClean(t);
      assert Map(turns, TurnLines) == [TurnLines(t)] + Map(turns[1..], TurnLines);
      assert Flatten(Map(turns, TurnLines)) == TurnLines(t) + Flatten(Map(turns[1..], TurnLines));
    }
  }

  lemma TurnClean(t: Turn)
    requires CleanTurn(t)
    ensures CleanLine(TurnLines(t)[0]) && CleanLine(TurnLines(t)[1])
  {
    LabelledLine(UserLabel, t.user);
    LabelledLine(BotLabel, t.reply);
  }

  lemma {:induction false} FilterAll(ls: seq<string>)
    requires forall i :: 0 <= i < |ls| ==> ls[i] != []
    ensures Filter(ls, (l: string) => l != []) == ls
  {
    if ls != [] {
      FilterAll(ls[1..]);
      assert ls == [ls[0]] + ls[1..];
    }
  }

  /** Appending turns to a corpus that is empty or ends with a newline adds
      exactly their lines to what the readers see. */
  lemma AppendTurns(prior: string, turns: seq<Turn>)
    requires prior == [] || prior[|prior| - 1] == '\n'
    requires forall k :: 0 <= k < |turns| ==> CleanTurn(turns[k])
    ensures StrippedLines(prior + CorpusText(turns)) == StrippedLines(prior) + Flatten(Map(turns, TurnLines))
  {
    StrippedLinesAppend(prior, CorpusText(turns));
    CorpusLines(turns);
  }
}

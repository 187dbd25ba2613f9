/** The training orchestrator (auto_train.py): the trigger that decides
    whether enough conversation has been logged, and the training run that
    turns the corpus into training pairs, retrains, backs the corpus up and
    empties it, guarded by a lock file. */
module AutoTrain {
  import opened Collections
  import opened Text
  import opened Files
  import opened Corpus
  import opened Dataset

  /** Conversation lines needed before a run is triggered. */
  const Threshold := 6

  /** The stripped, non-blank corpus lines `should_train` counts. */
  function ConversationLines(content: string): seq<string> {
    Filter(StrippedLines(content), IsConversationLine)
  }

  // ---------------------------------------------------------------- should_train

  /** `should_train()`'s verdict for a corpus (`None`: the file does not
      exist) when reading it raises (`readFails`) or not. */
  function ShouldTrainOn(chat: Option<string>, readFails: bool): bool {
    chat.Some? && !readFails && |ConversationLines(chat.value)| >= Threshold
  }

  /** The lines `should_train()` writes to train.log. */
  function ShouldTrainEvents(chat: Option<string>, readFails: bool): seq<Event> {
    if chat.None? then [ChatLogMissing]
    else if readFails then [ShouldTrainFailed]
    else [LineCount(|StrippedLines(chat.value)|), ConversationCount(|ConversationLines(chat.value)|), ThresholdNote(Threshold)]
  }

  /** `should_train()`: a missing corpus or a failed read answers false
      (the failure is logged, never raised); otherwise the answer is whether
      at least `Threshold` lines are conversation lines. */
  method ShouldTrain(ws: Workspace, readFails: bool) returns (train: bool)
    modifies ws`trainLog
    ensures train == ShouldTrainOn(ws.chatLogs, readFails)
    ensures ws.trainLog == old(ws.trainLog) + ShouldTrainEvents(ws.chatLogs, readFails)
  {
    if ws.chatLogs.None? {
      ws.Log(ChatLogMissing);
      return false;
    }
    if readFails {
      ws.Log(ShouldTrainFailed);
      return false;
    }
    var lines := StrippedLines(ws.chatLogs.value);
    var conversation := Filter(lines, IsConversationLine);
    ws.Log(LineCount(|lines|));
    ws.Log(ConversationCount(|conversation|));
    ws.Log(ThresholdNote(Threshold));
    assert ws.trainLog == old(ws.trainLog) + ShouldTrainEvents(ws.chatLogs, readFails);
    return |conversation| >= Threshold;
  }

  /** Only conversation lines count: appending text none of whose stripped
      lines starts with a label leaves the counted lines unchanged. */
  lemma OtherLinesNotCounted(prior: string, added: string)
    requires prior == [] || prior[|prior| - 1] == '\n'
    requires forall l :: l in StrippedLines(added) ==> !IsConversationLine(l)
    ensures ConversationLines(prior + added) == ConversationLines(prior)
  {
    StrippedLinesAppend(prior, added);
    FilterAppend(StrippedLines(prior), StrippedLines(added), IsConversationLine);
    NoneConversation(StrippedLines(added));
  }

  lemma {:induction false} NoneConversation(ls: seq<string>)
    requires forall l :: l in ls ==> !IsConversationLine(l)
    ensures Filter(ls, IsConversationLine) == []
  {
    if ls != [] {
      assert ls[0] in ls;
      NoneConversation(ls[1..]);
    }
  }

  /** Each clean turn appended to the corpus adds exactly two conversation
      lines: the count grows by two per logged chat turn. */
  lemma ConversationCountGrows(prior: string, turns: seq<Turn>)
    requires prior == [] || prior[|prior| - 1] == '\n'
    requires forall k :: 0 <= k < |turns| ==> CleanTurn(turns[k])
    ensures |ConversationLines(prior + CorpusText(turns))| == |ConversationLines(prior)| + 2 * |turns|
  {
    AppendTurns(prior, turns);
    var ls := Flatten(Map(turns, TurnLines));
    FilterAppend(StrippedLines(prior), ls, IsConversationLine);
    TurnLinesLabelled(turns);
  }

  /** The lines of clean turns are all conversation lines, two per turn. */
  lemma {:induction false} TurnLinesLabelled(turns: seq<Turn>)
    ensures var ls := Flatten(Map(turns, TurnLines));
      Filter(ls, IsConversationLine) == ls && |ls| == 2 * |turns|
  {
    if turns != [] {
      var t := turns[0];
      var rest := Flatten(Map(turns[1..], TurnLines));
      assert Map(turns, TurnLines) == [TurnLines(t)] + Map(turns[1..], TurnLines);
      assert Flatten(Map(turns, TurnLines)) == TurnLines(t) + rest;
      TurnLinesLabelled(turns[1..]);
      OneTurnLabelled(t);
      FilterAppend(TurnLines(t), rest, IsConversationLine);
    }
  }

  /** Both lines of one turn carry their label. */
  lemma OneTurnLabelled(t: Turn)
    ensures Filter(TurnLines(t), IsConversationLine) == TurnLines(t)
  {
    assert (UserLabel + " " + t.user)[..|UserLabel|] == UserLabel;
    assert (BotLabel + " " + t.reply)[..|BotLabel|] == BotLabel;
    FilterKeepsAll(TurnLines(t), IsConversationLine);
  }

  /** A corpus written from empty by clean chat turns triggers training
      exactly when it holds at least three turns (six lines). */
  lemma ShouldTrainOnTurns(turns: seq<Turn>)
    requires forall k :: 0 <= k < |turns| ==> CleanTurn(turns[k])
    ensures ShouldTrainOn(Some(CorpusText(turns)), false) <==> |turns| >= 3
  {
    ConversationCountGrows([], turns);
    assert [] + CorpusText(turns) == CorpusText(turns);
  }

  // ---------------------------------------------------------------- auto_train

  /** The collaborator files of `RequiredFiles` that are missing, in order. */
  function MissingFiles(files: set<string>): seq<string> {
    Filter(RequiredFiles, (f: string) => f !in files)
  }

  /** The loop over the collaborator files: the first one missing, if any. */
  method FirstMissing(files: set<string>) returns (missing: Option<string>)
    ensures missing.None? <==> MissingFiles(files) == []
    ensures missing.Some? ==> missing.value == MissingFiles(files)[0]
  {
    var i := 0;
    while i < |RequiredFiles|
      invariant 0 <= i <= |RequiredFiles|
      invariant MissingFiles(files) == Filter(RequiredFiles[i..], (f: string) => f !in files)
    {
      assert RequiredFiles[i..] == [RequiredFiles[i]] + RequiredFiles[i + 1..];
      if RequiredFiles[i] !in files {
        return Some(RequiredFiles[i]);
      }
      i := i + 1;
    }
    return None;
  }

  /** What the run needs before it builds the dataset. */
  predicate Prerequisites(files: set<string>, chat: Option<string>) {
    MissingFiles(files) == [] && chat.Some?
  }

  /** What a successful trainer must print for an excerpt of its output to
      be logged. */
  const LossMarker := "Loss:"

  /** How `python train.py` ended, and what it printed on its standard
      output. */
  datatype TrainerRun = TrainerRun(ended: Outcome, stdout: string)

  /** The train.log lines for the trainer's outcome. After a success the
      tail of its output is logged only when that output holds "Loss:".
      train.py prints its loss as "Loss = ", so that happens only when some
      other line it prints, such as its sample question (the first line of
      data.txt), holds the marker. */
  function TrainEvents(train: TrainerRun): (r: seq<Event>)
    ensures TrainingOutputExcerpt in r <==> train.ended == Exited(0) && Contains(train.stdout, LossMarker)
    ensures TrainingSucceeded in r <==> train.ended == Exited(0)
    ensures train.ended == Exited(0) ==> r[0] == TrainingSucceeded
    ensures train.ended.Exited? && train.ended.code != 0 ==> r == [TrainingExitCode(train.ended.code), TrainingOutputTail]
  {
    match train.ended
    case Exited(code) =>
      if code != 0 then [TrainingExitCode(code), TrainingOutputTail]
      else [TrainingSucceeded] + (if Contains(train.stdout, LossMarker) then [TrainingOutputExcerpt] else [])
    case TimedOut => [TrainingTimedOut]
    case Raised => [TrainingFailed]
  }

  /** The train.log lines for data.txt once the dataset is built, given
      its line count, or `None` when data.txt does not exist. */
  function DataEvents(lines: Option<nat>): seq<Event> {
    match lines
    case None => []
    case Some(n) => [DataLineCount(n)] + (if n < 10 then [LittleData] else [])
  }

  /** How `python build_dataset.py` can end: its `subprocess.run` sets no
      timeout, so the script exits or the call raises. */
  type BuildOutcome = o: Outcome | !o.TimedOut? witness Exited(0)

  /** The train.log lines after "building the dataset" when the build
      script did not exit with status 0: its error output when it exited,
      nothing when `subprocess.run` raised. */
  function BuildFailedEvents(build: BuildOutcome): seq<Event> {
    if build.Exited? then [DatasetFailed, DatasetStderr] else []
  }

  /** The train.log lines that close a run that reached the backup. */
  function CleanEvents(backupFails: bool): seq<Event> {
    if backupFails then [] else [BackupCreated, ChatLogCleared, Rule, Completed, Rule]
  }

  /** The train.log lines of a run once the dataset is built; `lines` is
      the line count of data.txt it reports. */
  function TrainingEvents(lines: Option<nat>, train: TrainerRun, backupFails: bool): seq<Event> {
    DataEvents(lines) + [Training] + TrainEvents(train) + [Cleaning] + CleanEvents(backupFails)
  }

  /** The train.log lines from "building the dataset" on: the failure
      report, or the success and what follows it. */
  function BuildEvents(build: BuildOutcome, train: TrainerRun, backupFails: bool, lines: Option<nat>): seq<Event> {
    [BuildingDataset] + (if build != Exited(0) then BuildFailedEvents(build)
                         else [DatasetBuilt] + TrainingEvents(lines, train, backupFails))
  }

  /** The train.log lines of the body of the run, from the banner to the
      last step reached. */
  function StepsEvents(files: set<string>, chat: Option<string>, build: BuildOutcome, train: TrainerRun,
                       backupFails: bool, lines: Option<nat>): seq<Event> {
    [Rule, Starting, Rule] + (if !Prerequisites(files, chat) then MissingEvents(files, chat)
                              else BuildEvents(build, train, backupFails, lines))
  }

  /** The files a run changes: the corpus, data.txt and the backups. */
  datatype Store = Store(chatLogs: Option<string>, data: Option<string>, backups: seq<string>)

  /** Whether an exception escapes the body of the run: only when the
      build script could not be run, or the backup failed. */
  function StepsRaise(ready: bool, build: BuildOutcome, backupFails: bool): bool {
    ready && (if build == Exited(0) then backupFails else !build.Exited?)
  }

  /** data.txt after a build script that exited with status 0 on the
      corpus `chat`. As written the script only defines `build_dataset()`
      and never calls it, so data.txt is left as it was; corrected, the
      corpus pairs are appended to it. */
  function Built(data: Option<string>, chat: string, v: Version): Option<string> {
    match v
    case AsWritten => data
    case Corrected => Some(data.GetOr("") + Appended(chat))
  }

  /** The line count of data.txt a run reports: only once the
      prerequisites held and the build script exited with status 0, and
      then that of data.txt as the build left it (`None` when it does not
      exist). */
  function RunLines(files: set<string>, chat: Option<string>, data: Option<string>, build: BuildOutcome, v: Version): Option<nat> {
    if Prerequisites(files, chat) && build == Exited(0) then DataSize(Built(data, chat.value, v)) else None
  }

  /** Everything one run that found no lock appends to train.log: the body
      of the run, an escaped exception with its traceback, and the removal
      of the lock. */
  function RunEvents(files: set<string>, chat: Option<string>, data: Option<string>, build: BuildOutcome,
                     train: TrainerRun, backupFails: bool, v: Version): seq<Event> {
    StepsEvents(files, chat, build, train, backupFails, RunLines(files, chat, data, build, v))
      + (if StepsRaise(Prerequisites(files, chat), build, backupFails) then [CriticalError, Traceback] else [])
      + [LockRemoved]
  }

  /** How the body of the run takes the files from `before` to `after`;
      `ready` says whether the prerequisites held. */
  predicate StepsOutcome(before: Store, after: Store, ready: bool, build: BuildOutcome, backupFails: bool, v: Version) {
    // missing collaborator file or corpus, or the dataset build failed:
    // the files are left alone
    && (!ready || build != Exited(0) ==> after == before)
    // the build script exited with status 0: whatever the trainer did,
    // data.txt is as the script left it, and unless the backup failed the
    // corpus is backed up, then emptied
    && (ready && build == Exited(0) ==>
         && before.chatLogs.Some?
         && after.data == Built(before.data, before.chatLogs.value, v)
         && (backupFails ==> after.chatLogs == before.chatLogs && after.backups == before.backups)
         && (!backupFails ==> after.backups == before.backups + [before.chatLogs.value] && after.chatLogs == Some("")))
  }

  /** Whatever happens, the corpus is never lost: it is left in place or
      emptied only after being copied to a new backup; data.txt is left
      alone or gains exactly the pairs of the corpus. */
  lemma StepsKeepCorpus(before: Store, after: Store, ready: bool, build: BuildOutcome, backupFails: bool, v: Version)
    requires StepsOutcome(before, after, ready, build, backupFails, v)
    ensures (after.chatLogs == before.chatLogs && after.backups == before.backups)
      || (before.chatLogs.Some? && after.chatLogs == Some("") && after.backups == before.backups + [before.chatLogs.value])
    ensures after.data == before.data
      || (before.chatLogs.Some? && after.data == Some(before.data.GetOr("") + Appended(before.chatLogs.value)))
    ensures after.chatLogs == Some("") && before.chatLogs != Some("") ==> ready && build == Exited(0) && !backupFails
    ensures v == AsWritten ==> after.data == before.data
  {
  }

  /** The run as written on a corpus holding one clean turn (such as
      "hola" / "bien", see `SampleTurnClean`), with the build script
      exiting with status 0 and the backup succeeding: data.txt is left as
      it was, and the corpus is backed up and emptied, so the turn reaches
      only the backup. The corrected run appends both of its sides to
      data.txt instead. */
  lemma AsWrittenDropsTurn(t: Turn, before: Store, after: Store, fixed: Store)
    requires CleanTurn(t) && before.chatLogs == Some(CorpusText([t]))
    requires StepsOutcome(before, after, true, Exited(0), false, AsWritten)
    requires StepsOutcome(before, fixed, true, Exited(0), false, Corrected)
    ensures after.data == before.data
    ensures after.chatLogs == Some("") && after.backups == before.backups + [before.chatLogs.value]
    ensures fixed.data == Some(before.data.GetOr("") + (t.user + "\n" + t.reply + "\n"))
    ensures after.data != fixed.data
  {
    OneTurnAppended(t);
    var added := t.user + "\n" + t.reply + "\n";
    assert |before.data.GetOr("") + added| > |before.data.GetOr("")|;
  }

  /** The body of the `try` of `auto_train()`, run with the lock held.
      `build` is how `python build_dataset.py` ended, `train` how
      `python train.py` ended, and `backupFails` whether copying the corpus
      to its backup raises. `raised` is true when an exception escapes to
      the outer handler; `lines` is the line count of data.txt reported
      once the dataset is built. */
  method RunSteps(ws: Workspace, build: BuildOutcome, train: TrainerRun, backupFails: bool, v: Version)
    returns (raised: bool, lines: Option<nat>)
    modifies ws`trainLog, ws`data, ws`chatLogs, ws`backups
    ensures ws.trainLog == old(ws.trainLog) + StepsEvents(ws.files, old(ws.chatLogs), build, train, backupFails, lines)
    ensures raised == StepsRaise(Prerequisites(ws.files, old(ws.chatLogs)), build, backupFails)
    ensures lines == RunLines(ws.files, old(ws.chatLogs), old(ws.data), build, v)
    ensures StepsOutcome(Store(old(ws.chatLogs), old(ws.data), old(ws.backups)), Store(ws.chatLogs, ws.data, ws.backups),
      Prerequisites(ws.files, old(ws.chatLogs)), build, backupFails, v)
  {
    ghost var start := ws.trainLog;
    var ready := CheckPrerequisites(ws);
    if !ready {
      ConcatAssoc(start, [Rule, Starting, Rule], MissingEvents(ws.files, ws.chatLogs));
      return false, None;
    }
    assert ws.trainLog == start + [Rule, Starting, Rule];
    raised, lines := BuildStage(ws, build, train, backupFails, v);
    ConcatAssoc(start, [Rule, Starting, Rule], BuildEvents(build, train, backupFails, lines));
  }

  /** Steps 3 to 6, once the prerequisites hold: run the build script, and
      when it exited with status 0 go on to training and the backup. */
  method BuildStage(ws: Workspace, build: BuildOutcome, train: TrainerRun, backupFails: bool, v: Version)
    returns (raised: bool, lines: Option<nat>)
    requires ws.chatLogs.Some?
    modifies ws`trainLog, ws`data, ws`chatLogs, ws`backups
    ensures ws.trainLog == old(ws.trainLog) + BuildEvents(build, train, backupFails, lines)
    ensures raised == StepsRaise(true, build, backupFails)
    ensures build == Exited(0) ==> lines == DataSize(Built(old(ws.data), old(ws.chatLogs).value, v))
    ensures build != Exited(0) ==> lines.None?
    ensures StepsOutcome(Store(old(ws.chatLogs), old(ws.data), old(ws.backups)), Store(ws.chatLogs, ws.data, ws.backups),
      true, build, backupFails, v)
  {
    ws.Log(BuildingDataset);
    if build != Exited(0) {
      // a non-zero exit status is reported and ends the run; an exception
      // from `subprocess.run` itself escapes
      ws.LogAll(BuildFailedEvents(build));
      ConcatAssoc(old(ws.trainLog), [BuildingDataset], BuildFailedEvents(build));
      return !build.Exited?, None;
    }
    raised, lines := BuildAndTrain(ws, train, backupFails, v);
    ConcatAssoc(old(ws.trainLog) + [BuildingDataset], [DatasetBuilt], TrainingEvents(lines, train, backupFails));
    ConcatAssoc(old(ws.trainLog), [BuildingDataset], [DatasetBuilt] + TrainingEvents(lines, train, backupFails));
  }

  /** Steps 3 to 6 once the build script exited with status 0: data.txt is
      as the script left it (corrected, `build_dataset()` ran to
      completion); report it, then train, back the corpus up and empty it. */
  method BuildAndTrain(ws: Workspace, train: TrainerRun, backupFails: bool, v: Version)
    returns (raised: bool, lines: Option<nat>)
    requires ws.chatLogs.Some?
    modifies ws`trainLog, ws`data, ws`chatLogs, ws`backups
    ensures raised == backupFails
    ensures ws.data == Built(old(ws.data), old(ws.chatLogs).value, v)
    ensures lines == DataSize(ws.data)
    ensures backupFails ==> ws.chatLogs == old(ws.chatLogs) && ws.backups == old(ws.backups)
    ensures !backupFails ==> ws.backups == old(ws.backups) + [old(ws.chatLogs).value] && ws.chatLogs == Some("")
    ensures ws.trainLog == old(ws.trainLog) + [DatasetBuilt] + TrainingEvents(lines, train, backupFails)
  {
    if v == Corrected {
      var _ := BuildDataset(ws);
    }
    ws.Log(DatasetBuilt);
    raised, lines := TrainAndClean(ws, train, backupFails);
  }

  /** The events logged when a prerequisite is missing. */
  function MissingEvents(files: set<string>, chat: Option<string>): seq<Event> {
    if MissingFiles(files) != [] then [MissingFile(MissingFiles(files)[0])]
    else if chat.None? then [NoChatLogs]
    else []
  }

  /** Steps 0 to 2 of the run: the banner, then the collaborator files and
      the corpus must exist. */
  method CheckPrerequisites(ws: Workspace) returns (ready: bool)
    modifies ws`trainLog
    ensures ready == Prerequisites(ws.files, ws.chatLogs)
    ensures ws.trainLog == old(ws.trainLog) + [Rule, Starting, Rule] + MissingEvents(ws.files, ws.chatLogs)
  {
    ws.LogAll([Rule, Starting, Rule]);
    var missing := FirstMissing(ws.files);
    if missing.Some? {
      ws.Log(MissingFile(missing.value));
      return false;
    }
    if ws.chatLogs.None? {
      ws.Log(NoChatLogs);
      return false;
    }
    return true;
  }

  /** Steps 4 to 6 of the run, once the dataset is built: report the size of
      data.txt, train, then back up and empty the corpus. The trainer's
      outcome only changes what is logged. */
  method TrainAndClean(ws: Workspace, train: TrainerRun, backupFails: bool) returns (raised: bool, lines: Option<nat>)
    requires ws.chatLogs.Some?
    modifies ws`trainLog, ws`chatLogs, ws`backups
    ensures raised == backupFails
    ensures backupFails ==> ws.chatLogs == old(ws.chatLogs) && ws.backups == old(ws.backups)
    ensures !backupFails ==> ws.backups == old(ws.backups) + [old(ws.chatLogs).value] && ws.chatLogs == Some("")
    ensures lines == DataSize(ws.data)
    ensures ws.trainLog == old(ws.trainLog) + TrainingEvents(lines, train, backupFails)
  {
    ghost var log0 := ws.trainLog;
    lines := LogDataSize(ws);
    ws.Log(Training);
    LogTraining(ws, train);
    ws.Log(Cleaning);
    assert ws.trainLog == log0 + (DataEvents(lines) + [Training] + TrainEvents(train) + [Cleaning]);
    raised := BackUpCorpus(ws, backupFails);
  }

  /** Step 6: copy chat_logs.txt to a backup and empty it. A failed copy
      raises before anything changes. */
  method BackUpCorpus(ws: Workspace, backupFails: bool) returns (raised: bool)
    requires ws.chatLogs.Some?
    modifies ws`trainLog, ws`chatLogs, ws`backups
    ensures raised == backupFails
    ensures backupFails ==> ws.chatLogs == old(ws.chatLogs) && ws.backups == old(ws.backups)
    ensures !backupFails ==> ws.backups == old(ws.backups) + [old(ws.chatLogs).value] && ws.chatLogs == Some("")
    ensures ws.trainLog == old(ws.trainLog) + CleanEvents(backupFails)
  {
    if backupFails {
      return true;
    }
    ws.backups := ws.backups + [ws.chatLogs.value];
    ws.chatLogs := Some("");
    ws.LogAll(CleanEvents(false));
    return false;
  }

  /** The number of lines `readlines()` returns for data.txt, or `None`
      when it does not exist. */
  function DataSize(data: Option<string>): Option<nat> {
    match data
    case None => None
    case Some(text) => Some(|FileLines(text)|)
  }

  /** Step 4: when data.txt exists, the number of its lines, with a warning
      under 10; when it does not, the step is skipped. */
  method LogDataSize(ws: Workspace) returns (lines: Option<nat>)
    modifies ws`trainLog
    ensures lines.None? <==> ws.data.None?
    ensures lines.Some? ==> lines.value == |FileLines(ws.data.value)|
    ensures ws.trainLog == old(ws.trainLog) + DataEvents(lines)
  {
    if ws.data.None? {
      return None;
    }
    var count := |FileLines(ws.data.value)|;
    ws.Log(DataLineCount(count));
    if count < 10 {
      ws.Log(LittleData);
    }
    lines := Some(count);
  }

  /** Step 5: what is logged for the trainer's outcome. */
  method LogTraining(ws: Workspace, train: TrainerRun)
    modifies ws`trainLog
    ensures ws.trainLog == old(ws.trainLog) + TrainEvents(train)
  {
    match train.ended {
      case Exited(code) =>
        if code == 0 {
          ws.Log(TrainingSucceeded);
          if Contains(train.stdout, LossMarker) {
            ws.Log(TrainingOutputExcerpt);
          }
        } else {
          ws.Log(TrainingExitCode(code));
          ws.Log(TrainingOutputTail);
        }
      case TimedOut =>
        ws.Log(TrainingTimedOut);
      case Raised =>
        ws.Log(TrainingFailed);
    }
  }

  predicate IsPrefix<T(==)>(a: seq<T>, b: seq<T>) {
    |a| <= |b| && b[..|a|] == a
  }

  /** `auto_train()`. When the lock exists another run is in progress: the
      call only logs that and leaves the lock alone. Otherwise it takes the
      lock, runs the steps, logs an escaped exception, and always releases
      the lock as its last act. */
  method Run(ws: Workspace, build: BuildOutcome, train: TrainerRun, backupFails: bool, v: Version)
    modifies ws`lock, ws`trainLog, ws`data, ws`chatLogs, ws`backups
    // another run holds the lock: only that is logged
    ensures old(ws.lock) ==>
      && ws.lock
      && ws.trainLog == old(ws.trainLog) + [AlreadyRunning]
      && Store(ws.chatLogs, ws.data, ws.backups) == Store(old(ws.chatLogs), old(ws.data), old(ws.backups))
    // otherwise the lock is released as the last logged act, and the files
    // change as the body of the run says
    ensures !old(ws.lock) ==>
      && !ws.lock
      && ws.trainLog == old(ws.trainLog) + RunEvents(ws.files, old(ws.chatLogs), old(ws.data), build, train, backupFails, v)
      && IsPrefix(old(ws.trainLog), ws.trainLog)
      && |ws.trainLog| > |old(ws.trainLog)| && ws.trainLog[|ws.trainLog| - 1] == LockRemoved
      && StepsOutcome(Store(old(ws.chatLogs), old(ws.data), old(ws.backups)), Store(ws.chatLogs, ws.data, ws.backups),
           Prerequisites(ws.files, old(ws.chatLogs)), build, backupFails, v)
  {
    if ws.lock {
      ws.Log(AlreadyRunning);
    } else {
      RunLocked(ws, build, train, backupFails, v);
    }
  }

  /** The run once it has found no lock: take it, run the steps, log an
      escaped exception, and release the lock in the `finally` block. */
  method RunLocked(ws: Workspace, build: BuildOutcome, train: TrainerRun, backupFails: bool, v: Version)
    requires !ws.lock
    modifies ws`lock, ws`trainLog, ws`data, ws`chatLogs, ws`backups
    ensures !ws.lock
    ensures ws.trainLog == old(ws.trainLog) + RunEvents(ws.files, old(ws.chatLogs), old(ws.data), build, train, backupFails, v)
    ensures IsPrefix(old(ws.trainLog), ws.trainLog)
    ensures |ws.trainLog| > |old(ws.trainLog)| && ws.trainLog[|ws.trainLog| - 1] == LockRemoved
    ensures StepsOutcome(Store(old(ws.chatLogs), old(ws.data), old(ws.backups)), Store(ws.chatLogs, ws.data, ws.backups),
      Prerequisites(ws.files, old(ws.chatLogs)), build, backupFails, v)
  {
    ws.lock := true;
    var raised, lines := RunSteps(ws, build, train, backupFails, v);
    ghost var steps := StepsEvents(ws.files, old(ws.chatLogs), build, train, backupFails, lines);
    ghost var handled := if raised then [CriticalError, Traceback] else [];
    Release(ws, raised);
    ClosedLog(old(ws.trainLog), steps, handled, ws.trainLog);
    ConcatAssoc(old(ws.trainLog), steps + handled, [LockRemoved]);
    ConcatAssoc(old(ws.trainLog), steps, handled);
  }

  /** The end of the run: an escaped exception is logged with its
      traceback, then the `finally` block removes the lock it holds. */
  method Release(ws: Workspace, raised: bool)
    requires ws.lock
    modifies ws`lock, ws`trainLog
    ensures !ws.lock
    ensures ws.trainLog == old(ws.trainLog) + (if raised then [CriticalError, Traceback] else []) + [LockRemoved]
  {
    if raised {
      ws.LogAll([CriticalError, Traceback]);
    }
    // finally
    if ws.lock {
      ws.lock := false;
      ws.Log(LockRemoved);
    }
  }

  lemma ClosedLog(start: seq<Event>, steps: seq<Event>, handled: seq<Event>, log: seq<Event>)
    requires log == start + steps + handled + [LockRemoved]
    ensures IsPrefix(start, log) && |log| > |start| && log[|log| - 1] == LockRemoved
  {
    ConcatAssoc(start, steps, handled);
    ConcatAssoc(start, steps + handled, [LockRemoved]);
  }
}

/** The chatbot's web service (app.py): the chat handler with its logging
    rule and training trigger, the training thread, the forced training,
    the data cleanup, the model reset and the file viewer. The server keeps
    the model generate.py loaded when it was imported, and one flag that
    says whether a training thread it started is still running. */
module Service {
  import opened Collections
  import opened Text
  import opened Files
  import opened Corpus
  import opened ModelFile
  import opened Decoder
  import opened AutoTrain
  import opened DataCleaner
  import opened Training

  const EmptyMessageReply := "Por favor, escribe un mensaje"
  const NoAnswerReply := "No tengo una respuesta para eso ahora mismo"

  /** A turn is logged only when both sides have one to this many words. */
  const MaxTurnWords := 6
  /** The cleanup drops chat-log lines with more words than this. */
  const MaxChatLineWords := 8

  /** What data.txt is seeded with when it is missing or empty. */
  const SeedDataLines: seq<string> := ["hola", "como estas", "bien", "que haces", "nada", "adios"]
  /** What a forced training seeds chat_logs.txt with when it is missing or empty. */
  const SeedTurns: seq<Turn> := [Turn("hola", "hola como estas"), Turn("que tal", "bien gracias")]

  /** The only files the viewer shows. */
  const ViewableFiles: seq<string> := [ChatLogFile, DataFile, TrainLogFile]

  // ---------------------------------------------------------------- chat

  /** The logging rule: the message and the reply both have one to
      `MaxTurnWords` words, and the reply has text. */
  predicate Accept(user: string, reply: string) {
    && 1 <= |Split(user)| <= MaxTurnWords
    && 1 <= |Split(reply)| <= MaxTurnWords
    && !IsBlank(reply)
  }

  /** chat_logs.txt after the chat handler: an accepted turn is appended as
      its two lines (the file is created when missing) unless the write
      fails; a rejected turn leaves it as it was. */
  function Logged(chat: Option<string>, user: string, reply: string, appendFails: bool): Option<string> {
    if Accept(user, reply) && !appendFails then Some(chat.GetOr([]) + CorpusText([Turn(user, reply)]))
    else chat
  }

  /** The last test of the logging rule never decides: a reply with a word
      has text. */
  lemma AcceptWordsSuffice(user: string, reply: string)
    ensures Accept(user, reply) <==> 1 <= |Split(user)| <= MaxTurnWords && 1 <= |Split(reply)| <= MaxTurnWords
  {
    SplitEmpty(reply);
  }

  /** An accepted turn of single clean lines is seen by the corpus readers
      as exactly its two lines after the ones already there; any other turn
      adds nothing. */
  lemma LoggedLines(chat: string, user: string, reply: string)
    requires chat == [] || chat[|chat| - 1] == '\n'
    ensures CleanTurn(Turn(user, reply)) && Accept(user, reply) ==>
      StrippedLines(Logged(Some(chat), user, reply, false).value) == StrippedLines(chat) + TurnLines(Turn(user, reply))
    ensures !Accept(user, reply) ==> Logged(Some(chat), user, reply, false) == Some(chat)
  {
    var t := Turn(user, reply);
    if CleanTurn(t) && Accept(user, reply) {
      AppendTurns(chat, [t]);
      assert Map([t], TurnLines) == [TurnLines(t)];
      assert Flatten([TurnLines(t)]) == TurnLines(t);
    }
  }

  // ---------------------------------------------------------------- files on disk

  /** A file seeded with `seed` when it is missing or empty. */
  function Seeded(file: Option<string>, seed: string): Option<string> {
    if file.None? || file.value == [] then Some(seed) else file
  }

  /** The outcome of `forzar_entrenamiento`. */
  datatype ForceResult = Busy | Missing(names: seq<string>) | Started

  /** The chat-log lines the cleanup keeps. */
  predicate ChatLineKept(l: string) {
    l != [] && |Split(l)| <= MaxChatLineWords
  }

  /** The data lines the cleanup keeps. */
  predicate DataLineKept(l: string) {
    l != [] && 1 <= |Split(l)| <= DataCleaner.MaxWords
  }

  /** The lines the cleanup removes from a file (none from a missing one). */
  function Dropped(file: Option<string>, keep: string -> bool): nat {
    if file.None? then 0 else |FileLines(file.value)| - |Kept(FileLines(file.value), keep)|
  }

  /** A file after the cleanup. */
  function CleanedFile(file: Option<string>, keep: string -> bool): Option<string> {
    if file.None? then None else Some(Rewritten(file.value, keep))
  }

  /** One of the cleanup's loops. */
  method KeepLines(lines: seq<string>, keep: string -> bool) returns (kept: seq<string>)
    ensures kept == Kept(lines, keep)
  {
    kept := [];
    for i := 0 to |lines|
      invariant kept == Kept(lines[..i], keep)
    {
      FilterMapStep(lines, i, Strip, keep);
      var line := Strip(lines[i]);
      if keep(line) {
        kept := kept + [line];
      }
    }
    assert lines[..|lines|] == lines;
  }

  /** The loop listing the collaborator files that are missing. */
  method ListMissing(files: set<string>) returns (missing: seq<string>)
    ensures missing == MissingFiles(files)
  {
    missing := [];
    for i := 0 to |RequiredFiles|
      invariant missing == Filter(RequiredFiles[..i], (f: string) => f !in files)
    {
      assert RequiredFiles[..i + 1] == RequiredFiles[..i] + [RequiredFiles[i]];
      FilterAppend(RequiredFiles[..i], [RequiredFiles[i]], (f: string) => f !in files);
      if RequiredFiles[i] !in files {
        missing := missing + [RequiredFiles[i]];
      }
    }
    assert RequiredFiles[..|RequiredFiles|] == RequiredFiles;
  }

  /** After the cleanup every chat-log line has text and at most
      `MaxChatLineWords` words; a second cleanup removes nothing. */
  lemma ChatCleanup(chat: string)
    ensures forall l :: l in FileLines(Rewritten(chat, ChatLineKept)) ==>
      l != [] && |Split(l)| <= MaxChatLineWords
    ensures Dropped(CleanedFile(Some(chat), ChatLineKept), ChatLineKept) == 0
  {
    KeptShape(chat, ChatLineKept);
    RewrittenReadBack(chat, ChatLineKept);
  }

  /** After the cleanup every data line has one to six words; a second
      cleanup removes nothing. */
  lemma DataCleanup(data: string)
    ensures forall l :: l in FileLines(Rewritten(data, DataLineKept)) ==>
      l != [] && 1 <= |Split(l)| <= DataCleaner.MaxWords
    ensures Dropped(CleanedFile(Some(data), DataLineKept), DataLineKept) == 0
  {
    KeptShape(data, DataLineKept);
    RewrittenReadBack(data, DataLineKept);
  }

  /** The seed data is exactly enough for the trainer: three pairs. */
  lemma SeedDataTrains()
    ensures |PairUp(StrippedLines(Unlines(SeedDataLines)))| == MinPairs
  {
    var ls := SeedDataLines;
    forall i | 0 <= i < |ls| ensures CleanLine(ls[i]) {
      LetterLine(ls[i]);
    }
    CleanLinesPairs(ls);
  }

  /** Clean lines written one per line pair up two by two. */
  lemma CleanLinesPairs(ls: seq<string>)
    requires forall i :: 0 <= i < |ls| ==> CleanLine(ls[i])
    ensures |PairUp(StrippedLines(Unlines(ls)))| == |ls| / 2
  {
    assert forall l :: l in ls ==> CleanLine(l);
    CleanLinesRead(ls);
    PairUpTextLines(ls);
  }

  /** A line of lower-case ASCII letters and inner single spaces is clean. */
  lemma LetterLine(l: string)
    requires l != [] && 'a' <= l[0] <= 'z' && 'a' <= l[|l| - 1] <= 'z'
    requires forall i :: 0 <= i < |l| ==> 'a' <= l[i] <= 'z' || l[i] == ' '
    ensures CleanLine(l)
  {
  }

  /** An emptied corpus does not trigger training. */
  lemma EmptyCorpusIdle(readFails: bool)
    ensures !ShouldTrainOn(Some([]), readFails)
  {
    assert FileLines([]) == [];
  }

  // ---------------------------------------------------------------- the viewer

  /** What `ver_archivo` answers, given the content of the files on disk. */
  datatype View = Forbidden | Shown(name: string, content: string) | Absent(name: string)

  /** `ver_archivo(name)` */
  function ViewFile(name: string, disk: map<string, string>): (v: View)
    ensures v.Forbidden? <==> name !in ViewableFiles
    ensures v.Shown? <==> name in ViewableFiles && name in disk
    ensures v.Shown? ==> v.name == name && v.content == disk[name]
    ensures v.Absent? ==> v.name == name
  {
    if name !in ViewableFiles then Forbidden
    else if name in disk then Shown(name, disk[name])
    else Absent(name)
  }

  /** A name is refused exactly when it is not one of the three viewable
      files, whatever is on disk; a shown file is shown with its content.
      In particular the model file and any path are refused. */
  lemma ViewWhitelist(name: string, disk: map<string, string>)
    ensures ViewFile(name, disk).Forbidden? <==> name != ChatLogFile && name != DataFile && name != TrainLogFile
    ensures ViewFile(name, disk).Shown? ==> name in disk && ViewFile(name, disk).content == disk[name]
    ensures ('/' in name || name == "model.pth") ==> ViewFile(name, disk).Forbidden?
  {
    assert '/' !in ChatLogFile && '/' !in DataFile && '/' !in TrainLogFile;
  }

  // ---------------------------------------------------------------- the server

  class Server {
    /** `entrenamiento_activo`: a training thread the server started is running. */
    var training: bool
    /** The files on disk. */
    const ws: Workspace
    /** The model generate.py loaded when the server imported it; a later
        training does not replace it. */
    const model: Artifact
    /** Whether the server runs the code as written or the corrected code
        (the generator's known-word test and the build script). */
    const version: Version

    constructor (ws: Workspace, model: Artifact, version: Version)
      ensures this.ws == ws && this.model == model && this.version == version && !training
    {
      this.ws := ws;
      this.model := model;
      this.version := version;
      training := false;
    }

    /** `chat(req)`: the reply to `message`, with the draws `next` the
        generator makes; whether an append to chat_logs.txt or a read in
        `should_train` raises is given. The turn is logged by the rule, then
        a training thread is started when `should_train` says so and none is
        running. */
    method Chat(message: string, next: seq<int> -> int, appendFails: bool, readFails: bool)
      returns (reply: string, started: bool)
      modifies this`training, ws`chatLogs, ws`trainLog
      ensures IsBlank(message) ==>
        && reply == EmptyMessageReply && !started && training == old(training)
        && ws.chatLogs == old(ws.chatLogs) && ws.trainLog == old(ws.trainLog)
      ensures !IsBlank(message) ==>
        && Answers(model, next, Lower(Strip(message)), DefaultMaxWords, version, reply)
        && ws.chatLogs == Logged(old(ws.chatLogs), Strip(message), reply, appendFails)
        && ws.trainLog == old(ws.trainLog) + ShouldTrainEvents(ws.chatLogs, readFails)
        && started == (ShouldTrainOn(ws.chatLogs, readFails) && !old(training))
        && training == (old(training) || started)
    {
      var user := Strip(message);
      if user == [] {
        return EmptyMessageReply, false;
      }
      reply := Respond(user, next);
      LogTurn(user, reply, appendFails);
      started := Trigger(readFails);
    }

    /** The chat handler's answer to a stripped message with text: the
        generator's reply, replaced by `NoAnswerReply` if it were blank. */
    method Respond(user: string, next: seq<int> -> int) returns (reply: string)
      requires user != []
      ensures Answers(model, next, Lower(user), DefaultMaxWords, version, reply)
    {
      reply := Generate(model, next, Lower(user), DefaultMaxWords, version);
      AnswerNotBlank(model, next, Lower(user), DefaultMaxWords, version, reply);
      if reply == [] || Strip(reply) == [] {
        reply := NoAnswerReply;
      }
    }

    /** The chat handler's trigger: `should_train()` is asked first, and a
        thread is started only when it says yes and none is running. */
    method Trigger(readFails: bool) returns (started: bool)
      modifies this`training, ws`trainLog
      ensures ws.trainLog == old(ws.trainLog) + ShouldTrainEvents(ws.chatLogs, readFails)
      ensures started == (ShouldTrainOn(ws.chatLogs, readFails) && !old(training))
      ensures training == (old(training) || started)
    {
      var due := ShouldTrain(ws, readFails);
      started := due && !training;
      if started {
        training := true;
      }
    }

    /** The chat handler's logging step: the word counts, the rule, and
        the append of the turn's two lines. */
    method LogTurn(user: string, reply: string, appendFails: bool)
      modifies ws`chatLogs
      ensures ws.chatLogs == Logged(old(ws.chatLogs), user, reply, appendFails)
    {
      var replyWords := |Split(reply)|;
      var userWords := |Split(user)|;
      if 1 <= userWords <= MaxTurnWords && 1 <= replyWords <= MaxTurnWords && Strip(reply) != [] {
        if !appendFails {
          ws.chatLogs := Some(ws.chatLogs.GetOr([]) + CorpusText([Turn(user, reply)]));
        }
      }
    }

    /** `ejecutar_entrenamiento()`, the body of the training thread: one
        run of `auto_train`, after which the flag is cleared whatever
        happened. */
    method TrainingThread(build: BuildOutcome, train: TrainerRun, backupFails: bool)
      modifies this`training, ws`lock, ws`trainLog, ws`data, ws`chatLogs, ws`backups
      ensures !training
      ensures old(ws.lock) ==>
        && ws.lock && ws.trainLog == old(ws.trainLog) + [AlreadyRunning]
        && Store(ws.chatLogs, ws.data, ws.backups) == Store(old(ws.chatLogs), old(ws.data), old(ws.backups))
      ensures !old(ws.lock) ==>
        && !ws.lock && ws.trainLog != [] && ws.trainLog[|ws.trainLog| - 1] == LockRemoved
        && ws.trainLog == old(ws.trainLog) + RunEvents(ws.files, old(ws.chatLogs), old(ws.data), build, train, backupFails, version)
        && StepsOutcome(Store(old(ws.chatLogs), old(ws.data), old(ws.backups)), Store(ws.chatLogs, ws.data, ws.backups),
             Prerequisites(ws.files, old(ws.chatLogs)), build, backupFails, version)
    {
      Run(ws, build, train, backupFails, version);
      training := false;
    }

    /** `forzar_entrenamiento()`: refused while a thread runs or when a
        collaborator file is missing; otherwise both data files are seeded
        when missing or empty and a training thread is started. */
    method ForceTraining() returns (r: ForceResult)
      modifies this`training, ws`chatLogs, ws`data
      ensures old(training) ==> r == Busy
      ensures !old(training) && MissingFiles(ws.files) != [] ==> r == Missing(MissingFiles(ws.files))
      ensures !r.Started? ==>
        training == old(training) && ws.chatLogs == old(ws.chatLogs) && ws.data == old(ws.data)
      ensures !old(training) && MissingFiles(ws.files) == [] ==>
        && r == Started && training
        && ws.chatLogs == Seeded(old(ws.chatLogs), CorpusText(SeedTurns))
        && ws.data == Seeded(old(ws.data), Unlines(SeedDataLines))
    {
      if training {
        return Busy;
      }
      var missing := ListMissing(ws.files);
      if missing != [] {
        return Missing(missing);
      }
      if ws.chatLogs.None? || ws.chatLogs.value == [] {
        ws.chatLogs := Some(CorpusText(SeedTurns));
      }
      if ws.data.None? || ws.data.value == [] {
        ws.data := Some(Unlines(SeedDataLines));
      }
      training := true;
      r := Started;
    }

    /** `limpiar_datos()`: rewrites each existing file with its kept lines
        and reports how many lines were removed in all. */
    method CleanData() returns (removed: nat)
      modifies ws`chatLogs, ws`data
      ensures ws.chatLogs == CleanedFile(old(ws.chatLogs), ChatLineKept)
      ensures ws.data == CleanedFile(old(ws.data), DataLineKept)
      ensures removed == Dropped(old(ws.chatLogs), ChatLineKept) + Dropped(old(ws.data), DataLineKept)
    {
      removed := 0;
      if ws.chatLogs.Some? {
        var lines := FileLines(ws.chatLogs.value);
        var kept := KeepLines(lines, ChatLineKept);
        ws.chatLogs := Some(Unlines(kept));
        removed := removed + (|lines| - |kept|);
      }
      if ws.data.Some? {
        var lines := FileLines(ws.data.value);
        var kept := KeepLines(lines, DataLineKept);
        ws.data := Some(Unlines(kept));
        removed := removed + (|lines| - |kept|);
      }
    }

    /** `reiniciar_modelo()`: deletes model.pth, seeds data.txt when it is
        missing or empty, and empties an existing chat_logs.txt. */
    method ResetModel()
      modifies ws`model, ws`data, ws`chatLogs
      ensures !ws.model
      ensures ws.data == Seeded(old(ws.data), Unlines(SeedDataLines))
      ensures ws.chatLogs == if old(ws.chatLogs).Some? then Some([]) else None
    {
      if ws.model {
        ws.model := false;
      }
      if ws.data.None? || ws.data.value == [] {
        ws.data := Some(Unlines(SeedDataLines));
      }
      if ws.chatLogs.Some? {
        ws.chatLogs := Some([]);
      }
    }
  }
}

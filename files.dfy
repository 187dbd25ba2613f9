/** The files the chatbot shares between its request handlers, the
    training orchestrator and its helper scripts, and the outcomes of the
    helper scripts it runs as subprocesses. */
module Files {
  import opened Collections

  const ChatLogFile := "chat_logs.txt"
  const DataFile := "data.txt"
  const TrainLogFile := "train.log"

  /** The collaborator files a training run needs beside itself. */
  const RequiredFiles: seq<string> := ["build_dataset.py", "train.py", "model.py", "tokenizer.py"]

  /** How a helper script run with `subprocess.run` ended: its exit status,
      the 300 s timeout firing, or an exception raised by `subprocess.run`
      itself (for instance the interpreter could not be started). */
  datatype Outcome = Exited(code: int) | TimedOut | Raised

  /** One line of train.log; each constructor is one `log(...)` call
      (the timestamp prefix is not modelled). */
  datatype Event =
    // should_train
    | ChatLogMissing
    | LineCount(lines: nat)
    | ConversationCount(lines: nat)
    | ThresholdNote(threshold: nat)
    | ShouldTrainFailed
    // auto_train
    | AlreadyRunning
    | Rule
    | Starting
    | MissingFile(name: string)
    | NoChatLogs
    | BuildingDataset
    | DatasetBuilt
    | DatasetFailed
    | DatasetStderr
    | DataLineCount(lines: nat)
    | LittleData
    | Training
    | TrainingSucceeded
    | TrainingOutputExcerpt
    | TrainingExitCode(code: int)
    | TrainingOutputTail
    | TrainingTimedOut
    | TrainingFailed
    | Cleaning
    | BackupCreated
    | ChatLogCleared
    | Completed
    | CriticalError
    | Traceback
    | LockRemoved

  /** The working directory: the content of each file the core reads or
      writes (`None` when the file does not exist). */
  class Workspace {
    /** chat_logs.txt: the conversation corpus. */
    var chatLogs: Option<string>
    /** data.txt: the training pairs, one line each. */
    var data: Option<string>
    /** training.lock exists (its timestamp content is not modelled). */
    var lock: bool
    /** train.log, one entry per logged line; only ever appended to. */
    var trainLog: seq<Event>
    /** backups/chat_logs_<timestamp>.txt, in creation order. */
    var backups: seq<string>
    /** model.pth exists. */
    var model: bool
    /** Names of the other files present (the helper scripts). */
    var files: set<string>

    constructor (chatLogs: Option<string>, data: Option<string>, lock: bool, model: bool, files: set<string>)
      ensures this.chatLogs == chatLogs && this.data == data && this.lock == lock
      ensures this.model == model && this.files == files
      ensures trainLog == [] && backups == []
    {
      this.chatLogs := chatLogs;
      this.data := data;
      this.lock := lock;
      this.model := model;
      this.files := files;
      trainLog := [];
      backups := [];
    }

    /** `log(msg)`: appends one line to train.log. */
    method Log(e: Event)
      modifies this`trainLog
      ensures trainLog == old(trainLog) + [e]
    {
      trainLog := trainLog + [e];
    }

    /** Consecutive `log(...)` calls: appends the lines in order. */
    method LogAll(es: seq<Event>)
      modifies this`trainLog
      ensures trainLog == old(trainLog) + es
    {
      trainLog := trainLog + es;
    }
  }
}

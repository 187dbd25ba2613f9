# A self-retraining Spanish chatbot, modelled in Dafny

The chatbot answers chat messages with a small neural language model. It
logs the short exchanges it has to a corpus, `chat_logs.txt`. Once enough
conversation is logged it retrains itself: the corpus is turned into
prompt/response pairs in `data.txt`, the trainer builds a vocabulary and
next-token examples from those pairs, and the corpus is backed up and
emptied. This project models that loop and proves what it promises:

- `Tokenizer`: lower-case whitespace tokenization and the sorted
  vocabulary (`tokenizer.py`).
- `Decoder`: the reply generator `generar`. It covers the greeting for a
  blank message, the "too few known words" rejection, the prompt ids, and
  the drawing loop with its five stop rules. It also covers the formatting
  of the drawn words (capitalization, final mark, cut to eight words, the
  filler for one-word replies) and the fallback sentences.
- `ModelFile`: the checkpoint formats the generator accepts when it loads
  `model.pth`.
- `AutoTrain`: the trigger `should_train` and the training run
  `auto_train`. The run covers the lock file, the prerequisite checks, the
  dataset build, the trainer run, the backup and emptying of the corpus,
  and every line it writes to `train.log`.
- `Dataset`: `build_dataset()`, which pairs `usuario:`/`ia:` lines into
  training pairs.
- `Training`: the trainer's data preparation and its choice between
  reusing the saved weights and training from scratch.
- `DataCleaner`: the standalone cleaner of `data.txt`.
- `Service`: the web handlers, as a `Server` class that holds the loaded
  model and the "training active" flag. It covers chat, the training
  thread, forced training, data cleanup, model reset and the file viewer.

The files on disk are the fields of one `Files.Workspace` object. A file
that does not exist is `None`. `train.log` is a sequence of `Event`s, one
per `log(...)` call, without timestamps. Backups are a sequence of copies.

Some inputs cannot be computed inside the model, so they are parameters:

- The network and all random draws of the sampler are one function `next`.
  Given the token context so far, it returns the id drawn next.
- The random choice among fixed replies is left open: the contract names
  the set of possible replies.
- How a helper script ended is an `Outcome`: an exit status, a timeout, or
  an exception raised by `subprocess.run` itself. Only the trainer's call
  sets a timeout, so the build's outcome (`AutoTrain.BuildOutcome`) is never
  a timeout.
- Failures of single file operations are booleans, such as `appendFails`,
  `readFails` and `backupFails`.

Where the code as written and its evident intent differ (see
"## Findings"), the members concerned take a `Version`: `AsWritten` for
the code as it stands, `Corrected` for the intended code. Both are
modelled and stated:

- the generator's test for known words (`Decoder.Prompt`);
- the effect of the dataset build on data.txt (`AutoTrain.Built`).

The server holds the version it runs.

Two further behaviours are modelled as written, with no corrected
counterpart:

- After a successful training the run log holds an excerpt of the
  trainer's output exactly when that output contains `"Loss:"`
  (`AutoTrain.TrainEvents`). The trainer's output is a parameter
  (`AutoTrain.TrainerRun`). `train.py` prints its loss as `Loss = `, so
  the marker appears only through some other line it prints, such as the
  sample question it echoes, which is the first line of data.txt.
- The server keeps the model it loaded at start-up. Retraining and reset
  do not change the model it answers with.

## Model

| member | source | states |
|---|---|---|
| Tokenizer.Tokenize | tokenizer.py:1-2 | every token is a non-empty word without whitespace, already in lower case |
| Tokenizer.Encode | train.py:52-53 | one id per token, in order |
| Tokenizer.LessIrreflexive | tokenizer.py:6 | no string sorts before itself |
| Tokenizer.LessTransitive | tokenizer.py:6 | the string order `sorted` uses is transitive |
| Tokenizer.LessTotal | tokenizer.py:6 | any two different strings are ordered one way |
| Tokenizer.LessAsymmetric | tokenizer.py:6 | never both a < b and b < a |
| Tokenizer.SortedDistinct | tokenizer.py:6 | `sorted(set(tokens))` is strictly increasing and holds exactly the tokens |
| Tokenizer.BuildVocab | tokenizer.py:4-9 | `stoi`'s keys are exactly the tokens of the text; `itos` is defined exactly on 0 .. n-1 for the n distinct tokens; the two maps are inverse; indices follow the alphabetical order |
| Tokenizer.VocabSize | tokenizer.py:5-8 | both maps have one entry per distinct token |
| Tokenizer.SmallestWordIsZero | tokenizer.py:6-7 | a token is numbered 0 exactly when it is the alphabetically smallest token |
| ModelFile.LoadSaved | train.py:153-159 | the dictionary the trainer saves is loaded back by the generator with the same weights and vocabulary |
| ModelFile.LoadTuple | generate.py:22-25 | a tuple loads exactly when it has three items of the right kinds, and then unpacks them in order |
| ModelFile.LoadDict | generate.py:17-20 | a dictionary loads exactly when its weights, `stoi` and `itos` entries are present with the right kinds |
| Decoder.SeedIdsAsWritten | generate.py:43-47 | one id per word of the lowered message |
| Decoder.TokenizeToken | generate.py:43-44 | a vocabulary word tokenizes to itself |
| Decoder.SmallestWordRejectedAsWritten | generate.py:47-58 | with the 0 sentinel, a message made of the vocabulary's smallest word is rejected as not understood |
| Decoder.TooFewKnown | generate.py:43-52 | in either version, a message without words is rejected, and an accepted message has at least one known word and no more known ids than words |
| Decoder.PromptAsWritten | generate.py:47-61 | the as-written prompt is the corrected prompt with its zeros removed, and the two are equal when no word of the message is numbered 0 |
| Decoder.SmallestWordDroppedAsWritten | generate.py:47-61 | for a message holding the vocabulary's smallest word, the as-written context lacks that word's id 0 while the corrected prompt holds it |
| Decoder.PromptIds | generate.py:47-61 | the prompt has at most one id per word, and every id is a vocabulary index |
| Decoder.PromptOfKnownWords | generate.py:47-61 | when every word is known, the prompt is their ids, in order |
| Decoder.VocabularyMessageUnderstood | generate.py:47-58 | the corrected test never rejects a non-empty message whose words all occur in the training text |
| Decoder.Lookup | generate.py:87 | a non-empty result is the vocabulary word of the id |
| Decoder.Emit | generate.py:67-103 | the loop only appends words; it draws at most `maxWords` minus the steps done; the context grows by one id per kept word |
| Decoder.EmitStopped | generate.py:70-99 | the loop ends at the step limit or at a draw the stop rules reject |
| Decoder.EmitDraws | generate.py:72-85 | each id added to the context is the one drawn from the context before it |
| Decoder.EmitLooksUp | generate.py:87-103 | each kept word is the vocabulary word of the id drawn with it |
| Decoder.EmitKept | generate.py:89-101 | no kept word was rejected by the stop rules at its step |
| Decoder.KeptWord | generate.py:90-96 | a word the stop rules let through is non-empty, no stop word, drawn before step 5, and differs from the two words before it |
| Decoder.EmitShape | generate.py:67-103 | at most `maxWords` and at most five words are drawn; each is a non-empty vocabulary word, no stop word, and differs from the two words before it |
| Decoder.DrawnWord | generate.py:87-101 | the k-th drawn word has those properties |
| Decoder.DrawnFromVocabulary | generate.py:87 | the k-th drawn word is the vocabulary word of the k-th draw |
| Decoder.DistinctRuleDormant | generate.py:95 | the "seven distinct words" rule never fires |
| Decoder.SampleWords | generate.py:67-103 | the loop returns exactly the words of the drawing process `Emit` |
| Decoder.StopsAsChecked | generate.py:90-98 | the stop test the loop evaluates, with its set of used words, is the stop rule `Stops` |
| Decoder.Punctuate | generate.py:110-112 | the text ends with a period, an exclamation mark or a question mark |
| Decoder.Format | generate.py:110-126 | a formatted text ends with a mark, with or without the filler step |
| Decoder.Finish | generate.py:106-126 | the reply built from the drawn words ends with a mark |
| Decoder.CapitalizeWord | generate.py:108 | capitalizing a word without marks keeps it such a word |
| Decoder.PunctuateWord | generate.py:110-120 | a single word without marks gets a period, stays one word and is not cut |
| Decoder.PeriodBecomesFiller | generate.py:124 | in a text whose only period is the last character, only that period is replaced |
| Decoder.PadOneWord | generate.py:110-124 | a one-word reply becomes the word, a space, the filler and a period |
| Decoder.FinishOneWord | generate.py:106-124 | for one drawn word: the capitalized word, a space, the filler and a period |
| Decoder.Generate | generate.py:36-136 | in either version: a blank message gets the greeting; a message with too few known words gets a not-understood reply; otherwise a formatted sentence of the words drawn from that version's prompt, or a fallback sentence when none was drawn |
| Decoder.GeneratedRepliesEnd | generate.py:106-136 | formatted replies and fallback sentences end with a mark |
| Decoder.AnswerNotBlank | generate.py:36-136 | no reply of the generator is blank |
| AutoTrain.ShouldTrain | auto_train.py:19-40 | a missing corpus or a failed read gives false; otherwise true exactly when at least 6 stripped lines start with a label; the lines it logs |
| AutoTrain.OtherLinesNotCounted | auto_train.py:27-36 | appending lines without a label does not change the count |
| AutoTrain.TurnLinesLabelled | auto_train.py:30 | the two lines of every turn start with a label |
| AutoTrain.ConversationCountGrows | auto_train.py:27-36 | each clean turn logged adds exactly two counted lines |
| AutoTrain.ShouldTrainOnTurns | auto_train.py:6-36 | a corpus written from empty by clean turns triggers training exactly from three turns on |
| AutoTrain.FirstMissing | auto_train.py:60-64 | the first missing collaborator file, or none exactly when all are present |
| AutoTrain.CheckPrerequisites | auto_train.py:55-69 | the banner and the first missing prerequisite are logged; the result says whether all files and the corpus exist |
| AutoTrain.LogDataSize | auto_train.py:86-93 | when data.txt exists, logs its line count and, under 10 lines, the warning; when it does not exist, logs nothing |
| AutoTrain.TrainEvents | auto_train.py:109-120 | the output excerpt is logged exactly when the trainer exited with status 0 and its output contains "Loss:"; success is logged exactly on status 0 and comes first; another status logs the code and the output tail |
| AutoTrain.LogTraining | auto_train.py:96-120 | logs the trainer's outcome: success followed by the excerpt when the output holds "Loss:", an exit code with its output, a timeout or an error |
| AutoTrain.BackUpCorpus | auto_train.py:122-142 | unless the copy raises, the corpus is appended to the backups before it is emptied |
| AutoTrain.TrainAndClean | auto_train.py:86-142 | steps 4 to 6, whether or not data.txt exists: the reported line count is that of data.txt (none when it is missing); the exact log lines, including the excerpt when the trainer's output holds "Loss:"; the backup outcome |
| AutoTrain.BuildAndTrain | auto_train.py:71-142 | after a build that exited with status 0, data.txt is unchanged as written and gains exactly the corpus pairs when corrected; the reported line count is that of the resulting data.txt; the exact log lines; the backup outcome |
| AutoTrain.BuildStage | auto_train.py:71-142 | a failed build leaves the files alone, reports no line count and raises only when the script could not run; a successful one changes data.txt as the version says and reports the line count of the resulting data.txt; the exact log lines |
| AutoTrain.RunSteps | auto_train.py:54-142 | for either version: the whole log of the body of the run, with the line count reported exactly when the prerequisites held and the build exited with status 0 (that of data.txt as the build left it); whether an exception escapes; how the files change |
| AutoTrain.StepsKeepCorpus | auto_train.py:54-142 | the corpus is never lost: it stays, or it is emptied only after a backup copy; data.txt stays or gains exactly the corpus pairs, and as written it always stays |
| AutoTrain.AsWrittenDropsTurn | auto_train.py:71-142 | as written, a successful run on a corpus of one clean turn leaves data.txt as it was and empties the corpus into a backup; the corrected run appends the turn's message and reply to data.txt instead |
| AutoTrain.Release | auto_train.py:144-153 | an escaped exception is logged with its traceback, then the lock is removed as the last logged act |
| AutoTrain.RunLocked | auto_train.py:50-153 | with no lock, the run takes it, changes the files as the steps of its version say, and ends with the lock released; the log grows by exactly the steps' lines, the exception report when one escaped, and the lock removal |
| AutoTrain.Run | auto_train.py:42-153 | a held lock only logs "already running" and changes no file; otherwise the lock is released at the end, the log grows by exactly the run's lines (`RunEvents`), ending with the lock removal, and the files change as the steps of the version say |
| Files.Workspace.Log | auto_train.py:11-17 | one line is appended to train.log |
| Corpus.CorpusLines | app.py:59-62 | the corpus written by clean turns is read back as exactly their labelled lines |
| Corpus.CleanLinesRead | auto_train.py:26-27 | clean lines written one per line are read back unchanged |
| Corpus.AppendTurns | app.py:59-62 | appending turns to a corpus that ends with a newline adds exactly their lines |
| Dataset.PairLines | build_dataset.py:14-15 | prompt then response for every pair, two lines per pair |
| Dataset.ScanOrigin | build_dataset.py:7-20 | every pair comes from two consecutive lines passing the test; pairs keep line order and never share a line |
| Dataset.PairsOrigin | build_dataset.py:7-20 | every pair comes from a `usuario:` line and the `ia:` line after it, both with text once the labels are removed |
| Dataset.PairsNonEmpty | build_dataset.py:13-16 | both sides of every pair written have text |
| Dataset.NoPromptNoPairs | build_dataset.py:9 | without a `usuario:` line nothing is written |
| Dataset.BuildDataset | build_dataset.py:1-20 | data.txt always exists afterwards; a missing corpus is reported; otherwise exactly the corpus pairs are appended and nothing is removed |
| Dataset.ExtractLabelled | build_dataset.py:10-11 | removing the label from `label + " " + s` gives `s` back |
| Dataset.TurnIsPair | build_dataset.py:9-13 | the two lines of a clean turn form a pair, and that pair is the turn |
| Dataset.TurnLinesPair | build_dataset.py:7-20 | a clean turn's lines at the head of the corpus yield that turn's pair first |
| Dataset.PairsOfTurnLines | build_dataset.py:7-20 | the pairs of the lines of clean turns are the turns |
| Dataset.CorpusRoundTrip | build_dataset.py:1-20 | the turns the chat handler logged are exactly the pairs extracted from the corpus |
| Dataset.OneTurnAppended | build_dataset.py:7-16 | for a corpus of one clean turn, `build_dataset()` appends the message line, then the reply line |
| Dataset.SampleTurnClean | app.py:55-62 | the turn "hola" / "bien" is a clean turn |
| DataCleaner.CleanLines | limpiar_data.py:12-31 | the loop keeps exactly the stripped lines that pass the cleaner's tests, in order |
| DataCleaner.KeepForTraining | limpiar_data.py:13-31 | for a stripped line, kept exactly when it has text, at most six words and no run-together turn; the last test adds nothing |
| DataCleaner.CleanDataFile | limpiar_data.py:4-35 | without data.txt nothing is written; otherwise data.txt is rewritten with the kept lines and their number is reported |
| DataCleaner.LastTestPasses | limpiar_data.py:30-31 | the last test never fails once the others passed |
| DataCleaner.KeptShape | limpiar_data.py:12-31 | no more lines than before; kept lines are stripped input lines in order; each is unbroken and passes the test |
| DataCleaner.KeptExactly | limpiar_data.py:12-31 | a line is kept exactly when some input line strips to it and it passes the test |
| DataCleaner.RewrittenReadBack | limpiar_data.py:34-35 | the rewritten file reads back as the kept lines; cleaning again changes nothing |
| DataCleaner.CleanedLines | limpiar_data.py:12-35 | every line left has text, one to six words, and no run-together turn |
| DataCleaner.ConcatenationDropped | limpiar_data.py:25-27 | a line holding "como estas estoy bien gracias", in any case, is removed |
| Training.Zip | train.py:46 | as long as the shorter list; the k-th pair is the k-th prompt and response |
| Training.ReadPairs | train.py:15-24 | the prompts and responses read, zipped, are lines 0 and 1, 2 and 3, and so on, kept when both have text |
| Training.PairUpTextLines | train.py:18-24 | when every line has text, line 2k and line 2k+1 form pair k; an odd last line is left over |
| Training.PairUpAppend | train.py:18-24 | after an even number of lines, the two parts are paired apart |
| Training.PairUpPairLines | train.py:18-24 | pairs whose two lines have text are read back as themselves |
| Training.StrippedLinesNoBreak | train.py:11-12 | the lines read hold no line break |
| Training.ExtractClean | build_dataset.py:10-11 | a side extracted from an unbroken line is stripped and unbroken |
| Training.PairsClean | build_dataset.py:10-15 | both lines written for every pair are clean |
| Training.DataReadBack | train.py:10-24 | the pairs appended to data.txt are read back by the trainer, after those already there, when data.txt held an even number of text lines |
| Training.TokenizeJoin | train.py:38-39 | tokenizing texts joined by spaces gives their tokens one after the other |
| Training.VocabCoversPairs | train.py:38-39 | every word of every pair is in the vocabulary |
| Training.Examples | train.py:46-61 | no more examples than pairs |
| Training.MakeSequences | train.py:43-61 | the inputs and targets are exactly those of the pairs' examples, in order |
| Training.ExamplesShifted | train.py:57-61 | every target is its input shifted by one id, and both are the same non-zero length |
| Training.ExamplesOfLongPairs | train.py:59-61 | when every pair has two ids or more, each gives exactly one example |
| Training.ExampleIdsInVocab | train.py:37-61 | every id of every example names a vocabulary word |
| Training.Prepare | train.py:10-63 | an unreadable file is reported; fewer than 3 pairs stops with their count; otherwise the pairs, the vocabulary of their words and the examples |
| Training.ResumeSaved | train.py:73-88 | a model the trainer saved is resumed exactly when the vocabulary size is unchanged, and then with its own weights |
| Training.ResumeNeedsSize | train.py:73-88 | weights are reused only from a dictionary recording the same vocabulary size; the tuple format is always retrained |
| Service.AcceptWordsSuffice | app.py:49-55 | the rule's blank-reply test never decides: a reply with a word has text |
| Service.LoggedLines | app.py:55-65 | an accepted clean turn adds exactly its two lines to the corpus; a rejected turn adds nothing |
| Service.KeepLines | app.py:232-236 | the cleanup loop keeps exactly the stripped lines that pass the test, in order |
| Service.ListMissing | app.py:185-189 | exactly the collaborator files missing, in order |
| Service.ChatCleanup | app.py:228-243 | after the cleanup every chat-log line has text and at most 8 words; a second cleanup removes nothing |
| Service.DataCleanup | app.py:246-261 | after the cleanup every data line has one to six words; a second cleanup removes nothing |
| Service.SeedDataTrains | app.py:206-208 | the seed data gives the trainer exactly the 3 pairs it requires |
| Service.EmptyCorpusIdle | auto_train.py:25-36 | an emptied corpus never triggers training |
| Service.ViewWhitelist | app.py:381-397 | a name is refused exactly when it is not one of the three viewable files; a shown file is shown with its content; paths and model.pth are refused |
| Service.ViewFile | app.py:381-397 | refused exactly when the name is not a viewable file; shown with its content exactly when it is viewable and exists; otherwise reported absent |
| Service.Server.Respond | app.py:42-46 | the generator's reply, in the server's version, for the lowered message |
| Service.Server.LogTurn | app.py:49-65 | the corpus gains the turn's two lines exactly when both sides have one to six words and the write does not fail |
| Service.Server.Trigger | app.py:71-77 | a thread is started exactly when `should_train` says yes and none is running |
| Service.Server.Chat | app.py:33-79 | a blank message gets the fixed prompt and changes nothing; otherwise the generator's reply in the server's version, the logging rule and the trigger |
| Service.Server.TrainingThread | app.py:81-91 | after one run the flag is cleared; a held lock leaves the lock and every file as they were; otherwise the lock is released, the log grows by exactly the run's lines, and the files change as the run of the server's version says |
| Service.Server.ForceTraining | app.py:177-219 | refused while running or when a collaborator file is missing; otherwise both data files are seeded when missing or empty and a thread starts |
| Service.Server.CleanData | app.py:222-267 | each existing file is rewritten with its kept lines; the number removed is the total of both files |
| Service.Server.ResetModel | app.py:278-304 | model.pth is deleted; data.txt is seeded when missing or empty; an existing corpus is emptied |

## Left out

- The network, softmax, repetition penalty, temperature and multinomial draw (generate.py:71-85) are the parameter `next`. The training loop and the model class (train.py:90-150, model.py) are not modelled. They are floating-point tensor code.
- The generator's load at import time, and the process exit when model.pth is missing or unreadable (generate.py:7-34), are not modelled as a process. The server is built with the loaded `Artifact`; `ModelFile.Load` says which checkpoints load.
- The endpoints `get_estado`, `home`, `admin_panel`, `health_check`, `get_logs` and `startup_event` are left out. They only report state, serve static pages or seed files at start-up.
- Timestamps, console output and the text of the log messages are not modelled. Each `log(...)` call is one `Event`. Backup file names are not modelled; backups are a sequence.
- The training thread is not modelled as running concurrently with requests. `Service.Server.TrainingThread` is its body, run on its own. Interleavings with other requests are not modelled.
- Exceptions other than the ones named by the parameters (disk errors, non-UTF-8 files, permission errors) are not modelled. In particular the error replies of `limpiar_datos` and `reiniciar_modelo` (app.py:269-275, 306-312) are not.
- Decoder.TooFewKnown: the test `known < max(1, n * 0.3)` is stated as the integer comparison `10 * known < 3 * n`. The double-precision rounding of `n * 0.3` is not modelled.
- Text.Lower: case mapping covers ASCII and Latin-1 only, not the whole of Unicode.
- Training.InitialWeights: a weights entry whose tensor shapes do not fit the new network makes `load_state_dict` raise, and training then starts from scratch. Shapes are not modelled, so such a checkpoint is modelled as resumed.
- auto_train.py:155-162, the script's own entry point, is `AutoTrain.ShouldTrain` followed by `AutoTrain.Run`. It is not a member of its own.

## Findings

| source | as written | input that shows it | evidently intended | confidence | as-written member | corrected member |
|---|---|---|---|---|---|---|
| build_dataset.py:1-20 | the script only defines `build_dataset()` and never calls it, so `python build_dataset.py` exits 0 and appends nothing; the run then backs up and empties the corpus, and logged chats never reach data.txt | a corpus holding `usuario: hola` / `ia: bien` and a run that reaches the build step | the script calls `build_dataset()`, so that data.txt gains the corpus pairs before the corpus is emptied | high (not executed) | AutoTrain.AsWrittenDropsTurn | Dataset.CorpusRoundTrip |
| generate.py:47-61 | unknown words get the id 0, which is also the index `build_vocab` gives the alphabetically smallest word; that word counts as unknown and is dropped from the context (`Decoder.SmallestWordDroppedAsWritten`) | training text "hola adios", message "adios": its id is 0, no word counts as known, and the reply is a not-understood sentence | a word is known when it is in the vocabulary | high (not executed) | Decoder.SmallestWordRejectedAsWritten | Decoder.VocabularyMessageUnderstood |

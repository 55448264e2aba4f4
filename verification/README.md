# A verified model of upmpdcli's stateful core

upmpdcli is a UPnP/OpenHome renderer in front of the Music Player Daemon (MPD). This project models the parts of it
that keep state or parse text, and proves what they promise:

* **the configuration files** (`ConfText`, `ConfRoundTrip`, `ConfRewrite`, `ConfRuns`, `ConfParsed`, `ConfReadBack`,
  `ConfStable`, `ConfContent`, `ConfNotes`, `ConfMeaning`, `ConfSimple`, `ConfTree`, `ConfStack`): the ini format with continuation
  lines and folding, the object that keeps the data and the presentation of a file side by side, sections that inherit
  from enclosing paths, and stacks of files that override each other. The central result is about any parsed text and
  any sequence of edits: data and comments read back from what is written exactly when the data is such as a file can
  hold and no comment is harmful. Without a harmful comment the data alone comes back exactly when a file can hold it;
  with one it may or may not. What the data is, is said by the text and the edits alone: the last word counts.
* **the work queue** (`WorkQueue`, `WorkQueueSafety`, `WorkQueueLiveness`, `WorkQueueLate`, `WorkQueueBound`,
  `WorkQueueStandstill`, `WorkQueueShutdown`): a monitor with two condition variables as a step relation over workers
  and clients that are running, asleep or signalled, workers that fail included. No task is lost but the one that a
  failing worker holds, the queue can come to a standstill exactly for the configurations that `NeverStuckIff` names,
  a producer can be left asleep beside a queue with room exactly for those that `ProducersBoundIff` names, and
  termination comes to its end under every schedule.
* **the playlist over the shared MPD queue** (`Mpd`, `MpdCli`, `Sources`, `SourcesProofs`, `SourcesPlaying`,
  `Services`, `PlaylistCache`): one MPD queue is lent to the playlist and the radio in turn by saving and restoring it. MPD is a
  server value: a queue of songs with fresh ids, a version, and the play state.
* **buffered reads** (`Netcon`), **the metadata cache file** (`MetaCache`), **tokens and quotes** (`Tokens`,
  `TokensMeaning`), **paths** (`PathUtil`) and **the small XML parser** (`PicoXml`, `PicoXmlParser`,
  `PicoXmlDocuments`, `PicoXmlAccepted`). For each of these texts there is a language in which it is written, with a
  theorem that reading gives what was written, and one that every input, or every accepted one, is written so.

Code that changes objects in place is modelled by classes and loops (`ConfSimple`, `ConfStack`, `MPDCli`,
`OHPlaylist`, `OHRadio`, `OHProduct`, `OHPlaylistCache`, `NetconData`, `PicoXMLParser`), each method being proved
against a function on values; the theorems are about those functions, or about runs of them. `Strings` and `Counting`
are shared helpers.

`dafny verify dfyconfig.toml` checks everything.

## Notes on the code

* A stored comment whose text ends with a backslash and a carriage return turns into a continued line when the file
  is written and read again, and may swallow the next assignment (`ConfNotes.StrayCrBreaksRoundTrip`). `Harmless` is
  the exact condition under which a comment cannot do this, and a text whose carriage returns all stand at line ends
  never gives rise to such a comment. A comment with a carriage return behind blanks behind another one is harmless
  but loses a part at each of two rewrites (`ConfStable.UnsteadyNote`).
* A comment inside a continued line does not end the continuation: the parser goes on appending to the comment.
* `clear()` and `eraseKey()` rewrite the file of an object opened read-only.
* `content_write()` hands section names on as C strings: one that holds a NUL is cut there when the data is written
  without its presentation, as for a copy of the object, and comes back as another section
  (`ConfContent.NulSectionCut`). A commented-out assignment behind a NUL is not recognized as one.
* A worker that fails wakes the clients and not the other workers: with three of them or more, `waitIdle()` may sleep
  for ever over a task that nobody will take (`WorkQueueStandstill.FailStuck`).
* `WorkQueue` says that `hi == -1` disables the queue; the code does not test for it, and it is not modelled.
* `waitIdle()` takes part in the wake-ups of `put()`: the one wake-up of `take()` can go to a client that waits for
  the queue to be idle and goes to sleep again, while a producer sleeps beside a queue with room
  (`WorkQueueStandstill.IdleTakesSignal`).
* A refused insertion leaves the remembered id at -1 with the position and version of the last good one. The next
  `insertAfterId(-1)`, which is meant for the end of the queue, then goes behind the last good insertion
  (`Mpd.ShortcutAgreesIff`, `Mpd.RefusalMisleads`, and a run from the start in `SourcesProofs.RefusalMisplaces`).
* The OpenHome documentation wants fault 800 for an unknown AfterId; the code inserts at the end. AfterId 0 with an
  inactive playlist fails when no saved song has that id.
* Deleting a song of the saved playlist does not move the saved position: see `SourcesProofs.DeleteSavedResumesIff`.
* A new title of a stream goes into the metadata cache without its dirty flag, and so not into the file until
  something else changes (`PlaylistCache.SavedUpToDate`).
* `ConfStack::set()` answers true without any effect when a deeper file has the value already and the top one is
  read-only (`ConfStack.ReadYourWritesIff`).
* `stringsToString()` escapes neither backslashes between quotes nor quotes outside of them
  (`Tokens.StringsRoundTripIff`).
* The XML parser drops unknown entities, ignores one last stray character in a tag with attributes, accepts several
  top elements, and reports no text after the last tag.
* The metadata saver renames its temporary file even after a write error; a file cut short still reads back without
  error as a part of the cache (`MetaCache.TornFile`).

## Model

| member | source | states |
|---|---|---|
| ConfSimple.ConfSimple.ParseInput | src/conftree.cpp:105-208 | the parse loop ends on every text and leaves the data and presentation that reading it line by line gives; every variable has the value of its last assignment in the text, or its earlier one |
| ConfSimple.ConfSimple.FromString | src/conftree.cpp:229-246 | an object made from a text holds what parsing it yields, with data and presentation in agreement |
| ConfSimple.ConfSimple.FromFile | src/conftree.cpp:246-272 | the same for a file, which is not rewritten by loading it |
| ConfSimple.ConfSimple.ISet | src/conftree.cpp:435-549 | storing a variable keeps the agreement of the two structures, refuses line breaks, and never reaches the logical failure abort |
| ConfSimple.ConfSimple.InsertVar | src/conftree.cpp:500-545 | a new variable goes right behind the first commented-out assignment of its name in the zone, or to the end of the zone, an old entry being used again |
| ConfSimple.ConfSimple.Get | src/conftree.cpp:349-368 | the value of a live variable, and nothing else |
| ConfSimple.ConfSimple.Set | src/conftree.cpp:415-425 | the whole new state and file, for writable and read-only objects |
| ConfSimple.ConfSimple.Erase | src/conftree.cpp:551-567 | the variable goes, its section too when it was the last one, the presentation stays |
| ConfSimple.ConfSimple.EraseKey | src/conftree.cpp:569-576 | the whole section goes, and nothing else |
| ConfSimple.ConfSimple.Clear | src/conftree.cpp:578-583 | both structures are emptied |
| ConfSimple.ConfSimple.HoldWrites | src/conftree.h:190-199 | the data stays, and the file is brought up to date when writes are no longer held |
| ConfSimple.ConfSimple.Write | src/conftree.cpp:613-635 | what ends up in the file, depending on status, holdWrites and the file name |
| ConfSimple.ConfSimple.WriteTo | src/conftree.cpp:647-699 | the loop over the presentation prints the live sections and variables and all comments |
| ConfSimple.ConfSimple.ContentWrite | src/conftree.cpp:586-645 | without a presentation, sections and names are printed in the order of the maps |
| ConfSimple.PrintVar | src/conftree.cpp:384-412 | the counter-driven loop folds a long value after white space |
| ConfRoundTrip.FoldingIsTransparent | src/conftree.cpp:113-207 | an assignment line cut anywhere into backslash-continued lines parses to the same thing, whatever follows, the end of the text included |
| ConfRoundTrip.FoldCuts | src/conftree.cpp:395-406 | the printer's folding is such a cut of the value |
| ConfRoundTrip.VarParsed | src/conftree.cpp:384-412 | a printed variable, folded or not, sets that variable to that value and nothing else |
| ConfRoundTrip.VarLayout | src/conftree.cpp:384-412 | a printed variable takes one line below 75 characters, and otherwise is cut at each blank behind 50 characters of a line with more than ten left |
| ConfMeaning.LastAssignmentCounts | src/conftree.cpp:105-208 | any text on top of any data: each variable has the value of the last assignment to its name in its section, or its earlier one when there is none |
| ConfMeaning.PrintedVarCounts | src/conftree.cpp:384-412 | a printed variable replaces the value there was and changes no other |
| ConfMeaning.AnyAssignment | src/conftree.cpp:113-207 | a name, an equals sign and a value make an assignment, whatever white space and carriage returns stand around them |
| ConfMeaning.AnySection | src/conftree.cpp:113-207 | a name between brackets makes a section, with white space and further brackets around it |
| ConfMeaning.EditCounts | src/conftree.cpp:415-583 | what one set, erase, eraseKey or clear makes of every variable |
| ConfMeaning.LastEditCounts | src/conftree.cpp:415-583 | after any edits a variable has what the last one about it says |
| ConfMeaning.LastWordCounts | src/conftree.cpp:105-583 | any text and then any edits: the last word about a variable counts |
| ConfMeaning.PresentationAfter | src/conftree.cpp:551-583 | erasing leaves the presentation alone, clearing leaves nothing to write |
| ConfMeaning.NewVarPlaced | src/conftree.cpp:435-549 | the one line that a new variable adds, and where: behind the first commented-out assignment in its zone, else at the end of the zone |
| ConfMeaning.SectionsInOrder | src/conftree.cpp:113-207 | the sections are remembered in the order in which the text names them |
| ConfMeaning.CommentedNameIs | src/conftree.cpp:103 | the name of a commented-out assignment is the one behind the first number sign followed by a name and an equals sign |
| ConfMeaning.NoteKind | src/conftree.cpp:113-207 | a comment counts as a commented-out assignment exactly when it holds one before any NUL |
| Strings.SortedAscending | src/conftree.cpp:586-600 | keys are walked in ascending order |
| ConfRewrite.LiveSectionHasSk | src/conftree.cpp:657-697 | every live non-empty section has an SK entry |
| ConfRewrite.RereadComplete | src/conftree.cpp:647-699 | every live variable is printed in its section, and no dead one |
| ConfRewrite.ReadBack | src/conftree.cpp:647-699 | with harmless comments, parsing what was printed re-reads exactly the live lines |
| ConfRuns.SetKeepsPresentation | src/conftree.cpp:435-549 | every live variable keeps an entry in its section's zone, and the zone is always found |
| ConfRuns.EraseKeepsPresentation | src/conftree.cpp:551-567 | erasing without touching the presentation keeps the agreement |
| ConfRuns.RunKeeps | src/conftree.cpp:415-583 | any sequence of set, erase, eraseKey and clear keeps the agreement and never aborts |
| ConfParsed.ParseOk | src/conftree.cpp:105-208 | any parsed text gives agreeing structures and data that a file can hold |
| ConfParsed.DataRoundTripIff | src/conftree.cpp:647-699 | with harmless comments, what is written reads back to the same data exactly when all names, values and sections are well formed |
| ConfReadBack.ReadBackIff | src/conftree.cpp:647-699 | of well-formed data, parsing what was printed re-reads the live lines exactly when every comment is harmless |
| ConfReadBack.RoundTripIff | src/conftree.cpp:647-699 | data and comments read back exactly when all names, values and sections are well formed and every comment is harmless |
| ConfReadBack.RunRoundTrip | src/conftree.cpp:415-699 | any text and any edits: nothing aborts, and data and comments read back exactly when the result is well formed with harmless comments; the data alone exactly when well formed, if the comments are harmless |
| ConfReadBack.WfRunRoundTrip | src/conftree.cpp:415-699 | any text and any well-formed edits: data and comments read back exactly when the comments are harmless, always when carriage returns stand at line ends only |
| ConfParsed.PlainTextHarmless | src/conftree.cpp:113-207 | carriage returns at line ends only: no comment can turn into a continued line |
| ConfContent.ContentRoundTripIff | src/conftree.cpp:586-645 | the output without presentation reads back to the same data exactly when all names, values and sections are well formed and no section name holds a NUL |
| ConfContent.ContentReadBackNoNul | src/conftree.cpp:586-600 | no section that is read back from it holds a NUL |
| ConfContent.CopyRoundTripIff | src/conftree.h:294-304 | any text, any well-formed edits and then a copy: what is written for the copy reads back exactly when no section name holds a NUL |
| ConfContent.NulSectionCut | src/conftree.cpp:586-600 | parsed texts whose copies come back with a section cut at its NUL |
| ConfStable.RewriteSettlesIff | src/conftree.cpp:647-699 | of well-formed data with harmless comments: the data comes back, and nothing changes in any further rewrite exactly when every comment is steady |
| ConfStable.UnsteadyNote | src/conftree.cpp:113-207 | a harmless comment that a second rewrite changes again |
| ConfStable.RunStable | src/conftree.cpp:415-699 | any text and any well-formed edits: all comes back now and after further rewrites exactly when every comment is harmless and steady; unchanged comments when carriage returns stand at line ends only |
| ConfNotes.NoteTransparentIff | src/conftree.cpp:113-207 | a stored comment goes unnoticed in front of every text exactly when it does not end with a backslash once trimmed |
| ConfNotes.StrayCrBreaksRoundTrip | src/conftree.cpp:113-207 | a concrete text that loses a variable when rewritten |
| ConfTree.Get | src/conftree.cpp:792-827 | the value from the longest enclosing section path that has the name, none exactly when no enclosing section has it or the object is in error |
| ConfTree.NearestUnique | src/conftree.cpp:792-827 | there is only one such value |
| ConfTree.GlobalEncloses | src/conftree.cpp:792-827 | an absolute path falls back to the global section last |
| ConfStack.ConfStack.Get | src/conftree.h:487-498 | the first file with the variable gives the value; only the top one when shallow |
| ConfStack.ConfStack.LowerSays | src/conftree.h:524-541 | whether the deeper files give this very value |
| ConfStack.ConfStack.Set | src/conftree.h:514-543 | the new contents of all files and the answer |
| ConfStack.ConfStack.Erase | src/conftree.h:545-547 | only the top file changes |
| ConfStack.ReadYourWritesIff | src/conftree.h:514-543 | after a successful set the value is read back, exactly unless the top file is read-only with another value |
| ConfStack.RefusedChangesNothing | src/conftree.h:514-547 | a request that failed changed nothing |
| ConfStack.OthersUnchanged | src/conftree.h:514-547 | every other variable reads as before |
| ConfStack.SetElides | src/conftree.h:519-541 | the top file has an entry afterwards exactly when the deeper files do not give the value |
| ConfStack.ErasureReveals | src/conftree.h:545-547 | after an erasure the deeper files answer; it says true when the top file can be written and has the section |
| ConfStack.ServeLean | src/conftree.h:514-547 | a top file that repeats nothing keeps repeating nothing |
| ConfStack.RunReads | src/conftree.h:487-547 | over any run a writable stack reads like one that writes every value down; the deeper files do not change |
| WorkQueueSafety.NextCounted | src/workqueue.h:114-320 | the waiting and exited counters equal the threads that wait or have exited, after every step |
| WorkQueueSafety.NextConserved | src/workqueue.h:123-152 | each accepted task is queued, taken or freed and only one of these, in order, and the length stays within a non-zero high mark |
| WorkQueueSafety.NextExecuted | src/workqueue.h:240-320 | every taken task was executed, is held by a worker, or was lost with a worker that failed |
| WorkQueueSafety.NextLoss | src/workqueue.h:314-320 | no more tasks are lost than workers are gone |
| WorkQueueLiveness.NextHeard | src/workqueue.h:114-320 | as long as the queue is up no step loses a wake-up, of a worker or of a client, failures of workers included |
| WorkQueueLiveness.NextConfig | src/workqueue.h:114-282 | without idle waits a sleeping producer means length plus woken producers at or above the high mark, kept by every step, unless puts may flush a queue of more than one |
| WorkQueueLate.NextLate | src/workqueue.h:171-210 | once the queue is down, a client sleeps only while some worker is on its way out, or in waitIdle over tasks that nobody takes |
| WorkQueueLate.NextQuiet | src/workqueue.h:240-320 | with at most two workers and a low mark of one, no task is left to a worker that sleeps on in a queue that is down |
| WorkQueueLate.NextClosing | src/workqueue.h:194-210 | once the queue is down and no worker sleeps, none will again, and clients leave the workers alone |
| WorkQueueBound.GuardedBound | src/workqueue.h:114-282 | the bound on sleeping producers follows from the invariants, for one client, for only producers that do not flush, for a high mark of one, and for a high mark that takes never get past |
| WorkQueueBound.SoundNotStuck | src/workqueue.h:114-320 | a sound configuration is not at a standstill in any state that meets the invariants, with the queue up or down |
| WorkQueueStandstill.ProducersBoundIff | src/workqueue.h:114-282 | in which configurations a sleeping producer means, in every reachable state, length plus woken producers at or above the high mark, exactly |
| WorkQueueStandstill.IdleTakesSignal | src/workqueue.h:171-187 | a run after which a producer sleeps below the high mark and nobody is woken: waitIdle took the wake-up |
| WorkQueueStandstill.FlushBreaksBound | src/workqueue.h:134-152 | a run after which a producer sleeps over a queue flushed by another |
| WorkQueueStandstill.NeverStuckIff | src/workqueue.h:114-320 | the marks, uses and numbers of workers and clients for which no reachable state is a standstill, exactly, whether or not workers may fail |
| WorkQueueStandstill.IdleStuck | src/workqueue.h:171-187 | a run into a standstill: waitIdle with a low mark above one |
| WorkQueueStandstill.FullStuck | src/workqueue.h:123-132 | a run into a standstill: a high mark below the low one |
| WorkQueueStandstill.FlushStuck | src/workqueue.h:134-152 | a run into a standstill: a flush under a second waiting producer |
| WorkQueueStandstill.FailStuck | src/workqueue.h:314-320 | a run into a standstill: one of three workers fails, one exits, and waitIdle sleeps over a task left to the third |
| WorkQueueShutdown.IdleMeansDone | src/workqueue.h:171-187 | when the idle condition holds, every accepted task was executed or flushed, and the newest was executed |
| WorkQueueShutdown.LastSaved | src/ohmetacache.cxx:76-130 | one worker and flushing puts: at idle the last snapshot put is the last one saved |
| WorkQueueShutdown.PutReturns | src/workqueue.h:114-152 | when put() returns, its task is the newest of the queue, the only one with flush and the others freed, or the queue is down and nothing happened |
| WorkQueueShutdown.PutSleeps | src/workqueue.h:123-132 | until then it sleeps because the queue is up and full, and has done nothing |
| WorkQueueShutdown.IdleReturns | src/workqueue.h:171-187 | waitIdle() returns exactly when every worker waits or has exited, and nothing is queued unless all have exited |
| WorkQueueShutdown.TerminateReturns | src/workqueue.h:194-210 | terminating goes on to the joins exactly when all workers have exited; until then it sleeps, and no worker does |
| WorkQueueShutdown.TakeReturns | src/workqueue.h:240-282 | take() gives the oldest task of a queue that is up and has enough, gives up when it is down, and else sleeps |
| WorkQueueShutdown.WorkerStepShortens | src/workqueue.h:194-210 | once closing, every step of a worker brings the end nearer, a failure too |
| WorkQueueShutdown.ClientStepKeeps | src/workqueue.h:114-210 | once closing, no step of a client takes the end further away |
| WorkQueueShutdown.TerminateCloses | src/workqueue.h:194-210 | terminating closes the queue from every reachable state, after failures too |
| WorkQueueShutdown.EveryScheduleEnds | src/workqueue.h:194-210 | whatever workers and clients do in any order, and whichever workers fail, there are no more worker steps than were left, some worker can go on until the last, and then all have exited and no client sleeps |
| WorkQueueShutdown.TerminationCompletes | src/workqueue.h:194-210 | from every reachable closing state the workers alone reach one where all have exited and no client sleeps |
| MpdCli.MPDCli.InsertI | src/mpdcli.cxx:981-1000 | the song goes in at the position under a new id, which is remembered with its position and the queue version |
| MpdCli.MPDCli.InsertAfterId | src/mpdcli.cxx:1002-1034 | the remembered position or the scan decides where, and all that is remembered afterwards |
| MpdCli.MPDCli.ScanQueue | src/mpdcli.cxx:1015-1032 | the loop finds the position after the song with the id, the end when there is none |
| MpdCli.MPDCli.SaveState | src/mpdcli.cxx:554-572 | the saved queue, play state and position |
| MpdCli.MPDCli.RestoreState | src/mpdcli.cxx:574-612 | the server after the queue was cleared, filled again and set playing |
| Mpd.ShortcutAgreesIff | src/mpdcli.cxx:1002-1034 | in every good state and for every id the shortcut picks the position that the scan would, exactly unless the id is -1 behind a refusal and the last good insertion is not at the end |
| Mpd.RefusalMisleads | src/mpdcli.cxx:981-1034 | any good insertion and then a refused one lead there: the next insertion after id -1 goes behind the good one |
| Mpd.InsertAfterIdPos | src/mpdcli.cxx:1002-1034 | where a song goes for any AfterId, under which new id, and nothing on a refusal |
| Mpd.InsertIOk | src/mpdcli.cxx:981-1000 | an insertion keeps the remembered position true |
| Mpd.ChainInserts | src/mpdcli.cxx:1002-1034 | songs each inserted after the one before lie contiguous and in order, the others unmoved |
| Mpd.RestoreRestores | src/mpdcli.cxx:574-612 | a restore brings back the URIs in order under new ids, and the play state and position when it played or paused, nothing playing when there is no such position |
| SourcesProofs.Resumes | src/ohplaylist.cxx:332-348 | switching back to the playlist plays or pauses the song at the saved position, and stops when the list is shorter |
| SourcesProofs.DeleteSavedResumesIff | src/ohplaylist.cxx:799-829 | after a deletion from the saved playlist and the switch back, what was playing resumes exactly when the deleted song came after it or the one that moved up has the same URI |
| SourcesProofs.SetSourceOk | src/ohproduct.cxx:267-338 | a switch leaves the logical playlist alone and exactly the named service active |
| SourcesProofs.InsertOk | src/ohplaylist.cxx:726-797 | an insertion after any id, with a switch to the playlist first when needed, changes the logical list as it should |
| SourcesProofs.DeleteIdOk | src/ohplaylist.cxx:799-829 | a deletion from the live or the saved queue takes that song out of the logical list |
| SourcesProofs.DoOk | src/ohproduct.cxx:267-338 | every action of playlist, radio or product keeps the invariant and changes the logical list as specified |
| SourcesProofs.EveryStep | src/ohproduct.cxx:267-338 | in every run, at rest exactly the selected service is active and each action leaves of the playlist what it should |
| SourcesProofs.RefusalMisplaces | src/ohplaylist.cxx:726-797 | a run from the start in which an insertion after id -1 lands in the middle of the playlist |
| SourcesProofs.SwitchingKeepsPlaylist | src/ohplaylist.cxx:332-348 | however long other sources take over, the playlist is unchanged |
| SourcesProofs.StartOk | src/ohplaylist.cxx:63-100 | the state at start meets the invariant |
| SourcesProofs.OldIdFound | src/ohplaylist.cxx:280-303 | an id of the saved queue finds the first live song with the same URI |
| SourcesProofs.CurrentIdSought | src/ohplaylist.cxx:518-555 | a live id is never taken for a saved one |
| SourcesProofs.SavedIdSought | src/ohplaylist.cxx:518-555 | seeking a saved id switches to the playlist and plays the first song with its URI |
| SourcesPlaying.PlayingComesBack | src/ohplaylist.cxx:332-348 | whatever other sources do in between: when the playlist is selected again, the song that played or was paused does so again at its position, and one that was stopped stays stopped |
| SourcesPlaying.RadioComesBack | src/ohradio.cxx:513-530 | a channel of the radio comes back likewise, after anything done to the playlist |
| SourcesPlaying.ReceiverSilent | src/ohproduct.cxx:267-338 | leaving for the receiver stops MPD; the playlist leaves its songs there, the radio does not |
| SourcesPlaying.RadioSilenced | src/ohradio.cxx:560-623 | a stop or the choice of a channel: the radio is selected and silent, with the channel that was chosen |
| SourcesPlaying.StreamPlays | src/ohradio.cxx:446-511 | a stream that was found plays, alone in the queue |
| SourcesPlaying.NoStream | src/ohradio.cxx:446-511 | what happens when there is only a script, when no stream was found, and for the number behind the last channel |
| SourcesPlaying.MetaPlays | src/ohradio.cxx:265-350 | a URI from the script goes to the end of the queue once and starts to play only if that was waited for |
| SourcesPlaying.PlayPlays | src/ohplaylist.cxx:350-575 | the song at the position plays; without a position the current song, or the first |
| SourcesPlaying.DeleteAndPlay | src/ohplaylist.cxx:799-829 | deleting the current song stops MPD first, deleting another one leaves what plays alone |
| SourcesPlaying.EmptiedIsStopped | src/ohplaylist.cxx:799-842 | a playlist that becomes empty is stopped |
| SourcesPlaying.StaleIdSought | src/ohplaylist.cxx:518-555 | an id from before the last switch finds the first live song with the URI it had |
| SourcesPlaying.UnknownIdSought | src/ohplaylist.cxx:518-555 | an unknown id is sought in vain |
| Services.OHProduct.ISetSourceIndex | src/ohproduct.cxx:267-338 | the objects change as the specified switch says, re-entrant calls included |
| Services.OHProduct.ISetSourceIndexByName | src/ohproduct.cxx:350-359 | the switch to the source with that name, refused when there is none |
| Services.OHProduct.ISrcNameToIndex | src/ohproduct.cxx:257-265 | the first source with the name |
| Services.OHPlaylist.SetActive | src/ohplaylist.cxx:332-348 | the queue is restored; or the queue, the play state and the position are saved as they are and then MPD is stopped |
| Services.OHPlaylist.IdFromOldId | src/ohplaylist.cxx:280-303 | the loops find the live id for a saved one |
| Services.OHPlaylist.SeekId | src/ohplaylist.cxx:518-555 | the objects change as specified for a seek |
| Services.OHPlaylist.Insert | src/ohplaylist.cxx:726-797 | the objects change as specified for an insertion |
| Services.OHPlaylist.DeleteId | src/ohplaylist.cxx:799-829 | the objects change as specified for a deletion |
| Services.OHPlaylist.DeleteAll | src/ohplaylist.cxx:831-842 | the live or the saved queue is emptied |
| Services.OHRadio.SetActive | src/ohradio.cxx:513-530 | the radio takes the queue over or hands it back |
| Services.OHRadio.MaybeActivate | src/ohradio.cxx:538-543 | the radio becomes the source unless it is |
| Services.OHRadio.IStop | src/ohradio.cxx:560-566 | the queue is emptied, with the radio as the source |
| Services.OHRadio.SetChannel | src/ohradio.cxx:582-596 | the queue is emptied, with the radio as the source and its channel number 0 |
| Services.OHRadio.SetPlaying | src/ohradio.cxx:446-511 | the selected channel plays, or the pending state is kept |
| Services.OHRadio.SetId | src/ohradio.cxx:598-623 | a channel is selected; an index one too high is let through |
| PlaylistCache.OHPlaylistCache.MakeIdArray | src/ohplaylist.cxx:140-274 | the whole new state, snapshot and flag included, and the ids that go out: those of a changed queue in its order, none of them after a change of title |
| PlaylistCache.OHPlaylistCache.Rebuild | src/ohplaylist.cxx:230-272 | the rebuilt cache, and exactly when it is saved |
| PlaylistCache.OHPlaylistCache.Merge | src/ohplaylist.cxx:236-262 | keys exactly the URIs of the queue, old metadata kept, new metadata from the first occurrence, leftovers found |
| PlaylistCache.OHPlaylistCache.RefreshTitle | src/ohplaylist.cxx:171-198 | an entry is replaced in place only for a stream with a new title |
| PlaylistCache.OHPlaylistCache.CacheSet | src/ohplaylist.cxx:604-611 | the entry is set and the cache is dirty |
| PlaylistCache.SavedUpToDate | src/ohplaylist.cxx:166-274 | any calls from the restored cache on: with a clear flag the file has the same entries, and each that differs got a new title after the last saving |
| PlaylistCache.CleanAfterReading | src/ohplaylist.cxx:236-272 | the flag is clear once a changed queue was read, and what was not saved did not need to be |
| PlaylistCache.WrittenWhenNeeded | src/ohplaylist.cxx:236-272 | the file is written exactly when saving is asked for, a changed queue was read for the active playlist, and an entry was set, came or went |
| PlaylistCache.FlagAfter | src/ohplaylist.cxx:230-272 | what raises and what clears the dirty flag |
| PlaylistCache.TitleRefreshed | src/ohplaylist.cxx:171-198 | with an unchanged queue only the entry of a current song that MPD describes changes, with its title; flag, file and ids do not |
| PlaylistCache.IdsAreInOrder | src/ohplaylist.cxx:140-164 | the ids of a queue in its order, zeros left out |
| PlaylistCache.AllNonZero | src/ohplaylist.cxx:140-164 | one id for each song when there are no zeros |
| PlaylistCache.IdsOutOfRun | src/ohplaylist.cxx:166-228 | after any calls: the ids of a changed queue, those of the last queue that was read, or none for a new title |
| PlaylistCache.EntryAfter | src/ohplaylist.cxx:166-274 | what one call stores under a URI, keeps or drops |
| PlaylistCache.ValueOrigin | src/ohplaylist.cxx:166-274 | over any calls the metadata of a song is what was last stored for it, or what the file held at start |
| PlaylistCache.NewMetaRebuilt | src/ohplaylist.cxx:236-262 | the specified cache: keys exactly the URIs of the queue, old metadata kept, new metadata from the first song |
| PlaylistCache.RebuiltOneMore | src/ohplaylist.cxx:236-262 | one more song of the queue in a rebuilt cache |
| PlaylistCache.RebuiltUnique | src/ohplaylist.cxx:236-272 | old cache and queue determine the new cache |
| PlaylistCache.RebuiltTwice | src/ohplaylist.cxx:236-272 | rebuilding again on the same queue changes nothing |
| Netcon.NetconData.Receive | src/netcon.cpp:718-789 | the next bytes of the stream: from the buffer alone when that holds enough of them, else with one read, none only at its end |
| Netcon.NetconData.DoReceive | src/netcon.cpp:792-810 | exactly the bytes asked for, or all that come before the end of file |
| Netcon.NetconData.GetLine | src/netcon.cpp:821-879 | the stream up to the first newline, the room or its end, with a final zero, and nothing else consumed |
| Netcon.NetconData.Transfer | src/netcon.cpp:837-862 | one transfer out of the buffer keeps counts and positions right |
| Netcon.LineLengthIs | src/netcon.cpp:812-819 | a line is the longest prefix within the room with no newline before its last character |
| Netcon.Session | src/netcon.cpp:718-879 | any calls in any order: what they handed out, then what is left, is what was there to read |
| MetaCache.EncodeText | src/ohmetacache.cxx:57-74 | the encoding loop |
| MetaCache.PcDecodeText | src/smallut.cpp:1178-1206 | the decoding loop with its index jumps and its last two characters |
| MetaCache.H2d | src/smallut.cpp:1168-1176 | the value of a hexadecimal digit of either case |
| MetaCache.DecodeCoded | src/smallut.cpp:1168-1206 | text written with characters, codes of hexadecimal digits of either case, and percent signs that begin no code, is decoded to what it stands for |
| MetaCache.AllCoded | src/smallut.cpp:1178-1206 | every text is written so |
| MetaCache.DecodeEncode | src/ohmetacache.cxx:57-74 | decoding undoes encoding, for every string |
| MetaCache.EncodedIsClean | src/ohmetacache.cxx:57-74 | encoded text has no equals sign, line feed or carriage return |
| MetaCache.Save | src/ohmetacache.cxx:109-115 | the text written for a cache |
| MetaCache.RestoreFrom | src/ohmetacache.cxx:132-168 | the reading loop with its line limit and C strings |
| MetaCache.FileRead | src/ohmetacache.cxx:132-168 | any file: the keys and values of its lines, up to the first one that is longer than the buffer or has no equals sign before a NUL |
| MetaCache.EveryFile | src/ohmetacache.cxx:132-168 | every text is such a file |
| MetaCache.RestoreSaved | src/ohmetacache.cxx:132-168 | reading stops with an error at the first entry that cannot be read, and values are cut at a NUL |
| MetaCache.CacheRoundTripIff | src/ohmetacache.cxx:109-168 | the file gives the cache back, in whatever order it was written, exactly when there is no NUL and every line fits |
| MetaCache.WholeLinesIs | src/ohmetacache.cxx:151-167 | the most lines that a shortened file can hold |
| MetaCache.TornFile | src/ohmetacache.cxx:151-167 | a file cut short anywhere reads without error and gives exactly the entries wholly written |
| Tokens.StringToStrings | src/smallut.cpp:281-387 | the state machine over quotes, escapes, blanks and extra separators |
| Tokens.StringsToString | src/smallut.cpp:389-416 | the printing loop |
| Tokens.StringsRoundTripIff | src/smallut.cpp:281-416 | printed strings are read back exactly when each is empty, or has blanks and no backslash, or has no blanks, carriage returns or quotes |
| Tokens.ScanPrintable | src/smallut.cpp:281-387 | one printed token is read back, wherever it stands |
| Tokens.BadQuoted | src/smallut.cpp:281-416 | a quoted token with a backslash never comes back |
| Tokens.CrsScanned | src/smallut.cpp:281-387 | scanning never makes up a carriage return |
| Tokens.StringToTokens | src/smallut.cpp:521-551 | the fields between delimiters, with or without empty ones and initial delimiters |
| TokensMeaning.TextRead | src/smallut.cpp:281-387 | a text written with blanks, separators, bare tokens and quoted ones with escapes gives these tokens; one with an open quote is refused |
| TokensMeaning.EveryText | src/smallut.cpp:281-387 | every text is written so |
| TokensMeaning.FieldsRead | src/smallut.cpp:521-551 | the fields between delimiters, an empty last one not counting |
| TokensMeaning.AllKept | src/smallut.cpp:521-551 | with allowempty all fields are tokens |
| TokensMeaning.EmptiesDropped | src/smallut.cpp:521-551 | without it, empty fields are dropped but for one in front of all others |
| TokensMeaning.WordsRead | src/smallut.cpp:521-551 | by default the tokens are the words, in order, however many delimiters stand around them |
| PathUtil.PathCanon | src/pathut.cpp:1054-1118 | the loops over the elements and the cleaned ones |
| PathUtil.CanonProper | src/pathut.cpp:1054-1118 | the result is absolute and has no empty, dot or dot-dot component |
| PathUtil.PathStep | src/pathut.cpp:1054-1118 | two dots go up and stay at the root, a dot goes nowhere, any other name goes down |
| PathUtil.PathStart | src/pathut.cpp:1054-1118 | absolute paths start at the root, others at the current directory |
| PathUtil.CanonIdempotent | src/pathut.cpp:1054-1118 | cleaning twice changes nothing |
| PathUtil.CanonDecides | src/pathut.cpp:1054-1118 | canonical paths are equal exactly when they lead to the same components |
| PathUtil.CanonCat | src/pathut.cpp:674-682 | a path may be cleaned before something is appended |
| PathUtil.TokensCat | src/smallut.cpp:521-551 | the tokens of two paths put together |
| PathUtil.FatherOfDir | src/pathut.cpp:695-724 | going up takes the last component away; the root stays |
| PathUtil.FatherIs | src/pathut.cpp:695-724 | going up drops the last name, with or without a slash behind it; a name alone leads to the current directory |
| PathUtil.IsDesc | src/pathut.cpp:999-1022 | ends, and answers whether the components of one canonical path begin those of the other |
| PicoXmlParser.PicoXMLParser.Run | cfgui/picoxml.h:198-268 | the main loop ends on every input with the specified result and handler calls: success exactly for written documents, with the calls that these stand for; both stacks are empty then |
| PicoXmlParser.PicoXMLParser.StartElem | cfgui/picoxml.h:157-189 | the path has the element and the tag stack has not while the handler runs; both agree afterwards |
| PicoXmlParser.PicoXMLParser.EndElem | cfgui/picoxml.h:191-196 | the same for an end |
| PicoXmlParser.PicoXMLParser.Chars | cfgui/picoxml.h:270-285 | text up to the next tag, reported only when a tag follows |
| PicoXmlParser.PicoXMLParser.SkipProlog | cfgui/picoxml.h:315-336 | white space and declarations are skipped, in bounds |
| PicoXmlParser.PicoXMLParser.SkipOneComment | cfgui/picoxml.h:338-358 | a comment and the text after it |
| PicoXmlParser.PicoXMLParser.TakeElement | cfgui/picoxml.h:228-266 | one tag as specified, its calls and the text after it |
| PicoXmlParser.AttrLoop | cfgui/picoxml.h:360-421 | the attribute loop, always within the tag |
| PicoXmlParser.UnQuote | cfgui/picoxml.h:423-468 | entities decoded, an unfinished one being an error |
| PicoXml.ParseNested | cfgui/picoxml.h:198-268 | on every input the calls are a prefix of a well-nested sequence, and balanced on success |
| PicoXmlDocuments.DocumentRead | cfgui/picoxml.h:198-468 | a written document, whatever its shape, its white space before brackets, between attributes and around equals signs, its quote characters and entities, gives the calls it stands for and succeeds exactly when it is balanced |
| PicoXmlDocuments.WrittenRead | cfgui/picoxml.h:423-468 | text written with characters, known and unknown entities is decoded to what it stands for |
| PicoXmlDocuments.UnfinishedEntity | cfgui/picoxml.h:423-468 | an ampersand without a semicolon behind it is an error, wherever it stands |
| PicoXmlDocuments.UnquoteQuote | cfgui/picoxml.h:423-468 | decoding undoes the quoting of the five characters |
| PicoXmlDocuments.AttrsRead | cfgui/picoxml.h:360-421 | written attributes are all read, the last of a name counting |
| PicoXmlDocuments.BlanksSkipped | cfgui/picoxml.h:315-336 | white space in front makes no difference |
| PicoXmlDocuments.DeclSkipped | cfgui/picoxml.h:315-336 | nor does a declaration |
| PicoXmlAccepted.Accepted | cfgui/picoxml.h:198-468 | whatever is parsed without an error was written as a document |
| PicoXmlAccepted.AcceptedIff | cfgui/picoxml.h:198-468 | the parse succeeds exactly for white space and declarations followed by a written document in which every element is closed in turn |

## Left out

- ConfSimple.ConfSimple.FromFile: opening the file, the fallback to reading only and a failed open are not modelled.
- ConfSimple.ConfSimple.Write: a file that cannot be opened for writing is not modelled.
- ConfParsed.DataRoundTripIff: for the data alone with a harmful comment in the file no condition is given; for data and comments together `ConfReadBack.RoundTripIff` gives it.
- ConfSimple.ConfSimple.WriteTo: errors of the output stream are not modelled.
- WorkQueueShutdown.LastSaved: a snapshot counts as saved when its task was executed, whether or not the file could be written.
- MpdCli.MPDCli.SaveState: the elapsed time, the volume and the play options are not saved.
- MpdCli.MPDCli.RestoreState: the seek to the elapsed time, the volume and the play options are not restored.
- MpdCli.MPDCli.InsertAfterId: that the queue is read only when the remembered position does not do is not stated.
- Services.OHPlaylist.SetActive: the snapshot of the UPnP state and the event are not modelled.
- Services.OHPlaylist.SeekId: the answer, and the single and consume options, are not modelled.
- Services.OHPlaylist.Insert: the format check, the entry in the metadata cache and the answer are not modelled.
- Services.OHPlaylist.DeleteId: the answer is not modelled, nor which song MPD makes the current one when that one is deleted; it is stopped first.
- Services.OHRadio.SetPlaying: what the script gives and whether the channel has a URI are one parameter.
- Services.OHRadio.SetId: what is memorized for the choice, read past the end of o_radios for an index one too high, is not modelled.
- Configuration: case-insensitive names, CFSF_NOTRIMVALUES, tilde expansion, name patterns, walking, copies of an object (they lose the presentation), errors of the output stream, and opening files.
- Characters: strings are sequences of characters standing for bytes; encodings do not come in.
- ConfTree.Get: shown as a method on a ConfSimple object, the language having no inheritance of this kind here; a stack of inheriting files is not modelled.
- ConfStack.ConfStack.constructor: takes the files that could be opened; which missing files are accepted is not modelled.
- WorkQueue: on values, since a method cannot stop inside a wait; minimum counts for waking, timed takes, closing for business, joining and resetting after termination, and a second terminating client are not modelled.
- MPD: commands succeed except for refused URIs, ids are fresh and positive, the elapsed time (songelapsedms, seekms), volume and play options, tags and events are left out; another client may change the queue and the play state between two actions only, in one step and to any state with songs that are accepted.
- Sources: the receiver takes no part in the MPD queue (ALSA mode), and the Songcast and script sources are left out.
- Radio: reading the channel list, the metadata scripts and the timed polling; what they yield is a parameter of the actions.
- Netcon: read errors, timeouts and cancelling; a read returns any non-empty part of what is left, or the end of file.
- MetaCache: write and rename errors other than a file cut short; istream::getline() is a function here.
- Tokens.StringsRoundTripIff: for the default of no extra separators, which the printing side does not know.
- PathUtil: the current directory is a parameter; Windows branches.
- PicoXml: the Expat-compatible handlers, error messages and positions in them.
- Also sockets, UPnP and SOAP glue, logging, volume, number formatting, the Qt editor, and natural sorting, which has no total order.

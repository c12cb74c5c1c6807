# Storage sources, grants, archives and the machines beside them

A model in Dafny of the parts of the notes application where text can be lost, names can
collide, or a protocol can be interleaved, with proofs of what it promises about them.

- **The life of a storage source on a device** (`Library`, `MoveNotes`, `MoveSpellings`,
  `MoveClash`, `MoveForetold`, `MoveFiles`, `MoveRows`, `MoveKeeps`, `MoveQueue`,
  `MoveOutcomes`, `PlainMoves`, `Unsynced`, `QueueOrder`, `Sources`, `SourceRuns`,
  `SourcesKept`, `SourceClashes`, `SourceQueues`, `FilesKept`, `Binds`, `BindQueues`,
  `UnsentMoves`, `Imports`, `ImportRuns`, `SourceEnds`, and the transactions as they are
  carried out in `Transactions` and `SourceStore`). Tables are maps keyed by source and id, the queue is a
  sequence, and every operation is one step over them. What the program leaves to chance
  or to a clock (the order rows are read in, new ids, the moment) is a plan handed to the
  step; the methods of `SourceStore` show there always is one.
- **A notebook moved or renamed** (`FolderMoves`, `FolderLandings`, `FolderQueue`,
  `FolderOutcomes`, `FolderStore`, `FolderTurns`).
- **The grant protocol** (`Grants`, `GrantRuns`): two tables with their unique indexes and
  foreign key, and every interleaving of callbacks, revokes and disconnects.
- **The archive writer and reader** (`Apart`, `EntryNames`, `Crc32`, `Utf8`, `Zip`, `ZipWriter`,
  `ZipFields`, `ZipUnchanged`, `ZipReading`).
- **Paths and names** they all rest on (`Paths`, `Naming`, `NameShapes`).
- **Machines with timers and queues** (`SecretsLock`, `Turns`, `ObjectUrls`, `KeptAnswers`)
  and the **URL’s hash** (`UrlNames`, `Places`).

`dafny verify dfyconfig.toml` checks the whole project.

## Where the code and its documentation part

Each is shown by an input, and beside it stands what decides, for every input, whether the
promise is kept.

- `connection.ts:431` hands whole folded paths to `conflictPath`, which expects names, so a
  conflict copy avoids only names at the top of the source (`MoveClash.OnlyNamesAreAvoided`)
  and two live notes of a notebook can share a path (`MoveClash.ConflictCopiesCanClash`,
  and after a bind `SourceClashes.BindCanClash`). A move keeps paths apart exactly when the
  rows it finds say so (`MoveQueue.MoveKeepsPathsIff`, `MoveForetold.NotebookCopiesAreFreeIff`).
- A callback that reconnects a held grant re-creates a connection deleted since its hash
  read, with no grant on it (`GrantRuns.WindowMakesUnreachable`,
  `Grants.BatchReachableIff`); where another device has made the account a row under another
  id meanwhile, it is told of a connection that is nowhere (`GrantRuns.StoredElsewhere`,
  `GrantRuns.StoredIsThereIff`); and a new grant can be pruned by the batch that made it
  (`Grants.NewGrantIsPruned`, `Grants.StoredIsHeldIff`).
- With two sources importing, a finish of one and a cancel of the other lose the pile
  (`Imports.TwoImportsLoseThePile`); a pile note stamped with the millisecond of the bind is
  not taken for a late one (`Imports.SameMomentIsLost`); and binding an importing source
  again moves that moment, so that what was written in the pile before is lost at the
  finish (`Imports.RebindLosesLate`, `Imports.RebindThenFinishIff`). A finish keeps a text
  exactly where `Imports.FinishKeepsTextIff` says; with those three set aside, no text is
  lost by a run of the acts of `ImportRuns` but by the user’s own (`ImportRuns.ImportsKeepText`).
- A cancel is to be refused only where the user wrote in the source. An upload the bind
  itself queued for a file of the pile names no note and no notebook, and reads as such
  (`connection.ts:1330-1332`): where its row does not hold the app, a source just bound
  cannot be cancelled exactly where a file was copied into it
  (`SourceEnds.JustBoundIsWrittenIff`).
- `moveFolder` makes the folders above its destination by their exact paths, so a parent
  spelled otherwise gets a second row (`FolderMoves.SpellingsCanSplit`,
  `FolderMoves.NotebooksStayDistinctIff`).
- The reader drops a byte order mark a name begins with and refuses a file over 25 MB
  (`ZipUnchanged.MarkedIsNotUnchanged`, `ZipUnchanged.ReadsBackUnchangedIff`).
- An answer that is `undefined` is kept but never counts as asked again
  (`KeptAnswers.UndefinedIsNotRecent`, `KeptAnswers.RunIsRecentIff`). None of the cache’s
  present callers can answer it: they answer lists of lines (`visibleText.ts:44` and
  `:46`) and frozen objects (`frontmatter.ts:35`).

## Model

| member | source | states |
|---|---|---|
| SourceRuns.RunKeepsText | apps/web/src/store/connection.ts:287-1691 | Over any run of binds, resumes verified or cut loose, detaches, releases and moves of unsent work, a live note that is dirty or has no remote file is still there, unsent, with its text and times, at the key the run gives it, unless a release that was not refused was shown it as it stands |
| SourceRuns.RunKeepsApart | apps/web/src/store/connection.ts:287-1691 | Two unsent notes never end a run as one |
| SourceRuns.StepKeepsText | apps/web/src/store/connection.ts:287-1691 | The same for one step: bind, cut loose, detach, release, move of unsent work |
| SourceRuns.KeyStaysHome | apps/web/src/store/connection.ts:651-667 | A note is only ever in its own source, the source it was resumed or imported into, or the target the user named |
| SourceRuns.UnnamedIsUntouched | apps/web/src/store/connection.ts:287-1691 | The rows and the queue of a source a step does not name are exactly as they were |
| SourceRuns.RunLeavesAlone | apps/web/src/store/connection.ts:287-1691 | The same over a whole run |
| SourceRuns.DetachKeepsText | apps/web/src/store/connection.ts:1391-1425 | A detach keeps every unsent note as it stands, whatever an editor holds |
| SourceRuns.ReleaseKeepsText | apps/web/src/store/connection.ts:1497-1534 | A release discards no unsent note but one shown as it stands and held by no editor |
| SourceRuns.MovingKeepsText | apps/web/src/store/connection.ts:1597-1691 | A move of unsent work loses none: what was shown is under the target, the rest stays where it was |
| SourceRuns.CutKeepsText | apps/web/src/store/connection.ts:537-578 | A resume turned into a copy keeps every unsent note, unsent still |
| SourcesKept.RunKeepsSound | apps/web/src/store/connection.ts:287-1691 | Over any run every source keeps one notebook a directory and one file a name if it had, and one live note a path where no conflict copy of a resume would be at a path claimed |
| SourcesKept.StepKeepsSound | apps/web/src/store/connection.ts:287-1691 | The same for one step |
| SourceClashes.BindKeepsPathsIff | apps/web/src/store/connection.ts:762-856 | A bind of a device with one live note a path leaves one a path in every source exactly when, of the rows as each source resumed finds them, no conflict copy would be at a path claimed |
| SourceClashes.BindCanClash | apps/web/src/store/connection.ts:762-856 | A device, and a bind of it that ends with two live notes at one path |
| SourceClashes.BindNeverClashes | apps/web/src/store/connection.ts:427-435 | It does whenever no dirty note resumed into a notebook names a file that the target or another source resumed names as well |
| SourceClashes.RunKeepsPaths | apps/web/src/store/connection.ts:287-1691 | So every run whose binds are checked for that beforehand keeps one live note a path in every source |
| SourceQueues.RunKeepsQueues | apps/web/src/store/connection.ts:287-1691 | Over any run every op about a note or a file names one that is in its source |
| SourceQueues.StepKeepsQueues | apps/web/src/store/connection.ts:287-1691 | The same for one step |
| SourcesKept.DetachKeepsExactly | apps/web/src/store/connection.ts:1391-1425 | A detach keeps exactly the notes the remote is owed text, a name or a delete of, and those an editor holds |
| SourcesKept.ReleaseKeepsExactly | apps/web/src/store/connection.ts:1497-1534 | A release keeps exactly the owed notes not shown as they stand, and those an editor holds |
| SourcesKept.KeptNotesKeepNotebooks | apps/web/src/store/connection.ts:1023-1027 | A live note that is kept keeps the row of every notebook it is in |
| FilesKept.DetachKeepsFiles | apps/web/src/store/connection.ts:1042-1097 | A source is kept by a detach, marked, exactly where it has something unsent or held; then it keeps exactly the files never uploaded (or, unverified, with bytes here), those to be moved and those a note that stays links, as they were with their bytes, the notebooks above what stays, and every op about it; otherwise it is gone with everything of it |
| FilesKept.ReleaseKeepsFiles | apps/web/src/store/connection.ts:1497-1534 | The same of a release, of what was not shown as it stands, with what it answers |
| FilesKept.OthersAreLeft | apps/web/src/store/connection.ts:1391-1515 | A detach of a source that is gone, or that something was bound or moved before changes nothing; a release of one gone or live changes nothing either, and answers which it is |
| FilesKept.MovingKeepsFiles | apps/web/src/store/connection.ts:1597-1691 | The same of the source of a move of unsent work |
| FilesKept.NotebooksAreOwed | apps/web/src/store/unsynced.ts:134-210 | A notebook is unsent exactly where its directory is queued to be made, or it has none and no live note in it is on the remote as it stands here |
| Binds.BindLeavesOthers | apps/web/src/store/connection.ts:651-667 | A source that is live, of another provider or account, or any where the bind names no account, keeps its state, its rows and its queue through a bind |
| Binds.BindTakesHome | apps/web/src/store/connection.ts:762-797 | A detached source of exactly the provider and account bound is gone afterwards: its state, every row and every op |
| Binds.BindIsShown | apps/web/src/store/connection.ts:815-856 | The source bound is live, in front, of the account named or the one it had; it imports exactly where it was new to the device, or was importing already |
| Binds.UnverifiedIff | apps/web/src/store/connection.ts:815-843 | It is to be checked against its remote exactly where that was owed, or a row that came names something there, or it was detached and a row of its own does |
| Binds.BoundAgainIsOwed | apps/web/src/store/connection.ts:690-712 | A connection that comes back has queued a write of every note, a making of every notebook and an upload of every file that names nothing on the remote |
| BindQueues.BindQueuesOnly | apps/web/src/store/connection.ts:690-712 | And whatever a bind queues for its source that was not queued is about a row that came, or one of a source that comes back which its remote never had |
| SourceEnds.BindTakesPile | apps/web/src/store/connection.ts:798-814 | A bind takes every live note of the pile in, its write queued, unless another import holds the pile; the pile is then empty with nothing queued, but as it was where the source is new or the pile is held |
| SourceEnds.CutIsNew | apps/web/src/store/connection.ts:537-593 | A resume cut loose keeps every live note and every notebook, and each file it can send, naming nothing on the remote, with all of it and nothing else queued; a resume that stands is only marked as asked |
| SourceEnds.VerifyAnswers | apps/web/src/store/connection.ts:995-1007 | An answer is taken exactly where nothing was bound, moved or cancelled since it was asked for and the source is there |
| PlainMoves.HomeIsAsItWas | apps/web/src/store/connection.ts:323-519 | A detached source resumed into one with nothing, no two of its paths being spellings of one: the target has the very rows, under the very ids, with the files they serialize to pinned, and the queue is the queue it was, in its order, under the target’s name |
| PlainMoves.ResumeIsWhole | apps/web/src/store/connection.ts:323-519 | The same beside rows of the target’s that it does not meet, under the ids given; nothing is owed again but a note never sent with nothing queued, and a notebook that names nothing |
| PlainMoves.PlainMove | apps/web/src/store/connection.ts:323-449 | A move that meets nothing of the target’s, of either mode, leaves every note and file at the path it had and every notebook in its own spelling; a file copied stays out only where its bytes are not here |
| MoveOutcomes.NotesThatCome | apps/web/src/store/connection.ts:374-449 | The rows that come are those of the notes taken, but for tombstones that are copied and notes the target has and that are deleted or clean; each under an id of its own |
| MoveOutcomes.IdIsKept | apps/web/src/store/connection.ts:403-411 | A note that goes keeps its id exactly where the target has no row of that id nor of that file |
| MoveOutcomes.RowsThatCome | apps/web/src/store/connection.ts:412-449 | What every row that comes is, field for field, and when its write is owed: as it was where it was resumed at its path; a note of its own, never sent, where the target has the file; and otherwise its text, naming nothing |
| MoveOutcomes.NotebooksThatCome | apps/web/src/store/connection.ts:348-369 | A notebook that comes is one taken, in some spelling, with its date; it names what it did where a resume left its path as it was, and is to be made exactly where it names nothing |
| MoveOutcomes.FilesThatCome | apps/web/src/store/connection.ts:245-285 | A file that comes is one taken that the target has not; as it was with its bytes where a resume left it at its path, otherwise pending beside it with bytes current here |
| MoveOutcomes.CopyTakesOff | apps/web/src/store/connection.ts:486-509 | A copy queues nothing and takes off its source’s queue just what is about a note or a notebook listed |
| MoveQueue.FileIsPinned | apps/web/src/store/connection.ts:75-77 | A moved row’s file is the file it had, before the move changed anything; a conflict copy’s is the one it would be written as now |
| MoveQueue.CopiedIsOwed | apps/web/src/store/connection.ts:88-92 | A note copied arrives with no file and no version, dirty, live and owed |
| SourceQueues.ResumedQueueIsItsOwn | apps/web/src/store/connection.ts:470-509 | After a resume a note not owed anew has just the ops it had, under its new id, in the order they were made |
| SourceQueues.MoveKeepsQueues | apps/web/src/store/connection.ts:464-509 | A move leaves every queue naming rows that are there |
| MoveQueue.UnsentFollows | apps/web/src/store/connection.ts:323-449 | An unsent note is under the target with its text, or is one the move is not about and stays as it was |
| MoveQueue.NoteArrives | apps/web/src/store/connection.ts:412-449 | Every note that goes is under the target with its own text, times and tombstone, at a key nothing had; copied, it is dirty |
| MoveQueue.LandingsDiffer | apps/web/src/store/connection.ts:403-411 | No two notes land at one key |
| MoveQueue.MovedNotesAreSpelled | apps/web/src/store/connection.ts:152-161 | A moved note in a notebook the target has a row of is under the spelling of a row, and of the one row where no two are one directory |
| MoveQueue.MoveKeepsPathsIff | apps/web/src/store/connection.ts:374-449 | No two live notes of the target share a folded path after a move exactly when none did and, of the rows beforehand, no conflict copy would be at a path claimed by the target, by a note read before it, or by a copy before it; a copy never is |
| MoveQueue.CarriedOpsNameRows | apps/web/src/store/connection.ts:464-509 | After a resume each op of the target is one it had or one carried to a row that came with the move, never of a note that yielded or of a row owed anew |
| MoveQueue.NothingIsStranded | apps/web/src/store/connection.ts:436-443 | Every live note resumed has a remote file, something queued, or is owed |
| MoveQueue.QueuedFollows | apps/web/src/store/connection.ts:499-509 | What is queued for a note carried as it was is queued for it under its new id |
| MoveQueue.NothingIsLeftQueued | apps/web/src/store/connection.ts:479-498 | Nothing stays queued under a source that has gone whole |
| MoveKeeps.OthersAreUntouched | apps/web/src/store/connection.ts:287-322 | A move touches the rows and the queue of no source but the two it names |
| MoveKeeps.TargetStands | apps/web/src/store/connection.ts:323-449 | Every note, notebook, file and byte the target had is as it was |
| MoveKeeps.TargetIsWellFormed | apps/web/src/store/connection.ts:340-369 | The target’s paths stay well formed, and it has one notebook a directory and one file a name afterwards, each if it had |
| MoveNotes.FoldersArePlaced | apps/web/src/store/connection.ts:349-369 | Each notebook that leaves is under the target in one spelling; the target’s stand; what is new is owed or linked; no two are one directory that were not |
| MoveNotes.NotesLand | apps/web/src/store/connection.ts:403-449 | Every row that goes lands under a key of its own as it was carried; the target’s rows stand; what is owed is what was placed anew |
| MoveForetold.PathsStayDistinctForetold | apps/web/src/store/connection.ts:427-444 | The same for the notes of a move, told from its inputs: the rows leaving, the target’s, the twins, the order and the moment |
| MoveForetold.NotebookCopiesAreFreeIff | apps/web/src/store/connection.ts:427-435 | With every conflict copy in some notebook: the copies are free exactly when each, at the one place it would have, is at no path of the target, of a note read before it, or of a copy before it |
| MoveForetold.TopCopiesAreFree | apps/web/src/store/connection.ts:427-435 | Where every conflict copy wants the top of the source, or there is none, all are free |
| MoveNotes.PlaceNoteCarries | apps/web/src/store/connection.ts:412-444 | One note placed keeps its text, its times, its notebook and its being unsent |
| MoveNotes.SpelledAreDistinct | apps/web/src/store/connection.ts:152-161 | No two notebook rows are one directory exactly when the spelling table spells each as it is |
| MoveNotes.ShelveFolders | apps/web/src/store/connection.ts:348-369 | The loop over the notebooks, writing to the spellings as it goes, places them as the specification does |
| MoveSpellings.NotesAreSpelled | apps/web/src/store/connection.ts:152-161 | Every live note placed is in its notebook as the spelling table has it |
| MoveSpellings.OneSpellingANotebook | apps/web/src/store/connection.ts:146-161 | A note in its notebook as the table has it is under the spelling of a row, and of the one row where no two are one directory |
| MoveClash.OnlyNamesAreAvoided | apps/web/src/store/connection.ts:427-435 | Of the paths handed over as names a conflict copy avoids those without a separator, and no others |
| MoveClash.ClashesIff | apps/web/src/store/connection.ts:427-435 | So a conflict copy clashes exactly when the path beside its own, numbered apart from the names at the top alone, is taken |
| MoveClash.TopNeverClashes | apps/web/src/store/connection.ts:427-435 | At the top of a source a conflict copy never clashes |
| MoveClash.ConflictCopiesCanClash | apps/web/src/store/connection.ts:431 | A resume into distinct paths that leaves two live notes at one path |
| MoveFiles.FilesLand | apps/web/src/store/connection.ts:228-285 | Each file leaving is under the target as it was with its bytes, or pending with its bytes pinned and owed, or the target has it by id or by name and size, or nothing here could send it; no two files become one name |
| MoveFiles.FilePathIsFree | apps/web/src/store/connection.ts:250-256 | A file whose name is taken goes beside it under a name that is free |
| MoveFiles.PlaceFileKeeps | apps/web/src/store/connection.ts:245-277 | One file placed keeps all of that |
| Unsynced.QueueAllKeeps | apps/web/src/store/queue.ts:170-352 | Queueing what is owed withdraws only removals of notebooks of that source, adds only what is owed, and leaves something queued for everything that is |
| Unsynced.QueueAllIs | apps/web/src/store/queue.ts:170-352 | Of what was queued exactly the removals of a notebook to be made, or of one above it, are withdrawn; what is new is of a row owed that had nothing queued, at its path; nothing is queued twice that was not |
| UnsentMoves.MoveTakes | apps/web/src/store/connection.ts:1597-1691 | A move of unsent work takes exactly the notes shown as they stand that nobody holds, the files shown or linked by them whose bytes are here, and the notebooks shown or above those |
| UnsentMoves.MovedIsThere | apps/web/src/store/connection.ts:1597-1691 | All of that is in the target, as notes of its own with their writes queued, and no other note comes |
| UnsentMoves.MoveAnswers | apps/web/src/store/connection.ts:1597-1691 | What is answered, and why: gone, connected again, no target, not looked for, nothing shown that can go, held, kept, or let go of |
| Imports.AbandonUndoesBind | apps/web/src/store/connection.ts:1271-1288 | A first bind cancelled, whatever the import brought meanwhile: every other source, the pile and the queue are as before the bind, the source is gone, and what was in front is again |
| Imports.BindCopiesPile | apps/web/src/store/connection.ts:798-814 | A first bind copies every live note of the pile as itself, owed a write |
| Imports.FinishKeepsTextIff | apps/web/src/store/connection.ts:1134-1167 | A finished import leaves the pile empty and the source with exactly the text it held and that of the notes written since the bind |
| Imports.BindThenFinish | apps/web/src/store/connection.ts:1134-1167 | Bound, filled by the import and written in since, and finished: where the import has dropped no text the bind copied, every text of the pile is in the source |
| Imports.SameMomentIsLost | apps/web/src/store/connection.ts:1138-1141 | A new device bound, and a pile note written with the very millisecond of the bind: it is not late, and its text goes with the pile |
| Imports.RebindMovesNothing | apps/web/src/store/connection.ts:755-761 | A connection bound again while live moves no row and queues nothing |
| Imports.RebindThenFinishIff | apps/web/src/store/connection.ts:801-843 | An importing source bound again and, whatever came between, finished has exactly the text it then holds and that of the pile notes written since the second bind |
| Imports.RebindLosesLate | apps/web/src/store/connection.ts:801-843 | A pile note written between the two binds, whose text the finish leaves nowhere |
| ImportRuns.ActKeepsText | apps/web/src/store/connection.ts:762-1288 | With one source importing at a time: after any event, pull, send, save, finish or cancel, the text of every unsent note is unsent in a note there, or sent from the source that has it, unless it was released as shown, written over, or only in the source cancelled |
| ImportRuns.ActKeepsImporting | apps/web/src/store/connection.ts:801-814 | While a source imports, every live note of the pile is stamped since the bind, or a live note of the source has its text and times, unsent or sent |
| ImportRuns.FinishKeepsPile | apps/web/src/store/connection.ts:1134-1167 | A finish, after the pushes that come before it, leaves the text of every note of the pile in a live note of the source, unsent or sent |
| ImportRuns.ImportsKeepText | apps/web/src/store/connection.ts:762-1288 | Both over any run |
| Imports.TwoImportsLoseThePile | apps/web/src/store/connection.ts:801-814 | With two sources importing, finishing the later and cancelling the first leaves the pile’s text nowhere |
| SourceEnds.FinishTakesLate | apps/web/src/store/connection.ts:1134-1167 | A finish takes in each live pile note stamped since the bind, its write queued, with each file it links whose bytes are here, and no other note; every row of the source stands, every other source but the pile is as it was, and it imports no more |
| SourceEnds.AbandonIff | apps/web/src/store/connection.ts:1271-1335 | A cancel is refused, changing nothing, of a source not importing, and of one let go of that has a tombstone, a dirty note the pile has not, one with another text or path, or an op about what the pile has not; otherwise the source is gone and what was in front before is in front |
| SourceEnds.JustBoundIsWrittenIff | apps/web/src/store/connection.ts:1314-1335 | Right after a first bind that met nothing, with the app let go of and nobody having written, a cancel is refused exactly where the bind copied a file |
| SourceStore.SourceStore.MoveRows | apps/web/src/store/connection.ts:323-519 | The move carried out row by row leaves the tables as the specification says, for some choice of order, ids and time |
| SourceStore.SourceStore.BindConnection | apps/web/src/store/connection.ts:762-856 | The bind carried out leaves the device as the specification says |
| SourceStore.SourceStore.VerifyResumed | apps/web/src/store/connection.ts:995-1007 | An answer is written if no bind, move or cancel came between and the source is there, and is superseded otherwise |
| SourceStore.SourceStore.Keep | apps/web/src/store/connection.ts:1042-1097 | Everything not kept is removed, with the files and notebooks only it needed and the ops that name it |
| SourceStore.SourceStore.DetachConnection | apps/web/src/store/connection.ts:1391-1425 | The detach carried out, kept first and forgotten where nothing is unsent, leaves the device as the specification says |
| SourceStore.SourceStore.ReleaseConnection | apps/web/src/store/connection.ts:1497-1534 | The release and its answer |
| SourceStore.SourceStore.MoveUnsynced | apps/web/src/store/connection.ts:1597-1691 | The move of unsent work and its answer, refusals changing nothing |
| SourceStore.SourceStore.Finish | apps/web/src/store/connection.ts:1134-1167 | The end of an import |
| SourceStore.SourceStore.Abandon | apps/web/src/store/connection.ts:1271-1288 | The cancel of an import and its answer |
| Transactions.PlaceAll | apps/web/src/store/connection.ts:374-449 | The loop over the notes, with the set of paths taken kept beside the rows |
| Transactions.FileAll | apps/web/src/store/connection.ts:238-277 | The loop over the files, with what is at each path kept beside the rows |
| Transactions.CarryQueue | apps/web/src/store/connection.ts:486-509 | The queue, op by op |
| Transactions.ChooseNoteIds | apps/web/src/store/connection.ts:403-411 | Ids for the notes: the target’s row for one that yields, a fresh id where its own or its file is taken, and otherwise its own |
| Transactions.OutermostFirst | apps/web/src/store/connection.ts:348-350 | Notebooks by depth, outermost first |
| Transactions.QueueOwed | apps/web/src/store/connection.ts:586-593 | What is owed, notebook by notebook, each by the helper that dedupes it |
| QueueOrder.NotebooksAreMadeFirst | apps/web/src/store/queue.ts:470-526 | Nothing new is queued for a notebook or one inside it but behind the op that makes it |
| QueueOrder.FilesGoBeforeNotes | apps/web/src/store/queue.ts:470-526 | No new write of a note is queued but behind the uploads of the files owed beside it |
| QueueOrder.ANotebookAtATime | apps/web/src/store/queue.ts:470-526 | Between two things of a notebook, or of those inside it, nothing of any other is queued |
| QueueOrder.SortedIsStable | apps/web/src/store/queue.ts:500-526 | Things of one notebook and one kind keep the order they are given in |
| QueueOrder.InTurnByPath | apps/web/src/store/connection.ts:586-593 | So the files of a notebook go by path, and so do its notes |
| FolderMoves.NotesLandApart | apps/web/src/store/folders.ts:343-386 | A notebook moved: notes change nothing but their path, tombstones land exactly where their path leads, and a live note that moves shares its folded path with no note, live or deleted |
| FolderLandings.LandsFree | apps/web/src/store/folders.ts:367-386 | A live note lands in the folder its path leads to, at a path that is no tombstone’s, no other note’s outside and none landed before it |
| FolderLandings.LandsWhereWantedIff | apps/web/src/store/folders.ts:367-386 | It lands exactly at its path under the destination exactly when nothing settled before it is there, as names are compared |
| FolderLandings.AllLandWhereWanted | apps/web/src/store/folders.ts:343-386 | Where no note outside and no tombstone that moved is in the way of a live one, and no two of those are one file, every live note lands at exactly its path under the destination |
| FolderOutcomes.RefusedIff | apps/web/src/store/folders.ts:229-293 | A move is refused exactly where the top is moved or moved onto, a notebook is moved into itself, or something is moved to what another notebook or file is at or in |
| FolderOutcomes.NotebookRowsAfter | apps/web/src/store/folders.ts:295-316 | A notebook carried along has its date and no directory; one outside is the row it was; one made is new |
| FolderOutcomes.FileRowsAfter | apps/web/src/store/folders.ts:388-394 | A file inside keeps all but its folder; the others and all bytes are as they were |
| FolderMoves.PathsStayDistinct | apps/web/src/store/folders.ts:343-386 | No two live notes are at one path afterwards exactly when none outside were |
| FolderMoves.FilesStayDistinct | apps/web/src/store/folders.ts:388-392 | Files go under the names they have and no two become one |
| FolderMoves.NotebooksStayDistinctIff | apps/web/src/store/folders.ts:295-316 | After a move not refused no two notebooks are one directory exactly when the folders above the destination are spelled as the notebooks there are |
| FolderMoves.SpellingsCanSplit | apps/web/src/store/folders.ts:295-306 | A move under a parent spelled otherwise gives one directory two rows |
| FolderMoves.NothingIsLeft | apps/web/src/store/folders.ts:229-403 | Between two folders neither of which holds the other, nothing is left where the notebook was |
| FolderMoves.NotebooksAfter | apps/web/src/store/folders.ts:304-316 | The notebooks afterwards are those outside, those above the destination, the destination, and each that moved |
| FolderStore.Notebooks.MoveFolder | apps/web/src/store/folders.ts:229-447 | The move carried out, rows and queue: a refusal and a move of nothing change nothing |
| FolderOutcomes.OpsElsewhereStand | apps/web/src/store/folders.ts:388-446 | Every op of another source, and every write and removal of a note or file, stands |
| FolderOutcomes.DirectoryOpsAre | apps/web/src/store/folders.ts:306-446 | Which makings and removals of notebooks stand, and which are new: one for each made, one for each directory left that the remote has |
| FolderOutcomes.UploadsAre | apps/web/src/store/queue.ts:374-381 | The uploads queued are those there were, each at the path its file has now |
| FolderQueue.RenameKeepsOrigin | apps/web/src/store/queue.ts:190-212 | A note or file renamed before it is sent has at most one move queued, to where it is, from where the remote has it |
| FolderQueue.MovesAreQueued | apps/web/src/store/folders.ts:388-404 | So has every note and every file of a notebook that moved, and no other moves change |
| FolderQueue.UploadsFollow | apps/web/src/store/queue.ts:374-381 | A file not on the remote yet is uploaded at the path it has |
| FolderQueue.NotebooksAreMadeIff | apps/web/src/store/folders.ts:306-325 | A notebook at the destination is queued to be made exactly when it is not inside what was left, and nothing inside that is |
| FolderQueue.DirectoriesGoLast | apps/web/src/store/folders.ts:411-446 | Every directory left that the remote has is queued to be removed, with nothing but removals behind a new removal |
| FolderTurns.NotesGoOut | apps/web/src/store/folders.ts:396-404 | From the rows alone: every note inside that the remote has is renamed once, from where the remote has it to where it landed; the renames of every other stand |
| FolderTurns.FilesGoOut | apps/web/src/store/folders.ts:388-394 | And every file inside; one the remote has not is uploaded at its path under the destination |
| FolderTurns.NotebooksGoOut | apps/web/src/store/folders.ts:295-446 | Exactly the notebooks there was no row for at the destination and those carried there are to be made, outside what was left, and exactly the linked directories left are to be removed |
| FolderTurns.NotebooksGoOutermostFirst | apps/web/src/store/folders.ts:313-320 | What is newly to be made, and what is newly to be removed, stands in the queue outermost first |
| GrantRuns.RunKeepsInv | apps/api/src/db/connections.ts:52-61 | For every interleaving of callbacks, revokes and disconnects: one row per account and per hash, grants linked to rows that are there, and no more than twenty attached to any |
| GrantRuns.HashIsBoundOnce | apps/api/src/db/connections.ts:82-193 | A hash is bound once: its grant keeps its connection until that becomes null, and then stays null |
| GrantRuns.EveryConnectionIsReachable | apps/api/src/db/connections.ts:94-160 | While no connection is deleted between a reconnect’s hash read and its batch, every connection row has an attached grant after every step |
| GrantRuns.WindowMakesUnreachable | apps/api/src/db/connections.ts:154-158 | A run in which one is, and the batch answers a connection with no grant |
| GrantRuns.StoredIsThereIff | apps/api/src/db/connections.ts:110-160 | A callback told its connection is stored finds it there exactly when the account had no row as its batch ran, or the row the callback read |
| GrantRuns.StoredElsewhere | apps/api/src/db/connections.ts:110-160 | A run in which another device makes the account a row under another id meanwhile, and the callback is told of one that is nowhere |
| GrantRuns.StoredOrUntouched | apps/api/src/db/connections.ts:76-80 | An attempt that fails or is claimed changes neither table |
| GrantRuns.AttemptIsStoredIff | apps/api/src/db/connections.ts:52-160 | An attempt nothing comes between is turned away exactly when the hash is spent or another account’s, and tried once more; otherwise it is stored on the account’s own connection, which is there |
| GrantRuns.LoserAttachesToWinner | apps/api/src/db/connections.ts:52-61 | Of two callbacks for a new account the loser’s retry attaches to the row that won |
| Grants.BatchKeeps | apps/api/src/db/connections.ts:117-193 | A batch keeps the constraints and the cap, and touches no other connection’s grants |
| Grants.BatchWritesRows | apps/api/src/db/connections.ts:117-160 | After a callback the account’s row has the name, the sealed token and the time of that callback, and the id, account and date it had or that moment’s; every other row is as it was |
| Grants.BatchWritesGrants | apps/api/src/db/connections.ts:140-193 | A new grant has the hash, device and times of the callback, a held one its device and time, on the connection answered; of the others some may be taken off it and none changes otherwise |
| Grants.BatchFailsIff | apps/api/src/db/connections.ts:117-160 | A batch is rolled back exactly when it would break a constraint: an id taken, a hash known, or an account another id is now the row of |
| Grants.RevokeWrites | apps/api/src/db/connections.ts:220-258 | A revoke takes the grant off and, where it was the last live one, every other grant off the row it deletes; nothing else changes |
| Grants.BatchKeepsNewest | apps/api/src/db/connections.ts:160-185 | What a batch prunes is older, by last use and then id, than everything it leaves |
| Grants.BatchReachableIff | apps/api/src/db/connections.ts:117-160 | A batch leaves every connection reachable exactly when it does not re-create a row for a grant that was held |
| Grants.StoredIsHeldIff | apps/api/src/db/connections.ts:110-193 | The grant answered is attached afterwards exactly when it was attached or is new, and fewer than twenty outrank it |
| Grants.NewGrantIsPruned | apps/api/src/db/connections.ts:160-185 | An account on twenty devices used in the same moment, and a twenty-first whose grant the batch prunes as it answers |
| Grants.BatchIsThereIff | apps/api/src/db/connections.ts:110-160 | The connection a batch answers has a row afterwards exactly when it had one or the account had none |
| Grants.RevokeDeletesIff | apps/api/src/db/connections.ts:220-258 | A revoke deletes the connection exactly when no other grant of it is live |
| Grants.RevokeKeepsReach | apps/api/src/db/connections.ts:220-258 | A revoke keeps the cap and leaves every connection reachable |
| Grants.NewestCount | apps/api/src/credentials.ts:48 | As many grants are kept as there are, up to the limit |
| Grants.NewestAreNewer | apps/api/src/db/connections.ts:160-185 | Every grant kept outranks every one that is not |
| Grants.SelectNewest | apps/api/src/db/connections.ts:160-185 | Selecting the newest one at a time |
| Grants.Database.Store | apps/api/src/db/connections.ts:82-193 | The batch, all of it or none |
| Grants.Database.RevokeGrant | apps/api/src/db/connections.ts:220-258 | The revoke, and whether the connection went |
| Grants.Database.GrantHolder | apps/api/src/credentials.ts:106-189 | A bearer is known exactly when a live grant of the hash is attached to a connection that is there; its last use is touched once a day at most |
| Apart.NamesAreApart | apps/web/src/store/exportNotes.ts:242-298 | Every entry has a folded name of its own, no file bears the name of a folder any entry implies, and each file keeps its folder |
| Apart.PlacedOneIsFree | apps/web/src/store/exportNotes.ts:258-283 | A contested file gets the least free number from two up |
| Apart.StartingLater | apps/web/src/store/exportNotes.ts:256-283 | Starting from the number last reached does not change the number found |
| Apart.EntryNameIsSafe | apps/web/src/store/exportNotes.ts:199-205 | An entry name is relative, with no empty, dot or backslashed part |
| Apart.EmptyFoldersKept | apps/web/src/store/exportNotes.ts:287-298 | Every folder handed over is implied by a file, or written, or is one that is |
| Apart.EmptyFoldersApart | apps/web/src/store/exportNotes.ts:287-298 | No two folders written are one, and none is implied by a file |
| EntryNames.NameIs | apps/web/src/store/exportNotes.ts:242-278 | A file keeps its name exactly where no folder of the archive and no file before it has that name, and otherwise gets the least number from two at which that is so |
| EntryNames.NumberedIs | apps/web/src/store/exportNotes.ts:208-214 | A numbered name has the number in brackets behind its stem and keeps its extension and its folder |
| EntryNames.EntryNameIs | apps/web/src/store/exportNotes.ts:199-205 | An entry is named as its path is normalized, with an underscore for each backslash and nothing else changed; the stand-in is for the root alone |
| EntryNames.FoldersAre | apps/web/src/store/exportNotes.ts:287-298 | The notebooks written are given, are not the top, have no file in them and are not one another; every one given is a folder of the archive |
| Apart.MakeApart | apps/web/src/store/exportNotes.ts:242-285 | The naming pass carried out with its mutable sets names entries as the specification does |
| Apart.PlaceFiles | apps/web/src/store/exportNotes.ts:256-283 | The loop over the files, with the numbers reached |
| Crc32.CrcIsSerial | apps/web/src/store/exportNotes.ts:135-146 | The table-driven checksum is the bit-serial reflected CRC with polynomial 0xEDB88320, section 4.4.7 of PKWARE APPNOTE |
| Crc32.OneByteChangesCrc | apps/web/src/store/exportNotes.ts:143-146 | Bytes that differ in one byte differ in their checksum |
| Crc32.CheckValue | apps/web/src/store/exportNotes.ts:143-146 | The checksum of the digits 1 to 9 is 0xCBF43926 |
| Zip.ReadsWhatIsLaidOut | apps/web/src/store/readZip.ts:277-300 | The reader, from the end record through the directory to each local header, recovers the entries laid out by sections 4.3.7, 4.3.12 and 4.3.16 of PKWARE APPNOTE |
| Zip.OneByteOfDamage | apps/web/src/store/readZip.ts:237-275 | One changed byte of one file is refused as damage and leaves every other entry as it was |
| Zip.FindEndRecord | apps/web/src/store/readZip.ts:83-100 | The last end record whose comment ends the archive |
| Zip.ReadArchive | apps/web/src/store/readZip.ts:277-300 | The reader carried out |
| ZipWriter.ArchiveReadsBack | apps/web/src/store/exportNotes.ts:376-427 | Whatever the writer writes, the reader reads back: every entry in order with its name and contents |
| ZipFields.FileIsSaid | apps/web/src/store/exportNotes.ts:313-427 | Every file written, in order: both its headers carry version 2.0, the mark of UTF-8 names, no method, its date to the even second or the first of 1980, checksum, sizes and name, and its bytes follow; its record says no disk, no folder, and where its header is |
| ZipFields.FolderIsSaid | apps/web/src/store/exportNotes.ts:313-427 | Every notebook written: the same of an empty entry under its name and a slash, marked as a folder |
| ZipFields.FolderWasGiven | apps/web/src/store/exportNotes.ts:287-298 | A notebook written was given, and its date is that of the first given under its name |
| ZipFields.EndSays | apps/web/src/store/exportNotes.ts:395-427 | The end record says one disk, as many entries as there are, and where the directory is and how long |
| ZipFields.WrittenIff | apps/web/src/store/exportNotes.ts:313-427 | An archive is written exactly within 65,534 entries, names of 65,535 bytes and 4 GB in all, and refused for the first of those it is not |
| ZipReading.ReadIsChecked | apps/web/src/store/readZip.ts:83-300 | Of any bytes at all that are read: the last end record that ends them is one disk’s, its directory has as many records as it says from where it says, and each is read just as its fields say, or given the first reason it is not |
| ZipReading.FilesAreWhole | apps/web/src/store/readZip.ts:237-300 | So every file read has the size and the checksum its record says and is no larger than a file may be |
| ZipReading.RefusalsAre | apps/web/src/store/readZip.ts:119-180 | What is refused, and as what: no end record, another disk named, all ones, or a record that is none |
| ZipUnchanged.ReadsBackUnchangedIff | apps/web/src/store/exportNotes.ts:376-427 | The reader’s answer to a written archive is every notebook and file under its own name with its bytes exactly when each file is at most 25 MB and no name given begins with a byte order mark |
| ZipUnchanged.MarkedIsNotUnchanged | apps/web/src/store/readZip.ts:105-112 | An archive of one note whose name begins with a byte order mark, read back under another name |
| ZipWriter.FieldsAreWritten | apps/web/src/store/exportNotes.ts:313-358 | No 16- or 32-bit field of an archive written has wrapped or reached its ZIP64 value |
| ZipWriter.ZipParts | apps/web/src/store/exportNotes.ts:376-427 | The writer carried out, with its running offset, lays out the archive or refuses |
| ZipWriter.StampReadsBack | apps/web/src/store/exportNotes.ts:153-163 | An MS-DOS stamp reads back to the even second between 1980 and 2107, and to the start of 1980 otherwise |
| ZipWriter.Joined | apps/web/src/store/exportNotes.ts:165-176 | Parts copied one behind another into one buffer |
| Utf8.DecodeOfEncoded | apps/web/src/store/readZip.ts:105-112 | A name reads back as it was but for a byte order mark it begins with |
| Paths.ShortcutAgrees | packages/core/src/paths.ts:21-39 | The pattern for paths already normal agrees with splitting, filtering and resolving, on every string |
| Paths.MatchIffSegments | packages/core/src/paths.ts:21 | The pattern matches exactly the strings all of whose parts are proper segments |
| Paths.SegmentsInTurn | packages/core/src/paths.ts:28-50 | What any path names, part by part: an empty part or a dot adds nothing, two dots take one segment off where there is one, anything else is a segment; and it is spelled as those joined |
| Paths.NormalizeIdempotent | packages/core/src/paths.ts:28-39 | Normalizing twice is normalizing once |
| Paths.WithinIsPrefix | packages/core/src/paths.ts:91-96 | A path is within a folder exactly when the folder’s segments begin its own |
| Paths.RebaseUndone | packages/core/src/paths.ts:103-107 | Moving a subtree and moving it back is the identity |
| Paths.RebaseKeepsWithin | packages/core/src/paths.ts:91-107 | Rebasing keeps which of two paths holds the other |
| Paths.RebaseInjective | packages/core/src/paths.ts:103-107 | Rebasing tells apart what was apart |
| Paths.AncestorsArePrefixes | packages/core/src/paths.ts:57-60 | The ancestors are the proper prefixes, outermost first |
| Paths.AncestorsAreEnclosing | packages/core/src/paths.ts:57-60 | They are exactly the folders, other than the root and itself, a path is within |
| Naming.FreePathIsFree | apps/web/src/store/naming.ts:73-92 | A free path is no path taken, in the folder wanted, and the one wanted where that is free |
| NameShapes.FreePathIs | apps/web/src/store/naming.ts:73-92 | A path that is taken gives way to its name’s slug beside it with the least number, from one, at which no path taken is that file |
| Naming.UniqueFilenameIsFree | packages/core/src/names/slug.ts:138-151 | The filename made is no name taken, and one proper segment |
| NameShapes.UniqueIsLeast | packages/core/src/names/slug.ts:138-151 | That filename is the slug with the least number, from one, that no name taken has |
| NameShapes.SlugIsSafe | packages/core/src/names/slug.ts:81-101 | A slug has no character a provider refuses, is in lowercase with single hyphens between its words, fits 120 characters and 216 bytes, and is no device’s name |
| NameShapes.SlugIsWords | packages/core/src/names/slug.ts:81-101 | It is the words of the title in lowercase with a hyphen between each, where those fit, and the longest of that that fits otherwise |
| NameShapes.SlugIsItsOwn | packages/core/src/names/slug.ts:81-101 | A slug is its own slug |
| NameShapes.CutIsLongest | packages/core/src/names/bytes.ts:67-98 | A cut is within both caps and one character more is not |
| NameShapes.ConflictNameIs | packages/core/src/names/conflicts.ts:37-66 | A conflict name is the stem, the moment, the least number free and the extension, in 255 bytes, with no more of the stem cut than that takes |
| NameShapes.ExtensionIs | packages/core/src/names/extension.ts:16-19 | An extension is the last dot with up to sixteen plain characters behind it and something before it |
| Naming.ConflictPathBeside | packages/core/src/names/conflicts.ts:120-121 | A conflict copy is beside its path under none of the names given |
| Naming.ConflictFilePathBeside | packages/core/src/names/conflicts.ts:124-125 | A file’s conflict copy is beside it at a path none of the paths given is |
| NameShapes.NoteCopyIs | packages/core/src/names/conflicts.ts:120-121 | A note’s conflict copy has the conflict name of its stem, ends in `.md`, and is in the folder the note is in |
| NameShapes.FileCopyIs | packages/core/src/names/conflicts.ts:124-125 | A file’s has that of what is before its extension, and keeps that |
| Naming.ConflictNameIsFree | packages/core/src/names/conflicts.ts:40-66 | A conflict name is none of the names taken |
| Naming.RespellIsFaithful | apps/web/src/store/naming.ts:101-107 | A respelled path folds to the path, takes the spelling known, and is known from then on |
| Naming.SpellingTable.Spell | apps/web/src/store/naming.ts:101-107 | The recursion that writes its spellings as it goes |
| Naming.SameFoldByParts | apps/web/src/store/naming.ts:43 | Two paths are one file exactly when their folders are one and their names are |
| SecretsLock.LockIsKept | apps/web/src/secrets/lock.ts:92-172 | In every run: while keys are held and no prompt is open the page has not been idle too long; a hidden page with no prompt holds none; it is listened to exactly while some are held |
| SecretsLock.IdlePageLocks | apps/web/src/secrets/lock.ts:115-129 | Left alone past the idle time with no prompt open, a tab holds nothing |
| SecretsLock.HeldIff | apps/web/src/secrets/lock.ts:92-172 | A source is held after an event exactly when it was or was just unlocked and nothing locked it: not the user, a page hidden without a prompt, or a timer past the idle time |
| SecretsLock.ActivityIs | apps/web/src/secrets/lock.ts:107-172 | What counts as something done: a key or a pointer while anything is held, an unlock, and a prompt that closes |
| SecretsLock.StaysHeldInUse | apps/web/src/secrets/lock.ts:92-172 | So a source unlocked stays so over any run in which it is not locked, the page is seen or prompts, and it is not left idle |
| SecretsLock.StepKeeps | apps/web/src/secrets/lock.ts:92-172 | Every event keeps the bound on the timer and on the last activity |
| SecretsLock.Tab.HoldKeys | apps/web/src/secrets/lock.ts:148-160 | Keys replaced are zeroed but for what their replacement shares, and no other keys held are touched; held in a hidden page they are zeroed at once |
| SecretsLock.Tab.LetGo | apps/web/src/secrets/lock.ts:92-104 | Keys let go of are zeroed and nothing else is |
| SecretsLock.Tab.TimerFired | apps/web/src/secrets/lock.ts:115-124 | The timer: everything locked and zeroed, or every key as it was and looked at again |
| SecretsLock.Wipe | apps/web/src/secrets/lock.ts:65-69 | Every identity but those kept is filled with zeros |
| Turns.OneAtATime | apps/web/src/pictures/copies.ts:29-73 | In every run at most one piece of work is under way, in the order asked for; a key has one entry not over; its count is that of those still waiting; whoever still waits is answered by the work |
| Turns.AskedJoinsIff | apps/web/src/pictures/copies.ts:56-72 | Asking joins the work for that key that waits or is under way, and otherwise queues it behind everything; an asker already gone does neither |
| Turns.StartedIffWanted | apps/web/src/pictures/copies.ts:39-46 | At its turn work is started exactly when somebody still waits for it |
| Turns.ResultsStand | apps/web/src/pictures/copies.ts:56-72 | What work came to stands, and no asker is moved to other work |
| Turns.Queue.AskFor | apps/web/src/pictures/copies.ts:56-61 | Asked for again while waiting or under way, work is joined |
| Turns.Queue.NextTurn | apps/web/src/pictures/copies.ts:36-54 | A turn taken, and whether work is started |
| ObjectUrls.UrlsOutliveTheirHolds | apps/web/src/lib/objectUrls.ts:62-114 | In every run a URL counts its unreleased holds, is not revoked while held, and is revoked at most once, a full grace after the last hold on it went |
| ObjectUrls.RevokedOnTime | apps/web/src/lib/objectUrls.ts:62-114 | A URL is revoked exactly a grace after its last hold went, and one nothing holds has that revoke still to come |
| ObjectUrls.ReleasedOnce | apps/web/src/lib/objectUrls.ts:93-103 | Letting go twice changes nothing |
| ObjectUrls.ReusedInsideTheGrace | apps/web/src/lib/objectUrls.ts:85-113 | Asked for inside the grace, a URL is the one that was made, its revoke called off |
| ObjectUrls.UrlCache.AcquireUrl | apps/web/src/lib/objectUrls.ts:107-108 | A hold on the URL of a key, made if there is none |
| ObjectUrls.UrlCache.ReleaseUrl | apps/web/src/lib/objectUrls.ts:93-103 | A hold let go, and the revoke it leaves pending |
| KeptAnswers.RunIsBounded | apps/web/src/store/kept.ts:41-62 | Over any run with a bound that only grows no more is kept than it, and every answer is the one made |
| KeptAnswers.RecentIff | apps/web/src/store/kept.ts:41-62 | A call leaves what is kept the most recently asked, in order, exactly when its key is not kept as undefined with others behind it |
| KeptAnswers.RunIsRecentIff | apps/web/src/store/kept.ts:41-62 | Over any run with a bound that only grows it is so after every call exactly when no call is of such a key |
| KeptAnswers.LeastRecentGoes | apps/web/src/store/kept.ts:32-40 | Where no answer of the calls is undefined it is always so: the least recently asked is the one to go |
| KeptAnswers.RecencyIsByLastAsked | apps/web/src/store/kept.ts:32-35 | That order is every key asked for, once, by when it was last asked |
| KeptAnswers.AskedIsStillKept | apps/web/src/store/kept.ts:1-8 | A key asked for is answered from what is kept while fewer other keys than there is room for are asked after it |
| KeptAnswers.RedrawMakesNothing | apps/web/src/store/kept.ts:1-8 | So a list no longer than the room there is makes nothing when it is drawn again |
| KeptAnswers.UndefinedIsNotRecent | apps/web/src/store/kept.ts:44-50 | A key answered undefined that is asked again and is the next to go |
| KeptAnswers.RoomGrows | apps/web/src/store/kept.ts:24-30 | A list counts as long as it has been; room never shrinks, and is a quarter more than the rows shown and no more but to the floor |
| KeptAnswers.Answers.Ask | apps/web/src/store/kept.ts:42-61 | The cache carried out |
| UrlNames.SlugIsItsOwn | apps/web/src/routes/place.ts:79-86 | A slug is its own slug, and is empty only for an empty name |
| UrlNames.SlugIsWords | apps/web/src/routes/place.ts:79-86 | It is the words of the name in lowercase with a hyphen between each |
| UrlNames.EncodedAs | apps/web/src/routes/place.ts:95-100 | A letter or digit of ASCII and nine marks are escaped as themselves, and anything else as its bytes in UTF-8, each a percent sign and two digits |
| UrlNames.DecodeUndoesEncode | apps/web/src/routes/place.ts:95-100 | What is escaped for a hash is read back as it was |
| Places.ReadUndoesNote | apps/web/src/routes/place.ts:147-195 | The hash of a note’s place reads back as the slugs of its notebook and of its filename |
| Places.ReadUndoesNotebook | apps/web/src/routes/place.ts:147-195 | The hash of a notebook’s place reads back as its slugs |
| Places.LinkOpensNote | apps/web/src/routes/place.ts:209-233 | A link opens a note of those slugs, the first by path, and the note itself where no other has them |
| Places.LinkOpensNotebook | apps/web/src/routes/place.ts:209-240 | A link to a notebook opens the first by path of those of its slugs, and itself where no other has them; a link to the top opens the top |
| Places.TypedReadsTheSame | apps/web/src/routes/place.ts:169-195 | A hash somebody typed, names unslugged, reads as the one the app would write |
| Places.NamesNothing | apps/web/src/routes/place.ts:187-191 | An address with a name that is hidden or empty names nothing |
| Places.MissingLeavesNotebook | apps/web/src/routes/place.ts:222-240 | Where no note has the name, the notebook named is opened if there is one, and nothing if there is none |
| Places.StemDropsExtension | apps/web/src/routes/place.ts:89 | The extension comes off a name however it is spelled, and nothing else does |
| Places.FoundIsFirst | apps/web/src/routes/place.ts:222-240 | Of what a hash names none comes before what is found |

## Left out

- Unicode: folding and lowercasing are ASCII’s and there is no normalization, so a fold keeps a string’s length; letters past ASCII count as letters in slugs; strings are sequences of scalar values, with no lone surrogates; a filename is cut by characters, not by grapheme clusters.
- UrlNames.SlugIsItsOwn: the letter, mark and digit classes past ASCII are one class.
- Places.LinkOpensNote: paths are ordered by scalar value where the program orders them by UTF-16 code unit; the scratchpad’s and the passwords’ own hashes are read back (`Places.ReadUndoesAppPlace`) but not looked up.
- FolderStore.Notebooks.MoveFolder: which notebooks are open in the sidebar, and which are pinned, do not move with it.
- Unsynced.QueueAllKeeps: attempts, timestamps and `copyOf` of an op are not modelled.
- `createFolder`, `ensureFolder` by itself and `deleteFolder`: removals and insertions whose properties follow from their one check.
- FolderMoves.NothingIsLeft: for folders neither of which holds the other; a notebook moved into a folder above its own is outside it.
- Paths.RebaseUndone: not from the root, which every caller excludes.
- SourceRuns.RunKeepsText: the text of notes; a file’s bytes are followed through each operation by itself (`MoveOutcomes.FilesThatCome`, `FilesKept.DetachKeepsFiles`, `SourceEnds.CutIsNew`) but not over a run.
- PlainMoves.ResumeIsWhole: of directories given as a set that holds every notebook and every folder a path is in, no two spellings of one.
- SourceClashes.BindKeepsPathsIff: with several detached sources resumed by one bind, the condition on a later one is of the rows the earlier resumes leave; `SourceClashes.BindNeverClashes` asks only of the rows before the bind.
- ImportRuns.ImportsKeepText: what a pull brings may be any rows that leave unsent text in its notes and, in a source as it imports, the pile’s text in the copies of it; where the sync engine puts an edit beside the remote’s, under another id, is not followed. The user does not save over a copy of the pile as it imports. A text sent is followed no further.
- MoveKeeps.OthersAreUntouched: every move is of sources whose paths are normal, whose notes have names and whose bytes have file rows (`MoveRows.WellFormed`), as every writer stores them; two notebook rows may be one directory.
- KeptAnswers.RunIsRecentIff: the condition is of the cache as each call finds it, with a `make` that always makes the same.
- `verifyResume`’s sampling and its reads of the remote: only what it writes once it has asked.
- `linkedFiles`, the markdown links of a note, is a parameter; so is what editors hold.
- Pictures, clips, keys, key files, credentials, preferences and the record of moved rows for open editors: they follow the rows they belong to.
- `syncedHash`, cursors, root ids, tokens, labels and client ids of notes and sources.
- Dexie, IndexedDB, D1 and their transactions: a transaction is one step, and a batch is all or none.
- OAuth, cookies, sealing of tokens, random ids and hashing: values, with new ids unused ones.
- Grants.Database.GrantHolder: the order in which concurrent touches land, since each is a write of one column.
- DEFLATE: the decompressor is a parameter of the reader, and the writer stores.
- Threads of promises: microtasks between a piece of work’s end and its `finally` are one step in `Turns`; timers fire when they are due in `SecretsLock` and `ObjectUrls`.
- SecretsLock.LockIsKept: the keys’ buffers are in the class `Tab`, not in the automaton; listeners other than the activity and visibility ones are left out.
- Provider adapters, the sync engine, the markdown pipeline, the interface and build plumbing.

# CorA core, modelled in Dafny

CorA is a web-based annotation editor for historical corpora. This project models its core:

- The database interface `DBInterface` (lib/connect.php). It covers:
  - the advisory locks on files and tagsets;
  - saving, copying and reading tagsets;
  - importing tag suggestions into a file and choosing each line's initial tag;
  - saving lines, error markers and the progress cursor;
  - opening and deleting files, and toggling a user's admin flag.
- The XML importer (lib/xmlHandler.php): the header options, the `ext_id` rule, range strings, layout numbering, shift tags, tokens with their diplomatic and modern transcriptions and tags, token numbering, and the defaults applied after parsing.
- Three parts of the browser client:
  - the flag handler that shows the error, lemma-verified and boundary flags of an editor row (src/gui/js/edit/FlagHandler.js);
  - the search-results tab (src/gui/js/edit/SearchResults.js);
  - the user settings (src/gui/js/settings.js).

Each database table is a field of the `DBInterface` class:
- Lock tables are maps from the locked entity to its lock row.
- Tagset relations are sequences of rows in table order.
- The other file tables are maps keyed by their primary key, except the error markers (`files_errors`), which are a sequence in which a line may appear more than once.

Every PHP method that writes is a Dafny method. Its `ensures` gives the new tables in terms of pure functions (`Locks.Acquire`, `TagsetStore.Exec`, `Documents.Seeded`, ...), and the lemmas beside those functions state what the operation achieves:
- a user holds at most one lock of a kind;
- a deleted tag leaves nothing behind;
- a modified tag's statements leave its links exactly the supplied list;
- other tagsets are untouched.

The three client modules keep the source's mutable objects as classes. These are the row whose flag elements change their classes, the search tab with its button state, and the settings store.

Modules:
- `Common` (common.dfy) holds an option type and order-preserving filtering.
- `Locks` (locks.dfy) holds the lock tables.
- `TagsetStore` (tagset_store.dfy) holds the tagset relations and the SQL statements saveTagset sends.
- `Documents` (documents.dfy) holds the file tables and the pure parts of the import and update logic.
- `Connect` (connect.dfy) holds the `DBInterface` class.
- `XmlLayout` (xml_layout.dfy) and `XmlImport` (xml_import.dfy) hold the XML importer.
- `FlagHandler` (flag_handler.dfy), `SearchResults` (search_results.dfy) and `Settings` (settings.dfy) hold the client modules.

Where the code and its documentation disagree, the model follows the code:
- openFile is documented as locking the file, but it only reads the metadata row and the progress cursor.
- updateData is documented as comparing each line's token to keep the alignment. The code compares nothing: it writes by line index.
- The initial tag is the first suggestion with the strictly greatest probability above 0. There is no preference for one source of suggestion over another.
- An annotation in processToken selects the first tag with its type and name. That tag may be a user tag added by an earlier annotation, and not only an automatic suggestion.
- Checking a column in the settings removes the first substring "v," of the hidden list, as the code does (see Findings). `ColumnToggled` stores exactly that; `ShowColumn` is the intended removal of the entry, and `ShowAsWrittenAgrees` states when the two coincide.

## Model

| member | source | states |
|---|---|---|
| Locks.DropHeldBy | lib/connect.php:727-730 | The preliminary `DELETE` removes exactly the user's locks and keeps every other row. |
| Locks.Acquire | lib/connect.php:726-741 | A lock is granted iff nobody else holds the entity. On success the user holds exactly that lock, taken now, and the count of released earlier locks is reported. On refusal the holder's row is reported and kept, and the user's earlier locks are gone anyway. Other owners' locks are untouched. |
| Locks.Release | lib/connect.php:768-775 | The entity's lock goes iff the user holds it or the session forces it; every other row is kept as it was. |
| Locks.AcquireKeepsOneLockPerOwner | lib/connect.php:726-741 | Acquiring keeps the invariant that every user holds at most one lock of a kind. |
| Locks.RelockSucceeds | lib/connect.php:726-741 | Re-locking an entity one holds succeeds and reports at least one released lock. |
| Locks.FirstLockReleasesNothing | lib/connect.php:726-741 | A user without locks gets the lock with a released count of 0, and the table gains exactly that row. |
| Locks.AcquireThenRelease | lib/connect.php:768-775 | Unlocking what one just locked removes the lock and leaves the user holding nothing. |
| Connect.DBInterface.LockFile | lib/connect.php:726-741 | lockFile changes the file-lock table and answers as `Acquire` does. |
| Connect.DBInterface.LockTagset | lib/connect.php:433-451 | lockTagset is `Acquire` on the tagset-lock table, answering success or the holder's row. |
| Connect.DBInterface.UnlockFile | lib/connect.php:768-775 | unlockFile is `Release`, forced for admin sessions. |
| Connect.DBInterface.UnlockTagset | lib/connect.php:462-466 | unlockTagset is `Release` for the user's own lock only. |
| Connect.DBInterface.GetLockedFiles | lib/connect.php:751-756 | None iff no file the user has locked has a metadata row; otherwise one such file with its name. |
| TagsetStore.FirstRejected | lib/connect.php:87-95 | The index of the first statement the database rejects: every earlier one is accepted. |
| TagsetStore.AbortAt | lib/connect.php:87-95 | Stopping at a rejected statement leaves the store as running the plan up to its first rejection. |
| Connect.DBInterface.CriticalQuery | lib/connect.php:87-95 | A rejected statement changes nothing and marks the run as stopped; an accepted one is applied. |
| Connect.DBInterface.RunCritical | lib/connect.php:87-95 | Sending statements until one is rejected: either all were applied, or the store is the plan's prefix before the first rejection. |
| TagsetStore.LinkInserts | lib/connect.php:302-306 | One link insert per supplied attribute id. |
| TagsetStore.ValueInserts | lib/connect.php:309-313 | One value insert per supplied value. |
| TagsetStore.LinkInsertsAppend | lib/connect.php:302-306 | Inserting a tag's links appends exactly the supplied ids to its links. |
| TagsetStore.ValueInsertsAppend | lib/connect.php:309-313 | Inserting an attribute's values appends exactly the supplied values to its values. |
| TagsetStore.ModifyHeadLinks | lib/connect.php:319-334 | The updates and the purge of a modified tag leave no link of that tag and change no other link. |
| TagsetStore.ModifyHeadValues | lib/connect.php:319-344 | The updates and the purge of a modified attribute leave no value of it and change no other value. |
| TagsetStore.ModifiedTagLinksReplaced | lib/connect.php:318-340 | After the statements saveTagset sends for one modified tag, its links are exactly the supplied list, whatever existed before. |
| TagsetStore.ModifiedAttribValuesReplaced | lib/connect.php:318-351 | After the statements saveTagset sends for one modified attribute, its values are exactly the supplied list. |
| TagsetStore.DeleteStmtsRemove | lib/connect.php:354-364 | Deleting an id removes its tag row, its description, its values and every link naming it at either end. |
| TagsetStore.ApplyDeletionKeepsAbsent | lib/connect.php:354-364 | A delete statement never brings back an entity that is absent. |
| TagsetStore.DeletedPlanRemoves | lib/connect.php:354-364 | Every id in the deleted list is absent after its deletes. |
| TagsetStore.SaveRemovesDeleted | lib/connect.php:283-373 | Every deleted id is absent after the whole save, whatever the created and modified lists held. |
| TagsetStore.ApplyKeepsOtherTagset | lib/connect.php:283-373 | A statement naming one tagset leaves every other tagset's rows unchanged. |
| TagsetStore.ExecKeepsOtherTagset | lib/connect.php:283-373 | So does any sequence of such statements. |
| TagsetStore.SavePlanScoped | lib/connect.php:283-373 | Every statement saveTagset sends names the tagset being saved. |
| TagsetStore.SaveKeepsOtherTagsets | lib/connect.php:283-373 | Any prefix of a save, whether complete or stopped, leaves every other tagset unchanged. |
| Connect.DBInterface.SaveTagset | lib/connect.php:283-373 | Takes the lock first; a refused lock writes nothing. Then it writes the created, modified and deleted entries: all of them with the modifier recorded, or everything up to the first rejected statement. The lock stays held. |
| TagsetStore.CopyRowsTarget | lib/connect.php:393-403 | The copy appends every row of the origin under the new name, after the rows the new name already had. |
| TagsetStore.CopyRowsKeepsOthers | lib/connect.php:393-403 | The copy changes no tagset other than the target, the origin included. |
| Connect.DBInterface.SaveCopyTagset | lib/connect.php:387-412 | Under the target's lock: copies every row of the origin, registers the target if new, and releases the lock. A refused lock changes only the lock table. |
| TagsetStore.Join | lib/connect.php:224-228 | The query rows are exactly the pairs of a tag row and a strings row of the tagset with the same id. |
| TagsetStore.LastJoined | lib/connect.php:229-239 | The row the first loop keeps for an id and type is a joined row of that id and type; there is none iff no such row exists. |
| Connect.DBInterface.ReadJoined | lib/connect.php:229-239 | The first loop holds an entry for exactly the ids with a joined tag row or attribute row, built from the last such row. Its order list holds each tag id once. |
| Connect.DBInterface.FetchLinks | lib/connect.php:243-248 | The links read for a tag are its link rows' attribute ids in table order. |
| Connect.DBInterface.AddLinks | lib/connect.php:242-249 | Every tag gets its links appended and keeps its other fields; no tag is added or lost. |
| Connect.DBInterface.AddValues | lib/connect.php:251-257 | Every attribute with values gets them appended; an attribute with values but no joined row gets an entry without names. |
| Connect.DBInterface.GetTagset | lib/connect.php:219-262 | The tags are exactly the ids with a joined tag row, each with its description, short name and links. The attributes are the ids with a joined attribute row or with values, each with its names and values. |
| Documents.Toggled | lib/connect.php:517-526 | 'y' becomes 'n' and anything else becomes 'y'. |
| Documents.ToggleTwice | lib/connect.php:517-526 | Toggling twice restores a 'y' or 'n' flag. |
| Connect.DBInterface.ToggleAdminStatus | lib/connect.php:517-526 | False iff the user has no row; otherwise only that user's flag flips. |
| Documents.Best | lib/connect.php:600-630 | The first position with the greatest probability, provided it is above 0. Every earlier probability is strictly smaller and no later one is greater; None iff none is above 0. |
| Documents.BestStep | lib/connect.php:623-630 | One step of the running maximum: the new suggestion wins exactly when its probability is strictly greater than the current choice's, or than 0 when there is none. |
| Documents.InitialSpec | lib/connect.php:600-630 | The initial tag and lemma come from the first suggestion of greatest probability above 0, or are both "" when no probability is above 0. |
| Documents.ImportLayer | lib/connect.php:604-614 | The import layer is the first of POS, morph and norm whose flag is set; there is none iff no flag is set. |
| Documents.SeededStep | lib/connect.php:616-622 | One suggestion insert: a free key gets the suggestion, an existing one is left alone. |
| Documents.SeededSpec | lib/connect.php:610-631 | After a line's inserts, every suggestion's key is present. A key that was free holds the suggestion, and no existing row changed. |
| Connect.DBInterface.SeedLine | lib/connect.php:610-631 | The inner loop of insertData inserts the line's suggestions and yields the initial tag and lemma. |
| Documents.InsertRowsSpec | lib/connect.php:599-647 | Line i becomes row i of the file. A free row holds the token and, on the import layer, the initial tag and lemma. Existing rows are unchanged. |
| Connect.DBInterface.InsertData | lib/connect.php:598-650 | insertData writes the suggestions only when some layer is tagged, and writes every line row; it always returns true. |
| Documents.UpsertedStep | lib/connect.php:676-678 | One upsert writes the tag and probability and keeps an existing row's lemma; a new row has no lemma. |
| Documents.UpsertedSpec | lib/connect.php:668-692 | After a line's upserts every suggestion holds its tag and probability, with the old lemma if it had one. Rows of other lines are unchanged. |
| Connect.DBInterface.UpsertLine | lib/connect.php:668-692 | The inner loop of updateData upserts the line's suggestions and yields the initial tag. |
| Documents.AnyDataStep | lib/connect.php:668-673 | Whether some line so far had a suggestion, extended by one line. |
| Documents.UpdateStep | lib/connect.php:663-702 | One line of updateData: the upserts, then the line's layer column set to the initial tag, once the column is known and the row exists. |
| Documents.TagRowsKeys | lib/connect.php:694-700 | The line updates create and delete no row. |
| Documents.TagRowsOthers | lib/connect.php:694-700 | Rows of other files, and lines beyond the input, are untouched. |
| Documents.TagRowsLine | lib/connect.php:694-700 | Row i gets line i's initial tag on the layer once some line up to i had suggestions; otherwise the update is malformed and changes nothing. |
| Documents.WithTagOnlyThatLayer | lib/connect.php:694-695 | The line update changes only that layer's column: token, lemma, comment and the other layers stay. |
| Connect.DBInterface.UpdateData | lib/connect.php:662-705 | updateData is the upserts of every line and the line updates; it always returns true. |
| Documents.ParseLayer | lib/connect.php:570-572 | The tag type names a layer iff it equals that layer's name, ignoring case. |
| Documents.WithLayer | lib/connect.php:576 | Marking a layer sets its flag and changes no other. |
| Connect.DBInterface.SaveAddData | lib/connect.php:568-583 | An unknown tag type changes nothing and returns false. Otherwise the file's metadata row, if any, is marked on that layer and updateData runs. |
| Connect.DBInterface.SaveLine | lib/connect.php:984-990 | An existing line takes the new lemma, tags and comment and keeps its token; a missing line is not created. |
| Connect.DBInterface.HighlightError | lib/connect.php:1004-1011 | One more marker row for the line. |
| Documents.Unmarked | lib/connect.php:1025-1029 | No marker of the line is left, and every other marker stays. |
| Connect.DBInterface.UnhighlightError | lib/connect.php:1025-1029 | unhighlightError removes the line's markers and keeps the others in order. |
| Documents.MarkAllTracksLastTwo | lib/connect.php:1045-1048 | After any non-empty series of saves, the cursor holds the last line and the one before it, or none after a single save. |
| Connect.DBInterface.MarkLastPosition | lib/connect.php:1045-1048 | The file's cursor moves to the line and remembers where it was. |
| Connect.DBInterface.OpenFile | lib/connect.php:787-804 | The metadata row and the cursor's line are each answered iff present, and nothing is written. |
| Connect.DBInterface.DeleteFile | lib/connect.php:814-832 | No row of the file is left in the metadata, suggestion, data, error and progress tables. Rows of other files keep their values. |
| XmlImport.MergeKeysSpec | lib/xmlHandler.php:27-35 | The caller's non-empty options win. A non-empty header value fills a listed key that is unset or empty. No other option changes. |
| XmlImport.MergeKeysIdempotent | lib/xmlHandler.php:27-35 | Taking over the header twice is taking it over once. |
| XmlImport.SetOptionsFromHeader | lib/xmlHandler.php:27-35 | The loop takes over the four header keys, in order, as the merge function does. |
| XmlImport.HeaderOptionsPrecedence | lib/xmlHandler.php:27-35 | A non-empty option is never overwritten by the header. |
| XmlImport.HeaderOnlyListedKeys | lib/xmlHandler.php:22 | Only sigle, name, tagset and progress are taken from the header. |
| XmlImport.WithExtId | lib/xmlHandler.php:43-46 | The `id` of `<text>` becomes `ext_id` only when the options lack a non-empty one and the id is non-empty. |
| XmlImport.ProcessXMLHeader | lib/xmlHandler.php:38-51 | Succeeds iff there is a `<text>` element, stopping at the first one and applying the ext_id rule; otherwise it returns the error message and leaves the options as they were. |
| XmlLayout.FirstSep | lib/xmlHandler.php:56 | The first ".." at or after a position, or the end when there is none. |
| XmlLayout.ParseRangeSingle | lib/xmlHandler.php:55-60 | A range without ".." names one token as both start and end. |
| XmlLayout.ParseRangeJoin | lib/xmlHandler.php:55-60 | Joining two names with ".." and parsing gives them back. |
| XmlLayout.ParseRangeIgnoresRest | lib/xmlHandler.php:55-60 | Whatever follows a second ".." is ignored. |
| XmlLayout.NumberPages | lib/xmlHandler.php:70-79 | Pages are read in document order and numbered from 1, each with its id, side, name and parsed range. |
| XmlLayout.NumberSpans | lib/xmlHandler.php:80-97 | Columns and lines are read in document order and numbered from 1, each with its id, name and parsed range. |
| XmlLayout.ProcessLayoutInformation | lib/xmlHandler.php:63-100 | One page per `page` element in document order, with its id, side, name, number from 1 and parsed range; likewise one column per `column` and one line per `line` element, each with its id, name, number from 1 and parsed range. |
| XmlLayout.ShiftLetter | lib/xmlHandler.php:105-113 | A shift-tag type has a letter iff it is one of rub, title, lat, marg and fm. |
| XmlLayout.ShiftLettersDistinct | lib/xmlHandler.php:105-113 | Different known types have different letters. |
| XmlLayout.ProcessShiftTags | lib/xmlHandler.php:103-118 | One shift tag per child in order, with its type, letter and parsed range. |
| XmlImport.Autos | lib/xmlHandler.php:145-153 | The automatic suggestions are automatic and unselected. |
| XmlImport.FirstMatch | lib/xmlHandler.php:165-171 | The first tag with the given type and name, or none when there is no such tag. |
| XmlImport.FindTag | lib/xmlHandler.php:165-171 | The linear scan finds exactly that first tag. |
| XmlImport.LastComment | lib/xmlHandler.php:157-159 | The comment is the text of the last `cora-comment` child: no later child is one. There is none iff no such child exists. |
| XmlImport.AnnotateAllExtends | lib/xmlHandler.php:155-181 | Annotations never remove, reorder or unselect a tag, and they add only selected user tags without score. |
| XmlImport.AnnotateAllSelects | lib/xmlHandler.php:155-181 | Every annotation ends up as a selected tag of its type and name. |
| XmlImport.AnnotatePairs | lib/xmlHandler.php:160-180 | One annotation adds its (type, tag) pair, and adds a tag only when the pair was new. |
| XmlImport.AnnotateAllPairs | lib/xmlHandler.php:155-181 | The final (type, tag) pairs are those of the suggestions together with those the annotations name. |
| XmlImport.AnnotateAllGrowth | lib/xmlHandler.php:155-181 | The tag list grows by exactly the number of named pairs that no suggestion had; a pair named twice is added once. |
| XmlImport.ModernTags | lib/xmlHandler.php:144-181 | A modern token's tags are its suggestions followed by the annotations' effect, and its comment is the last `cora-comment`. |
| XmlImport.ReadDipls | lib/xmlHandler.php:128-135 | One diplomatic token per `dipl` child, with its id, transcription and utf form and the token's id as parent. |
| XmlImport.ReadMods | lib/xmlHandler.php:137-183 | One modern token per `mod` child, in order, with its id, transcription, ascii and utf forms, the token's id as parent, its tags after the annotations and its last comment. |
| XmlImport.ProcessToken | lib/xmlHandler.php:120-185 | The token with its id, transcription and the given ordinal. Its diplomatic and modern tokens are exactly those read from its `dipl` and `mod` children, in order and field by field, each naming the token as parent. |
| XmlImport.Trim | lib/xmlHandler.php:212 | The header text after trim is no longer than the input and neither starts nor ends with white space. |
| XmlImport.TrimInfix | lib/xmlHandler.php:212 | Trim removes white space at both ends and nothing else. |
| XmlImport.TrimIdempotent | lib/xmlHandler.php:212 | Trimming twice is trimming once. |
| XmlImport.NumberedToken | lib/xmlHandler.php:223-226 | Appending a token numbered one past the others, with transcriptions that name it, keeps the numbering invariant. |
| XmlImport.ProcessNode | lib/xmlHandler.php:203-227 | One element of the data part keeps the numbering invariant. A `token` appends exactly its token, numbered one past the others, and the transcriptions of its children; any other element leaves tokens and transcriptions alone. Only a `cora-header` changes the options, by merging the header. |
| XmlImport.TokensReadSnoc | lib/xmlHandler.php:203-227 | Reading one more `token` element extends the tokens and the transcriptions by exactly that element's. |
| XmlImport.MergeKeepsCaller | lib/xmlHandler.php:208-210 | Merging a `cora-header` keeps the caller's non-empty options and changes only the header keys. |
| XmlImport.ProcessXMLData | lib/xmlHandler.php:188-232 | After the sentinel `t0` with ordinal 1, the tokens are the `token` elements in stream order, the k-th with its id, transcription and ordinal k+1. The transcriptions are exactly those elements' children, token by token. Every comment belongs to a token or to the sentinel. The caller's non-empty options are kept, and only header keys change. |
| XmlImport.Defaults | lib/xmlHandler.php:295-302 | Without a name and without a sigle, the file name becomes the name and one warning is issued. A missing `ext_id` becomes "". Nothing else changes. |
| XmlImport.Import | lib/xmlHandler.php:258-311 | Fails with the header error iff there is no `<text>` element. Otherwise the caller's non-empty options are kept, and the options carry either a name, a sigle or the file name. The `ext_id` is the caller's, else the id of the first `<text>`, else "". The document holds exactly the tokens after that element. |
| XmlImport.Parse | lib/xmlHandler.php:277-284 | Fails iff there is no `<text>`. Otherwise it stops at the first `<text>`, reads the tokens after it, and changes only header keys of the options the ext_id rule gave. |
| XmlImport.ImportOptions | lib/xmlHandler.php:295-302 | After the defaults, the caller's non-empty options are still there, and the `ext_id` is the caller's, the `<text>` id or "". |
| FlagHandler.Index | src/gui/js/edit/FlagHandler.js:22-41 | Each flag's position in configuration order. |
| FlagHandler.GetValues | src/gui/js/edit/FlagHandler.js:88-92 | Every flag gets 1 iff the token data holds 1 for it (number or string), and 0 otherwise. |
| FlagHandler.GetEventData | src/gui/js/edit/FlagHandler.js:68-79 | One event per flag in configuration order, with that flag's event string. |
| FlagHandler.Handle | src/gui/js/edit/FlagHandler.js:72-75 | A click changes the clicked flag, to 1 iff its element did not carry the flag's class. |
| FlagHandler.Flagged | src/gui/js/edit/FlagHandler.js:144-149 | The class is present iff the value is 1, and every other class is kept. |
| FlagHandler.FlaggedIdempotent | src/gui/js/edit/FlagHandler.js:144-149 | Setting a flag twice is setting it once. |
| FlagHandler.HandlerToggles | src/gui/js/edit/FlagHandler.js:72-75 | A handled click toggles the flag's class. |
| FlagHandler.ShowsStep | src/gui/js/edit/FlagHandler.js:103-142 | One flag of fill or update shows its value and changes nothing else. |
| FlagHandler.FilledAsValues | src/gui/js/edit/FlagHandler.js:88-111 | After fill, a row shows exactly what getValues reads from the same data. |
| FlagHandler.Pending | src/gui/js/edit/FlagHandler.js:126-142 | update shows the new value for the changed flag, the pending change for another flag, and nothing for a flag without one. |
| FlagHandler.Row.SetFlag | src/gui/js/edit/FlagHandler.js:144-149 | _setFlag changes the class list of that flag's element only. |
| FlagHandler.Row.Fill | src/gui/js/edit/FlagHandler.js:103-111 | fill: each flag element present shows the token's value, and a null value clears it. Each element agrees with getValues and keeps its other classes. |
| FlagHandler.Row.Update | src/gui/js/edit/FlagHandler.js:126-142 | update records the new value in the change set only when the class is a flag. Each flag element shows the new or pending value and is left alone when there is none. |
| SearchResults.IndexByNumSpec | src/gui/js/edit/SearchResults.js:59-61 | The index holds exactly the result numbers, each mapped to the last position with that number. |
| SearchResults.IndexByNumDistinct | src/gui/js/edit/SearchResults.js:59-61 | With distinct numbers, the index maps each result's number to its position. |
| SearchResults.SearchResultsTab.constructor | src/gui/js/edit/SearchResults.js:110-132 | Builds the index. The forward button is enabled only when there is more than one result, and the back button keeps its state. |
| SearchResults.SearchResultsTab.GotoSearchResult | src/gui/js/edit/SearchResults.js:142-161 | Goes to a result iff a number is given or the index is in range, showing the line one past the number. Back is disabled exactly at the first result and forward exactly at the last. A failed lookup changes nothing. |
| SearchResults.SearchResultsTab.Back | src/gui/js/edit/SearchResults.js:117-119 | The back click goes one result back iff there is one. |
| SearchResults.SearchResultsTab.Forward | src/gui/js/edit/SearchResults.js:125-127 | The forward click goes one result forward iff there is one. |
| SearchResults.SearchResultsTab.Destroy | src/gui/js/edit/SearchResults.js:240-247 | Both buttons are disabled and the tab button is hidden; nothing else changes. |
| SearchResults.ConditionValueShown | src/gui/js/edit/SearchResults.js:188-197 | A value is shown iff the operator is neither set nor nset and the value is non-empty, and it is the condition's value. |
| SearchResults.ConditionTextLabels | src/gui/js/edit/SearchResults.js:183-197 | Every item starts with the field label and the operator label, each followed by a space. " leer" follows exactly when a value operator has an empty value, and never together with a shown value. |
| SearchResults.RenderConditions | src/gui/js/edit/SearchResults.js:180-199 | One item per condition, in order. |
| Settings.Leading | src/gui/js/settings.js:86-87 | The longest prefix whose characters satisfy the predicate. |
| Settings.ParseInt | src/gui/js/settings.js:86-87 | `toInt` is NaN iff no digit follows the white space and the sign. |
| Settings.Decimal | src/gui/js/settings.js:86-87 | A decimal notation is a non-empty string of digits. |
| Settings.DecimalValue | src/gui/js/settings.js:86-87 | The digits of a decimal notation have that value. |
| Settings.ParseIntDecimal | src/gui/js/settings.js:86-87 | A number written in decimal reads back as itself, whatever non-digit text follows. |
| Settings.CheckLineSettings | src/gui/js/settings.js:86-100 | Submitted iff both inputs are numbers, the context is smaller than the page, and more than 50 lines per page were confirmed. Non-numbers and overlapping lines give their notices. |
| Settings.ConfirmationOnlyForManyLines | src/gui/js/settings.js:96-100 | The confirmation matters only for more than 50 lines per page. |
| Settings.FindSpec | src/gui/js/settings.js:145 | The first position at or after a start where the pattern occurs, or none when it occurs nowhere there. |
| Settings.HideAppends | src/gui/js/settings.js:147 | Hiding a column appends its entry to the list. |
| Settings.ShowAsWrittenUndoesHide | src/gui/js/settings.js:144-148 | As written, showing a just-hidden column restores the setting when "v," did not already occur in it. |
| Settings.ShowAsWrittenMergesEntries | src/gui/js/settings.js:145 | As written, showing "gen" in "xgen,a,gen," gives "xa,gen,", which is not the list without "gen". |
| Settings.FindShift | src/gui/js/settings.js:145 | Searching a concatenation from inside its second part finds what searching that part finds, shifted. |
| Settings.FindSkip | src/gui/js/settings.js:145 | A search that meets no match before a position goes on from there. |
| Settings.RemoveFirstAfter | src/gui/js/settings.js:145 | When no match starts inside a prefix, replacing the first match removes it from the rest. |
| Settings.NoMatchInEntry | src/gui/js/settings.js:145 | "v," cannot start inside an entry that differs from v and does not end with it. |
| Settings.ShowAsWrittenAgrees | src/gui/js/settings.js:144-146 | When no entry ends with the column name without being it, showing as written removes exactly the first entry equal to the name, as intended. |
| Settings.RemoveName | src/gui/js/settings.js:145 | The first equal entry removed: one fewer entry when present, unchanged otherwise. |
| Settings.FirstComma | src/gui/js/settings.js:132 | The first comma, with no comma before it. |
| Settings.FirstCommaEncode | src/gui/js/settings.js:132 | The first comma of an encoded list ends its first entry. |
| Settings.ShowColumnRemovesName | src/gui/js/settings.js:144-146 | Showing a column removes exactly its first entry from the list. |
| Settings.ShowColumnUndoesHide | src/gui/js/settings.js:144-148 | Hiding a column and showing it again gives the setting back. |
| Settings.RemoveNameLast | src/gui/js/settings.js:144-148 | Removing a name that was appended to a list without it gives the list back. |
| Settings.IsAdmin | src/gui/js/settings.js:306-309 | Admin iff the setting is truthy and not the string "0". |
| Settings.HiddenNotVisible | src/gui/js/settings.js:132-134 | After set-up, a hidden column is not visible iff it has a checkbox. |
| Settings.OthersKeepVisibility | src/gui/js/settings.js:132-134 | After set-up, a column outside the hidden list is as visible as before. |
| Settings.UserSettings.Set | src/gui/js/settings.js:267-278 | Afterwards get returns the stored value, the store itself is returned, and get of any other setting is unchanged. |
| Settings.UserSettings.ColumnToggled | src/gui/js/settings.js:137-148 | As written: showing a column removes the first occurrence of "v," from the hidden list, wherever it starts; hiding it appends the entry. No other setting changes. |

## Left out

- The MySQL connection, query strings, escaping and the `echo` output on failed queries. A query is modelled by its effect on the tables.
- `ORDER BY` clauses: reads follow table order.
- A NULL description is read as "".
- Failures of non-critical queries are not modelled: a failing INSERT of an existing key keeps the old row, and any other such failure is ignored.
- Connect.DBInterface.SaveTagset: the tagset lock is taken and never released, as in the code.
- Locks.Acquire: a refused lock still drops the user's other locks, because the code deletes them before it tries to insert.
- Connect.DBInterface.GetTagset: the entries of the result are maps. The order in which PHP's arrays list them is kept only for the link loop, which visits tags in first-seen order.
- Connect.DBInterface.UpdateData: the documented token comparison is not in the code and not in the model.
- Connect.DBInterface.OpenFile: takes no lock, following the code rather than its documentation.
- The XML libraries (DOMDocument, XMLReader, SimpleXML) and the well-formedness check. Parsed XML is given as a sequence of elements in document order, each with its attributes, text and children.
- `DocumentValueException`, `insertNewDocument` and `mapRangesToIDs` are not part of this model. `checkIntegrity` always returns no warnings, so it is not modelled.
- SearchResults.getRange is not modelled: it only delegates to `DataSource._slice`, which is not part of this model.
- The search tab's `_initializeDataTable` and the result-click handler, the MooTools DOM and `mBox` calls, and all server requests of the client.
- FlagHandler.Row: the three flag selectors are assumed to find three different elements, so one class list per flag.
- FlagHandler.IsOne: JavaScript's loose `== 1` is modelled for the number 1 and the string "1" only.
- Settings.ParseInt: white space before the number is the ASCII white space only.
- Connect.DBInterface.HighlightError: a second marker for the same line is appended. The comment at lib/connect.php:1005-1008 suggests one row per line and user, and under such a unique key the second insert would be refused. The table schema is not part of this model.
- Documents.SuggKey: the key of a suggestion includes its layer. updateData's `ON DUPLICATE KEY UPDATE` (lib/connect.php:676-678) is modelled as if the table's unique key were file, line, index and layer; the schema is not part of this model.
- FlagHandler.Key: token data and change sets name flags only through `FlagKey`. An `OtherKey` that carries a flag's own property name would be the same JavaScript property, but it is a different key in the model.
- SearchResults.Label: the operator label passes through the translation function `_()`, which is not part of this model. A missing operator label is shown as "undefined"; the client would show the translation of undefined.
- XmlImport.FirstMatch: types and tags are compared as strings. PHP's loose `==` would also equate two different numeric strings such as "1" and "01".
- XmlImport.ProcessXMLData: which `cora-header` value a header key ends with is not stated beyond the caller's options winning.
- The settings page's password form, language choice, text preview, input aids and `setColumnActive`.
- The `confirm` dialog of the line settings is a parameter: the user's answer.
- The clock, the session user and the admin flag of the session are parameters.

## Findings

| source | as written | input that shows it | evidently intended | confidence | as-written member | corrected member |
|---|---|---|---|---|---|---|
| src/gui/js/settings.js:145 | Showing a column calls `setting.replace(value + ",", "")`, which removes the first occurrence of "value," as a substring, even inside a longer entry. | Hidden list "xgen,a,gen," and column "gen": the result is "xa,gen,". | Remove the entry "gen", leaving "xgen,a,". | medium, not executed | Settings.ShowAsWrittenMergesEntries | Settings.ShowColumnRemovesName |

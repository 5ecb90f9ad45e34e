# ClueBot NG review interface, modelled in Dafny

The ClueBot NG reviewer is a Django service. Volunteers use it to classify
Wikipedia edits as vandalism, constructive or skipped. Edits are organised in
edit groups. Each edit carries a status: Pending, Partial or Done. Once enough
reviewers agree, its classification becomes final. A finished edit that has
training data is exported in the WPEditSet XML format, and the bot's neural
network is trained on that export.

This project models the core of the service and proves properties of the model:

- Data and settings:
  - the data model (edits, groups, votes, training data, revisions, scores);
  - the namespace tables of the settings.
- The WPEditSet codec:
  - the dumper that renders an edit as a WPEdit element;
  - the streaming parser that reads WPEdit records back;
  - the proof that a dumped, finished edit is read back with its fields.
- Importing training data:
  - the functions that import a record into an edit group, given as the typed record that `WpEdit`'s annotations declare and that `tests/libs/test_editset_parser.py:57-76` expects the parser to deliver (see "## Left out");
  - the construction of a training record from Wikipedia's answers.
- Reviewing:
  - the reclassification rule that turns votes into a final classification;
  - the review API's views and their access decorators.
- The three retention commands that clean up after a deleted revision.
- Statistics and rights:
  - the group and user statistics;
  - the automatic granting of reviewer rights.
- The legacy code path: its `Wikipedia` client, its edit-set parser and dumper, and its importer.

How the database is modelled:

- The database is a `Store` object with one field per table.
- The ORM calls the code makes are the store's methods. Each method states
  every table it leaves, and keeps the schema's unique constraints (`Valid`).
- Each command that loops over edits becomes a method with a loop. The method
  is proved equal to a pure function, and properties are proved about that
  function. Those properties are the keep/remove policy, the frame (an item
  touches only its own edit's rows) and independence from the order of the
  edits.

Wikipedia's answers, the IRC relay, the clock and random choices are
parameters of the model. The WPEditSet file is given as its sequence of
parse events.

Where the code and its documentation disagree, the model follows the code.
Where the code has a bug listed under "## Findings", the bug is modelled as
written in one member and proved to show. The rest of the model builds on the
corrected version, and every row below that does so starts with "Corrected:".
Further differences:

- The image of `ElementTree.iterparse` assumes the file has been read through.
  Every event then carries the element's final text, which is what the parser
  reads at the `end` event.
- The record dataclass of `libs/models/edit_set.py` lacks fields that
  `libs/edit_set/utils.py` reads (`reviewers`, `reviewers_agreeing`,
  `editdb_source`, the revisions' `is_minor`, `is_creation` and
  `has_complete_training_data`). The model gives the record the fields the
  callers read.
- `models.py` names the deletion flag `deleted`. `libs/edit_set.py:253-255`,
  `update_edit_deletion.py:55`, `update_deleted_edits.py:39` and `:52`, and
  `import_training_data.py:33` and `:50` use that name too. The newer files
  (`libs/edit_set/utils.py`, `api/views.py`, `mark_edits_as_deleted.py` and
  others) use `is_deleted`. The model has one flag, `isDeleted`, for both names.
- `models.py:24-34` declares no `has_training_data`, no reviewer counts and no
  `last_updated` on Edit, and no `group_type` or `related_to` on EditGroup.
  `models.py` has no ScoreData table either. The newer code reads and writes
  all of them, so the model's schema adds them.
- `models.py` declares only a `Revision` table, yet the newer code writes
  separate `CurrentRevision` and `PreviousRevision` tables. Both schemas are
  modelled: the newer code path uses the two tables, and the legacy commands
  use `Revision`.
- `update_edit_classification.py` finalises an edit once there are
  `CBNG_MINIMUM_EDITS_FOR_USER_ACCURACY` (20) votes. The setting's name
  suggests `CBNG_MINIMUM_CLASSIFICATIONS_FOR_EDIT` (2) was meant. The model
  uses 20, as the code does.

## Model

| member | source | states |
|---|---|---|
| Models.StatusOfCode | cbng_reviewer/models.py:4-8 | A stored status code is read as a status exactly when it is 0, 1 or 2. The status read has that code. |
| Models.LabelOfCode | cbng_reviewer/models.py:9-13 | A code that reads as a classification is that classification's code. |
| Models.ClassificationIdsAreLabelCodes | cbng_reviewer/models.py:14 | CLASSIFICATION_IDS is {0, 1, 2}, exactly the codes that read as a classification. |
| Models.CodesRoundTrip | cbng_reviewer/models.py:4-13 | Every classification and every status is read back from its own code. |
| Models.NewEdit | cbng_reviewer/models.py:29-34 | A newly created edit has the schema's defaults: Pending, unclassified, not deleted, no training data, no group. |
| Models.VotesOn | cbng_reviewer/management/commands/update_edit_classification.py:17-19 | The votes filtered by edit are exactly the table's votes on that edit. |
| Models.VotesWithout | cbng_reviewer/management/commands/mark_edits_as_deleted.py:46 | Deleting an edit's votes leaves exactly the votes on other edits. |
| Models.VotesWithoutKeepsOneVotePerUser | cbng_reviewer/models.py:43-44 | Deleting an edit's votes keeps the one-vote-per-user-and-edit constraint. |
| Models.AppendVoteKeepsOneVotePerUser | cbng_reviewer/models.py:43-44 | A vote by a user with no vote on that edit can be added without breaking the constraint. |
| Settings.Swapped | cbng_reviewer/settings.py:192 | The comprehension behind ID_TO_NAME sees every item of NAME_TO_ID, in order, with key and value exchanged. |
| Settings.DictOfFindsItem | cbng_reviewer/settings.py:158-192 | In a dictionary built from items with distinct keys, every item is found under its key. |
| Settings.DictOfKeyFromItem | cbng_reviewer/settings.py:158-192 | Every key of a dictionary built from items is the key of one of the items. |
| Settings.NamesDistinct | cbng_reviewer/settings.py:158-191 | No two namespaces share a name, so no entry of NAME_TO_ID hides another. |
| Settings.IdsDistinct | cbng_reviewer/settings.py:158-191 | No two namespaces share an id, so the inversion into ID_TO_NAME loses no entry. |
| Settings.NameToIdRoundTrip | cbng_reviewer/settings.py:158-192 | Every name maps to an id that ID_TO_NAME maps back to that name. |
| Settings.IdToNameRoundTrip | cbng_reviewer/settings.py:158-192 | Every id maps to a name that NAME_TO_ID maps back to that id. |
| Settings.NamesAreLowerCase | cbng_reviewer/settings.py:158-191 | Every namespace name is already lower case, so a `lower()` lookup can find it. |
| Settings.CapitalisedNameFindsId | cbng_reviewer/settings.py:158-192 | A name capitalised for the dump and lower-cased on import finds its own id again. |
| Settings.KnownEntries | cbng_reviewer/settings.py:161-164 | "user talk" is namespace 3, the id the warning-count query hardcodes, and namespace 0 is "main". |
| Strings.Lower | cbng_reviewer/libs/edit_set/utils.py:24 | Definition (ASCII letters only): `lower()` keeps the length and lower-cases every character. |
| Strings.Capitalize | cbng_reviewer/libs/edit_set/dumper.py:91 | Definition (ASCII letters only): `capitalize()` keeps the length, upper-cases the first character and lower-cases the rest. |
| Strings.LowerOfCapitalize | cbng_reviewer/libs/edit_set/dumper.py:91 | Lower-casing a capitalised string gives the lower-cased original. |
| Strings.ParseIntOfIntToString | cbng_reviewer/libs/models/edit_set.py:47-49 | `int` reads back exactly the number `str` wrote, for every integer. |
| Strings.IntToStringNonEmpty | cbng_reviewer/libs/models/edit_set.py:46-48 | `str(n)` is never empty, so the importer's truthiness tests pass for every dumped number. |
| Access.AdminRequired | cbng_reviewer/libs/django.py:11-28 | Anonymous users are redirected to the login page for the requested path. Authenticated non-admins get PermissionDenied. Admins get the view's own response. |
| Access.ReviewerRequired | cbng_reviewer/libs/django.py:31-48 | Anonymous users are redirected to login. A user is admitted, with the view's response, iff they are an admin, or a reviewer while the site is not admin-only. |
| Access.AdminViewsAreStricter | cbng_reviewer/libs/django.py:11-48 | Any request an admin view admits, a reviewer view admits too, with the same response. |
| Access.AdminOnlyModeIsAdminRequired | cbng_reviewer/libs/django.py:31-48 | With CBNG_ADMIN_ONLY set, the reviewer decorator behaves exactly like the admin decorator. |
| Access.ReviewerApiCases | cbng_reviewer/tests/test_api_reviewer.py:8-25 | The status codes of the reviewer API tests: 302 anonymous, 403 without rights or for a reviewer in admin-only mode, 200 for admins and for reviewers otherwise. |
| ReviewApi.ReportStatusCodes | cbng_reviewer/api/views.py:43-61 | An unfinished edit reports its status code. A finished edit reports its classification code plus two, and nothing when it has no classification. |
| ReviewApi.ReportStatusInjective | cbng_reviewer/api/views.py:43-61 | Equal reported codes mean the same thing: the same unfinished status, or a finished edit with the same classification. |
| ReviewApi.ReportEntryRange | cbng_reviewer/api/views.py:63-72 | Every entry is one of the six codes the report interface knows. Code 5 appears exactly for a deleted unfinished edit; a deleted Done edit is absent. |
| ReviewApi.ReportStatusMap | cbng_reviewer/api/views.py:63-74 | The two loops give an entry for exactly the group's edits that have a code, and each entry is that edit's code. |
| ReviewApi.ReportStatusResponse | cbng_reviewer/api/views.py:25-74 | 404 exactly for a group that is not listed under the request's `exclude_empty_editsets` filter, or whose type is not 1. Otherwise the map of the group's edits to their codes. |
| ReviewApi.DumpedGroups | cbng_reviewer/api/views.py:78-82 | The group itself is always dumped. With `expand=1`, so is every group related to it, and no other group. |
| ReviewApi.StreamStep | cbng_reviewer/api/views.py:86-91 | One generator step: a row with nothing to render yields nothing, a rendered row yields its text and a newline, and a KeyError ends the stream. |
| ReviewApi.StreamComplete | cbng_reviewer/api/views.py:86-91 | Without a KeyError, the generator yields every rendered row in order and then the closing tag. |
| ReviewApi.StreamStops | cbng_reviewer/api/views.py:86-91 | A KeyError at row k ends the stream after the rows before it, with no closing tag. |
| ReviewApi.EditSetFraming | cbng_reviewer/api/views.py:86-93 | The whole response is the opening tag, the WPEdits with a newline each, and the closing tag. A KeyError cuts it at the first failing row. |
| ReviewApi.BodiesAppend | cbng_reviewer/api/views.py:88-90 | The bodies of two runs of rows, concatenated, are the bodies of the concatenated rows. |
| ReviewApi.BodiesMembership | cbng_reviewer/api/views.py:88-90 | A text is streamed exactly when some row rendered to it. |
| ReviewApi.DumpResults | cbng_reviewer/api/views.py:88-89 | One result per row of the query, each the row's WPEdit with the requested group as source. |
| ReviewApi.DumpEditSet | cbng_reviewer/api/views.py:25-93 | 404, with no chunk, exactly for a group that is not listed under the request's filter. Otherwise the streamed chunks are the framing of the rows' WPEdits, indented for a block. ElementTree's escaping is restored afterwards. |
| ReviewApi.DumpEditAsWpEdit | cbng_reviewer/api/views.py:152-157 | 404 for an unknown edit and for one with nothing to render. Otherwise the unindented WPEdit without a source. A namespace KeyError propagates. |
| ReviewApi.ListedGroups | cbng_reviewer/api/views.py:25-35 | Without the filter, every group is listed. With `exclude_empty_editsets=1`, exactly the groups holding a finished edit with training data, plus the groups those are related to. The result is exactly the groups that satisfy `Listed`. |
| ReviewApi.StoredComment | cbng_reviewer/api/views.py:112-114 | A comment that is blank after `strip()`, with Python's full set of whitespace characters, is stored as null. Any other comment is stored unchanged. |
| ReviewApi.StoredCommentExamples | cbng_reviewer/api/views.py:112-114 | "", a no-break space and a mix of \x1c, U+3000 and a newline are stored as null; " ok " is stored as it is. |
| ReviewApi.StoreEditClassification | cbng_reviewer/api/views.py:96-122 | The answer is decided in this order: 404 for an unknown edit; "already stored" for a repeat vote; 400 for a code outside CLASSIFICATION_IDS; confirmation is required when the vote contradicts a standing classification and no confirmation was sent. Otherwise exactly one vote is appended, with the stored comment. No other table changes. |
| ReviewApi.RepeatVoteRefused | cbng_reviewer/api/views.py:100-101 | Once a user's vote is stored, their next vote on that edit is refused. |
| ReviewApi.NextEditForReview | cbng_reviewer/api/views.py:125-149 | Nothing is returned exactly when no group of positive weight has a candidate. A candidate is live, unfinished and not yet voted on by the user. Otherwise the edit is a candidate of the heaviest group that has one, and is a Partial edit whenever that group has one. |
| UpdateEditClassification.TallyCountsEveryVote | cbng_reviewer/management/commands/update_edit_classification.py:17-21 | The three counts add up to the number of votes on the edit. |
| UpdateEditClassification.ReclassifiedDecision | cbng_reviewer/management/commands/update_edit_classification.py:23-35 | The edit becomes Done exactly when the threshold is met and one of the three majorities holds. The first majority that holds, in the order Skipped, Constructive, Vandalism, names the classification. Otherwise the classification is kept, and the status is Pending iff there is no vote. No other field changes. |
| UpdateEditClassification.BelowThresholdNeverDone | cbng_reviewer/management/commands/update_edit_classification.py:24 | Below the threshold the edit never becomes Done and keeps its classification. |
| UpdateEditClassification.NoVotesStayPending | cbng_reviewer/management/commands/update_edit_classification.py:23-24 | With the threshold the command uses, an edit with no votes is Pending. |
| UpdateEditClassification.UnanimousIsFinal | cbng_reviewer/management/commands/update_edit_classification.py:24-35 | A unanimous tally that meets the threshold finalises the edit with that value, for each of the three values. |
| UpdateEditClassification.ReclassifiedIdempotent | cbng_reviewer/management/commands/update_edit_classification.py:37-39 | Running again with the same votes changes nothing, so a second run saves nothing. |
| UpdateEditClassification.ApplyRules | cbng_reviewer/management/commands/update_edit_classification.py:23-35 | The assignments leave the edit as the decision rule says. |
| UpdateEditClassification.HandleEdit | cbng_reviewer/management/commands/update_edit_classification.py:14-39 | The stored edit becomes its reclassification from the stored votes. A save happens exactly when the status or the classification differs. Every other row is kept. |
| UpdateEditClassification.Population | cbng_reviewer/management/commands/update_edit_classification.py:44 | The command visits exactly the edits that are not Done. |
| UpdateEditClassification.Handle | cbng_reviewer/management/commands/update_edit_classification.py:41-46 | Every edit that is not Done is reclassified with the threshold of 20. Done edits and all other tables are unchanged. |
| EditSetUtils.MarkedDeletedIdempotent | cbng_reviewer/libs/edit_set/utils.py:93-100 | Flagging a stored edit succeeds. Flagging it again from the refreshed row relays no second notice and changes nothing. |
| EditSetUtils.MarkedDeletedFrame | cbng_reviewer/libs/edit_set/utils.py:93-100 | Only that edit's deletion flag and the notice list can change, and at most one notice is added. An already flagged object changes nothing. |
| EditSetUtils.MarkEditAsDeleted | cbng_reviewer/libs/edit_set/utils.py:93-100 | The store ends as the flagging function says: a notice is relayed and then the flag is set. For a row that is already gone, the update raises after the notice. |
| EditSetUtils.ImportTrainingData | cbng_reviewer/libs/edit_set/utils.py:11-50 | The TrainingData row is replaced by the one built from the record. The current and previous revision rows are replaced only when that revision is present and complete. No other table changes. |
| EditSetUtils.ImportedReview | cbng_reviewer/libs/edit_set/utils.py:61-71 | The imported edit is Done and classified Vandalism iff the record says so. Reviewer counts are taken from the record when it has them. Nothing else changes. |
| EditSetUtils.UpsertEdit | cbng_reviewer/libs/edit_set/utils.py:60-71 | The edit is fetched or created. A new edit, or any edit under force_status, takes the imported review. Only that edit's row changes. |
| EditSetUtils.AddToGroup | cbng_reviewer/libs/edit_set/utils.py:78-81 | The edit ends up in the group, whether or not it was there before, and nothing else changes. |
| EditSetUtils.JoinGroup | cbng_reviewer/libs/edit_set/utils.py:73-81 | The edit joins the target group, or with dynamic groups the source's group related to the target. The call fails only when that group's name is taken under another parent. |
| EditSetUtils.ImportWpEditToEditGroup | cbng_reviewer/libs/edit_set/utils.py:53-90 | The whole import of one record: its review, the group membership, and, unless skip_existing holds and the edit has training data, the training data of a complete record. Votes, legacy revisions, scores and notices never change. |
| ImportTrainingDataCommand.ItemOutcome | cbng_reviewer/management/commands/import_training_data.py:26-42 | An edit that has training data is skipped unless forced. An item raises, changing nothing, exactly when the deletion lookup fails or, for a live revision, `build_wp_edit` raises. A deleted revision only sets the edit's flag. A complete record becomes the TrainingData row plus the rows of its complete revisions. An incomplete record changes nothing. |
| ImportTrainingDataCommand.ItemRaisesWithBuilder | cbng_reviewer/management/commands/import_training_data.py:36-37 | With the builder's own result, an item on a live revision raises exactly when the metadata names an unknown namespace id, or a titled page has no current revision and the empty revision counts as complete. |
| ImportTrainingDataCommand.TrainingImportedIdempotent | cbng_reviewer/libs/edit_set/utils.py:11-50 | Importing the same record twice leaves what importing it once left. |
| ImportTrainingDataCommand.ItemFrame | cbng_reviewer/management/commands/import_training_data.py:26-42 | One item leaves every other edit's rows as they were. |
| ImportTrainingDataCommand.ItemKeepsLater | cbng_reviewer/management/commands/import_training_data.py:49-56 | The edits later in a duplicate-free order still hold the objects the query returned after an earlier item. |
| ImportTrainingDataCommand.HandleEdit | cbng_reviewer/management/commands/import_training_data.py:26-42 | The store ends as one item of the command says, for any result of `build_wp_edit`, an exception included, and the method returns whether the item raised. |
| ImportTrainingDataCommand.RunStep | cbng_reviewer/management/commands/import_training_data.py:49-58 | A pass over one more edit is the pass so far followed by that edit's item. |
| ImportTrainingDataCommand.Handle | cbng_reviewer/management/commands/import_training_data.py:44-60 | Every edit of the population is handled in the query's order: the given id, or every edit not flagged deleted. An item that raises, in the lookup or in `build_wp_edit`, is logged and does not stop the others. |
| Retention.ReviewGroups | cbng_reviewer/management/commands/mark_edits_as_deleted.py:25 | The review groups are exactly the groups of type 1. |
| Retention.VotesOnWithoutOther | cbng_reviewer/management/commands/mark_edits_as_deleted.py:46 | Deleting one edit's votes leaves every other edit's votes as they were. |
| Retention.VotesOnWithoutSame | cbng_reviewer/management/commands/mark_edits_as_deleted.py:46 | Deleting an edit's votes leaves none on it. |
| Retention.ItemFrame | cbng_reviewer/management/commands/mark_edits_as_deleted.py:32-58 | Handling one edit, under any of the three commands, leaves every other edit's rows as they were. |
| Retention.ItemOwn | cbng_reviewer/management/commands/mark_edits_as_deleted.py:32-58 | Handling an edit on the whole tables does to its own rows what the per-edit view says. |
| Retention.ItemLocal | cbng_reviewer/management/commands/mark_edits_as_deleted.py:32-58 | What handling an edit does to its own rows depends on those rows only. |
| Retention.RunFrame | cbng_reviewer/management/commands/mark_edits_as_deleted.py:60-77 | A pass leaves the rows of an edit it does not handle as they were. |
| Retention.RunIsPerEdit | cbng_reviewer/management/commands/mark_edits_as_deleted.py:60-77 | Order independence: after a pass over distinct ids, each handled edit's rows are what handling that edit alone, on the starting tables, gives. The worker pool's order therefore cannot matter. |
| Retention.MarkEditsAsDeletedPolicy | cbng_reviewer/management/commands/mark_edits_as_deleted.py:32-58 | An edit whose revision is not deleted keeps every row. A deleted Done edit with training data keeps every row and is flagged. Any other deleted edit loses its votes, training data and revisions, and its row survives, flagged, exactly when it is in a review group. |
| Retention.UpdateEditDeletionPolicy | cbng_reviewer/management/commands/update_edit_deletion.py:24-48 | The same decision over the legacy Revision table. Every kept edit is flagged. For a removed edit not yet flagged, the notice goes out and the flag update then raises. |
| Retention.UpdateDeletedEditsPolicy | cbng_reviewer/management/commands/update_deleted_edits.py:18-47 | Corrected: the filter is read as `type=0`. A deleted edit is kept and flagged exactly when it is Done and has a current Revision row and TrainingData. Any other deleted edit disappears with all of its rows. |
| Retention.UpdateDeletedEditsAsWrittenChangesNothing | cbng_reviewer/management/commands/update_deleted_edits.py:27 | As written, every item on a deleted revision raises before any change, so the command removes and flags nothing. |
| Retention.UpdateDeletedEditsCorrectedRemoves | cbng_reviewer/management/commands/update_deleted_edits.py:18-47 | Under the corrected filter, a deleted edit without training data is removed. |
| Retention.MarkEditsAsDeletedItem | cbng_reviewer/management/commands/mark_edits_as_deleted.py:32-58 | The store ends as the command's item function says. |
| Retention.UpdateEditDeletionItem | cbng_reviewer/management/commands/update_edit_deletion.py:24-48 | The store ends as the command's item function says. |
| Retention.UpdateDeletedEditsItem | cbng_reviewer/management/commands/update_deleted_edits.py:32-47 | Corrected: the filter is read as `type=0`. The store ends as the item function says. |
| Retention.Population | cbng_reviewer/management/commands/mark_edits_as_deleted.py:64-68 | The population is the given id, if stored, or else every edit not flagged deleted. |
| Retention.Handle | cbng_reviewer/management/commands/mark_edits_as_deleted.py:60-77 | Corrected: `update_deleted_edits` runs the item with the filter read as `type=0`. Each command's handle is a pass over its population in the query's order, from the objects the query returned. It returns the ids whose item raised. |
| Dumper.GenerateOutcome | cbng_reviewer/libs/edit_set/dumper.py:47-90 | Nothing is generated exactly when the TrainingData row or the current revision is missing, or when the previous revision is missing and the current one is not a page creation. Otherwise an unknown namespace id raises, and every other edit gets an element. |
| Dumper.TopLevelOrder | cbng_reviewer/libs/edit_set/dumper.py:68-122 | The children of WPEdit have a fixed tag sequence. isVandalism appears iff the edit is Done, and core_scores iff a ScoreData row exists. |
| Dumper.EditDbContents | cbng_reviewer/libs/edit_set/dumper.py:70-74 | EditDB holds isActive "true", then the group name as `source` exactly when a group is dumped, then lastUpdated written so that `int` reads back the stored value. |
| Dumper.PreviousContents | cbng_reviewer/libs/edit_set/dumper.py:101-104 | The previous element is always present. It holds timestamp and text when a previous revision exists, and otherwise renders as `<previous></previous>` followed by its indentation. |
| Dumper.EmptyPreviousRendered | cbng_reviewer/libs/edit_set/dumper.py:28 | An empty `previous` child, indented and rendered with `short_empty_elements=False`, is its two tags followed by the indentation. |
| Dumper.EmptyChildRendered | cbng_reviewer/libs/edit_set/dumper.py:22-28 | The same holds for any empty child that is not the last. |
| Dumper.ReviewContents | cbng_reviewer/libs/edit_set/dumper.py:106-111 | ReviewInterface carries the status label, and the two reviewer counts only for a Done edit. isVandalism follows only then, and reads "true" exactly for Vandalism. |
| Dumper.ScoresContents | cbng_reviewer/libs/edit_set/dumper.py:113-122 | core_scores is the last child exactly when a ScoreData row exists. It holds reverted and training only for non-null, non-zero scores. |
| Dumper.NamespaceFindsId | cbng_reviewer/libs/edit_set/dumper.py:90-91 | The namespace leaf is the capitalised name of the stored id, and the importer's lower-case lookup finds that same id. |
| Dumper.IndentedLines | cbng_reviewer/libs/edit_set/dumper.py:34-40 | The post-pass keeps the number of lines. |
| Dumper.IndentedLinesShape | cbng_reviewer/libs/edit_set/dumper.py:36-39 | The post-pass prefixes exactly the lines whose first visible character is `<` with one space, and leaves every other line as it is. |
| Dumper.IndentBlock | cbng_reviewer/libs/edit_set/dumper.py:34-40 | The loop over `splitlines()` gives the joined post-pass of the lines. |
| Dumper.XmlToString | cbng_reviewer/libs/edit_set/dumper.py:20-42 | The output is the indented element rendered with the dumper's escaping over whatever escaping was installed, post-processed when asked. Afterwards the original escaping is back and the saved attribute is gone. |
| Dumper.GenerateWpEdit | cbng_reviewer/libs/edit_set/dumper.py:44-124 | The result is the rendering of the element built from the stored rows: nothing when rows are missing, and a KeyError for an unknown namespace. ElementTree's escaping is left as it was. |
| Dumper.SerializeNoQuote | cbng_reviewer/libs/edit_set/dumper.py:13-18 | Rendering with the dumper's escaping writes no raw double quote when no tag holds one. |
| Dumper.IndentNodeQuoteFree | cbng_reviewer/libs/edit_set/dumper.py:22 | Indenting changes only texts and tails, so quote-free tags stay quote-free. |
| Dumper.RenderedNoQuote | cbng_reviewer/libs/edit_set/dumper.py:13-42 | The dumper's output holds no raw double quote, with or without the post-pass, whenever no tag holds one. |
| Dumper.JoinLinesChars | cbng_reviewer/libs/edit_set/dumper.py:40 | Joining lines adds no character other than line feeds. |
| Dumper.JoinSplitLines | cbng_reviewer/libs/edit_set/dumper.py:36-40 | Text whose only line breaks are line feeds, and which does not end with one, is given back by splitting and joining. On such text the post-pass only inserts the spaces. |
| Dumper.CreationRendersEmptyPrevious | cbng_reviewer/libs/edit_set/dumper.py:101-104 | For a page creation without a previous revision, the rendering contains `<previous></previous>`. |
| Dumper.BlockAt | cbng_reviewer/libs/edit_set/dumper.py:101 | The previous block is the thirteenth child of WPEdit, and there are at least fourteen. |
| Xml.ReplaceQuotesWithoutQuote | cbng_reviewer/libs/edit_set/dumper.py:16-17 | Text without a double quote is unchanged by the replacement, so the guard changes no result. |
| Xml.EscapeThenQuotes | cbng_reviewer/libs/edit_set/dumper.py:13-18 | The library's escaping followed by the quote replacement escapes `&`, `<`, `>` and `"`. |
| Xml.FullEscapeClean | cbng_reviewer/libs/edit_set/dumper.py:13-18 | The escaped text holds no raw `"`, `<` or `>`. |
| Xml.ExtendedEscape | cbng_reviewer/libs/edit_set/dumper.py:13-26 | With the library's own escaping installed, the dumper's escaping is the full escape and leaves no raw quote or angle bracket. |
| Xml.UnescapeFullEscape | cbng_reviewer/libs/edit_set/dumper.py:13-18 | Decoding the entities of what the dumper escaped gives back the original text. |
| Xml.EmptyElementForm | cbng_reviewer/libs/edit_set/dumper.py:28 | With `short_empty_elements=False`, an empty element is written as a start tag and an end tag. |
| Xml.IndentFromShape | cbng_reviewer/libs/edit_set/dumper.py:22 | `ET.indent` keeps every child's tag and, for a child without children, its text. |
| Xml.IndentFromSuffix | cbng_reviewer/libs/edit_set/dumper.py:22 | Indenting from a later child gives the same children as indenting from an earlier one. |
| Xml.FirstVisibleStartsWithTag | cbng_reviewer/libs/edit_set/dumper.py:37 | `line.strip().startswith("<")` holds exactly when the first non-blank character is `<`. |
| Xml.SplitLinesChars | cbng_reviewer/libs/edit_set/dumper.py:36 | `splitlines` yields no character the text did not hold. |
| Xml.IndentedChildRendered | cbng_reviewer/libs/edit_set/dumper.py:22-28 | The rendering of an indented element contains the rendering of each of its indented children. |
| Xml.ChildRendered | cbng_reviewer/libs/edit_set/dumper.py:28 | The rendering of an element contains the rendering of each child. |
| EditSetParser.MappedField | cbng_reviewer/libs/edit_set/parser.py:16-19 | EditID is stored as `edit_id`, isVandalism as `is_vandalism`, every other tag has no mapping. |
| EditSetParser.StepRecord | cbng_reviewer/libs/edit_set/parser.py:51-61 | Every `WPEdit` start or end leaves a fresh context inside an edit; the collected dictionary is converted exactly at an end seen inside an edit, and no other step hands one over. |
| EditSetParser.StepOutsideEdit | cbng_reviewer/libs/edit_set/parser.py:63-67 | Outside an edit the context is unchanged and every tag but WPEditSet is logged as ignored. |
| EditSetParser.StepInsideEditSilent | cbng_reviewer/libs/edit_set/parser.py:63-67 | Inside an edit nothing is logged as ignored. |
| EditSetParser.StepBlock | cbng_reviewer/libs/edit_set/parser.py:69-76 | The boundary of current, previous, EditDB or ReviewInterface sets its own flag at its start, clears it at its end, and changes nothing else. |
| EditSetParser.StepRevision | cbng_reviewer/libs/edit_set/parser.py:78-88 | Inside a revision block only the end of minor, timestamp or text writes, and only into that revision's dictionary; current wins over previous. |
| EditSetParser.StepEditDbAndReview | cbng_reviewer/libs/edit_set/parser.py:90-100 | In EditDB only the start of `source` writes `editdb_source`; in ReviewInterface only the ends of the two reviewer counts write. |
| EditSetParser.StepGeneral | cbng_reviewer/libs/edit_set/parser.py:102-109 | Elsewhere in an edit, the end of one of the thirteen edit fields stores its text under its tag, EditID and isVandalism go to their mapped keys, and every other event changes nothing. |
| EditSetParser.TimeField | cbng_reviewer/libs/models/edit_set.py:46-49 | A truthy time is read as whole seconds and an empty one is passed through; a text that is not an integer makes the conversion raise. |
| EditSetParser.RevisionFromXmlFields | cbng_reviewer/libs/models/edit_set.py:12-19 | `minor` is true exactly when the raw value is the string "true"; a truthy timestamp is read as seconds and any other one is passed through. |
| EditSetParser.RevisionFromXmlAccepts | cbng_reviewer/libs/models/edit_set.py:12-19 | A dictionary holding only revision fields, as the parser fills it, converts exactly when it holds a timestamp that reads and a text. |
| EditSetParser.PreparedKeys | cbng_reviewer/libs/models/edit_set.py:42-51 | The prepared arguments keep every key, add `namespace`, and keep the text of every key other than the namespace and the times. |
| EditSetParser.PreparedNamespace | cbng_reviewer/libs/models/edit_set.py:50-51 | A missing or empty namespace becomes "main"; a non-empty one is kept. |
| EditSetParser.PreparedTimes | cbng_reviewer/libs/models/edit_set.py:46-49 | The two times are read as seconds when truthy and passed through otherwise. |
| EditSetParser.FromXmlFields | cbng_reviewer/libs/models/edit_set.py:42-52 | A converted record: namespace defaulted to "main", the times read as seconds when truthy, and every other key keeps its text. |
| EditSetParser.FromXmlFailures | cbng_reviewer/libs/models/edit_set.py:42-52 | The conversion raises on a missing time key first, then on a time that is not an integer, and otherwise exactly when a declared field is missing. |
| EditSetParser.FeedConcat | cbng_reviewer/libs/edit_set/parser.py:118-121 | Feeding two runs of events is feeding the second from where the first left off. |
| EditSetParser.FeedAfterFailure | cbng_reviewer/libs/edit_set/parser.py:116-121 | Once a conversion's exception has escaped, later events change nothing. |
| EditSetParser.FeedDeliversInOrder | cbng_reviewer/libs/edit_set/parser.py:118-121 | Records only accumulate: what was handed to the callback stays, in order, and later records follow it. |
| EditSetParser.OneRecordPerEditEnd | cbng_reviewer/libs/edit_set/parser.py:51-61 | Without an exception, exactly one record is handed over per `</WPEdit>` met inside an edit. |
| EditSetParser.ReadResult | cbng_reviewer/libs/edit_set/parser.py:111-126 | A missing file returns False and hands over nothing; a stream that breaks returns False after the records completed before the break; a sound stream returns True; a conversion's exception escapes. |
| EditSetParser.ProcessingContext.ProcessElement | cbng_reviewer/libs/edit_set/parser.py:48-109 | One event updates the context in place to the pure step's new context and returns that step's record and log line. |
| EditSetParser.LoopStep | cbng_reviewer/libs/edit_set/parser.py:118-121 | One turn of the event loop either ends the read with the failed conversion or reaches the progress after one more event. |
| EditSetParser.ReadStopsAt | cbng_reviewer/libs/edit_set/parser.py:116-121 | The first failed conversion fixes the outcome: that exception, with what was handed over before it. |
| EditSetParser.ReadFile | cbng_reviewer/libs/edit_set/parser.py:111-126 | The loop over a context updated in place returns exactly the outcome of the pure read. |
| Codec.StepErase | cbng_reviewer/libs/edit_set/parser.py:69-76 | The text of a block's own start or end event never changes what the parser does with it. |
| Codec.EventsFromSameChildren | cbng_reviewer/libs/edit_set/parser.py:118 | The events iterparse yields for an element depend on its tag, text and children, never on its tail. |
| Codec.IndentInvisible | cbng_reviewer/libs/edit_set/dumper.py:22 | After `ET.indent`, which changes only whitespace text, the parser reads a dumped tree exactly as it reads the unindented tree. |
| Codec.VisitEditDb | cbng_reviewer/libs/edit_set/dumper.py:70-74 | Of the EditDB block the parser keeps only the group's name, as `editdb_source`, when one was dumped. |
| Codec.VisitCommon | cbng_reviewer/libs/edit_set/dumper.py:86-94 | The six leaves of the `common` block are stored under their own tags. |
| Codec.VisitCurrent | cbng_reviewer/libs/edit_set/dumper.py:96-99 | The `current` block fills the current revision's dictionary with minor, timestamp and text. |
| Codec.VisitPrevious | cbng_reviewer/libs/edit_set/dumper.py:101-104 | The `previous` block fills the previous revision's dictionary with timestamp and text, or leaves it empty for a page creation. |
| Codec.VisitReviewInterface | cbng_reviewer/libs/edit_set/dumper.py:106-111 | Of the ReviewInterface block the parser keeps the two reviewer counts, which exist only for a Done edit; the status is skipped. |
| Codec.VisitScores | cbng_reviewer/libs/edit_set/dumper.py:113-122 | Nothing of `core_scores` reaches the parsed dictionary. |
| Codec.VisitDumped | cbng_reviewer/libs/edit_set/dumper.py:68-122 | Between `<WPEdit>` and `</WPEdit>` of a dumped edit, the parser collects exactly the dictionary `ParsedRaw` describes. |
| Codec.DumpedShaped | cbng_reviewer/libs/edit_set/dumper.py:68-122 | Every element with children in a dumped WPEdit is WPEdit itself or one of its blocks, which is what makes indentation invisible to the parser. |
| Codec.FeedDumped | cbng_reviewer/libs/edit_set/dumper.py:20-28 | The indented events of a dumped edit, read from any point between edits, leave a fresh context inside an edit and hand over the converted record, or let its conversion's exception escape. |
| Codec.EditFieldsDistinct | cbng_reviewer/libs/edit_set/parser.py:20-34 | The thirteen edit fields are distinct names. |
| Codec.ParsedKeys | cbng_reviewer/libs/edit_set/dumper.py:70-111 | The collected keys are `editdb_source` when a group was dumped, `edit_id`, the thirteen edit fields, and for a Done edit the two reviewer counts and `is_vandalism`. |
| Codec.ParsedEditFields | cbng_reviewer/libs/edit_set/dumper.py:78-94 | Each of the thirteen edit fields holds the text the dumper gave its leaf. |
| Codec.ParsedOtherFields | cbng_reviewer/libs/edit_set/dumper.py:73-111 | `edit_id`, the group's name, the reviewer counts and the verdict hold the text the dumper wrote. |
| Codec.NumberReads | cbng_reviewer/libs/edit_set/dumper.py:77 | A number written with `str` reads back as that number. |
| Codec.ParsedTimes | cbng_reviewer/libs/edit_set/dumper.py:84-87 | The two times of a dumped edit are present and read back as their seconds. |
| Codec.ConversionByKeys | cbng_reviewer/libs/models/edit_set.py:42-52 | A dictionary with readable times, `edit_id`, the edit fields and some optional keys converts exactly when `is_vandalism` is there, and otherwise raises for that one missing field. |
| Codec.DumpedConversion | cbng_reviewer/libs/edit_set/dumper.py:108-111 | A dumped edit converts exactly when it is Done; any other edit has no isVandalism element and its conversion raises for that missing field. |
| Codec.ConvertedText | cbng_reviewer/libs/models/edit_set.py:42-52 | A converted record keeps the text of every key other than the namespace and the times. |
| Codec.ConvertedNamespace | cbng_reviewer/libs/edit_set/dumper.py:90-91 | A dumped namespace name reads back as itself, or as "main" when it is empty. |
| Codec.ConvertedTimes | cbng_reviewer/libs/models/edit_set.py:46-49 | Times written as numbers read back as those seconds. |
| Codec.DumpedRecord | cbng_reviewer/libs/edit_set/dumper.py:68-111 | The record read back from a dumped Done edit has the declared fields, the reviewer counts and the group's name when one was dumped; the id, counts and verdict are the dumper's text, and the times and namespace read back as written. |
| Codec.DumpedRecordTexts | cbng_reviewer/libs/edit_set/dumper.py:78-94 | Each text field of that record is the training data's value; an empty text reads back as None. |
| Codec.DumpedRevisions | cbng_reviewer/libs/edit_set/dumper.py:96-104 | The current revision reads back with its seconds, text and minor flag; the previous one has no minor element, so it reads back with minor false; a missing previous revision raises for its timestamp. |
| Codec.DumpedDelivers | cbng_reviewer/libs/edit_set/dumper.py:44-124 | From any point between edits, a dumped Done edit hands over its record and leaves a fresh context inside an edit. |
| Codec.RecordsOf | cbng_reviewer/libs/edit_set/parser.py:118-121 | One record per dumped Done edit. |
| Codec.FeedEdits | cbng_reviewer/libs/edit_set/parser.py:118-121 | A run of dumped Done edits hands over their records, one per element in order, and logs nothing as ignored. |
| Codec.FeedFraming | cbng_reviewer/libs/edit_set/parser.py:13-15 | The WPEditSet tags around the edits change nothing and are not logged. |
| Codec.ReadEditSet | cbng_reviewer/libs/edit_set/parser.py:111-126 | Reading a WPEditSet document of dumped Done edits returns True, hands over exactly one record per edit in document order, each the conversion of what that edit's element carries, and logs nothing. |
| Codec.ReadFramed | cbng_reviewer/libs/edit_set/parser.py:111-126 | Events that hand over some records and nothing else, framed by the set's tags, read as True with those records. |
| Rights.GroupCheck | cbng_reviewer/libs/auth/rights.py:16-34 | A group check passes exactly when the user is known and belongs to that group, and then gives that check's reason. |
| Rights.EditHistory | cbng_reviewer/libs/auth/rights.py:36-54 | The history check passes exactly when the user is known, the edit count is known and above 50, and the warning count is known and under a tenth of it; a failed lookup fails the check. |
| Rights.RatioTest | cbng_reviewer/libs/auth/rights.py:50-51 | The integer test `10 * warnings < edits` is the source's ratio test `warnings / edits < 0.10`. |
| Rights.FirstPassingIsFirst | cbng_reviewer/libs/auth/rights.py:60-70 | Access is refused exactly when every check fails; otherwise the reason is that of the first check that passes, and every earlier check failed. |
| Rights.ShouldHaveAccess | cbng_reviewer/libs/auth/rights.py:56-70 | The user is looked up once, and the answer is the first passing check in the order admin, reviewer, rollbacker, extended confirmed, edit history. |
| Rights.AccessOfUnknownUser | cbng_reviewer/libs/auth/rights.py:56-70 | A user with no local account is refused. |
| Rights.AccessOfSysop | cbng_reviewer/libs/auth/rights.py:26-29 | A sysop is admitted as an admin, before any slower check decides. |
| Rights.AccessGranted | cbng_reviewer/libs/auth/rights.py:56-70 | Access is granted exactly when the user is in one of the four groups or has the edit history. |
| Rights.ReviewersUntouched | cbng_reviewer/libs/auth/rights.py:72-81 | An existing reviewer is never promoted again, whatever `force` says; anyone else is promoted exactly when access is granted. |
| Rights.UserTable.Promote | cbng_reviewer/libs/auth/rights.py:72-85 | Only the user in question may change, and only to become a reviewer; the reason is returned exactly when that happens. |
| Rights.UserTable.ExecuteAsWritten | cbng_reviewer/libs/auth/rights.py:72-90 | A promotion is saved and then always ends in an exception from the notifier call; a call that promotes no one raises nothing. |
| Rights.UserTable.Execute | cbng_reviewer/libs/auth/rights.py:72-90 | With a notifier that accepts its arguments: no one but the user changes, a reviewer stays a reviewer, and each promotion relays one notice with its reason and the `notify_user` flag. |
| Rights.NotifierRejectsKeywords | cbng_reviewer/libs/utils.py:7 | The notifier `execute` imports takes no `notify_user` or `reason` parameter. |
| Statistics.StatusPartition | cbng_reviewer/libs/stats.py:16-18 | Each edit of a group is in exactly one of the three statuses, and excluding Done leaves Pending and Partial. |
| Statistics.DoneAsWrittenIsUnfinished | cbng_reviewer/libs/stats.py:18 | As written, `done` always equals pending plus in progress, however many edits are finished. |
| Statistics.DoneAsWrittenMissesFinishedEdit | cbng_reviewer/libs/stats.py:16-18 | A group whose only edit is Done is reported with zero edits done. |
| Statistics.GroupStatsAddUp | cbng_reviewer/libs/stats.py:16-18 | With `done` counting Done edits, the three counters add up to the number of edits in the group. |
| Statistics.EditGroupStatistics | cbng_reviewer/libs/stats.py:12-21 | Corrected: `done` counts the Done edits. There is one entry per group, keyed by the group's unique name, and every group is included even without edits. |
| Statistics.AccuracyOf | cbng_reviewer/libs/stats.py:36-39 | An accuracy is given exactly when more votes than the minimum are counted. |
| Statistics.CountsBounded | cbng_reviewer/libs/stats.py:24-34 | No more votes agree than are counted, and no more are counted than the user cast. |
| Statistics.AccuracyIsPercentage | cbng_reviewer/libs/stats.py:37 | The accuracy lies between 0 and 100. |
| Statistics.AllAgreeingIsFull | cbng_reviewer/libs/stats.py:37 | Agreeing on every counted vote gives an accuracy of 100. |
| Statistics.AccuracyExamples | cbng_reviewer/tests/libs/test_user_stats.py:154-220 | The accuracies of the repository's test cases: 100, 40 and 10 of 50 votes, none for 20 votes. |
| Statistics.SkippedNotCounted | cbng_reviewer/libs/stats.py:28-30 | A Skipped vote, or a vote on an edit classified Skipped, changes neither count. |
| Statistics.CalculateAccuracy | cbng_reviewer/libs/stats.py:23-39 | The loop's total is the number of counted votes, and its accuracy is the percentage of counted votes that agree with the edit. |
| Statistics.StatsOf | cbng_reviewer/libs/stats.py:48-61 | One reviewer's entry carries the admin flag and the historical plus stored classification count; the extended entry adds the counted votes and the accuracy. |
| Statistics.ExtendedOnlyAdds | cbng_reviewer/libs/stats.py:55-61 | The extended entry is the plain one plus the accuracy keys; its counted votes never exceed the stored classifications, and any accuracy is a percentage. |
| Statistics.UserStatistics | cbng_reviewer/libs/stats.py:41-63 | The entries are exactly the reviewers with at least one classification, historical or stored, keyed by username, each with that reviewer's entry. |
| Training.NamespaceNames | cbng_reviewer/libs/wikipedia/training.py:23 | The alternatives of the prefix pattern are the names of the name-to-id table, in its order. |
| Training.MatchedPrefix | cbng_reviewer/libs/wikipedia/training.py:23 | The anchored alternation matches the length of the first name that, in any case and followed by a colon, starts the title. |
| Training.MatchedPrefixSound | cbng_reviewer/libs/wikipedia/training.py:23-26 | The pattern fails exactly when no namespace name prefixes the title, and otherwise matches the length of one that does. |
| Training.StripPrefixOfStrips | cbng_reviewer/libs/wikipedia/training.py:26 | With colon-free names, a title prefixed by one of them loses exactly that prefix and its colon, and any other title is kept. |
| Training.Underscored | cbng_reviewer/libs/wikipedia/training.py:27 | Every space becomes an underscore, and every other character is kept. |
| Training.NamesColonFree | cbng_reviewer/settings.py:158-190 | No namespace name of the settings contains a colon. |
| Training.PrefixUnique | cbng_reviewer/libs/wikipedia/training.py:23 | Two names that both prefix a title are the same name, so the order in which the alternatives are tried does not matter. |
| Training.CleanPageTitleStrips | cbng_reviewer/libs/wikipedia/training.py:25-28 | A title prefixed by a namespace name and a colon, in any case, loses exactly that prefix; any other title keeps every character; then every space becomes an underscore. |
| Training.UnderscoredIdempotent | cbng_reviewer/libs/wikipedia/training.py:27 | Replacing spaces twice is replacing them once. |
| Training.CleanPageTitleShape | cbng_reviewer/libs/wikipedia/training.py:25-28 | A cleaned title has no space, is never longer, and is shorter only when a namespace prefix was stripped. |
| Training.CleanPageTitleKept | cbng_reviewer/tests/libs/test_wikipedia_training.py:14-16 | "HelloWorld" is kept as it is. |
| Training.CleanPageTitleSpaced | cbng_reviewer/tests/libs/test_wikipedia_training.py:17 | "Hello World" becomes "Hello_World". |
| Training.CleanPageTitleNoColon | cbng_reviewer/libs/wikipedia/training.py:25-28 | A title without a colon is only underscored. |
| Training.CleanPageTitleOfNamespaced | cbng_reviewer/libs/wikipedia/training.py:25-28 | A title written as the capitalised namespace name, a colon and the page's own name loses the namespace part. |
| Training.EditMetadata | cbng_reviewer/libs/wikipedia/training.py:30-59 | A title and namespace name are returned exactly when the id is not bad and a page with a known namespace id is listed; an unknown namespace id raises; anything else gives the pair of Nones. |
| Training.EditMetadataNamespace | cbng_reviewer/libs/wikipedia/training.py:59 | The namespace name handed back is lower case and leads back to the page's namespace id, so the later name-to-id lookups never fail. |
| Training.IsRevisionMinor | cbng_reviewer/libs/wikipedia/training.py:61-65 | A revision is minor exactly when it has a non-empty `minor` value. |
| Training.IsRevisionMinorExamples | cbng_reviewer/tests/libs/test_wikipedia_training.py:19-22 | No `minor` value is not minor, "1" is minor, and "" is not minor. |
| Training.FilterVisible | cbng_reviewer/libs/wikipedia/training.py:93-97 | What is kept is exactly the revisions whose text and user are both shown, in their order. |
| Training.FilterVisibleAppend | cbng_reviewer/libs/wikipedia/training.py:93-97 | Filtering distributes over concatenation. |
| Training.FilterVisibleAllShown | cbng_reviewer/libs/wikipedia/training.py:93-97 | A list of shown revisions is kept whole, so filtering again changes nothing. |
| Training.FilterVisibleSkips | cbng_reviewer/libs/wikipedia/training.py:93-97 | Hidden revisions before the first shown one are skipped. |
| Training.RevisionOrEmpty | cbng_reviewer/libs/wikipedia/training.py:104-123 | A listed revision with text becomes a record with its timestamp, user, comment, text and minor flag; one without text gives the empty record. |
| Training.PageRevisionsEmpty | cbng_reviewer/libs/wikipedia/training.py:88-100 | Without a page, or without a shown revision, both records are empty. |
| Training.PageRevisionsCurrent | cbng_reviewer/libs/wikipedia/training.py:102-112 | The current record comes from the first shown revision, whatever hidden revisions precede it. |
| Training.PageRevisionsPrevious | cbng_reviewer/libs/wikipedia/training.py:114-123 | The previous record comes from the second shown revision, with only hidden revisions between the two. |
| Training.FirstShown | cbng_reviewer/libs/wikipedia/training.py:93-97 | The first shown revision heads the filtered list. |
| Training.PageRevisionsSingle | cbng_reviewer/libs/wikipedia/training.py:114 | With one shown revision, the previous record is empty. |
| Training.PageRevisionsOfShown | cbng_reviewer/libs/wikipedia/training.py:93-125 | The hidden revisions do not matter: the answer is the one for the shown revisions alone. |
| Training.NamespaceId | cbng_reviewer/libs/wikipedia/training.py:143 | The lookup succeeds exactly when the lower-cased name is in the name-to-id table. |
| Training.PageRevisionsFilled | cbng_reviewer/libs/wikipedia/training.py:102-125 | Each record `get_page_revisions` gives is either empty or has its timestamp, user and text. |
| Training.WithPageFields | cbng_reviewer/libs/wikipedia/training.py:288-298 | The page step sets only the creator, creation time and revisions, and looks each up with the page's namespace id and cleaned title. |
| Training.BuildRaises | cbng_reviewer/libs/wikipedia/training.py:283-324 | Building raises exactly when the metadata names an unknown namespace id, or when the empty current revision is accepted as complete and its missing timestamp is then used. |
| Training.BuildUntitled | cbng_reviewer/libs/wikipedia/training.py:283-288 | Without a title and namespace, nothing but the metadata is looked up, and the record has only its id, title and namespace. |
| Training.BuildIdentity | cbng_reviewer/libs/wikipedia/training.py:283-324 | A built record keeps the edit id, takes its title and namespace from the metadata, and leaves the previous user and the verdict fields unset, whatever the lookups answer. |
| Training.BuildPage | cbng_reviewer/libs/wikipedia/training.py:288-298 | For a titled edit, the creation lookup uses the page's namespace id and cleaned title, and each revision is attached exactly when it is complete. |
| Training.BuildUser | cbng_reviewer/libs/wikipedia/training.py:300-311 | The user fields are set exactly when a current revision is attached: the user and comment are that revision's, and the user queries use its user and timestamp. |
| Training.WithRecentFields | cbng_reviewer/libs/wikipedia/training.py:313-322 | The recent counts are looked up over the window that ends at the current revision, with the page's namespace id and cleaned title. |
| Training.BeforeRecent | cbng_reviewer/libs/wikipedia/training.py:283-312 | The record the last step receives has the metadata's title and namespace, the final current revision, and no recent counts yet. |
| Training.BuildRecent | cbng_reviewer/libs/wikipedia/training.py:313-322 | The recent counts are set exactly for a titled edit with a current revision, over the fourteen days ending at that revision. |
| Training.BuildTrainingRow | cbng_reviewer/libs/edit_set/utils.py:13-29 | A training row made from a built record carries the namespace id and title of the page the API named, the current revision's time and user, and no previous user. |
| WpRecords.NewWpEdit | cbng_reviewer/libs/wikipedia/training.py:284 | A new record has only its id: no title, namespace or revisions. |
| WpRecords.TrainingRowColumns | cbng_reviewer/libs/edit_set/utils.py:13-29 | A created row stores the id of the record's namespace, the current revision's timestamp, the title, and the nullable previous user as given. |
| WpRecords.RevisionRowOf | cbng_reviewer/libs/edit_set/utils.py:31-48 | A revision row exists exactly when the revision has a timestamp and text, and it stores them with the minor flag; only a current row can carry the creation flag. |
| Store.RevisionKeysAfterRemoval | cbng_reviewer/management/commands/update_deleted_edits.py:46-47 | Once both revision rows of an edit are gone, no revision row points at the deleted edit. |
| Store.Store.SaveEdit | cbng_reviewer/libs/edit_set/utils.py:71 | Saving an existing edit replaces its row and changes no other table, keeping the unique constraints. |
| Store.Store.CreateEdit | cbng_reviewer/libs/edit_set.py:263-265 | Creating an edit under a new id adds its row and changes no other table. |
| Store.Store.GetOrCreateGroup | cbng_reviewer/libs/edit_set/utils.py:75 | The group found or created has that name and parent; a new group is created only when no group has the name, and a name taken under another parent raises with nothing changed. |
| Store.Store.DeleteVotes | cbng_reviewer/management/commands/update_deleted_edits.py:44 | Exactly the votes on the edit are removed, the rest in order. |
| Store.Store.DeleteTrainingData | cbng_reviewer/libs/edit_set/utils.py:12 | The edit's training row is removed and nothing else changes. |
| Store.Store.CreateTrainingData | cbng_reviewer/libs/edit_set/utils.py:13-29 | The edit's one training row is added and nothing else changes. |
| Store.Store.DeleteCurrentRevision | cbng_reviewer/management/commands/mark_edits_as_deleted.py:48 | The edit's current revision row is removed and nothing else changes. |
| Store.Store.DeletePreviousRevision | cbng_reviewer/management/commands/mark_edits_as_deleted.py:49 | The edit's previous revision row is removed and nothing else changes. |
| Store.Store.CreateCurrentRevision | cbng_reviewer/libs/edit_set/utils.py:33-39 | The edit's current revision row is added and nothing else changes. |
| Store.Store.CreatePreviousRevision | cbng_reviewer/libs/edit_set/utils.py:43-48 | The edit's previous revision row is added and nothing else changes. |
| Store.Store.ReplaceCurrentRevision | cbng_reviewer/libs/edit_set/utils.py:32-39 | The edit's current revision row is the new one, whatever was there, and nothing else changes. |
| Store.Store.ReplacePreviousRevision | cbng_reviewer/libs/edit_set/utils.py:42-48 | The edit's previous revision row is the new one, whatever was there, and nothing else changes. |
| Store.Store.DeleteRevisions | cbng_reviewer/management/commands/update_deleted_edits.py:46 | Both legacy revision rows of the edit are removed and nothing else changes. |
| Store.Store.CreateRevision | cbng_reviewer/libs/edit_set.py:188-203 | One legacy revision row of the given type is added and nothing else changes. |
| Store.Store.DeleteEdit | cbng_reviewer/management/commands/update_deleted_edits.py:47 | An edit without votes, which protect it, is removed with every row that cascades from it; groups, votes and notices stay. |
| Store.Store.Notify | cbng_reviewer/libs/edit_set/utils.py:98 | One deletion notice for the edit is appended and no table changes. |
| Store.Store.AddVote | cbng_reviewer/api/views.py:116 | The vote is appended, which keeps one vote per user and edit, and no other table changes. |
| LegacyEditSet.GenerateOutcome | cbng_reviewer/libs/edit_set.py:18-36 | Nothing is generated exactly when the TrainingData row or either Revision row is missing; otherwise an unknown namespace id raises, and every other edit is rendered. |
| LegacyEditSet.TopLevelOrder | cbng_reviewer/libs/edit_set.py:37-67 | The children of the legacy WPEdit come in one fixed order, without EditDB or ReviewInterface. |
| LegacyEditSet.BuiltContents | cbng_reviewer/libs/edit_set.py:52-67 | The namespace is named as the table spells it, isVandalism says whether the edit is classified as vandalism, and both revisions carry minor, timestamp and text. |
| LegacyEditSet.FromXml | cbng_reviewer/libs/edit_set.py:241 | The legacy conversion succeeds only when every leaf converts and both revision entries are present. |
| LegacyEditSet.FromXmlConverts | cbng_reviewer/libs/edit_set.py:241 | A gathered dictionary converts exactly when its leaves convert and both revision entries are there; each leaf keeps what its conversion gives it. |
| LegacyEditSet.MissingPreviousRaises | cbng_reviewer/libs/edit_set.py:241 | Without its previous block, a dictionary that has every leaf still fails, naming `previous`. |
| LegacyEditSet.RecentArgumentsUseUser | cbng_reviewer/libs/edit_set.py:124-140 | As written, the page counts are looked up for the page named after the user, not after the title, unless the two coincide. |
| LegacyEditSet.WithCount | cbng_reviewer/libs/edit_set.py:110-122 | One count step keeps a truthy value, else stores a truthy looked-up count, else rejects the record. |
| LegacyEditSet.WithPageCount | cbng_reviewer/libs/edit_set.py:124-140 | A recent-count step raises exactly when its attribute is falsy and the page query cannot be prepared: the lower-cased namespace is unknown or the title is missing. Otherwise it is the plain count step. |
| LegacyEditSet.FleshOut | cbng_reviewer/libs/edit_set.py:75-142 | Corrected: the recent counts are looked up with the record's title. Each attribute is looked up only when falsy, and a falsy lookup rejects the whole record. |
| LegacyEditSet.CompleteUntouched | cbng_reviewer/libs/edit_set.py:75-142 | A record with nothing to look up comes back unchanged. |
| LegacyEditSet.FleshOutFailures | cbng_reviewer/libs/edit_set.py:75-142 | Corrected: the recent counts are looked up with the record's title. A record with every attribute truthy is never rejected and never raises. A creation step whose page query cannot be prepared (an unknown lower-cased namespace or no title) raises before asking; a failed creation lookup rejects. Any exception comes from shaping the revisions or from such a page query. |
| LegacyEditSet.FleshOutFrame | cbng_reviewer/libs/edit_set.py:75-142 | A fleshed-out record keeps every attribute that no step writes. |
| LegacyEditSet.FleshOutKeepsUser | cbng_reviewer/libs/edit_set.py:103-122 | A truthy registration time, warning count or edit count is kept. |
| LegacyEditSet.FleshOutKeepsRecent | cbng_reviewer/libs/edit_set.py:124-140 | Truthy recent revert and edit counts are kept. |
| LegacyEditSet.FleshOutKeepsPage | cbng_reviewer/libs/edit_set.py:76-101 | The creation fields change only when one is falsy; the revisions and `prev_user` change only when the current revision lacks text or timestamp. |
| LegacyEditSet.FleshOutCreation | cbng_reviewer/libs/edit_set.py:76-82 | Falsy creation fields are filled from the creation metadata of the record's title and namespace. |
| LegacyEditSet.FleshOutRevisions | cbng_reviewer/libs/edit_set.py:84-101 | A current revision without text or timestamp is replaced by the page's newest shown revision; the previous one becomes the next shown revision, with its user as `prev_user`, or none. |
| LegacyEditSet.FleshOutRegistration | cbng_reviewer/libs/edit_set.py:103-108 | A falsy registration time comes from the user's registration. |
| LegacyEditSet.FleshOutUserCounts | cbng_reviewer/libs/edit_set.py:110-122 | Falsy warning and edit counts are the user's non-zero counts up to the record's final current revision. |
| LegacyEditSet.FleshOutRecentLookups | cbng_reviewer/libs/edit_set.py:124-140 | Falsy recent revert and edit counts are the page's non-zero counts for the title, namespace and time the record ends with (the corrected arguments). |
| LegacyEditSet.Chain | cbng_reviewer/libs/edit_set.py:75-142 | A fleshing out that succeeds passes through each step's record in turn. |
| LegacyEditSet.FleshOutEdit | cbng_reviewer/libs/edit_set.py:75-142 | Corrected: the recent counts are looked up with the record's title. Overwriting the record one step after another gives exactly the pure fleshing out. |
| LegacyEditSet.ClassificationOf | cbng_reviewer/libs/edit_set.py:67 | The dumped text stands for vandalism exactly when it is "true". |
| LegacyEditSet.FalseReadsAsVandalismAsWritten | cbng_reviewer/libs/edit_set.py:264 | As written, the non-empty text "false" is truthy, so a constructive edit is created as vandalism. |
| LegacyEditSet.ClassificationRoundTrip | cbng_reviewer/libs/edit_set.py:67 | What the legacy dump writes is read back as vandalism exactly when the edit was vandalism. |
| LegacyEditSet.NewImportedEdit | cbng_reviewer/libs/edit_set.py:263-265 | Corrected: the classification is vandalism exactly for the text "true". A created edit is Done, with the given id and that classification, in no group. |
| LegacyEditSet.IntColumn | cbng_reviewer/libs/edit_set.py:172-174 | An integer column holds the integer the text spells, or a looked-up count; anything else makes the insert raise. |
| LegacyEditSet.TimeColumn | cbng_reviewer/libs/edit_set.py:169 | Only a datetime gives a timestamp; any other value makes the insert raise. |
| LegacyEditSet.TextColumn | cbng_reviewer/libs/edit_set.py:170-171 | A required text column rejects a missing text. |
| LegacyEditSet.NamespaceColumn | cbng_reviewer/libs/edit_set.py:178 | The namespace column is the id of the lower-cased name, and an unknown name raises. |
| LegacyEditSet.RevisionRowOf | cbng_reviewer/libs/edit_set.py:188-203 | A Revision row exists exactly for a revision whose timestamp is a datetime and whose text is present. |
| LegacyEditSet.ImportStage | cbng_reviewer/libs/edit_set.py:165-203 | The ORM calls stop at the first row that cannot be built, having written the rows before it. |
| LegacyEditSet.ImportedTrainingDataRaises | cbng_reviewer/libs/edit_set.py:165-207 | The import raises exactly when one of its rows cannot be built. |
| LegacyEditSet.WriteImportFrame | cbng_reviewer/libs/edit_set.py:165-207 | Whatever rows are inserted, only the edit's own rows and its groups change. |
| LegacyEditSet.ImportedTrainingDataFrame | cbng_reviewer/libs/edit_set.py:165-207 | Whether or not it raises, the import touches only the edit's own rows and groups; every other edit and row, and the votes, groups, scores, notices and newer revision tables, stay. |
| LegacyEditSet.ImportedTrainingDataRows | cbng_reviewer/libs/edit_set.py:165-207 | An import that does not raise leaves the edit with the TrainingData row built from the record, exactly the Revision rows built from it, and the group among its groups. |
| LegacyEditSet.WriteImportIdempotent | cbng_reviewer/libs/edit_set.py:165-207 | Writing the same rows twice is writing them once. |
| LegacyEditSet.ImportedTrainingDataIdempotent | cbng_reviewer/libs/edit_set.py:205-207 | Importing the same record again changes nothing more; the group is added once. |
| LegacyEditSet.WriteImportRows | cbng_reviewer/libs/edit_set.py:166-207 | The ORM calls made in turn leave exactly the tables the pure import describes. |
| LegacyEditSet.ImportTrainingData | cbng_reviewer/libs/edit_set.py:165-207 | The rows built from the record, written in turn, leave the tables the pure import describes, and it raises exactly when the pure import does. |
| LegacyImport.StoreFieldStores | cbng_reviewer/libs/edit_set.py:301-313 | Corrected: a `user` leaf is stored under `user` only. An end event stores one entry: an accepted tag under its name, EditID and isVandalism under their mapped names, and any other tag nothing. |
| LegacyImport.UserOverwritesCommentAsWritten | cbng_reviewer/libs/edit_set.py:312-313 | As written, the end of `user` also replaces `comment` with the user name. |
| LegacyImport.CommentLostAsWritten | cbng_reviewer/libs/edit_set.py:310-313 | In the order the dump writes them, a comment followed by a user leaves the user name as the comment. |
| LegacyImport.Collect | cbng_reviewer/libs/edit_set.py:273-313 | Corrected: a `user` leaf is stored under `user` only. Revision leaves go to an open block, block ends convert the block into the edit, and other ends store the leaf; the conversion of a block may raise. |
| LegacyImport.CollectClosesBlock | cbng_reviewer/libs/edit_set.py:277-299 | The end of an open revision block stores its conversion in the edit and closes the block, and raises exactly when the conversion does. |
| LegacyImport.CollectRevisionLeaf | cbng_reviewer/libs/edit_set.py:273-289 | A revision leaf inside an open block goes to that block and nowhere else. |
| LegacyImport.CollectLeaf | cbng_reviewer/libs/edit_set.py:301-313 | Corrected: a `user` leaf is stored under `user` only. Outside the revision blocks, an end event stores the leaf in the edit and changes nothing else. |
| LegacyImport.EditIdOf | cbng_reviewer/libs/edit_set.py:243 | The lookup reads the id text as a positive integer, and fails for any other text. |
| LegacyImport.HandleSkipsTrained | cbng_reviewer/libs/edit_set.py:247-249 | On a partial run, an edit that already has training data is skipped before Wikipedia is asked anything. |
| LegacyImport.HandleStopsOnDeletion | cbng_reviewer/libs/edit_set.py:251-257 | Corrected: the verdict is the corrected deletion check. A deleted revision ends the whole import without an exception, after flagging an existing edit deleted; nothing else changes. |
| LegacyImport.HandleRaises | cbng_reviewer/libs/edit_set.py:240-268 | Corrected: the verdict is the corrected deletion check, and the fleshing out the corrected one. Handling raises exactly when the deletion check, the fleshing out or the import itself raises. |
| LegacyImport.ImportedEdit | cbng_reviewer/libs/edit_set.py:260-267 | Corrected: a new edit is vandalism exactly for the text "true". An import that does not raise leaves the rows built from the record for the edit. |
| LegacyImport.WriteImportKeepsOthers | cbng_reviewer/libs/edit_set.py:165-207 | The import's ORM calls keep every other edit and TrainingData row, whatever rows are inserted. |
| LegacyImport.ImportedFrame | cbng_reviewer/libs/edit_set.py:260-267 | Whether or not it raises, an import keeps every other edit and TrainingData row. |
| LegacyImport.HandleImports | cbng_reviewer/libs/edit_set.py:240-268 | Corrected: built on the corrected fleshing out and classification. An imported record leaves the edit in the group with the TrainingData row built from the fleshed-out record; a new edit gets status Done and is vandalism exactly when the dumped text is "true"; other edits keep their rows. |
| LegacyImport.FeedLast | cbng_reviewer/libs/edit_set.py:233 | One more event of the stream is one more turn of the loop. |
| LegacyImport.HaltedStays | cbng_reviewer/libs/edit_set.py:257 | Once the loop has returned or raised, later events change nothing. |
| LegacyImport.FeedConcat | cbng_reviewer/libs/edit_set.py:233 | Feeding two runs of events is feeding the second from where the first left off. |
| LegacyImport.HaltEndsImport | cbng_reviewer/libs/edit_set.py:251-257 | Once the loop halts, by a deleted revision or an exception, the outcome is fixed whatever events follow. |
| LegacyImport.SkipKeepsGathering | cbng_reviewer/libs/edit_set.py:247-249 | A skipped edit keeps its dictionary, and the loop keeps gathering into it until the next `<WPEdit>` starts a blank one. |
| LegacyImport.EmptyEditIgnored | cbng_reviewer/libs/edit_set.py:240 | A dictionary still empty at `</WPEdit>` is not handled, and the tables stay. |
| LegacyImport.ImportRecord | cbng_reviewer/libs/edit_set.py:261-267 | Corrected: a new edit is vandalism exactly for the text "true". On the store, a missing edit is created and the record imported, with the outcome of the pure import. |
| LegacyImport.HandleRecordOn | cbng_reviewer/libs/edit_set.py:243-267 | Corrected: built on the corrected deletion check, fleshing out and classification. On the store, handling a converted record leaves the tables and the outcome of the pure handling. |
| LegacyImport.HandleOn | cbng_reviewer/libs/edit_set.py:240-268 | Corrected: built on the corrected deletion check, fleshing out and classification. On the store, handling a gathered dictionary at `</WPEdit>` matches the pure handling. |
| LegacyImport.AdvanceOn | cbng_reviewer/libs/edit_set.py:233-313 | Corrected: built on the corrected deletion check, leaf store, fleshing out and classification. One turn of the loop on the store gives the pure turn's new variables, or its halt. |
| LegacyImport.CloseOn | cbng_reviewer/libs/edit_set.py:234-271 | Corrected: built on the corrected deletion check, leaf store, fleshing out and classification. The handling at `</WPEdit>` on the store and what the loop does next match the pure step. |
| LegacyImport.ImportToGroupOn | cbng_reviewer/libs/edit_set.py:209-313 | Corrected: composed of the corrected deletion check, leaf store, fleshing out and classification. The loop over the events, with its three variables and the store, leaves the tables of the pure import and raises exactly when it does. |
| LegacyWikipedia.HasRevisionBeenDeleted | cbng_reviewer/libs/wikipedia.py:69-139 | Corrected: a revision is deleted when either query reports a bad id or no title, and otherwise exactly when a compared revision carries a removal key. |
| LegacyWikipedia.DeletionFlagsAsWritten | cbng_reviewer/libs/wikipedia.py:130-139 | As written, the test never sees hidden text or suppression on the current revision. |
| LegacyWikipedia.HiddenTextMissedAsWritten | cbng_reviewer/libs/wikipedia.py:123-139 | As written, a lone revision with its text hidden is reported as not deleted. |
| LegacyWikipedia.FlagsSymmetric | cbng_reviewer/libs/wikipedia.py:123-128 | The corrected test does not depend on which of the two revisions is taken as current. |
| LegacyWikipedia.HasRevisionBeenDeletedFlags | cbng_reviewer/libs/wikipedia.py:119-139 | With revisions listed, the corrected verdict is whether one of the compared revisions has a removal key. |
| LegacyWikipedia.PageRevisions | cbng_reviewer/libs/wikipedia.py:295-355 | Corrected: the newest shown revision is current and the next one previous, also when only one is shown. Each is made into a record only when its text is present and not empty, and a record's text is never empty. |
| LegacyWikipedia.SingleRevisionRaisesAsWritten | cbng_reviewer/libs/wikipedia.py:332-346 | As written, a page with exactly one shown revision always raises. |
| LegacyWikipedia.PageRevisionsAgree | cbng_reviewer/libs/wikipedia.py:332-355 | The correction changes nothing unless exactly one revision is shown. |
| LegacyWikipedia.PageRevisionsKeyError | cbng_reviewer/libs/wikipedia.py:337-353 | A KeyError comes only from one of the first two shown revisions having non-empty text but no comment. |
| LegacyWikipedia.BlankCurrentHasNoRecord | cbng_reviewer/libs/wikipedia.py:337-344 | A blanked page, whose newest shown revision has empty text, gets no current record; with one shown revision it gets no record and raises nothing. |
| LegacyWikipedia.FetchEdit | cbng_reviewer/libs/wikipedia.py:357-364 | Corrected: built on the corrected revisions. An edit is returned only when the metadata names a page whose current revision has non-empty text, with the previous revision, possibly none. Untitled metadata gives nothing and an unknown namespace raises. |
| LegacyWikipedia.FetchEditRevisions | cbng_reviewer/libs/wikipedia.py:357-364 | A fetched edit carries exactly the shaped revisions of its page. |
| LegacyWikipedia.RowsFor | cbng_reviewer/libs/wikipedia.py:541-582 | The lookups run in order and the rows exist exactly when every lookup answers. |
| LegacyWikipedia.RevisionsAfterKeys | cbng_reviewer/libs/wikipedia.py:603-619 | The Revision rows written for an edit are its own and no one else's. |
| LegacyWikipedia.WriteRows | cbng_reviewer/libs/wikipedia.py:584-619 | Once every lookup has answered, the edit's TrainingData row and Revision rows are replaced, the previous row only when there is a previous revision, and nothing else changes. |
| LegacyWikipedia.CreateTrainingDataForEdit | cbng_reviewer/libs/wikipedia.py:531-619 | Corrected: built on the corrected revisions. Nothing is written unless the edit is fetched and every lookup answers; then the edit's rows are replaced as written. It raises exactly when the fetch does. |
| LegacyWikipedia.TrainingRowsGuard | cbng_reviewer/libs/wikipedia.py:531-582 | Corrected: built on the corrected revisions. Rows are written exactly when the edit is fetched, so its page has a current revision with non-empty text, and every later lookup answers. |

## Left out

- HTTP calls to the Wikipedia and Meta APIs and SQL queries against the replica are not modelled. Their answers are parameters: one function per query, taking exactly that query's arguments.
- Login, CSRF tokens, user messages, the statistics page, sampled edits and central ids in `libs/wikipedia.py` are left out. They are network I/O with no decision logic beyond the request.
- `download_and_import_to_group` (`libs/edit_set.py:144-163`) is left out because it only downloads a file. `import_to_group`, which it calls, is modelled.
- The thread pools of the management commands run their items in sequence here. Each item is still attempted, and an item's exception does not stop the others.
- The IRC relay and the mail sender are modelled as a list of notices appended to the store.
- `random.choice` in next-edit selection is a nondeterministic pick (`:|`) from the preferred candidates.
- Floats become rationals, except the scores (see `Dumper.ScoresContents` below). The accuracy is `real` arithmetic, and the rights ratio is `10 * warnings < edits`, proved equal to the division test.
- Dates become integer seconds. `strftime("%s")`, `fromtimestamp` and `fromisoformat` are the identity on those seconds, so time zones are not modelled.
- The iterparse tokenizer, which turns bytes into events, is not modelled. The parsers read a sequence of events, each carrying its element's final text.
- A malformed file is given as a flag on the event stream.
- `ET.indent` and `ET.tostring` are modelled on the element datatype, for the forms the dumper uses.
  - The monkey-patching of `ET._escape_cdata` is a field of an `ElementTreeModule` object. It is swapped and then restored.
  - `LegacyEditSet.GenerateWpEdit` renders an element with no text and no children as `<tag></tag>`. The legacy dumper uses `tostring`'s default short form, `<tag />`, for such elements, for instance a `prev_user` of None.
- `Edit.update_classification`, `update_training_data_flag` and `has_complete_training_data` are called but not defined in the code.
  - Completeness is a parameter, one value per record or revision. The model assumes only that a record counts as complete when its TrainingData row can be built, and a revision when it has a timestamp and a text (`CompletenessSound` in `wp_records.dfy`). `EditSetUtils.ImportTrainingData` requires it, and the import command requires it of every record its builder returns (`BuildSound`).
  - The training-data flag update is not modelled: `EditSetUtils.ImportTrainingData` leaves `hasTrainingData` as it was.
  - The legacy import does not update the flag either.
- The record dataclasses are given the fields their callers read, not the ones `libs/models/edit_set.py` declares.
- Revisions are stored with `isCreation` false, because nothing in the code sets `is_creation` on a `WpRevision`.
- `Training.IsRevisionMinor` returns the truthiness of the raw `minor` value, while the source returns the raw value itself. Only its truthiness is used afterwards.
- `LegacyImport.EditIdOf` reads only positive integer ids. An id that is zero, negative or not a number fails the lookup, whereas Django would either raise or look it up.
- `LegacyImport.ImportToGroupOn` keeps a skipped edit's dictionary as gathered. The source's conversion has already overwritten its times in place, and it is discarded at the next `<WPEdit>` either way.
- `LegacyEditSet.FleshOutEdit` updates a record value. The source mutates a `WpRevision` object that may be shared, and that aliasing is not modelled.
- `Strings.Lower` and `Strings.Capitalize` case-map only the ASCII letters. Python maps every cased character: `lower()` turns U+212A (Kelvin sign) into "k", so a namespace "Tal\u212A" would find "talk" at `libs/edit_set/utils.py:24`, and it turns "İ" into two characters. Unicode case tables are not modelled.
- `EditSetParser.TimeField` reads a number with `Strings.ParseInt`, which accepts only an optional sign followed by ASCII digits. Python's `int()` also strips surrounding whitespace and accepts underscores between digits and non-ASCII decimal digits. So " 5", "1_0" and "\u0665" raise in the model where the source reads a number.
- `LegacyEditSet.IntColumn` has the same restriction on the texts Django's integer conversion accepts.
- `Dumper.ScoresContents` and `Dumper.GenerateWpEdit` hold the scores as integers. The source's scores are floats (`libs/core.py:15` and `:41`), and `str()` renders them as text such as "0.87". Which score elements appear (non-null, non-zero values) is modelled; the float values and their text are not.
- `Xml.UnescapeFullEscape` decodes entities only. ElementTree writes carriage returns and C0 control characters raw, but a conforming parser turns "\r\n" and a lone "\r" into "\n" (section 2.11 of XML 1.0) and rejects most C0 controls (section 2.2 of XML 1.0). Texts holding such characters do not survive the dump and parse round trip. The round trip of `Codec.ReadEditSet` is stated on parse events, which the tokenizer is assumed to produce with the dumped texts.
- `Statistics.EditGroupStatistics` reports the corrected `done` counter, the Done edits, and not the `exclude(status=2)` of `libs/stats.py:18`. The as-written counter is under "## Findings".
- `LegacyEditSet.NewImportedEdit` classifies a new edit as vandalism exactly for the text "true", not by the truthiness test of `libs/edit_set.py:264`. `LegacyImport.Creating` uses it.
- `LegacyEditSet.FleshOut` and `LegacyEditSet.FleshOutEdit` look up the recent counts for the record's title, not the user name `libs/edit_set.py:124-140` passes.
- `LegacyImport.Collect` and `LegacyImport.CollectLeaf` store a `user` leaf under `user` only, not also under `comment` as `libs/edit_set.py:312-313` does.
- `LegacyImport.HandleImports`, `LegacyImport.HandleRecord` and `LegacyImport.ImportToGroupOn` are built from the corrected pieces above and the corrected `LegacyWikipedia.HasRevisionBeenDeleted`. They compute the intended import, not `libs/edit_set.py:209-313` as written: a new edit dumped with comment "typo", user "Alice" and isVandalism "false" is imported with comment "typo" and as constructive, where the source stores "Alice" and vandalism. Each as-written piece has its own member under "## Findings".
- `LegacyWikipedia.PageRevisions`, `LegacyWikipedia.FetchEdit`, `LegacyWikipedia.CreateTrainingDataForEdit` and `LegacyWikipedia.TrainingRowsGuard` use index 0 for the current revision also when only one revision is shown. The source raises IndexError there (`libs/wikipedia.py:332-346`).
- `LegacyImport.ImportRecord`, `LegacyImport.HandleRecordOn`, `LegacyImport.HandleOn`, `LegacyImport.AdvanceOn`, `LegacyImport.CloseOn`, `LegacyImport.StoreFieldStores`, `LegacyImport.HandleStopsOnDeletion`, `LegacyImport.HandleRaises` and `LegacyImport.ImportedEdit` state the corrected code too. They use the corrected deletion check, the `user` leaf stored under `user` only, the recent counts looked up by title and the "true"-only classification, as the line above says.
- `LegacyEditSet.FleshOutFailures` states the failures of the corrected fleshing out, whose recent counts are looked up with the title. As written, `libs/edit_set.py:129-140` prepares those two queries from the user name, so their preparation raises when the user name, rather than the title, is not text.
- `LegacyWikipedia.HasRevisionBeenDeleted` is the corrected check: it tests `texthidden`, `userhidden` and `suppressed` on both compared revisions. As written, `libs/wikipedia.py:130-139` tests `"current_revision"` instead of `texthidden` on the current revision and `suppressed` twice on the previous one, so a lone revision with hidden text is reported live. The as-written check is under "## Findings". `LegacyImport` uses the corrected check. `Retention` takes the deletion lookup's answer as a parameter, so its lemmas hold whichever check the commands call: the as-written one that `management/commands/update_deleted_edits.py:33` calls, and the `WikipediaReader.has_revision_been_deleted` that `management/commands/mark_edits_as_deleted.py:33` and `management/commands/update_edit_deletion.py:25` call (`libs/wikipedia/reader.py` is not part of this model).
- `Retention.UpdateDeletedEditsPolicy`, `Retention.UpdateDeletedEditsItem` and `Retention.Handle` read the revision filter of `update_deleted_edits.py:27` as `type=0`. As written, `filter(type__in=0)` raises TypeError for every edit whose revision is deleted, before anything changes. That case is `Retention.UpdateDeletedEditsAsWrittenChangesNothing` under "## Findings".
- `EditSetUtils.ImportedReview`, `EditSetUtils.UpsertEdit` and `EditSetUtils.ImportWpEditToEditGroup` take the typed record of `wp_records.dfy`: `isVandalism` a boolean, the edit id and the reviewer counts integers, the revisions records. `WpEdit.from_xml` (`libs/models/edit_set.py:42-52`) converts only the times and the namespace, so the parser's records still hold these as text and dictionaries, and its callers (`management/commands/setup_with_historical_data.py:117-162`) pass them on unconverted. On such a record `libs/edit_set/utils.py:63` tests the text: "false" is truthy, so a constructive edit is imported as vandalism, the bug `LegacyEditSet.FalseReadsAsVandalismAsWritten` shows for the legacy import. The model states the import of the typed record that `WpEdit`'s annotations declare (`libs/models/edit_set.py:22-40`) and that `tests/libs/test_editset_parser.py:57-76` expects the parser to deliver. No code in the repository builds such a record for these functions: `tests/libs/test_editset_utils.py:12-27` and `:29-44` hand them the parser's records of `complete.xml` and `incomplete.xml`. Read as written, `:26` then expects classification 1, which needs the `isVandalism` element of `complete.xml` to have no text, and `:43` expects 0, which any non-empty text gives, "false" included. Those data files are not part of this model, so whether the two tests agree with the code is not decided here.
- `ReviewApi.StoreEditClassification` and `ReviewApi.StoredComment` take the classification as an integer and the comment as text. In `api/views.py:103-104` a JSON `true` passes the `in CLASSIFICATION_IDS` test, because `True == 1`, and is stored as 1. A JSON `null` comment reaches `comment.strip()` at `api/views.py:112-113` and raises AttributeError, an HTTP 500. Non-integer and null request values are not modelled.
- `EditSetParser.ReadFile` always hands records to the callback. With no callback the source hands over nothing, and the returned value is the same.
- `Statistics.UserStatistics` returns a map. The source's dictionary is in username order, and that order is not modelled.
- Four repository tests disagree with the code they cover. The model follows the code:
  - `tests/libs/test_editset_dumper.py:70` expects a `reviewStatus` element and no EditDB;
  - `tests/libs/test_group_stats.py:30` expects a `partial` key where the code writes `in_progress`;
  - `tests/libs/test_user_stats.py:77-105` counts votes on edits that are not done;
  - `tests/libs/test_editset_parser.py:57-76` expects the parsed edit id and counts to be integers, `is_vandalism` to be `False` and `current` to be a revision object. `WpEdit.from_xml` leaves them as the text and the dictionary the parser gathered.
- The ORM-only management commands, the UI, the OAuth pipeline, task queue, signal hooks, metrics and configuration loading are not part of this model.
- `libs/wikipedia/reader.py` and `libs/wikipedia/management.py` are not part of this model. The answers they give are parameters.

## Findings

| source | as written | input that shows it | evidently intended | confidence | as-written member | corrected member |
|---|---|---|---|---|---|---|
| cbng_reviewer/libs/stats.py:18 | `done` counts `exclude(status=2)`, the edits that are not done | a group whose only edit is Done reports `done` 0 | `filter(status=2)`, so the three counters add up to the group's edits | not executed | Statistics.DoneAsWrittenMissesFinishedEdit | Statistics.GroupStatsAddUp |
| cbng_reviewer/libs/auth/rights.py:88-90 | imports the `libs/utils.py` notifier, which takes only `user`, and passes it `notify_user` and `reason` | any user who is promoted: the save happens, then the call raises TypeError | the `libs/auth/notifications.py` notifier, which takes both keywords | not executed | Rights.UserTable.ExecuteAsWritten | Rights.UserTable.Execute |
| cbng_reviewer/libs/wikipedia.py:130-139 | tests `"current_revision"` instead of `"texthidden"` on the current revision, and tests `"suppressed"` twice on the previous one | a lone listed revision with `texthidden` reports not deleted | test texthidden, userhidden and suppressed on both revisions | not executed | LegacyWikipedia.HiddenTextMissedAsWritten | LegacyWikipedia.HasRevisionBeenDeletedFlags |
| cbng_reviewer/libs/wikipedia.py:332-346 | with one shown revision `current_offset` is 1 | a page whose only shown revision is the edit raises IndexError | index 0 whenever the list is non-empty | not executed | LegacyWikipedia.SingleRevisionRaisesAsWritten | LegacyWikipedia.PageRevisionsAgree |
| cbng_reviewer/management/commands/update_deleted_edits.py:27 | `filter(type__in=0)` hands an integer to an `__in` lookup | any edit whose revision is deleted: the lookup raises TypeError before anything changes | `type=0` | not executed | Retention.UpdateDeletedEditsAsWrittenChangesNothing | Retention.UpdateDeletedEditsCorrectedRemoves |
| cbng_reviewer/libs/edit_set.py:124-140 | the recent revert and edit counts are looked up with `wp_edit.user` as the page title | a record whose user is "Alice" and title is "Foo" counts the edits of page "Alice" | `wp_edit.title` | not executed | LegacyEditSet.RecentArgumentsUseUser | LegacyEditSet.FleshOutRecentLookups |
| cbng_reviewer/libs/edit_set.py:264 | `0 if wp_edit.is_vandalism else 1` tests the raw text, and "false" is truthy | a dumped constructive edit (`isVandalism` "false") is created as vandalism | vandalism exactly for the text "true" | not executed | LegacyEditSet.FalseReadsAsVandalismAsWritten | LegacyEditSet.ClassificationRoundTrip |
| cbng_reviewer/libs/edit_set.py:312-313 | the `user` case stores the user's text under `comment` | a dump with comment "typo" and user "Alice" imports comment "Alice" | `current_edit["user"] = elem.text`, which the line above already does | not executed | LegacyImport.CommentLostAsWritten | LegacyImport.StoreFieldStores |

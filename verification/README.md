# Vandalizer maintenance scripts: a model and its proofs

The scripts modelled here change production data in place: a database migration with backups and
a rollback, the life cycle of the verified catalog, a scanner that joins JavaScript calls with
server routes, the splitting of regulation chapters into sources, and some smaller ones. The model
is written in the form of the scripts: loops that update are methods, objects that are updated are
classes, and each method is proved against a function; the lemmas say what those functions
guarantee together. `dafny verify dfyconfig.toml` checks everything.

## What is proved

**Flask to Beanie migration** (`Mongo`, `Conversion`, `Migration`, `References`, `MigrationRun`,
`MigrationFacts`, `Rollback`, `Idempotence`, `SecondRun`, `Verifier`, `Verdict`, `Conservation`,
`Outcomes`, `FieldsKept`, `FullRun`). A database is a map from collections to documents that logs
each bulk write (`update_many`, `delete_many`, `rename`, `bulk_write`) as one step. All phases
together are shown to be one rule per document. On that: a rollback from any prefix of a run
restores every collection that the migration names exactly when no renamed collection had documents
under both its names; a second run changes nothing exactly when the first met no document that it
gave the owner "unknown" while a user goes by that name; phase 5 is silent exactly when everything
could be resolved beforehand, and each of its counts is foretold; no document is lost but the
unsupported kinds, and no team ever changes. What becomes of teams, references, kinds and
identifiers is told field by field from the database before the run, and everything else stays
(`Outcomes`, `FieldsKept`). `FullRun.Run` states this of the whole script.

**Default teams** (`DefaultTeams`, `Pipeline`). Who gets a team, that a second run does nothing,
and which documents both scripts together leave without a team.

**Call scanner and route join** (`Scanner`, `HangingScans`, `CallScanner`, `UrlShape`,
`UrlTemplates`, `Join`). Literals with escapes, nested interpolations and nested template literals
are printed from a grammar and read back anywhere in a text, and only such literals are read; the
same for the arguments of a call; and exactly the texts on which the scanner never comes back are
given in terms of the same grammar. The pattern match on whole urls is a match segment by segment,
and the join is complete.

**Verified catalog** (`Catalog`, `CatalogFacts`, `CatalogExact`, `CatalogTurns`, `CatalogTitles`,
`CatalogSeeded`, `CatalogPreview`, `CatalogTwice`, `CatalogAside`, `CatalogStore`, `Versions`).
Seeding, pruning and previewing over five stores. What each seed finds when its turn comes is told
from the rows at the start (`CatalogTurns`), and from that exactly when the catalog equals the seed
files afterwards, when a seed keeps its row, what is created, what of it the preview did not
announce, and when a second seeding changes nothing. What a prune retires is told by the rows' own
fields, and the rows of users are left alone with all that belongs to them. Release versions only
move up and are offered to every earlier server.

**Regulation sources** (`ChapterRepair`, `ChapterFacts`, `ChapterTexts`, `RepairReport`,
`RepairRun`, `EcfrUrls`, `ChapterWalk`, `EcfrText`, `EcfrLines`, `EcfrLayout`, `EcfrExtracts`).
Over any number of runs in which anything may fail, a chapter source stays as it is or is replaced
by sources for all its parts, and which of these hold their text is told from what was written to
them last; rebuilt urls read back; the text of a document is its blocks, one a line and every
visible character of them, and the extracts of a part add up to it.

**Smaller cores**: merged configurations on a heap of dictionaries (`ConfigTree`, `ConfigStore`),
adoption of orphaned workflows while others write (`Adoption`), copying files (`FileCopy`).

`Wrappers`, `Ids` and `Texts` hold what several of these share. In the longer inductions a `hide`
statement keeps definitions folded that the step does not need.

## What the proofs brought up

- Rollback: with documents under both the old and the new name of a renamed collection, the later
  of two restores drops the first one (`RollbackTheorem.ClashLosesDocuments`). A rollback that is
  interrupted just after it has dropped the newer one, and run again, does not: the names are read
  anew, and it is not dropped a second time (`RollbackTheorem.ResumedIff`).
- Second run: phase 4b names the owner "unknown" after phase 4a has looked owners up, so a user of
  that name makes a second run assign teams (`Idempotence.DocTwice`,
  `SecondRun.UnknownUserGetsDocuments`).
- Scanner: a template literal that is opened inside an interpolation, or any literal among the
  arguments of a call, and that is no literal, is scanned forever, and nothing else is
  (`HangingScans.ReadStuckIff`, `HangingScans.SpanHangsIff`). The model returns `Stuck` or `Hangs`
  where the original loops.
- Join: a pair of urls with a parameter of each side facing a fixed name of the other is not
  joined, because one side as a whole has to describe the other (`UrlTemplates.JoinedIffFits`,
  `UrlTemplates.CrossedParameters`).
- Catalog: a knowledge base that one seed has stamped and whose title is a later seed's is taken
  over, and the first seed drops out until the next run (`CatalogTwice.CrossedRowLosesASeed`);
  `CatalogTitles.MatchesManifestIff` says for which rows exactly that happens. Search sets are
  not affected, because a refresh rewrites their titles. The next run seeds it again, so that
  seeding twice is not seeding once (`CatalogTwice.SeedTwiceIff`, `CatalogTwice.CrossedRowSeedsAgain`).
- Catalog: the preview takes a seed for installed whose id is on a verified row, also when an
  earlier seed is going to take that row over by its title; the upgrade then creates the seed
  unannounced (`CatalogPreview.UnannouncedIff`, `CatalogPreview.CreatedUnannounced`). Knowledge
  bases and search sets are affected, workflows never.
- Chapter repair: the broken sources are read once, before a run changes anything. A chapter's
  split may fill the source of a part that is also on that list; when the part's own repair then
  fails, the copy read at the start is saved whole and the text is gone, with the chapter already
  deleted (`ChapterTexts.StaleCopyLosesText`). The part is in error then, so a later run finds it.
- Catalog: a bookmark of a user that seeding had listed in the verified library, for want of
  another library item, stays listed when the row is retired (`CatalogTwice.ListedAfterRetiring`).
- Versions: two different versions of which one is not numeric are each newer than the other
  (`Versions.BothNewerIff`).

## Model

| member | source | states |
|---|---|---|
| `Backups.Phase1Backups` | backend/migrate_flask_to_beanie.py:255-287 | every collection that the migration names, that is there and not empty gets a backup with exactly its documents, and nothing else changes |
| `Backups.BackupCollection` | backend/migrate_flask_to_beanie.py:116-135 | nothing is written for an empty collection |
| `Backups.Rollback` | backend/migrate_flask_to_beanie.py:1063-1103 | the state after a rollback, name by name in the manifest's order; a dry run, or no manifest, changes nothing |
| `RollbackTheorem.RollbackFromAnyPoint` | backend/migrate_flask_to_beanie.py:1084-1103 | after any prefix of the writes of phases 2-4, a rollback gives back exactly the documents of every collection that the migration names, if and only if no renamed collection had documents under both its names |
| `RollbackTheorem.SecondRollback` | backend/migrate_flask_to_beanie.py:1084-1103 | a second rollback changes nothing |
| `RollbackTheorem.ResumedRollback` | backend/migrate_flask_to_beanie.py:1077-1100 | a rollback that is interrupted between two collections and run again ends where it would have ended |
| `RollbackTheorem.ResumedIff` | backend/migrate_flask_to_beanie.py:1077-1100 | interrupted after any of the drops of one collection and run again, it ends where it would have ended, if and only if it had not just dropped the newer collection of a clash |
| `RollbackTheorem.ClashLosesDocuments` | backend/migrate_flask_to_beanie.py:1090-1095 | a witness: with documents under both names of one renamed collection, the rollback of an untouched database loses the newer collection |
| `Migration.SetDefaults` | backend/migrate_flask_to_beanie.py:138-156 | each default is filled in where the field is missing and nowhere else, for all fields of the loop together |
| `Migration.UnsetFields` | backend/migrate_flask_to_beanie.py:159-177 | the fields are gone from every document, whichever of them it had |
| `Migration.Phase2Renames` | backend/migrate_flask_to_beanie.py:294-312 | the loop of renames leaves each collection under its new name, or both where both were there |
| `Migration.RenamedOnes` | backend/migrate_flask_to_beanie.py:50-54 | a renamed collection holds the documents that it had under its new name, if it was there, and else those under its old one |
| `Migration.Phase3ClsRemoval` | backend/migrate_flask_to_beanie.py:319-338 | `_cls` is gone from every live collection; backups and internal collections are not touched |
| `Migration.AssignTeams` | backend/migrate_flask_to_beanie.py:367-382 | the loop of updates over the user map gives each document without a team the team of its own user, in whatever order the map is iterated |
| `Migration.SettleTeams` | backend/migrate_flask_to_beanie.py:384-398 | what is left gets the default team when one is given |
| `Migration.Phase4aSpaces` | backend/migrate_flask_to_beanie.py:357-417 | phase 4a on the whole database is the per-document rule on every collection it names |
| `Migration.CopyMissing` | backend/migrate_flask_to_beanie.py:452-470 | `path` is copied to `downloadpath` exactly where the latter is missing |
| `Migration.Phase4bNewFields` | backend/migrate_flask_to_beanie.py:424-528 | phase 4b on the whole database is the per-document rule on every collection it names |
| `ReferencePhases.ItemChange` | backend/migrate_flask_to_beanie.py:593-626 | what one library entry is updated with: its id and kind, or nothing for an empty or unreadable `obj` or an unknown kind |
| `ReferencePhases.MigrateLibraryItems` | backend/migrate_flask_to_beanie.py:553-664 | unsupported entries are deleted, every other one is rewritten as the per-document rule says |
| `ReferencePhases.MigrateKbSources` | backend/migrate_flask_to_beanie.py:667-721 | each knowledge-base source gets the uuid of its base, or an empty one, and the crawl fields, and loses the references |
| `ReferencePhases.MigrateVerificationRequests` | backend/migrate_flask_to_beanie.py:724-811 | unsupported requests are deleted; each other one gets the id that its identifier spells, or that of the search set with that uuid |
| `ReferencePhases.MigrateVerifiedCollections` | backend/migrate_flask_to_beanie.py:814-847 | `items` becomes a list of id texts, and `featured` is filled in |
| `ReferencePhases.MigrateVerifiedItemMetadata` | backend/migrate_flask_to_beanie.py:850-893 | `item_identifier` becomes `item_id`, and old kinds are renamed |
| `ReferencePhases.Phase4cReferences` | backend/migrate_flask_to_beanie.py:535-540 | phase 4c on the whole database is the per-document rule on each of its five collections |
| `ReferencePhases.DereferenceFields` | backend/migrate_flask_to_beanie.py:922-947 | the DBRef fields of a collection hold plain ids afterwards, unreadable references excepted |
| `ReferencePhases.Phase4dCleanup` | backend/migrate_flask_to_beanie.py:547-548 | phase 4d on the whole database is the per-document rule: no `sources` on knowledge bases, plain ids for DBRefs |
| `MigrationRun.ReadUserTeams` | backend/migrate_flask_to_beanie.py:206-217 | every mapped user has the team of one of its documents or the default, and every user with a team is mapped; `Outcomes.TeamStored` says which value that is |
| `MigrationRun.Phase0Preflight` | backend/migrate_flask_to_beanie.py:184-248 | the counts and maps that the run works with are those of the database it starts from |
| `MigrationRun.StagesCompose` | backend/migrate_flask_to_beanie.py:319-548 | phases 3 to 4d, one bulk phase after the other, rewrite the database as one rule per document |
| `MigrationRun.MigratedAt` | backend/migrate_flask_to_beanie.py:345-548 | a document is kept exactly when it is not of an unsupported kind, and then holds what the per-document rule says |
| `MigrationRun.SearchSetsBeforeReferences` | backend/migrate_flask_to_beanie.py:761-766 | phases 3 to 4b leave the search sets' uuids alone, so requests are resolved as at the start |
| `MigrationFacts.TeamNeverChanges` | backend/migrate_flask_to_beanie.py:367-398 | a `team_id` that is there is never changed |
| `MigrationFacts.TeamOfItsOwner` | backend/migrate_flask_to_beanie.py:367-398 | a document without one gets its user's team, else the default, else none |
| `Outcomes.ReadAsReference` | backend/migrate_flask_to_beanie.py:99-113 | what a value refers to: an id, a DBRef, or a sub-document with `$id`, or with a reference under `_ref` |
| `Outcomes.TeamStored` | backend/migrate_flask_to_beanie.py:199-217 | a team-scoped document without a team ends with the uuid of its owner's current team, or the text of that team's id where it has none; where no team document is found, with the default, if one is given, and else without |
| `Outcomes.ChangedIsNamed` | backend/migrate_flask_to_beanie.py:62-92 | to a collection that the migration does not name a run does nothing but take `_cls` off its documents; so whatever else it changes has a backup |
| `FieldsKept.OtherFieldsStay` | backend/migrate_flask_to_beanie.py:319-548 | a document keeps every field but those listed as dropped, and every value but those listed as rewritten |
| `FieldsKept.AddedFields` | backend/migrate_flask_to_beanie.py:424-528 | outside the five reference collections a field that appears is a team, a download path taken from the path, or a default of phase 4b |
| `FieldsKept.DefaultsAreEmpty` | backend/migrate_flask_to_beanie.py:424-528 | the defaults are empty values, apart from the owner "unknown", the set type "extraction" and the time |
| `Outcomes.ItemsDeleted` | backend/migrate_flask_to_beanie.py:564-585 | library entries are deleted exactly if their kind is prompt or formatter, or their class that of search-set items |
| `Outcomes.ItemOutcome` | backend/migrate_flask_to_beanie.py:587-636 | a readable library entry without `item_id` gets that of what it refers to, and the kind of its class, else its own kind under its new name; any other keeps what it has |
| `Outcomes.ItemCreated` | backend/migrate_flask_to_beanie.py:645-664 | a creation time is kept, or else taken from `added_at` |
| `Outcomes.SourceOutcome` | backend/migrate_flask_to_beanie.py:667-721 | a source that refers to a knowledge base gets its uuid, an empty one where there is none; any other keeps what it has |
| `Outcomes.RequestsDeleted` | backend/migrate_flask_to_beanie.py:732-742 | requests are deleted exactly if their kind is prompt or formatter |
| `Outcomes.RequestOutcome` | backend/migrate_flask_to_beanie.py:744-811 | a request gets the id that its identifier parses to, or that of the first search set with this uuid if it asks for one; any other keeps what it has |
| `Outcomes.CollectionOutcome` | backend/migrate_flask_to_beanie.py:814-847 | a verified collection without `item_ids` gets the text forms of its items, in order; it is featured only if it was |
| `Outcomes.MetadataOutcome` | backend/migrate_flask_to_beanie.py:850-893 | metadata without `item_id` get the identifier as it is, and the old kind its new name |
| `Outcomes.ReferenceOutcome` | backend/migrate_flask_to_beanie.py:907-947 | a reference in the old form becomes the id that it refers to; every other value stays |
| `Outcomes.SpaceOutcome` | backend/migrate_flask_to_beanie.py:384-417 | `space` is gone from the seven collections of phase 4a and stays everywhere else |
| `Outcomes.PathOutcome` | backend/migrate_flask_to_beanie.py:452-470 | a download path is kept, or else taken from the path |
| `Outcomes.OldFieldsGone` | backend/migrate_flask_to_beanie.py:319-548 | `_cls` is gone, and so are the fields without a successor |
| `Idempotence.RefsTwice` | backend/migrate_flask_to_beanie.py:553-893 | phase 4c leaves its own results alone, whatever else a second run knows |
| `Idempotence.DocTwice` | backend/migrate_flask_to_beanie.py:345-548 | one document is the same after a second run, unless 4b gave it the owner "unknown", a user goes by that name and it has no team |
| `SecondRun.SecondRunChangesNothing` | backend/migrate_flask_to_beanie.py:345-548 | a second complete live run changes no collection, backups apart, if and only if the first one met no scoped document without team and owner while a user went by "unknown" and no default team was given |
| `SecondRun.UnknownUserGetsDocuments` | backend/migrate_flask_to_beanie.py:345-548 | a witness: with a user called "unknown" and a document without owner and team, a second run changes the database |
| `Verifier.Phase5Verify` | backend/migrate_flask_to_beanie.py:954-1056 | an issue is reported exactly when the database and the baseline show it, with its exact count |
| `Verifier.CheckCounts` | backend/migrate_flask_to_beanie.py:1032-1048 | a changed count is reported under the current name, shrinking collections excepted |
| `Verifier.CountReported` | backend/migrate_flask_to_beanie.py:1032-1048 | a count that changed is an issue, except a smaller one of library items or verification requests |
| `Verifier.RenamedCountReported` | backend/migrate_flask_to_beanie.py:1032-1048 | a collection recorded under its old name is counted under its new one |
| `Verifier.SpaceReported` | backend/migrate_flask_to_beanie.py:970-976 | a leftover `space` is an issue in six collections and nowhere else |
| `Verifier.MissingTeamReported` | backend/migrate_flask_to_beanie.py:978-984 | a document without a team is an issue in five collections and nowhere else |
| `Verdict.TeamMissingAfterRun` | backend/migrate_flask_to_beanie.py:363-398 | a team is missing after the run exactly when owner map and default had none for the document |
| `Verdict.VerdictForeseen` | backend/migrate_flask_to_beanie.py:954-1056 | each issue and count after a complete live run, told from the database before phase 2 |
| `Verdict.CleanVerdict` | backend/migrate_flask_to_beanie.py:954-1056 | after a live run phase 5 finds nothing, if and only if every team, reference and name could be resolved beforehand |
| `FullRun.Phases` | backend/migrate_flask_to_beanie.py:1151-1155 | phases 2-4 as `main` runs them, and what a dry run leaves |
| `FullRun.Run` | backend/migrate_flask_to_beanie.py:1148-1158 | the whole script: final documents, the team of each document that had none told from users and teams before the run, a backup of everything that the run changes beyond taking off `_cls`, no issue exactly when all is resolvable, and rollback from every prefix of its writes exactly when no two names clash |
| `Conservation.NothingLost` | backend/migrate_flask_to_beanie.py:294-548 | every live collection is still there under one of its names with exactly its documents, less the unsupported kinds, each with the team it had, its owner's or the default |
| `Conservation.NothingAppears` | backend/migrate_flask_to_beanie.py:294-548 | no other live collection appears, and everything else is untouched |
| `Conservation.NoTwoMerge` | backend/migrate_flask_to_beanie.py:302-312 | no two collections end up under one name |
| `DefaultTeams.TeamOwnedBy` | backend/migrate_create_default_teams.py:79-98 | the first team the user owns is reused; one is made, with the fields of the script, only for a user who owns none |
| `DefaultTeams.EnsureMembership` | backend/migrate_create_default_teams.py:100-111 | the owner is a member afterwards; none is added where there was one, else exactly one |
| `DefaultTeams.ServeUser` | backend/migrate_create_default_teams.py:72-122 | one user without a team gets a team, a membership and a current team: at most one team and one membership are added, and nothing else changes |
| `DefaultTeams.Phase1Teams` | backend/migrate_create_default_teams.py:63-122 | every user without a current team, except one without a `user_id`, has a team that it owns and belongs to; new teams go only to users who owned none, one each, and new memberships make such owners members of their own teams, once |
| `DefaultTeams.Phase2Ownerless` | backend/migrate_create_default_teams.py:129-146 | exactly the ownerless documents of the four content collections are gone |
| `DefaultTeams.PatchLibrary` | backend/migrate_create_default_teams.py:158-181 | a library gets "system", its team's owner, or stays as it is |
| `DefaultTeams.LibraryOutcome` | backend/migrate_create_default_teams.py:158-181 | a library without an owner becomes the system's if it is verified, else that of its team's owner, if it has such a team; every other stays as it is |
| `DefaultTeams.Phase3Libraries` | backend/migrate_create_default_teams.py:153-181 | exactly the libraries without an owner are patched |
| `DefaultTeams.Run` | backend/migrate_create_default_teams.py:63-185 | after a run there is nothing left to do, and a run that finds nothing to do writes nothing |
| `Pipeline.UsersMapped` | backend/migrate_flask_to_beanie.py:206-217 | after both scripts preflight maps exactly the users who have a team or are given one |
| `Pipeline.TeamlessAfterBoth` | backend/migrate_flask_to_beanie.py:363-398 | which team-scoped documents both scripts together leave without a team |
| `Pipeline.NobodyDangles` | backend/migrate_create_default_teams.py:63-123 | when no current team dangles, an owner is without a team only if it names no user |
| `Pipeline.CreateTeamsThenMigrate` | backend/migrate_create_default_teams.py:63-185 | both scripts run: a document is left without a team only if it came without one and its owner has no team to give, or it is an ownerless knowledge base |
| `FileCopy.BuildSourceIndex` | backend/migrate_files.py:55-70 | for any walk order every name is indexed, and by a root copy only when no sub-folder has the name |
| `FileCopy.FileNameIs` | backend/migrate_files.py:120-120 | the name that is looked up is what stands behind the last slash of the path |
| `FileCopy.MigrateFiles` | backend/migrate_files.py:112-162 | the counts of each mode add up to the documents; copied equals found; only apply mode writes, and a dry run announces what it would miss |
| `FileCopy.CopiedPaths` | backend/migrate_files.py:140-162 | the destination afterwards: what was there, unchanged, and under every other document path whose name is indexed the content of that file |
| `FileCopy.VerifyAfterApply` | backend/migrate_files.py:123-137 | a verification after an apply finds what was copied and what was there, and misses as many |
| `Scanner.LiteralReadBack` | scripts/map_ui_endpoints.py:138-174 | a literal of plain characters, escapes and interpolations, printed anywhere, is read back with its flattened value and the index past it |
| `Scanner.ReadsLiteralsOnly` | scripts/map_ui_endpoints.py:138-174 | a value is returned exactly where a well-formed literal stands |
| `Scanner.CodeSkipped` | scripts/map_ui_endpoints.py:154-169 | an interpolation goes on past any printed code, with its nested braces and template literals, at the same depth |
| `Scanner.ArgsReadBack` | scripts/map_ui_endpoints.py:177-193 | `_call_span` returns the matching close paren of printed arguments |
| `Scanner.SpansArgsOnly` | scripts/map_ui_endpoints.py:177-193 | `_call_span` meets a matching close paren exactly where well-formed arguments stand |
| `HangingScans.ReadStuckIff` | scripts/map_ui_endpoints.py:154-166 | a literal is scanned forever exactly if it is a template literal, printed up to a backtick inside one of its interpolations at which no template literal stands |
| `HangingScans.SpanHangsIff` | scripts/map_ui_endpoints.py:181-185 | a call span is scanned forever exactly if arguments are printed up to a quote at which no literal stands |
| `HangingScans.OpenNestedLiteralHangs` | scripts/map_ui_endpoints.py:163-166 | a witness: the text of a backtick, `${` and a backtick |
| `CallScanner.ReadString` | scripts/map_ui_endpoints.py:138-174 | the loop computes the specified reading for every text, and ends, reporting where the original would not |
| `CallScanner.SkipInterpolation` | scripts/map_ui_endpoints.py:155-166 | the inner loop ends at the specified closing brace |
| `CallScanner.CallSpan` | scripts/map_ui_endpoints.py:177-193 | the loop ends at the specified close paren |
| `CallScanner.SkipGeneric` | scripts/map_ui_endpoints.py:122-135 | past exactly the balanced group of angle brackets that starts there, if one does |
| `CallScanner.OneAngleSpan` | scripts/map_ui_endpoints.py:126-134 | at most one balanced group of angle brackets starts at a place, so that the index is determined |
| `CallScanner.CallAt` | scripts/map_ui_endpoints.py:201-224 | one wrapper call: none, a url built at run time, or a literal with the window of its options; the three lemmas below say which |
| `CallScanner.CallReadBack` | scripts/map_ui_endpoints.py:201-224 | a printed call is found with its url flattened, and the text searched for its options is exactly the rest of its own arguments |
| `CallScanner.RuntimeCallReadBack` | scripts/map_ui_endpoints.py:210-217 | a printed call whose arguments do not start with a quote has a url built at run time, and its own arguments as window |
| `CallScanner.NotACallIff` | scripts/map_ui_endpoints.py:201-217 | there is no call exactly if no paren follows the blanks, or the literal behind it never ends |
| `UrlShape.NormShape` | scripts/map_ui_endpoints.py:289-298 | a normalised url has no query, no placeholder and no closing slash |
| `UrlShape.BreakKept` | scripts/map_ui_endpoints.py:294-294 | placeholders glued to the last segment are dropped before a line break that ends the url, too |
| `UrlShape.NormIdempotent` | scripts/map_ui_endpoints.py:289-298 | normalising twice is normalising once |
| `UrlShape.StarMeaning` | scripts/map_ui_endpoints.py:301-306 | `*` stands for one or more non-slash characters |
| `UrlShape.MatchesBySegments` | scripts/map_ui_endpoints.py:301-306 | matching whole urls is matching segment by segment, so the numbers of segments agree |
| `UrlTemplates.RouteNormalized` | scripts/map_ui_endpoints.py:289-298 | a route path of named segments and parameters, with or without a closing slash, is reduced to the shape of its segments |
| `UrlTemplates.CallNormalized` | scripts/map_ui_endpoints.py:289-298 | so is the url of a call, whatever query string it carries or has glued to its last segment |
| `UrlTemplates.JoinedIffFits` | scripts/map_ui_endpoints.py:289-306 | a call url and a route path match exactly when the segments of one describe the other's |
| `UrlTemplates.CrossedParameters` | scripts/map_ui_endpoints.py:289-306 | a witness: "/a/{p}" and "/${p}/b" are not joined, though both describe "/a/b" |
| `UrlTemplates.CallerIffFits` | scripts/map_ui_endpoints.py:318-330 | a call is among the callers of a route after the join exactly when methods agree and the segments of one describe those of the other |
| `Join.JoinAll` | scripts/map_ui_endpoints.py:318-337 | each route gets its callers, a call is marked exactly when some route is hit, and both lists hold the rest |
| `Join.Collect` | scripts/map_ui_endpoints.py:326-329 | the inner loop for one route: its callers, and the marks for the routes so far |
| `Join.CallersComplete` | scripts/map_ui_endpoints.py:325-329 | a route's callers are exactly the calls that hit it |
| `Join.CallersInOrder` | scripts/map_ui_endpoints.py:325-329 | they come in call order: the callers among two lists of calls are those among the first, then those among the second |
| `Join.UncalledComplete` | scripts/map_ui_endpoints.py:333-336 | a route is listed as uncalled exactly when no call hits it |
| `Join.UnmatchedComplete` | scripts/map_ui_endpoints.py:332-332 | a call is listed as unmatched exactly when it hits no route |
| `CatalogStore.Database.EnsureCollection` | backend/scripts/seed_catalog.py:161-187 | a collection with that title, its description and featured mark from the seed, its members kept |
| `CatalogStore.Database.AddToCollection` | backend/scripts/seed_catalog.py:190-195 | the item is a member afterwards, once, and no other member changes |
| `CatalogStore.Database.EnsureLibraryItem` | backend/scripts/seed_catalog.py:285-309 | the first library item of the row, verified or not, is reused, else one is made; it is listed in the verified library |
| `CatalogStore.Database.Attach` | backend/scripts/seed_catalog.py:408-423 | the row has its library item, metadata and place in every collection it names |
| `CatalogStore.Database.SeedWorkflow` | backend/scripts/seed_catalog.py:368-511 | a workflow is found by seed id and refreshed, or created |
| `CatalogStore.Database.SeedSearchSet` | backend/scripts/seed_catalog.py:616-695 | a search set is found by seed id, else by title among verified rows, refreshed and stamped, or created |
| `CatalogStore.Database.SeedKnowledgeBase` | backend/scripts/seed_catalog.py:779-985 | a knowledge base is found by seed id, else by title among verified rows, and stamped with its title kept, or created |
| `CatalogStore.Database.SeedCatalog` | backend/scripts/seed_catalog.py:1315-1434 | all collections, then the selected types; created and updated add up to the seed files |
| `CatalogStore.Database.RetireItem` | backend/scripts/seed_catalog.py:1058-1096 | row, metadata, verified library items, library list and collections after a retirement, and nothing else |
| `CatalogStore.Database.Prune` | backend/scripts/seed_catalog.py:1099-1159 | dry and live runs return the same list; a live one retires exactly the verified rows with an id that no seed file of the type ships, and the system's knowledge bases without an id whose title none has; all other rows stay as they were, with all that belongs to them |
| `CatalogStore.Database.Diff` | backend/scripts/seed_catalog.py:1262-1308 | new and refreshed add up to the seed files, and which are new and which rows are retiring is told by their fields; nothing changes |
| `CatalogStore.SeedableAre` | backend/scripts/seed_catalog.py:1278-1293 | the seed files counted are those that carry an id |
| `CatalogStore.Database.Upgrade` | backend/scripts/seed_catalog.py:1262-1434 | preview, seed and prune: the catalog equals the manifest exactly when no id is lost, nothing is retired and no workflow created unannounced; what retires is told by the rows' fields, and rows that no seed file speaks of are retired or left alone with all that belongs to them; with unique ids and titles, which types equal the manifest, which seeds keep their row, which are created and which of these unannounced is told from the rows at the start |
| `CatalogFacts.PruneRetires` | backend/scripts/seed_catalog.py:1116-1147 | what a prune retires: the stale verified rows of the selected types |
| `CatalogFacts.PruneIsExact` | backend/scripts/seed_catalog.py:1099-1159 | a retired row is unverified, without metadata, verified library item or collection; every other row is as it was |
| `CatalogFacts.PruneByFields` | backend/scripts/seed_catalog.py:1116-1147 | a row is retired exactly if it is verified, of a selected type, and has an id that no seed file of the type ships, or is a knowledge base of the system without an id whose non-empty title none has; every other row is as it was, in all five stores |
| `CatalogAside.UpgradeLeaves` | backend/scripts/seed_catalog.py:1099-1145 | over a whole upgrade: a row without an id that no seed file takes over by its title is retired if it goes by those fields, and is else as it was |
| `CatalogFacts.SlugNames` | backend/scripts/seed_catalog.py:1341-1344 | a slug names the title of its last collection in the manifest |
| `CatalogFacts.SlugsAreNamed` | backend/scripts/seed_catalog.py:1341-1344 | and no other slug names one |
| `CatalogExact.IdAfterOne` | backend/scripts/seed_catalog.py:785-802 | what one seed file does to the ids on verified rows: it adds its own, and takes one away exactly when it is found by title on the last verified row of another |
| `CatalogExact.SeededUnlessLost` | backend/scripts/seed_catalog.py:1364-1420 | a shipped id is on a verified row after seeding, if and only if no seed file displaced it after it was last seeded |
| `CatalogExact.LiveIdsStay` | backend/scripts/seed_catalog.py:1116-1155 | a prune keeps exactly the shipped ids on verified rows of a selected type |
| `CatalogExact.CatalogIsManifestIff` | backend/scripts/seed_catalog.py:1116-1155 | after seed and prune the seed ids on verified rows of a type are those of the seed files, if and only if no seed file, found by title only, takes the last verified row of another; no hypothesis on ids or titles |
| `CatalogExact.WorkflowsMatchManifest` | backend/scripts/seed_catalog.py:377-378 | workflows, which have no title fallback, always equal the seed files |
| `CatalogTurns.MidwayAt` | backend/scripts/seed_catalog.py:785-802 | what every row is when a seed's turn comes, told from the rows at the start: as the seeds that found it by id or took it over by title have left it, or made by a seed that found none |
| `CatalogTurns.TurnIs` | backend/scripts/seed_catalog.py:785-802 | what a seed refreshes, told from the rows at the start |
| `CatalogSeeded.InTheCatalogIff` | backend/scripts/seed_catalog.py:1364-1423 | after seed and prune the row that a seed refreshes or makes is verified, carries its id and has its display name, library entry and collections, if and only if no later seed takes it over |
| `CatalogSeeded.EverySeedIsInTheCatalog` | backend/scripts/seed_catalog.py:1364-1423 | with unique ids and titles every workflow and search set has, after seed and prune, a verified row with its id, display name, library entry and collections, and so has every knowledge base where no seed's title sits on a row stamped by another |
| `CatalogTitles.SearchSetsMatchManifest` | backend/scripts/seed_catalog.py:556-558 | search sets equal the seed files whenever ids and titles are unique among these, whatever rows there are |
| `CatalogTitles.MatchesManifestIff` | backend/scripts/seed_catalog.py:785-802 | with unique ids and titles among the seed files, whatever rows there are at the start, a type equals the seed files if and only if none of these rows is the last verified one with a seed's id and is taken over by a later seed, which has its title and, when its turn comes, no row of its own |
| `CatalogTitles.CatalogIsManifest` | backend/scripts/seed_catalog.py:1116-1155 | after seed and prune the seed ids on verified rows of a type are exactly those of the seed files, given unique ids and titles and no seed's title on a knowledge base stamped by another seed |
| `CatalogTitles.ChainLosesASeed` | backend/scripts/seed_catalog.py:785-802 | a witness: a seed is lost although the one that takes its row had a row of its own at the start |
| `CatalogPreview.RetiredWasAnnounced` | backend/scripts/seed_catalog.py:1295-1295 | whatever seed-then-prune retires, the preview listed, with no hypothesis |
| `CatalogPreview.CreatedIff` | backend/scripts/seed_catalog.py:377-652 | a run makes a row for a seed if and only if, when its turn comes, earlier seeds have taken every row with its id and no verified row is left under its title |
| `CatalogPreview.UnannouncedIff` | backend/scripts/seed_catalog.py:1278-1293 | a seed is created although the preview takes it for installed if and only if a verified row carries its id at the start, earlier seeds take every row that does, and none is verified under its title when its turn comes |
| `CatalogPreview.WorkflowsAnnounced` | backend/scripts/seed_catalog.py:1278-1293 | every workflow that is created was called new, whatever rows and seed files there are |
| `CatalogPreview.CreatedUnannounced` | backend/scripts/seed_catalog.py:1278-1293 | a witness: the first seed takes the only row, which carries the second one's id; the preview takes both for installed, and the second is created |
| `CatalogPreview.CreatedIsWhatIsMissing` | backend/scripts/seed_catalog.py:377-652 | where no row is stamped by one seed and titled like another, rows are created for exactly the seeds that had none to refresh at the start |
| `CatalogPreview.CreatedWasAnnounced` | backend/scripts/seed_catalog.py:1278-1293 | and whatever seeding creates, the preview called new |
| `CatalogTwice.SeedTwiceIff` | backend/scripts/seed_catalog.py:1315-1434 | seeding twice is seeding once, in all five stores, if and only if every seed whose row is taken over has another one in place, verified and attached from the start; with unique ids and titles and one entry per collection title |
| `CatalogTwice.SeedTwice` | backend/scripts/seed_catalog.py:1315-1434 | so it is where no seed's title sits on a knowledge base stamped by another |
| `CatalogTwice.CrossedRowLosesASeed` | backend/scripts/seed_catalog.py:785-802 | a witness: of two seeds, one has stamped the only knowledge base and the other has its title; the first drops out of the catalog |
| `CatalogTwice.CrossedRowSeedsAgain` | backend/scripts/seed_catalog.py:785-802 | a witness: on those rows a second seeding changes the stores |
| `CatalogTwice.ListedAfterRetiring` | backend/scripts/seed_catalog.py:1069-1078 | exactly the verified library items of the row leave the verified library; a bookmark stays listed |
| `Versions.ParsePrinted` | scripts/cut_catalog_release.py:58-62 | a version survives being printed and parsed |
| `Versions.VersionRead` | scripts/cut_catalog_release.py:58-62 | a text is read as a version exactly if each part between dots is a number: grouped digits with an optional sign and white space around |
| `Versions.FirstDifference` | backend/scripts/seed_catalog.py:1206-1215 | the first part in which two versions differ decides, and where there is none the length |
| `Versions.OrderIsStrict` | backend/scripts/seed_catalog.py:1206-1215 | the order on numeric versions is irreflexive |
| `Versions.OrderIsTransitive` | backend/scripts/seed_catalog.py:1206-1215 | the order on numeric versions is transitive |
| `Versions.OrderIsTotal` | backend/scripts/seed_catalog.py:1206-1215 | of two different numeric versions one is lower |
| `Versions.NewerMeans` | backend/scripts/seed_catalog.py:1197-1215 | nothing absent is newer, anything is where there is no version yet; of two numeric versions the later one is, and of others any that differs |
| `Versions.BothNewerIff` | backend/scripts/seed_catalog.py:1201-1215 | two versions are each newer than the other exactly when both are given, they differ and one of them is not numeric |
| `Versions.BumpMovesUp` | scripts/cut_catalog_release.py:246-252 | a bump of any part of a version moves up, whatever number of parts it has |
| `Versions.BumpWrites` | scripts/cut_catalog_release.py:245-252 | a bump starts from the later of the two versions, a missing one standing for 0.0.0: one part is one more, those before it stay, those after it are zero |
| `Versions.SetWrites` | scripts/cut_catalog_release.py:242-256 | a version that is given is written, stripped, exactly if it is numeric and there is no base release, or a numeric one that it is greater than |
| `Versions.BumpIsReleased` | scripts/cut_catalog_release.py:242-256 | a bump is greater than the current and the base version, is not refused, and parses again |
| `Versions.ReleaseIsOffered` | scripts/cut_catalog_release.py:242-262 | what is written is offered to a server on the base release, and not the reverse |
| `Versions.LaterIsOffered` | backend/scripts/seed_catalog.py:1197-1215 | in a chain of releases every later one is offered to every earlier server, never the reverse |
| `RepairRun.Database.IngestPart` | backend/scripts/repair_gov_kb_sources.py:176-193 | one part goes into the first source with its url in that knowledge base, or into a new url source |
| `RepairRun.Database.SplitChapter` | backend/scripts/repair_gov_kb_sources.py:145-203 | the source is deleted only when every fetched part counted, and is saved as it was otherwise |
| `RepairRun.Database.RepairOne` | backend/scripts/repair_gov_kb_sources.py:270-337 | one broken source: fixed, failed or skipped, and the stores afterwards |
| `RepairRun.Database.Repair` | backend/scripts/repair_gov_kb_sources.py:231-342 | fixed, failed and skipped add up to the broken sources; dry and refused runs change nothing |
| `ChapterFacts.SplitLeavesEveryPart` | backend/scripts/repair_gov_kb_sources.py:175-202 | at the moment a chapter source is deleted, every fetched part's text is in a source of the same knowledge base (parts with different urls) |
| `ChapterFacts.DeletedOnlyWhenSplit` | backend/scripts/repair_gov_kb_sources.py:145-203 | a source deleted in a run is a chapter that was split in full at its own step, and every part fetched then still has a source |
| `ChapterTexts.DeletedKeepsTextIff` | backend/scripts/repair_gov_kb_sources.py:175-202 | at the end of the run that deletes a chapter, a part's source holds its text exactly if no later step of the run leaves an error or another text there, last |
| `ChapterTexts.StaleCopyLosesText` | backend/scripts/repair_gov_kb_sources.py:239-247 | a witness: the chapter is split, and the repair of a part that was already broken then saves the copy read at the start, without the text |
| `ChapterTexts.RunHome` | backend/scripts/repair_gov_kb_sources.py:270-337 | what a part's first source holds after a run, told from the state at the start and the answers: the last thing written there |
| `ChapterFacts.UnsplitStays` | backend/scripts/repair_gov_kb_sources.py:195-198 | a chapter that is not split stays exactly as it was, so the next run finds it broken again |
| `ChapterFacts.RunStaysUnique` | backend/scripts/repair_gov_kb_sources.py:177-188 | in one run there is never a second source for a knowledge base and url |
| `ChapterFacts.RunsStayUnique` | backend/scripts/repair_gov_kb_sources.py:177-188 | the same over any number of runs |
| `ChapterFacts.RunAddsUp` | backend/scripts/repair_gov_kb_sources.py:267-337 | fixed, failed and skipped add up to the broken sources |
| `RepairReport.WorkIs` | backend/scripts/repair_gov_kb_sources.py:120-134 | what a run works on: the url sources with an error, without text, or with one that looks empty |
| `RepairReport.VerdictMeans` | backend/scripts/repair_gov_kb_sources.py:270-337 | when a source is fixed, failed or skipped, told from what the run was answered |
| `RepairReport.VerdictShows` | backend/scripts/repair_gov_kb_sources.py:270-337 | what is fixed has its text and no error, or is a chapter replaced by its parts; what is skipped is as it was |
| `RepairReport.TextIsFirstAnswer` | backend/scripts/repair_gov_kb_sources.py:276-295 | the text known for a source: the bundled one, else the first answer of the run to a source with its url |
| `RepairReport.RunReports` | backend/scripts/repair_gov_kb_sources.py:267-337 | each broken source is reported once, under the verdict of its own step |
| `ChapterTexts.ChapterNeverLost` | backend/scripts/repair_gov_kb_sources.py:145-203 | over any runs, whatever fails, a chapter source is still there as it was, or one run split it in full at its own step, every part fetched has a source to this day, and its first one holds the part's text exactly if the last thing written there is that text |
| `ChapterTexts.RunsHome` | backend/scripts/repair_gov_kb_sources.py:270-337 | the same over any number of runs |
| `EcfrUrls.SearchIsBySegment` | backend/scripts/fetch_ecfr_text.py:105-139 | the patterns of both parsers find the first path segment of their form; a line break that ends the url is no part of it |
| `EcfrUrls.PartRead` | backend/scripts/fetch_ecfr_text.py:105-121 | a url names a part exactly if it is one of ecfr.gov with segments for a title and a part; the first ones count, and the first one for a subpart |
| `EcfrUrls.ChapterRead` | backend/scripts/fetch_ecfr_text.py:124-139 | a url names a chapter exactly if it is one of ecfr.gov with segments for a title and a chapter, and none for a part |
| `EcfrUrls.ClassesAre` | backend/scripts/fetch_ecfr_text.py:105-139 | the characters of titles and parts, of subparts, and of chapters |
| `Texts.NatRead` | backend/scripts/fetch_ecfr_text.py:112-121 | a string of digits is the decimal form of the number read from it, after any zeros |
| `EcfrUrls.ChapterFound` | backend/scripts/fetch_ecfr_text.py:283-284 | the chapter is found by its identifier, whatever the case of its letters |
| `EcfrUrls.WalkLists` | backend/scripts/fetch_ecfr_text.py:279-296 | the walk lists, in document order, exactly the non-reserved numeric parts reached inside the chapter, each with the url of its path |
| `ChapterWalk.Walker.Visit` | backend/scripts/fetch_ecfr_text.py:279-296 | the recursive walk appends exactly its parts to the list, and keeps the last chapter label it met |
| `ChapterWalk.ListChapterParts` | backend/scripts/fetch_ecfr_text.py:264-301 | label and parts, or the error when there are none; the label is that of the last chapter node that has one |
| `ChapterWalk.LabelMeans` | backend/scripts/fetch_ecfr_text.py:279-286 | the label is the last one of the chapter, stripped; where it has none, the one given |
| `ChapterWalk.UrlSpelled` | backend/scripts/fetch_ecfr_text.py:279-293 | the url of a part is the way to it, one segment for each title, subtitle, chapter and subchapter |
| `ChapterWalk.UrlReadBack` | backend/scripts/fetch_ecfr_text.py:105-139 | the rebuilt url of a part of a numbered title, with no slash in any identifier, reads back as its title and part, and not as a chapter |
| `ChapterWalk.ListedReadBack` | backend/scripts/fetch_ecfr_text.py:279-293 | the same for every part that the walk of a title lists |
| `ChapterWalk.WalkedPartsAreParts` | backend/scripts/repair_gov_kb_sources.py:297-303 | so the parts that a split makes are never taken for chapters by a later run |
| `EcfrText.RenderInto` | backend/scripts/fetch_ecfr_text.py:146-165 | the recursion appends the specified lines to what is there |
| `EcfrText.XmlToText` | backend/scripts/fetch_ecfr_text.py:168-180 | the loop that collapses blank lines gives the specified text, which `EcfrLayout.TextIsLayout` and `EcfrLines.TextKeepsInk` tell from the document |
| `EcfrText.JoinedClean` | backend/scripts/fetch_ecfr_text.py:142-143 | words or cells joined are one line with no white space at its ends |
| `EcfrText.ElTextIs` | backend/scripts/fetch_ecfr_text.py:142-143 | the text of an element: its pieces of text in order, with every run of white space one space, and none at the ends |
| `EcfrText.BlankBetween` | backend/scripts/fetch_ecfr_text.py:142-143 | white space between two visible characters is one space |
| `EcfrText.BlankEnd` | backend/scripts/fetch_ecfr_text.py:142-143 | and none is left at the end |
| `EcfrText.SqueezedInk` | backend/scripts/fetch_ecfr_text.py:142-143 | and all other characters stay |
| `EcfrLines.RenderedBlocks` | backend/scripts/fetch_ecfr_text.py:146-165 | the non-blank lines rendered are the blocks in document order |
| `EcfrLines.CollapsedIs` | backend/scripts/fetch_ecfr_text.py:172-179 | collapsing leaves no two blank lines in a row and loses no other line |
| `EcfrLines.TextKeepsBlocks` | backend/scripts/fetch_ecfr_text.py:168-180 | the text has no two blank lines in a row and none at its ends, and its other lines are the blocks in order, each told from the pieces of text in it |
| `EcfrLines.TextKeepsInk` | backend/scripts/fetch_ecfr_text.py:146-180 | the visible characters of the text are those of the pieces of text inside blocks, in document order, with a bar between the cells of a row |
| `EcfrLayout.TextIsLayout` | backend/scripts/fetch_ecfr_text.py:146-180 | the text is its blocks, one a line, with one blank line between two of them exactly where one is a heading |
| `EcfrExtracts.FirstHeadIs` | backend/scripts/fetch_ecfr_text.py:183-185 | the heading of a division is the text of its first head, if it has any |
| `EcfrExtracts.AppendicesExtracted` | backend/scripts/fetch_ecfr_text.py:196-202 | the heading, then every appendix's blocks in order; the extract fails exactly when there are none |
| `EcfrExtracts.SubpartExtracted` | backend/scripts/fetch_ecfr_text.py:203-208 | the extract of a subpart is its blocks and nothing else, where letters are not repeated |
| `EcfrExtracts.InsideIsDivisions` | backend/scripts/fetch_ecfr_text.py:188-209 | where divisions are not nested, what is inside them is each division's blocks, once, in order |
| `EcfrExtracts.InsideAndOutside` | backend/scripts/fetch_ecfr_text.py:146-165 | the blocks of an element are those inside subparts and appendices and those outside, each once |
| `EcfrExtracts.ExtractsCoverThePart` | backend/scripts/fetch_ecfr_text.py:188-209 | the lines of the whole part's extract, and the heading that the appendices extract adds, are the lines of the subpart extracts, one for each letter, those of the appendices extract and those in no division, each as often |
| `ConfigTree.MergedValues` | backend/app/models/system_config.py:127-134 | the override wins at every path it sets, every other path keeps the default |
| `ConfigTree.MergedDictionaries` | backend/app/models/system_config.py:127-134 | where both have a dictionary the merge has the keys of both |
| `ConfigTree.MergeTwice` | backend/app/models/system_config.py:127-134 | merging the same override again changes nothing |
| `ConfigTree.MergeAssociative` | backend/app/models/system_config.py:127-134 | merging is associative exactly when no plain value in the middle hides a dictionary that the last one would not |
| `ConfigTree.AgreeingAssociates` | backend/app/models/system_config.py:127-134 | in particular on trees that agree on which keys hold dictionaries |
| `ConfigStore.DeepCopy` | backend/app/models/system_config.py:278-278 | a copy that shares no dictionary with the original |
| `ConfigStore.DeepMerge` | backend/app/models/system_config.py:127-134 | the base becomes the merge in place, the override is not changed |
| `ConfigStore.ApplyLegacyStrategy` | backend/app/models/system_config.py:137-148 | a legacy strategy is the merge of an override |
| `ConfigStore.LegacyMeans` | backend/app/models/system_config.py:137-148 | which settings the legacy model and strategy set, and that they set no other |
| `ConfigStore.GetConfig` | backend/app/models/system_config.py:291-324 | defaults and what is stored merged; nothing there before is changed, and every dictionary of the result is new or one of those stored, none of the defaults |
| `ConfigStore.GetExtractionConfig` | backend/app/models/system_config.py:276-289 | the same for the extraction settings; when nothing is stored, the model and the mode of the legacy fields, and every other setting the default |
| `Adoption.BookmarksFound` | backend/scripts/adopt_orphaned_workflows.py:55-72 | a workflow is bookmarked exactly when an item for it is in some library's list |
| `Adoption.Store.PersonalLibrary` | backend/scripts/adopt_orphaned_workflows.py:118-136 | the owner's first personal library, and nothing changes; where there is none, a new empty one; nobody's bookmark is lost |
| `Adoption.Store.ScanAll` | backend/scripts/adopt_orphaned_workflows.py:171-186 | orphans grouped by owner; bookmarked, referenced and adopted add up to scanned |
| `Adoption.Store.AdoptFor` | backend/scripts/adopt_orphaned_workflows.py:191-215 | the state at the push is that after the find, the inserts and whatever others did before and between them; the push adds the new ids to the owner's list as it is then, and changes nothing else |
| `Adoption.Store.Adopt` | backend/scripts/adopt_orphaned_workflows.py:139-222 | a live run does exactly the actions for the owners of the orphans; what was on a list at any moment and was left there by others is on it at the end, and no selected workflow is an orphan; adopted are exactly the chosen workflows without bookmark and reference; a dry run writes nothing |
| `Adoption.NoUpdateLost` | backend/scripts/adopt_orphaned_workflows.py:205-215 | what is on a list after any prefix of a run, and what others do not take off it themselves, is on it at the end |
| `Adoption.SecondRunAdoptsNone` | backend/scripts/adopt_orphaned_workflows.py:93-97 | a run adopts none exactly when there is no orphan |

## Left out

- SecondRunChangesNothing: backups of the second run are new collections and are not compared.
- CatalogIsManifest: its hypotheses are sufficient only; `CatalogIsManifestIff` has the exact condition for any rows and seed files, on the run of seed files one after the other, and `MatchesManifestIff` the one on the rows at the start.
- MatchesManifestIff: unique ids and titles among the seed files; so for `InTheCatalogIff`, `CreatedIff`, `UnannouncedIff` and `SeedTwiceIff`.
- InTheCatalogIff: of the row that the seed refreshes or makes; another row that happens to carry its id is not looked at.
- SeedTwiceIff: one entry per collection title among the seed collections.
- ResumedIff: one interruption, after which the rollback runs to its end.
- ChapterNeverLost: parts with different urls in one fetch, and no part url that is a chapter url (`WalkedPartsAreParts`); what is said of a part's text is said of the first source with its url.
- UrlReadBack: identifiers without slashes and a numeric title, as the structure of the regulations has them.
- ExtractsCoverThePart: divisions that are not nested in one another, and no letter on two subparts.
- Adopt: that no workflow is an orphan afterwards supposes that others leave no workflow without the bookmark it had; the rest holds whatever they do, as long as they too hand out new ids. The scan reads one state, and finding and making a personal library is one step; others act between all other steps.
- Migration: log output, statistics and timestamps; the time written by phase 4b is a parameter. Backups are written in one step, not in batches of 5000. `_migration_metadata` is passed as values, the counts and the manifest. `_ensure_library_owner` only warns.
- Migration documents: `$id` holds an id; queries on dotted paths do not look into arrays; `items` is a list; a `_ref` that is a text would make the original fail and is not modelled; field values that no script looks at are kept whole.
- Migration order: `find_one` gives the first document in the collection's natural order; `list_collection_names` is sorted where the script sorts it, and of the alphabet only what rollback depends on is kept, that each renamed collection's new name comes before its old one.
- Default teams: dropping indexes (phase 0 of that script), random team tokens (a parameter), organisations.
- Scanner: the regular expressions for wrapper names and `method:`, walking the file tree, the reading of documentation (a set of normalised paths here), the report. Digits in texts are the ten ASCII digits.
- Seeder: steps, tasks, search-set items, test cases, quality fields, knowledge-base sources and their ingestion, inline-extraction search sets, `--reset`, the recorded catalog version. An empty seed id is none. Two manifest entries with one title are one collection here; the original holds two copies of it in memory.
- Release script: loading the manifest at two revisions, duplicates, the added, changed and removed lists, git.
- Repair: the vector store, size warnings, classification and grouping of failures, statistics. Fetching, ingestion and the tests for bot challenges are uninterpreted answers.
- Regulations: HTTP, issue dates, labels of parts, the XML parser; tail text of elements counts as content of their parent, as the original joins it.
- Configuration: lists are plain values; `ensure_stable_ids`, `is_compliance_enabled` and the singleton's storage.
- Adoption: the `verified` mark and creation time of new items, and time stamps of libraries.
- File copy: checksums, file contents beyond the path copied from, directories standing at a document's path, two spellings of one path, such as one with a closing slash.
- Models, routers, settings, the browser extension and the web frontend.

# DBFlux in Dafny

A model of four parts of DBFlux, a desktop client for databases, with proofs of what they promise:

- the editor of the AWS config and credentials files (`crates/dbflux_aws/src/config.rs`): the parser, the locator of sections, the merge-writers, the editor of value-source endpoints, the locked atomic writer and the cache of parsed profiles;
- the byte source and its buffered reader (`crates/dbflux_byte_source/src/lib.rs`);
- the approval of executions (`crates/dbflux_approval/src/store.rs`, `service.rs`);
- the audit pipeline (`crates/dbflux_audit/src`) and two procedures that move data: the one-time migration of AWS profiles and the persistence of imports (`crates/dbflux_app/src`).

`dafny verify dfyconfig.toml` checks everything. Nothing was executed.

## How it is built

Loops and objects of the source are methods and classes here. Each is proved equal to a specification function (`ApplyValueSourceEndpoint` to `Apply`, `ParseAwsConfig` to `Parse`, the methods of `Reader` to `ReadStep` and `SeekStep`, those of `ApprovalService` to `Step`), and the theorems are about those functions, over all inputs, runs and schedules.

| files | part |
|---|---|
| `Text`, `Places`, `Sections`, `AwsParser`, `ParserLaws` | lines, sections and the parser |
| `MergeWriter`, `ProfileWriter`, `ProfileKeys`, `ProfileMeaning`, `ProfileFields`, `SessionMeaning`, `CredentialsWriter` | merge-writers of sections, and which key fills which field |
| `ServicesEditor`, `ServicesRemoval`, `ServicesStable`, `ServicesTwice`, `ServicesOthers`, `ServicesKept`, `ServicesShapes`, `EndpointEditor`, `EndpointMethods` | the endpoint editor, on lines and on files |
| `DocEdits`, `EndpointOps`, `EndpointMeaning`, `EndpointBlank`, `EndpointTheorems`, `EndpointIdempotence`, `EndpointRoundTrip`, `EndpointTwice`, `SectionTexts`, `EndpointKeeps` | what its edits mean to the parser, and what they leave alone |
| `SampleFiles`, `EndpointLimits` | small files at which an edit falls short |
| `HeaderCounts`, `ConfigAppend`, `ConfigEntries`, `ConfigWriter`, `ConfigCache` | appending under the lock, and the cache |
| `ByteSource`, `ByteSourceReader` | byte sources and the reader |
| `Approval`, `ApprovalStore`, `ApprovalPurge`, `ApprovalRuns`, `ApprovalHistory` | approvals |
| `Json`, `AuditTruncation`, `AuditKept`, `AuditRedaction`, `AuditRecord`, `AuditPrivacy`, `AuditExport`, `AuditColumns`, `AuditPivot` | the audit pipeline |
| `SectionNames`, `Migration`, `MigrationReads`, `MigrationRows`, `ImportPersistence`, `ImportLaws`, `Uuids`, `Decimal` | the two procedures, ids and decimal numbers |

What the endpoint theorems ask of a file (`Editable`), each a place where parser and editor disagree otherwise: every line that starts with `[` is a header (`ClosedHeaders`), headers are spelled with one space and name no `[profile default]` (`CanonicalHeader`), no two are equal ignoring case (`DistinctHeaders`), and indented lines of the edited profile belong to a key (`TidyTarget`). The new value is one line; for idempotence it does not end in a carriage return either (`StableUrl`), which holds of every value the callers pass, since they trim it (`crates/dbflux_aws/src/auth.rs:1049-1052`).

## What turned out otherwise

Where a promise fails, the exact condition is proved, and a file, value or schedule shows it.

- A profile whose `services` key is blank, and whose blank reference no other profile shares, does not get the endpoint. `ApplyMeansWhatItSays` proves that after setting a value the profile reports it if and only if this is not the case, and that nothing the parser sees changes if it is; `BlankFile` is such a file. Such an edit also leaves the file no longer well-formed, and no other edit does (`ApplyKeepsWellFormed`).
- A blank line between the opener of a service and its endpoint can break a removal: the opener goes, the endpoint line stays, and the parser takes it for the service above. For one service `CleanIffRemovable` gives the exact condition. For the whole edit `RemoveLinesMeaning` says what is left of any body, by one reading of its lines (`Left`), and `ApplyMeansWhatItSays` that the removal works if and only if that reading finds no managed endpoint. In `GapFile` it does not work; in `OrphanFile` it works although the service is not contiguous.
- Such a removal can also give the endpoint to a service the edit does not manage, if that one stands above the blank line. `OtherServicesKeptIff` proves for every editable file that the services not managed keep their endpoints: always when setting, and when removing if and only if no endpoint line falls to one of them (`MovesNone`); `MovedFile` is a file where one does.
- A service written twice in a section loses one sub-section per removal, so removing is not always idempotent. `ApplyTwice` proves that setting always is, and removing exactly if one removal is enough for the section (`AllSettle`); `DuplicateFile` is a file where it is not.
- An `sso-session` entry that names a `[services]` section is not counted as sharing it. When the section is edited in place, appended or removed, the entry gets exactly the endpoint of the profile; in every other case, and for every other entry, nothing changes (`OtherEntry`, `OthersUnchangedIff`, `SessionFile`).
- Appending a profile named `default` in another case looks for `[default]` and writes `[profile <name>]`. `OtherCaseTwice` proves the three outcomes of two calls: with `[default]` in the file no call appends; if setting the endpoint points the profile at a new section, the first call adds a stray `[default]` and the second appends nothing; else both append. `AppendedOnceIff` proves for every name when two calls leave exactly one section more, and `SerialAppends` and `OtherCaseCalls` what any list of calls does.
- A failed rename is followed by a copy that restores the backup, and a failure of that copy is ignored. `WritersAreSerial` proves that the file holds what the successful calls leave at every moment if and only if no such copy leaves another content behind, and `RestoreCanLoseTheFile` that otherwise any file can be lost.
- The migration goes on with the display name of a profile whose fields cannot be read, and sets its marker all the same. `UnreadMakesNoDifferenceIff` proves that a run then ends where it would with all fields read if and only if every row is matched as if it were read and every binding leads to the same id; `UnreadIsHarmlessIff` says the same row by row, and `RestartRepairsIff` what a restart repairs. In `UnreadRowIsLost` a connection stays bound to the old id for good.
- Section names that differ by case only can make the migration depend on the order of two hash sets. `OrderFreeIffSettled` proves that the lookup does not depend on it if and only if the credentials names differ by more than case and every clash among the config names is settled by a credentials name; `TwoSpellings` shows both sides.
- Truncated details can be empty however large the limit is, because the loop takes the excess of the escaped text off the budget for the unescaped text. `LoopKeeps` proves that the loop ends within three rounds and how much it keeps, for every text; `NothingKeptIff` when that is nothing, and `AsciiNothingKeptIff` the same for ASCII as a bound on the escaped size. Of an object with a text of quotes nothing is kept (`QuotesAreDropped`), of plain text all but 34 bytes of the limit (`PlainTextKept`).
- Text patterns are looked for in texts directly under object keys, not in texts directly inside arrays: `FullIffQuiet` proves that every text outside sensitive keys is redacted if and only if there is nothing to redact in the texts in arrays, and `ArrayTextIsKept` shows one that stays. Each redaction in a text is counted twice (`CountAddsUp`); what zero means is exact (`ZeroCountKeeps`, `ZeroCountIff`).
- A carriage return that ends a sub-property line becomes part of its line break when the section is rewritten (`StripCr` in `ProfileBlockReadsBack`).
- A field whose key starts with `#` is written as a line the parser takes for a comment (`Visible` in `WrittenBlockParses`).

## Model

| member | source | states |
|---|---|---|
| Sections.SkipLineIsOffset | crates/dbflux_aws/src/config.rs:802-862 | counting line lengths and terminators, LF or CRLF, gives the offset at which each line starts |
| Sections.FindHeaderOffset | crates/dbflux_aws/src/config.rs:802-862 | the offset found is that of the first line naming the header, ignoring case and surrounding blanks, and none is found exactly if no line names it |
| Sections.SectionLength | crates/dbflux_aws/src/config.rs:802-862 | a section reaches up to the next line that starts with a bracket, in characters |
| Sections.SectionRawBytes | crates/dbflux_aws/src/config.rs:802-862 | the slice returned is the text of the lines of the section, and nothing is returned exactly if the header is absent |
| Sections.FindSectionStart | crates/dbflux_aws/src/config.rs:1041-1055 | the start agrees with the slice of the locator for every text |
| Sections.OffsetsCutSection | crates/dbflux_aws/src/config.rs:1041-1055 | start and slice cut the text into the lines before the section, the section and the lines after it |
| Sections.ReplaceOrAppendBlock | crates/dbflux_aws/src/config.rs:1068-1102 | the common tail of the block replacers: the section is exchanged in place, or the block is appended behind a blank line |
| Sections.ReplaceKeepsOtherSections | crates/dbflux_aws/src/config.rs:1068-1102 | replacing a section leaves the raw text of every section with another header identical, and the header then names the new block |
| Sections.AppendKeepsOtherSections | crates/dbflux_aws/src/config.rs:1083-1092 | appending leaves every other section identical but the last, which gains line feeds only |
| AwsParser.ParseServicesLine | crates/dbflux_aws/src/config.rs:359-389 | one line moves the open service and the table of endpoints as the meaning of lines says |
| AwsParser.ParseAwsConfig | crates/dbflux_aws/src/config.rs:303-352 | the one-pass parser computes the meaning of the file: the last value of each key of each section, and each reference resolved against all sections |
| AwsParser.ResolveProfiles | crates/dbflux_aws/src/config.rs:303-352 | the second loop gives each entry the endpoint of the section it refers to, whatever the order of sections |
| AwsParser.DocConcat | crates/dbflux_aws/src/config.rs:303-352 | the meaning of a file cut before a header is the meaning of its two parts |
| ParserLaws.SkippedAnywhere | crates/dbflux_aws/src/config.rs:310-315 | a blank line or a comment means nothing, wherever in the file it is |
| ParserLaws.EndpointsByLine | crates/dbflux_aws/src/config.rs:359-389 | the endpoints of a section are, in order, those of exactly its indented endpoint lines below an opener, each for the service that a look upwards finds open |
| ParserLaws.ReportedEndpoint | crates/dbflux_aws/src/config.rs:337-389 | of these the first of Secrets Manager is reported, under either spelling; if there is none the last of the parameter store; never that of another service |
| ProfileFields.EntryDescribes | crates/dbflux_aws/src/config.rs:443-481 | every entry has its section: each of the seven fields is the value of the key of its name there, it is an SSO entry exactly if it is a session or has a start URL or a session key, and its endpoint is that of the section it refers to |
| ProfileFields.LastValueWins | crates/dbflux_aws/src/config.rs:330-332 | the value of a key is that of the last line that gives it |
| MergeWriter.EntriesRead | crates/dbflux_aws/src/config.rs:1409-1492 | written keys and sub-properties read back as themselves |
| MergeWriter.SectionEntriesGood | crates/dbflux_aws/src/config.rs:1409-1492 | keys and sub-properties read from any section can be written without opening another section |
| MergeWriter.BlockIsSection | crates/dbflux_aws/src/config.rs:1409-1492 | no emitted line can open a new section |
| MergeWriter.ProfileBlockReadsBack | crates/dbflux_aws/src/config.rs:1409-1492 | the written section reads back as the merge of old keys and fields, sub-properties of untouched keys verbatim, and is one section |
| MergeWriter.MergedKeys | crates/dbflux_aws/src/config.rs:1409-1492 | as a map the merge is the old keys overridden by the non-blank fields, without the removed keys |
| MergeWriter.ProfileBlockMeaning | crates/dbflux_aws/src/config.rs:1409-1492 | the same law on the text: re-reading the written section gives the old map, removed keys dropped, non-blank fields overriding, blank fields preserving |
| ProfileWriter.ReadSection | crates/dbflux_aws/src/config.rs:1409-1492 | the loop over the old lines collects the keys with their sub-properties and the trailing blank lines |
| ProfileWriter.WriteKept | crates/dbflux_aws/src/config.rs:1409-1492 | the loop over old keys emits exactly the kept ones with their new values, and records them |
| ProfileWriter.WriteAdded | crates/dbflux_aws/src/config.rs:1409-1492 | the loop over fields emits exactly the new non-blank ones |
| ProfileWriter.BuildProfileBlock | crates/dbflux_aws/src/config.rs:1409-1492 | the block is the rendering of the merge |
| ProfileWriter.ReplaceOrAppendProfileBlock | crates/dbflux_aws/src/config.rs:1068-1102 | the profile's section is replaced by its merge, or appended |
| ProfileWriter.ReplaceOrAppendSsoSessionBlock | crates/dbflux_aws/src/config.rs:1108-1135 | the session's section is replaced by its merge, or appended |
| ProfileKeys.ReadAccounts | crates/dbflux_aws/src/config.rs:430-441 | what the merge-writer reads from a tidy section accounts for every key the parser reads from it |
| ProfileKeys.WrittenBlockParses | crates/dbflux_aws/src/config.rs:1409-1492 | from the written section the parser reads the old keys, overridden by the non-blank fields it can read, without the removed keys, if the nested lines stay out of the way of the keys written |
| ProfileKeys.RelinkedBlock | crates/dbflux_aws/src/config.rs:1409-1492 | rewriting a tidy section with or without a services field changes that key for the parser and no other |
| ProfileMeaning.WriteMeansMerge | crates/dbflux_aws/src/config.rs:1068-1102 | writing a profile that is in a well-formed file, with any fields and removed keys: the parser reports it with the merged keys and every other entry as before |
| ProfileMeaning.WriteAppends | crates/dbflux_aws/src/config.rs:1068-1102 | writing a profile whose header is in no line of any file: the parser reports one more entry, the last, with the written fields, and every other entry as before |
| ProfileFields.WriteSetsFields | crates/dbflux_aws/src/config.rs:1068-1102 | after a write each field of the profile is the one written under its key, none if its key is removed, and else as it was; no other entry changes |
| ProfileFields.WriteSetsOneField | crates/dbflux_aws/src/config.rs:1068-1102 | writing one key changes the field of that name and no other |
| ProfileFields.AppendSetsFields | crates/dbflux_aws/src/config.rs:1068-1102 | a profile that is new has exactly the fields it is written with |
| SessionMeaning.SessionWriteMeansMerge | crates/dbflux_aws/src/config.rs:1108-1135 | writing a session that is there: it has its old keys overridden by the fields, under the name it is written with, and every other entry is as before |
| SessionMeaning.SessionWriteAppends | crates/dbflux_aws/src/config.rs:1108-1135 | writing a session that is not there: one entry more, the last, with exactly the fields |
| CredentialsWriter.BuildCredentialsBlock | crates/dbflux_aws/src/config.rs:1500-1552 | the loops emit the old keys in order with the overrides, then the new fields |
| CredentialsWriter.ReplaceOrAppendCredentialsBlock | crates/dbflux_aws/src/config.rs:1003-1037 | the credentials section is replaced by its merge, or appended |
| CredentialsWriter.CredentialsBlockMeaning | crates/dbflux_aws/src/config.rs:1500-1552 | the written section reads back as the merge, is one section, and as a map is the old keys overridden by the fields |
| ServicesEditor.SetLinesReads | crates/dbflux_aws/src/config.rs:1346-1372 | after setting, the parser reads the new value first for each managed service, and for every other service what it read before |
| ServicesRemoval.CleanIffRemovable | crates/dbflux_aws/src/config.rs:1374-1396 | after removing, the parser reads no endpoint for the service and the same for all others, if and only if the service is contiguous, or its opener goes with nothing open above it and no later opener of it has an endpoint |
| ServicesRemoval.RemoveLinesMeaning | crates/dbflux_aws/src/config.rs:1294-1314 | for every body, what the parser reads after removing all managed endpoints is what one reading of the old lines leaves; none of them is left if and only if that reading finds none |
| ServicesRemoval.RemoveLinesReads | crates/dbflux_aws/src/config.rs:1294-1314 | where the managed services are contiguous the removal leaves none of them and every other service as it was |
| ServicesRemoval.ContiguousClears | crates/dbflux_aws/src/config.rs:1294-1314 | in a body with contiguous managed services that reading finds none |
| ServicesStable.EditLinesDone | crates/dbflux_aws/src/config.rs:1294-1314 | after setting no managed service has anything left to set, although each service is set after the other |
| ServicesStable.StableBody | crates/dbflux_aws/src/config.rs:1294-1314 | a body whose lines the edit leaves alone is returned as the same text |
| ServicesTwice.RemoveAllSettles | crates/dbflux_aws/src/config.rs:1294-1314 | after removing there is nothing left to remove if and only if one removal of each managed service is enough |
| ServicesTwice.ReturnedBody | crates/dbflux_aws/src/config.rs:1294-1314 | a removal returns the same text if and only if there is nothing to remove in its lines |
| ServicesOthers.OthersKeptIff | crates/dbflux_aws/src/config.rs:1374-1396 | a removal leaves every service that is not managed its endpoints if and only if no endpoint line falls to one of them |
| ServicesKept.EditLinesKept | crates/dbflux_aws/src/config.rs:1294-1314 | an edit keeps, in their order, all lines but blank ones, endpoints and openers of managed services |
| ServicesShapes.SetRewrites | crates/dbflux_aws/src/config.rs:1346-1372 | setting a service that has an endpoint rewrites the first endpoint line of its first sub-section; every other line stays |
| ServicesShapes.RewriteKeepsForm | crates/dbflux_aws/src/config.rs:1346-1372 | a rewritten line keeps its indentation and its kind of line break |
| ServicesShapes.SetAddsLine | crates/dbflux_aws/src/config.rs:1346-1372 | setting a service that has none adds a line at the end of its sub-section |
| ServicesShapes.SetAddsService | crates/dbflux_aws/src/config.rs:1346-1372 | setting a service that is not there adds it, with its endpoint, in front of the blank lines at the end |
| ServicesShapes.RemoveTakes | crates/dbflux_aws/src/config.rs:1374-1396 | removing takes the endpoint lines of the first sub-section, and its opener exactly if every line of it was one; nothing else goes |
| EndpointMethods.FindService | crates/dbflux_aws/src/config.rs:1326-1340 | the range found starts at the first opener of the service and ends at the first line outside its sub-section |
| EndpointMethods.SetServiceEndpoint | crates/dbflux_aws/src/config.rs:1346-1372 | the lines with the first endpoint line rewritten, one inserted, or the whole service inserted before trailing blanks |
| EndpointMethods.RemoveServiceEndpoint | crates/dbflux_aws/src/config.rs:1374-1396 | the retain loop with its two counters drops the endpoint lines of the service, and its opener exactly if nothing else is left in it |
| EndpointMethods.EditValueSourceEndpoints | crates/dbflux_aws/src/config.rs:1294-1314 | the loop over the services computes the edited body, and the same body if only trailing line breaks differ |
| EndpointMethods.BodyHasProperties | crates/dbflux_aws/src/config.rs:1398-1400 | true exactly if some line has a key |
| EndpointMethods.AppendNewSection | crates/dbflux_aws/src/config.rs:1239-1252 | the text with the section behind a blank line and the body's trailing breaks trimmed |
| EndpointMethods.ReplaceBody | crates/dbflux_aws/src/config.rs:1254-1268 | the offsets cut out exactly the section, which keeps its header line |
| EndpointMethods.RemoveWholeSection | crates/dbflux_aws/src/config.rs:1270-1290 | the offsets cut out exactly the section, and the separator left behind a last section goes too |
| EndpointMethods.NameIsTaken | crates/dbflux_aws/src/config.rs:1207-1237 | true exactly if a section or a reference has the name, ignoring case |
| EndpointMethods.FindFreshName | crates/dbflux_aws/src/config.rs:1207-1237 | the search loop ends, because each taken candidate uses up one of finitely many taken headers, and its result is not taken |
| EndpointMethods.LinkNewServicesSection | crates/dbflux_aws/src/config.rs:1207-1237 | the profile is linked to a new section with a name nobody uses |
| EndpointMethods.SectionIsShared | crates/dbflux_aws/src/config.rs:1144-1199 | true exactly if another profile, not a session, refers to the section |
| EndpointMethods.ApplyValueSourceEndpoint | crates/dbflux_aws/src/config.rs:1144-1199 | the procedure computes the edit the theorems below are about, in all its cases |
| EndpointEditor.SearchProgress | crates/dbflux_aws/src/config.rs:1207-1237 | the number of taken headers not yet tried falls with every taken candidate |
| EndpointEditor.TakenIsMember | crates/dbflux_aws/src/config.rs:1207-1237 | the loop's test is membership in the finite set of taken headers |
| EndpointEditor.FreshNameIsFirst | crates/dbflux_aws/src/config.rs:1207-1237 | the new section is named after the profile, with the first number, if any is needed, that makes the name one nobody uses |
| EndpointMeaning.FreshNameGood | crates/dbflux_aws/src/config.rs:1207-1237 | the new name can be written, read back, and is used by no section and no reference |
| EndpointMeaning.LinkOutcome | crates/dbflux_aws/src/config.rs:1207-1237 | linking a new section gives the profile its endpoint and changes no other entry |
| EndpointMeaning.UnlinkOutcome | crates/dbflux_aws/src/config.rs:1144-1199 | dropping the reference to a shared section removes the endpoint of this profile only |
| EndpointMeaning.ReplaceOutcome | crates/dbflux_aws/src/config.rs:1254-1268 | editing an exclusive section in place changes the endpoint of this profile and of the sessions naming the section, to the same value, and nothing else |
| EndpointTheorems.AppendOutcome | crates/dbflux_aws/src/config.rs:1239-1252 | creating the missing section of a reference gives this profile its endpoint, and the sessions naming it the same, and changes nothing else |
| EndpointTheorems.RemoveOutcome | crates/dbflux_aws/src/config.rs:1270-1290 | deleting an emptied exclusive section and the reference removes the endpoint of this profile and of the sessions naming the section, and changes nothing else |
| EndpointTheorems.ApplyMeansWhatItSays | crates/dbflux_aws/src/config.rs:1144-1237 | for every editable file: afterwards the profile reports exactly the given endpoint, trimmed, or none, if and only if the value is not set under a blank unshared reference and the removal clears the referenced body; a lost value changes nothing the parser sees; in all other cases, shared or emptied, number and order of entries and every other record stay, sessions naming the edited section aside, which get the same endpoint; an unknown profile changes nothing |
| EndpointTheorems.OthersUnchangedIff | crates/dbflux_aws/src/config.rs:1144-1237 | every other record stays if and only if the edit is lost, the reported endpoint does not change, or no session names the section edited in place |
| EndpointKeeps.OtherServicesKeptIff | crates/dbflux_aws/src/config.rs:1144-1237 | for every editable file the services not managed have, in the section referred to afterwards, the endpoints they had: always after setting, after removing if and only if no endpoint line falls to one of them; the other lines of the section stay |
| EndpointKeeps.OtherSectionsKeepText | crates/dbflux_aws/src/config.rs:1144-1237 | every other section, a shared one that is left behind included, keeps its text but for the line breaks that end it |
| EndpointTwice.ApplyTwice | crates/dbflux_aws/src/config.rs:1144-1237 | applying the same edit again returns the same text, byte for byte: always for setting, and for removing if and only if one removal is enough for the referenced section |
| EndpointRoundTrip.ApplyKeepsWellFormed | crates/dbflux_aws/src/config.rs:1144-1237 | an edited file is well-formed again, if and only if the value was not set under a blank unshared reference |
| EndpointRoundTrip.SetThenRemove | crates/dbflux_aws/src/config.rs:1144-1237 | on a profile without a reference, removing undoes setting: the file parses as before, but for the case of the name used by the caller |
| EndpointLimits.BlankFile | crates/dbflux_aws/src/config.rs:1165-1198 | in a file with a blank, unshared reference setting an endpoint changes nothing the parser sees |
| EndpointLimits.RemovedFromFile | crates/dbflux_aws/src/config.rs:1144-1199 | whatever lines the referenced section has, the profile reports after a removal what one reading of them leaves |
| EndpointLimits.GapFile | crates/dbflux_aws/src/config.rs:1374-1396 | in a file with a blank line inside a service, below another managed service, the endpoint is still reported after its removal |
| EndpointLimits.OrphanFile | crates/dbflux_aws/src/config.rs:1374-1396 | with no service open above the blank line the removal works, although the service is not contiguous |
| EndpointLimits.MovedFile | crates/dbflux_aws/src/config.rs:1374-1396 | in a file with a service that is not managed above the blank line, the removal gives it the endpoint |
| EndpointLimits.DuplicateFile | crates/dbflux_aws/src/config.rs:1374-1396 | in a file with a service written twice a second removal changes the text again |
| EndpointLimits.SessionFile | crates/dbflux_aws/src/config.rs:1165-1175 | in a file with a session that names the section of the profile, the session had no endpoint and gets the one set for the profile |
| HeaderCounts.CountReplaced | crates/dbflux_aws/src/config.rs:1068-1102 | replacing a section keeps the number of occurrences of every header |
| HeaderCounts.CountApplied | crates/dbflux_aws/src/config.rs:1144-1237 | setting an endpoint, in any file, takes away no header and adds none but of a services section, and that of the profile exactly if the profile is pointed at a new section and its header is absent |
| ConfigAppend.FindHeaderLine | crates/dbflux_aws/src/config.rs:736-746 | true exactly if some line is the header, ignoring case and surrounding blanks |
| ConfigAppend.AppendIfAbsent | crates/dbflux_aws/src/config.rs:756-785 | the closure computes the transformation the laws below are about |
| ConfigAppend.TransformCount | crates/dbflux_aws/src/config.rs:756-785 | a call appends exactly if the header it looks for is absent, loses no header, and adds its own once; for default in another case the stray header is accounted for |
| ConfigAppend.SerialAppends | crates/dbflux_aws/src/config.rs:756-785 | calls in any order lose no header; but for default in another case they add at most one section per name, and exactly one call per absent name returns true, a stray header counting as one; of default in another case each call that returns true adds one |
| ConfigAppend.OtherCaseCalls | crates/dbflux_aws/src/config.rs:612-640 | in any list of calls those for default in another case return true as long as there is no default section, and never again once one returned false |
| ConfigAppend.OtherCaseTwice | crates/dbflux_aws/src/config.rs:612-640 | the three outcomes of two calls for default in another case: none appends, the first appends and adds a stray header, or both append |
| ConfigAppend.AppendedOnceIff | crates/dbflux_aws/src/config.rs:756-785 | for every name, two calls leave exactly one section more if and only if the header looked for is absent and it is the one written or setting the endpoint adds it |
| ConfigEntries.AppendedHolds | crates/dbflux_aws/src/config.rs:756-785 | a call that finds its header changes nothing; any other adds one entry, the last, with the fields its body gives and the endpoint given, trimmed, and keeps every other entry but for the endpoint of a session that shares the section |
| ConfigEntries.AppendedText | crates/dbflux_aws/src/config.rs:756-785 | without an endpoint the old text stays in front, the new section holds the body word for word, and every other section keeps its text |
| ConfigEntries.SerialHolds | crates/dbflux_aws/src/config.rs:756-785 | after any list of calls the file has the entries it had and, in order, one for each call that returned true, as that call says |
| ConfigEntries.SsoProfileHolds | crates/dbflux_aws/src/config.rs:612-640 | an appended SSO profile has exactly the five values it was given, trimmed, and the endpoint |
| ConfigEntries.SharedProfileHolds | crates/dbflux_aws/src/config.rs:653-673 | an appended shared-credentials profile has exactly the region and the endpoint |
| ConfigEntries.SsoSessionHolds | crates/dbflux_aws/src/config.rs:681-720 | an appended session has exactly the start URL and the region |
| ConfigWriter.WritersAreSerial | crates/dbflux_aws/src/config.rs:513-529 | in every interleaving, with any failures, at every step the file holds what the calls that took effect leave one after another, a missing file read as empty, and exactly those calls returned successfully, if and only if no restoring copy fails and leaves another content |
| ConfigWriter.WriteStepValid | crates/dbflux_aws/src/config.rs:953-991 | every step of the write, failed or not, leaves the old content or the new one, if and only if it is not a restoring copy that fails and leaves another content |
| ConfigWriter.WritersAppendOnce | crates/dbflux_aws/src/config.rs:756-785 | in every interleaving without such a copy the calls that took effect do to every header what they do one after another: none is lost, and but for default in another case no name gets a second section and exactly one successful call per absent name returns true |
| ConfigWriter.WritersHoldEntries | crates/dbflux_aws/src/config.rs:756-785 | in every interleaving without such a copy the file has the entries it had and one for each call that returned true, in the order they took effect, each as its call says |
| ConfigWriter.RestoreCanLoseTheFile | crates/dbflux_aws/src/config.rs:985-988 | one call whose rename and restoring copy fail: the file holds whatever the copy left, and the call reports the error |
| ConfigCache.CachedAwsConfig.Profiles | crates/dbflux_aws/src/config.rs:126-155 | the branches on the two times compute the refreshed cache and return its profiles |
| ConfigCache.CallKeepsValid | crates/dbflux_aws/src/config.rs:126-155 | profiles remembered under the current time of the file are its parse, also when writes land between the two reads of a call |
| ConfigCache.CallReturnsParse | crates/dbflux_aws/src/config.rs:126-155 | a call returns the parse of contents the file had during the call, nothing for a missing file or one whose time cannot be read, and the parse of the file if nothing was written meanwhile |
| ConfigCache.NewCacheAgrees | crates/dbflux_aws/src/config.rs:126-155 | over every run in which writes get new times, every undisturbed call agrees with parsing the file |
| ConfigCache.SameTimeIsMissed | crates/dbflux_aws/src/config.rs:126-155 | a write that keeps the time is missed: the call agrees with the file exactly if the parse did not change |
| ByteSource.ClampRange | crates/dbflux_byte_source/src/lib.rs:122-127 | the range is never inverted, never past the end, and unchanged inside the source |
| ByteSource.SliceHolds | crates/dbflux_byte_source/src/lib.rs:149-163 | the in-memory source returns exactly the bytes whose positions are in the range and in the source |
| ByteSource.ReadRange | crates/dbflux_byte_source/src/lib.rs:207-239 | over an unchanging file every pattern of partial and interrupted reads gives the slice; if the file shrinks, a prefix of it reaching at least to the shortest length seen; it fails if the length cannot be read, and else only if a read failed |
| ByteSourceReader.Reader.Fill | crates/dbflux_byte_source/src/lib.rs:306-339 | the fields after a fill, on every path |
| ByteSourceReader.Reader.Read | crates/dbflux_byte_source/src/lib.rs:343-364 | the buffer holds the bytes delivered in front and is unchanged behind them, and untouched by a failure |
| ByteSourceReader.Reader.Seek | crates/dbflux_byte_source/src/lib.rs:368-385 | the new position or the error, with 64-bit checked arithmetic |
| ByteSourceReader.FillKeeps | crates/dbflux_byte_source/src/lib.rs:306-339 | a fill gets at least 64 KiB from the position on, or all there is, by one request, and none at the end |
| ByteSourceReader.FailureMovesNothing | crates/dbflux_byte_source/src/lib.rs:306-385 | whatever a source answers, a failed call moves no position, and a reply shorter than promised is an unexpected end |
| ByteSourceReader.ReaderRefinesCursor | crates/dbflux_byte_source/src/lib.rs:287-385 | every run of reads and seeks answers as a plain cursor over the bytes: each read the bytes at the position, none only at the end or for an empty buffer, errors only when the source failed or the target is no position |
| ByteSourceReader.SequentialReads | crates/dbflux_byte_source/src/lib.rs:306-364 | sequential reads deliver consecutive bytes, and L bytes cost at most L/65536 requests, rounded up |
| ByteSourceReader.LengthIsRemembered | crates/dbflux_byte_source/src/lib.rs:287-385 | the length is asked for once: known, no call depends on what the source would say; a fetching read and a seek from the end make it known |
| Approval.NormalizedReason | crates/dbflux_approval/src/service.rs:18-33 | a kept reason begins the typed one, is not blank, at most 500 characters, trimmed, and normalizing is idempotent; a short one is kept whole, of a long one only whitespace is dropped from the first 500 characters |
| ApprovalStore.PendingStore.CreatePending | crates/dbflux_approval/src/store.rs:122-138 | one entry more, at the end |
| ApprovalStore.PendingStore.GetPending | crates/dbflux_approval/src/store.rs:140-151 | the first entry with the id that is pending and not expired |
| ApprovalStore.PendingStore.UpdateStatus | crates/dbflux_approval/src/store.rs:153-166 | only the status of the first entry with the id changes |
| ApprovalStore.PendingStore.RecordRejection | crates/dbflux_approval/src/store.rs:172-184 | only status and reason of the first entry with the id change |
| ApprovalStore.PendingStore.ListPending | crates/dbflux_approval/src/store.rs:186-197 | the pending, unexpired entries in their order |
| ApprovalStore.PendingStore.ConsumeApproved | crates/dbflux_approval/src/store.rs:199-219 | the minimum loop takes the first of the oldest usable entries and marks it |
| ApprovalStore.PendingStore.PurgeTerminalAndExpired | crates/dbflux_approval/src/store.rs:221-232 | exactly the finished and expired entries go, and their number is returned |
| ApprovalStore.ApprovalService.RequestExecution | crates/dbflux_approval/src/service.rs:85-95 | the request step of the machine |
| ApprovalStore.ApprovalService.Approve | crates/dbflux_approval/src/service.rs:124-144 | the approval step of the machine, error included |
| ApprovalStore.ApprovalService.Reject | crates/dbflux_approval/src/service.rs:148-169 | the rejection step of the machine, error included |
| ApprovalStore.ApprovalService.ConsumeApproved | crates/dbflux_approval/src/service.rs:112-117 | the use step of the machine |
| ApprovalRuns.StepEvolves | crates/dbflux_approval/src/store.rs:122-232 | every stored execution moves along Pending, Approved, Consumed or Pending, Rejected only, and its plan, id and times never change |
| ApprovalRuns.OldestIsOldest | crates/dbflux_approval/src/store.rs:199-219 | the approval used is no younger than any usable one, the one stored first among equals, and one is used if any is usable |
| ApprovalRuns.RunsAreAdmitted | crates/dbflux_approval/src/service.rs:85-169 | every run answers as a log of requests, approvals, rejections and uses admits, for any purges; if no purge looks ahead of the clock, nothing that waits or may be used is missed and the oldest approval is used |
| ApprovalRuns.UseFollowsApproval | crates/dbflux_approval/src/service.rs:85-169 | every use comes after an approval, which comes after the request, with the same actor, connection, tool and payload, before its expiry |
| ApprovalRuns.UsedOnce | crates/dbflux_approval/src/store.rs:199-219 | no approval is used twice in any run |
| ApprovalHistory.RequestAnswer | crates/dbflux_approval/src/service.rs:81-95 | a request is stored as it was made, pending, and expires after the time to live that was set last |
| ApprovalHistory.DecisionAnswer | crates/dbflux_approval/src/service.rs:124-169 | a decision succeeds only if the execution was asked for, is undecided and unexpired, and whenever it is if no purge looks ahead; it returns what was asked for, an approval with the plan to replay, a rejection with the normalized reason |
| ApprovalHistory.UseAnswer | crates/dbflux_approval/src/store.rs:101-106 | a use takes an approved, unused, unexpired request with the same actor, connection, tool and payload, whatever the classification; if no purge looks ahead it takes one whenever there is one, and the oldest |
| ApprovalHistory.ListAnswer | crates/dbflux_approval/src/store.rs:186-197 | a list holds undecided, unexpired requests, oldest first, and all of them if no purge looks ahead |
| ApprovalHistory.GetAnswer | crates/dbflux_approval/src/store.rs:168-170 | a look-up finds the request as it was made, with the status the answers so far gave it |
| ApprovalHistory.GetFinds | crates/dbflux_approval/src/store.rs:168-170 | and finds everything asked for as long as nothing was purged |
| ApprovalPurge.PurgedKeeps | crates/dbflux_approval/src/store.rs:221-232 | a purge keeps exactly what is pending or approved and not expired |
| ApprovalPurge.StepSameLive | crates/dbflux_approval/src/store.rs:140-232 | services that differ in dead entries only decide alike and stay so, also across purges that look ahead of the clock |
| ApprovalPurge.PurgesAreInvisible | crates/dbflux_approval/src/service.rs:120-168 | erasing any purges that do not look ahead of the clock from a run, whatever other purges it has, leaves every listing, approval, rejection and use as it was, errors included |
| Json.EscapeRoundTrip | crates/dbflux_audit/src/lib.rs:602-608 | a string written in JSON reads back by section 7 of RFC 8259, up to its closing quote |
| AuditTruncation.FindCut | crates/dbflux_audit/src/lib.rs:592-597 | the cut is the last character start below the budget, in bytes |
| AuditTruncation.BuildTruncatedEnvelope | crates/dbflux_audit/src/lib.rs:578-619 | the loop ends for every input; nothing is returned exactly for limits under 33 bytes |
| AuditTruncation.TruncatedFits | crates/dbflux_audit/src/lib.rs:578-619 | from 33 bytes on the envelope keeps to the limit and holds a beginning of the details |
| AuditTruncation.EnforceMaxDetailBytes | crates/dbflux_audit/src/lib.rs:552-566 | the details after the limit, as the law below describes them |
| AuditTruncation.LimitedMeaning | crates/dbflux_audit/src/lib.rs:552-619 | details that fit stay; others are dropped exactly under 33 bytes, else become an envelope within the limit that decodes to a proper beginning of them, cut between characters |
| AuditKept.LoopKeeps | crates/dbflux_audit/src/lib.rs:578-619 | for every text that does not fit, the loop ends within three rounds and keeps the beginning the rounds determine |
| AuditKept.NothingKeptIff | crates/dbflux_audit/src/lib.rs:617-617 | nothing is kept if and only if the first character does not fit what the escaped text leaves of the budget after the first or second round |
| AuditKept.AsciiNothingKeptIff | crates/dbflux_audit/src/lib.rs:617-617 | in ASCII nothing is kept if and only if twice the limit is at most the escaped size of the first limit-1 characters plus 35 |
| AuditKept.PlainTextKept | crates/dbflux_audit/src/lib.rs:578-619 | of plain text all but 34 bytes of the limit are kept |
| AuditKept.QuotesAreDropped | crates/dbflux_audit/src/lib.rs:578-619 | of a printed object whose text is quotes nothing is kept, whatever the limit |
| AuditRecord.StoredDetails | crates/dbflux_audit/src/lib.rs:337-349 | under every setting a stored event has no details or the text of a JSON object within the limit, lacks them only if it came without or the limit is under 33 bytes, and names an actor |
| AuditPrivacy.StoredValue | crates/dbflux_audit/src/lib.rs:522-550 | what is stored is the print of a value, cut to the limit: without capture the text of the query is replaced by its mark and size and every other member kept, with capture nothing is; with redaction no sensitive key holds anything but the marker and the rest is kept but for redacted texts, without it nothing is redacted |
| AuditPrivacy.StoredRest | crates/dbflux_audit/src/lib.rs:522-550 | the message is redacted exactly if redaction is on, and an event without an actor is given the local or the unknown one |
| AuditPrivacy.FingerprintMarks | crates/dbflux_audit/src/lib.rs:644-666 | the query becomes the mark, next to it the size of its text in bytes; the other members and their order stay |
| AuditPrivacy.RefusedIff | crates/dbflux_audit/src/lib.rs:337-349 | an enabled service refuses exactly what does not pass or has details that are no object; a disabled one stores nothing |
| AuditRecord.SkippingIsExact | crates/dbflux_audit/src/lib.rs:622-640 | not writing back a zero-count result equals writing it back exactly if the text is printed as it is written |
| AuditRecord.SkippingWritesTheSame | crates/dbflux_audit/src/lib.rs:622-640 | if printed values print the same again, then on every event that reaches redaction skipping the write-back on zero equals always writing back |
| AuditRedaction.RedactSensitiveText | crates/dbflux_audit/src/redaction.rs:182-194 | the loop over the patterns computes the redacted text and its count |
| AuditRedaction.RedactTextZeroKeeps | crates/dbflux_audit/src/redaction.rs:182-194 | zero redactions leave the text as it is |
| AuditRedaction.ZeroIff | crates/dbflux_audit/src/redaction.rs:182-194 | nothing is counted exactly if there are no credentials in URLs and no pattern occurs |
| AuditRedaction.NothingSurvives | crates/dbflux_audit/src/redaction.rs:182-194 | no pattern occurs in a redacted text, if replacing leaves none and writes none of another |
| AuditRedaction.RedactJsonValue | crates/dbflux_audit/src/redaction.rs:126-170 | the recursion with its counter computes the redacted value and adds its count |
| AuditRedaction.SensitiveIff | crates/dbflux_audit/src/redaction.rs:137-139 | a key is sensitive exactly if it is one of the list, in any case of letters |
| AuditRedaction.RedactedIsClean | crates/dbflux_audit/src/redaction.rs:126-170 | at every depth, for both flag values, no sensitive key holds anything but the marker |
| AuditRedaction.RedactedKeepsRest | crates/dbflux_audit/src/redaction.rs:126-170 | keys, lengths and leaves outside sensitive keys stay; the texts that change are exactly those directly under a key, with the patterns on, each to its redaction |
| AuditRedaction.FullIffQuiet | crates/dbflux_audit/src/redaction.rs:126-170 | every text outside sensitive keys is redacted if and only if the texts in arrays and at the root have nothing to redact |
| AuditRedaction.ArrayTextIsKept | crates/dbflux_audit/src/redaction.rs:126-170 | a text that would be redacted under a key is kept in an array |
| AuditRedaction.RedactTwice | crates/dbflux_audit/src/redaction.rs:126-170 | redaction with the patterns off is idempotent |
| AuditRedaction.ZeroCountKeeps | crates/dbflux_audit/src/redaction.rs:126-170 | a zero count means the value is unchanged |
| AuditRedaction.ZeroCountIff | crates/dbflux_audit/src/redaction.rs:126-170 | with the patterns off the count is zero exactly if no sensitive key is reached |
| AuditRedaction.CountAddsUp | crates/dbflux_audit/src/redaction.rs:126-179 | the count is that of the parts added up: one for a sensitive key, two for each redaction in a text right under another key |
| AuditExport.ExportCsv | crates/dbflux_audit/src/export.rs:29-45 | the loop writes the header and one row per event |
| AuditExport.CsvRoundTrip | crates/dbflux_audit/src/export.rs:25-45 | reading the export by section 2 of RFC 4180 gives the header and one record per event with every field exact |
| AuditExport.ExportExtendedCsv | crates/dbflux_audit/src/export.rs:75-122 | the loop writes the header and one row of 27 fields per event |
| AuditExport.ExtendedCsvRoundTrip | crates/dbflux_audit/src/export.rs:75-122 | the same round trip for all 27 fields |
| AuditExport.DtoRecordInjective | crates/dbflux_audit/src/export.rs:75-122 | two events with the same record differ at most in missing and empty texts |
| AuditColumns.EventsByColumn | crates/dbflux_audit/src/export.rs:29-45 | the plain export reads as a header and one record per event, in order, that holds under each column the field the column is named after |
| AuditColumns.DtosByColumn | crates/dbflux_audit/src/export.rs:75-122 | the same of the 27 columns of the extended export |
| AuditColumns.ExportExtended | crates/dbflux_audit/src/export.rs:48-72 | the exported file is such a table of the events with missing tool and decision completed |
| AuditColumns.CompletedKeeps | crates/dbflux_audit/src/export.rs:52-66 | completing touches only a blank tool and a blank decision, and is idempotent |
| AuditColumns.CompletedTool | crates/dbflux_storage/src/repositories/audit.rs:50-57 | a blank tool becomes the action, without the prefix of approvals and rejections; it stays if the action is missing or empty |
| AuditColumns.CompletedDecision | crates/dbflux_storage/src/repositories/audit.rs:59-75 | a blank decision becomes the outcome, but a successful approval allows, a failed rejection denies, and what was cancelled or is pending fails; no other outcome is changed |
| AuditPivot.Pivot | crates/dbflux_audit/src/lib.rs:824-887 | buckets and labels strictly ascending and exactly those present, each cell the last count of its pair or zero, rows of equal width |
| AuditPivot.PivotUnique | crates/dbflux_audit/src/lib.rs:824-887 | that specification determines the table |
| AuditPivot.PivotConserves | crates/dbflux_audit/src/lib.rs:824-887 | the cells add up to the counts if no pair is given twice |
| AuditPivot.PivotIgnoresOrder | crates/dbflux_audit/src/lib.rs:824-887 | the order of the counts does not matter if no pair is given twice |
| SectionNames.BuildCanonical | crates/dbflux_app/src/aws_config_reflect_migration.rs:167-171 | the lookup from lower-cased names to names, credentials names after config names, the last of equal ones winning |
| SectionNames.OrderFreeIffSettled | crates/dbflux_app/src/aws_config_reflect_migration.rs:167-171 | the lookup is the same for every order of the two sets if and only if credentials names differ by more than case and every two config names that differ by case only have a credentials spelling |
| SectionNames.TwoSpellings | crates/dbflux_app/src/aws_config_reflect_migration.rs:167-171 | two spellings in config make the lookup depend on the order, and a credentials name settles it |
| Migration.Storage.RebindAndDelete | crates/dbflux_app/src/aws_config_reflect_migration.rs:272-371 | if a statement fails or the counts differ nothing has changed; else every binding to the old id moved to the new one, the row is gone, and the number of rebound connections is returned |
| Migration.Storage.RunMigration | crates/dbflux_app/src/aws_config_reflect_migration.rs:142-257 | the run stops exactly if the start, a write of a row or the marker fails, in the state after the rows before the first failure; else it completes and reports the summary the laws below are about; a row whose fields cannot be read is treated by its display name and stops nothing |
| Migration.RestartIsSafe | crates/dbflux_app/src/aws_config_reflect_migration.rs:142-257 | a run stopped after any number of rows and started again ends where one uninterrupted run ends, if the same rows can be read |
| Migration.InterruptionsAreInvisible | crates/dbflux_app/src/aws_config_reflect_migration.rs:142-257 | so do any number of interrupted runs |
| Migration.LaterRunsChangeNothing | crates/dbflux_app/src/aws_config_reflect_migration.rs:150-154 | after a completed run later runs change nothing, whatever the files say then |
| MigrationReads.UnreadMakesNoDifferenceIff | crates/dbflux_app/src/aws_config_reflect_migration.rs:173-190 | a run in which the fields of some rows cannot be read ends where it would with all of them read if and only if each row is matched as if it were read and each binding in use leads to the same id |
| MigrationReads.UnreadIsHarmlessIff | crates/dbflux_app/src/aws_config_reflect_migration.rs:173-190 | row by row: if and only if each unread row is matched as if it were read, and to the same id unless nothing is bound to it, where no derived id is the id of another row |
| MigrationReads.RestartRepairsIff | crates/dbflux_app/src/aws_config_reflect_migration.rs:142-257 | stopped after any number of rows and started again with all rows read, it ends where an undisturbed run ends if and only if no row was rebound that is not to be, and each to its own id unless nothing was bound to it |
| MigrationReads.UnreadRowIsLost | crates/dbflux_app/src/aws_config_reflect_migration.rs:173-190 | one failed read of the fields of an imported profile: the run completes, and no later run moves its connection off the old id |
| Migration.BindingsFollow | crates/dbflux_app/src/aws_config_reflect_migration.rs:272-371 | no connection and no access parameter is lost or added, and each binding follows the rows that are rebound |
| Migration.BindingsSettle | crates/dbflux_app/src/aws_config_reflect_migration.rs:142-371 | however often the run is interrupted, connections and access parameters keep bindings to unmatched rows and move from matched rows to the derived ids, if no derived id is the id of another row |
| Migration.EachRowIsReported | crates/dbflux_app/src/aws_config_reflect_migration.rs:142-257 | each AWS row is reported once, as rebound or as dangling |
| Migration.CountsAddUp | crates/dbflux_app/src/aws_config_reflect_migration.rs:142-257 | the counts reported add up to the connections that were bound to matched rows |
| MigrationRows.RowsSettle | crates/dbflux_app/src/aws_config_reflect_migration.rs:142-257 | after a completed run exactly the AWS rows whose section is in the files are gone; the others are there, in order, the AWS rows among them marked by where their secret may be |
| MigrationRows.MatchedIff | crates/dbflux_app/src/aws_config_reflect_migration.rs:173-193 | a row is matched exactly if its profile name, or if that is missing, blank or unread its display name, is a section of the files in any case; its id is derived from the section as the files spell it, static credentials as shared ones |
| ImportPersistence.HydratedFields | crates/dbflux_app/src/portability.rs:364-381 | an auth profile is hydrated with exactly the fields its secrets name, each with the last secret given |
| ImportPersistence.PersistConnections | crates/dbflux_app/src/portability.rs:406-429 | the loop inserts every connection in order and sorts it into one of the three lists |
| ImportPersistence.PersistSecrets | crates/dbflux_app/src/portability.rs:440-454 | the loop writes exactly the secrets whose owner was not skipped and records the failures |
| ImportPersistence.PersistImportActions | crates/dbflux_app/src/portability.rs:347-457 | trace and outcome are those the laws below are about |
| ImportPersistence.WritesAreOrdered | crates/dbflux_app/src/portability.rs:347-457 | auth profiles, tunnels and proxies before connections, connections before secrets |
| ImportPersistence.ConnectionsPartitioned | crates/dbflux_app/src/portability.rs:406-429 | each connection is in exactly one of succeeded, needs-driver and config-failed, as often as it is given |
| ImportPersistence.OwnerIsUnique | crates/dbflux_app/src/portability.rs:431-454 | a reference that starts with that of one connection starts with that of no other |
| ImportPersistence.SecretsFollowConnections | crates/dbflux_app/src/portability.rs:431-454 | a secret of a connection is attempted if and only if every connection with that id was inserted |
| ImportPersistence.OtherSecretsAreWritten | crates/dbflux_app/src/portability.rs:440-454 | every other secret is attempted |
| ImportPersistence.FailuresAreReported | crates/dbflux_app/src/portability.rs:449-454 | the failures reported are exactly the attempted writes that failed |
| ImportLaws.EachOnce | crates/dbflux_app/src/portability.rs:382-454 | every profile, tunnel, proxy and connection is asked for once, in order; of the secrets, in order, exactly those with no skipped owner |
| ImportLaws.HydratedNext | crates/dbflux_app/src/portability.rs:382-392 | a profile with secrets is hydrated right after it is added, with its fields, and no other is |
| ImportLaws.AuthFieldReads | crates/dbflux_app/src/portability.rs:368-380 | a reference names the profile before the first colon and the field behind it |
| ImportLaws.SucceededList | crates/dbflux_app/src/portability.rs:382-418 | what succeeded are all profiles, tunnels and proxies and, in order, exactly the connections that were inserted |
| ImportLaws.FailureLists | crates/dbflux_app/src/portability.rs:351-428 | the connections without a driver are listed with it, those refused with the reason, behind the kinds that could not be read |
| ImportLaws.SecretFailures | crates/dbflux_app/src/portability.rs:439-454 | of the secrets written, in order, exactly those whose write failed are reported |

## Left out

- Text.Lower: lower-cases ASCII letters only, where the source mixes Unicode lower-casing and ASCII comparison; headers and keys that differ in the case of other letters are not modelled.
- Sections.FindSectionStart: offsets are positions of characters, not of UTF-8 bytes; both count the same prefix of the text.
- EndpointMethods.FindFreshName: the suffix is an unbounded number; it cannot overflow 32 bits before two billion names are taken.
- ConfigEntries.AppendedHolds: where an endpoint is set it asks for a well-formed file and a call that looks for the header it writes, with a tidy body that names no section without a name (`Sound`), as every body the three callers write is (`PlainCall`); other calls have the laws on headers in `ConfigAppend` only.
- ConfigWriter.WriteStepValid: each file-system call is one step, and a failed one leaves anything in the file it writes; a crash in the middle of a call, the names of backups and permission bits are not modelled.
- ConfigCache.CachedAwsConfig.Profiles: the second cache of the same shape, for names in the credentials file, and the union of both are left out as they would only repeat this one.
- ByteSource.ReadRange: 64-bit platforms only, where every length fits in memory sizes; a file that grows or changes in place while it is read is not modelled.
- ApprovalStore.ApprovalService.RequestExecution: the expiry is an unbounded integer; overflow of 64-bit milliseconds and errors of other stores are not modelled.
- AuditRecord.StoredDetails: JSON reading and printing, regular expressions, the redaction of URLs and SHA-256 are parameters with the laws in `Sound`, which can be met (`SoundIsPossible`); nesting beyond the JSON reader's depth limit and the rules of event validation are not modelled.
- AuditRecord.SkippingWritesTheSame: assumes that a printed value prints the same again after it is read (`Reprints`), which the JSON library does not promise for every floating-point number; `SkippingIsExact` needs no such law.
- AuditPrivacy.StoredValue: assumes that a printed value reads as itself (`ReadsBack`) and that an empty text is no JSON, which can be met together with `Sound` (`ReadsBackIsPossible`); the JSON library does not promise it for every floating-point number.
- AuditRedaction.NothingSurvives: the regular expressions are parameters; that the six of the source satisfy `Separate` is not proved.
- AuditColumns.ExportExtended: the JSON format of the exporters is left to the JSON printer.
- AuditPivot.Pivot: column metadata and the elapsed time are not modelled.
- Migration.Storage.RunMigration: a rolled back transaction leaves nothing behind; field rows of deleted profiles, log lines and the text of errors are not modelled, and ids derived from names are a parameter, as is the set of rows whose fields cannot be read.
- MigrationReads.RestartRepairsIff: one interrupted run and a restart with all rows read; several interrupted runs that each fail to read other rows have no law of their own.
- Migration.BindingsSettle: where a derived id is the id of another stored row, `BindingsFollow` says where a binding leads, and no shorter law is stated.
- ImportPersistence.PersistImportActions: the answers of the driver registry and of the keyring are parameters in the order they are asked; building the actions of an import is not modelled.
- User interface, command line, drivers, AWS network calls, SSO account listing, the history manager, dashboards and their caches: foreign calls or simple updates.

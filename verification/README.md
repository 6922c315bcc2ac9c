# Verified model of the Neon CLI's file editors, credential runs and live-query adapter

This project models the parts of the repository whose correctness does not show in any one
function, and proves what they promise.

* **The `neon.ts` editor.** `classify` labels every character of a source file as code, comment or
  literal; `scanObject` splits an object literal on its top-level commas; `config_edit` splices text
  in at computed offsets and never builds a tree. `SourceLexer`, `ObjectScan` and `ConfigEdit` define
  all of it. `LexerTokens`, `LexerShift` and `LexerSplice` say what the labels mean and how they move
  with the text. `ConfigSplice`, `ConfigAppend`, `ConfigInsert`, `ConfigReplace`, `ConfigValue` and
  `ConfigFind` read a spliced file back; `ConfigEntries` and `ConfigNested` find entries again by name,
  objects inside objects; `ConfigLines` and `ConfigFields` are the lines the editor writes. What an
  edit leaves: `ConfigConverge`, `ConfigDeclares` and `ConfigRefused` for the services, `ConfigLands`,
  `ConfigRealtime` and `ConfigPlaces` for functions, buckets and Realtime, with `ConfigGrowth` and
  `ConfigSwallowed` for lines that land in a block comment, and `ConfigAccepted` for what the
  read-back accepts. `ConfigExamples` are two files whose edits it refuses and `ConfigOverrun` is one
  whose edit it accepts wrongly, read by way of `ConfigLayout`. `ConfigSteps` undoes an edit of any
  kind. `SourceClassifier` and `ConfigEditor` are the loops of the two files, over one array of labels.
  What all of this means on the text is said apart from the machine and its steps, with every
  character, word and name written out: `SourceGrammar` is a grammar of tokens, to which
  `GrammarRuns` and `GrammarReads` hold the labels; `ObjectGrammar` does so for object literals,
  `ConfigFound` for finding and reading a file, `ConfigPlacing` for where lines go, `ConfigWrites`
  for what they hold, `ConfigStates` for what an entry declares, and `ConfigIntent` for each step.
* **Branch credentials.** `Credentials` is the API as a world (credentials, what will be issued, which
  calls fail, the calls so far); `BranchEnv` is `fetchEnvKeysState`; `ReuseSecrets` is
  `fetchEnvReusingSecrets`. `ReuseDiscipline`, `ReuseFixedPoint` and `ReuseSettles` hold the proofs,
  `ReuseUnsettled` runs that mint again, and `NeonApi.dfy` the runs as calls on one object.
  `BranchValues`, `BranchAnswers` and `BranchCalls` say of a fetch what it returns, when it succeeds
  and which calls it makes, by the branch alone; `ReuseOutcomes` says it of a run that reuses secrets.
* **The live-query adapter.** `CollectionSync` is the sync closure as a state machine, with the
  server's rows and the host's collection beside it; `CollectionRefinement` and `CollectionLifecycle`
  hold for every run; `CollectionReports` tells the whole trace of calls by the events;
  `RealtimeSync.Adapter` is the object its handlers update.
* **Text formats.** `EventStream`, `HarmonyBody` and `HarmonyFrames` (streamed responses), `EnvFile*`
  (dotenv files), `ArrayLiteral`, `ArrayParse` and `ArrayText` (PostgreSQL array literals),
  `EditDistance`, `HumanTable` and `TableCells`. `Trimming` says what `trim` takes away.
* **Two file protocols.** `AnonymousId` and `RefreshLock`, as steps of any number of calls;
  `RefreshRace` is the lock with every system call a step of its own. `IdOutcomes` says when a call
  comes back without an id, and `LockTimes` when one waits or gives up, by the clock.

## Where the code and what is written about it differ

* `insertEntry` is described as a splice above an entry or at the end. Where a block comment covers
  the insertion point, the new line becomes part of the comment. The read-back in `editNeonConfig`
  refuses the edit then (`ConfigExamples.CommentedPlaceRefused` is such a file), unless the line's own
  text ends the comment. `ConfigRefused.EditAppliesIff` gives the exact condition for each service,
  whose lines cannot end a comment, both steps of the Data API included; `ConfigPlaces.EditLandsIff`
  for functions, buckets and Realtime.
* The read-back is described as making sure that the result declares what was asked for. It looks for
  the name of a function or bucket, not for its value (`ConfigAccepted.Declares`). A name or path that
  holds `*/` can end the comment its line was put in and bring an old entry of that name to light:
  `ConfigOverrun.OverrunAccepted` is a file where the edit is accepted with its change reported though
  neither the name nor the source asked for is declared. `ConfigPlaces.AcceptedAsWritten` says what
  rules that out: text without `*/`, or a place that no comment covers.
* A function or bucket whose name is written with an escape cannot be read back: `scanObject` reads no
  name from an escaped key, and objects with a nameless entry are refused. So is the edit:
  `ConfigExamples.EscapedNameRefused`. The condition is part of `ConfigPlaces.EditLandsIff`.
* `fetchEnvReusingSecrets` accepts a selection that names one of the two storage keys. A run for only
  `AWS_SECRET_ACCESS_KEY` can leave the persisted key id naming another credential, so the next run
  mints again: `ReuseUnsettled.LoneKeyReissues`. So it does when a run keeps one half and revokes the
  credential it shares with the other: `ReuseUnsettled.SharedReissues`. `ReuseSettles.ReuseIsFixedPoint`
  gives the exact condition, and `ReuseUnsettled.ReissuesIff` shows that such runs do happen.
* `readEnvFile` is described as matching the quoting that `mergeEnvFile` writes. A value that holds a
  carriage return or a Unicode line separator is written but not read:
  `EnvFile.FormatReadsBack` is an equivalence.
* `withExclusiveLock` catches an EEXIST that `fn` itself throws and runs `fn` again;
  `RefreshLock.LockSafety` counts those runs. A minute is exactly what `fn` may take:
  `RefreshLock.ExclusiveIffInTime`.
* `withExclusiveLock` looks at the lock file and removes it in two system calls, and takes a missing
  file for a stale one, so a waiter can remove a lock made in between. `RefreshRace.ExclusiveIff` says
  exactly when it still excludes: one call, or two without a file left before, whose `fn` are in time
  and throw no EEXIST.
* `getOrCreateAnonymousId` is described as letting the losers adopt the winner's id. Over a file
  without an id, and after a failed read of the winner's, two calls can return different ones:
  `AnonymousId.AgreeIff`. `AnonymousId.TempOutlivesIff` says when a temporary file is left behind.

## Model

| member | source | states |
|---|---|---|
| SourceClassifier.ReadsAsRegex | packages/cli/src/config_source.ts:51-69 | the backward scan over spaces and comments decides a `/` as `OpensRegex` does; on the text that is `GrammarReads.SlashReadsAs` |
| SourceClassifier.ScanTemplateText | packages/cli/src/config_source.ts:86-105 | template text is labelled up to its backtick or next `${`, which is pushed on the stack; otherwise it is unterminated |
| SourceClassifier.Classify | packages/cli/src/config_source.ts:72-177 | the loop over one array and a stack of interpolations terminates on every text with the labels, or the error, of the small-step machine; what these are is `GrammarReads.ClassifyIsGrammar` and `GrammarReads.ClassifyFailsIff` |
| LexerTokens.TemplateIsSolid | packages/cli/src/config_source.ts:86-105 | from inside an interpolation, however nested, reading reaches the backtick of the outermost template, and all of it is literal |
| LexerTokens.NextToken | packages/cli/src/config_source.ts:108-172 | from a top-level offset the text goes on with one token of one label, whose labels are final |
| LexerTokens.CodeIsTopLevel | packages/cli/src/config_source.ts:72-177 | every offset labelled code was reached with no interpolation open |
| LexerTokens.TokenBoundary | packages/cli/src/config_source.ts:72-177 | where labels change, and at every code character, reading has no interpolation open and the labels so far are final |
| LexerSplice.Locality | packages/cli/src/config_source.ts:72-177 | labels up to a token boundary do not depend on the text after it |
| LexerSplice.SuffixLabels | packages/cli/src/config_source.ts:72-177 | text from a boundary on is labelled the same after anything that leaves a `/` to be read the same way |
| LexerSplice.SpliceLabels | packages/cli/src/config_source.ts:72-177 | replacing a stretch between boundaries keeps the labels on both sides |
| GrammarReads.ClassifyIsGrammar | packages/cli/src/config_source.ts:72-177 | `classify` gives labels exactly when the text is a row of comments, strings, regular expressions, templates with nested code, and single characters, each labelled as that kind: both directions, over a grammar that does not mention the machine |
| GrammarReads.SlashReadsAs | packages/cli/src/config_source.ts:27-69 | between tokens a `/` that starts no comment is literal, body, class brackets and flags included, exactly when no solid character is before it, or the last one is one of twenty listed punctuators, or it ends one of thirteen listed words, and is no literal; else it is code |
| GrammarReads.TokenAt | packages/cli/src/config_source.ts:72-177 | at every boundary of a labelled text one token of the grammar stands, and its stretch has the label of its kind |
| GrammarReads.ClassifyFailsIff | packages/cli/src/config_source.ts:72-177 | `classify` fails with a construct and an offset exactly when reading comes there to that construct and nothing closes it, or to the end of the text inside an interpolation |
| Text.ClassesAre | packages/cli/src/config_source.ts:44-45 | which characters are spaces, identifier characters, digits, letters and line terminators, by code point |
| SourceClassifier.ReadEntryLoop | packages/cli/src/config_source.ts:225-268 | the loops over trivia and the name read the entry between two offsets |
| SourceClassifier.ScanObjectLoop | packages/cli/src/config_source.ts:271-311 | the loop over depth and entry start splits the literal at its top-level commas, or reports how it is unbalanced |
| ObjectScan.ScanObjectWithin | packages/cli/src/config_source.ts:271-311 | the entries of an object literal lie between its braces |
| ObjectGrammar.ScanObjectIs | packages/cli/src/config_source.ts:271-311 | an object literal is scanned to the `}` at which the brackets in code balance, and its entries are what stands between the commas in code at no depth; each failure happens exactly when the brackets say so |
| ObjectGrammar.EntryIs | packages/cli/src/config_source.ts:225-268 | an entry has the name it starts with, quoted without an escape or an identifier, is keyed exactly when a colon in code follows that, and then its value is everything behind, leading spaces and comments aside |
| ConfigEntries.ObjectMoved | packages/cli/src/config_source.ts:271-332 | an object literal whose text and labels moved is read as the same one, moved |
| ConfigFind.SpliceKeepsConfig | packages/cli/src/config_source.ts:339-373 | a splice behind the config object that adds or cuts no match leaves the same object to be found |
| ConfigFound.FoundIff | packages/cli/src/config_source.ts:339-373 | the config object is found exactly when the code holds one `defineConfig(` or `export default {` and what it opens is a brace |
| ConfigFound.ParseIs | packages/cli/src/config_edit.ts:100-146 | a file is read exactly when it is labelled, holds one policy and scans, and no entry of the policy is nameless or named twice; both refusals exactly, and the line break |
| ConfigFound.UnitIs | packages/cli/src/config_edit.ts:104-111 | one level of indentation is what the first entry's line has more than the brace's, or two spaces |
| ConfigSplice.InsertBeforeReadsBack | packages/cli/src/config_edit.ts:205-227 | text holding one entry, put above another one, is read back as the old entries in order with exactly the new one before it |
| ConfigAppend.InsertLastReadsBack | packages/cli/src/config_edit.ts:233-256 | text holding one entry, put behind the last one with the separator it lacks, is read back as the old entries and the new one |
| ConfigAppend.InsertFirstReadsBack | packages/cli/src/config_edit.ts:176-192 | text holding one entry, put in an empty object, is read back as that entry |
| ConfigReplace.ReplaceReadsBack | packages/cli/src/config_edit.ts:353-359 | a word of an entry replaced by another is read back as the same entries with that one grown |
| ConfigInsert.InsertReadsBack | packages/cli/src/config_edit.ts:165-257 | wherever `insertEntry` puts lines that read as one entry, they are read back as that entry, above the one named or last, with every other entry, the text around the object and the config object found as before |
| ConfigPlacing.InsertIs | packages/cli/src/config_edit.ts:165-257 | the text that `insertEntry` makes, exactly: the lines indented like the first entry and put into an empty object, above an entry and the comment lines over it, or below the last one with a comma if none follows it on its line |
| ConfigPlacing.JoinedThree | packages/cli/src/config_edit.ts:176-190 | a container is three lines, each indented, with line breaks between them |
| ConfigPlacing.InsertRefusedFor | packages/cli/src/config_edit.ts:165-257 | each refusal, by what stands in the way |
| ConfigPlacing.EntryAfterIs | packages/cli/src/config_edit.ts:77-90 | a new key goes above the first entry that comes behind it in the order auth, dataApi, aiGateway, functions, buckets, triggers, preview, branch, experimental |
| ConfigNested.OuterChanged | packages/cli/src/config_source.ts:271-332 | when the object literal an entry holds has changed, the object around it is read with that entry resized and nothing else changed |
| ConfigValue.ValueReplaced | packages/cli/src/config_edit.ts:434-466 | a value of any kind replaced by a word, a list or an object is read back as the same entries, that one with the new value |
| ConfigLines.FunctionIsValue | packages/cli/src/config_edit.ts:545-565 | the line written for a function is one `key: value` with balanced brackets and quoted text, whatever its slug, name and path hold and for env names without quotes, slashes and brackets |
| ConfigLines.RealtimeIsValue | packages/cli/src/config_edit.ts:362-368 | so is the value written for Realtime, whatever the origins hold |
| ConfigLines.KeyReadsIff | packages/cli/src/config_source.ts:243-256 | a name written as a key is read back exactly when it is an identifier or holds no quote, backslash or control character |
| ConfigWrites.StringReadsBack | packages/cli/src/config_template.ts:226-227 | every string the editor quotes is read back by a JSON reader as the same string, whatever follows it |
| ConfigWrites.ListReadsBack | packages/cli/src/config_edit.ts:362-368 | and so is every list of origins |
| ConfigWrites.RealtimeValueIs | packages/cli/src/config_edit.ts:362-368 | a Realtime value is `false`, `true`, or `{ allowedOrigins: ` and a list that is read back as the origins |
| ConfigWrites.FunctionLineIs | packages/cli/src/config_edit.ts:545-565 | a function's line is its slug, `name` and `source` quoted, and each variable of its env as `process.env.` and its name, with `!` in TypeScript |
| ConfigWrites.BucketLineIs | packages/cli/src/config_edit.ts:567-573 | a bucket's line is its name and `private` or `public_read` |
| ConfigLines.LineReadsAsOne | packages/cli/src/config_edit.ts:545-575 | such a line reads as one entry, however it is indented and ended |
| ConfigLines.ContainerReadsAsOne | packages/cli/src/config_edit.ts:492-510 | and so does a container with that line in it |
| ConfigFields.LineGained | packages/cli/src/config_edit.ts:513-519 | put in an object, in code, the line is read back under its name with its value as written, or under no name when the key has an escape |
| ConfigFields.ContainerGained | packages/cli/src/config_edit.ts:492-510 | a new container is read back as an object literal whose one entry says that |
| ConfigConverge.InsertToggle | packages/cli/src/config_edit.ts:334-350 | however it is placed, the line `key: true,` is read back as a new entry that says true, the others keeping text and labels |
| ConfigConverge.StepDeclares | packages/cli/src/config_edit.ts:334-360 | a step that changed the file declares the service switched on and keeps every other entry |
| ConfigConverge.StepIsStable | packages/cli/src/config_edit.ts:334-360 | the step repeated on its own result changes nothing |
| ConfigStates.ToggleIs | packages/cli/src/config_edit.ts:294-332 | a service is on exactly when its entry says `true`, or is an object whose `enabled` says `true` or is absent; where it is off, the word to change is the `false` of the entry or of its `enabled` |
| ConfigStates.ProviderIs | packages/cli/src/config_edit.ts:469-483 | a third party verifies the Data API exactly when its object says `authProvider` is `external` in quotes, with or without `as const`; Neon Auth does when there is no such object or entry, or it says `neon` |
| ConfigStates.PreviewIs | packages/cli/src/config_edit.ts:267-288 | a key is taken not to stand under `preview` exactly when there is no such entry or its object does not hold the key; both refusals exactly |
| ConfigEntries.PreviewKept | packages/cli/src/config_edit.ts:267-288 | what is not declared under `preview` is not there after another key was added |
| ConfigDeclares.ExternalKept | packages/cli/src/config_edit.ts:469-483 | the answer to whether a third party verifies the Data API is the same wherever its object has moved; which text gives which answer is `ConfigStates.ProviderIs` |
| ConfigDeclares.EditDeclares | packages/cli/src/config_edit.ts:522-600 | with every line placed in code, an edit that turns a service on succeeds as soon as its steps do, and the file declares the service |
| ConfigStates.ServicesDeclared | packages/cli/src/config_edit.ts:522-600 | what the read-back asks for each service, on the text of the entries: for the Data API that it is on, and Neon Auth too unless the file says `external` |
| ConfigStates.DataApiEdit | packages/cli/src/config_edit.ts:535-548 | every Data API edit that goes through leaves it on; where the file said `neon` or named no provider Neon Auth is on as well; where it said `external` there is one step, and an absent `auth` stays absent |
| ConfigGrowth.ObjectGrown | packages/cli/src/config_source.ts:271-311 | when a block comment grows, an object around it keeps the names of its entries |
| ConfigSwallowed.InsertSwallowed | packages/cli/src/config_edit.ts:165-257 | lines without a comment terminator, put where a block comment covers the place, leave the object with entries of the same names, and those behind the place with their text |
| ConfigRefused.EditAppliesIff | packages/cli/src/config_edit.ts:586-600 | turning a service on goes through exactly when no block comment covers the place of a line it puts in, the Neon Auth line of a Data API edit included |
| ConfigAccepted.AcceptedIffDeclared | packages/cli/src/config_edit.ts:581-600 | once its steps succeed, an edit of any kind is accepted exactly when the text they gave declares what it asks for, as the read-back means it: a service that is on (on its text: `ConfigStates.ServicesDeclared`), Realtime with its value or origins, an entry under the name of the function or bucket |
| ConfigAccepted.AcceptedDeclares | packages/cli/src/config_edit.ts:581-600 | every file an edit of any kind returns declares that; for the Data API on its text: `ConfigStates.DataApiEdit`; the value of the function or bucket is what `AcceptedAsWritten` adds |
| ConfigLands.NewInContainer | packages/cli/src/config_edit.ts:486-520 | a new entry of `functions` or `buckets` put where code is stands there as written exactly when its key can be read; put in a comment, a line without a comment terminator declares nothing |
| ConfigRealtime.NewOrigins | packages/cli/src/config_edit.ts:411-431 | new origins, three objects down, are declared when their line goes where code is; put in a comment, a line without a comment terminator declares nothing |
| ConfigPlaces.EditLandsIff | packages/cli/src/config_edit.ts:362-600 | a function, bucket or Realtime edit goes through when it needs no new line, or its line goes where no block comment covers the place, under a key that is read back as the name; and only then, unless its own text holds a comment terminator and lands in a comment |
| ConfigPlaces.AcceptedAsWritten | packages/cli/src/config_edit.ts:522-600 | an accepted edit of any kind that reports a change leaves a file that says it with its values as asked for, when its text holds no comment terminator or goes where no comment covers the place |
| ConfigExamples.CommentedPlaceRefused | packages/cli/src/config_edit.ts:229-257 | a file in which the line for the AI Gateway lands in a comment: the step succeeds and the edit is refused |
| ConfigExamples.EscapedNameRefused | packages/cli/src/config_edit.ts:567-573 | an empty policy and a bucket name with a quote in it: the step succeeds and the edit is refused |
| ConfigOverrun.OverrunAccepted | packages/cli/src/config_edit.ts:581-600 | a file and a function named `*/ //`: the edit is accepted with its change reported, its place is in a comment, and the entry found says neither the name nor the source asked for |
| ConfigSteps.StepIsOneSplice | packages/cli/src/config_edit.ts:522-579 | a changing step of any kind inserts one block of the declaring lines and at most one comma, removing only spaces, or replaces the value of the entry it names; undone, it gives the old text |
| ConfigSteps.StepUnchanged | packages/cli/src/config_edit.ts:334-520 | a step of any kind that reports no change returns its source |
| ConfigIntent.StepIs | packages/cli/src/config_edit.ts:334-579 | a step of any kind gives a text and a change exactly when its entries call for them: which line goes where, which word is replaced, when nothing is to do, and that every other file is refused |
| ConfigSteps.EditIsReversible | packages/cli/src/config_edit.ts:586-600 | an edit makes one splice for each reported change, and taking them back restores the file |
| ConfigSteps.EditIsIdempotent | packages/cli/src/config_edit.ts:586-600 | editing the result of any edit again gives the same text and no changes |
| ConfigEditor.ClimbComments | packages/cli/src/config_edit.ts:213-226 | the loop climbs over the comment lines that describe an entry |
| ConfigEditor.FindSeparator | packages/cli/src/config_edit.ts:235-247 | the loop finds whether a separator follows the last entry, and refuses one on a later line |
| ConfigEditor.InsertEntryText | packages/cli/src/config_edit.ts:165-257 | the branches and loops of `insertEntry` give the text, or the refusal, the read-back lemmas are about |
| ConfigEditor.ApplySteps | packages/cli/src/config_edit.ts:522-579 | the loop runs each step on the text the one before left, and collects the changes in order |
| Credentials.ResolveDisciplined | internals/env-core/src/env.ts:1384-1459 | resolving lists, reveals the live defaults of the halves asked for, mints at most once for exactly the halves without one, and never revokes |
| Credentials.ResolvedSecrets | internals/env-core/src/env.ts:1384-1485 | each half's secrets are those of its default, or of the one minted credential |
| BranchEnv.PlanAgrees | internals/env-core/src/env.ts:885-1185 | no dependency the execution needs is left out of the plan, and on success the returned keys are exactly the wanted policy keys, plus the suffix when it is selected or the mode is `always` |
| BranchEnv.ReadBranch | internals/env-core/src/env.ts:885-1105 | apart from the credential there are only reads, and on success everything the selected keys depend on was read; with which values is `BranchValues.FetchedValues` |
| BranchValues.FetchedKeys | internals/env-core/src/env.ts:885-1185 | a successful fetch returns exactly the vars asked for that the policy provides, written out key by key |
| BranchValues.FetchedValues | internals/env-core/src/env.ts:885-1185 | each returned var has its value on the branch: the pooled URI under `DATABASE_URL` and the direct one under `DATABASE_URL_UNPOOLED`, for the role and database requested or picked; name and id; suffix and gateway URL from the host; the auth, Data API, Realtime and storage settings under their keys |
| BranchAnswers.FetchSucceedsIff | internals/env-core/src/env.ts:885-1185 | when every call is answered a fetch succeeds exactly when the branch has what each asked and provided var needs |
| BranchCalls.FetchTakes | internals/env-core/src/env.ts:885-1185 | all calls of a successful fetch in order: the reads its vars depend on, then listing, reveals and mint |
| BranchCalls.FetchedSecrets | internals/env-core/src/env.ts:1347-1485 | each returned secret is that of the first live credential with the default name of its half, or of the one minted for the halves without one |
| BranchEnv.InPolicy | internals/env-core/src/env.ts:1294-1323 | the policy's keys are those of its enabled features |
| BranchEnv.EntriesHave | internals/env-core/src/env.ts:1712-1738 | the entries hold exactly the resolved properties, each under its own key |
| ReuseDiscipline.NoSecretNoCall | internals/env-core/src/reuse-secrets.ts:184-206 | without a selected secret of an enabled feature, a run makes reads only |
| ReuseDiscipline.CallDiscipline | internals/env-core/src/reuse-secrets.ts:208-317 | a run mints at most once, for new halves without a default; it reveals only defaults; revokes come last, after a successful fetch, and only of leftovers this tool minted that a replaced half named |
| ReuseDiscipline.SupersededIsOurs | internals/env-core/src/reuse-secrets.ts:287-301 | every such leftover is among those to revoke |
| ReuseFixedPoint.TokenNames | internals/env-core/src/reuse-secrets.ts:360-362 | a token `nt_live_<short>_<secret>` names its credential |
| ReuseFixedPoint.DefaultsSurvive | internals/env-core/src/reuse-secrets.ts:287-306 | no platform default is ever revoked |
| ReuseFixedPoint.KeptStorageRevoked | internals/env-core/src/reuse-secrets.ts:287-306 | the credential behind a kept storage half is revoked exactly when the gateway half was replaced, named it too, and this tool minted it |
| ReuseFixedPoint.KeptGatewayRevoked | internals/env-core/src/reuse-secrets.ts:287-306 | the same with the halves exchanged |
| ReuseFixedPoint.RunLeaves | internals/env-core/src/reuse-secrets.ts:208-317 | how a successful run changes the credentials, and which credential each persisted secret comes from |
| ReuseOutcomes.ReuseReturns | internals/env-core/src/reuse-secrets.ts:104-318 | what every successful run returns: a half is kept exactly when its persisted secrets name a live credential that is the default or has the scopes; kept vars as persisted, all else from the branch, and the leftovers |
| ReuseOutcomes.ReuseTakes | internals/env-core/src/reuse-secrets.ts:104-318 | all calls of a successful run in order: a listing where something persisted is to be judged, the fetch, a revoke for each leftover |
| ReuseOutcomes.DeadIsPassed | internals/env-core/src/env.ts:1337-1372 | a credential that is revoked, or whose expiry is not in the future, keeps no half and is no default |
| ReuseSettles.SecondRunKeeps | internals/env-core/src/reuse-secrets.ts:396-404 | which halves a second run keeps, decided from the first call alone |
| ReuseSettles.ReuseIsFixedPoint | internals/env-core/src/reuse-secrets.ts:198-317 | a second run on what a first one returned mints, reveals and revokes nothing and returns the same secrets exactly when the first call settles; else it issues anew |
| ReuseSettles.PairSettles | internals/env-core/src/reuse-secrets.ts:198-317 | with both storage keys selected or neither, only a credential shared by both halves can unsettle a run |
| ReuseUnsettled.ReissuesIff | internals/env-core/src/reuse-secrets.ts:184-317 | two runs for secrets only, with every call answered: both succeed, and the second issues anew exactly when the first does not settle |
| ReuseUnsettled.LoneKeyReissues | internals/env-core/src/reuse-secrets.ts:208-317 | a run for only the secret key beside a stale id: it mints, and so does the next |
| ReuseUnsettled.SharedReissues | internals/env-core/src/reuse-secrets.ts:208-317 | a run that keeps the storage half of a credential shared with the gateway half mints and revokes it, and the next one mints again |
| NeonApiRuns.ResolveSecrets | internals/env-core/src/env.ts:1384-1485 | the sequence of calls and field assignments resolves what the specification resolves |
| NeonApiRuns.ReadSelected | internals/env-core/src/env.ts:885-1105 | the reads, each a call of its own on one API object in the order they are started, with the checks between them, read what the specification reads; which reads and values that is, `BranchCalls.BranchTakes` and `BranchValues.FetchedValues` say |
| NeonApiRuns.FetchEnvKeys | internals/env-core/src/env.ts:885-1185 | those reads, then the resolve, then the assembled env give the result and the calls of the specification, which `BranchValues.FetchedValues`, `BranchCalls.FetchedSecrets` and `BranchCalls.FetchTakes` tell by the branch |
| NeonApiRuns.PutKept | internals/env-core/src/reuse-secrets.ts:263-267 | the loop puts each kept secret over the fetched vars |
| NeonApiRuns.CollectOurs | internals/env-core/src/reuse-secrets.ts:289-301 | the growing set holds each leftover once |
| NeonApiRuns.FetchEnvReusingSecrets | internals/env-core/src/reuse-secrets.ts:104-318 | the whole run, call by call, changes the world as the specification says |
| CollectionRefinement.BatchAgrees | packages/realtime-tanstack/src/collection-options.ts:309-370 | a batch is rejected exactly when it makes no sense on the server's rows; else each write is allowed where it comes, and they leave the server's new rows re-keyed |
| CollectionRefinement.ResetAgrees | packages/realtime-tanstack/src/collection-options.ts:271-303 | the same for a full set of rows |
| CollectionRefinement.RunInStep | packages/realtime-tanstack/src/collection-options.ts:158-420 | after any run every host call was allowed where it came, the maps are mutual inverses while attached, and the collection is the server's rows re-keyed |
| CollectionRefinement.RejectedIsSilent | packages/realtime-tanstack/src/collection-options.ts:271-380 | a rejected reset or batch emits no write, only the failure |
| CollectionLifecycle.RunFollowsLifecycle | packages/realtime-tanstack/src/collection-options.ts:190-269 | under any order of events `markReady` comes at most once and before reports, `reportError` and `reportHealthy` alternate with the same error object, a new one each time, and `fail` ends it; when they do come is `CollectionReports.RunTells` |
| CollectionLifecycle.NothingAfterTheEnd | packages/realtime-tanstack/src/collection-options.ts:158-269 | no host call follows a failure or a cleanup, whatever comes later |
| CollectionReports.RunTells | packages/realtime-tanstack/src/collection-options.ts:158-420 | after any events in any order the whole trace of host calls is what the events bring one after another, and the state is what they say: `markReady` with the first applied set of rows or its receipt, one report for each interruption and for its end, nothing after an end |
| CollectionReports.ReadyIff | packages/realtime-tanstack/src/collection-options.ts:248-303 | `markReady` is called exactly when, before any end, a set of rows that makes sense was applied at once or its open receipt was |
| RealtimeSync.Adapter.InstallReset | packages/realtime-tanstack/src/collection-options.ts:271-303 | the loop over the rows fills both maps or stops; then one transaction |
| RealtimeSync.Adapter.Stage | packages/realtime-tanstack/src/collection-options.ts:319-366 | the branches for one change update both maps and push its writes |
| RealtimeSync.Adapter.ApplyBatch | packages/realtime-tanstack/src/collection-options.ts:305-380 | the loop over the changes stages all of them before anything is written |
| RealtimeSync.Adapter.Receive | packages/realtime-tanstack/src/collection-options.ts:382-420 | each event changes the object's whole state as the machine says; what that is by the events alone is `CollectionReports.RunTells` |
| EventStream.SplitBuffered | packages/ai-sdk-provider/src/lib/neon-harmony-normalize.ts:208-217 | a chunk split behind the unfinished line gives the next lines of the whole input |
| EventStream.LineRewriter.Transform | packages/ai-sdk-provider/src/lib/neon-harmony-normalize.ts:208-217 | after each chunk the output is every finished line rewritten, and the buffer is the unfinished one |
| EventStream.LineRewriter.Flush | packages/ai-sdk-provider/src/lib/neon-harmony-normalize.ts:218-222 | what was put out in all is the whole input split, rewritten and rejoined |
| EventStream.WholeIsMapJoin | packages/ai-sdk-provider/src/lib/neon-harmony-normalize.ts:180-225 | that is splitting on newlines, rewriting each line and joining again |
| EventStream.ChunkInvariance | packages/ai-sdk-provider/src/lib/neon-harmony-normalize.ts:180-225 | the output does not depend on where the stream is cut |
| EventStream.CompliantPassesThrough | packages/ai-sdk-provider/src/lib/neon-harmony-normalize.ts:176-225 | when every line passes unchanged, so does the stream |
| HarmonyBody.NormalizeBody | packages/ai-sdk-provider/src/lib/neon-harmony-normalize.ts:107-174 | the loop rewrites each choice where it stands and reports whether any was |
| HarmonyBody.NormalizeSettles | packages/ai-sdk-provider/src/lib/neon-harmony-normalize.ts:107-174 | a body is changed exactly when a choice has array content; after that none has, and a second pass changes nothing |
| HarmonyBody.OtherFieldsKept | packages/ai-sdk-provider/src/lib/neon-harmony-normalize.ts:118-133 | no other field is touched, nor reasoning that was already there |
| HarmonyBody.TextIsKept | packages/ai-sdk-provider/src/lib/neon-harmony-normalize.ts:55-100 | in the text of a rewritten message every part of the array stands at its place, with its text if it is a text part and with nothing otherwise; a stream drops the field exactly when no part adds anything |
| HarmonyBody.ReasoningIsHoisted | packages/ai-sdk-provider/src/lib/neon-harmony-normalize.ts:55-133 | `reasoning_content` is set exactly when there is reasoning and the message had none: the texts of every part in its place, its own, its summary's and its content's, joined by newlines, which splitting gives back where no text holds one |
| HarmonyBody.StreamSettles | packages/ai-sdk-provider/src/lib/neon-harmony-normalize.ts:176-225 | with a parser and printer that keep a compliant body compliant and print it on one line, normalizing a normalized stream changes nothing; that nothing offending is left is `HarmonyFrames.StreamIsStrict` |
| HarmonyBody.RewriteSettles | packages/ai-sdk-provider/src/lib/neon-harmony-normalize.ts:187-204 | with such a parser and printer rewriting a line twice is rewriting it once, and no line without a harmony body changes; that one with such a body does, and into what, is `HarmonyFrames.LineIs` |
| HarmonyFrames.BodyIs | packages/ai-sdk-provider/src/lib/neon-harmony-normalize.ts:107-174 | a body is changed exactly when a choice has array content, and then into the body with each such message rewritten in place: its text the texts of the text parts, its reasoning those of the reasoning parts by lines |
| HarmonyFrames.LineIs | packages/ai-sdk-provider/src/lib/neon-harmony-normalize.ts:187-204 | a line `data:`, blanks, payload, blanks whose payload is no `[DONE]` and parses to a body with array content becomes `data: ` and that body rewritten and printed; every other line stays |
| HarmonyFrames.StreamIsStrict | packages/ai-sdk-provider/src/lib/neon-harmony-normalize.ts:176-225 | with a printer whose output for a strict body is read as strict, no data line of a normalized stream has array content, whatever the stream was |
| EnvFile.UnquoteInverts | packages/cli/src/env_file.ts:194-215 | the two replacing passes undo the two escaping ones on everything that is printed |
| EnvFile.FormatReadsBack | packages/cli/src/env_file.ts:172-215 | a formatted line reads back as its key and value exactly when the value holds no line terminator |
| EnvFileLines.AssignedIs | packages/cli/src/env_file.ts:172-179 | a line assigns a key exactly when it is blanks, `export` and blanks or not, the name, blanks, and an equals sign |
| EnvFileLines.SetsIs | packages/cli/src/env_file.ts:181-208 | what its value reads as: trimmed, unescaped between double quotes, as it stands between single quotes, and else itself |
| EnvFileLines.PrintedIs | packages/cli/src/env_file.ts:210-216 | a value with a blank, hash, quote or equals sign is printed in double quotes with backslashes and quotes escaped, any other as it is |
| EnvFileImage.MergeIs | packages/cli/src/env_file.ts:77-128 | a merged file line by line: stale lines gone, the first line of each update replaced, the others kept, blank lines at the end cut, the missing updates appended in order, and what is reported |
| EnvFileImage.ReadIs | packages/cli/src/env_file.ts:137-147 | a key reads as the last line that sets it |
| EnvFileMerge.MergeIsIdempotent | packages/cli/src/env_file.ts:77-128 | merging a merged file again changes and removes nothing, even with keys assigned more than once |
| EnvFileRead.ReadAfterMerge | packages/cli/src/env_file.ts:77-147 | after a merge each updated key reads as its update exactly when no later line sets it otherwise, no stale managed key is left, and every other key reads as before |
| EnvFileRead.AssignedOnce | packages/cli/src/env_file.ts:77-147 | a key that no line assigns twice meets that condition |
| EnvFileRead.OthersSurvive | packages/cli/src/env_file.ts:77-128 | all other lines survive in order, but for blank lines at the end |
| EnvFileLoops.MergeEnvContent | packages/cli/src/env_file.ts:77-128 | the walk over the file with its sets and lists gives the merged text |
| EnvFileLoops.ReadEnvFile | packages/cli/src/env_file.ts:137-147 | the record overwritten line by line holds the last value of each key |
| ArrayLiteral.EncodeValues | packages/realtime-kysely/src/parameter.ts:52-63 | the loop pushes each printed element, on any heap of arrays |
| ArrayLiteral.CircularIff | packages/realtime-kysely/src/parameter.ts:52-128 | printing always ends, and fails exactly when nesting reaches an array already on its own path |
| ArrayParse.ArrayRoundTrip | packages/realtime-kysely/src/parameter.ts:52-72 | otherwise a reader for PostgreSQL array literals maps the text back to the same nested list, keeping NULL apart from the text "NULL" |
| ArrayText.ArrayIs | packages/realtime-kysely/src/parameter.ts:52-63 | the printed text exactly: braces around the texts of the elements, a comma before each but the first |
| ArrayText.ElementIs | packages/realtime-kysely/src/parameter.ts:65-72 | `NULL`, an escaped text in quotes, bytes as hex behind two backslashes and `x`, or the nested array |
| EditDistance.TwoRowDistance | packages/cli/src/env_services.ts:213-231 | the two-row loops compute the recursive Levenshtein distance |
| EditDistance.ShortestScript | packages/cli/src/env_services.ts:213-231 | some script of inserts, deletes and substitutions of that length turns one text into the other |
| EditDistance.NoShorterScript | packages/cli/src/env_services.ts:213-231 | no shorter one does |
| EditDistance.SuggestsClosest | packages/cli/src/env_services.ts:205-211 | the suggestion is the first key in canonical order at the least distance, exactly when that is at most 2 |
| HumanTable.SearchWidth | packages/cli/src/human_table.ts:368-391 | the binary search finds what linear membership in any table of disjoint ranges would |
| HumanTable.WideRangesDisjoint | packages/cli/src/human_table.ts:317-366 | the table of wide ranges is sorted and disjoint |
| HumanTable.TruncateLoop | packages/cli/src/human_table.ts:223-249 | the loop keeps the longest start that fits, and the ellipsis |
| HumanTable.TruncateFits | packages/cli/src/human_table.ts:223-249 | a truncated text is never wider than its maximum |
| HumanTable.PadIsExact | packages/cli/src/human_table.ts:217-221 | a padded text takes exactly its width |
| HumanTable.NaturalFits | packages/cli/src/human_table.ts:208-215 | with its natural widths a table cuts a cell short exactly when its column has no width and the cell is not empty |
| HumanTable.CellStarts | packages/cli/src/human_table.ts:151-169 | in a printed row, joined and trimmed, every cell that is not blank starts at the offset of its column, the same in every row |
| HumanTable.RowEnds | packages/cli/src/human_table.ts:156-163 | the last cell is printed as it is, without the blanks it ends in |
| TableCells.WideIs | packages/cli/src/human_table.ts:317-366 | which characters take two cells, range by range |
| TableCells.WidthIs | packages/cli/src/human_table.ts:368-391 | a combining accent takes no cell, a wide character two and any other one, wherever it stands |
| TableCells.StripIs | packages/cli/src/human_table.ts:69-71 | stripping removes exactly the characters that belong to an ESC, bracket, digits and semicolons, `m` |
| TableCells.TruncateIs | packages/cli/src/human_table.ts:223-249 | a text that is too wide becomes its longest start that leaves three cells and three dots, or as many dots as there are cells |
| TableCells.NaturalIs | packages/cli/src/human_table.ts:208-215 | a column is as wide as its widest header or cell |
| TableCells.LeadingIs | packages/cli/src/human_table.ts:151-169 | in front of a column stand the cells before it, each cut to its width, filled up with blanks, and two blanks |
| TableCells.RowIs | packages/cli/src/human_table.ts:156-163 | a row is its columns and its last cell without the blanks at the end |
| AnonymousId.FirstRunAgreement | packages/cli/src/anonymous_id.ts:36-81 | for any number of interleaved first runs, whatever else fails, all ids returned are the same and the file's while no read of the winner's id fails |
| AnonymousId.AgreeIff | packages/cli/src/anonymous_id.ts:36-81 | two or more calls always agree exactly when the file starts absent or with an id and no such read fails |
| AnonymousId.WrittenOnce | packages/cli/src/anonymous_id.ts:52-60 | from the first link on the file never changes |
| AnonymousId.ReplacedIff | packages/cli/src/anonymous_id.ts:61-70 | a file is replaced only by a call that found no id in it or could not read it |
| AnonymousId.TempOutlivesIff | packages/cli/src/anonymous_id.ts:55-76 | a temporary file outlives its call exactly when its write stopped in the middle or its unlink failed |
| AnonymousId.ConfigDir.GetOrCreate | packages/cli/src/anonymous_id.ts:36-81 | one call on its own, with any of its system calls failing: what it returns, and what it leaves in the file and in the temporary one |
| IdOutcomes.StoredIs | packages/cli/src/anonymous_id.ts:18-27 | a file holds an id exactly when it is, but for blanks around it, eight, four, four, four and twelve hexadecimal digits with dashes between |
| IdOutcomes.NoIdIff | packages/cli/src/anonymous_id.ts:52-81 | however the calls interleave, one that is over has no id exactly when its write, its link or its replacing write went wrong |
| IdOutcomes.AloneIs | packages/cli/src/anonymous_id.ts:36-81 | the statements of one call with no other about end as they should for every way its system calls can go |
| RefreshLock.LockSafety | packages/cli/src/refresh_lock.ts:25-61 | for any number of calls, their attempts taken whole, at most one `fn` runs at a time and holds its own lock file; a call that returned ran it once, plus once for each EEXIST it threw |
| RefreshLock.LiveFileStays | packages/cli/src/refresh_lock.ts:36-52 | no other step removes or replaces a live holder's file |
| RefreshLock.ExclusiveIffInTime | packages/cli/src/refresh_lock.ts:13-19 | at most one `fn` runs in every schedule in which each is over within `d` of its lock file's creation exactly when `d` is at most a minute |
| LockTimes.AttemptIs | packages/cli/src/refresh_lock.ts:32-58 | an attempt that is due makes the file and runs `fn`, removes a file older than 60000 milliseconds, gives up when the call arrived 20000 or more before, or waits 50 |
| LockTimes.TimesOutIff | packages/cli/src/refresh_lock.ts:53-57 | a call gives up exactly in a due attempt that finds a file of at most a minute, twenty seconds or more after it arrived |
| LockTimes.EndIs | packages/cli/src/refresh_lock.ts:36-52 | the end of `fn` removes the file and ends the call, or lets it try again at once after an EEXIST |
| RefreshRace.AttemptIsSteps | packages/cli/src/refresh_lock.ts:32-58 | an attempt taken whole is the open, the look and the removal with no other process between them |
| RefreshRace.OthersAreSteps | packages/cli/src/refresh_lock.ts:25-30 | arriving and waiting are steps here as they are there |
| RefreshRace.EndIsSteps | packages/cli/src/refresh_lock.ts:36-58 | the end of `fn` is one step here too, with a look and a removal behind it after an EEXIST |
| RefreshRace.ExclusiveIff | packages/cli/src/refresh_lock.ts:13-61 | with the system calls apart, at most one `fn` runs exactly when there is one call, or two that start without a file, whose `fn` are over within a minute and throw no EEXIST |

## Left out

* Characters are Dafny characters where JavaScript has UTF-16 code units; `HumanTable` iterates over
  code points as the source does. Error texts and log lines are not modelled, only which error it is.
- EditDeclares: the condition for the two steps of the Data API is stated on the text between them, because the second step reads that text.
- EditLandsIff: for a line that holds `*/` and lands in a block comment nothing is said but that it may be accepted (`OverrunAccepted`): what is read then depends on the file behind the place.
- AcceptedAsWritten: its condition is enough but not needed for every file: where the comment holds a copy of the very line asked for, that copy comes to light as it was asked for.
- InsertIs: the brace of the object is not the first character of the file, which behind `defineConfig(` or `export default` it never is.
- FunctionIsValue: names in a function's `env` hold no quotes, slashes or brackets; the editor writes them without escapes, and they come from a template whose schema is not part of this model.
- ReadAfterMerge: keys are identifiers, so inherited property names such as `constructor`, which JavaScript's `in` also finds, do not arise.
- NormalizeSettles: the order of an object's fields and decoding of bytes are not modelled; JSON parsing and printing are parameters.
- StreamSettles: assumes of them that a compliant body is printed on one trimmed line, and read back, if at all, as a compliant body; numbers may change.
- RunInStep: host calls do not call back into the adapter, and `begin` and `write` throw only where the model says they are not allowed; `commit` may throw or return a receipt that settles at any time.
- ReadBranch: reads run in the order in which they are started, Realtime polling is one read, URL parsing is a table of hosts, and the clock is one value per run.
- FetchSucceedsIff: says nothing of a run in which a call fails; the reads and the order in which failures are reported are then those of the specification.
- ReuseIsFixedPoint: assumes what the service promises of the ids and tokens it issues, and that a minted id is not the one already persisted.
- LiveFileStays: as LockSafety, about attempts taken whole.
- AttemptIs: as LockSafety, about attempts taken whole; so is `TimesOutIff`.
- ExclusiveIffInTime: as LockSafety; `RefreshRace.ExclusiveIff` is the equivalence with every system call apart.
- LockSafety: an acquisition attempt is one atomic step, as it is within one process; `RefreshRace.ExclusiveIff` is about other processes. The loop is a schedule of attempts, not a method that runs forever.
- FirstRunAgreement: the rename that replaces a file without an id happens or does not; the temporary file it uses is not modelled.
- GetOrCreate: creating the directory fails only together with the write.
- CircularIff: leaves are texts; dates, typed raw parameters, `toPostgres` callbacks and JSON objects are printed before they reach the arrays.
* `awaitTxId` and the subscription it waits on, which the collection's content does not depend on.
* `formatStacked`, titles, colours and the width of the terminal: single expressions over the widths proved here.
* The HTTP client, argument handling, analytics and OAuth glue, which are wrappers over libraries.

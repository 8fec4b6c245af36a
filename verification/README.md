# Verified model of Happy Hare

Happy Hare drives multi-material units on Klipper printers. This project models five of its components in Dafny and
proves what they are for.

* **Config files** (`ConfigTokens` to `HHConfig`): the installer's lossless parser with error recovery, its writer and
  editor, and the merge of an old configuration into a new template. Text is `seq<char>`. The grammar is a set of pure
  functions on the unread text (`ConfigGrammar`); the tokenizer and the parser are classes, proved to compute them.
* **Spools** (`SpoolState`, `SpoolGates`, `SpoolTags`, `SpoolServer`): the server's cache of spool locations and its
  reverse map of tags, against a Spoolman database whose requests succeed or fail one by one; and the streaming G-code
  rewriter (`ToolChanges`).
* **Controller** (`MmuMachine`, `GateSelection`, `GateController`, `PendingSpool`, `PendingGuard`, `PrintState`,
  `PrintMachine`): units and their gates, gate selection with homing, FlowGuard, suspended monitoring, the assignment
  that waits for the next gate, and pausing on errors.
* **Steppers** (`StepperSync`, `StepperObjects`): manual steppers that follow each other.
* **LEDs** (`LedFrames`, `LedRuns`, `LedObjects`): effects that share LEDs, frame passes, and the hand-over of LEDs when
  an effect is stopped.

Each component has its behaviour as functions on values, with the theorems proved about those, and, where the program
updates objects in place, classes whose methods are proved to do to the fields what the functions do to the values.
Exceptions are results. Hardware calls, HTTP requests and clocks are parameters: every theorem holds for whatever they
answer.

Some promises of the documentation do not hold of the code as it is. The model follows the code, gives an input that
shows the failure, and proves when the promise holds:

* Parse-error markers do not stack on a text without markers (`ConfigStability.MarkersDoNotStack`), but an old marker can
  matter to the text around it: dropped, it lets a placeholder close or a name reach an assignment
  (`ConfigOldMarkers.OldMarkerMatters`, `ConfigOldMarkers.OldMarkerKeepsApart`). No old marker does if each is a comment
  without `%` and `}` and has no assignment at the start of the next line of other text
  (`ConfigStability.HarmlessMarkersDoNotStack`). In general the written text is read like the first one exactly when the
  text without the dropped markers is (`ConfigStability.MarkersDoNotStackExactly`).
* `set` on an option that has only a comment behind some layout writes the new value behind the comment, where it is part
  of it for whoever reads the file (`ConfigReparse.ValueLostBehindComment`). The old lines show when that happens
  (`ConfigReparse.LandsBehindComment`), and a value that is set, written and parsed again reads back exactly when it does
  not (`ConfigReparse.ReparsedReadsBack`); `ConfigEdit.SetReadsBack` says when a value reads back before it is written.
* Carrying old exclusion blocks over can shadow an included section of the same name (`ConfigShadow.ShadowedOptionLost`,
  `ConfigMerge.UpdatedReads`).
* Setting a spool on the gate it is on already is reported as a change (`SpoolGates.SetAgainReported`,
  `SpoolGates.SetChangesAreDifference`).
* A tag taken off its old spool while the last request fails is lost from the database though the reverse map still
  leads to that spool (`SpoolTags.LostTag`, `SpoolTags.TaggedInverse`).
* A tool line at the very end of a file is lost (`ToolChanges.LastToolLost`).
* An LED effect that was displaced by the start of another one still owes a black frame
  (`LedRuns.DisplacedEffectWipesColour`, `LedRuns.ColourSurvivesExactly`).
* A reset while printing makes `mmu:printing` be sent twice in a row (`PrintState.ResetInPrintRepeats`,
  `PrintState.StepInStep`).
* A reset while monitoring is on leaves FlowGuard armed though monitoring is off (`GateSelection.ResetLeavesArmed`,
  `GateSelection.ResetInv`).
* An error forced outside a print leaves monitoring on after the resume (`PrintState.ForcedErrorLeavesMonitoring`,
  `PrintState.MonitoringMatchesPrint`), and a resume that fails to heat loses the reason of the pause
  (`PrintState.FirstErrorHolds`).

`dafny verify dfyconfig.toml` checks the project.

## Model

| member | source | states |
|---|---|---|
| `ConfigLossless.Lossless` | installer/parser.py:554-616 | For every text with no parse-error marker line, well formed or not, writing the parsed document gives the text back, through recovery, put-back whitespace, value splitting and the lifting of trailing nodes |
| `ConfigLossless.SectionStepText` | installer/parser.py:618-647 | One round of a section: the written items and the unread rest together are the text it started from, and the rest is still free of marker lines |
| `ConfigLossless.ValueStepText` | installer/parser.py:703-843 | One round of the value loop moves text from the rest into the value state and loses none of it |
| `ConfigLossless.RecoverText` | installer/parser.py:482-529 | Recovery keeps the skipped text as one unparsed node; written, it is that text |
| `ConfigLossless.PostProcessText` | installer/parser.py:597-616 | Moving the trailing nodes of sections one level up changes no text |
| `ConfigRecovery.RecoveryIsBounded` | installer/parser.py:482-492 | A parse of any text leaves one unparsed node for each recovery and at most `MAX_RECOVERIES` + 1 of them (that markers do not stack: `ConfigStability.MarkersDoNotStack`) |
| `ConfigStability.MarkersDoNotStack` | installer/parser.py:482-529 | For every marker-free text of whole lines: the text written with markers parses to the same document, each marker read and replaced by its equal, is written the same again, and written without markers is the first text |
| `ConfigStability.MarkersDoNotStackExactly` | installer/parser.py:500-529 | For every text of whole lines, old markers included: what is written with markers is read like the text itself, and then written the same again, if and only if the text without the old markers that recovery drops is read like it; the reduction behind the next row |
| `ConfigStability.HarmlessMarkersDoNotStack` | installer/parser.py:482-529 | For every text of whole lines in which each old marker is a comment without `%` and `}` and has no assignment at the start of the next line of other text: what is written, with markers or without, is read like the text itself, and the marked text is written the same again |
| `ConfigDropped.FailDropped` | installer/parser.py:482-529 | A construct whose region loses such markers fails again for the same reason, is recovered to the same nodes, and what follows is reached at the same place |
| `ConfigDropped.DroppedFar` | installer/parser.py:500-504 | Nothing read before the region can notice that such markers are gone |
| `ConfigStability.OtherTextParses` | installer/parser.py:482-529 | A text of whole lines that is written unchanged with markers, or without, is read to the same document after it is written the other way |
| `ConfigStability.RunAgain` | installer/parser.py:554-647 | All through the parse of such a text the other text shows the same token at the same place and differs only behind whole lines that hide the difference |
| `ConfigStability.WrittenSteady` | installer/parser.py:482-529 | A text that is written unchanged as a whole is written unchanged construct by construct |
| `ConfigOldMarkers.OldMarkerMatters` | installer/parser.py:500-504 | An old marker that held the character which kept a placeholder open: dropped, the text gets another marker when it is parsed and written again |
| `ConfigOldMarkers.OldMarkerKeepsApart` | installer/parser.py:500-504 | An old marker between a name and an assignment: it is dropped, the text written is read with the two as an option and no error, and the new marker stays in it for good |
| `ConfigMarkers.FailAgain` | installer/parser.py:482-529 | A construct that failed, with its marker put behind it or taken away, fails again for the same reason, is recovered to the same nodes, and what follows is reached at the same place |
| `ConfigReread.ConstructSwap` | installer/parser.py:618-672 | A comment, option or single token that is read to its end before whole lines is read the same, whatever follows those lines |
| `ConfigLocality.LexSwap` | installer/parser.py:44-58 | The token at the front depends on the text behind it only through whether braces and template ends occur there at all |
| `ConfigTokens.Lex` | installer/parser.py:44-58 | Some rule matches every non-empty text, the first that does decides, and the token has the shape the parser relies on (non-empty prefix, bracketed header, maximal whitespace, a word without line breaks) |
| `ConfigTokenRules.RuleTakes` | installer/parser.py:44-58 | Each rule takes what its pattern matches, written out pattern by pattern: the longest match, for the two reluctant patterns the shortest, and nothing exactly when there is none |
| `ConfigTokenRules.FirstRuleDecides` | installer/parser.py:188-198 | The next token of any text is such a match of the first rule, in the order of the list, that matches there at all |
| `ConfigTokenizer.Tokenizer.Next` | installer/parser.py:174-207 | The token of the unread text, peeked or scanned; what is left is that text without it |
| `ConfigTokenizer.Tokenizer.Scan` | installer/parser.py:188-198 | The loop over the ordered rules on the slice finds the token the specification gives and advances position and slice together |
| `ConfigTokenizer.Tokenizer.Peek` | installer/parser.py:209-215 | The next token without consuming it; the unread text is unchanged |
| `ConfigTokenizer.Tokenizer.Take` | installer/parser.py:217-234 | The next token if it has the wanted kind, else the reason of the syntax error |
| `ConfigTokenizer.Tokenizer.Unread` | installer/parser.py:236-243 | Puts text back: it precedes what was unread |
| `ConfigTokenizer.Tokenizer.Resync` | installer/parser.py:250-278 | Rewinds to a start position, drops the peeked token and skips to the next line that can start a construct, or to the end |
| `ConfigTokenizer.SkipLines` | installer/parser.py:262-274 | The line loop of the resync computes how many whole lines precede the first one where parsing can resume |
| `ConfigParser.Parser.ParseComment` | installer/parser.py:845-869 | Reads the comment the grammar gives for the unread text and leaves the grammar's rest |
| `ConfigParser.Parser.ParseValue` | installer/parser.py:703-843 | Reads the value lines the grammar gives and stops at the first end there is, whatever was peeked: not at a line break inside a bracket or a quotation, not before comment lines that lead on to an indented line, and in gcode only before a header or a variable |
| `ConfigValueEnd.ValueEnds` | installer/parser.py:703-843 | For every text a value ends at the first place that is an end, with brackets and quotations matched over the whole text of the value: the end of the text; whitespace from line break to line break outside them, unless it is one line break and comment lines lead on to an indented line; for gcode such whitespace before a header or a `variable_` option, or a header token |
| `ConfigValueEnd.EndsOutside` | installer/parser.py:760-777 | Said of the parsed lines alone: a value that ends before the end of the text has no bracket and no quotation left open in its entries and is followed by such whitespace |
| `ConfigValueEnd.ClosedIsOutside` | installer/parser.py:715-743 | The running counts of the parser are closed exactly when the text is outside every quotation and, without quotations and escaped characters, no bracket of a kind has more openings than closings from some place on |
| `ConfigValueEnd.ContinuationIs` | installer/parser.py:674-701 | The search past comment lines says exactly whether an indented line of text comes after comment lines only |
| `ConfigParser.Parser.TakeSpace` | installer/parser.py:777-784 | Takes whitespace up to its first line break and puts the rest of the token back |
| `ConfigParser.Parser.ParseOption` | installer/parser.py:649-672 | An option, or the reason of the syntax error, as the grammar says |
| `ConfigConstructs.OptionIs` | installer/parser.py:649-672 | A word makes an option exactly when an assignment comes behind any whitespace; name, whitespace, assignment and value are those pieces of the text, and what follows is where a value of its kind, gcode or not, first ends |
| `ConfigParser.Parser.Recover` | installer/parser.py:482-529 | Counts the recovery and turns the failed construct into the grammar's nodes; over the limit the rest of the text is skipped |
| `ConfigConstructs.ResumesWhere` | installer/parser.py:250-278 | After a failed construct its line is skipped and every further line that can start no section and no option; parsing resumes at the first that can, or at the end |
| `ConfigParser.Parser.ParseSection` | installer/parser.py:618-647 | The section the grammar gives, with the recoveries made in it |
| `ConfigParser.Parser.ParseExclusion` | installer/parser.py:575-592 | The magic comment and everything to the end of the text |
| `ConfigConstructs.MarkTakesRest` | installer/parser.py:575-592 | At a comment that starts, behind any whitespace, with the mark, one exclusion block takes everything to the end of the text; anywhere else no exclusion block begins |
| `ConfigConstructs.SectionEndsWhere` | installer/parser.py:618-626 | A section goes on to the end of the text, the next header or such a comment |
| `ConfigParser.Parser.ParseDocument` | installer/parser.py:554-595 | The node list the grammar gives for the whole text |
| `ConfigParser.Parser.PostProcess` | installer/parser.py:597-616 | Sections keep their items up to the last option and one whitespace node; the others move to the document |
| `ConfigConstructs.SectionKeepsIs` | installer/parser.py:597-616 | A section keeps its items up to its last option and a whitespace item right after it |
| `ConfigParser.Parser.Parse` | installer/parser.py:476-480 | The whole parse, recoveries counted from zero, is the grammar's parse of the text |
| `ConfigValues.ParsedReadsBack` | installer/parser.py:703-843 | Parsing a stripped value as a value gives it back exactly when the parser reads it to its end without a comment |
| `ConfigValues.ParsedValueGood` | installer/parser.py:703-843 | Parsed values are laid out so that, without a placeholder, each line holds at most one text and only the first line layout before it |
| `ConfigEdit.RewriteReadsBack` | installer/parser.py:1279-1311 | Overwriting a value reads back as the new one exactly when only layout is left around it |
| `ConfigEdit.SetTarget` | installer/parser.py:1258-1323 | `set` and `get` resolve duplicates to the same option, the last of the last section of the name |
| `ConfigEdit.SetReadsBack` | installer/parser.py:1258-1323 | After setting an existing option it reads as the stripped value exactly when only layout survives around it or, for an option without a value, the new value is read as a whole |
| `ConfigEdit.SetReadsBackWithoutPlaceholder` | installer/parser.py:1258-1323 | In particular it does for every parsed or edited option whose non-empty value has no placeholder |
| `ConfigEdit.SetKeepsOthers` | installer/parser.py:1258-1323 | Every other option of every section is the same node as before |
| `ConfigEdit.SetKeepsText` | installer/parser.py:1258-1323 | The text of the document changes in the lines of that value only |
| `ConfigEdit.SetGood` | installer/parser.py:1258-1323 | Setting keeps every value of the document well laid out, so that later edits read back too |
| `ConfigReparse.ReparsedReadsBack` | installer/parser.py:1258-1311 | For every one-line option and one-line value: set, written and parsed again, the value reads back if and only if it was not written behind a comment, which the old lines show |
| `ConfigReparse.LandsBehindComment` | installer/parser.py:1279-1300 | For all value lines and values: the new value stands behind a comment on its line if and only if the old lines have a comment before the text they hold or, holding none, a comment that is not their first piece |
| `ConfigReparse.ParsedLandsBehindComment` | installer/parser.py:703-843 | In a parsed value only the second can be: no value text comes after a comment on its line |
| `ConfigReparse.ValueReadsBack` | installer/parser.py:703-843 | A one-line value behind layout and before a comment or the end is parsed to exactly these pieces |
| `ConfigReparse.ValueLostBehindComment` | installer/parser.py:1281-1288 | The parser gives a line break and a comment the layout at issue; the value set on it reads back in memory and is part of the comment in the written text |
| `ConfigSections.AddSectionKeepsSaved` | installer/parser.py:1042-1112 | Adding one section keeps the nodes from the SAVE_CONFIG comment on as they are and all earlier ones in order |
| `ConfigSections.AddSectionsKeepSaved` | installer/parser.py:1042-1112 | Any sequence of additions keeps the text from the SAVE_CONFIG comment to the end as a suffix and the earlier nodes in order |
| `ConfigSections.AddSectionsOnce` | installer/parser.py:1052-1054 | Over any sequence a missing section that is asked for is there exactly once and no other count of sections changes |
| `ConfigRemoval.RemovalReads` | installer/parser.py:531-552 | After a removal no section of the name is found, and every option of every other section is found as before |
| `ConfigRemoval.ParsedDocumentGood` | installer/parser.py:476-480 | Every option of a parsed document is well laid out |
| `ConfigBuilder.ConfigBuilder.Get` | installer/parser.py:1207-1222 | Reads the last option of the last section of the name, comments left out, stripped; none for an option without a value |
| `ConfigBuilder.ConfigBuilder.FindValueNode` | installer/parser.py:1242-1256 | The first piece that holds value text |
| `ConfigBuilder.ConfigBuilder.Overwrite` | installer/parser.py:1279-1311 | Overwrites the first piece that holds text by its own indentation and the value; lines before it and the other pieces of its line stay, of the later lines exactly those that start with text are gone; without any text the value is added to the first line, before a comment that starts it, else at its end |
| `ConfigOverwrite.OverwriteIs` | installer/parser.py:1279-1311 | For all lines: the new piece is the longest run of blanks and tabs at the front of the old one followed by the value, and what is kept and dropped around it is exactly that |
| `ConfigIndented.ReparsedBelow` | installer/parser.py:1270-1311 | For every value that starts on an indented line below its key, behind blanks or a comment and with any further lines: after a one-line value is set and the text written, it is parsed to exactly the lines in memory, and the new value reads back |
| `ConfigBuilder.ConfigBuilder.Set` | installer/parser.py:1258-1323 | Changes the document as the specified edit does; an option that has lines has them overwritten in that way, one without gets the value as parsed; false when there is no such section |
| `ConfigOverwrite.SetOverwrites` | installer/parser.py:1258-1315 | What the option that is read after a set holds: its old lines overwritten in that way, or the parsed value when it had none |
| `ConfigOverwrite.SetAddsOption` | installer/parser.py:1316-1323 | An option the section does not have, with a value that is read as a whole: a line `name: value` is added at the end of the section and no other text changes |
| `ConfigBuilder.ConfigBuilder.AddSection` | installer/parser.py:1052-1112 | Inserts at the top, after the last include, before SAVE_CONFIG or at the end, as the specified insertion does |
| `ConfigSections.AddedWhere` | installer/parser.py:1052-1112 | Where a missing section goes: to the top if asked for; an include behind the last include there is, its comment and its line break; everything else right before the SAVE_CONFIG comment or, without one, at the end |
| `ConfigSections.NewSectionText` | installer/parser.py:1056-1067 | The text of a new section: its comment on a line of its own, and the header |
| `ConfigBuilder.ConfigBuilder.RemoveSection` | installer/parser.py:531-552 | The pruning loops leave no section of the name, in exclusion blocks neither, and every option of every other section is found as before |
| `ConfigMerge.MergedKeysAre` | installer/build.py:393-395 | The merge visits exactly the options found in sections outside the exclusion blocks |
| `ConfigMerge.MergedReads` | installer/build.py:393-416 | After a merge every restored option reads as the previous config's, every other one is the template's |
| `ConfigMerge.HeldBackStays` | installer/build.py:396-412 | For every template, previous config and pair of lists: a listed variable, a listed parameter outside macro sections in a section of which no variable is listed, gcode, and what the previous config lacks are the template's after the merge |
| `ConfigMerge.OthersAreRestored` | installer/build.py:396-412 | Every other included option that both have reads as the old value, listed parameters of macro sections and of sections with a listed variable included; an empty or missing old value empties it |
| `ConfigMerge.PlaceholderFreeMergeable` | installer/build.py:380-416 | A parsed or edited template without placeholders takes the previous values if and only if those that go to its empty options are read as a whole |
| `ConfigMerge.RefreshReads` | installer/build.py:380-416 | With both exclusion lists empty every included option but gcode that both have reads as the old non-missing value, every other one as the template's |
| `ConfigMerge.MergeIsIdempotent` | installer/build.py:380-416 | Merging the same previous config again changes nothing that is read |
| `ConfigMerge.UpdatedReads` | installer/build.py:416-440 | For every template and previous config: after exclusion blocks were carried over, a carried block that has the section takes its place in every lookup; if none has, the section reads as merged outside the template's own blocks |
| `ConfigMerge.CarriesIs` | installer/build.py:416-423 | Blocks are carried over exactly when the previous config has one of the file and the template has any |
| `ConfigShadow.ShadowedOptionLost` | installer/build.py:416-423 | A template and an existing config as parsed from their texts, the section in the config's excluded block: once the block is carried over, the template's option can no longer be read |
| `ConfigShadow.TemplateParsed` | installer/parser.py:554-616 | The document the parser makes of the template's text, section and excluded block node by node |
| `ConfigShadow.PriorParsed` | installer/parser.py:575-592 | The document the parser makes of a text that is one excluded block |
| `HHConfig.HHConfig.RestoreOption` | installer/build.py:396-416 | Restores one option if the previous config has it, it is not gcode and no list holds it back, and leaves the document alone otherwise; marks it as used if the previous config has it |
| `HHConfig.HHConfig.RestoreOptions` | installer/build.py:393-416 | The loops over sorted sections and options compute the specified merge and the set of used options |
| `HHConfig.HHConfig.UpdateBuilder` | installer/build.py:380-423 | The update of a generated config: merge, then exclusion blocks. Without blocks of the file to carry over: what the lists hold back and gcode is the template's, and every other included option with an old value that is not empty reads as that value |
| `HHConfig.UnusedAreDropped` | installer/build.py:442-447 | After a refresh the options reported for a file are exactly those the template or the last section of the name does not have; they read as in the template, all others but gcode and empty ones as in the previous config |
| `HHConfig.HHConfig.Read` | installer/build.py:334-345 | A file is read behind those before; every included option that can be found belongs to the first file it was seen in |
| `SpoolState.StepMirrors` | components/mmu_server.py:479-556 | Whatever requests of a command fail, every cached spool is in the database at the cached printer and gate, with the cached tags if those are known |
| `SpoolState.RunMirrors` | components/mmu_server.py:687-934 | The same over any run of refresh, push, clear, set, unset, tagging and live reads |
| `SpoolState.RefreshFixes` | components/mmu_server.py:494-556 | A refresh that fixes, with no failing request, leaves no half assigned spool and at most one per printer and gate; exactly the half assigned ones and those listed after another at their gate are taken off, so each gate keeps one |
| `SpoolGates.PushPlaces` | components/mmu_server.py:726-773 | Where a push leaves every cached spool: named ones on their gates, displaced and (if all gates are pushed) other ones of this printer nowhere, the rest untouched |
| `SpoolGates.PushThenPull` | components/mmu_server.py:712-789 | After a push with no failing request a pull reads at every pushed gate what was pushed |
| `SpoolGates.FullPushThenPull` | components/mmu_server.py:712-789 | Pushing all gates and pulling returns the same map |
| `SpoolGates.SetKeepsOnePerGate` | components/mmu_server.py:855-885 | Setting a spool keeps at most one spool a gate exactly when the spool it displaces could be taken off |
| `SpoolGates.PlacesAfter` | components/mmu_server.py:789-940 | Where clearing, unsetting and setting leave every record of the database, whatever requests fail: which spools are taken off, which one is placed, and when the command does nothing |
| `SpoolGates.SetChangesRead` | components/mmu_server.py:864-890 | The changes that are sent turn the old gate map into the new one at every gate |
| `SpoolGates.SetChangesAreDifference` | components/mmu_server.py:864-890 | They are exactly the difference of the two maps unless the spool was on its gate already; then the gate is sent all the same |
| `SpoolGates.SetAgainReported` | components/mmu_server.py:864-890 | A spool set on the gate it is on: nothing changes, and exactly that gate is sent |
| `SpoolGates.SetAgainHere` | components/mmu_server.py:864-890 | Such a spool, the only one |
| `SpoolGates.TakenOffChangesAreDifference` | components/mmu_server.py:804-823 | What clear and unset send is exactly the difference of the gate maps, whichever requests fail |
| `SpoolTags.TaggedInverse` | components/mmu_server.py:1585-1670 | After tagging a spool the reverse map is the exact inverse exactly when: the tags were written and no moved tag stuck to its old spool, or they were not written and every tag to be moved stuck, or the command was turned down |
| `SpoolTags.TaggedCarries` | components/mmu_server.py:1585-1660 | After a command that succeeds the spool carries exactly the tags written (appended: and its own), no other spool any of them, and they are no longer known as unknown; the conditions are those on the arguments and the database |
| `SpoolTags.AcceptedExactly` | components/mmu_server.py:1590-1612 | A tag command is accepted exactly when it has tags to write or a blank argument without append and, to append, a spool that can be read; otherwise it changes nothing |
| `SpoolTags.RunInverse` | components/mmu_server.py:1585-1670 | Over any run whose tag requests succeed the reverse map stays the exact inverse of the tags on the spools, so each tag is on at most one spool |
| `SpoolTags.RunTagsUnique` | components/mmu_server.py:1585-1670 | Over such runs, whatever happens to requests about gates, each tag is on at most one spool in the database and in the cache, and the reverse map leads there from the cached tags |
| `SpoolTags.BuiltInverse` | components/mmu_server.py:494-539 | Rebuilding the cache makes the reverse map exact exactly when no tag is on two spools |
| `SpoolTags.LostTag` | components/mmu_server.py:1613-1649 | For any tag of another spool that is taken off while the last request fails: no spool carries it any more, and the reverse map still leads to the old one |
| `SpoolTags.LostTagHere` | components/mmu_server.py:1585-1670 | Such a tag, on one of two spools |
| `SpoolServer.MmuServer.BuildSpoolLocationCache` | components/mmu_server.py:479-556 | Reads the records in the order listed, rebuilds both maps and takes off what needs fixing; unchanged when the read fails |
| `SpoolServer.MmuServer.FindToFix` | components/mmu_server.py:496-534 | Grouping by printer and gate finds the half assigned spools and all but the first of each group |
| `SpoolServer.MmuServer.PushGateMap` | components/mmu_server.py:712-773 | The three layers of updates and the batch of requests move spools as specified |
| `SpoolServer.MmuServer.PullGateMap` | components/mmu_server.py:776-789 | For every gate one of the cached spools there, or -1 |
| `SpoolServer.MmuServer.SetSpoolGate` | components/mmu_server.py:830-890 | Checks the gate, displaces, sets and collects the changes as specified, whichever requests fail |
| `SpoolServer.MmuServer.UnsetSpoolGate` | components/mmu_server.py:893-934 | Takes off the spools on a gate or one spool and collects the freed gates |
| `SpoolServer.MmuServer.ClearSpoolsForPrinter` | components/mmu_server.py:792-827 | Takes off every cached spool of a printer and collects the freed gates of this one |
| `SpoolServer.MmuServer.SetSpoolUid` | components/mmu_server.py:1562-1670 | Moves and records the tags; it succeeds if and only if the spool exists, the last request does not fail, and there are tags to write or the argument was blank, for an append: there are tags and the spool can be read; a command that is turned down changes nothing |
| `SpoolServer.MmuServer.CacheInsertSpool` | components/mmu_server.py:1437-1451 | One record read live updates both maps |
| `SpoolState.InsertedKnows` | components/mmu_server.py:1437-1451 | A record that is read live is known afterwards and each of its tags leads to it; nothing else changes, and nothing at all if the record is missing |
| `ToolChanges.ProcessFile` | components/mmu_server.py:2128-2174 | The buffering pass writes what a specification that looks ahead says line by line |
| `ToolChanges.OutputHolds` | components/mmu_server.py:2138-2164 | Dropping generated lines leaves the lines that do not start a tool change, in order; the changes generated are one for each tool line that starts one and has a line behind it, with the position of the first later move if there is one |
| `ToolChanges.ChangeComesFirst` | components/mmu_server.py:2138-2158 | A change is written right after everything before its tool line and before every line behind it up to its move; tool lines among those are passed through |
| `ToolChanges.LastToolLost` | components/mmu_server.py:2160-2171 | A tool line that ends the file without a line behind it is lost |
| `MmuMachine.Build` | extras/mmu_machine.py:87-134 | Builds the units one after the other; fails exactly when two show a bypass |
| `MmuMachine.GatesArePartitioned` | extras/mmu_machine.py:107-170 | A gate belongs to exactly one unit, the one the lookup gives, and the lookup answers exactly for existing gates and an existing bypass |
| `GateSelection.StartedInv` | extras/mmu/mmu_controller.py:155-166 | At start-up, whatever gate was saved, the selected unit is the routed one and FlowGuard is off |
| `GateSelection.SelectGateInv` | extras/mmu/mmu_controller.py:3208-3233 | After any outcome of a selection no selection is under way and the gate is the target on success, and otherwise unknown or the one before |
| `GateSelection.HomeOnlyInv` | extras/mmu/mmu_controller.py:3176-3206 | A unit that may hold the filament is not homed; one with the selection loses it first, another homes without touching gate, unit or FlowGuard |
| `GateSelection.HomeUnitInv` | extras/mmu/mmu_controller.py:3176-3206 | Homing with reselection restores the known gate of the unit, or its first gate, or ends with the gate unknown or as before |
| `GateSelection.SelectHomesOnce` | extras/mmu/mmu_controller.py:3208-3219 | A selection homes at most once, the unhomed selector of the unit the target is routed to |
| `GateSelection.SelectsAfterHoming` | extras/mmu/mmu_controller.py:3209-3238 | For every gate, state and hardware answers, the calls of selectors and the homings logged: another gate whose unit is unhomed and needs homing is refused without a call while filament may be in the way; else exactly one homing of that unit comes first and the selector is asked for the gate only if it succeeds; a selection that fails ends with asking the selected unit for no gate |
| `GateSelection.HomesOnce` | extras/mmu/mmu_controller.py:3172-3206 | Homing alone: refused unchanged while filament may be in the way, else one call and one logged homing; the selection is lost exactly if it was the unit's |
| `GateSelection.RunInv` | extras/mmu/mmu_controller.py:2531-2550 | Over any run of selections, homings, filament moves, monitoring changes, resets while monitoring is off and turning off and on, with any hardware failures, the selected unit is the routed one (after a reset none, while the gate is unknown), FlowGuard is armed on exactly the routed unit when monitoring is on and on none when it is off, and every homing happened with the filament unloaded or with a known selection and another unit selected |
| `GateSelection.ResetInv` | extras/mmu/mmu_controller.py:149-194 | A reset keeps all this if and only if monitoring is off |
| `GateSelection.ResetLeavesArmed` | extras/mmu/commands/mmu_reset.py:47-68 | A reset while monitoring is on leaves FlowGuard armed though monitoring is off |
| `GateSelection.ReenableInv` | extras/mmu/mmu_controller.py:2884-2905 | Turning the machine off and on keeps all this, and a unit is selected then whatever gate was saved |
| `GateSelection.SuspendRestores` | extras/mmu/mmu_controller.py:2553-2560 | In a block that suspends monitoring FlowGuard is off on every unit however blocks nest and fail; afterwards monitoring is as before and FlowGuard on the unit the gate is then routed to |
| `GateController.MmuController.constructor` | extras/mmu/mmu_controller.py:155-166 | The fields after start-up, with the saved gate selected and a unit always known |
| `GateController.MmuController.MmuUnit` | extras/mmu/mmu_controller.py:577-589 | The unit a gate is routed to: its owner, else the selected unit, else the first |
| `GateController.MmuController.ApplyFlowguardScope` | extras/mmu/mmu_controller.py:2537-2550 | The loop over the units arms the active one when monitoring is on and disarms all others |
| `GateController.MmuController.SetGateSelected` | extras/mmu/mmu_controller.py:3278-3311 | Gate, unit and FlowGuard after a change of gate |
| `GateController.MmuController.HomeUnit` | extras/mmu/mmu_controller.py:3176-3206 | Homing as specified; the mutual recursion with gate selection terminates |
| `GateController.MmuController.SelectGate` | extras/mmu/mmu_controller.py:3209-3233 | Selects a gate as specified, with every call of a selector accounted for: an unhomed selector that needs it is homed first, the gate is asked for only if that succeeds, and while filament may be in the way nothing moves and nothing changes |
| `GateController.MmuController.UnselectGate` | extras/mmu/mmu_controller.py:3236-3238 | The gate becomes unknown unless the selector fails |
| `GateController.MmuController.EnableFilamentMonitoring` | extras/mmu/mmu_controller.py:2518-2529 | Monitoring on, FlowGuard re-scoped |
| `GateController.MmuController.DisableFilamentMonitoring` | extras/mmu/mmu_controller.py:2501-2516 | Monitoring off, FlowGuard off on every unit, and whether it was on |
| `GateController.MmuController.Perform` | extras/mmu/mmu_controller.py:2553-2560 | A suspended block turns monitoring on again afterwards exactly if it was on |
| `PendingSpool.StepInv` | extras/mmu/mmu_controller.py:1938-2066 | Whatever waits has a running timer, the LED phase is set exactly when a spool waits, a lookup in flight has a running timeout, and nothing that waits or is held was used before |
| `PendingSpool.RunInv` | extras/mmu/mmu_controller.py:1938-2140 | The same in every reachable state, resets and parameter changes included |
| `PendingSpool.AppliedOnce` | extras/mmu/mmu_controller.py:2031-2066 | An assignment that was applied is never applied again and never waits again |
| `PendingSpool.WaitingIsApplied` | extras/mmu/mmu_controller.py:2031-2155 | What waits is applied to a gate that is loaded and what was grabbed to the gate of the preload: the spool unless spools are pulled, and the tag; at a bypass the spool, or without one a tag whose data is known; and nothing else is ever applied |
| `PendingSpool.ResultsArrive` | extras/mmu/mmu_controller.py:1938-1995 | What an answer or a read leaves waiting: a new spool keeps a waiting tag but not its data, a cancelled one leaves the tag, a tag that is read keeps the spool; the wait ends a timeout from then, the warning comes in time, and the lookup guard is up exactly while a sent lookup is out |
| `PendingSpool.TimersAndActions` | extras/mmu/mmu_controller.py:1998-2110 | What timers, actions and a reset do: a timer that is not due does nothing, the warning only changes the phase, the timeout of a lookup only releases the guard, actions that move no filament keep what waits, and a reset leaves every timer running |
| `PendingSpool.WaitEnds` | extras/mmu/mmu_controller.py:2008-2029 | A due timer, a clearing event, any use, a reset and the start of a filament movement leave nothing waiting |
| `PendingSpool.PreloadUsesWhatItGrabbed` | extras/mmu/mmu_controller.py:2113-2122 | A preload applies what it grabbed at its start; an assignment that arrives meanwhile is dropped |
| `PendingGuard.Guard.SetPendingSpoolId` | extras/mmu/mmu_controller.py:1938-1964 | Keeps the invariant; a spool that is set is a new assignment with a running timer, however often it was set before; a cancelled one leaves a timer running exactly if a tag still waits; nothing held or used changes |
| `PendingGuard.Guard.ClearPending` | extras/mmu/mmu_controller.py:2021-2029 | Keeps the invariant; nothing is left that could be applied or expire, and what was applied or is held by a preload stays |
| `PendingGuard.Guard.CheckPendingFilament` | extras/mmu/mmu_controller.py:2031-2066 | Everything recorded as used carries the gate and comes from the assignment that was given, nothing is recorded twice over the whole history, and nothing waits afterwards |
| `PendingGuard.Guard.GrabPending` | extras/mmu/mmu_controller.py:2113-2122 | Hands over exactly what waited; nothing waits afterwards and nothing handed over was ever used |
| `PendingGuard.Guard.CheckPendingBypass` | extras/mmu/mmu_controller.py:2125-2155 | At most one use comes of it, of what waited, and nothing waits afterwards |
| `PendingGuard.Guard.ChangeAction` | extras/mmu/mmu_controller.py:2851-2875 | Entering an action that moves filament, other than a preload, leaves nothing waiting; every other change of action leaves what waits |
| `PendingGuard.Guard.PreloadDone` | extras/mmu/mmu_controller.py:2113-2122 | The end of a preload uses exactly what it grabbed at its start, whatever came in meanwhile, and nothing is held or waits afterwards |
| `PendingGuard.Guard.Perform` | extras/mmu/mmu_controller.py:1938-2140 | Every event, timers and resets included, moves the object as the state machine and keeps: whatever waits has a running timer, the phase is set exactly when a spool waits, a lookup has a running timeout, and nothing that waits was used |
| `PrintState.RunPauseKept` | extras/mmu/mmu_controller.py:2253-2276 | Over any run, failing heaters included, a paused MMU has the temperature to come back to, no monitoring, and printing or ready to resume to |
| `PrintState.LeadsTo` | extras/mmu/mmu_print_state_machine.py:148-245 | For every state and command: the job it leads to, the target of the heater and whether monitoring is on, read off the state before |
| `PrintState.FirstErrorHolds` | extras/mmu/mmu_controller.py:2253-2352 | From printing, through a first error and any further errors, unlocks and resumes that are refused or fail to heat: the temperature is that of the first error, the reason is exactly as long as no resume failed to heat, and the resume leads back to printing with monitoring on and that temperature set |
| `PrintState.MonitoringMatchesPrint` | extras/mmu/mmu_controller.py:2338-2351 | For every first error that pauses and anything that does not end the pause: after the resume monitoring is on exactly when the print goes on, if and only if the error came in a print |
| `PrintState.ForcedErrorLeavesMonitoring` | extras/mmu/mmu_controller.py:2338-2351 | The other case: an error forced outside a print resumes to ready but with monitoring on |
| `PrintState.StepInStep` | extras/mmu/mmu_print_state_machine.py:117-145 | A command keeps the two printing events alternating exactly when it is not a reset while printing |
| `PrintState.RunAlternates` | extras/mmu/mmu_print_state_machine.py:117-145 | Over every run without such a reset they strictly alternate, and the last one tells whether printing goes on |
| `PrintState.ResetInPrintRepeats` | extras/mmu/commands/mmu_reset.py:47-68 | With one, the next print start sends the same event twice in a row |
| `PrintMachine.PrintStateMachine.SetPrintState` | extras/mmu/mmu_print_state_machine.py:117-145 | The state is the one asked for, at most one event is sent, and events that alternate with the state go on doing so |
| `PrintMachine.PrintStateMachine.OnPrintStart` | extras/mmu/mmu_print_state_machine.py:157-195 | Afterwards the job is on (printing, unless only prepared); a new start turns monitoring on and forgets the temperature of an old pause; the alternation of events is kept |
| `PrintMachine.PrintStateMachine.OnPrintEnd` | extras/mmu/mmu_print_state_machine.py:198-235 | Afterwards the state is an end state; unless it was one before, monitoring is off and nothing is left of a pause; the alternation of events is kept |
| `PrintMachine.PrintStateMachine.HandleMmuError` | extras/mmu/mmu_controller.py:2253-2276 | The first error of a pause fixes reason, temperature and where to resume to; an error in a pause changes nothing; the alternation of events is kept |
| `PrintMachine.PrintStateMachine.MmuUnlock` | extras/mmu/mmu_controller.py:2325-2334 | A pause goes on with its reason, its temperature and where it resumes to, unlocked exactly if the heater does not fail; the heater is set to the temperature of the pause if that is above zero |
| `PrintMachine.PrintStateMachine.ContinueAfterResume` | extras/mmu/mmu_controller.py:2338-2352 | Leads back to where the pause began, monitoring on and the temperature of the pause set; if the heater fails the pause goes on, but its reason is gone |
| `PrintMachine.PrintStateMachine.ResumeCommand` | extras/mmu/mmu_controller.py:3966-4004 | Unlocks if need be, then resumes, or treats a refusal as one more error |
| `PrintMachine.PrintStateMachine.Perform` | extras/mmu/mmu_print_state_machine.py:33-40 | Every command does to the object what it does to the state |
| `StepperSync.StepKeepsInv` | extras/mmu_stepper.py:594-805 | Every command that is not refused keeps: a stepper is in the follower set of another exactly when it is in manual mode with that one as its queue, the follow relation has no cycle, and each stepper has the queue its mode asks for |
| `StepperSync.RunKeepsInv` | extras/mmu_stepper.py:594-805 | The same over any interleaving of syncs, unsyncs, mode switches, moves and positions of all steppers |
| `StepperSync.NewLeafAcyclic` | extras/mmu_stepper.py:762-800 | Following a stepper that follows nobody closes no cycle |
| `StepperSync.FreshWorldInv` | extras/mmu_stepper.py:560-567 | Freshly configured steppers satisfy the invariant |
| `StepperSync.UnsyncKeepsPosition` | extras/mmu_stepper.py:713-723 | Unsyncing keeps the position and takes the followers along |
| `StepperSync.SetPositionReadsBack` | extras/mmu_stepper.py:577-588 | A position that is set is read back exactly unless the stepper follows another one that is elsewhere |
| `StepperSync.SyncedReadsSource` | extras/mmu_stepper.py:762-798 | A synced stepper reads the position of its source, is in its follower set, and refuses direct mode changes |
| `StepperSync.SyncedStandsAtSource` | extras/mmu_stepper.py:762-798 | A stepper that is synced stands where the motor of the other one stands and executes its moves; the other has one follower more and every stepper else is as it was |
| `StepperSync.ModeAfter` | extras/mmu_stepper.py:645-759 | Which mode changes are refused and what the others lead to: the mode, what drives the stepper and where it stands |
| `StepperSync.MoveCarriesFollowers` | extras/mmu_stepper.py:853-871 | A move of a driving stepper takes exactly its followers along; one that stops following then is where the move ended |
| `StepperObjects.MmuStepper.GetModePosition` | extras/mmu_stepper.py:577-588 | The position by mode and synchronisation |
| `StepperObjects.MmuStepper.EnterManualMode` | extras/mmu_stepper.py:645-664 | Manual kinematics at the current position, no queue |
| `StepperObjects.MmuStepper.EnterExtruderMode` | extras/mmu_stepper.py:666-688 | Extruder kinematics at the extruder's position if there is one, no queue |
| `StepperObjects.MmuStepper.UnsyncManual` | extras/mmu_stepper.py:713-723 | Leaves the follower set, returns to manual mode and keeps the position |
| `StepperObjects.MmuStepper.SwitchToManual` | extras/mmu_stepper.py:731-737 | Manual mode from any mode and synchronisation |
| `StepperObjects.MmuStepper.SwitchToExtruder` | extras/mmu_stepper.py:740-744 | Extruder mode from any mode and synchronisation |
| `StepperObjects.MmuStepper.SyncToExtruder` | extras/mmu_stepper.py:747-759 | Follows an extruder, or is refused |
| `StepperObjects.MmuStepper.SyncToManualStepper` | extras/mmu_stepper.py:762-798 | Follows another stepper, unsyncs when asked to follow itself or nobody, or is refused |
| `StepperObjects.MmuStepper.Move` | extras/mmu_stepper.py:853-871 | Moves itself and everyone who executes its moves, or is refused |
| `LedFrames.PassComposes` | extras/mmu_led_effect.py:419-446 | After a pass each LED of an updating effect holds per channel the smaller of 1 and the true sum of all contributions, in [0,1]; every other LED is as it was |
| `LedFrames.OrderDoesNotMatter` | extras/mmu_led_effect.py:419-446 | The order of the effects changes no channel of any LED |
| `LedFrames.FadeFollowsTime` | extras/mmu_led_effect.py:724-740 | A frame that is due is as bright as the time says: what is left of the fade is what an effect turned on has still to gain and one turned off still to lose; after it the one is fully on and the other gone |
| `LedFrames.StartFadesIn` | extras/mmu_led_effect.py:771-815 | An effect that is started is, in a frame during its fade, as bright as the part of the fade that is over, and fully on after it or without one |
| `LedFrames.StopFadesOut` | extras/mmu_led_effect.py:771-784 | One that is stopped has in such a frame the part of the fade that is left, and is gone after it or without one |
| `LedRuns.UpdatesExactlyOwners` | extras/mmu_led_effect.py:713-742 | An effect writes in a pass exactly when it is enabled, fading or owes its black frame; one that does none of these does not move |
| `LedRuns.StopFreesExactly` | extras/mmu_led_effect.py:488-524 | For every selection and fade: who owns its LEDs after a stop command, exactly |
| `LedRuns.StoppedStaysOff` | extras/mmu_led_effect.py:488-524 | Once a stop returns on a live handler an effect it names that is not fading writes no LED in any later pass until something enables it |
| `LedRuns.ColourSurvivesExactly` | extras/mmu_led_effect.py:384-446 | Every colour that can be set, channels from 0 to 1, survives the next pass exactly when no effect that owns its LEDs covers that LED |
| `LedRuns.ColourSurvives` | extras/mmu_led_effect.py:384-446 | Such a colour lasts through any run that neither enables an effect on the LED nor sets it again |
| `LedRuns.StopReleases` | extras/mmu_led_effect.py:488-524 | A stop leaves no owner on an LED exactly when every effect there is named and not fading, or is off and owed nothing that was not flushed |
| `LedRuns.ColourAfterStop` | extras/mmu_led_effect.py:488-524 | Stop, set a colour, carry on: the colour stays when the stop releases the LED |
| `LedRuns.DisplacedEffectWipesColour` | extras/mmu_led_effect.py:780-806 | Neither enabled nor fading is not enough: an effect displaced by the start of another owes a black frame that a stop which flushes nothing leaves owing, and the next pass wipes the colour |
| `LedObjects.LedEffect.GetFrame` | extras/mmu_led_effect.py:713-742 | An effect writes exactly when it owned its LEDs (enabled, fading or owing its black frame); it goes on owning them exactly if it is enabled or fading; its last frame is black; otherwise nothing about it changes |
| `LedObjects.LedEffect.SetEnabled` | extras/mmu_led_effect.py:744-748 | An effect that is turned on or off owns its LEDs until the next pass, which is due at once; setting the state it has changes nothing |
| `LedObjects.LedEffect.SetFadeTime` | extras/mmu_led_effect.py:771-775 | A zero fade time ends a fade: the effect then owns its LEDs only if it is enabled or owes a frame; any other leaves who owns its LEDs |
| `LedObjects.LedEffect.Owes` | extras/mmu_led_effect.py:751-764 | Whenever the next frame comes, it is written and the effect owns its LEDs no longer |
| `LedObjects.FrameHandler.GetFrames` | extras/mmu_led_effect.py:419-446 | Zeroing and then summing in place is the specified pass |
| `LedObjects.FrameHandler.FlushFrames` | extras/mmu_led_effect.py:384-416 | A pass now, unless not ready or shut down |
| `LedObjects.FrameHandler.StopLedEffects` | extras/mmu_led_effect.py:488-524 | Stops what the selection names and flushes when something named owes its black frame |
| `LedObjects.FrameHandler.SetLedEffect` | extras/mmu_led_effect.py:780-815 | Starts an effect and displaces those it shares LEDs with when asked to |
| `LedObjects.FrameHandler.HandleShutdown` | extras/mmu_led_effect.py:820-821 | Effects that run on shutdown are enabled, the others disabled |
| `LedRuns.ShutdownLeaves` | extras/mmu_led_effect.py:820-821 | After a shutdown exactly the effects that run on shutdown are on, no LED has changed, and nothing is flushed any more |

## Left out

- Tree nodes are values in a layered datatype, not heap objects: identity and sharing of nodes are not modelled; an edit
  in place is the replacement of a value in the builder's document field.
- The word class of the tokenizer is its ASCII part; whitespace is Python's full class.
- `ConfigReparse.ReparsedReadsBack`: options on one line, with a comment without braces, and values on one line without
  `#`, `;`, `[` or `{` whose quotes and brackets are closed; what others become when they are read again depends on the
  text that follows them. It is about one value and what follows it, not about a whole document.
- `ConfigIndented.ReparsedBelow`: the line right below the key, without blank or comment lines between, and new values as
  in `ConfigReparse.ReparsedReadsBack`; `ConfigOverwrite.OverwriteIs` is about every layout.
- `ConfigStability.MarkersDoNotStack`: texts that end within a line, whose last name can be reported as the end of the
  file once and as a missing assignment afterwards.
- Parsing with recovery off, line and column numbers, error context, logging and file encodings.
- `options`, `items`, `rename_*`, `copy_option`, `remove_option`, `getint` and the like: easy members over the lookups
  that are modelled.
- Kconfig, templates, services and the rest of `installer/build.py` outside `HHConfig`.
- Spoolman records are printer, gate and parsed tag list; JSON encoding, tag normalisation, filament attributes,
  automatic creation of spools and the commands sent back to Klipper are not part of this model.
- `SpoolServer.MmuServer`: the number of gates is constant; the source re-reads it before each command.
- The patterns for tool and move lines and the placeholder substitution of the G-code rewriter are arbitrary functions.
- Two units with the same name; unit statistics and parameters of the machine.
- Toolhead moves, macros, the espooler, gear current and the sensor arming that go with selection and monitoring.
- `PrintState.FirstErrorHolds`: a saved temperature of zero is not set again on resume, as in the source.
- Kinematics, step generation and the motion of steppers; a position is one number.
- `LedObjects.FrameHandler.HandleShutdown`: the frame handler's own loop on shutdown, which blackens the chains of a list
  that nothing is ever added to.
- Layers of LED effects (their blended frame is a parameter), the palette parser, LED numbers outside their chain, and
  the times at which the frame timer fires. One reading of the clock stands for the several of a stop command.

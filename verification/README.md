# OVLAB verification

A Dafny model of the parts of OVLAB whose correctness rests on an argument rather than on a look at one function, with proofs of what those parts promise. `dafny verify dfyconfig.toml` checks everything.

The model follows the program's own division.

- **Strict YAML and configuration composition.** Characters and quoting (`Text`, `Scanners`), scalars (`Scalars`), lines and indentation (`Blocks`, `Grammar`), documents (`Documents`, `StrictYaml`), print-then-parse (`RoundTrip`, `Reloading`, `Loaded`), text as people write it (`Escapes`, `Numbers`, `Spellings`, `Handwritten`), and what is refused (`Refusals`, `Keys`, `Printing`). On top of them the deep merge (`Composition`), `extends` chains (`Chains`), the loaders over a file tree (`ConfigTree`) and which file each link means (`Extends`), the bundle builder and the resolver (`Bundles`, `BundleBuilder`, `YamlFiles`, `Hermetic`), exactly when a container resolves what the host does (`Needs`, `HermeticExact`, `Standalone`), and ablation suites (`Ablations`).
- **Episode execution.** `Episodes` says what a history of calls may look like; `EpisodeRun` is the runner, against a policy, a benchmark and a clock that may answer, raise or be interrupted at every call; `Replanning` says when its requests are fresh, and `StaleEpisode` runs one that is not.
- **Episode partitioning.** `Partition` is the specification on sets, with an arbitrary ranking; `PartitionBuild` builds the manifest in loops; `Streaming` is the pass over the source that must meet its counts.
- **Publishing by rename.** `CheckpointCache` and `Finalizer` are state machines whose processes interleave and crash; `Resolving` and `Finalizing` say how one of them ends when it is left alone, `CacheLocks` what the locks keep apart, and `Refinalizing` where finalizing again goes wrong. `RunReferences`, `DataLayout`, `DataSelection`, `Artifacts`, `RootOverlap`, `Archiving`, `ArchiveProgress` and `ArchiveRun` are the data manager's listing, selection and archiving.
- **Target selection and the staged study.** `Targets`, `Study`, and the tensor scan `Safetensors`.

`Results`, `Values`, `Lists`, `Orders` and `Arithmetic` hold what the others share.

## What was found

Where a promise does not hold for every input, the model keeps the code as it is and says exactly when the promise holds.

- Printing and reading back loses more than the printer's domain suggests: besides non-finite floats and the three line breaks that the printer leaves raw, keys that start with `---` or `...` do not reload, except as the first key of a mapping inside a list, where a dash stands in front of them. An empty root mapping prints as an empty document, which is refused (`Reloading.RoundTripExact`).
- Merging is not associative: a middle document that puts a non-mapping between two mappings decides what survives. Nested `extends` keys, on the other hand, are harmless (`Composition.MergeAssociative`).
- Bundles are hermetic for runs that resolve on the host exactly when two things hold, both decided from the tree and the request (`HermeticExact.PlainExact`, `HermeticExact.BundleExact`). The bundle is portable: no selected file extends an absolute path, which the builder follows and the container refuses (`ConfigTree.AbsoluteExtendsStays`), and none is named like the bundle manifest, which would overwrite it. And every overlay arrives: a quantization override asked for under a reference such as `./policies/p.yaml` is silently lost (`HermeticExact.OverrideLost`), and an overlay whose leaf holds text the line lexer breaks, or contributes a non-finite float, does not read back (`YamlFiles.OverlayRereads`, `HermeticExact.LastsExact`).
- The check that discards a stale prediction looks instructions up among the recorded observations, so it compares with the initial instruction when observations are not recorded. Requests are then fresh exactly when no prediction used beyond its first step was asked under another one (`Replanning.FreshUnrecorded`); an ordinary episode can violate this (`StaleEpisode.Run`), and one whose instruction stays another than the initial one replans at every step (`Replanning.UnrecordedReplansEachStep`).
- The check for an episode that changed after cataloguing fires exactly when the number of kept frames differs, so a change of length within one stride, or beyond the cap, goes unnoticed (`Streaming.RawFrames`).
- The two lock files of the checkpoint cache do not exclude each other; safety rests on the rename alone (`CheckpointCache.BothPublishersReached`, `BothPublishersSafe`).
- An adapter checkpoint with other than one weight file in its directory publishes but never verifies (`Finalizer.VisibleIsComplete`). `fail` drops the parameter counts the checkpoint ID is derived from, so every run that has some can be finalized into two checkpoints (`Refinalizing.FailRepublishes`); this also meets the loser of a publish race. Two finalizers of one run can report it completed and leave a manifest that never verifies again (`Refinalizing.TwoFinalizersUnseal`).
- The data manager insists that its runs, exports and archive roots do not overlap, but not on how the legacy training root lies among them. Selections keep apart exactly when that root is neither a listed or archive directory nor on the way to or from one through an entry that can be selected (`RootOverlap.SelectionExact`); archive places alone meet exactly when it is the runs root (`RootOverlap.DestinationsExact`).
- Ablation erasures commute even when factors overlap, so the rule against overlap is not needed for that (`Ablations.DropsCommute`).

## Model

| member | source | states |
|---|---|---|
| `Scanners.StripComment` | code/apps/benchctl/src/ovlab_benchctl/strict_yaml.py:38-57 | The character loop over `quote` and `escaped` cuts the line at the first `#` that is outside quotes and starts the line or follows white space, and refuses exactly the lines that end inside a quote without such a sign |
| `Scanners.SplitMapping` | code/apps/benchctl/src/ovlab_benchctl/strict_yaml.py:60-78 | The loop over `quote`, `depth` and `escaped` splits at the first colon outside quotes and brackets, both halves stripped, and refuses a text without one |
| `Scanners.SplitInline` | code/apps/benchctl/src/ovlab_benchctl/strict_yaml.py:81-96 | The loop over commas outside quotes yields the stripped pieces, and refuses an empty one |
| `Text.OpenQuote` | code/apps/benchctl/src/ovlab_benchctl/strict_yaml.py:38-57 | A line that ends inside a quote, with no comment sign outside quotes, is refused |
| `Text.ColonAfterMute` | code/apps/benchctl/src/ovlab_benchctl/strict_yaml.py:60-78 | A colon after a safe key is the one found, whatever the rest of the line holds |
| `Scalars.IntRoundTrip` | code/apps/benchctl/src/ovlab_benchctl/strict_yaml.py:20-20 | The decimal text of every integer is an integer token and reads back as that integer |
| `Scalars.QuotedReads` | code/apps/benchctl/src/ovlab_benchctl/strict_yaml.py:111-118 | Every string, whatever its characters, is read back from its JSON escapes (section 7 of RFC 8259) |
| `Escapes.SignsRead` | code/apps/benchctl/src/ovlab_benchctl/strict_yaml.py:111-118 | A string is read back however each of its characters is written between double quotes: as it is, by its letter, or by its code units in either case, a pair of them included (section 7 of RFC 8259) |
| `Numbers.FloatTokens` | code/apps/benchctl/src/ovlab_benchctl/strict_yaml.py:21-21 | The texts that read as floats are exactly those made of a sign, digits, a point and an exponent put together in one of the allowed ways |
| `Numbers.IntTokens` | code/apps/benchctl/src/ovlab_benchctl/strict_yaml.py:20-20 | The texts that read as integers are exactly the decimal numbers without leading zeros, with or without a sign, and each reads as the integer it says |
| `Scalars.EscapedScans` | code/apps/benchctl/src/ovlab_benchctl/strict_yaml.py:239-245 | Inside a printed string no scanner ever leaves the quotes, whatever characters the string holds |
| `Scalars.ScalarReads` | code/apps/benchctl/src/ovlab_benchctl/strict_yaml.py:99-131 | Every value printed on one line reads back as itself, except that a non-finite float comes back as a word |
| `Spellings.SpellingReads` | code/apps/benchctl/src/ovlab_benchctl/strict_yaml.py:99-131 | Every value reads from each of its spellings: as printed, between single quotes with each of its own doubled, between double quotes with any escapes, as a number with a sign, fraction or exponent, as a plain word, or as a reserved word in any case |
| `Spellings.InlineReads` | code/apps/benchctl/src/ovlab_benchctl/strict_yaml.py:81-105 | An inline sequence of any length reads as the list of what all its items mean, in order, whatever their spellings and however many blanks follow the commas; commas, quotes and brackets inside quotes belong to their items |
| `Refusals.AdvancedRefused` | code/apps/benchctl/src/ovlab_benchctl/strict_yaml.py:106-131 | Text that opens with neither a quote nor a bracket is refused exactly when it is an anchor, an alias, a tag, a merge, a block scalar or one side of an inline mapping |
| `Refusals.SingleQuoteRefused` | code/apps/benchctl/src/ovlab_benchctl/strict_yaml.py:119-122 | Text in single quotes reads exactly when it ends in another one |
| `Refusals.DoubleQuoteRefused` | code/apps/benchctl/src/ovlab_benchctl/strict_yaml.py:111-118 | Text in double quotes is refused unless it ends in one, and if it holds a control character as it is |
| `Scalars.ScalarScans` | code/apps/benchctl/src/ovlab_benchctl/strict_yaml.py:239-245 | A printed one-line value has no outer blanks and shows no scanner a comment sign or colon |
| `StrictYaml.ReadLine` | code/apps/benchctl/src/ovlab_benchctl/strict_yaml.py:157-173 | One pass over a line finds its dash, key and value exactly as the line grammar says, with the same refusals |
| `StrictYaml.ReadValue` | code/apps/benchctl/src/ovlab_benchctl/strict_yaml.py:198-205 | The value of a key is what its line holds or the block two columns further in; a missing or misplaced block is refused |
| `StrictYaml.Block` | code/apps/benchctl/src/ovlab_benchctl/strict_yaml.py:149-206 | From any line the parser terminates, consumes at least one line, and hands back the value and the line number that the document grammar gives |
| `StrictYaml.MappingBlock` | code/apps/benchctl/src/ovlab_benchctl/strict_yaml.py:190-206 | The mapping loop builds exactly the fields of the grammar in order, and refuses repeated keys |
| `StrictYaml.MappingEntry` | code/apps/benchctl/src/ovlab_benchctl/strict_yaml.py:192-205 | One turn of the mapping loop takes one entry off the lines and leaves the rest of the parse unchanged |
| `StrictYaml.SequenceBlock` | code/apps/benchctl/src/ovlab_benchctl/strict_yaml.py:152-189 | The sequence loop builds exactly the items of the grammar in order |
| `StrictYaml.SequenceItem` | code/apps/benchctl/src/ovlab_benchctl/strict_yaml.py:160-189 | A list item is a scalar, or a mapping that opens behind the dash |
| `StrictYaml.Continuation` | code/apps/benchctl/src/ovlab_benchctl/strict_yaml.py:178-188 | The entries below a dash entry join its mapping; anything but a mapping without that key is refused |
| `StrictYaml.LexRaw` | code/apps/benchctl/src/ovlab_benchctl/strict_yaml.py:212-221 | One raw line is refused, blank, or a line with an even indentation |
| `StrictYaml.LexDocument` | code/apps/benchctl/src/ovlab_benchctl/strict_yaml.py:210-221 | The lexing loop keeps the significant lines in order and stops at the first refusal |
| `StrictYaml.ReadDocument` | code/apps/benchctl/src/ovlab_benchctl/strict_yaml.py:209-225 | The whole of `loads` computes the document function that every theorem on reading is about: `Handwritten.HandwrittenLoads` and `Refusals` for text as people write it, `Reloading.RoundTripExact` for text as it is printed |
| `Handwritten.HandwrittenLoads` | code/apps/benchctl/src/ovlab_benchctl/strict_yaml.py:209-225 | A document whose lines say the rows of any well-formed tree, each value in any spelling or in an inline sequence, with comments and blank lines anywhere, loads as that tree |
| `Handwritten.KeyLoads` | code/apps/benchctl/src/ovlab_benchctl/strict_yaml.py:209-225 | The text `key: value`, with or without a comment behind it, loads as the mapping of that key to what is shown: a value in any spelling, or all the items of an inline sequence |
| `Refusals.TextLoads` | code/apps/benchctl/src/ovlab_benchctl/strict_yaml.py:99-225 | Whatever one-line text stands behind a key decides alone whether the document loads, and as what |
| `Refusals.AdvancedLoads` | code/apps/benchctl/src/ovlab_benchctl/strict_yaml.py:106-131 | A document whose value opens with neither a quote nor a bracket is refused exactly when that value is an anchor, an alias, a tag, a merge, a block scalar or an inline mapping |
| `Refusals.BadLineRefuses` | code/apps/benchctl/src/ovlab_benchctl/strict_yaml.py:209-221 | One line with a tab, an odd indentation, a directive or marker, or a quote left open refuses the whole document, wherever it stands |
| `Keys.SafeKeys` | code/apps/benchctl/src/ovlab_benchctl/strict_yaml.py:25-34 | A key is safe exactly when it has only plain characters and no component of it, split at slashes, is empty or leads up |
| `Keys.UnsafeKeyRefused` | code/apps/benchctl/src/ovlab_benchctl/strict_yaml.py:157-199 | A document whose only key is not safe is refused, whatever stands behind it |
| `StrictYaml.Emitter.EmitField` | code/apps/benchctl/src/ovlab_benchctl/strict_yaml.py:250-261 | One mapping entry appends exactly its own lines to the buffer, and is refused exactly when the key is unsafe or the value has no form |
| `StrictYaml.Emitter.EmitItem` | code/apps/benchctl/src/ovlab_benchctl/strict_yaml.py:263-273 | One list item appends its lines and patches the dash into the first of them, wherever in the buffer that is |
| `StrictYaml.Emitter.Emit` | code/apps/benchctl/src/ovlab_benchctl/strict_yaml.py:247-275 | Emitting appends the lines of the whole value after what the buffer holds; it fails exactly on values `dumps` refuses |
| `StrictYaml.PrintDocument` | code/apps/benchctl/src/ovlab_benchctl/strict_yaml.py:236-278 | The whole of `dumps` computes the printing function the theorems below are about |
| `Printing.PrintsExactly` | code/apps/benchctl/src/ovlab_benchctl/strict_yaml.py:236-278 | Printing is refused exactly for scalars, and for values that somewhere hold a list in a list, an empty mapping in a list, or an unsafe key |
| `Printing.EscapedAsNeeded` | code/apps/benchctl/src/ovlab_benchctl/strict_yaml.py:239-245 | A character is printed as it is unless it is a quote, a backslash or a control character, and those are escaped |
| `Printing.OneFieldPrints` | code/apps/benchctl/src/ovlab_benchctl/strict_yaml.py:247-261 | A document of one field whose value fits on its line is `key: value` and a line feed |
| `Blocks.BlockSound` | code/apps/benchctl/src/ovlab_benchctl/strict_yaml.py:149-206 | Whatever a block parses to is a well-formed tree whose rows are, one for one and in order, the lines consumed |
| `Blocks.EntriesDistinct` | code/apps/benchctl/src/ovlab_benchctl/strict_yaml.py:195-196 | No block mapping ends up with the same key twice |
| `Grammar.BlockComplete` | code/apps/benchctl/src/ovlab_benchctl/strict_yaml.py:149-206 | Every well-formed tree laid out in lines is parsed back, and the lines after it are left alone |
| `Grammar.ParserIsExact` | code/apps/benchctl/src/ovlab_benchctl/strict_yaml.py:138-206 | A document is accepted with a tree if and only if the tree is well formed and describes its lines one for one: nothing is dropped, repeated, reordered or invented |
| `Grammar.LineCount` | code/apps/benchctl/src/ovlab_benchctl/strict_yaml.py:138-206 | A parsed document has one line for each block mapping entry and each scalar list item |
| `Loaded.DocumentLines` | code/apps/benchctl/src/ovlab_benchctl/strict_yaml.py:209-225 | The same counted in the text: significant lines equal block entries plus scalar items |
| `Loaded.LoadedGenuine` | code/apps/benchctl/src/ovlab_benchctl/strict_yaml.py:209-225 | Whatever loads has no repeated key in any mapping at any depth |
| `RoundTrip.RowClassifies` | code/apps/benchctl/src/ovlab_benchctl/strict_yaml.py:157-199 | A printed line says what it was printed for, up to non-finite floats |
| `RoundTrip.RawLexes` | code/apps/benchctl/src/ovlab_benchctl/strict_yaml.py:212-221 | A printed line is lexed to its own text, or refused when its key starts like a document marker and stands first on the line |
| `RoundTrip.RawBroken` | code/apps/benchctl/src/ovlab_benchctl/strict_yaml.py:211-211 | A string with U+0085, U+2028 or U+2029 makes `splitlines` cut its line inside the quotes |
| `RoundTrip.CutLine` | code/apps/benchctl/src/ovlab_benchctl/strict_yaml.py:38-57 | Such a cut line is always refused, never read as something else |
| `Reloading.RowsReread` | code/apps/benchctl/src/ovlab_benchctl/strict_yaml.py:247-275 | Laying out a tree and reading it back commute with turning non-finite floats into words |
| `Reloading.LoadsOfDumps` | code/apps/benchctl/src/ovlab_benchctl/strict_yaml.py:209-278 | Reading what was printed from any non-empty mapping either fails in the lexer or gives the printed tree with non-finite floats as words; nothing else can happen |
| `Reloading.RoundTripExact` | code/apps/benchctl/src/ovlab_benchctl/strict_yaml.py:209-278 | `loads(dumps(v)) == v` if and only if `v` is non-empty, its floats are finite, no string holds one of the three raw line breaks, and no key that starts a line starts with `---` or `...`; every such value prints |
| `Composition.MergeDocuments` | code/apps/benchctl/src/ovlab_benchctl/training_composition.py:12-18 | The merging loop computes the merge all three loaders share (config_bundle.py and resolver.py have the same text) |
| `Composition.MergeGet` | code/apps/benchctl/src/ovlab_benchctl/resolver.py:57-65 | Each key of a merge holds the parent's value, the child's, or the two merged; the child's own `extends` never appears |
| `Composition.MergeKeys` | code/apps/benchctl/src/ovlab_benchctl/resolver.py:57-65 | Keys keep the parent's order, new ones follow in the child's |
| `Composition.MergeAssociative` | code/apps/benchctl/src/ovlab_benchctl/resolver.py:57-65 | Regrouping a chain of merges gives the same document if and only if no middle document puts a non-mapping between two mappings that would not hide one another; nested `extends` keys do no harm |
| `Composition.RegroupingCounterexample` | code/apps/benchctl/src/ovlab_benchctl/resolver.py:57-65 | A concrete three-document chain that regroups differently |
| `Composition.SetDefaultFrame` | code/apps/benchctl/src/ovlab_benchctl/config_bundle.py:153-170 | Setting the override leaves every path alone that neither contains it nor lies below it, and the path itself holds the word |
| `Composition.SetsAlong` | code/apps/benchctl/src/ovlab_benchctl/config_bundle.py:165-165 | Setting a field step by step succeeds exactly when every step on the way is a mapping already |
| `Composition.SetsDefaultAlong` | code/apps/benchctl/src/ovlab_benchctl/config_bundle.py:154-170 | With `setdefault` it succeeds exactly when every step is a mapping or missing |
| `Composition.OverlayCommutes` | code/apps/benchctl/src/ovlab_benchctl/config_bundle.py:153-170 | Setting a field in the leaf and then merging equals merging and then setting it, key order included, whenever the merged document takes the field |
| `Chains.ComposeIsFold` | code/apps/benchctl/src/ovlab_benchctl/resolver.py:88-111 | Resolving succeeds with a document if and only if the chain of parents ends in a root, every prefix passes its checks, and the document is the left fold of merges from the root ancestor to the leaf |
| `Chains.CycleRefused` | code/apps/benchctl/src/ovlab_benchctl/resolver.py:89-92 | Any chain that comes back to one of its files is refused, whatever the files hold |
| `Chains.SameLineage` | code/apps/benchctl/src/ovlab_benchctl/resolver.py:99-106 | A file has one chain of ancestors |
| `Chains.ComposeIsLocal` | code/apps/benchctl/src/ovlab_benchctl/resolver.py:88-111 | Resolving depends on the files of its own chain only, refusals included |
| `Chains.OverlayResolves` | code/apps/benchctl/src/ovlab_benchctl/config_bundle.py:153-170 | Resolving with the overridden leaf gives exactly the resolved document with the field set, re-validated, for chains of any length |
| `ConfigTree.ResolvedIsLocal` | code/apps/benchctl/src/ovlab_benchctl/resolver.py:88-115 | What the bundle builder resolved, the resolver resolves alike, or refuses alike, from any mounted copy of just the selected files |
| `ConfigTree.ClosureKind` | code/apps/benchctl/src/ovlab_benchctl/config_bundle.py:117-122 | Every selected file exists, loads and says it is of the kind asked for |
| `ConfigTree.AbsoluteExtendsStays` | code/apps/benchctl/src/ovlab_benchctl/resolver.py:105-105 | An absolute `extends` is refused once the files are mounted elsewhere |
| `ConfigTree.TrainingIsFold` | code/apps/benchctl/src/ovlab_benchctl/training_composition.py:21-42 | A training document is exactly the fold of merges along its chain, each document keeping the schema version it finds if it states one; which file a link means is `Extends.LoadedMeans` |
| `Extends.LoadedMeans` | code/apps/benchctl/src/ovlab_benchctl/resolver.py:88-111 | For the resolver, the builder and the training loader, told apart from the files alone: a file that reads as a document loads as another if and only if its header fits, the result passes the schema of its kind, and either nothing is extended and it is that document, or the file that `extends` names, beside this one if relative and where it points if absolute, loads too, type or version are kept, and the result is the merge over it |
| `Extends.CycleLoadsNowhere` | code/apps/benchctl/src/ovlab_benchctl/resolver.py:91-93 | A walk along `extends` that comes back to one of its files is refused from its start |
| `Extends.ClosureMeans` | code/apps/benchctl/src/ovlab_benchctl/config_bundle.py:103-137 | A component selects its own file and all that the file its `extends` names selects |
| `Extends.VisitMeans` | code/apps/benchctl/src/ovlab_benchctl/config_bundle.py:103-119 | The builder looks a reference up below the root, or where it points if it is absolute; it succeeds exactly when that file loads, and then selects what the file is made of |
| `Extends.AskedMeans` | code/apps/benchctl/src/ovlab_benchctl/resolver.py:81-115 | The resolver takes a reference below the root only, and gives exactly the document of that file, with the override set and checked again for the kinds that have one |
| `Extends.BuildValidates` | code/apps/benchctl/src/ovlab_benchctl/config_bundle.py:154-177 | Building with an override insists that the policy is a valid one with it, and that the action interface it names loads |
| `BundleBuilder.ConfigBundleBuilder.ExtendsClosure` | code/apps/benchctl/src/ovlab_benchctl/config_bundle.py:103-137 | One chain resolves, and joins the selection, as the chain lemmas say; which files it consists of is `Extends.LoadedMeans` and `Extends.ClosureMeans` |
| `BundleBuilder.ConfigBundleBuilder.Collect` | code/apps/benchctl/src/ovlab_benchctl/config_bundle.py:150-152 | One reference: the document, and the selection grown by its chain |
| `BundleBuilder.ConfigBundleBuilder.OverlayLeaf` | code/apps/benchctl/src/ovlab_benchctl/config_bundle.py:166-170 | The leaf is loaded again, changed, printed and filed under the reference it was asked for by |
| `BundleBuilder.ConfigBundleBuilder.AddPolicyParts` | code/apps/benchctl/src/ovlab_benchctl/config_bundle.py:162-174 | The policy's override, overlay and action interface, with their refusals |
| `BundleBuilder.ConfigBundleBuilder.AddAll` | code/apps/benchctl/src/ovlab_benchctl/config_bundle.py:159-174 | The loop over components, stopping at the first refusal |
| `BundleBuilder.ConfigBundleBuilder.BuildBundle` | code/apps/benchctl/src/ovlab_benchctl/config_bundle.py:143-213 | `build` selects and overlays the same files whatever an earlier build left in the object |
| `BundleBuilder.Materialize` | code/apps/benchctl/src/ovlab_benchctl/config_bundle.py:216-237 | The loop that writes files yields each selected file, its overlay where it has one, and the manifest over everything |
| `Bundles.PlainHermetic` | code/apps/benchctl/src/ovlab_benchctl/config_bundle.py:143-193 | A document without an overlay resolves from the bundle as from the whole tree |
| `YamlFiles.PrintedReads` | code/apps/benchctl/src/ovlab_benchctl/strict_yaml.py:209-278 | A printed document reads back with its non-finite floats as words, or is refused exactly when the line lexer breaks one of its keys or strings |
| `YamlFiles.OverlayRereads` | code/apps/benchctl/src/ovlab_benchctl/config_bundle.py:155-170 | An overlay reads back as the changed leaf if and only if that has finite floats and no text the line lexer breaks |
| `YamlFiles.MergeWorded` | code/apps/benchctl/src/ovlab_benchctl/resolver.py:57-65 | Merging a document that was printed and read back gives the same as merging the document itself if and only if nothing it contributes holds a non-finite float |
| `YamlFiles.JsonRefused` | code/apps/benchctl/src/ovlab_benchctl/config_bundle.py:231-236 | The bundle manifest, as indented JSON, is never read as a configuration |
| `Chains.ComposeConfirms` | code/apps/benchctl/src/ovlab_benchctl/resolver.py:88-115 | If a document resolves from two trees and the second differs from the first only by links that are refused or files that are missing, every file of its chain is in both and the same |
| `Hermetic.ReferenceHermetic` | code/apps/benchctl/src/ovlab_benchctl/resolver.py:149-156 | A reference the builder visited resolves in the container exactly as on the host, refusals included |
| `Hermetic.ComponentsHermetic` | code/apps/benchctl/src/ovlab_benchctl/resolver.py:144-154 | All components and the action interface resolve in the container as on the host |
| `Hermetic.HermeticBundle` | code/apps/benchctl/src/ovlab_benchctl/config_bundle.py:143-237 | For any file graph, reader and printer: when `build` succeeds and its bundle is deliverable, the resolver with nothing but the bundle, mounted anywhere, gives for every document of the run what it gives on the host with the override set, and refuses when it would refuse there |
| `Hermetic.SurvivesExact` | code/apps/benchctl/src/ovlab_benchctl/config_bundle.py:155-170 | With the program's own reader and printer an overlay survives if and only if its leaf has finite floats and no text the line lexer breaks |
| `Hermetic.HermeticYaml` | code/apps/benchctl/src/ovlab_benchctl/config_bundle.py:143-237 | The theorem for the program's own reader and printer, with nothing assumed about either but that reading floats gives what Python prints |
| `Needs.ResolveSame` | code/apps/benchctl/src/ovlab_benchctl/resolver.py:136-156 | A container resolves a run as the host does if and only if it does so for each document the run needs |
| `Needs.BuildSteps` | code/apps/benchctl/src/ovlab_benchctl/config_bundle.py:143-193 | A build and a host resolution that both succeed go through the same documents, and the files selected are exactly those of their chains |
| `Needs.NeedsByName` | code/apps/benchctl/src/ovlab_benchctl/resolver.py:138-160 | What a run needs, by name: the experiment or deployment; of an experiment its benchmark, metrics, protocol and artifact store; the policy and the action interface its settings name; the resource registry; and a profile when one is asked for |
| `HermeticExact.PlainExact` | code/apps/benchctl/src/ovlab_benchctl/config_bundle.py:143-237 | Without an override, a run that resolves on the host resolves to the same documents from its bundle, for every mount, if and only if no selected file extends an absolute path and none lies where the manifest is written |
| `HermeticExact.LastsExact` | code/apps/benchctl/src/ovlab_benchctl/config_bundle.py:155-170 | An overlaid leaf as it is read back gives, over its resolved parent, what the host finds if and only if it lexes, what it contributes is finite, and its type still fits |
| `HermeticExact.BundleExact` | code/apps/benchctl/src/ovlab_benchctl/config_bundle.py:143-237 | With an override, and the program's own reader and printer, the same equality holds for every mount if and only if the bundle is portable and every overlay arrives: filed under its file's own path and lasting, or lost where the document says the word already |
| `HermeticExact.HostNeedsRoom` | code/apps/benchctl/src/ovlab_benchctl/config_bundle.py:153-156 | Where the resolved `runtime` of a deployment is not a mapping, the host itself refuses the override |
| `Standalone.OverrideArrives` | code/apps/benchctl/src/ovlab_benchctl/config_bundle.py:143-237 | For every deployment of four files without parents that the program printed, whatever else they say: the bundle is built, and the container, told nothing of the override, finds deployment and policy with the word set and the other two as they are |
| `HermeticExact.OverrideLost` | code/apps/benchctl/src/ovlab_benchctl/config_bundle.py:156-170 | For policies and deployments alike: an override asked for under a reference that is not a normalized path is lost, and the container resolves that document as it was |
| `YamlFiles.YamlTidy` | code/apps/benchctl/src/ovlab_benchctl/strict_yaml.py:209-225 | The program's own reader meets what the theorem asks of a reader |
| `Ablations.CommonOf` | code/apps/benchctl/src/ovlab_benchctl/training_ablations.py:79-83 | Popping `id` and each factor in turn from a copy of the base leaves the base with all of them erased at once |
| `Ablations.DropIsPurge` | code/apps/benchctl/src/ovlab_benchctl/training_ablations.py:38-45 | Following the dotted path and popping the last key erases that path and nothing else |
| `Ablations.DropsCommute` | code/apps/benchctl/src/ovlab_benchctl/training_ablations.py:81-82 | Erasing two factors gives the same document in either order, overlapping or not |
| `Ablations.DottedUnder` | code/apps/benchctl/src/ovlab_benchctl/training_ablations.py:87-87 | For dot-free keys the textual test on dotted paths is the prefix test on key sequences |
| `Ablations.AblationExact` | code/apps/benchctl/src/ovlab_benchctl/training_ablations.py:26-35 | Two documents with the factors erased are equal if and only if every reported difference lies at or below a factor |
| `Ablations.VariantIsCommon` | code/apps/benchctl/src/ovlab_benchctl/training_ablations.py:79-89 | The constructor's test on dotted strings accepts a variant if and only if variant and base, with `id` and the factors erased, are the suite's one common document |
| `EpisodeRun.ExecuteEpisode` | code/apps/runner/src/ovlab_runner/execution.py:41-185 | For every policy, benchmark and clock, in all three modes: each answer is the one given to the calls before it; indices of each prediction run 0, 1, 2, … below its limit, the limit never exceeds the horizon, steps stay within the maximum; every request is fresh if and only if each prediction used beyond its first step was asked under the instruction it is later compared by; after a step that terminated or was truncated nothing is requested any more; the policy is ended if it was begun, the benchmark is aborted only when active; a normally ended episode is a success, a time limit or a failure exactly as the flags of its last step say, and any other status says whose fault it was |
| `EpisodeRun.Episode.Reset` | code/apps/runner/src/ovlab_runner/execution.py:52-64 | Policy before benchmark; afterwards the loop invariant holds, or the failure is blamed on whoever was called |
| `EpisodeRun.Episode.Accept` | code/apps/runner/src/ovlab_runner/execution.py:73-85 | A prediction is taken on only with a known step and a permitted horizon, with the limit of its mode; otherwise the reason is one of those |
| `EpisodeRun.Episode.Replan` | code/apps/runner/src/ovlab_runner/execution.py:68-85 | A new prediction restarts the chunk and is charged to the episode only when the last was used up |
| `EpisodeRun.Episode.Apply` | code/apps/runner/src/ovlab_runner/execution.py:86-102 | One action is requested from inside the chunk; the horizon guard is never hit |
| `EpisodeRun.Episode.Settle` | code/apps/runner/src/ovlab_runner/execution.py:119-135 | After a step the episode ends, fails or goes on with one more step counted and the chunk advanced by one |
| `EpisodeRun.Episode.Reconsider` | code/apps/runner/src/ovlab_runner/execution.py:132-135 | A changed instruction discards the rest of the prediction; an unchanged one keeps it |
| `EpisodeRun.Episode.Iterate` | code/apps/runner/src/ovlab_runner/execution.py:66-135 | One pass keeps the invariant and takes exactly one step, or leaves for a stated reason |
| `EpisodeRun.Episode.Attempt` | code/apps/runner/src/ovlab_runner/execution.py:51-136 | The loop ends within the task maximum, normally or with someone to blame |
| `EpisodeRun.Episode.Conclude` | code/apps/runner/src/ovlab_runner/execution.py:125-129 | A terminal step ends the policy and writes the trace; the status is told by the flags of that step alone |
| `EpisodeRun.Episode.SafeEnd` | code/apps/runner/src/ovlab_runner/execution.py:175-177 | Ending on the way out is tried once; only an interrupt gets out |
| `EpisodeRun.Episode.SafeAbort` | code/apps/runner/src/ovlab_runner/execution.py:180-185 | The benchmark is aborted only after it said it is active; only an interrupt gets out |
| `EpisodeRun.Episode.Recover` | code/apps/runner/src/ovlab_runner/execution.py:137-153 | On the way out the policy is ended if still active and the trace is written with its status |
| `EpisodeRun.Episode.RecordStep` | code/apps/runner/src/ovlab_runner/recorder.py:87-95 | A step is refused only when its action names no prediction or its step already has one |
| `Replanning.ReplanCounts` | code/apps/runner/src/ovlab_runner/execution.py:67-85 | While the instruction stays one, whichever it is, and is what predictions are compared by, an episode of s steps asks s times in receding mode and ceil(s/k) times at interval k |
| `Replanning.UnrecordedReplansEachStep` | code/apps/runner/src/ovlab_runner/execution.py:132-166 | Without recorded observations, an instruction that stays one but is not the initial one costs a new prediction at every step, whatever the mode |
| `Replanning.FreshExactly` | code/apps/runner/src/ovlab_runner/execution.py:67-135 | No action is ever requested that was planned under an instruction no longer in force, if and only if every prediction used beyond its first step was asked under the instruction it is compared by |
| `Replanning.LimitOneIsFresh` | code/apps/runner/src/ovlab_runner/execution.py:67-135 | Where each prediction is good for one step only, every request is fresh, whatever is recorded and whatever the policy answers |
| `Replanning.FreshUnrecorded` | code/apps/runner/src/ovlab_runner/execution.py:132-166 | Without recorded observations every request is fresh if and only if each prediction used beyond its first step was asked under the initial instruction |
| `Replanning.HonestIsFresh` | code/apps/runner/src/ovlab_runner/execution.py:132-166 | With observations recorded under distinct step IDs and predictions that name the step they were asked about, every request is fresh |
| `StaleEpisode.Run` | code/apps/runner/src/ovlab_runner/execution.py:41-185 | A concrete policy and benchmark that answer truthfully: the episode succeeds, and yet an action is requested that was planned under another instruction |
| `PartitionBuild.Catalogue` | code/apps/benchctl/src/ovlab_benchctl/training_data.py:56-66 | The cataloguing loop accepts exactly well-formed records with distinct IDs, and files each under its group |
| `PartitionBuild.Choose` | code/apps/benchctl/src/ovlab_benchctl/training_data.py:77-79 | Sorting and slicing selects the best-ranked episodes of a group, at most the limit |
| `PartitionBuild.HoldOut` | code/apps/benchctl/src/ovlab_benchctl/training_data.py:82-83 | The episodes held out are the best-ranked in the second ranking, as many as make up the fraction |
| `PartitionBuild.SelectGroup` | code/apps/benchctl/src/ovlab_benchctl/training_data.py:77-88 | One group gives its rows, or is refused exactly when fewer than two episodes are selected |
| `PartitionBuild.BuildEpisodeManifest` | code/apps/benchctl/src/ovlab_benchctl/training_data.py:49-97 | Refused exactly when no partition exists; otherwise the rows are exactly those of the best-ranked episodes, sorted and tallied, and in every group the held-out ones are at least one, not all, and the least number that makes up the fraction |
| `PartitionBuild.BothSplits` | code/apps/benchctl/src/ovlab_benchctl/training_data.py:80-83 | Every group of a built partition has an episode to train on and one held out |
| `PartitionBuild.FractionHeld` | code/apps/benchctl/src/ovlab_benchctl/training_data.py:78-83 | Counted on the rows of a manifest: a group has all its episodes or as many as the limit, and the least number of them that makes up the fraction is held out, but at least one and never all |
| `Partition.ValidationCount` | code/apps/benchctl/src/ovlab_benchctl/training_data.py:82-82 | At least one and never all; otherwise the least number that is not below the fraction of the episodes |
| `Partition.PositionIsIndex` | code/apps/benchctl/src/ovlab_benchctl/training_data.py:77-83 | In a list sorted by rank and ID, an episode's place is the number of episodes ranked before it |
| `Partition.OrderIndependent` | code/apps/benchctl/src/ovlab_benchctl/training_data.py:56-97 | Every permutation of the records gives the same manifest, or the same refusal, even when hashes collide |
| `Partition.GroupsIsolated` | code/apps/benchctl/src/ovlab_benchctl/training_data.py:76-88 | Changing the episodes of other groups changes no row of this group |
| `Streaming.KeepFrames` | code/apps/benchctl/src/ovlab_benchctl/training_data.py:207-225 | The stride-and-cap loop keeps exactly min(ceil(n/stride), cap) frames, each a multiple of the stride and inside the episode |
| `Streaming.RawFrames` | code/apps/benchctl/src/ovlab_benchctl/training_data.py:195-235 | A pass is refused exactly when an episode of the split no longer gives the number of frames catalogued; otherwise it gives the kept frames of those episodes, in source order |
| `Streaming.PassGives` | code/apps/benchctl/src/ovlab_benchctl/training_data.py:195-235 | What a pass gives: of each episode of the split exactly the frames at multiples of the stride, as many as the cap allows |
| `Streaming.NeverChanged` | code/apps/benchctl/src/ovlab_benchctl/training_data.py:231-232 | The check for a changed episode never fires on the source that was catalogued |
| `Streaming.OnePass` | code/apps/benchctl/src/ovlab_benchctl/training_data.py:265-287 | One pass over an unchanged source is never refused and yields exactly `len(dataset)` items and the counted episodes of the split |
| `Streaming.BuiltVerifies` | code/apps/benchctl/src/ovlab_benchctl/training_data.py:100-108 | What was built passes the manifest check: no ID twice, every row has a frame |
| `CheckpointCache.VerifyCheckpoint` | code/apps/benchctl/src/ovlab_benchctl/checkpointing.py:320-357 | The loop accepts a directory if and only if every pinned file, repeated or not, is there with its size and digest, and the aggregate check after it can then not fail |
| `CheckpointCache.FoundIsMatches` | code/apps/benchctl/src/ovlab_benchctl/checkpointing.py:330-346 | Checking the pinned files one by one checks the specification they form, when each is named once |
| `CheckpointCache.ConflictNeverFound` | code/apps/benchctl/src/ovlab_benchctl/checkpointing.py:320-346 | A list that names a file twice with different identities is met by no directory |
| `CheckpointCache.SpecOf` | code/apps/benchctl/src/ovlab_benchctl/checkpointing.py:284-295 | A specification taken from a snapshot is met by that snapshot and lists all its files |
| `CheckpointCache.ApplySafe` | code/apps/benchctl/src/ovlab_benchctl/checkpointing.py:533-690 | One step of one resolver, of the world, or a crash keeps what every resolver knows, and never touches a published snapshot |
| `CheckpointCache.PublishSafe` | code/apps/benchctl/src/ovlab_benchctl/checkpointing.py:385-385 | A rename publishes the whole of what its publisher was to link or to download, matching its specification when it is pinned, or is refused because a snapshot is there |
| `CheckpointCache.CacheIsSafe` | code/apps/benchctl/src/ovlab_benchctl/checkpointing.py:533-690 | In every interleaving of resolvers with crashes anywhere, the managed path is absent or holds a whole snapshot of its source, or one that meets its publisher's pinned specification; it never changes once it is there, and every returned result matches its specification there, then and ever after |
| `Resolving.PinnedResolves` | code/apps/benchctl/src/ovlab_benchctl/checkpointing.py:575-690 | A resolver with a pinned spec, left alone with the locks free in any safe state, finishes, and always the same way: it returns exactly when the first source present in the order global, local, managed matches and the managed snapshot is absent or matches, or, with none present and downloading allowed, when what the hub delivers is whole and matches; and the managed path then holds what it returned |
| `Resolving.LatestResolves` | code/apps/benchctl/src/ovlab_benchctl/checkpointing.py:533-573 | One that follows a moving selector finishes too: with the spec of the first source present if that is not empty and a managed snapshot agrees, or with what the hub delivers if it may download |
| `Resolving.PublisherReturns` | code/apps/benchctl/src/ovlab_benchctl/checkpointing.py:600-690 | One about to rename returns its spec with what it renamed exactly when nobody has published before it |
| `CacheLocks.LocksExclude` | code/apps/benchctl/src/ovlab_benchctl/checkpointing.py:600-660 | Whatever happens, at most one resolver is linking at a time and at most one is downloading |
| `CacheLocks.EndsWithoutPublishing` | code/apps/benchctl/src/ovlab_benchctl/checkpointing.py:642-646 | An exception publishes nothing and removes the temporary directory; a crash publishes nothing and leaves it |
| `CheckpointCache.BothPublishersSafe` | code/apps/benchctl/src/ovlab_benchctl/checkpointing.py:618-671 | A linker and a downloader, each under its own lock, can both be about to publish; the second rename is refused and the first snapshot stands |
| `CheckpointCache.BothPublishersReached` | code/apps/benchctl/src/ovlab_benchctl/checkpointing.py:555-671 | Such a state is reached from the initial one: the two lock files do not exclude each other |
| `Finalizer.ApplySafe` | code/apps/benchctl/src/ovlab_benchctl/training_runs.py:376-532 | One step of one finalizer, a failure or a crash keeps every visible bundle complete and unchanged |
| `Finalizer.BundleVerifies` | code/apps/benchctl/src/ovlab_benchctl/training_runs.py:562-580 | A complete bundle passes `verify` if and only if it is not an adapter with other than one weight file |
| `Finalizer.VisibleIsComplete` | code/apps/benchctl/src/ovlab_benchctl/training_runs.py:376-532 | At every moment of every interleaving of finalizers with failures and crashes, a visible checkpoint lists exactly its bytes, has the ID of its document, never changes, and verifies exactly when it is not an adapter with other than one weight file |
| `Finalizer.CalmRun` | code/apps/benchctl/src/ovlab_benchctl/training_runs.py:491-532 | While one finalizer at a time works on a run and `fail` is not called for it, its parameter counts, staging and any sealed manifest stay consistent |
| `Finalizer.Finish` | code/apps/benchctl/src/ovlab_benchctl/training_runs.py:428-532 | A finalizer left to itself always reaches the end |
| `Finalizing.FinalizerEnds` | code/apps/benchctl/src/ovlab_benchctl/training_runs.py:376-532 | A finalizer that begins in any safe state and is left alone stops, and always the same way: it is done exactly when the staged files are valid, the checkpoint of their ID verifies or is absent with no staged file in the way of the two documents, and a run that has a manifest verifies and points to that ID |
| `Finalizing.PublisherEnds` | code/apps/benchctl/src/ovlab_benchctl/training_runs.py:376-532 | One about to publish is done exactly when nobody has published before it and the run is fit to be completed |
| `Finalizing.TamperedFails` | code/apps/benchctl/src/ovlab_benchctl/training_runs.py:562-575 | A complete bundle no longer verifies once any listed file is gone or has another digest |
| `Finalizing.FailureUnseals` | code/apps/benchctl/src/ovlab_benchctl/training_runs.py:258-271 | A completed run that verifies does so no longer once a finalizer of it has failed |
| `Finalizing.NothingStrays` | code/apps/benchctl/src/ovlab_benchctl/training_runs.py:376-532 | Without crashes, whatever fails or is interrupted, no temporary file of a run is left behind that was not there before |
| `Finalizer.RetryCompletes` | code/apps/benchctl/src/ovlab_benchctl/training_runs.py:376-532 | After any number of crashes and interruptions, whatever temporary files they left, the next finalizer left to itself completes the run with the ID it had from the start, and run and checkpoint both verify |
| `Refinalizing.RetryAfterFail` | code/apps/benchctl/src/ovlab_benchctl/training_runs.py:223-235 | Wherever `fail` is called for a run that is not sealed, the next finalizer left to itself completes the run under the ID of a run without parameter counts, beside whatever was published before |
| `Refinalizing.FailRepublishes` | code/apps/benchctl/src/ovlab_benchctl/training_runs.py:223-532 | Every run can be finalized into two checkpoints, by an error after the first is published, `fail` and a retry: both are in the store and verify, and they are one if and only if the run had no parameter counts |
| `Refinalizing.NeverVerifies` | code/apps/benchctl/src/ovlab_benchctl/training_runs.py:258-270 | A run whose manifest lists a temporary file that is gone verifies never again, whatever any process does |
| `Refinalizing.TwoFinalizersUnseal` | code/apps/benchctl/src/ovlab_benchctl/training_runs.py:492-531 | For every run there is an interleaving of two finalizers, from its start and without any crash or error, after which one of them has reported the run completed and no later event makes it verify |
| `RunReferences.ResolveAcross` | code/apps/benchctl/src/ovlab_benchctl/run_references.py:102-146 | The two loops over the roots compute the lookup the lemmas below are about |
| `RunReferences.ResolveListed` | code/apps/benchctl/src/ovlab_benchctl/run_references.py:114-124 | An ID that is a directory under some root resolves if and only if it is one under no other, and then to that directory; it is never called unavailable |
| `RunReferences.ResolveSound` | code/apps/benchctl/src/ovlab_benchctl/run_references.py:102-146 | What a reference resolves to carries that ID, or that hash when nothing carries the ID, and nothing else does |
| `RunReferences.ResolveHashed` | code/apps/benchctl/src/ovlab_benchctl/run_references.py:125-146 | Eight hexadecimal digits that are no ID resolve exactly when one listed directory alone carries that hash, and then to it; they are never called unavailable when one does |
| `RunReferences.ResolveNothing` | code/apps/benchctl/src/ovlab_benchctl/run_references.py:102-146 | A reference is unavailable exactly when it is no single name, or no listed directory has it as ID or as hash |
| `Artifacts.HashCase` | code/apps/benchctl/src/ovlab_benchctl/run_references.py:125-135 | The letters of a hash may be written in either case |
| `Artifacts.ArtifactHasOneName` | code/apps/benchctl/src/ovlab_benchctl/data_management.py:254-268 | An artifact that is found in both layouts has one name in all of them |
| `DataLayout.ListPlaces` | code/apps/benchctl/src/ovlab_benchctl/data_management.py:341-415 | The listing loops append one target per directory entry, in order, and fail when one entry does |
| `DataSelection.EntryShelved` | code/apps/benchctl/src/ovlab_benchctl/data_management.py:205-339 | Whatever is listed is selected from where it was listed and archived under the shelf of its listing |
| `Artifacts.SelectsAll` | code/apps/benchctl/src/ovlab_benchctl/data_management.py:435-467 | Selecting everything succeeds exactly when everything can be listed, something is, and nothing of it is active |
| `Artifacts.ActiveRefuses` | code/apps/benchctl/src/ovlab_benchctl/data_management.py:435-467 | One listed directory that is active refuses the whole selection |
| `DataSelection.DestinationsApart` | code/apps/benchctl/src/ovlab_benchctl/data_management.py:205-339 | Two different selected directories never have equal or nested archive places, as long as the legacy root is not the runs root |
| `DataSelection.SourcesApart` | code/apps/benchctl/src/ovlab_benchctl/data_management.py:341-415 | Nor equal or nested sources, nor a source that meets an archive place, when the legacy root is clear of the other directories |
| `DataSelection.SelectionSeparate` | code/apps/benchctl/src/ovlab_benchctl/data_management.py:435-467 | Selecting everything is refused or gives moves whose sources and destinations are pairwise distinct and un-nested, when the legacy root is clear of the other directories |
| `RootOverlap.SelectionExact` | code/apps/benchctl/src/ovlab_benchctl/data_management.py:124-149 | For every layout the constructor accepts: that is so, whatever the directories hold, if and only if the legacy root is clear of every listed directory, every companion's and every archive directory |
| `RootOverlap.DestinationsExact` | code/apps/benchctl/src/ovlab_benchctl/data_management.py:205-236 | Archive places never meet, whatever the directories hold, if and only if the legacy root is not the runs root |
| `RootOverlap.DefaultsClear` | code/apps/benchctl/src/ovlab_benchctl/data_management.py:124-136 | The default exports and archive roots are clear, also with the data root itself for archive |
| `RootOverlap.ListedTwice` | code/apps/benchctl/src/ovlab_benchctl/data_management.py:357-368 | When the legacy root is the runs root, a listing with one run is selected and gives two moves to one place |
| `RootOverlap.SelectionMeets` | code/apps/benchctl/src/ovlab_benchctl/data_management.py:341-415 | For every layout in which the legacy root is not clear there are directories under which everything is selected and two moves meet |
| `Archiving.StepOrderly` | code/apps/benchctl/src/ovlab_benchctl/data_management.py:539-617 | One step of archiving, or stopping there, loses no tree and touches nothing else |
| `Archiving.ElsewhereSame` | code/apps/benchctl/src/ovlab_benchctl/data_management.py:556-575 | A move changes nothing in any directory that is neither inside nor around its source or its destination |
| `Archiving.ArchiveConserves` | code/apps/benchctl/src/ovlab_benchctl/data_management.py:539-638 | On nested directories: wherever archiving stops, also midway through a cross-filesystem copy or removal, every tree is complete at its source or its destination and no file outside them has changed; when it finishes all are moved |
| `Archiving.SelectionConserved` | code/apps/benchctl/src/ovlab_benchctl/data_management.py:435-638 | The same for everything the data manager selects |
| `ArchiveRun.Archiver.ArchiveOne` | code/apps/benchctl/src/ovlab_benchctl/data_management.py:556-575 | One move, by rename or by copy, compare, rename and remove, follows the steps above, for every operating system |
| `ArchiveRun.Archiver.CopyAcross` | code/apps/benchctl/src/ovlab_benchctl/data_management.py:563-574 | Only a verified copy is renamed into place, and the source is removed only after that |
| `ArchiveRun.Archive` | code/apps/benchctl/src/ovlab_benchctl/data_management.py:619-638 | A taken destination refuses everything before anything is touched; otherwise each tree is kept wherever the loop stops and has arrived unchanged when it succeeds; it succeeds where nothing fails and everything is there; and where no rename crosses filesystems every tree has moved as a whole or not at all |
| `ArchiveProgress.RenamesAreWhole` | code/apps/benchctl/src/ovlab_benchctl/data_management.py:556-562 | Where nothing crosses filesystems, each tree has moved as a whole or not at all, wherever archiving stops |
| `Targets.AddTargets` | code/apps/benchctl/src/ovlab_benchctl/quic_experiments.py:147-179 | One selector adds its modules exactly when none is named twice or chosen already and each is active, supported and admitted; otherwise the whole selection is refused |
| `Targets.ResolveTargets` | code/apps/benchctl/src/ovlab_benchctl/quic_experiments.py:116-185 | It succeeds if and only if each selector matches something that may all be chosen, no two selectors overlap, and the placement finds the selection complete; and then the selection is exactly the active modules among everything the selectors match |
| `Targets.MatchesMean` | code/apps/benchctl/src/ovlab_benchctl/quic_experiments.py:64-89 | A selector matches exactly the modules it names, or its pattern matches, that lie in its region and layers; it is refused exactly when it is malformed, names an unknown module, or matches nothing |
| `Targets.TargetCoverage` | code/apps/benchctl/src/ovlab_benchctl/quic_experiments.py:92-113 | The second computation, from the selectors alone, gives the coverage of the selection it is handed, and is refused exactly when a selector is |
| `Targets.CoverageMeans` | code/apps/benchctl/src/ovlab_benchctl/quic_experiments.py:92-113 | Coverage of any selection: what is active and selected makes up the fraction, which is one exactly when nothing active is left out, and the excluded are the matched ones that are neither active nor selected |
| `Targets.ResolvedIsCovered` | code/apps/benchctl/src/ovlab_benchctl/quic_experiments.py:92-113 | For a resolved selection nothing active is uncovered, the fraction is exactly one, and matched equals selected plus excluded |
| `Study.Journal.Invoke` | deploy/scripts/train-quic-lora-coverage.py:131-133 | The reply is the runner's answer to this command after everything it was asked before, and both are journalled |
| `Study.Journal.RunCycle` | deploy/scripts/train-quic-lora-coverage.py:151-172 | One cycle appends its commands in order and completes only when each passed; the last command is what stopped it |
| `Study.Journal.Confirm` | deploy/scripts/train-quic-lora-coverage.py:162-169 | Both verifications are asked for, and accepted only under the IDs the training returned and with full coverage |
| `Study.RunStudy` | deploy/scripts/train-quic-lora-coverage.py:112-181 | For every runner: refused exactly without suites or with an unsupported one; the commands issued are a prefix of one fixed schedule, all but the last passed, and the status is completed if and only if the whole schedule ran and passed |
| `Study.DeepIsGated` | deploy/scripts/train-quic-lora-coverage.py:148-169 | When a deep training command has been issued, every profile of both stages had validated, and every suite's smoke run had completed with both errors zero, changed tensors, a finite loss, coverage fraction one with nothing uncovered and a convolution, and both verifications under its own IDs |
| `Study.AskedIsGated` | deploy/scripts/train-quic-lora-coverage.py:112-169 | That covers every suite asked for, however often and in whatever order it was named |
| `Safetensors.MaskIsExponent` | code/apps/benchctl/src/ovlab_benchctl/training_runs.py:305-316 | The mask test holds exactly for little-endian elements whose exponent bits are all ones: infinities and NaNs (section 3.4 of IEEE 754-2019, and BF16) |
| `Safetensors.FiniteTogether` | code/apps/benchctl/src/ovlab_benchctl/training_runs.py:300-316 | A payload is finite exactly when its parts are, cut at any element |
| `Safetensors.ScanBlock` | code/apps/benchctl/src/ovlab_benchctl/training_runs.py:305-316 | One block is clean exactly when each of its elements is finite |
| `Safetensors.ReadBlocks` | code/apps/benchctl/src/ovlab_benchctl/training_runs.py:298-317 | Whatever the block size, the loop accepts a payload inside the file exactly when all its elements are finite, and never one that runs past the end |
| `Safetensors.FinitePayload` | code/apps/benchctl/src/ovlab_benchctl/training_runs.py:291-317 | The same with its offset checks: malformed offsets are refused, unscanned types pass |
| `Safetensors.InspectSafetensors` | code/apps/benchctl/src/ovlab_benchctl/training_runs.py:320-346 | A file is accepted exactly when it has a tensor and every entry is complete, sized as its shape says, inside the file and finite; each entry is then recorded, in order |
| `Safetensors.AcceptsF32` | code/apps/benchctl/src/ovlab_benchctl/training_runs.py:291-346 | A 32-bit entry is accepted exactly when it lies in the file with four bytes for each element of its shape, none with all eight exponent bits set |
| `Safetensors.AcceptsF64` | code/apps/benchctl/src/ovlab_benchctl/training_runs.py:291-346 | A 64-bit entry likewise: eight bytes, none with all eleven exponent bits set |
| `Safetensors.AcceptsF16` | code/apps/benchctl/src/ovlab_benchctl/training_runs.py:291-346 | A half-precision entry likewise: two bytes, none with all five exponent bits set |
| `Safetensors.AcceptsBF16` | code/apps/benchctl/src/ovlab_benchctl/training_runs.py:291-346 | A brain-float entry likewise: two bytes, none with all eight exponent bits set |
| `Safetensors.AcceptsOther` | code/apps/benchctl/src/ovlab_benchctl/training_runs.py:291-346 | An entry of any other type is accepted wherever it ends inside the file |
| `Safetensors.ProductSplits` | code/apps/benchctl/src/ovlab_benchctl/training_runs.py:333-333 | The number of elements of a shape is that of its parts multiplied, however it is split |

## Left out

- Hermetic.HermeticBundle: one direction, for an arbitrary reader and printer whose overlays read back; `HermeticExact.BundleExact` has both directions for the program's own, for runs that resolve on the host. What a container accepts of a run that the host refuses is said only by the former.
- HermeticExact.BundleExact: that resolving a path gives one that resolves to itself, and that the manifest text is no configuration, are assumed of the file system and of JSON (`YamlFiles.JsonRefused` covers an indented object).
- Hermetic.HermeticBundle: experiment and profile paths given absolutely, and the `configs/` prefix that `build` strips, are not modelled; references are taken as they stand after that.
- RootOverlap.SelectionExact: a directory listing is any list of distinct names for each directory; the directories that lead to the roots are not required to be listed by their parents.
- Finalizer.RetryCompletes: one finalizer of the run at a time, and no call of `fail` for it, as `Refinalizing` shows to be needed; weight files are those of one adapter or of a full checkpoint. The random names of temporary files are taken never to repeat.
- Ablations.VariantIsCommon: an `id` that is a mapping in both documents is excluded; the constructor then accepts more narrowly.
- Streaming.OnePass: action vectors, images and instructions are not looked into; the refusals they cause are not modelled.
- Error messages, source line numbers and exception classes; every refusal is one `Err`, except where two kinds of refusal are handled differently.
- Lone surrogates in `\u` escapes, which Python keeps in strings; the model refuses them, because its characters are Unicode scalar values. Python's limit on the digits of an integer.
- How floats are printed and read: a float is known by its `repr`, and reading is an arbitrary function from tokens to `repr`s.
- Python's numeric `==` (`1 == True == 1.0`): it is an arbitrary relation where documents' `type` fields are compared, and plain equality in ablation differences.
- Schema validation: an arbitrary predicate of the merged document and its kind.
- SHA-256, IDs and JSON encodings: arbitrary functions; different documents having different IDs is assumed only where a lemma says so. Hash ties in the partition are allowed.
- The concrete lookup of a path beside a file or below the root is an arbitrary function of the file system; which of the two a reference takes, and from where, is not.
- Symbolic links, permissions, umask, file modes, timestamps, progress messages and evidence files.
- Checkpoint sources outside the managed cache are taken not to change once they are there; a download delivers every file of its source or raises; a file whose length is not declared is taken as it arrives. Pinned paths are taken as safe.
- The cache and the finalizer are modelled on values, one step of one process at a time, because their processes interleave; a class per process would not show the interleaving. `fail` is one step. Reading back a run's own files is one step.
- The legacy and typed prefixes of data identifiers are taken as already split off; directory names with colons are not modelled. Deleting, previewing and the archive's own entry documents are left out, and so is running out of space in the archive. A directory is there when a file is below it: empty directories, and the parents that archiving makes, are not modelled.
- The partition fraction is a real number, so the rounding of floating-point `ceil` is not modelled. `groups` is absent or a list; an explicit null passes validation and fails later in the code.
- Regular expressions, regions, layer numbers, adapter arithmetic and placement rules of target selection are arbitrary functions and predicates.
- The study's state file and the check of its output directory; operating-system exceptions other than ordinary ones and the keyboard's.
- Recording signals and metadata, the trace document, task contexts and all clock arithmetic except the check that the loop clock does not run backwards.
- The safetensors header parser; a header is given as its entries. When a file shrinks while it is scanned and a block ends inside an element, the program raises a struct error, which is a refusal here.
- Publication of datasets, which repeats the finalizer's pattern with the directory visible before its manifest; and everything that needs tensors, images, containers or the network.

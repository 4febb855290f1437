# Verified models of the composer's core protocols

This project models, in Dafny, the parts of the composer whose correctness rests on an argument over all inputs,
all runs or all interleavings: the CVL pretty printer, the publish gate of the foundry author, the answer index,
event delivery and thread mnemonics, the checkpoint timeline, the documentation chunker and streamers, run
accounting, and the requirements judge. `dafny verify dfyconfig.toml` checks all of it.

How the pieces are modelled:

* **CVL printer** (`CvlSchema`, `CvlPrinter`, `CvlReader`, `CvlRoundTrip`, `CvlParentheses`, `CvlSpellings`,
  `CvlCommands`, `CvlLines`, `CvlLineBuilder`, `CvlRules`). The repository has no reader for what it prints, so one is written here: a
  precedence-climbing recursive descent over tokens, with the sixteen precedence levels that the module documents (0 to 15) and the associativity that its
  code gives them (composer/cvl/pretty_print.py:98-107; the documentation is silent on it). Printing and reading are on
  tokens: the lexer is assumed to tell names, keywords, type names and sizes apart. Two operator spellings differ
  between documentation and code: the table gives `**` and `^` for exponentiation and exclusive or, the code prints
  `^` and `xor` (composer/cvl/pretty_print.py:4-20 against 215-262). The model follows the code, and `CvlSpellings`
  proves that a reader of the documented spellings gets a tree back exactly when it uses neither operator.
  Printing then reading is characterised for **all** expressions: it yields a normal form, and it is the identity exactly for the faithful
  ones: no conditional, quantifier or sum directly as the condition of a conditional (grouping is lost there), no
  state argument on a call (it is never printed), no empty string as a contract qualifier (it is printed like none).
  The printed form is the shortest that is read as the expression: an operand is in parentheses exactly when it must be.
  The line builders are classes whose buffers are proved equal to a specification of the lines; the lines are proved
  nested (indentation equals depth, braces balanced) and readable back into the rule and command tree, every command included.
* **Publish gate** (`Strings`, `Skips`, `PropertyTests`, `PropertyRules`, `PublishGate`, `PublishedBatch`,
  `DigestSurface`, `GateRuns`). The authoring workflow is a transition system. One step is a list of tool calls that
  read one snapshot; their updates are folded by the reducers. The digest is a parameter of the model, and theorems conclude "same digest"; injectivity is assumed only where a
  lemma says so. The digest input concatenates the test source and the skips without separators. `DigestSurface`
  proves when equal digests mean equal tests and equal skips, namely with the same skipped titles and no colon in a
  reason, and gives a family of confused states for each of the two conditions; one of them lets a property be newly
  skipped under old certifications. The mapping is checked against the most recent forge run that produced output,
  although the rejection text speaks of the stamping run (composer/foundry/state.py:179-183), and the digest does not
  cover the markings of expected failures. What is reported is the state after the publishing step.
  `ReportedBatchIsCertified` says exactly when that is the batch that was accepted, when the tests it claims are those
  of the certifying run, and when that run is clean under the reported markings; `GateRuns` has a run from the start
  to an accepted publish for each way this fails.
* **Answer index** (`AgentIndex`). Pools are ranked lists with keys unique per pool; the merge runs over objects with
  a cursor, cut at five per pool and five in all, and is proved equal to the global ranking of the uncut pools.
* **Events and mnemonics** (`EventQueue`, `GraphRun`, `GraphEvents`, `Delivery`, `Mnemonics`). Steps are the code between two
  awaits; runs are arbitrary interleavings of them. The documentation of the graph runner promises that an answered
  interrupt resumes the graph (composer/io/graph_runner.py:50-52). The code does not keep it: the test that would go on
  is inside the loop that the interrupt has just left (135-136), so the run returns, without an error, after one
  call. The model does what the code does, and `GraphRun` proves when promise and code agree.
* **Timeline** (`Timeline`, `TimelineOrder`, `MessageChannel`). Checkpoints carry a rank that decreases along parents; the prefetched
  table is any part of the database. Markers are judged against the updates of the message channel that write the
  checkpoints.
* **Chunker and streamers** (`TaggedText`, `CodeRefs`, `PercentFormat`, `Fixup`, `Chunker`, `ChunkSizes`, `Builds`, `Sentences`,
  `Streamers`). A
  text is a sequence of characters and code reference tags. Tags are rewritten through Python's `%` on strings, which
  is modelled character by character: keys, flags, width, precision, conversions, and the one conversion of the whole
  table. A text with both a tag and a percent sign makes it raise or, worse, yield something else; the builder's
  methods say exactly when each happens. The sentence model is arbitrary up to `GoodSplitter`: its sentences hold the
  text's non-blank content in order, and tags of the carried context stay within its first sentence; `Sentences` has
  a model that splits at full stops and meets this. Nothing bounds the length of a sentence, of a carried context or
  of the code tags added to a text, so the limit on chunks is stated up to these.
* **Accounting and judge** (`Timing`, `Judge`). Seconds are reals; dictionaries are maps.

`Wrappers` and `Sequences` hold the option type and small facts about sequences.

## Model

| member | source | states |
|---|---|---|
| CvlRoundTrip.ReadBack | composer/cvl/pretty_print.py:153-360 | for every expression, reading its printed tokens back yields its normal form |
| CvlRoundTrip.RoundTripExactlyWhenFaithful | composer/cvl/pretty_print.py:81-107 | print then read is the identity if and only if the expression is faithful (no nested open form as a condition, no state argument, no empty qualifier) |
| CvlRoundTrip.PrintingIdentifiesNormalForms | composer/cvl/pretty_print.py:153-360 | two expressions print alike exactly when their normal forms agree; on faithful ones printing is injective |
| CvlParentheses.PrintingIsShortest | composer/cvl/pretty_print.py:81-107 | no token sequence that is read as an expression is shorter than its printed form, so no printed parenthesis can be left out |
| CvlParentheses.BinaryParenthesesAreNeeded | composer/cvl/pretty_print.py:86-107 | for every binary expression, each operand is printed in parentheses if and only if the text with that operand bare is not read back as the expression (its normal form, which a faithful expression is) |
| CvlParentheses.UnaryParenthesesAreNeeded | composer/cvl/pretty_print.py:271-283 | the same for the operand of a prefix operator |
| CvlParentheses.IndexParenthesesAreNeeded | composer/cvl/pretty_print.py:303-306 | the same for the base of an index |
| CvlParentheses.FieldParenthesesAreNeeded | composer/cvl/pretty_print.py:307-310 | the same for the base of a field access |
| CvlRoundTrip.NestedConditionLosesGrouping | composer/cvl/pretty_print.py:285-289 | two different conditionals, one nested as the condition, always print the same tokens |
| CvlRoundTrip.OperandReadsBack | composer/cvl/pretty_print.py:153-158 | an operand printed with or without parentheses, read at any level it may stand at, yields the operand and continues with what follows |
| CvlRoundTrip.InnerReadsBack | composer/cvl/pretty_print.py:159-192 | every form, read at its own precedence level, is read back whole and nothing after it is consumed |
| CvlRoundTrip.BinaryReadsBack | composer/cvl/pretty_print.py:97-107 | left and right associative chains keep their grouping under the parenthesis rule |
| CvlRoundTrip.UnaryReadsBack | composer/cvl/pretty_print.py:271-283 | a prefix operator reads back with exactly its operand |
| CvlRoundTrip.ConditionalReadsBack | composer/cvl/pretty_print.py:285-289 | a conditional whose condition is not open-ended reads back, with chains in the else branch |
| CvlRoundTrip.BinderReadsBack | composer/cvl/pretty_print.py:291-301 | quantifiers and sums read back with their variables and the whole body |
| CvlRoundTrip.PostfixReadsBack | composer/cvl/pretty_print.py:303-310 | index and field accesses read back over a parenthesised or plain base |
| CvlRoundTrip.CallReadsBack | composer/cvl/pretty_print.py:312-333 | calls read back with host contract, annotation and arguments |
| CvlRoundTrip.SignatureReadsBack | composer/cvl/pretty_print.py:316-344 | signature literals read back with contract qualifier and parameter types |
| CvlRoundTrip.TypeReadsBack | composer/cvl/pretty_print.py:346-359 | every type reads back, array suffixes included |
| CvlRoundTrip.NormalPrintsAlike | composer/cvl/pretty_print.py:153-360 | the normal form prints the same tokens, is faithful and has the same precedence |
| CvlRoundTrip.FaithfulIsNormal | composer/cvl/pretty_print.py:81-107 | faithful expressions are their own normal form |
| CvlRoundTrip.GlyphsReadBack | composer/cvl/pretty_print.py:29-67 | operator spellings are unambiguous, their levels the documented ones and their associativity that of the code (lines 98-107) |
| CvlSpellings.DocumentedReaderNeedsNeither | composer/cvl/pretty_print.py:4-20 | a reader that takes `^` for exclusive or and `xor` for a name, as the documented table has it, gets a tree's normal form back if and only if the tree uses neither exponentiation nor exclusive or |
| CvlSpellings.SignIsUsed | composer/cvl/pretty_print.py:215-262 | the signs printed for the two operators are printed for nothing else |
| CvlLines.CommandsNested | composer/cvl/pretty_print.py:363-490 | for commands nested to any depth, indentation equals brace depth at every line and all braces close |
| CvlLines.IfNested | composer/cvl/pretty_print.py:458-483 | an if / else-if / else chain is balanced, each continuation closing the block before it |
| CvlLines.StructureReadsBack | composer/cvl/pretty_print.py:363-490 | the command tree, with every chain, block and one-line command, can be read back exactly from the lines, expressions up to normal form |
| CvlCommands.SimpleReadsBack | composer/cvl/pretty_print.py:393-456 | each of the eleven one-line commands is read back from its printed tokens with all its fields, expressions up to normal form and an empty revert message as none |
| CvlCommands.DeclarationReadsBack | composer/cvl/pretty_print.py:393-399 | a declaration, initialised or not, is told from assignments and calls |
| CvlCommands.AssignmentReadsBack | composer/cvl/pretty_print.py:401-407 | assignments to one, to none or to several targets are read back |
| CvlCommands.HavocReadsBack | composer/cvl/pretty_print.py:409-414 | any list of targets, with or without an assumption |
| CvlCommands.ClaimReadsBack | composer/cvl/pretty_print.py:416-441 | assumptions, assertions and satisfy commands keep their expression and message |
| CvlCommands.AssumeInvariantReadsBack | composer/cvl/pretty_print.py:420-425 | invariant assumptions keep their arguments, none included |
| CvlCommands.ApplyReadsBack | composer/cvl/pretty_print.py:427-429 | a call command is not mistaken for a declaration or an assignment |
| CvlCommands.ReturnReadsBack | composer/cvl/pretty_print.py:443-450 | none, one or several values; several in parentheses are never read as one expression |
| CvlCommands.LhsReadsBack | composer/cvl/pretty_print.py:492-502 | targets with any indices and fields are read back |
| CvlCommands.TargetIsNoDeclaration | composer/cvl/pretty_print.py:401-407 | no target of an assignment can be read as a typed declaration |
| CvlLines.IfReadsBack | composer/cvl/pretty_print.py:458-483 | a chain of conditions reads back as the same chain, whatever follows |
| CvlLineBuilder.PrintCommands | composer/cvl/pretty_print.py:646-648 | the builder's buffer grows by exactly the specified lines of the commands |
| CvlLineBuilder.PrintCommand | composer/cvl/pretty_print.py:363-391 | a command of any kind adds its specified lines, in order, at the builder's indentation |
| CvlLineBuilder.PrintIfCmd | composer/cvl/pretty_print.py:471-483 | an if adds its head, body and continuation lines |
| CvlLineBuilder.PrintElif | composer/cvl/pretty_print.py:458-469 | an else or else-if adds its lines on the shared closing brace |
| CvlLineBuilder.PrintRuleOpening | composer/cvl/pretty_print.py:532-546 | the interleaved head of a rule: the text so far is flushed before the indented filter lines, the rest after them |
| CvlLineBuilder.PrintRuleBlock | composer/cvl/pretty_print.py:532-548 | a whole rule produces the specified lines |
| CvlLineBuilder.RuleNested | composer/cvl/pretty_print.py:532-548 | the lines of a rule, filtered or not, are nested and balanced |
| CvlRules.RuleReadsBack | composer/cvl/pretty_print.py:532-548 | name, parameters, filters and commands of a rule are read back from its lines, expressions up to normal form, an empty filter list as none |
| CvlRules.FiltersReadBack | composer/cvl/pretty_print.py:650-655 | every filter is read back, the comma telling whether another follows |
| CvlLineBuilder.LastToken | composer/cvl/pretty_print.py:159-192 | no printed expression ends in an opening brace or a comma, so filter lines never open a block and their comma is their own |
| CvlLineBuilder.LineBuilder.Indent | composer/cvl/pretty_print.py:126-130 | indenting flushes the unfinished line, keeps the line builder open with an empty text, and nests by one |
| CvlLineBuilder.LineBuilder.Exit | composer/cvl/pretty_print.py:133-135 | leaving a nested builder appends its lines to its parent |
| CvlLineBuilder.LineBuilder.OpenLine | composer/cvl/pretty_print.py:142-147 | a line can be opened only when none is open |
| CvlLineBuilder.LineInterleaver.Exit | composer/cvl/pretty_print.py:115-116 | closing a line emits what is pending and frees the builder |
| Skips.DeclareMeaning | composer/spec/cvl_generation.py:101-116 | one declaration replaces, adds or (empty reason) withdraws its title and keeps the list strictly sorted with no empty reason |
| Skips.DeclareAllMeaning | composer/spec/cvl_generation.py:101-116 | the list is canonical and says for each title its latest non-empty declaration |
| Skips.CanonicalUnique | composer/spec/cvl_generation.py:101-116 | a canonical list is determined by what it says per title |
| Skips.MergeIsAnAction | composer/spec/cvl_generation.py:101-116 | merging twice equals merging the concatenation |
| Skips.MergeDependsOnLatest | composer/spec/cvl_generation.py:101-116 | two declaration histories give the same list exactly when they agree on the live declaration of every title |
| Skips.MergeSkips | composer/spec/cvl_generation.py:101-116 | the dictionary-and-sort reducer computes that merge |
| Strings.SortSet | composer/spec/cvl_generation.py:113-116 | sorting yields the strictly sorted list of exactly the given strings |
| Strings.LessIsLexicographic | composer/spec/cvl_generation.py:113-116 | the order sorted by: where two strings first differ the smaller code point decides, and a proper prefix comes first |
| Strings.StripTakesBlanksOff | composer/foundry/author.py:178-182 | what is stripped is blanks at both ends and nothing else |
| Strings.JoinSeparates | composer/scripts/text_processors.py:44-58 | a joined header is its parts as they are with one separator between any two |
| PropertyTests.ValidatePropertyTests | composer/foundry/state.py:136-198 | accepts exactly the valid mappings: distinct known unskipped titles, each with a non-blank test, coverage both of titles and of the tests that ran |
| PropertyTests.CheckEntries | composer/foundry/state.py:160-184 | the entry loop reports no error exactly when every entry is valid, and then has collected all mapped titles and claimed tests |
| PropertyTests.AcceptedMappingSplitsTheBatch | composer/foundry/state.py:136-198 | an accepted mapping splits the batch into skipped and mapped titles, and claims exactly the tests that ran |
| PropertyTests.ValidExactlyWhenItSplitsTheBatch | composer/foundry/state.py:136-198 | a mapping is accepted if and only if its entries are for different titles, those titles are the batch without the skipped ones, every entry names some test, and the tests named are exactly those that ran |
| PropertyRules.ValidatePropertyRules | composer/spec/cvl_generation.py:169-210 | the CVL check accepts exactly the mappings with distinct known unskipped titles, a non-blank rule each, and every title skipped or mapped |
| PropertyRules.TestsAreRulesThatRan | composer/foundry/state.py:136-153 | the foundry check accepts exactly what the CVL check accepts with, on top, the claimed names being exactly the names that ran |
| PublishGate.MergeExpectedFailures | composer/foundry/state.py:65-75 | the copy-and-pop reducer of expected failures: right wins, an empty reason removes |
| PublishGate.StampedExactly | composer/foundry/runner.py:225-264 | a call stamps the forge key if and only if it is an unseeded run of a test that is there, with exit code zero, every failing test marked and no passing test marked; the feedback key if and only if it is an accepting judge of a test that is there |
| PublishGate.NamesRecordedExactly | composer/foundry/runner.py:204-296 | exactly the forge runs of a test that is there and that got output record names, seeded or not: those of the results in order, none when the output could not be read |
| PublishGate.FoldStamps | composer/foundry/runner.py:225-296 | after a step, a stamp is the snapshot's digest if some call of the step certified it, else what it was; seeded or unclean runs stamp nothing |
| PublishGate.FoldFrame | composer/foundry/author.py:108-284 | no step changes the required validations, and the recorded test names are those of the step's latest forge output |
| PublishGate.RunInvariant | composer/foundry/state.py:107-114 | over every run each stamp is the digest at its latest certification, and the recorded names are those of the latest run with output |
| PublishGate.GateOpenExactlyWhenCertified | composer/foundry/state.py:117-133 | in every reachable state the gate is open exactly when a test exists and both latest certifications saw the current digest |
| PublishGate.FindCertification | composer/foundry/runner.py:225-264 | a recorded digest has an actual certifying call in an earlier step, read at that step's snapshot |
| PublishGate.AcceptedPublishIsCertified | composer/foundry/author.py:505-529 | an accepted publish has an earlier unseeded forge run with exit code zero in which every failing test was marked and no passing test was, and an earlier accepting judge, both on the current digest, and a mapping valid for the most recent run; it claims exactly that forge run's tests if and only if the outputs from its step on leave the same names recorded, and that run is clean under other markings if and only if both agree on every test that passed or failed |
| PublishGate.PublishAcceptedExactly | composer/foundry/author.py:505-529 | in every reachable state a publish is accepted if and only if there is a test, both latest certifications saw the current digest, and the mapping is valid for the names of the latest forge output |
| PublishGate.CleanUnderOtherMarkings | composer/foundry/runner.py:225-247 | a run clean under some markings is clean under others exactly when both agree on every test that passed or failed |
| GateRuns.AnotherTestIsClaimed | composer/foundry/state.py:179-183 | a run from the start in which a publish is accepted that claims a test which never ran on the published source, and not the one that did |
| GateRuns.PassingTestIsMarked | composer/foundry/author.py:230-258 | a run from the start in which the test that passed is marked as failing after both certifications and the publish is accepted |
| GateRuns.AnotherPropertyIsSkipped | composer/foundry/author.py:150-196 | a run from the start in which a property that neither certification saw skipped is skipped in an accepted publish |
| PublishGate.OpenGateHasTestNames | composer/foundry/author.py:509-513 | the defensive branch for missing test names is never taken in a run |
| PublishGate.SameDigestSameTest | composer/foundry/state.py:96-104 | with a collision-free digest and the same skips, equal digests mean exactly equal test sources |
| PublishGate.DigestRunsTestAndSkipsTogether | composer/foundry/state.py:96-104 | a test with a skip and a longer test without it have the same digest, whatever the digest function |
| DigestSurface.DigestSeparatesPlainReasons | composer/foundry/state.py:96-104 | without collisions, for the same skipped titles and colon-free reasons, digests are equal exactly when test and skips are |
| DigestSurface.OneSkipPassesForTwo | composer/foundry/state.py:96-104 | one skip with a colon in its reason has the digest of two skips |
| DigestSurface.ReasonPassesForTitle | composer/foundry/state.py:96-104 | with as many skips and no colon, the end of a reason can pass for the start of the next title |
| DigestSurface.ColonMovesBetweenReasons | composer/foundry/state.py:96-104 | with the same titles, a colon in a reason lets text move between two reasons |
| DigestSurface.SkippedAfterCertification | composer/foundry/author.py:150-196 | after certification, recording two skips can leave the gate's verdict as it was although one more property is skipped |
| PublishedBatch.FindPublish | composer/foundry/author.py:505-529 | a success flag in a run's state comes from a publish accepted in an earlier step, with its commentary and mapping, and nothing ended the work after it |
| PublishedBatch.ReportedBatchIsCertified | composer/foundry/author.py:719-733 | a run that ends in success ended with an accepted publish, certified by an earlier unseeded forge run with exit code zero, every failing test marked and no passing test marked, and by a judge, on the same digest; source, skips, mapping, markings and test names reported are the accepted ones if and only if the step's other calls changed none of them; the tests claimed are the certifying run's if and only if the outputs since left its names recorded; that run is clean under the reported markings if and only if they agree on its results |
| PublishedBatch.PublishedSourceIsTheCertifiedOne | composer/foundry/author.py:719-733 | source and skips are the certified ones exactly when the last draft and the last declaration per title agree with the snapshot, and then the digest is the certified one |
| PublishedBatch.SkipsUnchanged | composer/spec/cvl_generation.py:101-116 | a step leaves the skips alone exactly when the last declaration of each title says what the list says already |
| PublishedBatch.MarksUnchanged | composer/foundry/state.py:65-75 | a step leaves the markings alone exactly when the last marking of each test says what is marked already |
| PublishedBatch.SkipsAndMarksFit | composer/foundry/author.py:168-262 | over every run only properties of the batch are skipped, and no skip and no marking has a blank reason |
| PublishedBatch.DraftPutBesidePublish | composer/foundry/author.py:719-733 | a draft put in the same step as an accepted publish is what gets reported |
| PublishGate.MarkingsLeaveTheGateAlone | composer/foundry/state.py:96-104 | marking or unmarking expected failures never changes the gate's verdict |
| AgentIndex.MergeIsGlobalOrder | composer/spec/agent_index.py:218-236 | repeatedly taking the best head equals the stable sort of all pools, skipping keys already seen, ties to the earlier pool |
| AgentIndex.CutMergesAlike | composer/spec/agent_index.py:211-214 | cutting each pool does not change the merge as long as each cut keeps enough unseen entries |
| AgentIndex.SearchIsGlobalTop | composer/spec/agent_index.py:201-236 | merging the first five of each pool gives exactly the first five distinct keys of the ranking of the full pools |
| AgentIndex.GlobalTopShape | composer/spec/agent_index.py:201-236 | at most five entries, descending scores, distinct keys, all from the pools |
| AgentIndex.NothingBetterIsLeftOut | composer/spec/agent_index.py:201-236 | of every entry in the pools, the key is answered with at least its score, or five entries at least as good are answered |
| AgentIndex.PickBest | composer/spec/agent_index.py:221-222 | picks the first best head, none only when all lists are exhausted |
| AgentIndex.Search | composer/spec/agent_index.py:215-236 | the loop over cursors returns the specified merge and terminates |
| AgentIndex.SearchPools | composer/spec/agent_index.py:201-236 | the search over cut pools returns the global top five |
| AgentIndex.ListIter.Pop | composer/spec/agent_index.py:196-199 | a pop returns the head of what remains and leaves the rest |
| EventQueue.EveryInterleaving | composer/io/stream.py:29-56 | in every interleaving delivered plus pending is what was pushed, in order and once; the consumer's next step delivers the next pending event if there is one, returns if nothing is left after the close, and does nothing while it waits for the flag |
| EventQueue.ClosedQueueDrains | composer/io/stream.py:34-56 | once closed and with no further push, the consumer keeps going, stops, and has delivered everything |
| EventQueue.CheckpointIsABarrier | composer/io/stream.py:69-91 | when a checkpoint is signalled, exactly the data pushed before it has been handled |
| EventQueue.NothingAfterTheEnd | composer/io/stream.py:77-88 | after the end sentinel nothing more is handled or signalled, and what came before it was |
| EventQueue.AsyncDataQueue.PushEvent | composer/io/stream.py:29-32 | the object's push is the push step of the machine |
| EventQueue.AsyncDataQueue.CloseQueue | composer/io/stream.py:34-41 | the object's close is the close step |
| EventQueue.AsyncDataQueue.Wake | composer/io/stream.py:46-50 | waking runs to the next yield or back to waiting, as the consume step |
| EventQueue.AsyncDataQueue.Resume | composer/io/stream.py:49-56 | resuming after a yield is the consume step |
| GraphRun.RunGraph | composer/io/graph_runner.py:60-148 | the graph is called once, and the events are those of that one stream up to its end, its first interrupt or a failure, with the end event last |
| GraphRun.RunIsBracketed | composer/io/graph_runner.py:68-148 | every run that gets past its start emits one start first, one end last, and between them only body events of its thread, custom updates naming the latest checkpoint |
| GraphRun.EventsFollowItems | composer/io/graph_runner.py:84-139 | the events follow the items one by one, each with its payload, up to the first interrupt or custom update without checkpoint, and that item says how the loop ends |
| GraphRun.RunFollowsItsStream | composer/io/graph_runner.py:68-148 | the same between start and end of every run; the end is marked failed exactly when the stream raised, the stopping item was not an answered interrupt, or the final state could not be read |
| GraphRun.ReadWholeExactlyWithoutInterrupt | composer/io/graph_runner.py:84-139 | a stream that does not raise is read whole, one event per item, if and only if it holds no interrupt |
| GraphRun.PromiseKeptExactlyWithoutResumption | composer/io/graph_runner.py:44-53 | the documented resumption is what is emitted exactly when there is no answered interrupt, or resuming would have shown nothing and ended alike |
| GraphRun.AnswerIsDropped | composer/io/graph_runner.py:106-139 | an answered interrupt ends the run without an error where the promise shows the resumed updates |
| GraphEvents.Unwrap | composer/io/context.py:61-67 | the peeling loop returns the path of wrappers and the innermost event |
| GraphEvents.UnwrapInvertsSinks | composer/io/context.py:169-175 | unwrapping what a chain of nested sinks delivers gives back the full path and the event |
| GraphEvents.EveryInterleavingFits | composer/io/context.py:141-197 | in every interleaving of executions stepping through their streams, what each has emitted and what it has left make its whole run |
| GraphEvents.DrainerReadsEveryRun | composer/io/context.py:61-100 | an execution without parent has the empty path, any other the path of its parent and then its parent's thread; under exactly that path the drainer reads a prefix of its run, the whole of it once closed, its start alone when the log could not be opened |
| GraphEvents.PathsListAncestors | composer/io/context.py:61-67 | in every interleaving the path of an execution lists the threads of all its ancestors, outermost first |
| GraphEvents.EveryExecutionCanFinish | composer/io/graph_runner.py:80-148 | in every interleaving an execution whose thread log was opened can go on to its end by its own steps |
| GraphEvents.TurnUnfolds | composer/io/graph_runner.py:84-139 | one turn of the streaming loop emits the next of what the run has left |
| Delivery.QueueHoldsTheLog | composer/io/context.py:141-197 | with any consumer steps in between, the queue is pushed exactly what the executions emit, in order |
| Delivery.DeliveredRuns | composer/io/context.py:70-100 | in every interleaving of executions and consumer, what the queue has delivered of an execution is a prefix of its run under its full path, and the whole of it once it has closed and nothing is pending |
| Mnemonics.RunsAreSafe | composer/io/mnemonic_store.py:38-86 | in every interleaving of callers claimed slots stay claimed by their thread and the thread table only points at slots of that thread |
| Mnemonics.MnemonicsAreUnique | composer/io/mnemonic_store.py:38-86 | a returned mnemonic resolves to its thread for ever, and no other thread is ever given it |
| Mnemonics.SettledThreadIsFinal | composer/io/mnemonic_store.py:57-60 | once a thread is recorded and no caller is midway, its entry never changes and later callers get it |
| Mnemonics.FinalExactlyWhenSettled | composer/io/mnemonic_store.py:57-84 | in every reachable state an entry is final in all continuations if and only if no caller of the thread is between reading and recording |
| Mnemonics.OneMnemonicExactlyWithoutRace | composer/io/mnemonic_store.py:78-84 | in every reachable state the callers that returned for a thread agree if and only if at most one of them got its mnemonic by a claim |
| Mnemonics.GivesUpAfterTenTaken | composer/io/mnemonic_store.py:67-86 | in every reachable state a caller has given up exactly when it was refused ten candidates, all taken; with fewer it goes on, and what it has claimed is the last it tried |
| Mnemonics.NobodyIsStuck | composer/io/mnemonic_store.py:57-86 | in every reachable state a caller can read, then try any candidate, and record what it claimed, and has no step left once it returned or gave up |
| Mnemonics.RacingCallersLeaveAnOrphan | composer/io/mnemonic_store.py:78-82 | two racing callers of one thread do get different mnemonics, and one slot is left unreferenced |
| Timeline.Walk | composer/io/thread_timeline.py:63-102 | with any partial prefetch the walk returns the anchor's parent chain, oldest first, and terminates |
| Timeline.ChainIsTheParentChain | composer/io/thread_timeline.py:79-101 | the walked chain is the one and only list that starts at the anchor, follows parent links and ends at the stop or where no parent is stored |
| Timeline.BuildTimeline | composer/io/thread_timeline.py:104-127 | the deduplicating scan computes the specified timeline |
| TimelineOrder.TimelineInOrder | composer/io/thread_timeline.py:104-127 | a timeline lists, in the order of the history, exactly the messages whose id did not occur before them, each whole and under its checkpoint, and a marker before exactly the checkpoints that share no id with the one before |
| Timeline.EachIdOnceAtItsFirstHolder | composer/io/thread_timeline.py:117-123 | every id on the chain is shown exactly once, under the earliest checkpoint that holds it, and no other id is |
| Timeline.SegmentsCompose | composer/io/thread_timeline.py:104-127 | a history is its part up to s plus the new part of the segment from s, exactly when s holds no message without an id |
| Timeline.TimelineSplitsAtAncestor | composer/io/thread_timeline.py:77-127 | the timeline to an anchor splits at any ancestor into the ancestor's timeline and the new entries of the segment, under the same exact condition |
| MessageChannel.MarkersAreTheSummaries | composer/io/thread_timeline.py:49-53 | over every run of channel updates whose summaries use new ids, markers stand at exactly the summarizing checkpoints if and only if no summary meets a channel without ids and no write replaces a whole channel |
| MessageChannel.WipedExactly | composer/io/thread_timeline.py:107-112 | one checkpoint is marked exactly when it summarizes a channel with ids or was written by replacing everything |
| MessageChannel.ThreadMarkersAreTheSummaries | composer/io/thread_timeline.py:104-127 | the same for a whole thread from its empty channel |
| MessageChannel.AfterIds | composer/io/thread_timeline.py:50-53 | the ids after an update: those kept and those put, or the summary's alone |
| Fixup.FixupCodeRefs | composer/scripts/text_processors.py:85-100 | whether the rewriting raises, is spoiled or is exact, exact precisely on texts that do not mix tags and percent signs; then it renames all tags at once; the code is appended once per occurrence |
| Fixup.ExactExactlyWhenRewritable | composer/scripts/text_processors.py:97-100 | the formatting yields the intended renaming if and only if the text has no tag or no percent sign |
| Fixup.PercentSRepeatsTheTag | composer/scripts/text_processors.py:100 | for any surrounding text, a `%s` before the tag raises nothing and yields the whole table and the tag twice |
| Fixup.LenIsSpelled | composer/scripts/text_processors.py:144-146 | the length that is compared with the limit is that of the text in characters, tags written out |
| PercentFormat.FormatIsPaid | composer/scripts/text_processors.py:100 | whatever a format yields, unless it spills the table, its angle brackets and twice its percent signs are covered by those of the format |
| PercentFormat.ConvertPlaceholder | composer/scripts/text_processors.py:93-100 | a placeholder becomes exactly its tag |
| CodeRefs.FixupKeepsMeaning | composer/scripts/text_processors.py:85-100 | expanding the rewritten text with the builder's references equals expanding the original with its own; text already there keeps its expansion |
| CodeRefs.DistinctAreConsecutive | composer/scripts/text_processors.py:85-100 | tags used once each become consecutive numbers from the builder's count on |
| TaggedText.StripKeeps | composer/scripts/text_processors.py:107-117 | stripping a chunk's text keeps its content and tags, and leaves nothing exactly of blank texts |
| TaggedText.StripCuts | composer/scripts/text_processors.py:107-117 | stripping takes the blanks off both ends and nothing else |
| Chunker.BlockBuilder.AddCode | composer/scripts/text_processors.py:102-106 | appends one code block as the next tag at the end of the pending text, and closes nothing |
| Chunker.BlockBuilder.Push | composer/scripts/text_processors.py:107-120 | a non-blank pending text becomes, stripped, the next part, a blank one nothing; nothing held is lost |
| Chunker.BlockBuilder.InitNewChunk | composer/scripts/text_processors.py:121-142 | fares as the rewriting of the carried sentence does, exact precisely when that does not mix tags and percent signs; then the chunk starts with it and the new text, which is filled in sentence by sentence when it is as long as the limit |
| Chunker.BlockBuilder.AppendText | composer/scripts/text_processors.py:144-205 | a text that stays under the limit is appended in place; otherwise says exactly whether the append raises, is spoiled or is exact, what content is added and which texts are closed on each of the four paths |
| Chunker.BlockBuilder.AppendLong | composer/scripts/text_processors.py:189-205 | a long text is spread over chunks by sentence, the last piece left pending; fails exactly when there is nothing at all to emit |
| Chunker.BlockBuilder.AppendAtBoundary | composer/scripts/text_processors.py:150-188 | at a boundary the pending text is pushed and its last sentence carried over with its code, faring as its rewriting does |
| Chunker.BlockBuilder.PushChild | composer/scripts/text_processors.py:207-213 | says exactly whether it raises, is spoiled or is exact; when exact closes one chunk of the pending text, the child's headers and its first sentence with its code; a blank pending text drops the child and stays |
| Chunker.BlockBuilder.Finish | composer/scripts/text_processors.py:215-217 | the chunks are those closed and the pending text if not blank, have parts 0, 1, 2, ..., in-range unrepeated tags, and hold everything the builder held |
| ChunkSizes.FillCloses | composer/scripts/text_processors.py:133-142 | in the sentence loop of a new chunk what is left pending is within the limit, and every chunk closed was over the limit with its last sentence and not over it before |
| ChunkSizes.StartedFits | composer/scripts/text_processors.py:121-142 | a new chunk leaves pending a carried sentence and a text under the limit, or a text within the limit; only long unbreakable text makes a chunk of any length, and only one |
| ChunkSizes.PiecesFitLimit | composer/scripts/text_processors.py:190-205 | every piece of a long text but the last is closed over the limit by one sentence; the last is within the limit, one sentence, or what was pending |
| ChunkSizes.AppendedFits | composer/scripts/text_processors.py:144-205 | after any append the pending text and every chunk closed fit the limit up to a first and a last sentence and code tags, but for the one chunk of long unbreakable text |
| Chunker.LastSentenceIsOne | composer/scripts/text_processors.py:160-164 | the sentence carried over is the last that is not blank, and there is one unless all are blank |
| Chunker.EmptyHeadersVanish | composer/scripts/text_processors.py:211 | empty headers of a child make no difference, all others are joined |
| Builds.Build | composer/scripts/text_processors.py:75-217 | for any sequence of operations whose rewritings are exact and that raises nothing, the chunks fit and contain, in order, all code and all non-blank text given; every chunk fits the limit up to a first and a last sentence and code tags, except at most one for each note about a child and each long unbreakable text; without percent signs no rewriting is ever spoiled |
| Chunker.PiecesContent | composer/scripts/text_processors.py:190-200 | the pieces of a long text hold the pending text and all its sentences, with all tags in the first piece |
| Chunker.SpreadKeepsAll | composer/scripts/text_processors.py:190-200 | no sentence of a long text is lost, those at a cut appear twice |
| Chunker.AddedHasAll | composer/scripts/text_processors.py:144-205 | on every path an append adds at least the whole content of the appended text, in order |
| Chunker.CollectPieces | composer/scripts/text_processors.py:190-200 | the sentence loop produces the specified pieces |
| Sentences.StopsMakeAGoodSplitter | composer/scripts/text_processors.py:71-73 | splitting at full stops meets all assumptions about the sentence model |
| Sentences.EachStopEndsASentence | composer/scripts/text_processors.py:71-73 | that model splits off the text up to each full stop |
| Streamers.TextStreamer.Stream | composer/scripts/text_processors.py:39-65 | a call reaches the streamer and all its ancestors, and nothing else changes |
| Streamers.TextStreamer.Record | composer/scripts/text_processors.py:39-65 | an active streamer's fields stay the page of the calls it has seen |
| Streamers.StackIsOpenHeaders | composer/scripts/text_processors.py:52-65 | the section stack holds exactly the sections started and not yet ended |
| Streamers.PageIsRendered | composer/scripts/text_processors.py:39-65 | a call list goes through exactly when every end has its start, and then the buffer is the calls rendered in order, each end naming the section it matches |
| Streamers.TagsInOrder | composer/scripts/text_processors.py:45-50 | with tag-free text the buffer carries tags 0, 1, 2, ... once each for its code blocks |
| Streamers.StreamAll | composer/scripts/text_processors.py:15-68 | for every tree of streamers and every fitting call sequence, the collected chunks render, for each active streamer, the call-ordered merge of its own and its descendants' calls; with tag-free text every chunk has tags 0, 1, 2, ... for its references |
| Streamers.TextCollector.Chunks | composer/scripts/text_processors.py:19-25 | one part-0 chunk per active streamer, in order of creation |
| Timing.NothingIsLost | composer/diagnostics/timing.py:94-137 | for every history and every model or all models, the total equals recorded phases plus open buckets plus unattributed amounts |
| Timing.ProverCallCounts | composer/diagnostics/timing.py:120-126 | a prover call counts once, with its seconds, in the total and in the bucket of its task only |
| Timing.UsageCounts | composer/diagnostics/timing.py:128-137 | a usage adds to each of the four token counts of its model in the total and in the bucket of its task only |
| Timing.PhaseEndEmpties | composer/diagnostics/timing.py:94-118 | the end of a phase empties the bucket of its task and changes neither the total nor another bucket |
| Timing.RunSummary.Balanced | composer/diagnostics/timing.py:79-137 | in every reachable state the run counters balance that way |
| Timing.RunSummary.RecordPhase | composer/diagnostics/timing.py:94-118 | the record gets exactly what was reported for it since its last record, and the latest link; the bucket restarts empty, totals stay |
| Timing.RunSummary.AddProverCall | composer/diagnostics/timing.py:120-126 | a prover call is counted in the totals and, when attributed, in one bucket |
| Timing.RunSummary.RecordTokenUsage | composer/diagnostics/timing.py:128-137 | a usage is counted under its model (or "unknown") in the totals and, when attributed, in one bucket |
| Timing.RunSummary.TotalTokens | composer/diagnostics/timing.py:139-141 | the sum over models equals the sum of every usage ever recorded |
| Timing.RunSummary.RecordProverLink | composer/diagnostics/timing.py:160-164 | the latest link of an attributed report is kept, others are dropped |
| Timing.RunSummary.GetLatestLink | composer/diagnostics/timing.py:166-170 | the link of the latest report since the last record, if any |
| Timing.ReadingAdds | composer/diagnostics/timing.py:133-137 | adding to one model's entry moves that model's reading and the overall sum by as much and no other reading |
| Judge.CheckResult | composer/natreq/judge.py:124-143 | accepts exactly the complete results once the draft has been read; a rejection names a fault that is there |
| Judge.CompleteIsABijection | composer/natreq/judge.py:132-142 | in an accepted result every requirement 1..n is judged exactly once, under its own text |
| Judge.CompleteExactlyWhenBijection | composer/natreq/judge.py:124-143 | a result is complete exactly when every entry quotes an existing requirement and every requirement has exactly one entry, in any order |
| Judge.AllSatisfied | composer/natreq/judge.py:169-175 | the flag is true exactly when every entry is satisfied, likely or skipped |
| Judge.StampMeansEveryRequirementMet | composer/natreq/judge.py:169-192 | for a complete result the stamp is issued exactly when every requirement 1..n is met or skipped |

## Left out

- Characters, spacing, escaping and the lexer of CVL: printing and reading are modelled on tokens, so a printed text whose tokens run together is not noticed.
- The printers of invariants, functions, ghosts, macros, hooks, proof blocks and the methods block: flat cases over the same builders.
- The library's choice of update order within one step, and its rejection of two updates of an unreduced field in one step: the model folds the updates in call order and lets the last one win.
- Hash strength: the digest is an arbitrary function, and only the lemmas that say so assume it free of collisions.
- Text of tool messages, staging of files, timeouts and the forge subprocess: their outcome is a parameter of the call.
- The CVL authoring workflow around composer/spec/cvl_generation.py:145-222: its gate has the digest and stamp scheme of the foundry gate, stamped by a prover run instead of a forge run; only its mapping check and skip reducer are modelled.
- Exact-key lookups, writes and the cache shortcut of the answer index (composer/spec/agent_index.py:155-185): not modelled. A write reads and then stores with an await between, so of two concurrent writers of one key the later may overwrite the first. Each pool is taken as the store returns it, ranked and with unique keys.
- The handlers the drainer calls, progress events and the five-second drain limit: outside the queue's contract.
- Asyncio itself: code between two awaits is one atomic step.
- The mnemonic path without Postgres (composer/io/mnemonic_store.py:88-128): documented there as racy. The claim loop is a step machine rather than a method, since other callers run between its awaits.
- Mnemonics.MnemonicsAreUnique: does not promise that one thread gets one mnemonic; when that holds is Mnemonics.OneMnemonicExactlyWithoutRace.
- GraphEvents.DrainerReadsEveryRun: an execution whose thread log cannot be opened has a start and no end, as in the source, where the log is entered before the protected region.
- Forests of checkpoints: a cycle of parents, which the database never holds, is excluded by the rank.
- Chunker.BlockBuilder.AppendText: the loop meant to find the first sentence of the new text skips the sentences that are not blank (composer/scripts/text_processors.py:152-158), so it only ever finds an empty string; the model does what the code does.
- Builds.Build: after a rewriting that is not exact the run is not followed further; the source goes on with the spoiled text when nothing was raised.
- Texts whose plain characters spell a tag by themselves, and format widths beyond the machine's size.
- Builds.Perform: requires appended text without tags and children that carry their own tags in order, which is how the callers use the builder.
- Tags written with leading zeros or other digits than 0 to 9, which the tag pattern accepts and the tag printer never writes.
- Streamers.StreamAll: requires that no section end reaches an active streamer without an open section; the source asserts the same.
- Timing.RunSummary.RecordPhase: labels, wall time, queue time and error text are copied without computation and are not modelled; floating point seconds are reals.
- The token usage report (composer/diagnostics/timing.py:143-158) and the summary table: formatting of the same sums.
- The working spec, file system and digest of the implementation judge (composer/natreq/judge.py:179-182): the stamp is the fact that it is issued.
- Terminal interfaces, prompts, language model calls, databases, report aggregation and name disambiguation.

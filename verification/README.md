# Qwen35x server and kernels: a verified model

A model in Dafny of the parts of the repository whose correctness rests on an
argument, with proofs of what they are for:

- **Constrained decoding** (`src/server_grammar.h`, `src/server_constraint.h`).
  Grammars have a language, defined by parse forests and independent of any
  automaton. The byte-level pushdown recogniser is proved exact for it, for every
  grammar. The schema compiler is proved to emit grammars whose start symbol
  denotes exactly the schema's documents, and whose expansion terminates with no
  budget at all; a separate reader of JSON reads everything they accept. The trie walk marks exactly the tokens that `allows` accepts, and
  the greedy shortcut leaves what masking and picking the best would leave.
- **Concurrency and lifecycle** (`src/cpu/executor.cpp`, the `Service` of
  `src/server.cpp`, `src/server_stream.h`). Step systems, with one invariant over
  every interleaving and results about whole runs.
- **Streaming text** (`src/server_text.h`). The UTF-8 repairer and the stop
  matcher behave as functions of the whole text however it is cut.
- **Kernels** (`src/cpu/`). The in-place Hadamard rotation, the merging of
  attention partials, the ring-buffer convolution, the gated delta update, and
  the packed four-bit layouts with their tiled products and argmax.
- **The Snake simulation** (`web/scenarios.js`), whose route facts come from a
  breadth-first search.

Code that updates fields or buffers step by step is a class or a method with
loops, proved against a function or a predicate; the laws are lemmas about those.
`dafny verify dfyconfig.toml` checks everything.

## How the files fit together

| files | content |
|---|---|
| `Wrappers.dfy`, `Unicode.dfy`, `Languages.dfy` | results, well-formed UTF-8, operations on languages |
| `Grammar.dfy`, `Ranked.dfy`, `ByteGrammar.dfy` | grammars and the recogniser; those that terminate; the class with its loops |
| `Rooms.dfy`, `Nesting.dfy`, `Paths.dfy`, `Worklist.dfy` | a record for every rule; how deep stacks get, at most and at least; what an expansion costs its budgets |
| `Schemas.dfy`, `JsonText.dfy`, `JsonLaws.dfy`, `Records.dfy`, `Builder.dfy`, `Limits.dfy`, `JsonUtf8.dfy` | schemas and what they cost, the JSON text they stand for, the laws of its parts, the records of its rules, the compiler, the schemas it is too small for, its UTF-8 |
| `JsonReader.dfy`, `JsonReading.dfy` | a reader of JSON by its bytes, knowing no schemas; that it reads all that schemas mean and grammars accept, and which texts these are |
| `Vocabulary.dfy`, `Constraint.dfy`, `ConstrainedText.dfy` | the token trie, the sampling constraint, accepted text through the decoder |
| `Utf8Decoder.dfy`, `StopMatcher.dfy`, `StreamQueue.dfy` | streaming text and its queue |
| `Executor.dfy`, `Service.dfy`, `ServicePass.dfy` | the fork/join pool, the worker loop, the texts of one of its passes |
| `Vector.dfy`, `Hadamard.dfy`, `Attention.dfy`, `Convolution.dfy`, `DeltaNet.dfy` | kernels over reals |
| `Quantized.dfy`, `Dot4.dfy`, `Dot4Kernel.dfy`, `Argmax.dfy`, `PackedQ4.dfy` | four-bit layouts and products |
| `Snake.dfy` | the simulation |

## What the code does not do

Some properties one might expect fail in the code. For each the exact condition is
proved for all inputs, and a failing input is given.

- **A stop hidden inside another.** When one stop ends strictly inside another and
  no stop is complete earlier, the output of `StopMatcher` depends on the chunking:
  with the stops `abcd` and `bc`, the chunks `abc` and `d` release `a`, the one
  chunk `abcd` nothing (`HiddenStopExample`). `ChunkingIsIrrelevantIffNoneHides`
  states the condition on the list of stops alone, for stops no longer than a
  chunk may be. That every output is the input cut at its first stop is equivalent
  to the same condition whatever the chunk limit (`OutputsAreCutsIffNoneHides`).
- **A second release.** When a decision's follow-up submission throws,
  `src/server.cpp:260` has already released the request, the handler at line 271
  falls through, and line 293 releases the same id again.
  `ReleasedOnceUnlessFollowUpThrows` states that this is the only way;
  `FollowUpThrowReleasesTwice` is the run.
- **Budgets inside a walk.** Masking walks the whole trie and greedy selection
  tests single tokens, so a state budget can stop the mask and not the shortcut.
  `PathsFailAlikeIff` states that the two paths fail alike exactly when the walk
  hits no budget, or nothing is kept anyway, or a candidate whose own check hits a
  budget comes before every kept one. `BudgetStopsOnlyTheMask` gives a grammar, a
  vocabulary and logits with which only the mask fails.
- **Long literals.** A schema may list values of 1024 bytes, but with the white
  space after it a value of 512 no longer fits on a stack: `OneValue` compiles an
  enumeration of one value exactly when it has fewer, and fails for the nesting
  otherwise. `StackNeed` computes from a schema the entries that its texts take: a
  value its length, a key seven more, and three for each array or object around
  them. Some text of an admitted schema leads to a stack over the limit exactly when
  that number is 512 or more (`StaysWithinIffNeeded`). Then some text makes the
  recogniser fail (`LargeNeedOverflows`), and otherwise none fails for the nesting
  (`SmallNeedNeverOverflows`).
- **Wide schemas.** A state may have 4096 stacks, but the admitted alternatives of a
  schema can need more at the start: `TooWide` fails on sixty-five enumerations of
  sixty-four values. `Build` succeeds exactly when the rules, the iterations, the
  stacks and the entries that the schema needs, each a number computed from the
  schema, are within their budgets.
- **Long pieces.** `room()` reserves 8192 bytes for each text of a pass, but a piece
  can release held text along with itself. What a push releases fits for every
  admissible matcher exactly when the decoded piece has at most 7937 bytes
  (`FitsIffShort`, `LongPieceOverflows`).

## Model

| member | source | states |
|---|---|---|
| Grammars.DerivesConcat | src/server_grammar.h:12-17 | the language of a sequence of symbols is the concatenation of its parts' languages |
| Grammars.DerivesRule | src/server_grammar.h:46-51 | a leading rule derives exactly what one of its alternatives derives in its place |
| Grammars.SortUniqueMeaning | src/server_grammar.h:53-54 | sorting and removing repeats keeps the set of stacks, strictly increasing |
| Grammars.StatesAreCanonical | src/server_grammar.h:53-55 | two increasing states with the same stacks are the same state |
| Grammars.SuccessorsAdmit | src/server_grammar.h:46-51 | a stack admits a word exactly when one of the stacks that replace it does |
| Grammars.ExpandPreserves | src/server_grammar.h:37-56 | a successful `expand` admits exactly the words its worklist admitted, and leaves only stacks that end or begin with a terminal |
| Grammars.AdvanceDerivative | src/server_grammar.h:58-65 | `advance` by a byte admits w exactly when the old state admits the byte followed by w |
| Grammars.ConsumeDerivative | src/server_grammar.h:69-75 | `consume` is the derivative by the whole text, and the empty state it stops in admits nothing |
| Grammars.CompleteAdmitsNothingMore | src/server_grammar.h:66-68 | a resolved state is complete exactly when it admits the empty word |
| Grammars.StartAdmits | src/server_grammar.h:57 | the initial state admits exactly the words of the start symbol |
| Grammars.RecogniserIsExact | src/server_grammar.h:37-75 | for every grammar and text, when no budget check fails: complete after the text iff the text is derivable, and an empty state only if no word of the language starts with it |
| ByteGrammars.ByteGrammar.Rule | src/server_grammar.h:18-21 | appends one rule, or fails with all 8192 in use; nothing else changes |
| ByteGrammars.ByteGrammar.Bytes | src/server_grammar.h:22-26 | returns a terminal that matches exactly the bytes of the span |
| ByteGrammars.ByteGrammar.Charset | src/server_grammar.h:27-31 | returns the terminal of the class, the existing one if there is one, else appended |
| ByteGrammars.ByteGrammar.Literal | src/server_grammar.h:32-36 | one new rule whose only alternative spells the text byte by byte |
| ByteGrammars.ByteGrammar.ExpandStacks | src/server_grammar.h:37-56 | the worklist loop computes the expansion, with the same budget failures |
| ByteGrammars.ByteGrammar.InitialState | src/server_grammar.h:57 | the expansion of the start symbol |
| ByteGrammars.ByteGrammar.AdvanceState | src/server_grammar.h:58-65 | the loop over stacks pops exactly those whose terminal matches and expands the rest |
| ByteGrammars.ByteGrammar.ConsumeText | src/server_grammar.h:69-75 | the byte loop with its early stop: final state, return value and failures of the specification |
| RankedGrammars.SymbolIsProductive | src/server_grammar.h:84-87 | every symbol of a ranked grammar derives some word |
| RankedGrammars.ReplacementLowers | src/server_grammar.h:46-51 | in a ranked grammar replacing a leading rule lowers a measure of the stack |
| RankedGrammars.BudgetsOnlyCutShort | src/server_grammar.h:37-56 | for a ranked grammar expansion terminates without budgets, a run within them computes the same, no rule is unknown, and a small enough worklist cannot exceed the step and stack-count budgets |
| Nesting.ExpansionFits | src/server_grammar.h:41-56 | when every rule has a room that its alternatives fit, expansion makes no stack higher than the rooms allow, in whatever grammar and order |
| Nesting.RunFits | src/server_grammar.h:41-75 | so no text makes a run fail for its nesting when the start symbol fits in 512 entries |
| Nesting.LiteralOverflowsIff | src/server_grammar.h:32-44 | expanding a nonempty literal fails for the nesting exactly when it and what lies below it have more than 512 entries |
| Paths.DeepRunFails | src/server_grammar.h:41-75 | a text that leads to a stack of more than 512 entries, one replaced rule or matched byte at a time, makes the run fail, whatever order the worklist takes |
| Paths.LeastIsReached | src/server_grammar.h:37-75 | in a ranked grammar some text leads to as many entries as are recorded for a symbol |
| Worklists.ExpansionForetold | src/server_grammar.h:37-56 | whether `expand` succeeds: exactly when the iterations, the final stacks and the entries of its worklist, counted beforehand from the rules, are within 32768, 4096 and 512; one that is over alone is the one reported |
| Worklists.InitialForetold | src/server_grammar.h:57 | the same of the first state |
| RankedGrammars.NonemptyStateIsExtendable | src/server_grammar.h:69-75 | for a ranked grammar the state is nonempty exactly while the text can be completed to a word |
| Languages.RuleDenotes | src/server_grammar.h:18-21 | a rule denotes the union of its alternatives' concatenations |
| Languages.ManyDenotesStar | src/server_grammar.h:85-87 | the right recursion of `many` over a non-nullable symbol denotes the star |
| Languages.StarIsUnique | src/server_grammar.h:85-87 | no other language solves that recursion |
| Languages.ExtensionDerives | src/server_grammar.h:18-31 | adding rules and terminals changes no existing symbol's language |
| Languages.RuleAdded | src/server_grammar.h:18-21 | a rule over existing symbols keeps a grammar ranked |
| Languages.ManyAdded | src/server_grammar.h:85-87 | so does `many` of a non-nullable symbol |
| JsonLaws.IntegerLaw | src/server_grammar.h:181-184 | sign and magnitude are exactly the integers of at most eighteen digits without leading zeros |
| JsonLaws.FractionLaw | src/server_grammar.h:185 | a point and one to eighteen digits |
| JsonLaws.ExponentLaw | src/server_grammar.h:186-187 | the letter, an optional sign, one or two digits |
| JsonLaws.CodepointLaw | src/server_grammar.h:192-198 | the three alternatives are exactly the escapes of a non-surrogate or of a surrogate pair in order |
| JsonLaws.CharacterLaw | src/server_grammar.h:199-209 | the alternatives are exactly one string character: plain ASCII, an escape, or one multi-byte scalar value |
| JsonLaws.CharacterFirst | src/server_grammar.h:199-209 | how long the character at the front of a text is depends on its own bytes alone |
| JsonLaws.StringLaw | src/server_grammar.h:210 | quotes around any number of characters are exactly the strings that a left-to-right scan accepts |
| JsonLaws.ListTailStep | src/server_grammar.h:136-144 | a list tail is empty exactly from the minimum on, or one more element and the next tail |
| JsonLaws.ListLaw | src/server_grammar.h:223-225 | an optional element and a star of comma-led elements are exactly the comma-separated lists |
| JsonLaws.MembersStep | src/server_grammar.h:158-171 | of a property's two continuations each derives the member and what may follow it, or, if optional, what may follow without it |
| Builders.JsonGrammarBuilder.Sequence | src/server_grammar.h:83 | denotes the concatenation; earlier symbols keep their languages |
| Builders.JsonGrammarBuilder.Optional | src/server_grammar.h:84 | denotes the language or the empty word |
| Builders.JsonGrammarBuilder.Many | src/server_grammar.h:85-87 | denotes the star of a language without the empty word, and keeps the grammar ranked |
| Builders.JsonGrammarBuilder.FixedRules | src/server_grammar.h:175-211 | the constructor's rules denote white space, strings, numbers, integers, booleans and null; there are 53, and they are added exactly when 53 are free |
| Builders.JsonGrammarBuilder.CodepointRule | src/server_grammar.h:191-198 | denotes exactly the escapes of single code points and of surrogate pairs |
| Builders.JsonGrammarBuilder.CharacterRule | src/server_grammar.h:199-209 | denotes exactly the string characters |
| Builders.JsonGrammarBuilder.NumberRule | src/server_grammar.h:184-188 | denotes exactly the bounded JSON numbers |
| Builders.EnumLaw | src/server_grammar.h:114-122 | one literal per value denotes the union of the value texts |
| Builders.AnyOfLaw | src/server_grammar.h:98-100 | one alternative per part denotes the union of the parts |
| Builders.TailLaw | src/server_grammar.h:136-144 | the row of list position n and its empty alternative denote the tail of lists with n elements before it |
| Builders.MemberLaw | src/server_grammar.h:166-170 | the alternatives of one property denote the member lists from it on, with and without a member before |
| Builders.JsonGrammarBuilder.EnumRule | src/server_grammar.h:109-123 | denotes exactly the listed values |
| Builders.JsonGrammarBuilder.AnyOfRule | src/server_grammar.h:94-101 | denotes the union of the parts, each compiled one level deeper |
| Builders.JsonGrammarBuilder.TailRules | src/server_grammar.h:136-144 | the loop from the longest list back denotes comma-separated lists of k items for exactly minItems <= k <= maxItems |
| Builders.JsonGrammarBuilder.ArrayRule | src/server_grammar.h:129-146 | the brackets and that list |
| Builders.JsonGrammarBuilder.MemberRules | src/server_grammar.h:164-171 | the `empty` and `nonempty` continuations denote in-order member lists with all required properties, commas only between members |
| Builders.JsonGrammarBuilder.MembersRules | src/server_grammar.h:160-171 | the loop from the last property back denotes exactly those lists for the whole object |
| Builders.JsonGrammarBuilder.Schema | src/server_grammar.h:88-173 | the symbol denotes exactly the schema's meaning, takes the entries and costs the first state what the schema says, the node count is that of the schema, and it fails only on depth, nodes or a full rule table |
| Builders.JsonGrammarBuilder.Build | src/server_grammar.h:212-217 | a ranked grammar whose start denotes exactly the schema's documents, which are those of `JsonReading`; for an admissible schema it succeeds exactly when the rules, iterations, stacks and entries that the schema needs are within their limits, and reports the one that is not |
| Schemas.ShortLiteralsNeedLittle | src/server_grammar.h:88-173 | the stack entries a schema needs are at most seven more than its longest literal and three for each admitted level |
| Schemas.StackNeedIsSharp | src/server_grammar.h:88-173 | beyond what levels alone can need, a schema within the limits needs exactly what its literals need |
| Limits.StaysWithinIffNeeded | src/server_grammar.h:37-75 | no text leads a compiled recogniser to a stack of more than 512 entries exactly when the schema needs fewer than 512 |
| Limits.LargeNeedOverflows | src/server_grammar.h:37-75 | when it needs as many, some text makes the recogniser fail |
| Limits.NestingFailsIffNeeded | src/server_grammar.h:37-75 | when no text hits the state budget, some text fails for the nesting exactly when the schema needs 512 entries |
| Limits.ShortLiteralsNeverOverflow | src/server_grammar.h:44-122 | with no literal over 468 bytes no text at all makes a compiled recogniser fail for its nesting |
| Limits.OneValue | src/server_grammar.h:109-123 | an enumeration of one value compiles exactly when the value has fewer than 512 bytes, and fails for the nesting from there to the admitted 1024 |
| Limits.TooWide | src/server_grammar.h:40-42 | an admissible schema whose first state needs more than 4096 stacks |
| Builders.JsonGrammarBuilder.Level | src/server_grammar.h:222-226 | from values nested n deep to objects and values nested n + 1 deep |
| Builders.JsonGrammarBuilder.GeneralObject | src/server_grammar.h:218-229 | exactly the JSON objects with containers nested at most eight deep, built exactly when 106 rules are free, with stacks of at most 41 entries |
| JsonUtf8.BuiltGrammarDecidesSchema | src/server_grammar.h:66-75 | a compiled recogniser is complete exactly on the schema's documents and alive exactly on their prefixes |
| JsonUtf8.DocumentsWellFormed | src/server_grammar.h:191-217 | every document of a schema with well-formed literals is well-formed UTF-8 |
| JsonUtf8.ObjectsWellFormed | src/server_grammar.h:218-229 | so is every general object |
| JsonReading.AcceptedIsJson | src/server_grammar.h:66-75 | whatever a compiled recogniser accepts is a JSON text when the schema's values and keys are, judged by a reader of RFC 8259 that scans from the left and has its own bytes |
| JsonReading.DocumentsAreJson | src/server_grammar.h:88-217 | every document of such a schema is read as one JSON text |
| JsonReading.ObjectsAreJson | src/server_grammar.h:218-229 | so is every general object, at any nesting |
| JsonReading.WsIsBlank | src/server_grammar.h:176-178 | white space is exactly the bytes 32, 9, 10 and 13 |
| JsonReading.LiteralTexts | src/server_grammar.h:189-190 | the boolean and the null schema mean exactly the bytes of true, false and null |
| JsonReading.NumberTexts | src/server_grammar.h:180-188 | integers, fractions and exponents, by their bytes and digit counts |
| JsonReading.StringTexts | src/server_grammar.h:191-210 | the strings are exactly the byte 34, any number of plain, escaped or multi-byte characters and surrogate pairs, each given by its bytes, and the byte 34 |
| JsonReading.ArrayTexts | src/server_grammar.h:129-146 | item texts between bytes 91 and 93, with 44 between them and as many as the bounds allow, are an array's text, without or with spaces |
| JsonReading.PairText | src/server_grammar.h:136-144 | `[` a `,` b `]` for any two items |
| JsonReading.ObjectTexts | src/server_grammar.h:158-173 | any choice of properties in order, with every required one, as key, byte 58, value, with 44 between them and 123 and 125 around, is an object's text |
| JsonReading.GeneralTexts | src/server_grammar.h:218-229 | the same for general arrays and objects |
| Unicode.TableIsEncoding | src/server_grammar.h:204-209 | the lead and following bytes allowed are exactly the encodings of the scalar values by section 3 of RFC 3629 |
| Vocabularies.LookupSpells | src/server_constraint.h:34-48 | a trie node is reached by exactly one byte string |
| Vocabularies.IdAdded | src/server_constraint.h:46-48 | adding an id at a token's node makes the trie hold exactly the old tokens and the new one |
| Vocabularies.TokenVocabulary.Add | src/server_constraint.h:34-48 | follows or creates the path, keeps the tree shape and every other token, and fails on a piece over 8192 bytes |
| Vocabularies.TokenVocabulary.AddAll | src/server_constraint.h:29-33 | ends with exactly the nonempty non-end tokens in the trie |
| Constraints.JsonConstraint.AllowsToken | src/server_constraint.h:55-60 | end tokens exactly when complete, others exactly when their bytes can be consumed |
| Constraints.JsonConstraint.Walk | src/server_constraint.h:61-67 | marks in place exactly the tokens below the node whose remaining bytes keep the state alive, and fails exactly when one of them hits a budget |
| Constraints.RootMarksAreAllowed | src/server_constraint.h:55-67 | from the root the marks are exactly the non-end tokens that `allows` accepts |
| Constraints.NoBudgetInWalk | src/server_constraint.h:61-67 | a walk that hits no budget implies that no single token's check does |
| Constraints.JsonConstraint.FindAllowed | src/server_constraint.h:95-96 | the walk and the end tokens leave `allowed` equal to `allows` for every id |
| Constraints.JsonConstraint.Mask | src/server_constraint.h:97-102 | every logit that is not allowed or not finite becomes minus infinity, the rest stay; fails exactly when none stays |
| Constraints.JsonConstraint.ApplyMask | src/server_constraint.h:94-103 | masks exactly by `allows`; fails exactly when the walk hits a budget or nothing finite is allowed |
| Constraints.JsonConstraint.Front | src/server_constraint.h:79-90 | the candidate with the highest finite logit, the lowest id among equals |
| Constraints.JsonConstraint.ApplyGreedy | src/server_constraint.h:75-93 | leaves only the best allowed finite logit; fails exactly when a candidate whose check hits a budget comes before every kept one, or nothing is kept, and then changes nothing and says which |
| Constraints.JsonConstraint.Apply | src/server_constraint.h:72-106 | greedy or mask, each with its exact failure; without a budget in the walk both fail exactly when nothing is kept |
| Constraints.PathsFailAlikeIff | src/server_constraint.h:61-103 | the greedy path fails exactly when the mask path fails iff the walk hits no budget, nothing is kept, or a budget blocks every kept candidate |
| Constraints.BudgetStopsOnlyTheMask | src/server_constraint.h:61-103 | a ranked grammar, its initial state, a vocabulary and logits where the mask path fails and the greedy path does not |
| Constraints.GreedyAgreesWithMask | src/server_constraint.h:75-103 | what greedy leaves is the highest logit that masking leaves, at its lowest id |
| Constraints.JsonConstraint.AcceptToken | src/server_constraint.h:107-114 | advances by the token's bytes, leaves the state for an end token, and changes nothing when it refuses |
| Constraints.AcceptingIsConsuming | src/server_constraint.h:107-114 | accepting tokens one by one ends where consuming their text ends |
| Constraints.AcceptedRunsAreWords | src/server_constraint.h:107-114 | text tokens and an end token are accepted exactly when they spell a word, however they split it |
| Constraints.EndedRunSpellsWord | src/server_constraint.h:107-114 | any accepted run that ends in an end token spells a word of the language |
| ConstrainedTexts.AcceptedTextIsUnchanged | src/server_text.h:16-74 | the decoder, fed such a run token by token, reproduces its text when the language is well-formed UTF-8 |
| ConstrainedTexts.SchemaTextIsUnchanged | src/server_grammar.h:191-217 | for a schema's grammar the text is a document, well-formed, and unchanged by the decoder |
| Utf8Decoders.ScanRepairs | src/server_text.h:20-71 | the scan replaces each maximal ill-formed subpart by one U+FFFD and keeps all else (section 3.9 of the Unicode Standard) |
| Utf8Decoders.RepairIsUnique | src/server_text.h:20-71 | a text has only one such repair |
| Utf8Decoders.RepairIsWellFormed | src/server_text.h:20-71 | a repair is well-formed, and equals the text when that is |
| Utf8Decoders.BrokenIsMaximal | src/server_text.h:36-67 | what is replaced at once is the longest prefix that could begin a scalar value, or one byte |
| Utf8Decoders.LoneByteRepair | src/server_text.h:28-36 | a lone byte stays below 128 and otherwise becomes the bytes EF BF BD |
| Utf8Decoders.AtMostThreeWait | src/server_text.h:62-72 | at most three bytes are held between pushes |
| Utf8Decoders.ChunksDecodeAsWhole | src/server_text.h:16-74 | for every split the output is the repair of the whole |
| Utf8Decoders.Utf8Decoder.Push | src/server_text.h:16-74 | the index loop outputs and keeps what the scan of the held and new bytes says |
| StopMatchers.StopMatcher.Create | src/server_text.h:95-107 | gives a matcher that holds nothing for exactly the admissible lists of stops and chunk limits, and otherwise refuses |
| StopMatchers.StopMatcher.LongestHeld | src/server_text.h:89-94 | the longest proper prefix of the stop that ends the text |
| StopMatchers.StopMatcher.FirstStop | src/server_text.h:115-119 | the earliest stop, the first listed one at that position |
| StopMatchers.StopMatcher.PushText | src/server_text.h:108-132 | the push of the specification, or a failure that changes nothing for a chunk over the limit; what it holds is given by `PendingIsLongestHeld` |
| StopMatchers.StopMatcher.FinishText | src/server_text.h:133-139 | hands out what is held unless stopped |
| StopMatchers.PushTracks | src/server_text.h:108-132 | every push keeps output plus held text equal to a stop-free input, or the output cut at a stop |
| StopMatchers.PendingIsLongestHeld | src/server_text.h:89-131 | for every chunking, while unstopped: what is held is exactly the longest end of the whole input that is a proper prefix of some stop, so everything else has been released |
| StopMatchers.MatcherIsFaithful | src/server_text.h:108-139 | for every chunking: no stop in the output; unstopped, output and held text are the input and Finish completes it; stopped, output and the matched stop are a prefix of the input |
| StopMatchers.CleanStopsCut | src/server_text.h:108-139 | when no stop hides inside another the output is the input cut at its first stop |
| StopMatchers.HiddenStopLeaks | src/server_text.h:126-131 | a stop that hides inside another, given byte by byte, is not cut at its start, and whole it has a different output |
| StopMatchers.OutputsAreCutsIffNoneHides | src/server_text.h:95-139 | for every chunk limit: every output is the input cut at its first stop exactly when no stop hides inside another |
| StopMatchers.ChunkingIsIrrelevantIffNoneHides | src/server_text.h:95-139 | for stops within the chunk limit: any two admitted chunkings of one text have the same output exactly when no stop hides inside another |
| StopMatchers.HiddenStopExample | src/server_text.h:126-131 | the stops `abcd` and `bc`: the chunks `abc`, `d` release `a`, the chunk `abcd` nothing |
| StreamQueues.StreamQueue.Room | src/server_stream.h:20-23 | exactly whether three more texts of 8192 bytes fit |
| StreamQueues.StreamQueue.PushText | src/server_stream.h:24-30 | appends a nonempty text, or refuses and changes nothing exactly when a bound or the terminal reply says so |
| StreamQueues.StreamQueue.FinishWith | src/server_stream.h:31-34 | sets the terminal reply whatever the queue holds |
| StreamQueues.StreamQueue.PopText | src/server_stream.h:35-43 | the oldest text, and the terminal reply only when no text is left |
| StreamQueues.ReaderSeesPrefix | src/server_stream.h:20-43 | from the empty queue, under any interleaving, the popped text is a prefix of the pushed text, bounds hold, and a terminal reply is seen only after all text |
| StreamQueues.RoomCoversThreePushes | src/server_stream.h:20-30 | after `room()` none of the next three pushes of at most 8192 bytes is refused, whatever is popped between them |
| StreamQueues.RoomIffThreeFit | src/server_stream.h:20-30 | there is room exactly when three pushes of 8192 bytes in a row are not refused, and the empty queue has it |
| StreamQueues.FinishedStreamIsRead | src/server_stream.h:31-43 | after the terminal reply, one pop more than there are texts hands out every text pushed and then that reply |
| ServicePasses.FitsIffShort | src/server.cpp:234-237 | what a push of an n-byte piece releases is at most 8192 bytes, whatever the stops and whatever is held, exactly when n <= 7937 |
| ServicePasses.LongPieceOverflows | src/server_text.h:108-132 | a stop and a history with which a piece of n bytes releases n + 255 |
| ServicePasses.ShortTokensFit | src/server.cpp:234-237 | a token of at most 2642 bytes decodes to a piece within that bound, whatever the decoder holds |
| ServicePasses.PassIsNeverRefused | src/server.cpp:222-275 | after `room()` neither the piece nor the decoder's and the matcher's rest is refused in a pass with such a piece, whatever the reader pops meanwhile |
| Executors.RangesMeet | src/cpu/executor.cpp:43-55 | the first range begins at row 0, each begins where the last one ended, the last ends at the row count |
| Executors.RowHasOneParticipant | src/cpu/executor.cpp:43-55 | each row lies in exactly one participant's range |
| Executors.RangesBalance | src/cpu/executor.cpp:43-55 | any two ranges differ by at most one row, the longer ones first |
| Executors.NextKeeps | src/cpu/executor.cpp:230-313 | every atomic step of the caller and of every worker, and every spurious wake-up, keeps the protocol's invariant |
| Executors.ReturnedJobRanEachRowOnce | src/cpu/executor.cpp:235-313 | in every run, when a call returns ok each row was run by exactly one call of the task, and every call had this job's task and context |
| Executors.MailboxIsWrittenOnlyWhenConsumed | src/cpu/executor.cpp:263-270 | a mailbox is written only when its worker has taken its last generation and holds nothing read from it |
| Executors.CounterCountsFinished | src/cpu/executor.cpp:262-313 | the counter equals the number of participants finished in the current job |
| Executors.SomeThreadCanStep | src/cpu/executor.cpp:275-312 | no deadlock and no missed wake-up: while a call or shutdown is under way some unblocked thread has a step |
| Executors.OrdinaryStepsLower | src/cpu/executor.cpp:230-313 | every step that is not a spurious wake-up lowers a measure |
| Executors.OperationsEnd | src/cpu/executor.cpp:217-285 | from every reachable state of a call or shutdown the threads can reach its end, within the measure |
| Executors.StoppedMeansExited | src/cpu/executor.cpp:217-225 | after a shutdown from idle every worker loop has returned |
| Services.NextKeeps | src/server.cpp:108-331 | every step of the worker loop and of the HTTP threads keeps the lifecycle invariant; that the steps lead on is stated by the rows on Stop and on cancellation below |
| Services.JobsAreAccountedFor | src/server.cpp:126-331 | in every run each job is in exactly one of pending, batch, active, finished; `outstanding_` counts the unfinished and stays within 64; one final reply and one admission value each |
| Services.ReturnLeavesNothing | src/server.cpp:297-326 | when `run` returns nothing is unfinished, every job has been answered once and every id given back |
| Services.ReleasedOnceUnlessFollowUpThrows | src/server.cpp:201-296 | a held id is unreleased, and one no longer held was released exactly once iff no follow-up submission for it threw |
| Services.FollowUpThrowReleasesTwice | src/server.cpp:256-293 | a run in which an id is released twice |
| Services.WorkerStepsLower | src/server.cpp:135-297 | once told to stop, every step of the worker lowers the number of steps it has left |
| Services.StoppedWorkerReturns | src/server.cpp:135-297 | after Stop the worker has returned within 263 of its steps, whatever happens meanwhile, and has one to make until then |
| Services.EnqueueTakesIff | src/server.cpp:327-331 | a job is taken exactly while fewer than 64 are unfinished and no stop has come, and waits behind the others |
| Services.VisitEndsIff | src/server.cpp:212-296 | a visit leaves a job running exactly when it is neither cancelled nor stopped and has no room, no output or no end yet, or has its next question submitted |
| Services.SubmittedUncancelled | src/server.cpp:147-263 | a request is submitted only for a job that is not cancelled, under a fresh id |
| Services.WorkerNearsCancelled | src/server.cpp:146-297 | every step of the worker brings a cancelled job nearer to its end, whatever the engine finds |
| Services.CancelledJobIsDropped | src/server.cpp:146-297 | in every run a cancelled job is finished, with one reply, within 264 steps of the worker, and within 132 if the worker has it still before it in this pass; nothing more is submitted for it, the request it held is released exactly once, and the worker has a step to make until then |
| Hadamards.TransformTwice | src/cpu/q4_h128.cpp:50-61 | the transform of size 2^m is its own inverse up to 2^m |
| Hadamards.TransformDot | src/cpu/q4_h128.cpp:50-61 | it doubles every inner product m times |
| Hadamards.StagesAreTransform | src/cpu/q4_h128.cpp:50-61 | the stages of stride 1, 2, 4, ... compute the recursive transform |
| Hadamards.TransformEntry | src/cpu/q4_h128.cpp:50-61 | cell i of the transform is the sum of all values, value j negated exactly when i and j have an odd number of bits in common |
| Hadamards.ButterflyLanes | src/cpu/q4_h128.cpp:53-58 | the lane loop leaves sums in the first run and differences in the second, nothing else changed |
| Hadamards.StageInPlace | src/cpu/q4_h128.cpp:52-59 | the base loop does one whole stage in place |
| Hadamards.HadamardInPlace | src/cpu/q4_h128.cpp:50-61 | the three loops replace the block by its transform and touch nothing else |
| Hadamards.ApplySigns | src/cpu/q4_h128.cpp:35-48 | negates exactly the values whose bit is set in their sign word |
| Hadamards.FlippedDot | src/cpu/q4_h128.cpp:35-48 | sign flips keep every inner product |
| Hadamards.TransformBlock | src/cpu/q4_h128.cpp:63-74 | copy, flips, butterfly and scale leave the rotation of the input block, also when output is input; `RotatedEntry` gives its cells |
| Hadamards.InverseBlock | src/cpu/q4_h128.cpp:88-94 | the inverse's loops compute the inverse of the specification in place; `UnrotatedEntry` gives its cells |
| Hadamards.RotatedEntry | src/cpu/q4_h128.cpp:63-74 | cell i of a rotated block is the scale times that sum, value j negated once more exactly when bit j of the key is set |
| Hadamards.UnrotatedEntry | src/cpu/q4_h128.cpp:88-94 | cell i of the inverse is the scale times that sum, negated exactly when bit i of the key is set |
| Hadamards.RowEntry | src/cpu/q4_h128.cpp:126-146 | each cell of a rotated row comes in this way from its own block, under the key of that block |
| Hadamards.UnrotatedInverts | src/cpu/q4_h128.cpp:63-94 | with scale^2 * 128 = 1 the inverse block undoes the rotation, for every sign word |
| Hadamards.RotatedInverts | src/cpu/q4_h128.cpp:63-94 | and the rotation undoes the inverse block |
| Hadamards.RotatedRowDot | src/cpu/q4_h128.cpp:126-146 | rotating a weight row and an activation row together leaves their dot product unchanged, for any multiple of 128 columns |
| Hadamards.TransformRows | src/cpu/q4_h128.cpp:126-146 | refuses other widths and changes nothing; otherwise every row is rotated block by block, with the cells of `RowEntry`, and nothing beyond the rows changes |
| Attentions.MergePartial | src/cpu/full_attention_tiled.cpp:66-78 | the in-place merge computes the merge of the specification and leaves values beyond the dimension |
| Attentions.EmptyIffZero | src/cpu/full_attention_tiled.cpp:69-70 | a partial's sum is zero exactly when it stands for no key |
| Attentions.MergeIsUnion | src/cpu/full_attention_tiled.cpp:66-78 | merging the partials of two sequences of keys gives the partial of both together |
| Attentions.MergedIsSoftmax | src/cpu/full_attention_tiled.cpp:66-78 | for any partition, order and number of pieces, empty ones included, values over sum is the softmax-weighted average |
| Attentions.PlansAgree | src/cpu/full_attention_tiled.cpp:66-78 | any two ways of merging the same keys end in the same partial |
| Convolutions.ActivatedIsSigmoid | src/cpu/activation.cpp:212-216 | both branches of the activation are x / (1 + exp(-x)) |
| Convolutions.WindowSlides | src/cpu/activation.cpp:204-220 | storing over the oldest value and turning the ring slides its window by one |
| Convolutions.WeightedSum | src/cpu/activation.cpp:202-208 | the sum is the dot product of the weights with the window and the new input |
| Convolutions.Convolve | src/cpu/activation.cpp:198-222 | each channel in range outputs the activated direct sum over its sliding window for every token, as `OutputsAreSigmoid` spells it out, and its ring ends with the latest inputs; other channels and cells are untouched |
| Convolutions.OutputsAreSigmoid | src/cpu/activation.cpp:198-222 | what such a call leaves in every cell in range is d / (1 + e(-d)), d being the dot product of the weights with the window and the new input, for every e with e(x) * e(-x) = 1 |
| Convolutions.BatchSplits | src/cpu/activation.cpp:198-222 | one channel: cutting a batch in two gives the same outputs and the same window |
| Convolutions.BatchesCompose | src/cpu/activation.cpp:198-222 | a call on a tokens and a call on the next b, with the ring index carried over, are one call on a + b, for every channel range |
| Convolutions.RangesCompose | src/cpu/activation.cpp:198-222 | calls on adjacent channel ranges are one call on their union |
| Convolutions.ResultIsDetermined | src/cpu/activation.cpp:198-222 | what such a call promises fixes every ring cell and every output, so one call and two leave the same |
| DeltaNets.WrittenIsRecalled | src/cpu/delta_net.cpp:29-45 | read with its unit key, a row moves the fraction beta from the held value to the written one |
| DeltaNets.OthersOnlyDecay | src/cpu/delta_net.cpp:29-45 | what is held under an orthogonal key only decays by alpha |
| DeltaNets.OutputReads | src/cpu/delta_net.cpp:29-45 | the output is alpha times the row's reading by the query plus the correction times the key's |
| DeltaNets.OutputOfWritten | src/cpu/delta_net.cpp:29-45 | queried with the unit key it writes under, with beta 1, a token puts out the value it writes |
| DeltaNets.UpdateRow | src/cpu/delta_net.cpp:29-45 | the two column loops compute the updated row and its output, other rows unchanged |
| DeltaNets.UpdateRows | src/cpu/delta_net.cpp:12-47 | exactly the rows in range are updated, each with its own head's key, query and gates |
| DeltaNets.UpdateBatch | src/cpu/delta_net.cpp:49-90 | every row of the heads in range is the whole batch on, in token order, with every output; all other rows are untouched |
| DeltaNets.RowSplits | src/cpu/delta_net.cpp:62-88 | a batch cut in two leaves the same state row |
| DeltaNets.OutputSplits | src/cpu/delta_net.cpp:62-88 | and the same outputs |
| DeltaNets.BatchesCompose | src/cpu/delta_net.cpp:49-90 | a call on a tokens of a batch and a call on the other b are one call on all a + b, for every head range: same states, same outputs |
| DeltaNets.HeadsCompose | src/cpu/delta_net.cpp:49-90 | calls on adjacent head ranges are one call on their union |
| DeltaNets.ResultIsDetermined | src/cpu/delta_net.cpp:49-90 | what such a call promises fixes every state row and every output, so one call and two leave the same |
| Quantized.UnsignedLessEightSums | src/cpu/q4_dot4_prefill_avx512.cpp:53-61 | unsigned dot minus eight activation sums is the signed dot |
| Quantized.AccumulatorsFit | src/cpu/q4_dot4_prefill_avx512.cpp:53-61 | a block's sum fits sixteen bits and its dot thirty-two |
| Dot4Layouts.PackedKeepsCodes | src/cpu/q4_dot4.cpp:5-17 | reading a packed row gives the codes of the plain one |
| Dot4Layouts.PackedBytes | src/cpu/q4_dot4.cpp:5-17 | byte 32t + 4r + j of a packed tile is the pair of columns 8t + j and 8t + 4 + j of row r |
| Dot4Layouts.UnpackAfterPack | src/cpu/q4_dot4.cpp:5-29 | unpacking a packed tile gives every row back |
| Dot4Layouts.PackAfterUnpack | src/cpu/q4_dot4.cpp:5-29 | packing an unpacked tile gives the tile back |
| Dot4Layouts.PackRows | src/cpu/q4_dot4.cpp:5-17 | the loops pack every block column of every whole tile of eight rows, and nothing else |
| Dot4Layouts.UnpackRows | src/cpu/q4_dot4.cpp:18-29 | the loops unpack every row, and nothing else |
| Dot4Kernels.PackedRowIsPlain | src/cpu/q4_dot4.cpp:41-56 | packing changes no scale and no code, so no dot product |
| Dot4Kernels.ScalarRow | src/cpu/q4_dot4.cpp:42-56 | the block and code loops compute the row's value in block order |
| Dot4Kernels.LaneDot | src/cpu/q4_dot4_prefill_avx512.cpp:48-61 | low and high nibbles summed apart, less eight times the ready sum, are the signed block dot |
| Dot4Kernels.AccumulateToken | src/cpu/q4_dot4_prefill_avx512.cpp:48-64 | each of sixteen lanes accumulates its own row's block |
| Dot4Kernels.Tile | src/cpu/q4_dot4_prefill_avx512.cpp:66-77 | sixteen rows by any number of tokens: each cell of the rectangle written once with its value |
| Dot4Kernels.Product | src/cpu/q4_dot4_prefill_avx512.cpp:117-143 | the tile loops with all tails write every output cell exactly once, with the value of the plain double loop, and no other |
| Dot4Kernels.PlainProduct | src/cpu/q4_dot4.cpp:90-91 | the plain double loop writes every cell once with its value |
| Dot4Argmax.ScanIsLowestMaximum | src/cpu/q4_dot4.cpp:103-109 | the sequential scan keeps the greatest value at its lowest index |
| Dot4Argmax.ScanOfTail | src/cpu/q4_dot4_prefill_avx512.cpp:109-113 | a tail scanned on its own replaces the best exactly when the continued scan would |
| Dot4Argmax.Argmax | src/cpu/q4_dot4.cpp:93-109 | the plain loop returns the scan's winner over the penalised values of all rows |
| Dot4Argmax.WideArgmax | src/cpu/q4_dot4_prefill_avx512.cpp:92-115 | the split loop returns the same winner, over the same values |
| Dot4Argmax.RepeatedLoses | src/cpu/q4_dot4.cpp:106 | a penalty above one lowers every nonzero value of a repeated row, never across zero, and leaves all others as they are |
| PackedQ4.PackTile | src/cpu/q4_0.cpp:308-319 | for one tile and block the loops put every byte and scale of eight rows in its place |
| PackedQ4.PackingLosesNothing | src/cpu/q4_0.cpp:301-322 | two tiles that pack alike are alike |
| PackedQ4.PackRows | src/cpu/q4_0.cpp:301-322 | the tile and block loops leave every whole tile of the matrix packed and the rest of the buffer as it was |
| PackedQ4.PackGroup | src/cpu/q4_0.cpp:333-349 | for one group and block: four activation blocks side by side, with their scales and the sums of their codes |
| PackedQ4.PackLane | src/cpu/q4_0.cpp:334-349 | one of them, the sum within sixteen bits, the other three lanes unchanged |
| PackedQ4.PackVectors | src/cpu/q4_0.cpp:324-352 | the group and block loops leave every whole group of four vectors packed and the rest of the buffer as it was |
| PackedQ4.PlainProduct | src/cpu/q4_0.cpp:66-101 | the plain loops write every cell with its value, under the blocks' scales or the ones handed over, and nothing else |
| PackedQ4.OwnScalesAreRight | src/cpu/q4_0.cpp:66-101 | handing over the blocks' own scales changes no value |
| PackedQ4.PackedProduct | src/cpu/q4_0.cpp:103-147 | over buffers packed so, the packed loops write the plain product on all whole tiles and nothing else |
| Snakes.ActKeeps | web/scenarios.js:121-154 | every move and every edit keeps the body inside, free of repeats and off walls, live food off both, and the length in step with the score |
| Snakes.RunKeeps | web/scenarios.js:121-154 | so does every sequence of moves and edits |
| Snakes.InitialIsSound | web/scenarios.js:48-53 | the first board is such a board |
| Snakes.StepSnake | web/scenarios.js:121-143 | the step with its board scan is the step of the specification |
| Snakes.FreeCells | web/scenarios.js:131-133 | the scan lists, row by row, exactly the cells that are inside and not taken |
| Snakes.FreeInOrder | web/scenarios.js:131-133 | that list goes row by row from the top, each row from the left |
| Snakes.MovesAreNeighbours | web/scenarios.js:5 | up, right, down and left lead to the four neighbours, with y growing downwards, and each is undone by its opposite |
| Snakes.ClearIff | web/scenarios.js:69-75 | a live move is free exactly on an inner cell off the walls and off every part of the body but its tail |
| Snakes.BodyFollows | web/scenarios.js:127-130 | a free move puts the head on the next cell and every other part where the one before it was, one longer exactly on the food |
| Snakes.PickIsShare | web/scenarios.js:61-64 | choice i of n is made by exactly the seeds in the i-th of n equal parts of 2^32 |
| Snakes.EveryCellIsPicked | web/scenarios.js:135 | so some seed puts the food on any given free cell |
| Snakes.FoodAfterMeal | web/scenarios.js:135 | after a meal the food lies at the new seed's share of the free cells |
| Snakes.EditIsLocal | web/scenarios.js:144-154 | an edit is refused on the body, outside or of a wall on the food, and otherwise flips the wall at its cell alone or moves the food there unless a wall stands on it |
| Snakes.EatingIsSafe | web/scenarios.js:69-81 | a move onto the food of a live sound board hits nothing |
| Snakes.CompleteIffFull | web/scenarios.js:127-135 | eating ends the game exactly when body and walls then fill the board |
| Snakes.LoopedMeansRepeated | web/scenarios.js:137-139 | a plain move sets `looped` exactly when its position is among the last 512 |
| Snakes.FoundIsShortest | web/scenarios.js:91-101 | a cell taken from the queue is at its shortest distance |
| Snakes.MissedIsUnreachable | web/scenarios.js:91-101 | an exhausted search has missed only what cannot be reached |
| Snakes.Route | web/scenarios.js:88-102 | the search returns the shortest route length, and none exactly when there is no route |
| Snakes.MoveFacts | web/scenarios.js:84-111 | one true fact for each direction that does not reverse |
| Snakes.FactIsDetermined | web/scenarios.js:105-110 | at most one fact can hold of a direction |

## Left out

- Schema parsing: field names, types and limits of the JSON text of a schema (`src/server_grammar.h:90-134,147-157`) and its 32768-byte bound. A schema is already a value here; whether a property is required is a flag on it; enum and property texts are given as dumped.
- The tokenizer: token bytes and end tokens are given, as in the constructor for synthetic vocabularies.
- `std::make_heap` and `std::pop_heap`: the front of the heap is any way of finding the candidate that beats all others.
- `src/server_grammar.h:61` indexes terminals without a check; a terminal number out of range matches nothing here. The builder never emits one.
- Builders.JsonGrammarBuilder.Build: which schemas can hit the state budget after some text has been read is not stated; `Worklists.ExpansionForetold` states it of each expansion, and `Build` of the first.
- Executors.NextKeeps: steps are sequentially consistent, and a mailbox's payload is written and read in one step each; the acquire and release orders that justify this are not modelled, nor 64-bit wrap-around of generations, spin counts, profiling, callers that are refused as busy or invalid, and failures of `start`.
- Services.NextKeeps: the engine, the tokenizer, deadlines and reply contents are free choices of the environment; a visit to one active job is one step; each step of the engine ends; exceptions are those of the `try` blocks in the loop, so neither running out of memory elsewhere nor an exception between a successful submission and the entry in the active list is modelled. That an id is given back is stated on the worker's side, not the engine's.
- StreamQueues.StreamQueue.PopText: the timed wait is left out; the result is that of the moment it ends.
- Kernels compute over reals. In the four-bit kernels the fused operation, products, quotients and binary16 values are parameters, so their results hold for any rounding; in the Hadamard, attention, convolution and delta kernels rounding is not modelled. Exponentials are positive functions that turn sums into products, given as parameters.
- Row-major buffers with a stride are two-dimensional arrays, so that no two cells share an index is not proved.
- `splitmix64` and the choice of sign words: any sign words do.
- SIMD bodies: the AVX-512 DOT4 kernel is modelled lane by lane; narrower tail kernels are taken to compute the plain loop. Backend selection, the AVX2, VNNI, WASM variants and the attention tiles are not modelled.
- Snakes.StepSnake: messages are left out, and the texts of move facts are a datatype.
- HTTP, SSE, option parsing, files, the other demos of `web/scenarios.js`, quantisation search: plumbing, or only easy members.

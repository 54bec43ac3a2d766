# SignalChord: verified models

Dafny models of the parts of SignalChord whose behaviour is hardest to see from the code, with proofs.
`dafny verify dfyconfig.toml` checks the whole project.

- **Velato.** The policy machine of `services/velato-engine`: its straight-line stack code, the static
  analyzer, the MIDI note codec, the assembly text, the macro library and the policy it generates, and
  the browser's MIDI writer in `apps/web`.
  Modules `VelatoIr`, `VelatoAnalyzer`, `VelatoMachine`, `VelatoSafety`, `VelatoLaws`, `VelatoRewriting`,
  `VelatoRules`, `VelatoNames`, `VelatoNotes`, `VelatoRoundTrip`, `VelatoAssembly`, `VelatoLibrary`, `VelatoPolicy`, `VelatoConditions`,
  `VariableLength`, `StandardMidi`, `VelatoShowcase`, `VelatoSource`.
- **Merzato.** The restricted virtual machine of `apps/web/src/merzatoStudio.ts`, on assembled programs.
  Modules `MerzatoVm`, `MerzatoRuntime`, `MerzatoSafety`, `MerzatoLaws`, `MerzatoExpressions`.
- **Graph.** The graph projector, the mutations the workers publish, and their at-least-once delivery.
  Modules `GraphModel`, `GraphDelivery`, `GraphBuilders`, `GraphPipeline`, `GraphRecords`,
  `GraphUniqueness`.
- **Delivery.** The Go consumer group handler, the Python poison-message helper and polling loop, and the
  transactional outbox. Modules `AtLeastOnce`, `KafkaConsumer`, `PoisonMessage`, `Outbox`,
  `OutboxDelivery`.
- **Loops.** The realtime broker, mention and relation extraction, and the speech chunker.
  Modules `RealtimeBroker`, `MentionSelection`, `SpeechChunks`.

`Outcomes`, `PythonText` and `JavaScriptText` are shared.

Code that updates state in place is modelled by classes and methods with loops, each proved equal to a
specification function or shown to be a run of a step protocol; the laws are lemmas about those. Where
several parties act at once (publishers, partitions, consumers, broker clients), the protocol is a state
machine over their steps and the theorems hold for every sequence of steps.

## What the proofs found

- The decompiler's output cannot be parsed again as soon as it holds an instruction without operand,
  HALT included: the two blanks before the comment are captured as an operand
  (`VelatoAssembly.DecompiledParsesExactly`).
- A program of 512 instructions without HALT passes analysis but neither notes nor text can carry it, since
  a HALT is appended (`VelatoRoundTrip.NoteRoundTrip`, `VelatoAssembly.TextRoundTrip`).
- `variableLength` terminates exactly when ToInt32 of its argument lies in 0..2^28-1: it hangs on -1 and on
  2^28, and 2^32 is written as 0 (`VariableLength.TerminatesExactly`).
- The browser's MIDI bytes are only a legal file when the root keeps all note bytes below 128
  (`VelatoShowcase.BytesReadBack`).
- The speech chunker drops a run of stops at the start of a text (`SpeechChunks.NothingLostExactly`).
- The outbox can deliver a row again exactly while it is unpublished or in a live claim's batch, so two
  overlapping claims deliver it twice (`OutboxDelivery.DeliverableExactly`, `OutboxDelivery.OverlapDeliversTwice`),
  and one orderly failure counts as two attempts (`Outbox.AttemptsCountTries`).
- Ids such as `source:unknown` carry no tenant while the graph schema makes `stable_id` unique over all of
  them: a pass over several tenants goes through exactly when they share no id
  (`GraphUniqueness.PassGoesThroughExactly`, `GraphUniqueness.UnknownSourcesCollide`).

## Model

| member | source | states |
|---|---|---|
| VelatoAnalyzer.AnalyzeIr | services/velato-engine/engine.py:329-386 | The analyzer loop returns exactly the declarative analysis: the first fault before HALT in program order, or the counts, depths, sets and warnings of the live prefix |
| VelatoAnalyzer.AnalyzeAcceptsExactly | services/velato-engine/engine.py:334-371 | A program is accepted if and only if it is non-empty, within the instruction limit and fault-free up to its first HALT; every accepted instruction then has a valid operand, enough cells below it and stays within the stack limit |
| VelatoAnalyzer.PeakIsLargestDepth | services/velato-engine/engine.py:357-358 | The reported peak bounds every depth along the program and is one of them |
| VelatoAnalyzer.LiveFromIsFirstHalt | services/velato-engine/engine.py:345-371 | The live prefix ends with the first HALT, or is the whole program |
| VelatoAnalyzer.LivePrefixUnique | services/velato-engine/engine.py:348-371 | No other prefix has that property |
| VelatoAnalyzer.UsesAreExactly | services/velato-engine/engine.py:361-368 | required_inputs, local_registers and outputs_written are exactly the inputs some live instruction loads, the registers one names and the outputs one stores |
| VelatoAnalyzer.WarningsAre | services/velato-engine/engine.py:348-376 | One warning for each instruction behind the first HALT, in order, one for a missing HALT, and one with exactly the outputs no live instruction stores |
| VelatoMachine.Execute | services/velato-engine/engine.py:389-586 | Analysis, then the ten inputs, then the interpreter: the result, trace or first fault is that of the step-by-step machine |
| VelatoMachine.Interpret | services/velato-engine/engine.py:405-586 | The interpreter loop over stack, registers, outputs, peak and trace computes the run of the machine's steps up to the first HALT |
| VelatoMachine.NormalizeAll | services/velato-engine/engine.py:396-403 | Normalising inputs succeeds exactly when every named input is there and finite, and keeps their values |
| VelatoMachine.NormalizeFailsAtFirst | services/velato-engine/engine.py:396-403 | When it fails, the error names the first input that is missing or not finite, and says which |
| VelatoMachine.RoundHalfEvenIsNearest | services/velato-engine/engine.py:495-496 | Rounding gives a nearest integer, the even one on a tie |
| VelatoLaws.RoundingLaws | services/velato-engine/engine.py:491-496 | FLOOR and CEIL bracket the value; ROUND is within a half of it, even on ties |
| VelatoLaws.SignLaws | services/velato-engine/engine.py:485-506 | SIGN times ABS is the value; the value plus its NEG is zero |
| VelatoLaws.ConnectiveLaws | services/velato-engine/engine.py:464-466 | AND, OR, XOR over truthiness: XOR is OR without AND, and De Morgan's laws hold |
| VelatoLaws.MinMaxLaws | services/velato-engine/engine.py:456-457 | MIN and MAX are the two operands in order |
| VelatoLaws.InverseLaws | services/velato-engine/engine.py:453-473 | Without rounding SUB undoes ADD and DIV undoes MUL |
| VelatoLaws.ModLaw | services/velato-engine/engine.py:474-478 | MOD differs from the dividend by a whole multiple of the divisor and lies between zero and the divisor on the divisor's side |
| VelatoLaws.PowLaw | services/velato-engine/engine.py:479-484 | POW raises the deeper cell to the top one and fails exactly when that power does |
| VelatoLaws.ClampLaw | services/velato-engine/engine.py:507-511 | CLAMP gives the point of the interval nearest the value and fails on an empty interval |
| VelatoLaws.ChoiceLaws | services/velato-engine/engine.py:512-519 | BETWEEN tells whether CLAMP would leave the value alone; SELECT takes the second operand exactly when the first is non-zero |
| VelatoLaws.RegisterLaws | services/velato-engine/engine.py:535-540 | A local register gives back what was stored; the other registers and everything else keep theirs |
| VelatoLaws.ReloadLaw | services/velato-engine/engine.py:545-560 | Storing an output that was just loaded changes nothing while the outputs are in range: loading then clamping and rounding is the identity |
| VelatoRewriting.AcceptedIsSafe | services/velato-engine/engine.py:345-371 | Acceptance piece by piece: a program that fits is accepted exactly when every live instruction is safe from the depth at which its piece starts |
| VelatoRewriting.RunDoesBody | services/velato-engine/engine.py:389-586 | For total finite inputs the outputs and failure of an accepted program's run are those of doing the instructions before its first HALT one after another |
| VelatoRewriting.ReplacementIsInvisible | services/velato-engine/engine.py:329-586 | If two pieces of code do the same in every state with the cells the old one demands, and the new one is no longer and stays within its depths, then putting the new one for the old one anywhere in an accepted program gives an accepted program with the same outputs or the same failure, for all inputs, limits and arithmetics |
| VelatoRules.RuleCanReplace | services/velato-engine/engine.py:451-560 | Twenty-one families of rewriting rules are such replacements: SWAP SWAP, OVER DROP, comparisons under SWAP and NOT, De Morgan, rounding, clamping or MOD twice, POW by 2 as DUP MUL, POW by 1, the root of a square as ABS, reloads, kept registers and others; those about constants, powers and roots under what they ask of the arithmetic |
| VelatoRules.RewritingIsInvisible | services/velato-engine/engine.py:329-586 | However often and wherever the rules are used on an accepted program, the result is accepted and gives the same outputs or the same failure, for all inputs |
| VelatoSafety.PerformObeysTable | services/velato-engine/engine.py:206-255 | With a valid operand and the declared number of cells, an operation changes the depth exactly as STACK_EFFECTS says or fails numerically; the outputs stay in range |
| VelatoSafety.DepthsAreExact | services/velato-engine/engine.py:428-575 | While the run lasts, the real depth before each instruction is the static depth and the real peak is the static peak |
| VelatoSafety.AnalyzerIsSound | services/velato-engine/engine.py:329-586 | For every accepted program and total finite inputs the run completes with exactly the analysed count and peak, the outputs in 0..100, 0..9 and 0..255 and every traced depth static, or it fails numerically: no underflow, overflow, bad operand or missing input |
| VelatoSafety.InputNonInterference | services/velato-engine/engine.py:361-363 | Two total finite input maps that agree on required_inputs give the same result, trace and failure |
| VelatoSafety.UnlistedKept | services/velato-engine/engine.py:361-385 | An output that is not in outputs_written, and a register that is not in local_registers, are zero throughout every run |
| VelatoSafety.OperandsAreExact | services/velato-engine/engine.py:315-326 | Validation is exact: an operand is valid if and only if the machine, given cells and inputs, does not stumble over it; opcodes without a use for one allow none |
| VelatoSafety.TraceShowsTops | services/velato-engine/engine.py:562-571 | Each trace entry shows the top cell the machine had after that instruction, or none on an empty stack |
| VelatoSafety.CodeAfterHaltIsInert | services/velato-engine/engine.py:349-351 | Replacing whatever follows the first HALT, within the instruction limit, changes neither result nor failure |
| VelatoNotes.EncodingInvertsBanks | services/velato-engine/engine.py:132-195 | OP_ENCODING inverts INSTRUCTION_BANKS: an opcode sits at exactly the place it encodes to |
| VelatoNotes.CompileNotes | services/velato-engine/engine.py:297-312 | The note loop decodes up to the first HALT, appends one when missing and returns the program or the first error |
| VelatoNotes.DecodeFailsExactly | services/velato-engine/engine.py:282-306 | A note is refused exactly for a channel outside 0..3, an input velocity outside 1..10 or a register velocity outside 1..16, each with its own error |
| VelatoNotes.TransposingKeepsPrograms | services/velato-engine/engine.py:297-312 | Transposing a tune, root and all, or moving any of its notes by octaves, gives the same program or error |
| VelatoNotes.ParseMidi | services/velato-engine/engine.py:258-279 | The byte limit comes first; then the loop over tracks and messages collects the sounding notes, refusing SysEx, more than 1024 notes and fewer than two, in the order the code checks |
| VelatoNotes.EncodeMidi | services/velato-engine/engine.py:712-737 | The encoder loop emits the root and one note pair per instruction, or the first error |
| VelatoRoundTrip.EncodesExactly | services/velato-engine/engine.py:693-722 | Encoding succeeds exactly on accepted programs with encodable operands, a root in 0..116 and positive timing |
| VelatoRoundTrip.NoteRoundTrip | services/velato-engine/engine.py:258-312 | Compiling the encoded notes, in a file within the byte limit, gives the program cut after its first HALT and sealed, the same for every root, unless 512 instructions without HALT leave no room; then the instruction limit is the error |
| VelatoRoundTrip.SealedCutIsAccepted | services/velato-engine/engine.py:309-311 | The cut and sealed program is accepted again unless the added HALT is one too many |
| VelatoRoundTrip.MessagesInRange | services/velato-engine/engine.py:727-734 | All channels, notes and velocities written, those of the root included, are legal, with velocities in 1..127 for sounding notes |
| VelatoAssembly.Decompile | services/velato-engine/engine.py:637-643 | The loop prints one commented line per instruction, joined by line breaks |
| VelatoAssembly.PrintedLine | services/velato-engine/engine.py:637-642 | A printed line counts its instruction in at least three digits, names it with its operand, and its comment tells the place in the instruction banks where the opcode sits |
| VelatoAssembly.ParseAssembly | services/velato-engine/engine.py:649-690 | The loop over lines returns the parsed and sealed program, or the first error with its line |
| VelatoNames.OpNamedInverts | services/velato-engine/engine.py:41-96 | Every opcode is found by its name and by no other text |
| VelatoAssembly.OperandIsFirstMatch | services/velato-engine/engine.py:646 | What is captured after the opcode is the first match of the regular expression in backtracking order, and the line is refused exactly when there is none |
| VelatoAssembly.OperandLineRoundTrip | services/velato-engine/engine.py:637-686 | A line with an operand is read back, with or without the comment |
| VelatoAssembly.PlainLineRoundTrip | services/velato-engine/engine.py:642-685 | A line without operand is read back bare; behind it the decompiler's two blanks and comment are taken for an operand and refused |
| VelatoAssembly.TextRoundTrip | services/velato-engine/engine.py:637-690 | Parsing the printed lines without comments gives the same program, integral constants as integers, a HALT added only when the last instruction is none; it fails exactly when the source exceeds 128000 bytes or the result 512 instructions |
| VelatoAssembly.DecompiledParsesExactly | services/velato-engine/engine.py:637-690 | The decompiler's own output parses again if and only if it is within the byte limit, every instruction carries an operand and there is room for the missing HALT |
| PythonText.LinesRoundTrip | services/velato-engine/engine.py:643-653 | Splitting joined lines gives the lines back |
| PythonText.EncodedReadsBack | services/velato-engine/engine.py:650 | The bytes the size limit counts are the text's UTF-8: RFC 3629's decoding reads them back character by character |
| VelatoLibrary.DoesBoth | services/velato-engine/standard_library.py:23-25 | Fragments compose: the second runs on what the first left, and their peaks combine |
| VelatoLibrary.SumRuns | services/velato-engine/standard_library.py:130-144 | The generated sum pushes the weighted sum of the named inputs, three cells at most, and touches nothing else, for any number of terms |
| VelatoLibrary.AverageRuns | services/velato-engine/standard_library.py:147-154 | The generated average pushes that sum over the total weight |
| VelatoLibrary.BandsRun | services/velato-engine/standard_library.py:206-246 | The severity macro replaces a score by its band, with three cells above it, for ordered thresholds |
| VelatoPolicy.PolicyBuilder.Emit | services/velato-engine/standard_library.py:19-21 | Appends one instruction |
| VelatoPolicy.PolicyBuilder.Extend | services/velato-engine/standard_library.py:23-25 | Appends the instructions in order |
| VelatoPolicy.PolicyBuilder.Normalize | services/velato-engine/standard_library.py:65-70 | Appends the rescaling code, or refuses an empty interval and appends nothing |
| VelatoPolicy.PolicyBuilder.Build | services/velato-engine/standard_library.py:117-127 | Returns the sealed instructions if analysis accepts them and, when asked, all four outputs are written |
| VelatoPolicy.NormalizeRuns | services/velato-engine/standard_library.py:65-70 | The clamped rescaling lands in 0..1, is 0 below, 1 above and linear inside the interval |
| VelatoPolicy.EmitWeightedSum | services/velato-engine/standard_library.py:130-144 | The builder loop emits the code the sum theorem is about |
| VelatoPolicy.EmitWeightedAverage | services/velato-engine/standard_library.py:147-154 | The total is summed in a loop, empty terms and zero totals refused |
| VelatoPolicy.StandardAlertPolicy | services/velato-engine/standard_library.py:262-279 | The builder calls produce the standard policy or the first error |
| VelatoPolicy.ClosedFragmentRuns | services/velato-engine/standard_library.py:117-127 | A fragment closed by HALT, run under any limits, is refused with the instruction limit when it is too long, else with the stack limit when its peak is too high, and otherwise returns what the fragment computes, with its peak and length |
| VelatoPolicy.BuildsExactlyWhenItFits | services/velato-engine/standard_library.py:262-279 | For all arguments: building succeeds exactly when the scale is positive, there are terms of non-zero total weight, 4n + 36 is at most 512, every name is an input and the route is convertible; the error otherwise is the first of these that fails, and a built policy leaves an empty stack |
| VelatoPolicy.StandardPolicyIsCorrect | services/velato-engine/standard_library.py:262-279 | Whenever it builds, for all inputs: score is the clamped rounded scaled average, severity 1 to 4 parted at 40, 65 and 85, suppressed exactly below the threshold, the default route clamped, a peak of five cells and 4n + 36 instructions |
| VelatoConditions.AllConditions | services/velato-engine/standard_library.py:157-165 | The loop joins the fragments with AND; none gives the constant 1 |
| VelatoConditions.AnyCondition | services/velato-engine/standard_library.py:168-176 | The loop joins the fragments with OR; none gives the constant 0 |
| VelatoConditions.AllConditionsCompose | services/velato-engine/standard_library.py:157-165 | If each fragment pushes one value and leaves the rest alone, so does the conjunction, truthy exactly when all are, at most one cell above the worst fragment |
| VelatoConditions.AnyConditionComposes | services/velato-engine/standard_library.py:168-176 | The same for the disjunction, truthy exactly when some fragment is |
| VelatoConditions.AtLeastYields | services/velato-engine/standard_library.py:179-184 | input_at_least is such a fragment and tells whether the input reaches the threshold |
| VelatoConditions.AtMostYields | services/velato-engine/standard_library.py:187-192 | input_at_most is such a fragment and tells whether the input stays at or below it |
| VelatoConditions.BetweenYields | services/velato-engine/standard_library.py:195-203 | input_between is such a fragment and tells whether the input lies within the bounds |
| VelatoConditions.RouteWhenRuns | services/velato-engine/standard_library.py:249-255 | route_when stores the clamped route the condition selects and restores the stack |
| VelatoConditions.SuppressWhenRuns | services/velato-engine/standard_library.py:258-259 | suppress_when stores the condition's truth and restores the stack |
| VelatoSource.SourceRoundTrip | apps/web/src/velatoShowcase.ts:188-203 | Reading a written source gives its instructions, whatever indentation, blank lines and comments surround them |
| VelatoSource.SourceReachesTheEngine | apps/web/src/velatoShowcase.ts:188-311 | What the engine makes of the bytes the browser wrote for a source text is what it makes of that text's instructions: their program, or its first refusal |
| VelatoShowcase.VelocitiesAgree | apps/web/src/velatoShowcase.ts:205-229 | The browser's velocities are the engine's, and it refuses exactly what the engine cannot encode |
| VelatoShowcase.TablesAgree | apps/web/src/velatoShowcase.ts:8-59 | The browser's own tables are the engine's: the same name at each of the 48 places, the same inputs in order |
| VelatoShowcase.EncodeVelatoMidi | apps/web/src/velatoShowcase.ts:284-311 | The track is pushed together line by line, looking opcodes up in the browser's own table, and wrapped in header and track chunks, or the first bad operand is the error |
| VelatoShowcase.BytesReadBack | apps/web/src/velatoShowcase.ts:284-311 | Read by Standard MIDI Files 1.0 the bytes are a file of format 0 with 480 ticks a quarter note and one track: the tempo in 24 bits, exactly the messages the engine writes, and the end of the track, the length field being the real one, if and only if every note byte is below 128 |
| VelatoShowcase.CrossLanguageRoundTrip | apps/web/src/velatoShowcase.ts:240-311 | For every program the browser writes: the engine refuses the bytes for their number, for a note byte of 128 and more, or for the number of notes, in this order, and otherwise makes of them exactly the sealed program of the instructions cut after the first HALT, or its analyzer's error |
| VariableLength.Encode | apps/web/src/velatoShowcase.ts:257-270 | When ToInt32 of the value is in 0..2^28-1 the two shifting loops return its variable-length quantity |
| VariableLength.VlqRoundTrip | apps/web/src/velatoShowcase.ts:257-270 | The standard's decoding gives the value back, whatever bytes follow |
| VariableLength.TerminatesExactly | apps/web/src/velatoShowcase.ts:257-270 | For every integer: the loops terminate if and only if ToInt32 of it lies in 0..2^28-1, and then they return the quantity of that |
| MerzatoRuntime.RestrictedMerzatoVM.PushOnto | apps/web/src/merzatoStudio.ts:159-171 | A push checks the depth, then the string length, and changes only the stack |
| MerzatoRuntime.RestrictedMerzatoVM.PopOff | apps/web/src/merzatoStudio.ts:173-176 | The top value, or an underflow |
| MerzatoRuntime.RestrictedMerzatoVM.StepOnce | apps/web/src/merzatoStudio.ts:242-313 | One step in place has the effect or the error of the pure step |
| MerzatoRuntime.RestrictedMerzatoVM.Run | apps/web/src/merzatoStudio.ts:315-333 | The run loop ends in the state, step count or error of the pure run |
| MerzatoSafety.StepKeepsSound | apps/web/src/merzatoStudio.ts:242-313 | Every step from a sound state ends in a sound state or throws |
| MerzatoSafety.ReachableIsSound | apps/web/src/merzatoStudio.ts:135-334 | In every reachable state the program counter and return addresses lie in 0..n, sixteen registers exist, and stack, call stack, heap and all stored strings are within their limits |
| MerzatoSafety.RunsEnd | apps/web/src/merzatoStudio.ts:315-333 | Every run ends within maxSteps steps in a report of a halted reachable state or in an error |
| MerzatoSafety.LimitsAreMonotone | apps/web/src/merzatoStudio.ts:159-171 | For limits L at most L' the run under L is the run under L', state, steps and error included, or stops with RESOURCE_LIMIT |
| MerzatoSafety.RaisingLimitsKeepsResults | apps/web/src/merzatoStudio.ts:315-333 | Raising limits never changes a finished result nor an error no limit caused |
| MerzatoSafety.ModuloLaws | apps/web/src/merzatoStudio.ts:270-274 | MOD is non-negative, below the divisor's magnitude and congruent to the dividend, for all signs |
| MerzatoSafety.TruncatedDivision | apps/web/src/merzatoStudio.ts:266-269 | DIV truncates toward zero: the remainder has the dividend's sign |
| MerzatoSafety.IntegersSurviveText | apps/web/src/merzatoStudio.ts:183-188 | An integer made text by TOSTR converts back to itself |
| MerzatoLaws.ReturnUndoesCall | apps/web/src/merzatoStudio.ts:292-299 | RET goes to the instruction after the CALL and restores the call stack |
| MerzatoLaws.SubUndoesAdd | apps/web/src/merzatoStudio.ts:263-264 | SUB behind ADD leaves the first integer, whatever values denote the two |
| MerzatoLaws.DivLaw | apps/web/src/merzatoStudio.ts:266-269 | An executed DIV leaves the quotient whose remainder is smaller than the divisor and has the dividend's sign, and throws exactly on a zero divisor |
| MerzatoLaws.ModLaw | apps/web/src/merzatoStudio.ts:270-274 | An executed MOD leaves the number between zero and the divisor's magnitude congruent to the dividend, and throws exactly on a zero divisor |
| MerzatoLaws.GreaterLaw | apps/web/src/merzatoStudio.ts:276 | An executed CMPGT leaves 1 if the lower value denotes the greater integer, and 0 otherwise |
| MerzatoLaws.OperandFaults | apps/web/src/merzatoStudio.ts:173-214 | Arithmetic on too few or non-integer values throws by the right operand first: underflow where one is missing, a type error where one is no integer |
| MerzatoLaws.BranchesAgree | apps/web/src/merzatoStudio.ts:190-291 | NOT, JZ and JNZ agree on which values are zero: NOT leaves 1, JZ jumps and JNZ does not, or the other way round |
| MerzatoExpressions.ExpressionRuns | apps/web/src/merzatoStudio.ts:242-313 | Wherever the postfix code of an expression over ADD, SUB, MUL, DIV, MOD, CMPGT, NOT, JZ and JNZ stands, the machine runs it to the expression's value in arithmetic on top of the stack, in at most one step an instruction, or to a division by zero exactly when it has none |
| MerzatoExpressions.ProgramPrints | apps/web/src/merzatoStudio.ts:242-333 | A program that evaluates any expression and prints it ends, given the room, with a text that denotes its value, or in a division by zero exactly when it has none |
| MerzatoLaws.ToStrLaw | apps/web/src/merzatoStudio.ts:300 | TOSTR leaves a text with the value's rendering, which denotes the same integer when the value is one |
| MerzatoLaws.OutNLaw | apps/web/src/merzatoStudio.ts:307 | OUTN writes a text that denotes the integer, without a plus sign |
| MerzatoLaws.OutCLaw | apps/web/src/merzatoStudio.ts:220-227 | OUTC writes one code unit or the surrogate pair that denotes the code point, and throws on numbers that are none |
| MerzatoLaws.RegistersReadBack | apps/web/src/merzatoStudio.ts:277-278 | LOAD behind STORE gives what was stored; other registers, and everything else, keep theirs |
| MerzatoLaws.HeapReadsBack | apps/web/src/merzatoStudio.ts:279-288 | HLOAD behind HSTORE gives what was stored under the same integer address, zero for null or undefined; other addresses keep theirs |
| MerzatoLaws.FullHeapRefusesExactly | apps/web/src/merzatoStudio.ts:280-288 | HSTORE throws on a full heap exactly for new addresses |
| MerzatoLaws.SwapLaw | apps/web/src/merzatoStudio.ts:256-262 | SWAP exchanges the top two values |
| MerzatoLaws.DupLaw | apps/web/src/merzatoStudio.ts:254-255 | DUP copies the top value and POP behind it undoes that |
| MerzatoLaws.ConcatLaw | apps/web/src/merzatoStudio.ts:301-306 | CONCAT joins the renderings in stack order and fails exactly when the result is too long |
| GraphModel.ProjectStaysInTenant | services/graph-projector/worker.py:95-166 | Whatever the payload says, an event changes only nodes and edges of its envelope's tenant, writes that tenant into its properties, and does nothing when the tenant is no text or blank |
| GraphModel.ProjectKeepsTenantClosed | services/graph-projector/worker.py:95-166 | Every statement keeps: each edge joins two existing nodes of one tenant |
| GraphModel.ReachableIsTenantClosed | services/graph-projector/worker.py:95-166 | So every graph reached from the empty one has it |
| GraphModel.TakedownMarksExactly | services/graph-projector/worker.py:105-120 | A takedown gives the source its properties and status, marks exactly the nodes then linked to it by PUBLISHED, all of its tenant, and changes nothing else: no other property, node or edge, and nothing when the source is not there |
| GraphModel.MarksSurviveRuns | services/graph-projector/worker.py:129-142 | No run of events whose properties name no takedown status clears, changes or adds a mark |
| GraphDelivery.ProjectCell | services/graph-projector/worker.py:129-166 | What an upsert or link leaves in a property: its own value, null removing it, or what was there |
| GraphDelivery.ProjectFact | services/graph-projector/worker.py:129-166 | Which nodes, labels and edges it establishes; none is ever lost |
| GraphDelivery.CleanPassMeans | services/graph-projector/worker.py:95-166 | After one in-order pass a property holds its last write, and a node, label or edge exists exactly when some event established it |
| GraphDelivery.DeliveryConverges | services/graph-projector/worker.py:195-241 | For messages of which writers of one property share a key, every delivery in partition order, with interleavings, crashes, restarts and replays, that has read all partitions to the end leaves the graph of one in-order pass |
| GraphBuilders.EmitsProper | services/nlp-pipeline/worker.py:105-167 | Every mutation the four builders publish travels under the key its target determines, is no takedown and names neither takedown status nor stable id (its values: GraphRecords.CleanPassRecords) |
| GraphPipeline.WritersShareTheirKey | services/entity-resolution/worker.py:105-121 | Two published mutations that write the same property of the same node or edge have the same message key |
| GraphBuilders.AcceptedExactlyWhenIdentified | services/graph-projector/worker.py:64-166 | The projector accepts all mutations of a job if and only if tenant and ids are non-blank and the entity types are known |
| GraphPipeline.PipelineConverges | services/graph-projector/worker.py:195-241 | So every mix of the pipeline's mutations, delivered at least once in key order, converges to one clean pass |
| GraphPipeline.PipelineKeepsMarks | services/claim-intelligence/worker.py:58-112 | Nothing the pipeline publishes after a takedown changes a mark |
| GraphPipeline.CleanPassTraces | services/entity-resolution/worker.py:131-168 | Every delivered job leaves its nodes labelled by kind, its article linked to source and document, its entities and claims to article and evidence, and its relation under the predicate's own type |
| GraphRecords.CleanPassRecords | services/nlp-pipeline/worker.py:93-165 | For every job a table of cells: each of its mutations writes exactly the listed properties of the listed node or edge, and each holds the payload's field of that name, null meaning none, as long as no later message writes it |
| GraphRecords.DeliveryRecords | services/graph-projector/worker.py:195-241 | The same in the graph of every complete at-least-once delivery, for all four builders |
| GraphPipeline.TakedownReachesEveryArticle | services/nlp-pipeline/worker.py:147-156 | Once all is delivered, taking down a source marks every article published from it |
| GraphUniqueness.PassGoesThroughExactly | graph/migrations/001_constraints.cypher:1 | With a database that refuses a second node of one stable id, a pass goes through if and only if no id is needed for two tenants, and then it leaves the graph of the unconstrained pass |
| GraphUniqueness.DeliveryIsNeverRefused | graph/migrations/001_constraints.cypher:1 | Under that condition no message is refused at any point of any delivery, replays and interleavings included |
| GraphUniqueness.UnknownSourcesCollide | services/nlp-pipeline/worker.py:139-153 | Two documents of different tenants that name no source need one id, so no pass over both goes through |
| AtLeastOnce.CommitIsSafe | services/internal/kafkautil/consumer.go:93-121 | In every run with failures, crashes, rebalances and restarts each offset below the committed one was processed with success or has a confirmed dead letter; without a dead-letter topic nothing is buried |
| AtLeastOnce.NothingAfterFailure | services/internal/kafkautil/consumer.go:107-117 | After a failure that stops the claim nothing is processed, buried or marked before a restart |
| AtLeastOnce.UnsettledHoldsTheCommit | services/python_common/poison_message.py:189-199 | Neither mark nor commit passes an offset that never succeeded and was never buried |
| AtLeastOnce.SettledHappened | services/internal/kafkautil/consumer.go:102-118 | An offset counts as settled exactly when its success or its confirmed dead letter is in the run |
| AtLeastOnce.LivesFollowOneAnother | services/internal/kafkautil/consumer.go:231-235 | A claim that starts at the committed offset after a restart continues the run, whatever happened before |
| KafkaConsumer.WrappingKeepsTheClass | services/internal/kafkautil/consumer.go:47-52 | Wrapping neither makes nor hides a permanent failure |
| KafkaConsumer.RootCause | services/internal/kafkautil/consumer.go:187-198 | The loop ends at the innermost error of the chain |
| KafkaConsumer.Session.MarkMessage | services/internal/kafkautil/consumer.go:104 | A mark moves forward to the offset after the message, never back |
| KafkaConsumer.Publish | services/internal/kafkautil/consumer.go:123-130 | A dead letter is confirmed exactly when there is a producer and it reports no error |
| KafkaConsumer.ConsumeClaim | services/internal/kafkautil/consumer.go:93-121 | The loop is a run of the protocol; it marks exactly the messages before the first it cannot get past and says why it ended, with the handler's own error or the publishing error in its chain |
| PoisonMessage.PublishToDlq | services/python_common/poison_message.py:132-167 | Returns without raising if and only if the broker acknowledged the dead letter and nothing is left undelivered; otherwise raises what produce raised, a timeout, or the broker's report, in this order |
| PoisonMessage.HandleMessage | services/python_common/poison_message.py:170-215 | A run of the protocol that commits the offset exactly when the message succeeded or was buried with confirmation; which error it raises is said for every case, and on a transient one nothing else happens |
| PoisonMessage.PollLoop | services/graph-projector/worker.py:272-285 | The worker loop ends early exactly at the first transport error or raising message, with every earlier message committed |
| Outbox.Publisher.ClaimPendingEvents | apps/control-plane/app/services/outbox/publisher.rb:32-41 | Claims the oldest available rows, at most 100, in order of age, and counts the attempt on exactly those |
| Outbox.Publisher.DeliverMessages | apps/control-plane/app/services/outbox/publisher.rb:12-15 | The broker takes the acknowledged rows in order; the table is untouched |
| Outbox.Publisher.PublishBatch | apps/control-plane/app/services/outbox/publisher.rb:9-28 | A run of the protocol: on success exactly the batch is delivered and published; on an error nothing is published, the attempt is counted again and the message kept, shortened to 2000 characters |
| Outbox.OutboxIsSafe | apps/control-plane/app/services/outbox/publisher.rb:9-41 | Under every interleaving of publishers, partial deliveries, failures and crashes a published row was delivered and a row the broker never took is still pending |
| Outbox.RowsOnlyGrow | apps/control-plane/app/services/outbox/publisher.rb:16-22 | No step removes a row or clears published_at; only a publisher that sent the row sets it |
| Outbox.ErrorsFollowTheLatestEnd | apps/control-plane/app/services/outbox/publisher.rb:16-22 | In every run a row's last_error is the message of the latest orderly end of a claim on it if that failed, and nothing if it was confirmed or none has ended |
| Outbox.AttemptsCountTries | apps/control-plane/app/services/outbox/publisher.rb:19-38 | publish_attempts is the number of claims plus the number of orderly failures of claims on the row |
| OutboxDelivery.DeliverableExactly | apps/control-plane/app/services/outbox/publisher.rb:9-41 | In every world with an idle publisher: some continuation delivers the row next if and only if it is unpublished or in a live claim's batch |
| OutboxDelivery.NeverAgain | apps/control-plane/app/services/outbox/publisher.rb:9-41 | A published row that no live claim holds is never delivered again, nor made deliverable, by any run |
| OutboxDelivery.OverlapDeliversTwice | apps/control-plane/app/services/outbox/publisher.rb:32-41 | From every world, any two idle publishers that claim one pending row before either confirms both deliver it |
| OutboxDelivery.CarefulRunsDeliverOnce | apps/control-plane/app/services/outbox/publisher.rb:9-41 | A run whose claims take no row that is held or was ever taken by the broker, and whose claims send each row once, delivers every row at most once |
| OutboxDelivery.CarefulExactly | apps/control-plane/app/services/outbox/publisher.rb:9-41 | In such a run a step breaks this if and only if the claims it leaves can then deliver a row twice by sending each row once |
| OutboxDelivery.CallsPublishTheOldest | apps/control-plane/app/services/outbox/publisher.rb:3-41 | One publisher without failures: k calls extend the broker's topic by exactly the oldest 100k pending rows, or all of them, each once and in order of age, and publish those and nothing else |
| RealtimeBroker.DeliveryToALiveSubscriber | services/realtime-gateway/main.go:44-80 | For every live subscriber in every run: received followed by queued is an ordered part of its tenant's publishes since it subscribed; received, queued and dropped add up to what was offered, and to what was published when no publish is under way; at most 64 are queued; each worker's publishes arrive in its order; no tenant keeps an empty map |
| RealtimeBroker.IdsAreReusedExactlyOnWrap | services/realtime-gateway/main.go:44-54 | Two subscriptions of a run get the same id exactly when a multiple of 2^64 subscriptions lies between them |
| RealtimeBroker.Broker.Subscribe | services/realtime-gateway/main.go:44-54 | A fresh id and an empty channel under the tenant |
| RealtimeBroker.Broker.Unsubscribe | services/realtime-gateway/main.go:56-65 | Exactly this subscriber goes, and the tenant's map with the last one |
| RealtimeBroker.Broker.Publish | services/realtime-gateway/main.go:67-80 | A run of the offering steps in whatever order the map yields: each channel of the tenant takes the payload or is full, and the result counts the full ones |
| MentionSelection.SortSorts | services/nlp-pipeline/app.py:155 | The sort orders by start, then length, then confidence, and keeps the candidates |
| MentionSelection.ExtractMentions | services/nlp-pipeline/app.py:143-172 | The mentions are those of the candidates chosen exactly when no chosen one of higher priority overlaps, in order; each carries its candidate's type, confidence, span and stripped text, and evidence naming the document, the span and the hash of its text; the spans are disjoint and strictly increasing |
| MentionSelection.ChoiceIsUnique | services/nlp-pipeline/app.py:156-161 | Only one choice of candidates has that property |
| MentionSelection.ChosenAreDisjoint | services/nlp-pipeline/app.py:158-161 | A chosen span ends at or before the start of every later one |
| MentionSelection.PriorityWins | services/nlp-pipeline/app.py:155-161 | No candidate that starts where a chosen one starts is longer, and none with its span is more confident |
| MentionSelection.SortIsStable | services/nlp-pipeline/app.py:155 | Candidates with equal keys stay in the order in which the patterns found them |
| MentionSelection.LastSpanDecides | services/nlp-pipeline/app.py:159 | Testing the last accepted span gives the answer of the scan over all |
| MentionSelection.AnyHit | services/nlp-pipeline/app.py:159 | The scan finds a hit if and only if there is one |
| MentionSelection.MentionIdsAreDistinct | services/nlp-pipeline/app.py:111-120 | Mentions at different starts have different ids, so a lookup by id finds the mention itself |
| MentionSelection.ExtractRelations | services/nlp-pipeline/app.py:192-230 | One relation for each sentence that names a predicate and holds two mentions, joining its two leftmost, in order of the sentences, with the sentence as evidence and an id hashed from subject, predicate, object and span |
| MentionSelection.SubjectBeforeObject | services/nlp-pipeline/app.py:215 | Subject and object are different mentions inside the sentence, the subject wholly before the object |
| SpeechChunks.SplitSpeechIntoChunks | apps/web/src/merzSpeech.ts:117-163 | Refuses exactly limits below 80; otherwise the words of the chunks are the words of the sentences in order, no chunk is empty, a chunk over the limit is one word, words are parted by single blanks, and the chunks spell the visible text after its leading stops |
| SpeechChunks.Pack | apps/web/src/merzSpeech.ts:131-162 | The packing loop has these properties for any sentence list, and without over-long sentences no two neighbouring chunks would fit into one |
| SpeechChunks.PackWords | apps/web/src/merzSpeech.ts:137-148 | The inner loop appends the words of an over-long sentence, in order and greedily, behind the chunks there are |
| SpeechChunks.MatchesCover | apps/web/src/merzSpeech.ts:122-125 | The sentence expression covers all of the text but the stops it starts with |
| SpeechChunks.MatchesAreSentences | apps/web/src/merzSpeech.ts:122-125 | Each match is a clause without stops followed by stops, which only the last may lack; with MatchesCover that leaves one way to cut a text |
| SpeechChunks.NothingLostExactly | apps/web/src/merzSpeech.ts:122-127 | Nothing visible is lost if and only if the text does not start with a stop |

## Left out

Velato:
- IEEE rounding, `pow` and `sqrt` are parameters of the machine. The stack, limit and failure theorems hold for all of them; theorems about computed values of macros assume arithmetic without rounding. Weights, thresholds and scales are reals; negative zero and boolean arguments are not distinguished.
- `OverflowError` from converting a huge integer is one of the ordinary faults here, not a different exception type; error message texts are not modelled.
- JSON, SHA-256 and the trace hash: the trace itself is kept as data. `required_inputs` and `local_registers` are sets, not sorted lists. mido's file format is not modelled: notes are message lists, and only the bytes the browser writes are; the length of a file that mido wrote is a parameter.
- `default_policy_ir`, `serialize_ir`, `deserialize_ir`, `capabilities` and the remaining one-line builder macros would add only easy members.
- VelatoAssembly.TextRoundTrip: number syntax (`int`, `float`, the text of a float) is a parameter; the round trip is stated for constants that Python prints and reads back unchanged. Index digits are the ASCII ones.
- VelatoShowcase.EncodeVelatoMidi: JavaScript's `Number` is a parameter, and the tempo enters as the rounded number of microseconds per beat.
- VelatoShowcase.BytesReadBack: files of 4 GiB and more, whose length field wraps, are excluded; the engine refuses them by its byte limit before reading (`VelatoShowcase.CrossLanguageRoundTrip` covers them).
- Playback note names, frequencies, durations and accents do not reach the file.

Merzato:
- The assembler is not part of this model: programs are given assembled. Phrase normalisation is a parameter, and `number` values carry their rendering and their safe integer value.
- MerzatoRuntime.RestrictedMerzatoVM.Run: the partial state an exception leaves behind is not described, since nothing reads it; error messages are reduced to code, position and line.
- The SVG artwork compiler and the three German policy programs.

Graph:
- Cypher is reduced to the three fixed statement shapes. Properties that name `stable_id` would re-key a node in the database; the builders never write it (proved), and the model ignores it.
- GraphUniqueness.PassGoesThroughExactly: after a refused statement the pass is over; how the projector then retries or buries the message is that of `PoisonMessage.HandleMessage` and not combined with it.
- GraphDelivery.DeliveryConverges: takedowns are excluded, because their effect depends on the edges present when they run.
- Ids and text fields that enter the builders are strings; a worker that meets a field of another type raises before it publishes. Entity resolution's slugs and hashes are inputs.
- The projector's `handle_one_message` is `PoisonMessage.HandleMessage` with `GraphModel.Project` as its processing; how it picks the dead letter's key is not modelled.
- Completion events and the unchecked final flush of the workers, so nothing is claimed about downstream events.

Delivery:
- The contents of dead letters (base64, metadata), broker and session configuration, and gaps in offsets: a message is its position in the partition.
- Joined Go errors (`errors.Join`) and nil `*PermanentError` values.
- A worker's process that reads several partitions is a set of runs of this protocol, one per partition; that a crash restarts all of them together is not used.
- The envelope of an outbox event and its Kafka topic and key: the broker's topic holds row ids. Outbox times are reduced to creation order and whether `published_at` is set; which of several rows of one age a limit cuts off is left open.

Loops:
- RealtimeBroker.DeliveryToALiveSubscriber: runs of 2^64 subscriptions and more are excluded, since ids then repeat. Fairness of locks, SSE framing and authorisation are not modelled.
- MentionSelection.ExtractMentions: the regular expressions and their matches are inputs, of which only non-emptiness and lying in the text are used; likewise sentence spans and keyword tests of relations, and SHA-256. Claims, topics, stance and the hash embedding are not modelled.
- SpeechChunks.SplitSpeechIntoChunks: non-integer limits, and characters outside the Basic Multilingual Plane. Translating statements into speech is not modelled.

Everything else in the repository (Rails, React, infrastructure) is outside the model.

# Verified model of mrklkit

mrklkit is a toolkit for a Lisp-like language that queries delimited text: a tokenizer and printer for its forms, an
interned type system, type resolution, a code generator that emits basic blocks with phis, a lazy record parser and a
reference-counted runtime. This project models these parts in Dafny and proves what they are for.

Check it with `dafny verify dfyconfig.toml`.

## The parts

* **Code generation** (`ir`, `expr`, `meaning`, `typing`, `completeness`, `resolution`, `progress`, `builder`,
  `codegen`, `generator`, `simulation`, `ssa`, `dominance`, `correctness`, `whole`, `lazy`). `expr` is the language: int
  and bool literals, global references, arithmetic, comparison, `and`/`or`/`not`, `in` and `if`, with type resolution
  and direct left-to-right evaluation over a memory that logs every load and store of a global. `meaning` says in plain
  arithmetic and logic what the operations evaluate to. `typing` and `completeness` say that what resolves has a value
  of its type, and that resolution refuses only what could go wrong; generation refuses arithmetic on bools besides.
  `ir` is a small machine: blocks, terminators, phis, calls of initialisers, 64-bit wrapping arithmetic, step by step.
  `generator` holds the compiler as methods of a builder object with an insertion block; `codegen` says as functions
  what those methods produce, and `resolution` walks expression objects and fills in their types in place. The main
  results are that the emitted graph computes what direct evaluation computes, event by event
  (`WholePrograms.CompilerCorrect`), and gets stuck only in the one overflowing division (`WholePrograms.StuckExactly`),
  that it is well formed, down to every register being defined on every path to its uses
  (`WholePrograms.BodyWellFormed`), and that lazy globals are call-by-need (`LazyGlobals.CallByNeed`,
  `LazyGlobals.CompiledCallByNeed`).
* **Delimited text** (`scanning`, `integers`, `quoted`, `ascii`, `collections`, `collection_writing`, `record`,
  `record_writing`, `lazy_record`, `lines`, `strsplit`). `record` defines the one left-to-right scan of a record and
  proves that it is splitting; `lazy_record` is the parser object that scans on demand and caches, proved to return what
  the one scan assigns for any sequence of reads. Where integers cannot be told from the delimiters around them, fields
  do not mean their pieces; `Records.AlwaysMeansExactly` says exactly where. What is written is read back:
  `RecordWriting.RecordRoundTrip` for records and `CollectionWriting.AlwaysReadsBackExactly` for dictionaries, with the
  exact keys and delimiters. `lines` reads lines in chunks of any size from a file or a compressed stream.
* **Forms** (`forms`, `tokenizer`, `printing`, `dumper`, `strings`, `literals`, `lexing`, `reformat`). `forms` is the
  lexer as a function of the text, `tokenizer` the machine that builds linked data from chunks, `printing` the meaning
  of the printer, `dumper` the printer. Printing and parsing are inverse; exactly which strings and forms come back is
  stated. `literals` and `lexing` cover what is never printed: escapes, signs, comments, gaps and stray backslashes.
* **Types** (`shapes`, `interning`). Hash-consing over linked type objects with any hash function, and the round trip
  from a type through its printed form and the tokenizer back to the same object.
* **Reference counts** (`refcount`). Counts, dangling references and leaks over a memory of cells.
* **Field reordering** (`reorder`).

`basics` holds what several parts share.

Conventions. A method that changes state is tied to a function of its inputs or of the old state, and the claims are
proved about that function. The unseen mrkcommon library is taken as follows: an array is a growable sequence, a hash is
a table of buckets with a comparator, a byte stream has a position and an end, a read appends any nonempty chunk or
reports the end of the data, recycling drops a consumed prefix, `array_cmp` is zero exactly for equally long arrays with
equal elements, `array_index` is the position in the array and nonzero for an element of another array, and
`bytestream_nprintf` writes at most one character less than its limit.

## Model

| member | source | states |
|---|---|---|
| IR.DivisionExactly | src/builtingen.c:1639-1824 | the two division instructions divide towards zero: quotient and remainder recombine to the dividend, the remainder is smaller than the divisor and has the sign of the dividend, and nothing else does that |
| Typing.ResolveSound | src/builtin.c:193-1228 | a defined value of a resolved expression has the resolved type, and globals keep theirs |
| Meanings.SumMeans | src/builtingen.c:1485-1516 | the value of a sum is the sum of its operands wrapped to 64 bits once; without operands it is zero |
| Meanings.ProductMeans | src/builtingen.c:1706-1738 | the value of a product is the product of its operands wrapped once; without operands it is one |
| Meanings.DifferenceMeans | src/builtingen.c:1554-1595 | a difference takes the sum of all other operands from the first, wrapped once |
| Meanings.DivisionMeans | src/builtingen.c:1639-1824 | quotients and remainders are taken from left to right towards zero, a zero divisor acting as the largest integer; there is a value exactly if every quotient on the way is a 64-bit integer |
| Meanings.ExtremeMeans | src/builtingen.c:1852-2034 | the minimum and the maximum are one of the operands, and no operand is beyond it |
| Meanings.OneOperand | src/builtingen.c:1485-2034 | every arithmetic operation on one integer is that integer |
| Meanings.ComparisonMeans | src/builtingen.c:275-382 | the six comparisons are those of one total order, that of the integers and false before true |
| Meanings.LogicMeans | src/builtingen.c:2036-2112 | `and` holds if all operands evaluated do and `or` if any does, evaluation ending at the first that decides |
| Meanings.NegationMeans | src/builtingen.c:2114-2130 | `not` negates, and twice is nothing |
| Meanings.MembershipMeans | src/builtingen.c:2638-2709 | membership holds if the subject, evaluated anew for each candidate, equals one of those tried, evaluation ending at the first match |
| Meanings.ConditionalMeans | src/builtingen.c:178-271 | a conditional is the arm its condition picks, in the memory the condition leaves |
| Completeness.ResolvesExactly | src/builtin.c:215-963 | a comparison, connective, membership test or conditional whose operands resolve is accepted with a type exactly if on all values of the operands' types it has a value of that type |
| Completeness.ComparisonResolves | src/builtin.c:852-875 | a comparison resolves exactly if both operands resolve to the same type, whatever the predicate |
| Completeness.GeneratesExactly | src/builtingen.c:1485-1554 | an expression that resolves can be generated exactly if no arithmetic that would be compiled for it is on bools |
| Completeness.DeclaredExactly | src/builtin.c:1252-1268 | all lazy definitions can be compiled exactly if each resolves and has no arithmetic on bools |
| Progress.EvalProceeds | src/builtingen.c:1639-1824 | with the eager globals present, an expression that can be generated has a value exactly if its evaluation comes to no division or remainder of INT64_MIN by -1 |
| Resolution.Analyzer.RemoveUndef | src/builtin.c:193-1228 | the walk succeeds exactly if the expression resolves, sets the resolved type, leaves finished objects alone, and a second run changes nothing |
| Resolution.Analyzer.RemoveOperands | src/builtin.c:201-213 | the operands are resolved first, and all of them exactly if every operand resolves |
| Resolution.Analyzer.TypeOfNode | src/builtin.c:215-963 | the branch for each operation gives the resolved type from the operands' types, or refuses exactly when there is none |
| Resolution.Analyzer.SameTypes | src/builtin.c:300-314 | the pairwise comparison accepts exactly if all operands have the first one's type |
| Resolution.Analyzer.FormalsFit | src/builtin.c:1185-1216 | the check of formal parameters accepts exactly if every operand fits the parameter it is passed for |
| Resolution.Analyzer.Analyze | src/builtin.c:1252-1268 | all definitions resolve or none is accepted; on success every global has its resolved type, no object below is undefined, and a second run changes nothing |
| Resolution.Analyzer.NothingUndefined | src/builtin.c:1219-1227 | below a finished expression every object is finished and has the resolved type |
| Building.Build | src/builtingen.c:1485-1516 | a built instruction stays in the block in work, which stays open |
| Building.Turn | src/builtingen.c:210-238 | ending a block and moving to a waiting one changes no other block and keeps the layout |
| Building.NewAfter | src/builtingen.c:195-205 | a new block is placed once in the layout, and the entry stays first |
| Building.NewBefore | src/builtingen.c:207-208 | a new block is placed once in the layout, and the entry stays first |
| Building.Collect | src/builtingen.c:2065-2066 | the phi of the join gains exactly the value and the block it comes from |
| Generator.Builder.NewBlockBehind | src/builtingen.c:195-205 | appending when there is no next block, and inserting before the next one otherwise, both place the block behind the one in work |
| Generator.Builder.AppendBlockBehind | src/builtingen.c:2046-2051 | appending a block and moving it places it behind the one in work |
| Generator.CompileExpr | src/builtingen.c:3496-3784 | the compiler leaves the function that the specification gives, or refuses exactly the expressions that cannot be generated |
| Generator.CompileCmp | src/builtingen.c:275-382 | comparisons emit what the specification gives |
| Generator.CompileLoad | src/builtingen.c:3640-3752 | loads, with the test and call of a lazy global, emit what the specification gives |
| Generator.CompileInitCall | src/builtingen.c:3722-3733 | the call of the initialiser and the way back emit what the specification gives |
| Generator.CompileArith | src/builtingen.c:1485-2034 | the loops over operands emit what the specification gives, for all seven operations |
| Generator.CompileLogic | src/builtingen.c:2036-2112 | the short-circuit loop with its moving blocks and growing phi emits what the specification gives |
| Generator.CompileIn | src/builtingen.c:2638-2709 | the membership chain emits what the specification gives |
| Generator.CompileIf | src/builtingen.c:178-271 | the conditional with its three blocks and phi emits what the specification gives |
| Generator.CompileFunction | src/builtingen.c:3496-3784 | a whole body is the specified one |
| Generator.CompileInitialiser | src/builtingen.c:3892-4026 | the initialiser of a lazy global is the specified one |
| Ssa.ValueHere | src/builtingen.c:240-252 | an operand is a constant computed without control flow or is defined in the block the builder is left in, which is what the choice of the incoming block relies on |
| Ssa.EmitShape | src/builtingen.c:178-271 | compiling any expression keeps every new block finished or in work, every branch to an existing block, and every phi exact about its predecessors |
| Ssa.LogicShape | src/builtingen.c:2036-2112 | the phi of a short-circuit chain lists every block that can reach the join exactly once |
| Ssa.InShape | src/builtingen.c:2638-2709 | the phi of a membership chain lists every comparing block and the last one exactly once |
| Ssa.IfShape | src/builtingen.c:178-271 | the phi of a conditional lists exactly the two blocks its arms end in |
| Ssa.LoadGrown | src/builtingen.c:3672-3733 | the blocks of a lazy load are finished and reached as meant |
| Dominance.EmitScoped | src/builtingen.c:178-271 | compiling any expression adds only instructions, terminators and phi entries whose registers lie on every path to them, and what lies on every path to the block in work still does |
| WholePrograms.BodyWellFormed | src/builtingen.c:178-271 | every block of a finished function ends in one terminator to existing blocks, is laid out once, and has only phis that match its predecessors; along every path from the entry each register is defined before it is read, a phi reading at the end of the block it comes from |
| WholePrograms.InitWellFormed | src/builtingen.c:3892-4026 | the same for the initialiser of a lazy global |
| Correctness.SimExpr | src/builtingen.c:3496-3784 | from any stage, running the code emitted for an expression yields the directly evaluated value, memory and log of loads and stores, or gets stuck exactly if evaluation is undefined |
| Correctness.SimArith | src/builtingen.c:1485-2034 | running the emitted operations folds the operands left to right with 64-bit wrapping, a zero divisor acting as the largest integer |
| Correctness.SimComparison | src/builtingen.c:275-382 | running an emitted comparison orders ints as signed and false before true |
| Correctness.SimLogicFirst | src/builtingen.c:2036-2112 | running a chain evaluates operands up to the first that decides, and no further |
| Correctness.SimInFirst | src/builtingen.c:2638-2709 | running a membership test compares up to the first match, evaluating the subject anew each time |
| Correctness.SimIf | src/builtingen.c:178-271 | running a conditional evaluates the condition and only the arm it picks |
| Correctness.SimLoad | src/builtingen.c:3640-3752 | running a load of a lazy global calls its initialiser exactly if the flag is not set, then reads the stored value |
| Correctness.SimInit | src/builtingen.c:3892-4026 | running an initialiser stores the value of the definition, then sets the flag |
| WholePrograms.CompilerCorrect | src/builtingen.c:3496-3784 | a compiled program returns the value and memory of direct evaluation, or gets stuck exactly if evaluation is undefined |
| WholePrograms.SumAndProductRun | src/builtingen.c:1485-1516 | the program compiled from a sum or product returns the sum or product of the operands, wrapped once |
| WholePrograms.StuckExactly | src/builtingen.c:3496-3784 | with the eager globals present, the run returns exactly if evaluation comes to no division or remainder of INT64_MIN by -1, and is stuck otherwise |
| WholePrograms.OverflowSticks | src/builtingen.c:1639-1678 | the program compiled from INT64_MIN divided by -1 gets stuck |
| LazyGlobals.EvalIsPure | src/builtingen.c:3640-3752 | evaluation with flags gives the values of evaluation by name, whatever the flags, and keeps the memory in agreement |
| LazyGlobals.CallByNeed | src/builtingen.c:3672-3752 | over any sequence of expressions from cleared flags, each definition is stored at most once, every load gives its recursively evaluated value, and the results are those of evaluation by name |
| LazyGlobals.ClearedAgrees | src/builtingen.c:4065-4099 | clearing flags, as the finalizer does, keeps the memory in agreement |
| LazyGlobals.CompiledCallByNeed | src/builtingen.c:3892-4026 | the same for the compiled program |
| Scanning.ReachDelimPos | src/dparser.c:208-220 | the loop stops at the first delimiter or NUL |
| Scanning.ReachValuePos | src/dparser.c:224-246 | past one delimiter, or past all of them with multiple delimiters |
| Scanning.SplitJoin | src/dparser.c:207-246 | splitting loses nothing and no piece holds the delimiter |
| Integers.ParseInt64 | src/dparser.c:253-287 | the digit loop, its sums wrapping, gives the value of the text and stops behind its digits; it says whether some sum left 64 bits |
| Integers.StepFitsExactly | src/dparser.c:275-275 | below the saturation bound, no intermediate sum of a step leaves 64 bits if and only if the value so far is at most 922337203685477575 |
| Integers.LeavesExactly | src/dparser.c:267-279 | some sum leaves 64 bits if and only if the digits up to there denote a number from 9223372036854775760 to 9223372036854775799 |
| Integers.GapIsRead | src/dparser.c:267-279 | each of those forty numbers, written out, leaves 64 bits at its last digit, and is read right if that sum wraps |
| Integers.SaturatedStep | src/dparser.c:269-276 | one more digit saturates, or gives the next value even if the sum wraps |
| Integers.TextValueExact | src/dparser.c:253-287 | the value is exact if and only if the number is below 9223372036854775800 or is the largest integer; from there on it is the largest integer, and a minus sign negates |
| Integers.TextValueStops | src/dparser.c:253-287 | what stands behind the digits is ignored, a minus sign negates, and without digits the value is zero |
| Ascii.NumbersRead | src/dparser.c:253-287 | a decimal number in ASCII is read as that number, up to the saturation bound |
| Ascii.QuotesRead | src/dparser.c:503-586 | a text in ASCII double quotes with every quote in it twice is read as that text |
| Quoted.ParseQStr | src/dparser.c:528-586 | the four-state loop stops where the scan does and gives the undoubled text |
| Quoted.Unescape | src/dparser.c:503-520 | the copying loop drops one quote of every pair |
| Quoted.QuotedRoundTrip | src/dparser.c:503-586 | any text, its quotes doubled and enclosed in quotes and not followed by a quote, is read back, ending one past the closing quote |
| Quoted.AcceptedIsEnclosed | src/dparser.c:503-586 | conversely the bytes of an accepted string are exactly its text with quotes doubled and enclosed, so no quote is dropped |
| Quoted.UnopenedIsEmpty | src/dparser.c:568-581 | what does not begin with a quote is not accepted, has the empty text and stops where it began |
| Quoted.UnclosedIsEmpty | src/dparser.c:568-581 | what has no closing quote is not accepted, has the empty text and runs to the end |
| Quoted.RefusedIsUnclosed | src/dparser.c:528-586 | there is nothing else: what is not accepted does not begin with a quote or has no closing one |
| Collections.ParseStr | src/dparser.c:417-427 | the text up to the delimiter or the end of the part |
| Collections.ParseElem | src/dparser.c:359-448 | an element of each kind, and where its parse stops |
| Collections.ParseArray | src/dparser.c:647-660 | the loop gives the elements of the array, and ends |
| Collections.ArrayIsSplit | src/dparser.c:647-660 | the elements are the pieces between the array's delimiters, without an empty last one; for integers, if the delimiters are the same or the array's is no minus sign and the record's no digit |
| CollectionWriting.ArrayRoundTrip | src/dparser.c:647-660 | items written each with a delimiter behind it are the pieces, empty ones included |
| Collections.ParseDict | src/dparser.c:824-845 | the loop gives the bindings of the dictionary, and ends |
| Collections.DictIsMeaning | src/dparser.c:824-845 | the bindings depend only on the text of the field, as keys and values cut at the first delimiters; for integer values, if the delimiters can be told from them |
| CollectionWriting.DictRoundTrip | src/dparser.c:824-845 | written bindings of strings, integers or quoted strings are read back, the first one of equal keys; a quoted value may hold the delimiter if its key is new |
| CollectionWriting.KeyAlone | src/dparser.c:824-845 | a text without the delimiter behind keys is one key with an empty value |
| CollectionWriting.EntryReads | src/dparser.c:824-845 | the value of an entry is the text up to the next delimiter or the end, and is bound unless the key is bound already |
| CollectionWriting.QuotedEntryReads | src/dparser.c:824-845 | of a new key's quoted value, what follows the closing quote up to the delimiter is ignored |
| CollectionWriting.UnclosedEntry | src/dparser.c:824-845 | a quoted value whose closing quote is missing is empty and takes the rest of the field |
| CollectionWriting.AlwaysReadsBackExactly | src/dparser.c:824-845 | for every list of keys, kind of value and both delimiters: what is written is read back whatever the values are if and only if no key holds the delimiter behind it and, for quoted values, the keys differ and a quote does not end an entry |
| CollectionWriting.RepeatedQuotedLeaks | src/dparser.c:836-841 | for every list of keys with a repeated one, written quoted values for which the dictionary is not read back: one holds the delimiter and a new key |
| CollectionWriting.QuoteEndsNothing | src/dparser.c:528-586 | if a quote ends an entry, a dictionary whose first value is a quoted "a" is not read back |
| CollectionWriting.DelimitedKeyLost | src/dparser.c:832-834 | a dictionary with a key that holds the delimiter behind it is not read back |
| CollectionWriting.WrittenTwice | src/dparser.c:836-841 | a key written twice is read back whatever the values are if and only if they are not quoted |
| Records.CutsRise | src/dparser.c:1187-1232 | field positions never go back and stay in the record |
| Records.FieldIsCut | src/dparser.c:1187-1252 | the value the one scan assigns to a field depends only on the positions around it |
| Records.UnopenedField | src/dparser.c:1190-1226 | a quoted field that does not begin with a quote is empty and stops where it began |
| Records.UnclosedField | src/dparser.c:1190-1226 | a field in quotes whose closing quote is missing is empty and takes the rest of the record |
| Records.ClosedField | src/dparser.c:1190-1226 | a field in quotes not followed by a quote is its text undoubled and stops behind the closing quote |
| Records.OpenField | src/dparser.c:1190-1226 | a field that can be quoted and is not holds the text up to the next delimiter, NUL included |
| Records.OtherField | src/dparser.c:1190-1226 | every other field, and the rest behind the last one, stops at the first delimiter or NUL |
| Records.FieldsAreSplit | src/dparser.c:207-246 | without quotes and NUL, field i has the text of piece i after one optional leading delimiter, or of the i-th nonempty piece with multiple delimiters; missing fields are empty |
| Records.PiecesMean | src/dparser.c:1165-1252 | string, integer, array and dictionary fields mean their piece, if integers can be told from the delimiters around them |
| Records.AlwaysMeansExactly | src/dparser.c:253-287 | for every kind of field without quotes and every record delimiter: fields always mean their piece if and only if integers can be told from the delimiters around them |
| Records.MinusLeaks | src/dparser.c:259-265 | with a minus sign as delimiter, an integer field does not always mean its piece |
| Records.ArrayMinusLeaks | src/dparser.c:647-660 | with a minus sign between its items, which is not the record's delimiter, an array of integers does not always mean its piece |
| Records.ArrayDigitLeaks | src/dparser.c:647-660 | with a digit as the record's delimiter, which is not the array's, an array of integers does not always mean its piece |
| Records.DictEndLeaks | src/dparser.c:824-845 | with a minus sign as the record's delimiter, or a digit that does not end entries, a dictionary of integers does not always mean its piece |
| Records.DictMinusLeaks | src/dparser.c:824-845 | with a minus sign between entries, a dictionary of integers does not always mean its piece |
| RecordWriting.RecordRoundTrip | src/dparser.c:1165-1252 | a written record, with or without a delimiter in front, with plain, integer, array, dictionary, quoted and optionally quoted fields, is read back field by field, quoted fields left empty and fields not written being empty; without a delimiter in front of several cells, the first one must not be empty |
| RecordWriting.EmptyFirstShifts | src/dparser.c:224-246 | an empty first cell without a delimiter in front is lost, and the others are read one field too early |
| RecordWriting.ArrayFieldRoundTrip | src/dparser.c:647-660 | an array field written item by item is read back |
| RecordWriting.DictFieldRoundTrip | src/dparser.c:824-845 | a dictionary field written entry by entry holds the first value of every key if and only if the entries are read back |
| LazyRecords.PositionsFit | src/dparser.c:1168-1240 | the flag bit can be told from the positions of a record exactly if the record ends below 2^31 |
| LazyRecords.ScanField | src/dparser.c:1190-1226 | scanning over one field stops where the one scan does, and parses quoted fields on the way |
| LazyRecords.ParseField | src/dparser.c:1234-1244 | parsing a field between its two positions gives its value |
| LazyRecords.RecordParser.constructor | src/dparser.c:1459-1483 | a new parser agrees with the scan and has parsed nothing |
| LazyRecords.RecordParser.ScanNext | src/dparser.c:1187-1229 | one turn of the loop notes the next position, parses the field if it can be quoted, and changes nothing else |
| LazyRecords.RecordParser.Read | src/dparser.c:1165-1252 | a read returns what the one scan assigns; positions already noted stay, scanning goes only as far as the field behind, plain fields are parsed only when read, and the assertion behind the loop holds |
| LazyRecords.RecordParser.ReadAll | src/dparser.c:1267-1345 | any sequence of reads, in any order and with repeats, returns what the one scan assigns |
| Lines.LinesConserve | src/dparser.c:1537-1579 | lines, terminators and tail are the input; each terminator is a line feed or NUL, and no line or tail holds either; the byte count is the lines with one byte each for the terminator |
| Lines.LinesUnique | src/dparser.c:1537-1579 | nothing else conserves the input that way |
| Lines.LineReader.ReadMore | src/dparser.c:88-95 | a read appends any nonempty chunk, and nothing exactly at the end of the data |
| Lines.LineReader.ReachDelim | src/dparser.c:82-102 | the loop finds the first terminator over any number of reads, or goes back to the beginning of the line; its limit is never passed |
| Lines.LineReader.HandOut | src/dparser.c:1550-1558 | one line is delivered and counted, and the position is behind its terminator |
| Lines.LineReader.Deliver | src/dparser.c:1537-1570 | for any chunks and any recycling, exactly the lines before the position have been delivered |
| Lines.LineReader.ReadLines | src/dparser.c:1537-1592 | up to the end of the data, the delivered lines are those of the file however it was chunked, and the offset is where the tail begins |
| Lines.LineReader.ReadLinesBz2 | src/dparser.c:1608-1680 | the same with the tail kept in memory |
| Lines.LineReader.Follow | src/dparser.c:1537-1592 | calls over a growing file deliver the lines of everything written |
| StringSplitting.SplitString | src/lruntime.c:608-644 | splitting a string value gives the pieces of its bytes, for every delimiter, NUL included |
| Forms.RunAppend | src/fparser.c:315-489 | feeding the text in pieces makes no difference |
| Forms.RunBalanced | src/fparser.c:272-309 | the indentation is the depth of the current form |
| Forms.OnlyRootCloseFails | src/fparser.c:292-306 | a step fails exactly if it closes a form at the root, so the assertion about the root's parent is never reached |
| Lexing.CommentRun | src/fparser.c:315-489 | a comment, whatever it holds, ends a token as a line end does and leaves nothing behind |
| Lexing.CommentDropped | src/fparser.c:315-489 | taking a comment out of a text up to its line end does not change the tree, if no backslash follows |
| Lexing.GapsAlike | src/fparser.c:315-489 | before anything but a backslash, any run of blanks, line ends and comments is as good as any other |
| Lexing.GapsExactly | src/fparser.c:315-489 | two different gaps are interchangeable before every text if and only if neither is a single blank or line end behind a token |
| Lexing.BackslashAgain | src/fparser.c:315-489 | a backslash between forms takes over once more what the character in front of it completed, opened or closed |
| Lexing.RootCloseStops | src/fparser.c:292-306 | a parenthesis that closes nothing ends the text, and what was read so far is its tree |
| Literals.LiteralRead | src/fparser.c:29-80 | every string has a literal: written with its quotes, backslashes and control characters escaped, it is read back, at any place |
| Literals.OtherEscapes | src/fparser.c:29-80 | a backslash in front of any other character is dropped |
| Literals.DigitsRead | src/fparser.c:156-258 | a token of digits, with a sign or without, is its number, or the nearest 64-bit integer |
| Literals.IntegersAreDigits | src/fparser.c:156-258 | no other token is an integer |
| Literals.TokensAre | src/fparser.c:156-258 | numbers are a digit, or a digit or sign with only digits and dots behind it; `#t`, `#f`, `#v` and `#n` are constants; all others are words |
| Literals.WordsAre | src/fparser.c:156-258 | the words that can be printed and read are the tokens without separators and NUL that are no numbers, constants, strings or backslashes |
| Tokenizers.Tokenizer.AddAtom | src/fparser.c:821-837 | adding an atom extends the current form of the linked tree and nothing else |
| Tokenizers.Tokenizer.OpenSequence | src/fparser.c:272-291 | a new sequence is linked to its parent and becomes the current form |
| Tokenizers.Tokenizer.CloseSequence | src/fparser.c:292-309 | the parent becomes the current form; what was built is complete |
| Tokenizers.Tokenizer.CompileValue | src/fparser.c:106-312 | the value that is taken over is the specified one, and it is refused exactly at the root |
| Tokenizers.Tokenizer.Transition | src/fparser.c:327-482 | the chain of branches makes the specified transition and moves the token's beginning |
| Tokenizers.Tokenizer.Advance | src/fparser.c:327-488 | one character takes the linked tree and the state one step |
| Tokenizers.Tokenizer.Tokenize | src/fparser.c:316-489 | the loop runs through the buffer or stops at the failing character |
| Tokenizers.Unescape | src/fparser.c:29-80 | the copying loop resolves escapes |
| Tokenizers.Classify | src/fparser.c:156-258 | the token's kind is the specified one |
| Tokenizers.Parse | src/fparser.c:491-525 | for any chunks, the linked tree is the tree of the whole text |
| Printing.DumpRun | src/fparser.c:619-759 | reading a printed form adds exactly that form to the current one, at any level |
| Printing.PrintParse | src/fparser.c:619-759 | a printable form, printed and parsed, comes back under a root if and only if it is a sequence or a string: another single token is not complete at the end of the text |
| Printing.DecimalIs | src/fparser.c:619-759 | an integer is printed with a minus sign exactly if it is negative, and without leading zeros |
| Printing.LayoutOf | src/fparser.c:619-759 | a sequence inside n others stands on a new line behind n spaces, and so does its closing parenthesis if it has a sequence in it |
| Printing.LayoutOfItems | src/fparser.c:619-759 | items stand one space apart |
| Strings.StringsThatReturn | src/fparser.c:87-102 | a string comes back if and only if it holds no backslash and no NUL |
| Reformatting.ReformatKeepsTree | src/fparser.c:315-489 | the tree of any text without backslash, NUL and floating-point literals, well formed or not, survives printing and parsing |
| Dumpers.Escape | src/fparser.c:87-102 | the copying loop escapes quotes, and the doubled buffer is large enough |
| Dumpers.Dumper.HasForms | src/fparser.c:610-616 | whether a sequence has a sequence among its items |
| Dumpers.Dumper.DumpDatum | src/fparser.c:619-759 | the printer appends the specified text of a linked datum and restores its level |
| Dumpers.Reprint | src/fparser.c:491-768 | printing a linked datum and parsing the text gives a linked tree with the same datum |
| Shapes.TypeRoundTrip | src/ltype.c:780-864 | the printed form of a type is read by the tokenizer as its form, and parsing the form gives the type, whatever names are defined |
| Shapes.WordParsed | src/ltype.c:1239-1291 | the name of each builtin type but the four minima and maxima is parsed as that type; any other word is what it is defined as, or nothing |
| Shapes.SpelledParsed | src/ltype.c:1239-1471 | the form of a type, with names of parameters, is parsed as the type whatever is defined, if no such name begins a type |
| Shapes.ParsedSpelled | src/ltype.c:1239-1471 | conversely, with nothing defined, every form that is parsed is the form of its type but for items at the ends of sequences, and the type is one that can have a form: functions have a result, fields have names |
| Shapes.ExtraIgnored | src/ltype.c:1239-1371 | items behind the type of an element, a value or a named field are ignored |
| Shapes.ParserInside | src/ltype.c:1296-1452 | a defined parser stands for what it parses as an element, a value or a field, but not as the result of a function |
| Shapes.PrintInjective | src/ltype.c:780-864 | different types, minima, maxima and parsers included, print differently, if their field names are words of at most 1021 characters and no parameter has a name |
| Shapes.LongNamesCut | src/ltype.c:780-864 | of a longer name only the first 1022 characters are printed |
| Shapes.PrintExactly | src/ltype.c:780-864 | types with such field names print alike if and only if they differ in those names at most |
| Shapes.LooseExactly | src/ltype.c:1113-1127 | the loose structural comparison finds exactly the types that are equal when all names are left out |
| Shapes.LooseIsStrict | src/ltype.c:1113-1127 | short of a hash collision the loose comparison ignores nothing but the names of parameters, because the hash covers field names |
| Interning.SameType | src/ltype.c:891-986 | the recursive comparison with its identity shortcut finds exactly structural equality |
| Interning.SameNames | src/ltype.c:872-888 | names are equal pairwise, absent ones only to each other |
| Interning.TypeStr | src/ltype.c:780-864 | the stream gains the printed form |
| Interning.Registry.TypeHash | src/ltype.c:1077-1091 | the cached hash is that of the printed form |
| Interning.Registry.TypeEqual | src/ltype.c:1095-1109 | comparing hashes first does not change the outcome, for any hash |
| Interning.Registry.Probe | src/ltype.c:424-431 | a registered type of the same shape is found exactly if there is one |
| Interning.Registry.Finalize | src/ltype.c:424-451 | a new type is registered, an equal one is replaced by the registered object; finalizing again gives the same object |
| Interning.SameIsIdentical | src/ltype.c:424-451 | registered types are structurally equal exactly if they are the same object, and comparing components by identity is enough |
| Interning.Registry.InitBuiltins | src/ltype.c:1635-1661 | every builtin type is registered once |
| Interning.Registry.ParseType | src/ltype.c:1239-1471 | parsing a form gives the registered object of the type it stands for, or nothing exactly if it stands for none |
| Interning.Registry.ParseNamedType | src/ltype.c:1143-1232 | a name and a type |
| Interning.Registry.ParseStructType | src/ltype.c:1373-1394 | the loop over fields gives the structure type |
| Interning.Registry.ParseFuncType | src/ltype.c:1396-1452 | the loop over parameters, typed or named, gives the function type |
| Interning.Registry.Reparse | src/ltype.c:780-864 | printing a registered type and parsing the text gives the same object |
| Interning.Registry.RegisterTypedef | src/ltype.c:455-482 | a name keeps its type unless it is new, equal or forced |
| RefCounting.Heap.Decref | src/mrklkit/lruntime.h:136-150 | giving up a reference keeps every other count right and frees the value exactly if it was the last one, with all it alone held |
| RefCounting.Heap.Fini | src/ltypegen.c:397-540 | the cascade over the slots gives up every reference, resets the plain fields of a structure, and leaves all counts right |
| RefCounting.Heap.FiniSlot | src/ltypegen.c:397-540 | one slot is given up or reset, the others stay, and all counts stay right |
| RefCounting.Heap.DecrefSlot | src/ltypegen.c:557-630 | the reference in a slot is given up and the slot emptied |
| RefCounting.Heap.New | src/lruntime.c:1260-1263 | a new value has count zero and is referred to by nobody |
| RefCounting.Heap.Hold | src/mrklkit/lruntime.h:117-121 | a reference from outside is counted |
| RefCounting.Heap.Drop | src/lruntime.c:1274-1277 | giving up a reference from outside keeps all counts right |
| RefCounting.Heap.DelItem | src/lruntime.c:1760-1840 | emptying a slot keeps all counts right and touches nothing nested as deeply as the value |
| RefCounting.Heap.GetItem | src/lruntime.c:1485-1545 | reading a slot keeps all counts right if and only if the slot is not empty or the default is null, since a default is stored without being counted |
| RefCounting.Heap.SetItem | src/lruntime.c:1618-1706 | storing a value keeps all counts right if and only if the slot does not hold the only reference to that same value |
| RefCounting.StoreOverItself | src/lruntime.c:1618-1706 | for every counted type, storing a new value twice in the same slot frees it and leaves the slot dangling |
| RefCounting.GetDefault | src/lruntime.c:1485-1545 | for every counted type, reading an empty slot with a new value as the default stores it there with count zero |
| RefCounting.SlotRank | src/mrklkit/lruntime.h:43-150 | types nest strictly, so the cascade ends |
| RefCounting.NothingLeaks | src/mrklkit/lruntime.h:43-150 | without references from outside, and unless some value was never referred to, all values are gone |
| Reordering.Search | src/dpexpr.c:650-657 | the inner loop finds the first position from the outer one on, so the assertion about the two positions holds |
| Reordering.Swap | src/dpexpr.c:656-688 | two fields change places in all three arrays |
| Reordering.PlacedExactly | src/dpexpr.c:648-691 | a requested name makes the first field with it, from its place on, change places with the field there and leaves all others; without one nothing changes |
| Reordering.Place | src/dpexpr.c:648-691 | one requested name is found from its place on and swapped into it, in all three arrays |
| Reordering.Reorder | src/dpexpr.c:635-693 | the arrays hold the specified reordering |
| Reordering.ReorderedPermutes | src/dpexpr.c:635-693 | names, types and parsers stay together: the fields are a permutation of the original ones |
| Reordering.RequestedFirst | src/dpexpr.c:635-693 | for distinct field names, the requested names come first in the requested order if and only if they are distinct and all there |

## Left out

- Strings, floats, `get`, `set`, `parse`, calls of user functions, parameters, sequencing and a conditional without a value in code generation: the modelled expressions are ints and bools.
- Real LLVM, the JIT, the pass manager and linking: only the construction of blocks, branches and phis, and a step semantics for them. The builder folds an instruction whose operands are all constants and whose value is defined, as LLVM's builder does.
- INT64_MIN divided by -1: undefined in the generated code; evaluation has no value there and the machine is stuck, in no other case. Such a division of constants is not folded.
- The tags of INT_MIN and INT_MAX types in expressions: the generator treats both like ints, and the model has one type of ints.
- The declarations of `and`, `or`, `not` and `in` are in a configuration file that is not part of this model; their parameters are taken to be bool for the first three and of any one type for `in`.
- Eager initialisers of globals: their values are given in the initial memory.
- The order in which C evaluates the two widening casts of a bool comparison: the left one is taken first; the casts have no effects.
- A refused operand inside a conditional: the program goes on with a null value and crashes; the model refuses the expression.
- zref and mpolicy marks in type resolution: they do not matter for ints and bools.
- Integers.ParseInt64: signed overflow is undefined in C; the sums are taken to wrap, and the contract says exactly when one leaves 64 bits.
- Records that reach position 2^31, where the flag bit and the position collide.
- The record parser's float fields, nested structures and `brushdown` keys.
- The length field of quoted strings, which counts doubled quotes twice: the text is the content up to the terminator.
- A pool-allocated dictionary or array parsed from a string value: only its element loop, which is the same.
- The line readers for CR-LF, early abort by the line callback, and the file position of compressed streams.
- Floats in the printer, and the printer's marks around data with errors.
- The tokenizer's callback: it is absent.
- A text that ends in a single backslash inside `fparser_unescape` leaves one byte unset; the model drops it.
- Error marks that the type parser sets on forms, and user-defined type tags.
- Changing a type after its hash is cached (`lkit_struct_copy`).
- The order of types: only equality is claimed, since the comparison subtracts hashes.
- Copies of structures, dictionary and array accessors, pools, JSON, time functions and dumps of the runtime.
- RefCounting.Heap.SetItem: a null value is not stored, since the program counts a reference through it.
- RefCounting.Heap.Fini: memory is a sequence of cells with addresses instead of linked objects, so that references to freed values can be expressed; a dictionary is emptied in the order of its slots, since the order of its hash is not known.
- `dps->names` in the reordering, which the program does not swap.

# A verified model of parts of KPHP

KPHP compiles PHP to C++ and comes with a runtime. This project models the parts of it whose
correctness is hardest to see, in Dafny, and proves what they are for.

| files | what they model |
|---|---|
| `Wrappers`, `Division`, `Bits` | what several parts share |
| `Gf`, `CrcBase` | polynomial arithmetic over bits, the bit-serial CRC every other CRC is compared with |
| `CrcVectors` | the polynomials by their exponents and known CRC-32C values |
| `CrcSliced`, `CrcLanes`, `CrcCombine`, `CrcRepair` | CRC-32, CRC-32C and CRC-64: four tables, three lanes with carry-less merge, combination of two CRCs, repair of a single bit |
| `Treap`, `TreapCells`, `HashRings` | search trees and hash tables with links changed in place |
| `ExprParser`, `ExprRoundTrip`, `ExprParens`, `ExprReading`, `ExprMeaning` | the compiler's expression parser, the printed form it reads back, which parentheses of it matter, how texts without parentheses are grouped, the values of what is built |
| `FunctionPass` | the traversal of function bodies |
| `Closures`, `ClosureMeaning`, `ClosureProof`, `ClosureGen` | conversion of lambdas to classes |
| `TypeHints`, `TypeHintGrammar`, `TypeHintReads`, `TypeHintForms`, `TypeHintReread`, `TypeHintRoundTrip`, `TypeHintParser` | type hints of phpdoc: the forms they may be written in, their printer and their parser |
| `LexerString`, `Registry` | strings unescaped in the source text; the registry of functions under locks |
| `Md5`, `Md5Sine`, `Md5Stream` | MD5 computed on 64-bit words, its constants as sines, and how it is fed in pieces |
| `ResolverTable`, `ResolverPrimes`, `Resolver`, `ResolverText`, `ResolverNumbers`, `ResolverLines`, `ResolverBuffer`, `ResolverSearch` | the hosts file, line by line, and its double-hashing table |
| `ExactDivision`, `Backtrace` | exact division by multiplication; backtraces without recursion |

Main results, each for all inputs or all runs:

- every fast CRC equals the bit-serial one; combining two CRCs gives the CRC of the concatenation;
  check-and-repair always leaves block and CRC in agreement and, as long as no power of x repeats
  below the search bound, repairs every single-bit error as what it is;
- the heap versions of the trees and rings compute the abstract operations on the same cells, and
  with distinct priorities a treap does not depend on its history;
- converted lambdas evaluate like the lambdas, nested and automatically captured ones included;
- every chain of binary operators is grouped as a list of operator groups, strongest last, says, and prefix
  operators and conditionals beside binary operators likewise;
- parsing undoes printing for expressions, nested conditionals and spare parentheses included; what is
  read when the parentheses around an operand are taken away is given, and exactly when it is the same;
- the vertices built have the expressions' values if and only if the operators obey a short list of laws;
- the type hint parser reads a text up to a place as a hint if and only if the text there is written in one of
  the forms of a grammar given apart from the parser, and the hint is what that form means;
- a type hint comes back from its printed form if and only if it is canonical, a property that can
  be read off the hint; what the parser makes of the other hints is given as well;
- the traversal with an explicit stack and the recursive one end together with the same result;
- in every interleaving a function is delivered at most once, and exactly if it is wanted;
- the text between two apostrophes is always a sequence of pieces, and the token spells what the pieces stand for;
- a backtrace has no block that repeats, and the addresses visited come back from it by repeating blocks;
- MD5 of a message does not depend on how it is cut, and is the digest of RFC 1321, whose constants are the
  first 32 binary digits of the sines;
- the hosts table answers every name whose hashes are in range with the first address the file gives
  it; the scan of a line of the file ends with the line, and inside the buffer, exactly under conditions
  on its text; every search for an ASCII name stays in the table exactly up to a size.

Words are natural numbers; widths, wrap-around and truncation are written out where the original
relies on them. Methods that change state are specified by functions of the old state, and the
properties are proved of those functions. The CRC tables and the multipliers of the three-lane
routine are given by what they mean (remainders and powers of x), not by their digits.

Where code and expectation differ, the code is followed:

- `ExprMeaning.KeepsIff`: the conversions the parser inserts, the exchanged comparisons and the folded
  signs keep every value exactly if the operators obey `Laws`. They do on integers (`IntegersObey`).
  They do not where a disjunction of texts works on their characters, as in PHP: `"a" | "b"` is `"c"`
  there, and the parser makes it a disjunction of integers (`TextsAreLost`).
- `ExprParens.RightParens`: not every printed pair of parentheses is needed. `a > (b < a)` and
  `a > b < a` are read as one vertex, and the lemma says exactly when that happens. Around a left
  operand they are always needed (`LeftParens`).
- `ResolverSearch.SearchesStayIff`: the original hashes in 32-bit ints, and for the table sizes above
  `SAFE` the second hash of an ASCII name can be negative. For each such size that a file can lead to
  there is an ASCII file, and a name whose search in the table goes to a negative place. The table is
  proved correct for all names whose hashes are in range. The largest of the 36 sizes is never
  reached, as `LargestSizeUnused` shows from the limit on the length of the file.
- `ResolverBuffer.LineLeaves`: a number without its dot is passed with one more byte, and where the
  number ends the text that byte is the terminating zero, so the scan goes on behind the buffer. The
  file "1" without a newline does that (`OneNumberLeaves`). It happens exactly on a line whose first,
  second or third number ends the text. A text that does not end with a digit, such as one that ends
  with a newline, is safe.
- `ResolverLines.LineKept`: the scan of a line can run over into the next one, in two ways.
  A number without its dot is passed with one more character, which may be the newline; the next
  line is then lost (`LineLost`). And a number is sought past white space, newlines included, so an
  address may begin on one line and end on the next (`LinesJoined`). The lemma says exactly when
  neither happens.
- `TypeHintRoundTrip.RoundTrip`: `Null` and `False` are printed with capitals, which the parser
  reads as classes; unions with a nullable type or a typed callable before another member, with a
  union or a bare `bool` inside, and `|false` after any of these do not come back either. `Canonical` says exactly which hints do.

## Model

| member | source | states |
|---|---|---|
| `Gf.MulxXor` | common/crc32.cpp:71-77 | multiplying by x is linear over exclusive or |
| `Gf.MulxInjective` | common/crc32.cpp:71-77 | multiplying by x loses nothing: equal products come from equal words (reduction polynomial with its top bit set) |
| `Gf.MulComm` | common/crc32.cpp:79-90 | the field product does not depend on the order of its factors |
| `Gf.MulAssoc` | common/crc32.cpp:79-90 | the field product is associative, so products of powers may be grouped in any way |
| `Gf.MulOne` | common/crc32.cpp:79-90 | the reflected word of the constant 1 is the neutral element of the product |
| `Gf.XAdd` | common/crc32.cpp:164-175 | x^(i+j) is the field product of x^i and x^j, at 32 and at 64 bits |
| `CrcBase.CrcIs` | common/crc32.cpp:62-68 | a CRC is the message read as one number, added to the register and multiplied by x once per bit: every grouping of the bytes gives the same word |
| `CrcBase.CrcAppend` | common/crc32.cpp:62-68 | the CRC of a concatenation goes on from the CRC of the first part |
| `CrcBase.CrcLinear` | common/crc32.cpp:204-226 | the start value contributes itself times x^(8 length), independently of the data |
| `CrcBase.TableStep` | common/crc32.cpp:62-68 | one table step is eight steps of the bit-serial reference, whatever the sign of the byte |
| `CrcBase.PartialOneTable` | common/crc32.cpp:62-68 | the byte-at-a-time CRC-64 loop computes the bit-serial remainder |
| `CrcVectors.Crc32Polynomial` | common/crc32.h:12 | the CRC-32 constant is x^32 reduced by the polynomial of RFC 1952, exponent by exponent |
| `CrcVectors.CastagnoliPolynomial` | common/crc32c.cpp:177 | the CRC-32C constant is Castagnoli's polynomial, exponent by exponent |
| `CrcVectors.Crc64Polynomial` | common/crc32.cpp:153-162 | the CRC-64 constant is the polynomial of ECMA-182, exponent by exponent |
| `CrcVectors.Zeroes` | common/crc32c.h:21-23 | 32 zero bytes have the CRC-32C of appendix B.4 of RFC 3720 |
| `CrcVectors.Incrementing` | common/crc32c.h:21-23 | the bytes 0 to 31 have the CRC-32C of appendix B.4 of RFC 3720 |
| `CrcVectors.NextIs` | common/crc32.cpp:71-77 | on a word given by its 32 bits, multiplication by x shifts the bits and adds the polynomial if a bit falls out |
| `CrcSliced.FourSlices` | common/crc32_generic.cpp:7-53 | 32 multiplications by x split into the four byte slices of a word |
| `CrcSliced.DoOneIs` | common/crc32_generic.cpp:7-53 | one step with four tables is four bytes of the reference |
| `CrcSliced.PartialFourTables` | common/crc32_generic.cpp:7-53 | the sliced loop with its 32-byte blocks and its tail of 16, 8, 4, 2 and 1 bytes equals the bit-serial CRC for every buffer, start value and polynomial |
| `CrcSliced.Tail` | common/crc32c.cpp:104-145 | the tail steps consume exactly the bytes after the last 32-byte block |
| `CrcLanes.CrcInstrIs` | common/crc32c_x86_64.cpp:39-150 | one CRC instruction on up to eight little-endian bytes is that many bytes of the reference |
| `CrcLanes.ReduceClmul` | common/crc32c_x86_64.cpp:39-150 | reducing a carry-less product gives the field product times x |
| `CrcLanes.ClmulPower` | common/crc32c_x86_64.cpp:39-150 | carry-less multiplication by x^(k-1) followed by 32 reductions multiplies by x^k: why the constants are one power short |
| `CrcLanes.MergeIs` | common/crc32c_x86_64.cpp:39-150 | with the two constants of a segment size the merge is c x^(16 seg) + c1 x^(8 seg) + c2, exactly |
| `CrcLanes.LanesJoin` | common/crc32c_x86_64.cpp:39-150 | three lanes started from the register, 0 and 0 and merged are one register run over all their bytes |
| `CrcLanes.Lanes` | common/crc32c_x86_64.cpp:39-150 | one round of three interleaved lanes and the merge leaves the register the serial loop would have |
| `CrcLanes.Align` | common/crc32c_x86_64.cpp:39-150 | the 1, 2 and 4 byte steps up to an aligned address are part of the same CRC, also when the data end first |
| `CrcLanes.LaneRounds` | common/crc32c_x86_64.cpp:39-150 | as many rounds as fit are done, and the register stays that of the bytes consumed |
| `CrcLanes.PartialClmul` | common/crc32c_x86_64.cpp:39-150 | the three-lane CRC-32C equals the bit-serial CRC for every length, address and start value |
| `CrcLanes.PartialSse42` | common/crc32c_x86_64.cpp:18-37 | so does the routine with the instruction alone |
| `CrcCombine.TimesIsMul` | common/crc32.cpp:105-115 | a matrix whose rows are multiples of m by the powers of x multiplies every vector by m |
| `CrcCombine.MatrixTimes` | common/crc32.cpp:105-115 | the loop over the bits of the vector computes the matrix-vector product |
| `CrcCombine.MatrixSquare` | common/crc32.cpp:117-122 | the matrix of x^e squared, written elsewhere in the buffer, is the matrix of x^(2e), and the rest of the buffer is kept |
| `CrcCombine.FillPowers` | common/crc32.cpp:124-151 | after initialisation the buffer holds the matrices of x^(8 2^n) for all 64 n |
| `CrcCombine.ApplyPowers` | common/crc32.cpp:124-151 | the loop over the set bits of the length multiplies the CRC by x^(8 length) |
| `CrcCombine.Combiner32.GuardNotZero` | common/crc32.cpp:124-151 | the last entry of a filled buffer is never zero, so testing it for zero is a sound guard |
| `CrcCombine.Combiner32.Combine` | common/crc32.cpp:124-151 | fills the buffer at most when its guard is zero and combines two CRCs, also for lengths of zero and below |
| `CrcCombine.Combiner32.CombineByFlag` | common/crc32c.cpp:168-196 | the CRC-32C variant, guarded by a flag, combines alike |
| `CrcCombine.CombineCorrect` | common/crc32.cpp:204-226 | combining the CRCs of a and b gives the CRC of their concatenation, for every a, b, polynomial and width |
| `CrcCombine.GfMul` | common/crc32.cpp:79-90 | the shift-and-add loop computes the field product |
| `CrcCombine.SquareTimesX` | common/crc32.cpp:177-202 | squaring x^e and multiplying by x gives x^(2e+1); multiplying x^e by the polynomial gives x^(e+w) |
| `CrcCombine.FillPowers64` | common/crc32.cpp:177-202 | the 126 entries of the CRC-64 power buffer are the powers of x the combine needs |
| `CrcCombine.Combiner64.GuardNotZero` | common/crc32.cpp:204-226 | the last entry of the CRC-64 buffer is never zero once it is filled |
| `CrcCombine.Combiner64.Factor` | common/crc32.cpp:204-226 | one table entry multiplies by x^(8 2^n) |
| `CrcCombine.Combiner64.Multiply` | common/crc32.cpp:204-226 | lowest bit first, then the remaining bits: the product is by x^(8 length) |
| `CrcCombine.Combiner64.Combine` | common/crc32.cpp:204-226 | the CRC-64 combine computes the combined CRC for every length below 2^63, and the first CRC for lengths of zero and below |
| `CrcRepair.GfPow` | common/crc32.cpp:93-102 | square and multiply computes the power |
| `CrcRepair.InverseIs` | common/crc32.cpp:255-299 | the constant 0xdb710641 is 1/x modulo the CRC-32 polynomial |
| `CrcRepair.PowerOfInverse` | common/crc32.cpp:255-299 | its k-th power undoes k multiplications by x |
| `CrcRepair.BuildTable` | common/crc32.cpp:255-299 | the sorted table holds every power x^i below the stride, with its exponent, and nothing else |
| `CrcRepair.Bisect` | common/crc32.cpp:255-299 | the bisection finds a table entry with the given word if and only if there is one |
| `CrcRepair.GiantMatrix` | common/crc32.cpp:255-299 | the rows filled by repeated multiplication by x form the matrix of the giant step |
| `CrcRepair.StrideHit` | common/crc32.cpp:255-299 | after s has been divided out, a baby step matches exactly when the exponent of this stride does |
| `CrcRepair.FindCorruptedBit` | common/crc32.cpp:255-299 | the baby-step giant-step search returns an exponent below its bound whose power is the word, or -1 and then there is none |
| `CrcRepair.FlipAdds` | common/crc32.cpp:301-319 | inverting the data bit of exponent k adds x^k to the CRC of the block |
| `CrcRepair.FlipTwice` | common/crc32.cpp:301-319 | inverting a bit twice restores the block |
| `CrcRepair.RepairBit` | common/crc32.cpp:301-319 | return codes -1, -2, -3 and 0 by range of the exponent; only code 0 changes the block, in exactly that bit |
| `CrcRepair.DataBitDiffers` | common/crc32.cpp:321-348 | a block with one inverted bit differs from its stored CRC by the power of that bit |
| `CrcRepair.CrcBitDiffers` | common/crc32.cpp:321-348 | a stored CRC with one inverted bit differs by a power below x^32 |
| `CrcRepair.CheckAndRepair` | common/crc32.cpp:321-348 | after every return block and CRC agree; code 1 changes one data bit, code 2 one CRC bit, all else nothing; with distinct powers below the bound every single-bit error, in the block or in the CRC, is repaired as what it is |
| `Treap.LookupIs` | common/c-tree.h:13-19 | lookup answers membership in the key set |
| `Treap.SplitIs` | common/c-tree.h:45-60 | split parts the items at the key and keeps both orders |
| `Treap.InsertIs` | common/c-tree.h:79-102 | insertion of an absent key adds exactly that item and keeps search order and heap order |
| `Treap.MergeIs` | common/c-tree.h:129-145 | merging ordered neighbours joins their items and keeps both orders |
| `Treap.DeleteIs` | common/c-tree.h:147-161 | deletion of a present key removes exactly its item and keeps both orders |
| `Treap.Unique` | common/c-tree.h:79-102 | with distinct priorities a set of items has one treap |
| `Treap.DeleteUndoesInsert` | common/c-tree.h:147-161 | delete after insert gives back the same tree, node for node |
| `Treap.LookupAfter` | common/c-tree.h:13-161 | after any legal history lookup answers exactly the set of live keys |
| `Treap.HistoryDoesNotMatter` | common/c-tree.h:79-161 | two histories with the same live keys and distinct priorities leave the same tree |
| `TreapCells.Find` | common/c-tree.h:13-19 | the pointer loop finds a cell with the key if and only if the key is there |
| `TreapCells.SplitCells` | common/c-tree.h:45-60 | split in place relinks the same cells into two disjoint trees that are the two halves |
| `TreapCells.InsertCell` | common/c-tree.h:79-102 | insert in place allocates one cell, keeps all others, and leaves the tree of Treap.Insert |
| `TreapCells.MergeCells` | common/c-tree.h:129-145 | merge in place uses exactly the cells of both trees |
| `TreapCells.DeleteCell` | common/c-tree.h:147-161 | delete in place unlinks one cell, the one with the key, and leaves the tree of Treap.Delete |
| `HashRings.Append` | common/c-tree.h:395-419 | a fresh cell is linked in at the end of a circular doubly linked ring, which stays one |
| `HashRings.Unlink` | common/c-tree.h:421-461 | the two neighbours of a cell skip it, in rings of every length |
| `HashRings.Remove` | common/c-tree.h:421-461 | after removal ring and head are those of the shorter ring, also when the head or the only cell goes |
| `HashRings.HashTable.Lookup` | common/c-tree.h:369-393 | the walk ends and returns the first cell with the value, or null if and only if there is none |
| `HashRings.HashTable.Insert` | common/c-tree.h:395-419 | the value is appended to its bucket, all buckets stay well-formed rings, other buckets are untouched |
| `HashRings.HashTable.Delete` | common/c-tree.h:421-461 | returns 1 if and only if the value was present and then removes exactly its first cell |
| `HashRings.HashTable.DeleteCell` | common/c-tree.h:421-461 | unlinks the given cell and no other |
| `HashRings.HashTable.Clear` | common/c-tree.h:463-477 | every walk ends and every bucket is empty afterwards |
| `HashRings.InsertThenDelete` | common/c-tree.h:395-461 | deleting a value that was absent before its insertion gives the old ring back |
| `ExprRoundTrip.RoundTrip` | compiler/gentree.cpp:765-850 | parsing the printed form of an expression at any level gives back its vertex and stops right after it |
| `ExprRoundTrip.RoundTripBin` | compiler/gentree.cpp:765-850 | the same for binary operators, left- and right-associative, with parentheses around operands of lower levels only |
| `ExprRoundTrip.LeftThenLoop` | compiler/gentree.cpp:765-850 | a chain of operators of one left-associative level needs no parentheses |
| `ExprRoundTrip.CondThenLoop` | compiler/gentree.cpp:782-847 | conditionals, the short form included, nest to the left without parentheses and leave the ternary loop to go on |
| `ExprRoundTrip.RoundTripCond` | compiler/gentree.cpp:782-847 | a conditional stands bare wherever the ternary loop is on and no operator follows |
| `ExprRoundTrip.ParsePrint` | compiler/gentree.cpp:852-859 | parsing undoes printing, from the lowest level, with any spare parentheses in the text |
| `ExprParens.GraftPrinted` | compiler/gentree.cpp:765-850 | where an operator's right operand stands without its parentheses, the text is the printed form of the regrouped expression, in which the operator takes the operand at the left end, prefix operators included |
| `ExprParens.GraftIff` | compiler/gentree.cpp:749-850 | the regrouped expression has the same vertex if and only if along the left end all operators are the mirror image of the operator and all right operands have the vertex of its left operand |
| `ExprParens.RightParens` | compiler/gentree.cpp:678-850 | for every right operand that is printed in parentheses: how the text without them is read, and exactly when that is the same vertex |
| `ExprParens.GraftRightPrinted` | compiler/gentree.cpp:765-850 | the same for left operands: the operator takes the operand at the right end, after a prefix operator or in the last branch of a conditional too |
| `ExprParens.LeftParens` | compiler/gentree.cpp:678-850 | for every left operand that is printed in parentheses: how the text without them is read, which is never the same vertex |
| `ExprReading.BinaryLevelIs` | compiler/operation.cpp:44-125 | the operators of the g-th group have level g + 1 and group to the side the list says |
| `ExprReading.BinaryComplete` | compiler/operation.cpp:44-125 | every binary operator is in the list, in the group of its level |
| `ExprReading.PrefixComplete` | compiler/operation.cpp:119-139 | every prefix operator is in the list, in the group of its level |
| `ExprReading.ChainRead` | compiler/gentree.cpp:765-850 | a chain of any length of operands and binary operators is read with the weakest operator outermost, of equals the last one, or the first one in a group that goes to the right, and so on inside |
| `ExprReading.ChainGroups` | compiler/gentree.cpp:765-850 | every chain has such a grouping, so every chain is read |
| `ExprReading.StrongerFirst` | compiler/operation.cpp:44-125 | of two operators of different groups the stronger one takes its operands first, on either side |
| `ExprReading.SameGroup` | compiler/gentree.cpp:782-847 | two operators of one group are read from the left, or from the right in the groups the list says |
| `ExprReading.PrefixBefore` | compiler/gentree.cpp:718-780 | a prefix operator takes the first operand alone, or the whole of a stronger operation |
| `ExprReading.PrefixBetween` | compiler/gentree.cpp:718-780 | a prefix operator after a binary one, with and without a further operator behind it |
| `ExprReading.PrefixTwice` | compiler/gentree.cpp:718-780 | prefix operators apply from the inside out, whatever their groups |
| `ExprReading.ConditionalAnd` | compiler/gentree.cpp:782-847 | a binary operator before, in and behind a conditional |
| `ExprReading.ConditionalTwice` | compiler/gentree.cpp:782-847 | two conditionals in a row group to the left; the short form |
| `ExprMeaning.UnaryMeans` | compiler/gentree.cpp:718-747 | under the laws, folding a sign into a number and converting the operands of negations keep the value |
| `ExprMeaning.OperandsMean` | compiler/gentree.cpp:818-828 | under the laws, the inserted conversions keep the value of the operator |
| `ExprMeaning.CompareMeans` | compiler/gentree.cpp:749-763 | under the laws, > and >= with exchanged operands and the negated equalities keep the value of the comparison written |
| `ExprMeaning.DenoteMeans` | compiler/gentree.cpp:705-850 | under the laws, the vertex of every expression has the expression's value, over any type of values |
| `ExprMeaning.KeepsIff` | compiler/gentree.cpp:705-850 | the vertices of all expressions have the expressions' values if and only if the laws hold |
| `ExprMeaning.SeesOnlyIntegers` | compiler/gentree.cpp:825-828 | the law of a bitwise operator says that it cannot tell values apart that convert to the same integer |
| `ExprMeaning.IntegersObey` | compiler/gentree.cpp:718-850 | the laws hold where all values are integers and comparison, logic, signs and conversions are those of integers, whatever the other operators do |
| `ExprMeaning.IntegersAre` | compiler/gentree.cpp:718-850 | there are such meanings: any meaning can be made one |
| `ExprMeaning.LettersJoined` | compiler/gentree.cpp:825-828 | the disjunction of the texts "a" and "b" is "c" |
| `ExprMeaning.TextsAre` | compiler/gentree.cpp:825-828 | any meaning can be made one in which a disjunction of two texts is a text |
| `ExprMeaning.TextsAreLost` | compiler/gentree.cpp:825-828 | where a disjunction of texts is the text of the joined characters, the value of no disjunction of two texts is kept, and the laws fail |
| `ExprParser.GenTree.GetBinaryOp` | compiler/gentree.cpp:765-850 | the method that moves the cursor parses as Parse says, about which the lemmas of ExprRoundTrip and ExprReading speak, and leaves the cursor where it says |
| `ExprParser.GenTree.Climb` | compiler/gentree.cpp:765-850 | its loop folds operators of one level as Loop says, the right-associative ones and the ternary included |
| `ExprParser.GenTree.TakeConditional` | compiler/gentree.cpp:795-838 | a turn of the loop with a question mark: both branches, the colon, and the errors |
| `ExprParser.GenTree.TakeOperator` | compiler/gentree.cpp:795-847 | a turn with another operator, which ends the loop if it associates to the right |
| `ExprParser.GenTree.GetExprTop` | compiler/gentree.cpp:678-685 | parentheses are read and matched, anything else is left alone |
| `FunctionPass.Simulates` | compiler/function-pass.h:68-100 | where the recursion on a slot ends, the stack machine reaches the slots below with the same state and the same tree |
| `FunctionPass.SimulatesSons` | compiler/function-pass.h:68-100 | the same for the sons still to be visited, in order |
| `FunctionPass.RunFunctionPass` | compiler/function-pass.h:57-87 | the loop with the explicit stack ends with the state and the tree of the recursive traversal |
| `FunctionPass.Ends` | compiler/function-pass.h:68-100 | if the stack machine gets below a slot, the recursion on that slot ends |
| `FunctionPass.EndTogether` | compiler/function-pass.h:57-102 | the loop empties its stack exactly when the recursion ends |
| `FunctionPass.RecurseVisits` | compiler/function-pass.h:68-100 | the order of the traversal: a vertex is entered, its sons follow in order unless the pass takes care of them, and it is left |
| `Closures.CaptureIs` | compiler/lambda-utils.cpp:437-466 | the walk over an arrow function's body captures exactly the variables that have to be captured, once each, in front of those already there |
| `Closures.NeededIs` | compiler/lambda-utils.cpp:437-466 | the tests of the walk decide by the characters of the name: not the instance, no superglobal, no "::" and no "$u" in it, no parameter, not listed yet |
| `Closures.CaptureExactly` | compiler/lambda-utils.cpp:437-466 | a name is captured if and only if it was listed, or it occurs in the body and these conditions on its characters hold |
| `Closures.OrdinaryCaptured` | compiler/lambda-utils.cpp:437-466 | a variable of the body with neither colon nor dollar sign in its name is captured unless it is a parameter or one of eight names |
| `Closures.MarkedNotCaptured` | compiler/lambda-utils.cpp:437-466 | a name with "$u" or "::" anywhere in it is never added |
| `Closures.ElaborateReady` | compiler/lambda-utils.cpp:437-466 | captured lists are free of duplicates and complete, also for variables only nested lambdas need |
| `ClosureProof.PassedIs` | compiler/lambda-utils.cpp:202-240 | __invoke passes the captured values from the fields and then its own arguments |
| `ClosureProof.FunBind` | compiler/lambda-utils.cpp:174-194 | the parameters of the lambda function receive the captured values first and its own arguments after them |
| `ClosureProof.ConstructIs` | compiler/lambda-utils.cpp:246-266 | the constructor puts the i-th argument into the i-th field, also for $this |
| `ClosureProof.CallScope` | compiler/lambda-utils.cpp:202-240 | __invoke and the lambda function give the body the scope the source language gives it |
| `ClosureProof.NewIs` | compiler/lambda-utils.cpp:306-315 | the construct call builds the object that corresponds to the closure |
| `ClosureProof.Simulate` | compiler/lambda-utils.cpp:174-315 | every expression evaluates after conversion to the corresponding value, with corresponding variables, at every depth of calls |
| `ClosureProof.SimulateCall` | compiler/lambda-utils.cpp:202-240 | invoking the object evaluates like invoking the closure |
| `ClosureGen.FunctionData.FindRecursive` | compiler/lambda-utils.cpp:437-466 | the recursive walk that grows the list of captured variables computes Capture |
| `ClosureGen.FunctionData.AutoCapture` | compiler/lambda-utils.cpp:437-466 | afterwards the list is that of CaptureExactly without repetition: it covers the body, holds every ordinary variable of it and nothing that need not be captured |
| `ClosureGen.FunctionData.AddUsesAsArguments` | compiler/lambda-utils.cpp:174-194 | the captured variables become the first parameters |
| `ClosureGen.FunctionData.GenerateInvoke` | compiler/lambda-utils.cpp:202-240 | the loop builds the parameters of __invoke and the arguments of its call |
| `ClosureGen.FunctionData.GenerateConstructor` | compiler/lambda-utils.cpp:246-266 | the loop builds the constructor's parameters and its assignments |
| `ClosureGen.FunctionData.GenerateClass` | compiler/lambda-utils.cpp:270-298 | the generated class is the one the conversion assigns to the lambda |
| `ClosureGen.ElaborateEval` | compiler/lambda-utils.cpp:437-466 | working out captured variables does not change what a program evaluates to |
| `ClosureGen.ConversionPreservesMeaning` | compiler/lambda-utils.cpp:174-315 | a program and its converted form, arrow functions and nested lambdas included, yield corresponding values or both none |
| `Registry.EmittedOnce` | compiler/compiler-core.cpp:334-339 | in every run, even with redeclarations, no function is sent downstream twice |
| `Registry.NodesExplained` | compiler/compiler-core.cpp:324-381 | after every run a node is empty, awaited or known exactly as the steps of the run ask |
| `Registry.EmittedExactly` | compiler/compiler-core.cpp:324-381 | a function is sent if and only if it is registered and either forced or required by some step, before or after |
| `Registry.OrderDoesNotMatter` | compiler/compiler-core.cpp:324-381 | which functions are sent does not depend on the interleaving |
| `Registry.GetExactly` | compiler/compiler-core.cpp:158-168 | get_function returns f if and only if f is registered, never the sentinel |
| `Registry.FoundForever` | compiler/compiler-core.cpp:158-168 | once f is returned, every longer run without redeclaration returns f |
| `Registry.LostOnlyByRedeclaration` | compiler/compiler-core.cpp:364-381 | a step makes a known function disappear if and only if it registers another one of the same name |
| `Registry.CompilerCore.RequireFunction` | compiler/compiler-core.cpp:334-339 | flag and stream change together, the first time only |
| `Registry.CompilerCore.RequireByName` | compiler/compiler-core.cpp:324-332 | an empty node becomes awaited, a known function is delivered |
| `Registry.CompilerCore.RegisterAndRequire` | compiler/compiler-core.cpp:364-381 | the node becomes known, and the function is delivered if it was awaited or is forced; a redeclaration is reported and carried out |
| `Registry.CompilerCore.GetFunction` | compiler/compiler-core.cpp:158-168 | a sentinel reads as nothing |
| `Md5.MacroCallIs` | common/md5.cpp:105-183 | the 64 macro calls use the word indices and rotations of section 3.4 of RFC 1321 |
| `Md5.FLow` | common/md5.cpp:103-185 | the four bitwise macros on 64-bit words agree with the RFC's F, G, H and I on the low 32 bits |
| `Md5.MacroSLow` | common/md5.cpp:90 | the macro S, which shifts the upper half along, rotates the low half |
| `Md5.StepLow` | common/md5.cpp:90-183 | one macro call on 64-bit words is one operation of the RFC on the low halves, whatever the upper halves are |
| `Md5.BlockCompleted` | common/md5.cpp:196-229 | bytes that complete the block in progress add exactly that block |
| `Md5.BlockContinued` | common/md5.cpp:196-229 | bytes that do not complete a block leave the state as it is |
| `Md5Sine.ConstantsAreSines` | common/md5.cpp:105-183 | each of the 64 constants is the integer part of 2^32 times the absolute value of the sine of its number, from the series of sine and cosine at 1 and the addition theorems |
| `Md5Sine.InitialIs` | common/md5.cpp:64-67 | the start state written out lowest byte first is 01 23 45 67 89 ab cd ef fe dc ba 98 76 54 32 10 |
| `Md5Sine.WordOfBytes` | common/md5.cpp:41-55 | the two byte order macros undo each other |
| `Md5Stream.Context.Starts` | common/md5.cpp:60-68 | a new context is that of the empty message |
| `Md5Stream.Context.Process` | common/md5.cpp:70-191 | the block function gives the RFC's block function on the low halves of the state |
| `Md5Stream.Context.Update` | common/md5.cpp:196-229 | a context that holds m holds m and the input afterwards: counters with carry, state and buffered rest, however the input is cut |
| `Md5Stream.CountsOn` | common/md5.cpp:206-210 | the carry into the second counter is seen by comparing the wrapped sum with the addend |
| `Md5Stream.PaddingIs` | common/md5.cpp:231-252 | the padding and the two length words are those of sections 3.1 and 3.2 of RFC 1321, for every message length |
| `Md5Stream.Context.Finish` | common/md5.cpp:237-258 | the output is the RFC 1321 digest of all the bytes fed |
| `Md5Stream.Hash` | common/md5.cpp:263-271 | one call digests the whole input |
| `Md5Stream.HashPieces` | common/md5.cpp:196-258 | for every way of cutting a message into updates the digest is that of the message |
| `ResolverTable.HashInRange` | common/resolver.cpp:57-66 | ASCII names hash without overflow below a bound on the modulus |
| `ResolverTable.HashOverflows` | common/resolver.cpp:62-65 | with each of the four larger sizes some five-letter name has a negative second hash |
| `ResolverTable.AsciiIff` | common/resolver.cpp:57-66 | for the sizes of the source, the hashes of every ASCII name are in range if and only if the size is at most SAFE |
| `ResolverTable.HighByteIsNegative` | common/resolver.cpp:62-65 | a byte above 127 can make the first hash negative |
| `ResolverTable.PrimeDividesNoProduct` | common/resolver.cpp:26-28 | a prime divides no product of two smaller positive numbers |
| `ResolverTable.ProbesDiffer` | common/resolver.cpp:67-75 | with a prime size the first hsize probes are different slots |
| `ResolverTable.NotFound` | common/resolver.cpp:67-78 | a name in range not met before a free slot is nowhere in the table |
| `ResolverTable.Stored` | common/resolver.cpp:79-84 | storing a new name in the free slot it leads to keeps every name reachable and the first address of each |
| `ResolverTable.Repeated` | common/resolver.cpp:68-70 | a repeated name changes nothing: the first address wins |
| `ResolverPrimes.PrimeTried` | common/resolver.cpp:26-28 | trial division up to the square root shows a number prime |
| `ResolverPrimes.SizesPrime` | common/resolver.cpp:26-28 | every size of the source but the largest, which is never taken, is prime |
| `Resolver.Walks` | common/resolver.cpp:67-75 | probing goes on to a slot not seen before, so it ends |
| `Resolver.ResolverConf.Hashes` | common/resolver.cpp:57-66 | the loop computes both hashes |
| `Resolver.ResolverConf.GetHash` | common/resolver.cpp:57-85 | for every name in range, returns the first address stored for it, or none; with an address it stores a new name and keeps the others |
| `Resolver.EntriesInRange` | common/resolver.cpp:57-66 | in an ASCII file every name is in range at every size up to SAFE |
| `Resolver.EntriesBound` | common/resolver.cpp:150-191 | a file has at most half as many names as bytes |
| `Resolver.LargestSizeUnused` | common/resolver.cpp:208-245 | so every file below the limit on its length gets a size, which is prime and not the largest |
| `Resolver.ReadAddress` | common/resolver.cpp:159-168 | reads up to four numbers inside the buffer and stops where the original does, after a missing dot one byte on, which may be the place behind the terminating zero |
| `Resolver.GetWord` | common/resolver.cpp:123-138 | skips blanks and returns the extent of the next word |
| `Resolver.ResolverConf.ParseWords` | common/resolver.cpp:179-188 | counts the names after an address and stores them in order, long ones passed over |
| `Resolver.ResolverConf.ParseLine` | common/resolver.cpp:155-188 | a line without a complete nonzero address followed by a blank adds nothing; no byte outside the buffer is read |
| `Resolver.ResolverConf.ParseHosts` | common/resolver.cpp:150-191 | where the scan stays in the buffer both modes count the same names and the storing mode leaves a table that holds exactly the file's entries; otherwise it ends without a count, where the original goes on behind the buffer |
| `Resolver.ResolverConf.Load` | common/resolver.cpp:208-261 | a file of the limit's length or more is refused; every other file whose scan stays in the buffer is loaded with the first size above twice the number of its names, and the table then answers for all of them |
| `ResolverText.WordsRead` | common/resolver.cpp:176-188 | any number of names, each after any blanks, is read in order, those of 128 bytes and more dropped |
| `ResolverText.LineRead` | common/resolver.cpp:154-189 | a line with an address gives its names, none if the address is zero, and the next line begins right after it |
| `ResolverText.EmptyRead` | common/resolver.cpp:154-168 | an empty line changes nothing, although the search for a number on it goes on below it |
| `ResolverText.OtherRead` | common/resolver.cpp:154-174 | a comment, or any line that does not begin like a number, is passed over |
| `ResolverText.EntriesRead` | common/resolver.cpp:106-191 | the entries of a file are those of its lines, in their order |
| `ResolverNumbers.NumberReads` | common/resolver.cpp:140-148 | white space, a sign and figures up to the next other byte are read as the number they write in base ten, clipped or negated as the library does |
| `ResolverNumbers.NothingReads` | common/resolver.cpp:140-148 | where no figure follows the white space and the sign nothing is read |
| `ResolverNumbers.ByteReads` | common/resolver.cpp:140-148 | a number of an address is that number cut to 32 bits, refused above 255 |
| `ResolverNumbers.NoByteReads` | common/resolver.cpp:140-148 | without a number there is none |
| `ResolverNumbers.QuadRead` | common/resolver.cpp:159-168 | four numbers with dots between them are an address, the first number its highest byte |
| `ResolverNumbers.QuadOnly` | common/resolver.cpp:159-168 | nothing else is an address |
| `ResolverNumbers.LineExactly` | common/resolver.cpp:154-189 | a line gives the words behind its address if that is four numbers, not all zero, followed by a blank, and otherwise nothing |
| `ResolverLines.LineKept` | common/resolver.cpp:154-189 | the scan of a line goes on right after its newline if and only if no number is found below from the white space at its end and none before the fourth ends at its newline with text to come |
| `ResolverLines.LineThenRest` | common/resolver.cpp:154-189 | a line that does not run over gives its entries, and the file goes on after it |
| `ResolverLines.LineLost` | common/resolver.cpp:159-168 | a line that is one number loses the line after it |
| `ResolverLines.LineLostIn` | common/resolver.cpp:159-168 | the file "1\n2.2.2.2 a\n" has no entry |
| `ResolverLines.LinesJoined` | common/resolver.cpp:140-168 | an address that ends with a dot is completed from the next line |
| `ResolverBuffer.LineLeaves` | common/resolver.cpp:154-168 | the scan of a line ends behind the terminating zero if and only if one of its first three numbers, each earlier one followed by a dot, is the end of the text |
| `ResolverBuffer.StaysIff` | common/resolver.cpp:154-189 | the scan of a file stays in the buffer if and only if the last line it comes to does not end in such a number |
| `ResolverBuffer.StaysUnlessDigit` | common/resolver.cpp:154-189 | it stays there for every text that does not end with a digit, with or without a last newline |
| `ResolverBuffer.StaysByLastLine` | common/resolver.cpp:154-189 | where no line runs over, it stays there if and only if the text behind the last newline does not end in one of its first three numbers |
| `ResolverBuffer.WrittenStays` | common/resolver.cpp:154-189 | it stays there for every file made of whole lines |
| `ResolverBuffer.OneNumberLeaves` | common/resolver.cpp:165-189 | on the file "1" it does not |
| `ResolverBuffer.DotLastStays` | common/resolver.cpp:165-189 | on the file "1.2.", which ends inside an address, it does |
| `ResolverSearch.InRangeStays` | common/resolver.cpp:67-75 | a search for a name in range looks at places of the table only |
| `ResolverSearch.SearchLeavesTable` | common/resolver.cpp:67-75 | of two names that lead to one place, the first in range and the second with a negative step past zero: in every table that holds the first, the search for the second goes to a negative place |
| `ResolverSearch.LeavesAt` | common/resolver.cpp:67-75 | for each size above SAFE that a file can lead to: a file, the table loaded from it, and a name whose search leaves that table |
| `ResolverSearch.SearchesStayIff` | common/resolver.cpp:57-75 | for the sizes a file can lead to, every search for an ASCII name in every table loaded from an ASCII file stays in the table if and only if the size is at most SAFE |
| `TypeHints.MakeOptional` | compiler/type-hint.cpp:344-356 | an optional of an optional is one optional with the flags of both |
| `TypeHintGrammar.CombineIs` | compiler/phpdoc.cpp:686-728 | the alternatives of a union combine to the hint the written form means, flags and bare bool included |
| `TypeHintReads.ExpressionReads` | compiler/phpdoc.cpp:686-728 | a written hint standing in a text, with nothing behind it that would continue it, is read as what it means, and the cursor stops right after it; where it means nothing, parsing fails |
| `TypeHintReads.SimpleReads` | compiler/phpdoc.cpp:340-509 | the same for words, names, parentheses, nullable types, tuples, arrays, shapes and callables |
| `TypeHintReads.ArrayReads` | compiler/phpdoc.cpp:404-414 | array with one type, or with two, of which the last one is the element type; more are refused |
| `TypeHintReads.ShapeReads` | compiler/phpdoc.cpp:627-684 | shapes by their fields, question marks and dots |
| `TypeHintReads.FunctionToReads` | compiler/phpdoc.cpp:592-625 | callables by their arguments and their return type |
| `TypeHintForms.FormExpression` | compiler/phpdoc.cpp:686-728 | whatever the parser accepts is a written hint that ends where it stops and means what it returns |
| `TypeHintForms.ReadsExactly` | compiler/phpdoc.cpp:340-728 | the parser returns a hint and a place if and only if a written hint with that meaning stands there and ends at that place |
| `TypeHintReread.ExpressionIs` | compiler/phpdoc.cpp:686-728 | printed anywhere in a text, every hint is parsed to what Reread says, and the cursor stops right after it |
| `TypeHintReread.AlternativesAre` | compiler/phpdoc.cpp:686-728 | the alternatives read from a printed hint and from what follows it: unions run together, nullable types and typed callables swallow the rest |
| `TypeHintReread.FieldsAre` | compiler/phpdoc.cpp:627-684 | printed shapes, open or not, are parsed field by field |
| `TypeHintReread.ArgumentsAre` | compiler/phpdoc.cpp:592-625 | printed argument lists of callables are parsed argument by argument, the empty one included |
| `TypeHintReread.ArrayIs` | compiler/phpdoc.cpp:532-554 | printed arrays of any depth are parsed with the element types in parentheses or not |
| `TypeHintRoundTrip.ParsePrint` | compiler/type-hint.cpp:455-522 | parsing the printed form of any hint gives what Reread says |
| `TypeHintRoundTrip.CanonicalRereads` | compiler/type-hint.cpp:455-522 | canonical hints are reread as themselves |
| `TypeHintRoundTrip.RereadsCanonical` | compiler/type-hint.cpp:455-522 | only canonical hints are reread as themselves |
| `TypeHintRoundTrip.RoundTrip` | compiler/phpdoc.cpp:340-728 | a hint comes back from its printed form if and only if it is canonical |
| `TypeHintRoundTrip.ReservedLost` | compiler/phpdoc.cpp:443-498 | a class with a reserved name does not come back |
| `TypeHintRoundTrip.NullableMemberDrifts` | compiler/type-hint.cpp:500-506 | a printed union that begins with a nullable member is read as a nullable union |
| `TypeHintParser.PhpDocTypeHintParser.ParseSimpleType` | compiler/phpdoc.cpp:340-509 | the switch over the token and the cursor agree with the grammar function |
| `TypeHintParser.PhpDocTypeHintParser.ParseTypeArray` | compiler/phpdoc.cpp:532-554 | the loop over brackets builds the nested arrays |
| `TypeHintParser.PhpDocTypeHintParser.ParseNestedTypeHints` | compiler/phpdoc.cpp:556-575 | the vector grown by the loop is the list of the grammar function, errors included |
| `TypeHintParser.PhpDocTypeHintParser.ParseTypedCallable` | compiler/phpdoc.cpp:592-625 | arguments, parameter names as comments, and the return type that defaults to void |
| `TypeHintParser.PhpDocTypeHintParser.ParseShapeType` | compiler/phpdoc.cpp:627-684 | fields with optional question marks, and the trailing dots |
| `TypeHintParser.Simplify` | compiler/phpdoc.cpp:716-727 | the flags and the loop at the end of a union simplify it as specified |
| `TypeHintParser.PhpDocTypeHintParser.ParseTypeExpression` | compiler/phpdoc.cpp:686-728 | stopping at a bare bool while reading equals refusing the whole union |
| `TypeHintParser.PhpDocTypeHintParser.ParseFromTokens` | compiler/phpdoc.cpp:730-742 | trailing dots make an array of the type read |
| `LexerString.DecodeEscape` | compiler/lexer.cpp:586-628 | a value comes back from its escaped form, anywhere in a text, if and only if it has no zero character |
| `LexerString.DecodeSpelled` | compiler/lexer.cpp:586-628 | text made of pieces (plain characters, lone backslashes, doubled backslashes, escaped apostrophes) is read as the characters the pieces stand for, up to the apostrophe, and fails at the end of the text |
| `LexerString.Spellings` | compiler/lexer.cpp:586-628 | every text up to its closing apostrophe, or its end, is made of such pieces |
| `LexerString.LexerData.AppendChar` | compiler/lexer.cpp:78-93 | writes one character at the write cursor and nothing else, counting lines |
| `LexerString.LexerData.FlushStr` | compiler/lexer.cpp:95-103 | adds the token and blanks the text up to the read cursor; the loop ends |
| `LexerString.LexerData.ReadString` | compiler/lexer.cpp:595-624 | the write cursor never passes the read cursor, and what is not read yet is unchanged |
| `LexerString.LexerData.ParseSimpleString` | compiler/lexer.cpp:586-628 | token, cursor, line count, blanks and untouched text after lexing, or the error if the text ends |
| `LexerString.LexerData.LexQuoted` | compiler/lexer.cpp:586-628 | lexing the quoted escaped form of a value leaves a token that spells the value and the unread source as it was |
| `LexerString.LexerData.LexSpelled` | compiler/lexer.cpp:586-628 | lexing any spelling leaves a token that spells what its pieces stand for, and the unread source as it was; it fails exactly if the closing apostrophe is missing |
| `ExactDivision.NewtonStep` | common/exact-division.h:33-41 | one update turns 1 + e into 1 - e^2 modulo 2^32 |
| `ExactDivision.PrecisionStep` | common/exact-division.h:33-41 | the number of correct bits doubles from 3 and four updates are enough |
| `ExactDivision.Divider.Init` | common/exact-division.h:21-42 | ends after at most four updates with the inverse of the divisor's odd part modulo 2^32, for every nonzero divisor |
| `ExactDivision.Divider.Divide` | common/exact-division.h:44-49 | every multiple of the divisor below 2^64 gives its quotient, cut to 32 bits |
| `Backtrace.CollapsedIs` | common/fast-backtrace.cpp:73-79 | dropping the shortest repeated block at the end leaves no repeated block anywhere, the same addresses and the same last one |
| `Backtrace.CollapsedExactly` | common/fast-backtrace.cpp:73-79 | if a block at the end stands twice, the second copy of the shortest such block is dropped and nothing else; if none does, nothing is dropped |
| `Backtrace.PushExactly` | common/fast-backtrace.cpp:69-88 | the same for the step of the walk: the new address is added, then at most one repetition is dropped |
| `Backtrace.HistoryIs` | common/fast-backtrace.cpp:69-88 | after every step the trace has no two equal adjacent blocks, ends with the last address and has exactly the addresses visited |
| `Backtrace.HistoryRepeats` | common/fast-backtrace.cpp:69-88 | the addresses visited come back from the trace by repeating, one after the other, blocks that stand in it |
| `Backtrace.TraceIs` | common/fast-backtrace.cpp:69-88 | the trace has no two equal adjacent blocks, and the addresses visited come back from it in that way |
| `Backtrace.Collapse` | common/fast-backtrace.cpp:74-79 | the inner loop drops the second copy of the shortest block that stands twice at the end, and nothing if there is none |
| `Backtrace.BacktraceWithoutRecursions` | common/fast-backtrace.cpp:69-88 | the walk ends, visits frames in strictly increasing order inside the stack, stops only for the reasons given, and leaves in the buffer a trace without repetition from which the addresses visited come back by repeating blocks |

## Left out

- CrcRepair.CheckAndRepair: that no power of x repeats below the search bound (the polynomial is primitive) is a hypothesis of its last clause, because proving the order of x needs a computation of its own.
- CrcRepair.FindCorruptedBit: the stride, a rounded square root computed in floating point, is a parameter, since every positive stride gives the same guarantee; bit counts are not cut to ints, so blocks of 2^28 bytes and more are not modelled; the library sort is modelled by a sort with its contract.
- CrcSliced.PartialFourTables: the number of 32-byte blocks is not cut to an int, so CRC-32C of 2^36 bytes and more is not modelled.
- CrcVectors.Zeroes: of the values in appendix B.4 of RFC 3720, those of 32 ones, of 32 decreasing bytes and of a command are left out; they exercise nothing further.
- CrcLanes.PartialClmul: the constants are powers of x by definition; that the source's literals are these powers is not stated. The same holds for the literal tables and for the assertions on literals when the CRC-64 powers are initialised.
- Choice of a CRC routine by processor features.
- Trees: the variants that return the deleted node, the walks that apply an action, counting, checking and freeing; insertion of a key that is present, which the original asserts against. Memory is not freed anywhere in the model.
- ExprParens.RightParens: parentheses around the operand of a prefix operator, around a condition and around a last branch are not considered, only those around operands of binary operators.
- ExprRoundTrip.ParsePrint: the operator table is given by functions of the token, with the levels the original's running counter assigns, and filling it is left out; postfix operators, calls, indexing, casts of other operands and locations are not modelled; the order of evaluation is not part of a value.
- FunctionPass.RunFunctionPass: vertices are trees, so sharing between vertices is not modelled; the mark in a stack entry's pointer is a boolean; termination of the original depends on the pass, so the method is given a depth at which the recursion ends.
- ClosureGen.ConversionPreservesMeaning: a list of captured variables repeats no name, which the original does not look at; statements, by-reference captures, default arguments, interfaces of typed callables and callbacks given as strings are not modelled; programs are expressions with assignment.
- Registry: the lock-free hash table under the nodes is not modelled; each step is atomic because the original runs it under the lock of its node.
- TypeHintRoundTrip.RoundTrip: names are resolved already; references to arguments, fields and methods, class-string, ffi types and @tl names are not modelled, and the names that begin them are refused; shapes' keys are tokens by their text; in K2 output mode regexp prints as a name with colons, which does not come back and is not modelled.
- LexerString.LexerData.ParseSimpleString: the error token after an unexpected end, and the rewriting of the last tokens, are not modelled.
- Resolver.ResolverConf.Load: names are to be in range at the size taken, which all names of an ASCII file are up to SAFE; reading the file and its dates, and the fallback to the system's resolver, are left out; nothing is promised of a file whose scan leaves the buffer, because the original then reads what lies behind it.
- Md5Stream.Context.Update: lengths are those of an int, below 2^31; HMAC and wiping of the context are left out.
- Backtrace.BacktraceWithoutRecursions: memory is a function from frame pointers to frames; the plain backtrace beside it is left out.
- The runtime's values and containers, the code generator, type inference, the server and all input and output.

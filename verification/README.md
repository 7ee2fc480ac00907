# Models of compressors, package logic and small algorithms from BusyBox

This project models code of BusyBox 1.32.0 and one small experiment, and proves what that
code is for.

* **gzip** (`archival/gzip.c`): the whole way from input bytes to a deflate stream. The
  decoder of RFC 1951 is written as a short function (`Rfc1951.dfy`) and the compressor
  is proved against it: the sliding window with its hash chains (`Hashing`, `Chains`,
  `LongestMatch`, `Window`), lazy matching (`LazyMatching`, `Deflate`, `Progress`, `Lz77`), Huffman trees
  from an array heap (`PqHeap`, `MergeLoop`, `HuffmanOptimal`, `Weights`, `BuildTree`, `Frequencies`), the repair of
  over-long codes (`GenBitlen`, `LengthRepair`, `Reassign`, `BitLengths`), canonical codes
  (`Canonical`, `GenCodes`), the run-length coded header (`RunLengths`, `TreeHeader`,
  `SendTree`, `Header`, `ThreeTrees`, `TreeSet`, `AllTrees`), tokens and blocks
  (`CodeTables`, `TokenBuffer`, `BlockCode`, `CompressBlock`, `Costs`, `BlockPlan`,
  `StoredBound`, `EmitBlock`, `Blocks`, `BlockCoder`, `Coder`), the bit buffer
  (`BitWriter`), and all of it together (`Gzip`).
* **lzop** (`archival/lzop.c`): the in-place optimiser of LZO1X streams, proved against a
  decoder (`Lzo1x`, `LzoUnits`, `LzoRewrite`, `LzoSteps`) and against a rewriting of the
  list of operations (`LzoList`, `LzoTrack`, `LzoOptimize`), and Adler-32
  with its delayed modulus (`Adler32`).
* **dpkg** (`archival/dpkg.c`): the three hash tables (`Primes`, `DoubleHash`), the Debian
  version order (`DebVersion`), reading dependency lines (`CStrings`, `DepLines`,
  `SplitLines`), the walk over flat edge lists (`Depends`), and building the package
  database and checking it (`Packages`, `Database`, `Paragraphs`, `StatusFile`).
* **factor** (`coreutils/factor.c`, `libbb/isqrt.c`): trial division with a packed sieve word
  (`Factor`).
* **expr** (`coreutils/expr.c`): evaluation without a tree (`Expr`).
* **tail** (`coreutils/tail.c`): the tail of a stream across reads (`Tail`).
* **hash_name** (`count_masked_bytes/main.c`): hashing a word at a time (`HashName`).

The code that updates things in place is modelled by classes and methods with loops; each
is proved against functions and predicates on values, and the theorems are about those.
Two devices recur in the proofs: `Whole` (in `Bits.dfy`) keeps a large predicate in one
piece in a contract, and `hide` statements keep definitions folded where a proof does not
need them.

`dafny verify dfyconfig.toml` checks everything.

Where code and comments disagree the code is modelled: `version_compare` takes an epoch
with blanks or a sign in front of it, because `atoi` does; a single `<` or `>` in a
dependency means `<<` or `>>`, because `strncmp` compares only as many characters as there
are. `expr` evaluates both operands of `|` and `&`, so that an error in the one not needed
still ends the program. Its `<` is not transitive: two numbers are compared as numbers, a
number and other text as text, so that 10 < 10! and 10! < 9; `Expr.LessTransitive` and
`Expr.TransitivityFails` say exactly when.

## Model

| member | source | states |
|---|---|---|
| `Gzip.Compress` | busybox/busybox-1.32.0/archival/gzip.c:2062-2101 | For every input and every way of reading it in pieces, the bytes written are a complete deflate stream: the RFC 1951 decoder gives back exactly the input, and fewer than 8 zero bits are left over. The tokens in it are those the lazy rule makes of a run of searches over the whole input, each of which misses no longer match in reach; each block ends where ct_tally asks for it and takes the smallest of its three forms, the one with its own codes being built from codes that no prefix code beats |
| `Deflate.Deflater.Loop` | busybox/busybox-1.32.0/archival/gzip.c:1808-1905 | When the loop of deflate ends the blocks sent and the tokens tallied stand for the whole input, but for a last literal in hand, and all tokens are those that the lazy rule makes of the searches, one for every string that was current |
| `Deflate.Deflater.Step` | busybox/busybox-1.32.0/archival/gzip.c:1817-1896 | One round: the match in hand is taken if it has three bytes and the one found at the current string is no longer; else the byte in hand goes out as a literal, and what was found is in hand. The search at the current string has missed no longer match in reach |
| `Deflate.Deflater.FindMatch` | busybox/busybox-1.32.0/archival/gzip.c:1818-1848 | The current string is entered in the chains. With a match shorter than MAX_LAZY in hand the result is as long as what any earlier string in reach shares with it, cut to the lookahead and NICE_MATCH, unless it was a 3-byte match beyond TOO_FAR, and no nearer string is as good before the input ends; with a longer one there is no search. A result longer than the match in hand is a real match in the input, 3 to 258 bytes, at most MAX_DIST back |
| `Deflate.PickMatch` | busybox/busybox-1.32.0/archival/gzip.c:1829-1847 | The search that longest_match makes, cut to the lookahead and by the TOO_FAR rule, has missed no string in reach |
| `Deflate.Deflater.TakeMatch` | busybox/busybox-1.32.0/archival/gzip.c:1849-1876 | Tallying the match in hand extends what the tokens cover by its length, and the strings inside it are entered |
| `Deflate.Deflater.TakeLiteral` | busybox/busybox-1.32.0/archival/gzip.c:1877-1888 | The byte before the current string is tallied as a literal |
| `Deflate.Deflater.Finish` | busybox/busybox-1.32.0/archival/gzip.c:1906-1909 | The waiting literal and the last block complete the stream for the whole input |
| `Progress.CodingFound` | busybox/busybox-1.32.0/archival/gzip.c:1849-1854 | A match that was found can be tallied: length 3..258, distance 1..MAX_DIST, within TOO_FAR for length 3, and the tokens then cover that much more input |
| `Progress.CodingBlock` | busybox/busybox-1.32.0/archival/gzip.c:1873-1876 | Flushing a block turns the tokens into a block for the same bytes |
| `Progress.CodingEnd` | busybox/busybox-1.32.0/archival/gzip.c:1906-1909 | The blocks sent and a final block inflate to the whole input |
| `Lz77.CopyRepeats` | busybox/busybox-1.32.0/archival/gzip.c:702-782 | Copying from d back, overlapping or not, reproduces input that repeats with distance d |
| `Sources.Source.Read` | busybox/busybox-1.32.0/archival/gzip.c:520-533 | A read gives the next bytes of the input, any number up to the size asked for, and none only at the end |
| `Windows.Window.Fill` | busybox/busybox-1.32.0/archival/gzip.c:639-687 | After fill_window the window still holds the input up to where reading has got, shifted if it slid, the hash chains are intact and the block start is still in the window or the block is long |
| `Windows.Window.FillIfNeeded` | busybox/busybox-1.32.0/archival/gzip.c:689-693 | There are MIN_LOOKAHEAD bytes ahead, or the file is at its end |
| `Windows.Window.Slide` | busybox/busybox-1.32.0/archival/gzip.c:653-675 | Moving the upper half of the window down and subtracting WSIZE from every link keeps the data, the position in the input and the chains |
| `Windows.Window.Insert` | busybox/busybox-1.32.0/archival/gzip.c:1801-1805 | INSERT_STRING: the string is in the chains, none has been lost, and what it returns is the string it now links to, an earlier one with the same hash, or 0 |
| `Windows.Window.Skip` | busybox/busybox-1.32.0/archival/gzip.c:1856-1872 | All strings of the match are in the chains, and the window is behind it |
| `Windows.Window.Init` | busybox/busybox-1.32.0/archival/gzip.c:1925-1959 | lm_init: the start of the file is in the window and two bytes are in the hash |
| `Hashing.Forgets` | busybox/busybox-1.32.0/archival/gzip.c:1772-1772 | After three updates nothing is left of the hash before |
| `Hashing.ThirdByte` | busybox/busybox-1.32.0/archival/gzip.c:743-756 | Equal hashes and two equal bytes force the third byte to be equal, which longest_match does not compare |
| `Chains.InsertKeeps` | busybox/busybox-1.32.0/archival/gzip.c:1801-1805 | Entering a string keeps the chains: every link leads to an older string with the same hash, and every string of the last WSIZE, the new one included, is the head of its hash or linked to by a later one |
| `Chains.SlideKeeps` | busybox/busybox-1.32.0/archival/gzip.c:653-675 | Sliding the window and the links together keeps that: links stay right and no string that is still in the window drops out |
| `LongestMatches.Compare` | busybox/busybox-1.32.0/archival/gzip.c:756-768 | Comparing in steps of eight finds exactly the common length, at most MAX_MATCH |
| `LongestMatches.LongestMatch` | busybox/busybox-1.32.0/archival/gzip.c:708-782 | The loop computes the search along the chain: the same string and length as the plain search |
| `LongestMatches.SearchFinds` | busybox/busybox-1.32.0/archival/gzip.c:708-782 | What the search reports beyond the match it was given is a real match within MAX_DIST |
| `LongestMatches.SearchIsLongest` | busybox/busybox-1.32.0/archival/gzip.c:708-782 | No string that the search looks at along the chain has a longer match, unless it stopped at one that is nice enough |
| `LongestMatches.LongestInReach` | busybox/busybox-1.32.0/archival/gzip.c:702-782 | No earlier string of the input within reach has a longer match of three bytes or more, unless the search stopped at a nice one or max_chain_length more recent strings have the same hash; at MAX_DIST itself that goes for the most recent string of the hash; of equally long ones the most recent is taken |
| `LongestMatches.FindLonger` | busybox/busybox-1.32.0/archival/gzip.c:708-782 | longest_match returns a length that no string in reach beats, unless it is a nice one, and the nearest real match of that length |
| `LongestMatches.NoneInReach` | busybox/busybox-1.32.0/archival/gzip.c:1829-1834 | Where the newest string of the hash is missing or too far there is no string in reach |
| `LongestMatches.OnChain` | busybox/busybox-1.32.0/archival/gzip.c:1801-1805 | Every string in the window is reached from the head of its hash |
| `LongestMatches.Rank` | busybox/busybox-1.32.0/archival/gzip.c:776-780 | Following i links from a string passes exactly the i most recent strings of its hash |
| `Coders.Coder.Tally` | busybox/busybox-1.32.0/archival/gzip.c:1571-1623 | The token is saved and its symbols counted; all tokens saved keep length 3..258, distance up to MAX_DIST and the TOO_FAR rule. It asks for a flush exactly if the buffers are full or, every 4096 tokens, the distances are few and the estimate is below half the input |
| `Coders.Coder.Flush` | busybox/busybox-1.32.0/archival/gzip.c:1678-1764 | flush_block: the bits sent decode to the bytes the tokens stand for; there are as many of them as the smallest of the three block types takes, and a new block is begun |
| `Coders.Coder.SendPlanned` | busybox/busybox-1.32.0/archival/gzip.c:1700-1751 | The bits sent are those of the smallest of stored, fixed and own codes for the tokens, counted in bytes, with stored before fixed before own where they are equal; the choice never depends on whether the data is still in the window |
| `Coders.Coder.Restart` | busybox/busybox-1.32.0/archival/gzip.c:1093-1110 | init_block: no tokens, all frequencies 0 but that of the end-of-block code |
| `BlockCoders.Emit` | busybox/busybox-1.32.0/archival/gzip.c:1700-1751 | A stored block is sent exactly if its bytes and four are no more than those of either code, fixed codes only if own codes take no fewer bytes, own codes only if they take fewer; the bits are as many as counted, and decode to the same bytes |
| `BlockCoders.ChooseForm` | busybox/busybox-1.32.0/archival/gzip.c:1700-1745 | The form chosen is the one that takes the fewest bytes |
| `Blocks.StoredFits` | busybox/busybox-1.32.0/archival/gzip.c:1728-1739 | Tokens whose stored form is no longer than the fixed one stand for so few bytes that they fit the 16-bit LEN field |
| `StoredBound.MatchCost` | busybox/busybox-1.32.0/archival/gzip.c:1841-1847 | With the TOO_FAR rule a match costs at most 31 and at most 8*length-2 bits in the fixed codes |
| `StoredBound.StoredIsSmall` | busybox/busybox-1.32.0/archival/gzip.c:1700-1739 | stored_len + 4 <= opt_lenb holds only for blocks of at most 19452 bytes |
| `BlockPlan.PlanHolds` | busybox/busybox-1.32.0/archival/gzip.c:1685-1702 | opt_len and static_len are exactly the bits that the trees and the tokens take, forced codes and repaired lengths included; both codes are best for the tokens unless a code has all 15 bits, and the header sends no zero length at its end |
| `BlockPlan.BodyCost` | busybox/busybox-1.32.0/archival/gzip.c:1571-1623 | The frequencies times the code lengths and extra bits are exactly the bits of the tokens |
| `Costs.TokensCost` | busybox/busybox-1.32.0/archival/gzip.c:1628-1671 | The bits of the tokens and the end-of-block code are exactly the cost of the frequencies counted for them |
| `BlockFormat.InflateChain` | busybox/busybox-1.32.0/archival/gzip.c:1678-1764 | Decoding a chain of blocks arrives at its end with its output |
| `BlockFormat.InflateAll` | busybox/busybox-1.32.0/archival/gzip.c:1678-1764 | A chain of blocks and a final one are a complete stream |
| `EmitBlock.CopyBlock` | busybox/busybox-1.32.0/archival/gzip.c:613-629 | copy_block: LEN and its complement, then the bytes, from a byte boundary |
| `EmitBlock.SendStored` | busybox/busybox-1.32.0/archival/gzip.c:1736-1739 | The stored block decodes to its bytes |
| `EmitBlock.SendFixed` | busybox/busybox-1.32.0/archival/gzip.c:1741-1743 | Type bits and the tokens in the fixed codes |
| `EmitBlock.SendDynamic` | busybox/busybox-1.32.0/archival/gzip.c:1745-1749 | Type bits, header and the tokens in the dynamic codes |
| `CompressBlock.Compress` | busybox/busybox-1.32.0/archival/gzip.c:1628-1671 | compress_block sends exactly the bits of the tokens in the buffers and the end-of-block code |
| `BlockCode.DecodesBlock` | busybox/busybox-1.32.0/archival/gzip.c:1628-1671 | Those bits decode by sections 3.2.3 and 3.2.5 of RFC 1951 to exactly the tokens |
| `TokenBuffers.TokenBuffer.Push` | busybox/busybox-1.32.0/archival/gzip.c:1571-1600 | The literal, distance and flag buffers hold the tokens with the new one at the end |
| `CodeTables.Tables.InitLengths` | busybox/busybox-1.32.0/archival/gzip.c:1981-1994 | Every match length gets the code of section 3.2.5 of RFC 1951 that covers it |
| `CodeTables.Tables.InitDistances` | busybox/busybox-1.32.0/archival/gzip.c:1996-2011 | Every distance gets the code that covers it, through the two halves of dist_code |
| `CodeTables.PrintedLengthTable` | busybox/busybox-1.32.0/archival/gzip.c:1981-1994 | The decoder formulas for lengths are the tables RFC 1951 prints |
| `CodeTables.PrintedDistanceTable` | busybox/busybox-1.32.0/archival/gzip.c:1996-2011 | The decoder formulas for distances are the tables RFC 1951 prints |
| `StaticTrees.StaticLitTree` | busybox/busybox-1.32.0/archival/gzip.c:2014-2046 | The static literal tree has the fixed codes of section 3.2.6 of RFC 1951 |
| `StaticTrees.StaticDistTree` | busybox/busybox-1.32.0/archival/gzip.c:2048-2052 | The static distance tree has five-bit codes |
| `BuildTree.NodesFit` | busybox/busybox-1.32.0/archival/gzip.c:1361-1371 | No node of a tree weighs more than the symbols counted and two forced ones together |
| `BlockCoders.BuildAll` | busybox/busybox-1.32.0/archival/gzip.c:1685-1698 | The three trees of a block of at most 8191 tokens: all that flush_block needs for sending them, and no frequency, those of nodes included, leaves 16 bits |
| `Weights.WeightConserved` | busybox/busybox-1.32.0/archival/gzip.c:1361-1381 | Joining nodes keeps the weight of the pool |
| `Frequencies.TokensTotal` | busybox/busybox-1.32.0/archival/gzip.c:1571-1623 | The literal and length frequencies add up to one more than the tokens, the distance frequencies to no more than the tokens |
| `Frequencies.ClTotal` | busybox/busybox-1.32.0/archival/gzip.c:1400-1446 | The frequencies of the code length alphabet add up to no more than the lengths of both trees |
| `BuildTree.Build` | busybox/busybox-1.32.0/archival/gzip.c:1310-1392 | build_tree gives a complete canonical code for every symbol that occurs, its exact cost in both trees, and lengths read off a Huffman tree; the code is a cheapest prefix code whenever no father of that tree is as deep as max_length, and in particular whenever no code has all max_length bits; no frequency of the tree exceeds the symbols counted by more than two |
| `BuildTree.OriginalBest` | busybox/busybox-1.32.0/archival/gzip.c:1326-1350 | With two symbols in use nothing is forced, and the code is cheapest for the frequencies given |
| `BuildTree.ForceCodes` | busybox/busybox-1.32.0/archival/gzip.c:1335-1349 | There are at least two symbols; those added are 0 and 1 in a tree without symbols, the one behind a single 0 or 1, else 0, and they are taken off both costs |
| `BuildTree.OptCostExact` | busybox/busybox-1.32.0/archival/gzip.c:1340-1349 | The corrections cancel exactly what forced symbols are counted for |
| `HuffmanOptimal.HuffmanIsOptimal` | busybox/busybox-1.32.0/archival/gzip.c:1310-1392 | Depths from merging the two lightest nodes cost no more than any prefix code for the same symbols |
| `HuffmanOptimal.PrefixCodeKraft` | busybox/busybox-1.32.0/archival/gzip.c:1310-1392 | A prefix code does not oversubscribe the code space |
| `PqHeap.PqDownHeap` | busybox/busybox-1.32.0/archival/gzip.c:1125-1147 | pqdownheap restores the heap from the node down and keeps the nodes |
| `PqHeap.TopIsSmallest` | busybox/busybox-1.32.0/archival/gzip.c:1125-1147 | The top of the heap is smallest in frequency, then depth |
| `MergeLoop.MergeAll` | busybox/busybox-1.32.0/archival/gzip.c:1358-1383 | Each round joins the two lightest nodes, of equally heavy ones those with the lower subtrees, until one is left, and the heap array records them in order; depths count from 0 at the leaves |
| `MergeLoop.TakenAreLightest` | busybox/busybox-1.32.0/archival/gzip.c:1361-1366 | The two nodes taken are the two lightest of all, in frequency and then in depth |
| `BitLengths.GenerateLengths` | busybox/busybox-1.32.0/archival/gzip.c:1159-1242 | gen_bitlen: lengths 1..max_length for the leaves that use up the code space exactly, bl_count is their histogram, both costs are exact; the lengths are the depths of the tree unless some were cut off, and then some code has all max_length bits and the sooner a leaf was taken for a merge, the longer its code |
| `Reassign.ClippedIsOversubscribed` | busybox/busybox-1.32.0/archival/gzip.c:1170-1203 | Cutting depths off at max_length oversubscribes the code by exactly overflow/2 units of 2^-max_length |
| `LengthRepair.Repair` | busybox/busybox-1.32.0/archival/gzip.c:1208-1220 | The repair loop ends with a complete code for as many symbols, and some of max_length; for each unit of overflow the deepest leaf above max_length was moved down |
| `LengthRepair.RoundRemovesOneUnit` | busybox/busybox-1.32.0/archival/gzip.c:1209-1219 | Each round removes one unit and keeps the number of codes |
| `LengthRepair.SomeShortCode` | busybox/busybox-1.32.0/archival/gzip.c:1210-1212 | There is always a shorter code to lengthen |
| `BitLengths.DealOut` | busybox/busybox-1.32.0/archival/gzip.c:1222-1240 | Lengths dealt out again match the repaired counts, the leaves taken first for merges have the longest, and opt_len follows |
| `Reassign.OrderLeaf` | busybox/busybox-1.32.0/archival/gzip.c:1222-1240 | Giving the next leaf the current length keeps the lengths falling from the leaves taken first to those taken last |
| `GenCodes.Generate` | busybox/busybox-1.32.0/archival/gzip.c:1252-1286 | Every symbol of non-zero length gets its canonical code, bit-reversed |
| `GenCodes.BiReverse` | busybox/busybox-1.32.0/archival/gzip.c:579-589 | bi_reverse: sent low bit first, the code comes out high bit first |
| `Canonical.PrefixFree` | busybox/busybox-1.32.0/archival/gzip.c:1252-1286 | No canonical code starts another |
| `Canonical.CodeFits` | busybox/busybox-1.32.0/archival/gzip.c:1252-1286 | Every code is below 2^len |
| `Canonical.DecodesSymbol` | busybox/busybox-1.32.0/archival/gzip.c:1252-1286 | Decoding a code word gives its symbol and leaves the bits after it |
| `TreeHeader.ScanTree` | busybox/busybox-1.32.0/archival/gzip.c:1400-1446 | scan_tree adds to the frequencies exactly the items that send_tree will emit |
| `SendTree.SendLengths` | busybox/busybox-1.32.0/archival/gzip.c:1452-1503 | send_tree sends exactly those items in the code of the code length alphabet |
| `RunLengths.RleExpands` | busybox/busybox-1.32.0/archival/gzip.c:1400-1503 | Expanding the items by section 3.2.7 of RFC 1951 gives back the lengths, for every sequence of lengths |
| `RunLengths.RleValid` | busybox/busybox-1.32.0/archival/gzip.c:1400-1503 | Every repeat field fits its 2, 3 or 7 bits, and no tree starts by repeating the previous length |
| `TreeSets.TreeSet.BuildPair` | busybox/busybox-1.32.0/archival/gzip.c:1685-1690 | The literal and distance trees are built, with their exact costs |
| `TreeSets.TreeSet.BuildCl` | busybox/busybox-1.32.0/archival/gzip.c:1509-1536 | build_bl_tree: a code length code for the items of both trees, the number of its lengths to send, and the exact cost of the header |
| `ThreeTrees.LastClIndex` | busybox/busybox-1.32.0/archival/gzip.c:1523-1530 | The last length sent is not 0, all after it are, and at least four are sent |
| `AllTrees.SendAllTrees` | busybox/busybox-1.32.0/archival/gzip.c:1543-1565 | send_all_trees sends exactly the header |
| `Header.DecodesHeader` | busybox/busybox-1.32.0/archival/gzip.c:1543-1565 | The decoder recovers the lengths of both trees from the header |
| `BitWriters.BitWriter.SendBits` | busybox/busybox-1.32.0/archival/gzip.c:539-572 | What has been sent, bytes and bit buffer together, grows by exactly the bits of the value; bi_valid stays below 32 |
| `BitWriters.BitWriter.Windup` | busybox/busybox-1.32.0/archival/gzip.c:594-607 | Zero bits to the next byte boundary, and an empty bit buffer |
| `BitWriters.BitWriter.Put16` | busybox/busybox-1.32.0/archival/gzip.c:443-479 | Two bytes, low byte first |
| `BitWriters.BitWriter.Put32` | busybox/busybox-1.32.0/archival/gzip.c:482-497 | Four bytes, low byte first |
| `LzoOptimize.Optimize` | busybox/busybox-1.32.0/archival/lzop.c:143-393 | For every stream that decodes, the stream rewritten in place has the same length and decodes to the same bytes, which are also the bytes written to out. Its operations, read with the decoder, are exactly what the five cases, applied from left to right with the literals before each match, make of the operations of the old stream |
| `LzoLists.RewriteKeeps` | busybox/busybox-1.32.0/archival/lzop.c:223-357 | The rewriting of the operations keeps the bytes they produce in number, and every match of more than three bytes, in order |
| `LzoLists.StreamKeeps` | busybox/busybox-1.32.0/archival/lzop.c:223-357 | So it does for the operations of every stream |
| `LzoTracks.ChangeIs` | busybox/busybox-1.32.0/archival/lzop.c:223-342 | The case that the next byte and the literal count show is the one the operations call for |
| `LzoTracks.MoreOnTrack` | busybox/busybox-1.32.0/archival/lzop.c:221-230 | Making a match literals of the match before it is the step that the rewriting of the operations asks for |
| `LzoTracks.NewRunOnTrack` | busybox/busybox-1.32.0/archival/lzop.c:233-256 | So is a new run |
| `LzoTracks.JoinOnTrack` | busybox/busybox-1.32.0/archival/lzop.c:277-292 | So is joining two runs |
| `LzoTracks.EndOnTrack` | busybox/busybox-1.32.0/archival/lzop.c:315-316 | At the end marker the new stream has the operations that the rewriting of all gives |
| `LzoOptimize.Optimizer.DoLong` | busybox/busybox-1.32.0/archival/lzop.c:320-360 | An M3 or M4 match is treated as the rewriting of the operations says, and what has been decoded stays right |
| `LzoOptimize.Optimizer.EndM1` | busybox/busybox-1.32.0/archival/lzop.c:207-262 | So is an M1 match |
| `LzoOptimize.Optimizer.EndM2` | busybox/busybox-1.32.0/archival/lzop.c:274-292 | So is an M2 match |
| `LzoOptimize.Optimizer.NewRunHere` | busybox/busybox-1.32.0/archival/lzop.c:232-256 | Rewriting a match that has a run behind it keeps what the stream decodes to and what has been written out |
| `LzoOptimize.Optimizer.JoinHere` | busybox/busybox-1.32.0/archival/lzop.c:277-292 | Rewriting a match between two runs keeps what the stream decodes to and what has been written out |
| `LzoOptimize.Optimizer.MakeRun` | busybox/busybox-1.32.0/archival/lzop.c:239-250 | The bytes after the rewriting: the short count cleared, a header for the longer run, the literals moved up behind it, then what the match stood for |
| `LzoOptimize.Optimizer.MakeJoin` | busybox/busybox-1.32.0/archival/lzop.c:281-286 | The bytes after the rewriting: the new length in the first header, and what the match stood for in place of the match and the second header |
| `LzoUnits.RelabelShort` | busybox/busybox-1.32.0/archival/lzop.c:221-231 | Changing the trailing-literal count of a short match changes nothing else |
| `Adler32.LzoAdler32` | busybox/busybox-1.32.0/archival/lzop.c:510-536 | The checksum is the per-byte modular one of section 8.2 of RFC 1950, started from any value; without a buffer it is 1 |
| `Adler32.NoOverflow` | busybox/busybox-1.32.0/archival/lzop.c:513-531 | NMAX bytes keep both sums in 32 bits from any 16-bit sums |
| `Adler32.OneMoreOverflows` | busybox/busybox-1.32.0/archival/lzop.c:513-517 | NMAX is the largest: 5553 bytes of 255 overflow from the largest sums |
| `Adler32.RawAgrees` | busybox/busybox-1.32.0/archival/lzop.c:525-533 | Leaving out the modulus changes nothing modulo 65521 |
| `Adler32.InPieces` | busybox/busybox-1.32.0/archival/lzop.c:554-561 | Checksumming in pieces gives the checksum of the whole |
| `Primes.NoMultiple` | busybox/busybox-1.32.0/archival/dpkg.c:169-186 | A prime divides no product of two smaller numbers |
| `DoubleHash.ProbesDiffer` | busybox/busybox-1.32.0/archival/dpkg.c:189-207 | The first p probes are different slots |
| `DoubleHash.EverySlot` | busybox/busybox-1.32.0/archival/dpkg.c:189-207 | For a prime table size and any step, the first p probes visit every slot, so a search ends if it can stop anywhere |
| `DoubleHash.NamePrime` | busybox/busybox-1.32.0/archival/dpkg.c:85-88 | 16381 is prime |
| `DoubleHash.PackagePrime` | busybox/busybox-1.32.0/archival/dpkg.c:90-98 | 10007 is prime |
| `DoubleHash.StatusPrime` | busybox/busybox-1.32.0/archival/dpkg.c:113-116 | 8191 is prime |
| `DoubleHash.MakeHash` | busybox/busybox-1.32.0/archival/dpkg.c:169-186 | The loop computes start and decrement; the decrement is never 0 |
| `DoubleHash.NameTable.Search` | busybox/busybox-1.32.0/archival/dpkg.c:189-207 | The loop ends at the first slot of the probe sequence that is free or holds the name |
| `DoubleHash.InternKeeps` | busybox/busybox-1.32.0/archival/dpkg.c:189-207 | Entering a name keeps every name where a search for it ends |
| `DoubleHash.NameTable.Intern` | busybox/busybox-1.32.0/archival/dpkg.c:189-207 | The name is at the index returned; every name keeps its index, and no other name has it; room is needed only for a new name |
| `DoubleHash.NameTable.InternAll` | busybox/busybox-1.32.0/archival/dpkg.c:189-207 | Over any run of calls there is room for, however often names repeat, indices are equal exactly when names are, and no index changes its name |
| `DebVersion.ComparePart` | busybox/busybox-1.32.0/archival/dpkg.c:240-277 | The sign is that of comparing the canonical keys: orders of non-digits and unbounded numbers in turn |
| `DebVersion.Compare` | busybox/busybox-1.32.0/archival/dpkg.c:283-334 | The sign is that of comparing epoch, upstream version and revision by their keys; the epoch is the number before the first colon, the revision what follows the last dash |
| `DebVersion.SplitReadsBack` | busybox/busybox-1.32.0/archival/dpkg.c:295-325 | Whatever epoch, upstream version and revision are written out, or left out, the text is taken apart into them again: no epoch is 0, no revision is empty |
| `DebVersion.EpochDecides` | busybox/busybox-1.32.0/archival/dpkg.c:295-309 | A higher epoch wins whatever follows it |
| `DebVersion.NonDigitsOrder` | busybox/busybox-1.32.0/archival/dpkg.c:229-255 | A tilde sorts before the end and before a digit, then letters by their codes, then all other characters |
| `CStrings.AtoiReads` | busybox/busybox-1.32.0/archival/dpkg.c:297-304 | atoi reads a number back whatever blanks and plus sign are in front and whatever follows |
| `DebVersion.OrderSymmetric` | busybox/busybox-1.32.0/archival/dpkg.c:283-334 | Swapping the versions negates the result |
| `DebVersion.OrderTransitive` | busybox/busybox-1.32.0/archival/dpkg.c:283-334 | The order is transitive, strict if one step is |
| `DebVersion.TildeFirst` | busybox/busybox-1.32.0/archival/dpkg.c:229-237 | A tilde sorts before the end of the part |
| `DebVersion.Test` | busybox/busybox-1.32.0/archival/dpkg.c:336-354 | The operator holds of the order of the two versions |
| `DebVersion.OperatorsAgree` | busybox/busybox-1.32.0/archival/dpkg.c:336-354 | The operators are the relations of one total order |
| `DebVersion.BoundsAreClosed` | busybox/busybox-1.32.0/archival/dpkg.c:336-354 | What meets a lower bound meets it in every later version, an upper bound in every earlier one; the strict operators leave out the bound |
| `CStrings.NextToken` | busybox/busybox-1.32.0/archival/dpkg.c:442-447 | strtok_r: the next stretch without separators, and where to go on |
| `CStrings.TokensJoin` | busybox/busybox-1.32.0/archival/dpkg.c:442-447 | The tokens of two strings with a separator between them are those of the first and of the second |
| `CStrings.TokenAlone` | busybox/busybox-1.32.0/archival/dpkg.c:442-447 | A string without separators is one token |
| `DepLines.LineReadsBack` | busybox/busybox-1.32.0/archival/dpkg.c:429-519 | Whatever dependencies are written as a line, reading the line gives them back |
| `DepLines.AltReadsBack` | busybox/busybox-1.32.0/archival/dpkg.c:463-505 | So it does for one alternative with its operator and version |
| `SplitLines.ReadOp` | busybox/busybox-1.32.0/archival/dpkg.c:475-493 | The operator is the one the run of <, = and > stands for, or the program ends |
| `SplitLines.AddSplit` | busybox/busybox-1.32.0/archival/dpkg.c:429-519 | The edges added to the package are those of the line: for every field an OR edge that counts its alternatives, if there is more than one, then the alternatives; the program ends exactly for an operator that does not exist |
| `SplitLines.AddField` | busybox/busybox-1.32.0/archival/dpkg.c:443-513 | The same for one field |
| `Depends.WalkDecides` | busybox/busybox-1.32.0/archival/dpkg.c:1096-1176 | The walk over a flat edge list passes exactly when every dependency has an alternative that is satisfied, and never finds the list corrupt |
| `Paragraphs.HoldsForBoth` | busybox/busybox-1.32.0/archival/dpkg.c:963-978 | Where dependencies hold, each pre-dependency of a wanted package has an alternative that is installed, each dependency one that is to be installed, by name and version or as a provider |
| `Depends.WalkPackage` | busybox/busybox-1.32.0/archival/dpkg.c:1096-1176 | The same for the edges that the control fields of a package give |
| `Depends.EdgesOffer` | busybox/busybox-1.32.0/archival/dpkg.c:395-408 | The edges say that a name is provided exactly when a Provides field does |
| `Packages.SearchFinds` | busybox/busybox-1.32.0/archival/dpkg.c:356-377 | Searching the package table finds a package of that name with a version in the wanted relation if there is any in the table |
| `Packages.StatusFound` | busybox/busybox-1.32.0/archival/dpkg.c:211-227 | Searching the status table finds the only status of that name |
| `Packages.PutPackage` | busybox/busybox-1.32.0/archival/dpkg.c:685-688 | A package put where its search ended leaves every package within reach |
| `Database.Database.SearchPackage` | busybox/busybox-1.32.0/archival/dpkg.c:356-377 | The loop ends at the first slot of the probe sequence that is free or matches |
| `Database.Database.SearchStatus` | busybox/busybox-1.32.0/archival/dpkg.c:211-227 | The loop ends at the first slot that is free or has the name |
| `Database.Database.FillPackage` | busybox/busybox-1.32.0/archival/dpkg.c:618-689 | The package a control file describes is in the table with its control fields: in place of the one with the same name and an equal version if there is one, else in a free slot; nothing else changes |
| `Database.Database.AddStatus` | busybox/busybox-1.32.0/archival/dpkg.c:777-791 | The package has the status: in place of the one of its name if there is one, else in a free slot; nothing else changes |
| `Database.Database.StatusIs` | busybox/busybox-1.32.0/archival/dpkg.c:692-712 | Comparing indices of words compares the words |
| `Database.Database.PackageSatisfies` | busybox/busybox-1.32.0/archival/dpkg.c:963-978 | A pre-dependency needs a package that is installed, a dependency one that is to be installed |
| `Database.Database.NextProvider` | busybox/busybox-1.32.0/archival/dpkg.c:395-408 | The next package that provides the name, none left out |
| `Database.Database.SatisfyEdge` | busybox/busybox-1.32.0/archival/dpkg.c:1113-1147 | An alternative is satisfied by a package of that name and a right version, or by one that provides the name |
| `Database.Database.CheckNode` | busybox/busybox-1.32.0/archival/dpkg.c:1096-1176 | The loop with its counter and its skipping is the walk |
| `Database.Database.CheckDeps` | busybox/busybox-1.32.0/archival/dpkg.c:1064-1177 | It passes exactly when every package wanted for install has, in every dependency of its control fields, an alternative satisfied directly or by a provider; it is never the corrupt case |
| `StatusFile.CheckFile` | busybox/busybox-1.32.0/archival/dpkg.c:766-795 | A status file is indexed and checked: the answer is whether every package wanted for install has, in every dependency, an alternative satisfied directly or by a provider, according to the paragraphs alone, the last of a name giving its status and the last of a name and equal version its fields; an error exactly for an operator that does not exist |
| `StatusFile.IndexFile` | busybox/busybox-1.32.0/archival/dpkg.c:766-795 | The tables hold the packages and statuses that the paragraphs give, and no others |
| `StatusFile.TakeParagraph` | busybox/busybox-1.32.0/archival/dpkg.c:776-791 | One paragraph more is held by the tables |
| `Paragraphs.DescribesMore` | busybox/busybox-1.32.0/archival/dpkg.c:685-688 | Storing the package and putting the status of a paragraph takes the tables from what the paragraphs before it say to what they say with it |
| `Paragraphs.HoldsSame` | busybox/busybox-1.32.0/archival/dpkg.c:1064-1177 | Whether the dependencies hold in the tables is a matter of the paragraphs alone |
| `Factor.Factorize` | busybox/busybox-1.32.0/coreutils/factor.c:54-166 | For every number below 2^64 the output is its prime factors in order; nothing for 0 and 1 |
| `Factor.Turn` | busybox/busybox-1.32.0/coreutils/factor.c:126-160 | One step of the sieve word: no counter reaches into the next, and it flags exactly the larger multiples of 3, 5 and 7 |
| `Factor.TryOdd` | busybox/busybox-1.32.0/coreutils/factor.c:100-161 | When the loop ends what is left has no divisor up to the factor, and its root is not above it; the factor stays below 2^32 |
| `Factor.LastIsPrime` | busybox/busybox-1.32.0/coreutils/factor.c:162-164 | What is left is then prime and above all factors printed |
| `Factor.SievedOut` | busybox/busybox-1.32.0/coreutils/factor.c:126-141 | What is skipped does not divide |
| `Factor.ISqrtOdd` | busybox/busybox-1.32.0/coreutils/factor.c:45-52 | The largest odd number up to the square root |
| `Factor.ISqrt` | busybox/busybox-1.32.0/libbb/isqrt.c:20-35 | The square root, rounded down |
| `Expr.EvalPrinted` | busybox/busybox-1.32.0/coreutils/expr.c:317-537 | A printed expression evaluates to its value at any level, and what follows it is left to the operators of that level: precedence, left associativity and parentheses are right |
| `Expr.EvalWhole` | busybox/busybox-1.32.0/coreutils/expr.c:522-537 | Evaluating a printed tree gives its value and uses up the tokens; an error in the tree is an error |
| `Expr.EvalIsPrint` | busybox/busybox-1.32.0/coreutils/expr.c:317-559 | The arguments are accepted with a value exactly when they are the tokens of a tree, with parentheses and quotes where it has them, that has this value |
| `Expr.EvalReads` | busybox/busybox-1.32.0/coreutils/expr.c:317-537 | What a level accepts are the tokens of a tree of that level with that value |
| `Expr.RunTree` | busybox/busybox-1.32.0/coreutils/expr.c:540-559 | The same for the program |
| `Expr.Evaluator.Eval7` | busybox/busybox-1.32.0/coreutils/expr.c:317-337 | Operands and parentheses: the value and the tokens left are those the function of the tokens gives |
| `Expr.Evaluator.Eval6` | busybox/busybox-1.32.0/coreutils/expr.c:341-401 | Keywords, the same |
| `Expr.Evaluator.Eval5` | busybox/busybox-1.32.0/coreutils/expr.c:406-420 | The operator :, the same |
| `Expr.Evaluator.Eval4` | busybox/busybox-1.32.0/coreutils/expr.c:424-444 | The operators *, / and %, the same |
| `Expr.Evaluator.Eval3` | busybox/busybox-1.32.0/coreutils/expr.c:448-468 | The operators + and -, the same |
| `Expr.Evaluator.Eval2` | busybox/busybox-1.32.0/coreutils/expr.c:472-498 | Comparisons, the same |
| `Expr.Evaluator.Eval1` | busybox/busybox-1.32.0/coreutils/expr.c:502-518 | The operator & (and), the same |
| `Expr.Evaluator.Eval0` | busybox/busybox-1.32.0/coreutils/expr.c:522-537 | The bar operator (or), the same |
| `Expr.Evaluator.ArithmeticCommon` | busybox/busybox-1.32.0/coreutils/expr.c:247-266 | Both sides must be numbers and a divisor not 0 |
| `Expr.Comparisons` | busybox/busybox-1.32.0/coreutils/expr.c:217-240 | On all values exactly one of <, = and > holds, the other comparisons are what they should be, and turning the operands round turns < round |
| `Expr.NumbersInOrder` | busybox/busybox-1.32.0/coreutils/expr.c:217-240 | Numbers are compared as numbers |
| `Expr.TextInOrder` | busybox/busybox-1.32.0/coreutils/expr.c:217-240 | With an operand that is no number both are compared as text, by the first character that differs or by length |
| `Expr.LessTransitive` | busybox/busybox-1.32.0/coreutils/expr.c:472-498 | < is transitive among numbers, and wherever the numbers involved come in the same order as text |
| `Expr.TransitivityFails` | busybox/busybox-1.32.0/coreutils/expr.c:472-498 | It fails for every two numbers that come in another order as text: as in 10 < 10! < 9 |
| `Expr.StrCmpIs` | busybox/busybox-1.32.0/coreutils/expr.c:223-227 | strcmp goes by the first position where the strings differ; a proper prefix is less |
| `Expr.IndexIsFirst` | busybox/busybox-1.32.0/coreutils/expr.c:373-382 | index is the first position in the string of one of the characters |
| `Expr.IndexIsZero` | busybox/busybox-1.32.0/coreutils/expr.c:373-382 | index is 0 exactly if there is none |
| `Expr.SubstrCharacters` | busybox/busybox-1.32.0/coreutils/expr.c:383-398 | substr has the length asked for, or what is left, and the characters from that position on |
| `Expr.SubstrNothing` | busybox/busybox-1.32.0/coreutils/expr.c:383-393 | substr is empty exactly outside the string or for no positive numbers |
| `Expr.AndOr` | busybox/busybox-1.32.0/coreutils/expr.c:502-537 | The bar gives the first operand unless it is null, else the second; & the first unless one is null, else 0 |
| `Expr.NullByText` | busybox/busybox-1.32.0/coreutils/expr.c:167-173 | A value is null exactly if it is printed as nothing or as 0 |
| `Expr.ArithmeticLaws` | busybox/busybox-1.32.0/coreutils/expr.c:247-258 | +, - and * by their laws from 0 and 1 up |
| `Expr.DivisionLaws` | busybox/busybox-1.32.0/coreutils/expr.c:259-265 | Quotient and remainder give back the dividend, the remainder is smaller than the divisor and has the sign of the dividend; dividing by 0 is an error |
| `Expr.ArithmeticOnText` | busybox/busybox-1.32.0/coreutils/expr.c:247-258 | Text that reads as numbers counts as those numbers, other text is an error |
| `Expr.NumbersAre` | busybox/busybox-1.32.0/coreutils/expr.c:187-203 | A string is a number exactly if it is blanks, a sign and digits |
| `Expr.QuotTruncates` | busybox/busybox-1.32.0/coreutils/expr.c:261-265 | Division truncates toward zero |
| `Expr.DecimalReadsBack` | busybox/busybox-1.32.0/coreutils/expr.c:177-203 | tostring and toarith are inverse on numbers |
| `Tail.TailOf` | busybox/busybox-1.32.0/coreutils/tail.c:256-332 | For every stream and every cut into reads the output is the last count lines or bytes, or all from line or byte count on |
| `Tail.KeepLastLines` | busybox/busybox-1.32.0/coreutils/tail.c:265-332 | After the last read the buffer holds exactly the last count lines; there is always room for another read |
| `Tail.KeepLines` | busybox/busybox-1.32.0/coreutils/tail.c:293-321 | One read: the buffer keeps its last count lines, and newlines_seen counts its newlines |
| `Tail.KeepLastBytes` | busybox/busybox-1.32.0/coreutils/tail.c:286-291 | The same for bytes |
| `Tail.PrintFromLine` | busybox/busybox-1.32.0/coreutils/tail.c:266-284 | The output is exactly the stream from line count on |
| `Tail.PrintFromByte` | busybox/busybox-1.32.0/coreutils/tail.c:266-284 | The output is exactly the stream from byte count on |
| `Tail.LastLinesAre` | busybox/busybox-1.32.0/coreutils/tail.c:293-321 | The last n lines are n lines, or all, and start where a line does; a final line without newline counts |
| `Tail.LastLinesOnly` | busybox/busybox-1.32.0/coreutils/tail.c:293-321 | Only one suffix is like that |
| `Tail.LastLinesMore` | busybox/busybox-1.32.0/coreutils/tail.c:303-321 | Lines dropped before more is read would be dropped afterwards too |
| `HashName.HashOf` | c++knowledge/count_masked_bytes/main.c:74-109 | len plus the bytes the mask counts is the index of the first / or NUL, and the hash is a function of the salt and the bytes before it |
| `HashName.DigestTells` | c++knowledge/count_masked_bytes/main.c:84-96 | Names of one length that differ in one word only have different states before the fold, wherever the word is |
| `HashName.MixTells` | c++knowledge/count_masked_bytes/main.c:10-17 | HASH_MIX tells the word from the states before and after, and the state before from the word and the state after |
| `HashName.FoldReaches` | c++knowledge/count_masked_bytes/main.c:48-53 | Both halves of the state decide the hash: whatever one half is, every hash comes from some other half |
| `HashName.MaskBelow` | c++knowledge/count_masked_bytes/main.c:42-69 | Markers that has_zero sets above the first stop do not show in the mask |
| `HashName.SomeMarker` | c++knowledge/count_masked_bytes/main.c:42-47 | There are markers exactly if a byte is / or NUL |
| `HashName.CountsBytes` | c++knowledge/count_masked_bytes/main.c:54-60 | Multiplying counts the bytes of the mask |

## Left out

- gzip: options, the gzip header and CRC trailer, compression levels (the model is the SMALL_MEM configuration without FEATURE_GZIP_LEVELS), Trace and check_match code, and the branches of put_16bit and put_32bit for unaligned stores.
- gzip: the unions Freq/Code and Dad/Len are separate arrays; that one of the two fields is always dead is not modelled.
- gzip: opt_len, static_len and the frequencies are unbounded integers; that the frequencies fit their 16 bits is proved (BlockCoders.BuildAll), for the costs it is not.
- gzip: prev[] and head[] are two arrays, not two halves of one; a read error counts as the end of the file.
- gzip: the window has MAX_MATCH bytes behind it whose contents are arbitrary, as longest_match reads beyond the lookahead.
- lzop: the LZO1Y branches, compression and decompression themselves, streams that do not decode, the header, the file format and the CRC.
- dpkg: read_package_field and the splitting of control files into fields, describe_status and messages, set_status, writing the status file, scripts, extraction, removal, and the conflicts part of check_deps.
- dpkg: characters are taken as numbers from 1 on; with a signed char, bytes above 127 hash and sort differently. Nothing that is proved depends on the values of the hash. Epochs beyond the range of int are reduced modulo 2^32.
- SplitLines.AddSplit: lines with a blank field, and version clauses without an operator, are not modelled; the code dereferences NULL for the first and leaves the operator unset for the second.
- Database.Database.FillPackage: asks for fewer than 2^16 edges for a package, the width of num_of_edges, for a Package field, and for a free slot, without which the search does not end.
- StatusFile.CheckFile: every paragraph has a name and a status line; without one the code leaves the status unset. The names of packages are fewer than 8191, packages fewer than 10007, and all names, versions and words together at most 16381, the sizes of the tables; searches do not end in a full table.
- Database.Database.CheckDeps: asks for room in the name table for the words of statuses, and for a free slot in each of the other two tables; searches for missing names do not end without one.
- factor: reading numbers and printing them; values are unbounded integers in the model; that the product in isqrt stays within 64 bits is not stated.
- expr: regular expressions (docolon is any function of the two strings), overflow of 64-bit arithmetic and of strtoll, and printing the result.
- tail: options, several files, follow mode, and the shortcut that seeks near the end of a regular file, which the code itself calls incorrect for long lines; count is below 2^31.
- hash_name: load_unaligned_zeropad is any memory followed by zeros; the printf calls are left out.
- The other applets and experiments of the repository: they are wrappers over the C library, the terminal or the kernel, or would only add easier members.

# Hoplight in Dafny

A model of the noun machine, the Lisp compiler that targets it, the noun codec, and the packet-stream protocol, with
proofs of what they keep. `dafny verify dfyconfig.toml` checks all of it.

**The noun machine.** `Evaluation` says what evaluating a formula against a subject does to the result, the tick
balances and the world outside, for every noun and every engine; it is total because a lexicographic measure (runner
keys without an account, then all ticks) falls at every call. `Computation` is the interpreter as an object with a
meter, a runner and a table of accounts, whose loop reassigns subject and formula, proved to do what `Evaluation`
says. `Fuel` shows that more ticks never change a success, and `Ledger` that accounts come only from the engine's
grants. `Axis`, `Equal`, `Arithmetic`, `Shape`, `Representation` and `Ticks` are its parts. `Operations` says over
values, by number and arithmetic, what every operation gives, costs and changes, and `Instructions` the same of the
control instructions and of the errors. `Storage` shows that what is stored is what is retrieved, and `Requests` that
sealed requests and delegated programs run as they should; `Failures` has how those fail.

**The compiler.** `Lexing` and `Trees` are the inverse of writing a program out, in any spelling and layout;
`Spelling` says which texts those are, with the characters written out. `Compile` turns trees into formulas,
`DenseTree` and `Addresses` are its address arithmetic. `WellFormed` says which programs compile. `Semantics` is an
independent reference: environments, closures, operations by name, an engine threaded through. `Rules` says what each
kind of formula does, and `Correctness` and `Programs` join the two: what compiled code computes is what its source
means.

**The codec.** `Bits`, `Serialize`, `Deserialize` and `Codec`: round trips, unique encodings, sizes. `Wire` has the
bytes themselves, and that no form the decoder reads is shorter than the one written.

**The protocol.** `Masks` and `Windows` are the 64-bit receive window, `ExpectedPackets` the shared table, `Streams`
and `Clusters` the streams and the grid they rotate through, `Agents` what the handlers do, and `AgentObject` the
agent as it runs, one table of expected packets changed by the cluster objects of all its neighbours. `Exactness` is
the invariant of an agent, `Runs` and `Acceptance` what follows over whole runs, and `Steady` that a stream delivered
in small steps loses nothing. `Reopening`, `Repeating` and `OnceExactly` say exactly when a packet can be accepted
twice. `Network` is two agents and a network that loses, reorders, duplicates and misdelivers, and `FreshNetwork` what
more holds of them when stream keys are new. `Addressing` follows neighbours' addresses over runs, and `Sending` has
what goes out field by field, and the errors. `ContentPackets` is the blinded packet layout, `Repl` the prompt's
printer and parser, and `Prompt` the texts they print and read.

Cryptography is arbitrary functions; a sealed payload opens only under its own key and nonce. Storage, randomness, the
ledger's policy, sockets and clocks are parameters.

Where the code and its documentation or intent disagree, the model follows the code:

- Numbers are written with the most significant byte first and read with the least significant first
  (`vm/src/noun.rs:73-141`), so only byte palindromes survive (`Nouns.ReadableIffPalindrome`), and a noun decodes from
  its own encoding exactly when the length of its atom section is one (`Codec.RoundTrip`).
- Positions and packing of dense trees agree for exactly the counts 2^k - 2^j (`DenseTree.DenseIffAgrees`).
- Repeating an initiation packet makes an agent accept packets twice, because no timestamp is refused. Where a low number
  of the key was accepted before, it is acceptable again; where none was, its entry is listed twice, and one packet is
  accepted at two deliveries. After a run with new keys, a next event is safe if and only if it is not a signed
  initiation packet whose key was in use with that neighbour before (`OnceExactly.OnceExactlyWhenFresh`).
- A content packet of 2^32 bytes or more can be prepared and sent but not decoded (`ContentPackets.DecodeOfPrepared`,
  `FreshNetwork.SentIsAcceptedIffAwaited`).
- A new seed of ours is meant to be used for sending once the neighbour has acknowledged it, but nothing records that it
  has: `src/stream.rs:189`, `222` and `259` are the flag's only uses. It does no harm, because no code gives a cluster a
  second seed either (`Network.StepKnown`).
- `(generate_keypair)` compiles to an atom, which never evaluates (`Correctness.GenerateKeypairFails`).
- The condition in `src/stream.rs:140` lets an offset of exactly 64 through to a shift that overflows; the model stops
  at both, and `Streams.GotIncomingExact` shows that neither is ever reached.
- The machine's description beside its source gives other truth values and another opcode 4 than the code has.

## Model

| member | source | states |
|---|---|---|
| Evaluation.Eval | vm/src/eval.rs:222-489 | evaluation ends for every noun, engine and account table, and whatever the outcome the same runner is executing, no account is lost and no balance has risen |
| Evaluation.SwitchedAtMost | vm/src/eval.rs:124-140 | switching to a runner after any evaluation makes the measure fall or keeps it: a new account costs a key that had none |
| Computation.Computation.EvalOn | vm/src/eval.rs:222-489 | the loop that reassigns subject and formula gives the outcome, accounts and engine that `Eval` gives, and ends |
| Computation.Computation.SwitchToRunner | vm/src/eval.rs:124-135 | the runner's set-aside meter, or the engine's grant, becomes the live one, what it started with included, and the old runner is returned |
| Computation.Computation.PrivateSymmetricKeyFor | vm/src/eval.rs:142-175 | the recursion over the live meter gives the key and leaves the accounts that `PrivateKey` says |
| Evaluation.PrivateKeyPaid | vm/src/eval.rs:142-175 | a private key is found if and only if there is a tick for every byte of the public noun and 128 for every pair, and then exactly those are spent |
| Evaluation.PrivateKeyOfEngine | vm/src/eval.rs:142-175 | the key found is the same whoever runs and whatever is left on the meter |
| Computation.Computation.TakeExecuteAs | vm/src/eval.rs:459-477 | delegated evaluation runs on the runner's account and the old runner is back afterwards, also after an error |
| Computation.Computation.TakeChained | vm/src/eval.rs:276-306 | compose, define and call go on in the same loop with the subject and formula they should |
| Computation.Computation.Apply | vm/src/eval.rs:250-458 | each strict opcode does to accounts and engine what its own function says |
| Computation.EvalExpression | vm/src/eval.rs:500-515 | a whole program is evaluated on one account holding the limit |
| Operations.OperationFollows | vm/src/eval.rs:250-458 | each instruction that works on the value of its argument alone succeeds exactly when a reference by values has an effect for it and the ticks suffice, with that value, that engine and exactly that cost: sums modulo 256 to the length, orders of values, hashes, storage keys, key pairs, sealed nouns |
| Operations.Strict | vm/src/opcode.rs:1-30 | which numbers those instructions have |
| Operations.PrivateKeyIs | vm/src/eval.rs:142-175 | the key found is the recursive hash of the public noun, with the secret mixed into right atoms only |
| Instructions.OperationComplains | vm/src/eval.rs:250-458 | and a failure is the error of want of ticks or the one for a bad argument of that instruction |
| Instructions.Formulas | vm/src/eval.rs:222-236 | a formula costs a tick, and is an instruction by the little-endian value of its head, an unknown one from 27 on, or not an opcode from 256 on |
| Instructions.Pairs | vm/src/eval.rs:227-232 | two formulas side by side give a pair, the left one evaluated first |
| Instructions.FetchAndQuote | vm/src/eval.rs:237-238 | 0 fetches the slot of its index or fails in two ways, 1 gives its argument |
| Instructions.Recursion | vm/src/eval.rs:239-249 | 2 goes on with an evaluated subject and formula, the subject evaluated first |
| Instructions.Condition | vm/src/eval.rs:261-275 | 6 goes on with the first branch on 1 and the second on 0, and fails on any other value |
| Instructions.Chaining | vm/src/eval.rs:276-306 | 7 replaces the subject, 8 puts a value before it, 9 runs a part of a value on that value |
| Storage.StoresByKey | vm/src/eval.rs:336-347 | 13 succeeds exactly when key and value can be encoded, and changes nothing under other keys or hashes |
| Storage.StoresByHash | vm/src/eval.rs:316-326 | 11 puts a noun under its hash, and touches nothing under keys or other hashes |
| Storage.RetrievesByKey | vm/src/eval.rs:348-352 | 14 runs on the subject what is in storage under the key, and gives a one with its value |
| Storage.RetrievesByHash | vm/src/eval.rs:327-335 | 12 does so for the hash |
| Storage.HashGives | vm/src/eval.rs:307-315 | and 10 gives that hash |
| Storage.FindsNothing | vm/src/eval.rs:104-122 | a retrieval that finds nothing gives a zero, and so does a pair given as a hash |
| Storage.ReturnsWhen | vm/src/eval.rs:113-114 | a stored noun can be run at all if and only if the length of its atom section reads back as written |
| Storage.StoredByKeyIsRetrieved | vm/src/eval.rs:336-352 | in a storage that remembers, what is stored under a key is what retrieving it runs |
| Storage.HashedForever | vm/src/eval.rs:316-347 | what is stored by hash stays, through any evaluation, whatever its outcome, unless hashes collide |
| Storage.StoredByHashIsRetrieved | vm/src/eval.rs:316-335 | so what one program stores by hash, another retrieves by it, whatever programs run between |
| Requests.RunsSealed | vm/src/eval.rs:430-451 | 19 runs what the private key of a public noun unlocks, and seals the answer under it |
| Requests.RunsAs | vm/src/eval.rs:459-477 | 26 runs what a runner sealed on the runner's account, once for each counter, and gives the account back |
| Requests.RequestAnswered | vm/src/eval.rs:406-451 | a program sealed with the private half of a generated key pair is run for the public half, and its sealed answer opens to what the program gives |
| Fuel.EvalMore | vm/src/eval.rs:222-489 | a success is the same, noun, side effects and ticks spent, when any one account has more ticks |
| Fuel.PrimitiveMore | vm/src/eval.rs:250-458 | the same for every strict opcode |
| Fuel.ProgramMore | vm/src/eval.rs:500-515 | a limit that is enough may be raised freely |
| Ledger.EvalAccounted | vm/src/eval.rs:124-140 | every account that comes into being holds at most what the engine grants that key in a state the engine can reach, for every property the engine keeps |
| Ledger.ProgramAccounted | vm/src/eval.rs:500-515 | for whole programs: the limit is never exceeded, all else comes from grants |
| Failures.ArgumentFails | vm/src/eval.rs:250-477 | where an argument fails, its instruction fails with the same error, the rest undone |
| Failures.RetrievalFails | vm/src/eval.rs:104-122 | a key too large to encode and stored bytes that are no noun are errors |
| Failures.SealedFails | vm/src/eval.rs:430-442 | requests that are malformed or cannot be paid for fail, with which error |
| Failures.DelegationFails | vm/src/eval.rs:459-467 | so do delegations, one with a counter that is not eight bytes among them |
| Ticks.Meter.Incur | vm/src/ticks.rs:17-20 | a cost within the count is debited; one beyond it is refused and debits nothing |
| Equal.CompareIsEquality | vm/src/equal.rs:6-25 | the metered comparison decides equality, for exactly the ticks that `CompareCost` says, or runs out |
| Equal.AreEqual | vm/src/equal.rs:6-25 | comparing two canonical stored nouns field by field, small atoms, large atoms and pairs, gives the answer and leaves the count that `Compare` says of the nouns they stand for |
| Axis.AxisFor | vm/src/axis.rs:78-102 | following the remaining bits from the most significant fetches what the recursive slot function does |
| Axis.AxisOf | vm/src/axis.rs:104-115 | for an index of any length, zero and empty included: the slot of its little-endian value, or an error |
| Axis.SlotIsWalk | vm/src/axis.rs:78-102 | the slot function is a walk from the root along the index's bits after the leading one |
| Axis.ByteSliceBitIterator.Next | vm/src/axis.rs:60-76 | the next of the bytes' bits, most significant first from the last byte, through the sentinel of the current byte |
| Arithmetic.Add | vm/src/math.rs:4-27 | the in-place addition with carry computes `AddBytes` for operands of any lengths |
| Arithmetic.AddIsModularSum | vm/src/math.rs:4-27 | it is the big-endian sum modulo 256 to the longer length |
| Arithmetic.Less | vm/src/math.rs:44-63 | the flag decides the order of the big-endian values, whatever the lengths |
| Arithmetic.SubtractByInverting | vm/src/math.rs:4-32 | for equal lengths, adding the inverse and then one subtracts, modulo 256 to the length |
| Arithmetic.InvertTwice | vm/src/math.rs:29-32 | inverting is its own inverse |
| Nouns.ReadableIffPalindrome | vm/src/noun.rs:73-141 | a number written compactly reads back as itself if and only if its bytes are a palindrome |
| Nouns.FirstUnreadable | vm/src/noun.rs:83-141 | 256 is written so that it reads as 1 |
| Representation.CanonicalUnique | vm/src/noun.rs:174-188 | in canonical small or large form, equal representation is equal meaning |
| Representation.StoreMeans | vm/src/noun.rs:174-188 | storing a noun is canonical and keeps its meaning |
| Representation.AsU64 | vm/src/noun.rs:118-141 | the little-endian value of an atom, or nothing for a pair or a value beyond 64 bits, padding allowed |
| Representation.AsU8 | vm/src/noun.rs:142-160 | the same for 8 bits |
| Representation.FromU64Compact | vm/src/noun.rs:83-91 | the shortest big-endian bytes, as a canonical atom |
| Shape.ReshapeSucceeds | vm/src/shape.rs:102-113 | reshape succeeds exactly when every length is a 64-bit number, the data and ticks suffice and so does the allocation; it then gives the cut of the data's flattening and spends exactly the bytes cut |
| Shape.TakeExactSucceeds | vm/src/shape.rs:60-100 | a read that is refused for want of ticks loses its bytes and is retried, and can never end in success |
| Shape.CutFits | vm/src/shape.rs:13-42 | what is cut has the structure's shape and leaf lengths, and flattens to the data's leading bytes |
| Shape.ReshapeByLengths | vm/src/shape.rs:102-130 | reshaping by a noun's own lengths gives that noun if and only if every atom length reads back as written |
| Shape.MeasuredCost | vm/src/shape.rs:115-130 | measuring gives the lengths for exactly one tick a node, or empties the meter |
| Shape.NounReader.Read | vm/src/shape.rs:60-100 | the stack and cursor yield the next part of the flattening, and one tick is debited a byte |
| Shape.NounReader.ReadExact | vm/src/shape.rs:13-42 | the retry loop ends, with what `TakeExact` says |
| Shape.Reshape | vm/src/shape.rs:102-113 | the reader and the recursion over the structure together do what `Reshaped` says |
| Bits.UnpackOfPack | vm/src/serialize.rs:99-123 | packed bits unpack to themselves and zeros to the next byte |
| Bits.BitVec.Push | vm/src/serialize.rs:112-123 | setting bits in place appends one bit to the packed sequence |
| Serialize.AppendAtomsFits | vm/src/serialize.rs:26-79 | the atoms of a noun fit a limit exactly when their encoding is below it, or equal to it and ends in a literal byte |
| Serialize.LengthPrefixNeverFails | vm/src/serialize.rs:81-97 | the length prefix of any 64-bit length fits its ten bytes |
| Serialize.EncodeShape | vm/src/serialize.rs:81-97 | on success the atom section is at most the maximum, leaves are no more than that, and the structure is the ceiling of (2 leaves - 1) / 8 bytes |
| Serialize.SerializeToBytes | vm/src/serialize.rs:81-97 | the serializer's two buffers, joined, are `Encode` |
| Deserialize.DeserializeBytes | vm/src/deserialize.rs:115-146 | the resumable reader with its sentinels gives `Decode`, errors included |
| Deserialize.Deserializer.ConsumeLength | vm/src/deserialize.rs:45-87 | the shifting loop reads a length of 7-bit groups, or fails as the code does |
| Codec.ReadNounOfEncoding | vm/src/deserialize.rs:89-98 | decoding the two streams of any noun gives it back and leaves both exactly at what follows |
| Codec.RoundTrip | vm/src/deserialize.rs:115-146 | an encoded noun decodes to itself if and only if the length of its atom section reads back as written |
| Codec.ShortRoundTrip | vm/src/serialize.rs:81-97 | so always when the atom section is under 256 bytes |
| Codec.LongNounIsLost | vm/src/serialize.rs:81-97 | and never when it is 256 |
| Codec.EncodingsAreUnique | vm/src/serialize.rs:81-97 | equal encodings are of equal nouns, for all sizes and limits |
| Codec.EqualIffSameEncoding | vm/src/equal.rs:4-25 | the metered comparison says yes exactly when the two encodings are the same bytes |
| Wire.ShortestForm | vm/src/serialize.rs:26-61 | no bytes that the decoder reads as an atom are fewer than the ones the encoder writes for it |
| Wire.AtomTakes | vm/src/serialize.rs:26-61 | an atom takes its own byte if that is one below 190, one byte more if it has at most 64, and more beyond |
| Wire.ReadAtomForms | vm/src/deserialize.rs:45-87 | what the decoder reads for every first byte, written by the encoder or not |
| Wire.DecodesIff | vm/src/deserialize.rs:89-146 | the decoder accepts bytes as a noun if and only if they are the length of its atoms, its atoms in any of their forms, and its shape in bits with less than a byte of anything after it |
| Wire.LengthRead | vm/src/deserialize.rs:54-76 | a length is read from at most nine groups of seven bits, the least significant first, the high bit set in all but the last; more are refused |
| Wire.Refusals | vm/src/deserialize.rs:122-133 | how bytes are refused whose length is beyond them, or leaves nothing for the shape |
| Wire.PackBit | vm/src/serialize.rs:99-123 | bit i of a packed shape is bit i modulo 8, from the least significant, of byte i / 8 |
| Wire.SmallEncodings | vm/src/serialize.rs:81-97 | the bytes of an encoded small atom, of a pair of them and of the two trees of three |
| DenseTree.BuildIntoDenseTree | lisp/src/compile.rs:54-71 | the rounds of pairing give the packed tree, or stop after 512 |
| DenseTree.PackedWhen | lisp/src/compile.rs:54-71 | which is exactly when there is none, or what is left after nine rounds is more than one |
| DenseTree.SlotOfDense | lisp/src/compile.rs:54-71 | where packing puts each item |
| DenseTree.PositionsAreLeaves | lisp/src/compile.rs:73-90 | the compiler's positions are the leaves, from left to right, of the tree numbered level by level: the numbers from the count to twice it |
| DenseTree.DenseIffAgrees | lisp/src/compile.rs:54-90 | the compiler's positions are where packing puts things, for all items, if and only if the count is 2^k - 2^j |
| DenseTree.FiveDisagrees | lisp/src/compile.rs:73-90 | five is the first count that is not: the third item is at 10 and expected at 5 |
| DenseTree.FiveMisread | lisp/src/compile.rs:54-90 | with five, the third name stands for a pair of the third and fourth |
| Addresses.AddInitialStepSlot | lisp/src/compile.rs:108-117 | an address with one more first step finds in a pair what the old one finds in that half, unless the top bit is in use |
| Addresses.CombineSlot | lisp/src/compile.rs:177-183 | one address after another is followed by the combined one, if and only if no bit is shifted out |
| Addresses.CombineIsTruncated | lisp/src/compile.rs:177-183 | and the combined address is always the joined one modulo 2^64 |
| Addresses.CombineLosesBits | lisp/src/compile.rs:177-183 | a bit that is shifted out is not noticed, and the address then names nothing |
| Compile.ResolveNames | lisp/src/compile.rs:124-135 | inherited names in any order, then new ones with later over earlier, give the scope `AddNameResolutions` says |
| Compile.LastIndexIsLast | lisp/src/compile.rs:124-135 | of two bindings of one name the later one counts |
| Compile.CollectBindings | lisp/src/compile.rs:137-161 | binding by binding, the definitions' tree and the scope that `AddBindings` says, or its error |
| Compile.BuildVecToTree | lisp/src/compile.rs:34-44 | the loop from the last item nests to the right, and an empty list panics |
| WellFormed.CompilesWhenFormed | lisp/src/compile.rs:201-311 | a tree that compiles is well formed, its names bound, its operations given as many arguments as they take; one that is well formed compiles or panics |
| WellFormed.ProgramCompilesIffFormed | lisp/src/compile.rs:201-325 | with at most 50 levels of scope, groups of at most 512 and none empty, a program compiles if and only if it is well formed |
| Correctness.LookupAddress | lisp/src/compile.rs:124-161 | in a scope laid out as the compiler lays it, every name's address finds the noun of its value, and only names in scope have one |
| Correctness.Correct | lisp/src/compile.rs:201-311 | compiler correctness: if a tree has a meaning and its addresses are portable, its formula runs to the noun of that meaning, in the engine state it should, at a fixed cost from whatever balance |
| Correctness.NativeTable | lisp/src/compile.rs:9-32 | the compiler knows exactly the names that have a meaning as operations, with the number and the arguments of each |
| Correctness.CorrectCall | lisp/src/compile.rs:288-301 | the same for calls of closures, recursive ones included |
| Correctness.CorrectLambda | lisp/src/compile.rs:268-287 | closures are their code paired with the scope they were made in |
| Correctness.CorrectAxis | lisp/src/compile.rs:234-260 | variable and literal index fused into one address, or found at run time, give the same part |
| Correctness.CorrectLet | lisp/src/compile.rs:261-267 | bindings are made in the outer scope, packed, and in scope of the body |
| Correctness.ProgramCorrect | lisp/src/compile.rs:318-325 | with enough ticks, a compiled program gives what the program means |
| Correctness.GenerateKeypairFails | lisp/src/compile.rs:224-233 | `(generate_keypair)` compiles, and never evaluates |
| Programs.TextCorrect | lisp/src/compile.rs:318-325 | from any text of a portable program to what it means |
| Spelling.TokensOfText | lisp/src/tokenize.rs:45-136 | a text in any spelling, with whitespace and comments anywhere between, the last comment ended or not, is read as the tokens it stands for |
| Spelling.TokensIffSpelled | lisp/src/tokenize.rs:45-136 | a text has tokens exactly when it is a spelling of elements, each a piece of listed characters, with the tokens those stand for |
| Spelling.SpaceAnywhere | lisp/src/tokenize.rs:54-56 | a blank, carriage return, line feed or tab between any two elements changes nothing |
| Lexing.Tokenize | lisp/src/tokenize.rs:45-136 | the character loop gives `Tokens`, or its error |
| Lexing.Characters.ReadString | lisp/src/tokenize.rs:84-118 | the string loop with its escapes gives `TakeString` |
| Trees.ParseIsInverse | lisp/src/tree.rs:45-89 | tokens parse as a tree if and only if they are that tree written out, every token consumed |
| Trees.ParseOfText | lisp/src/tree.rs:80-89 | a text parses as a tree if and only if its tokens are that tree's |
| Trees.ParsesIffSpelled | lisp/src/tree.rs:80-89 | so a text parses as a tree if and only if it spells that tree |
| Trees.EveryTreeParses | lisp/src/tree.rs:80-89 | every tree with valid symbols has a text that parses as it |
| Trees.TokenStream.ParseOne | lisp/src/tree.rs:45-78 | the recursion over a mutable stream gives `ParseSome`, and leaves the stream where it should |
| Trees.ParseProgram | lisp/src/tree.rs:80-89 | tokenizing, parsing and checking for leftovers give `Parse` |
| Repl.ReadOfShown | repl/src/main.rs:136-167 | reading the printed text of any noun gives that noun and consumes all of it |
| Repl.ShownInjective | vm/src/noun.rs:266-296 | different nouns print differently |
| Repl.ListRead | repl/src/main.rs:136-167 | a bracketed list of two or more reads as pairs nested to the right |
| Prompt.SimpleTokens | repl/src/main.rs:86-129 | after any blanks: brackets, the end, and the characters that begin no token |
| Prompt.HexTokens | repl/src/main.rs:96-109 | hexadecimal digits of either case, by pairs, and a pair broken off is an error |
| Prompt.DecimalTokens | repl/src/main.rs:110-126 | decimal numbers of any length are their compact bytes, one zero byte for zero, an error from 2^64 on |
| Prompt.ParsesIffWritten | repl/src/main.rs:135-167 | a text is read as a noun, up to a place, if and only if it has just there the tokens of an item that stands for it: atoms, and groups of two or more items as pairs nested to the right |
| Prompt.ShownIs | vm/src/noun.rs:266-296 | a one-byte atom prints in decimal, any other in lower-case hexadecimal after an x, a pair in brackets |
| Repl.Tokenizer.Next | repl/src/main.rs:83-131 | the tokenizer's loops give `NextToken` and advance the stream |
| Repl.ParseTokens | repl/src/main.rs:136-167 | the parser gives `Parse`, and leaves the stream where it should |
| ContentPackets.BlindedLengthFits | src/content_packet.rs:83-88 | the range drawn from is never empty and no draw overflows the 32-bit field |
| ContentPackets.DecodeOfPrepared | src/content_packet.rs:36-105 | for every payload and every draw, decoding gives back identifier, checksum and payload if and only if the whole packet's length fits 32 bits |
| ContentPackets.DecodedFits | src/content_packet.rs:36-59 | whatever arrives, a decoded payload is whole words inside the packet |
| ContentPackets.DecodedIs | src/content_packet.rs:36-59 | what any bytes decode to: the identifier, the checksum and as many words as the length field modulo one more than there are, or which error |
| ContentPackets.PacketLayout | src/content_packet.rs:62-105 | a prepared packet field by field, its length field the payload's words and a multiple of one more than the words there are |
| ContentPackets.PreparedWhen | src/content_packet.rs:62-105 | which lengths can be prepared, and which error the others give |
| ContentPackets.Prepare | src/content_packet.rs:62-105 | the buffer is zeroed and then laid out in place, or left zero with the error the code gives |
| Masks.SlideBits | src/stream.rs:173 | sliding the mask moves its bits down by eight and sets the eight new ones |
| Windows.MovesWhen | src/stream.rs:147 | the window moves when its eight lowest numbers are in, or one of its sixteen highest is |
| Windows.ReceivedAwaits | src/stream.rs:130-176 | what a window awaits after a packet |
| Windows.SmallGapsAccepted | src/stream.rs:135-175 | if delivered numbers rise by at most eight each time, every packet is accepted, forever |
| Windows.SmallGapsFromTheStart | src/stream.rs:33-65 | so from a new stream on |
| Windows.NinesFallOutside | src/stream.rs:135-175 | rises of nine are accepted sixteen times and then fall outside |
| Windows.AbandonedOnlyForLater | src/stream.rs:135-175 | in any order, with any losses and duplicates, a number is given up only after one at least 41 higher came in |
| Windows.AcceptedOnce | src/stream.rs:135-175 | no number is awaited again once accepted |
| ExpectedPackets.AddedCount | src/expected_packet_set.rs:25-32 | adding counts one more of that packet under that identifier, and nothing else |
| ExpectedPackets.RemovedCount | src/expected_packet_set.rs:34-48 | removing counts one less, if there was one, and nothing else, although it reorders |
| ExpectedPackets.ListsAre | src/expected_packet_set.rs:25-48 | an added packet stands last; of a removed one the first goes and the last of its list takes its place; no list is kept empty |
| ExpectedPackets.ExpectedPacketSet.Add | src/expected_packet_set.rs:25-32 | the table is `Added` |
| ExpectedPackets.ExpectedPacketSet.Remove | src/expected_packet_set.rs:34-48 | the table is `Removed`, first match swapped with the last and empty lists dropped |
| Streams.NewStreamExact | src/stream.rs:33-65 | a new stream's entries are exactly its first 64 packets, each once under its own identifier |
| Streams.GotIncomingExact | src/stream.rs:130-176 | an expected packet never panics the stream, and afterwards its entries are again exactly what its window awaits, other keys untouched |
| Streams.ProducedIdentifier | src/stream.rs:101-115 | the identifier produced is that of the packet's own number, whether fresh or from the batch of eight |
| Streams.EndsAgree | src/stream.rs:67-127 | one end's outgoing identifier and nonce for a number are what the other expects for it |
| Streams.NoncesDistinct | src/stream.rs:101-127 | no nonce is used twice under a key, in one direction or across the two, and all fit 64 bits exactly below number 2^63 |
| Streams.Stream.MaybeNew | src/stream.rs:33-65 | a stream if both secrets are there, with its first packets in the table |
| Streams.Stream.ProduceOutgoingIdentifier | src/stream.rs:101-115 | identifier, nonce and new state are `Produced` |
| Streams.Stream.GotIncomingPacket | src/stream.rs:130-176 | mask, start and table are `GotIncoming` |
| Clusters.PushesKeepGrid | src/stream.rs:236-256 | rotating either side's keys keeps every slot holding the stream of exactly its own seed and key material |
| Clusters.PushesMoveStreams | src/stream.rs:236-256 | streams move to the previous row or column with all that has happened on them, and the new ones are unused |
| Clusters.PushesCommuteOnKeys | src/stream.rs:236-256 | rotating both sides leads to the same keys in either order |
| Clusters.SendingSurvivesRotation | src/stream.rs:258-271 | right after a new seed of ours, sending goes on with the stream that was newest before, unless an acknowledgement was recorded |
| Sending.SendsUnder | src/stream.rs:258-271 | a cluster sends under the neighbour's newest key material, with our newest seed if it is acknowledged or the only one and else with the one before |
| Network.StepKnown | src/stream.rs:189-271 | and none ever is: every step leaves every neighbour unacknowledged and with one seed of ours |
| Clusters.GotFromOne | src/stream.rs:290-312 | with distinct keys only the packet's own stream hears of it |
| Clusters.GotFromEach | src/stream.rs:290-312 | whatever the keys, each stream with the packet's hears of it, the others do not, and it panics exactly if the packet is 64 or more past the start of one of them |
| Clusters.StreamCluster.PushOwnSeed | src/stream.rs:236-245 | the four slots and the table are `OwnSeedPushed` |
| Clusters.StreamCluster.PushNeighborKeyMaterial | src/stream.rs:247-256 | the four slots and the table are `MaterialPushed` |
| Clusters.StreamCluster.ProduceOutgoingIdentifier | src/stream.rs:258-271 | the preferred stream, else the other, is sent on, and no other changes |
| Clusters.StreamCluster.DecryptIncomingPayload | src/stream.rs:273-288 | the first stream with the key decides |
| Clusters.StreamCluster.GotIncomingPacket | src/stream.rs:290-312 | every stream with the key hears of the packet, and then its entry goes |
| AgentObject.Agent.OneChanged | src/agent.rs:24-48 | when no object of the other neighbours is touched, and one neighbour's are its own or new, its state alone changes and no object comes to be shared |
| AgentObject.Agent.HandlePacket | src/agent.rs:85-102 | by its length a packet goes to one handler or the other, and the agent's objects end in the state, and its surroundings with the effects, that `HandlePacket` says |
| AgentObject.Agent.FindOpener | src/agent.rs:111-129 | the loop over the packets listed under an identifier, decrypting through each one's cluster, finds what `Find` says |
| AgentObject.Agent.HandleContentfulPacket | src/agent.rs:104-146 | what cannot be decoded is refused; otherwise the opening neighbour's cluster and the shared table are as `HandleContentful` says, and no other neighbour is touched |
| AgentObject.Agent.HandleInitiationPacket | src/agent.rs:153-210 | the neighbour's rotated cluster, or a new one, with the shared table and the answer sent, are `HandleInitiation` |
| AgentObject.Agent.InitiateStreamWith | src/agent.rs:250-267 | a new cluster takes the neighbour's place, and it, the table and the packet sent are `InitiateStream` |
| AgentObject.Agent.SendTo | src/agent.rs:269-285 | the chosen stream object and the packet sent are `SendTo`, the identifier used up even where no packet can be made |
| Addressing.StepAddress | src/agent.rs:182-206 | a step changes a neighbour's address only by a signed initiation packet from it, to the packet's source, or by starting a stream with it |
| Addressing.AddressesFollow | src/agent.rs:182-282 | after any run, a payload goes to the source of the neighbour's last signed initiation packet or the address it was last initiated at, whichever came later |
| Addressing.SendsTo | src/agent.rs:197-282 | and whatever any step sends goes to the address the agent then has for that neighbour |
| Sending.SentPacketIs | src/agent.rs:269-285 | after any run, the packet for a payload: the number's identifier and nonce, which the order of the two identities tells apart, and the key of our seed with the neighbour's newest key material |
| Sending.ExpectedIs | src/stream.rs:67-127 | and which identifier and nonce a neighbour's streams expect |
| Sending.OpensIs | src/stream.rs:273-288 | a cluster opens a packet for a key exactly when it has a stream of that key, and the packet is sealed under it and the nonce of its number |
| Sending.FindIs | src/agent.rs:111-129 | the search finds the first listed packet that opens, and fails at a stranger listed before it |
| Sending.Errors | src/agent.rs:148-285 | the error of every step but a well-sized content packet, by conditions on the packet and the neighbours |
| Sending.ContentEnds | src/agent.rs:104-146 | what a content packet ends in: a task of its payload, unless its payload is too large for a machine, or an error, by what the search finds |
| Sending.ErrorsChangeNothing | src/agent.rs:85-285 | an error leaves the agent as it was and sends nothing, but for a number used up and an accepted payload that is too large |
| Exactness.MaterialPushedInvariant | src/agent.rs:186-195 | key material from a known neighbour, its keys new, keeps every live stream's entries exact, live keys distinct and every entry's neighbour known |
| Exactness.AnsweredInvariant | src/agent.rs:197-208 | so does answering someone unknown |
| Exactness.InitiatedInvariant | src/agent.rs:250-267 | so does starting afresh with a neighbour, whose old streams leave their entries behind |
| Exactness.FindMeans | src/agent.rs:111-129 | the search never meets a stranger, and what it opens is a live stream's awaited packet |
| Runs.HandleContentStep | src/agent.rs:104-146 | a content packet changes nothing, or is accepted by the live stream that awaits it and runs at most one task; it never panics or ends in an internal error |
| Runs.StepInvariant | src/agent.rs:85-285 | every step keeps the invariant when its keys are new |
| Runs.AtMostOnce | src/agent.rs:85-285 | from its start, under any packets in any order, an agent whose stream keys are new with their neighbour accepts no packet twice, nor any number of a key if keys tell neighbours apart, and never panics or meets an internal error in a packet |
| OnceExactly.FreshMeans | src/agent.rs:148-210 | after such a run, an event's keys are new if and only if it is not a signed initiation packet from a known neighbour whose key was in use with that neighbour before |
| OnceExactly.ReusedChannelRepeats | src/agent.rs:148-195 | and if it is one, some content packets delivered after it make the agent accept a packet it accepts, or accepted before, again |
| OnceExactly.OnceExactlyWhenFresh | src/agent.rs:85-285 | so after any run with new keys, whatever content packets follow a next event, nothing is accepted twice if and only if the event does not reuse a key: a condition its receiver could check |
| Reopening.RunOwed | src/stream.rs:33-65 | every key created with a neighbour either has a number under 64 accepted, or has each of them listed still |
| Acceptance.AcceptedIffAwaited | src/agent.rs:104-146 | a packet sealed for a live stream's number is accepted, as that number, if and only if the window awaits it, whatever shares its identifier, provided no other neighbour's stream has the key |
| Steady.RisingAllRun | src/agent.rs:104-146 | over any run with new keys, if the numbers delivered on a stream rise by at most eight from each to the next, every delivery runs its task, for as long as the stream lives, whatever other packets come between |
| Steady.NewStreamAllRun | src/agent.rs:104-146 | so from a new stream on |
| Acceptance.PushedMaterialReopens | src/agent.rs:148-195 | key material pushed, seen before or not, makes the first 64 numbers of its key acceptable whatever was accepted before |
| Acceptance.RepeatedInitiationRunsTwice | src/agent.rs:148-195 | so a run with one initiation packet delivered twice accepts one content packet twice |
| Network.ActInvariant | src/agent.rs:85-285 | every step of either agent, duplicated initiation packets included, keeps the invariant of the two |
| Network.TwoAgentSafety | src/agent.rs:85-285 | in every run of two agents and a network that loses, reorders, duplicates and misdelivers, whatever either accepts under a number is what the other sent as that number, credited to it |
| FreshNetwork.ActFresh | src/agent.rs:85-285 | steps with new keys keep what more holds of two agents: numbers still to be sent have not been, and everything is sent and accepted once |
| FreshNetwork.TwoAgentsOnce | src/agent.rs:85-285 | in every such run with new keys, each number of a key is sent at most once and accepted at most once, as it was sent |
| FreshNetwork.SentIsAcceptedIffAwaited | src/agent.rs:104-146 | in such a run, the packet that sending a payload puts on the network is accepted by a partner that holds the chosen stream's key, as that number and payload, if and only if the packet is shorter than 2^32 bytes and the partner's window awaits the number |
| FreshNetwork.FirstPacketRuns | src/agent.rs:104-285 | initiating, answering, hearing the answer and sending: the payload runs as a task of the sender's |
| FreshNetwork.HandshakeAgrees | src/agent.rs:153-267 | initiating and answering leaves the two newest streams as the ends of one, if the key exchange commutes |

## Left out

- The size of a noun in memory, which bounds reshaping, is the constant 24.
- Cryptography: ChaCha20, Poly1305, Blake2b and ed25519 are arbitrary functions, with ideal sealing; signatures are a flag.
- Engine storage, sockets, addresses, the clock and the random generator: parameters of the model.
- The byte layouts of identities and initiation packets: identities are numbers, initiation packets are their fields.
- `src/vm.rs`, the older word machine: a task is the requestor and the program's bytes.
- 64-bit wrap-around of packet numbers and masks' start: numbers in the protocol are unbounded; `Streams.NoncesDistinct` says where the nonce would leave 64 bits.
- `Rc` sharing and recursion depth: nouns are immutable values.
- The 8-bit shift counter of `as_usize`, which overflows only in a debug build on atoms of more than 32 bytes.
- `NounReader` buffers: a read returns bytes instead of filling a slice, so partly filled destinations do not show.
- The set-aside copy of the running account: the program overwrites it before it is read, so the model's ledger has only the live meter.
- AgentObject.Agent.HandleContentfulPacket: is called only where the code does not panic; `Runs.HandleContentStep` shows that it never does in a run with new keys.
- AgentObject.Agent.HandleInitiationPacket: takes the packet's fields after decryption, and every timestamp, as the code does.
- Correctness.Correct: has no meaning for `retrieve_by_hash`, `retrieve_by_key` and `exucrypt`, which run code that is not in the program, and asks that every group of bindings, parameters or arguments be of a dense size and every emitted address be readable, without which the code is wrong.
- Storage.StoredByKeyIsRetrieved: assumes that the engine's storage gives back what was last put under a key (`Storage.Remembers`); the program leaves storage to its engine.
- Storage.HashedForever: assumes that no two byte strings stored have the same hash, as the program does.
- Storage.RetrievesByKey: for nouns that come back from their own encoding, which `Storage.ReturnsWhen` decides; others are an error or run something else.
- Requests.RequestAnswered: assumes that a sealed text opens under its key and nonce, and that the engine's secret stays the same.
- WellFormed.ProgramCompilesIffFormed: asks for at most 50 levels of scope, groups of at most 512, none empty where one is needed, and no index of zero; `WellFormed.CompilesWhenFormed` has no such bounds and allows a panic.
- Network.TwoAgentSafety: has two agents; keys are told apart for each agent, so a third could be added only with an injective key exchange.
- FreshNetwork.TwoAgentsOnce: asks that stream keys be new, as `Runs.AtMostOnce` does; `OnceExactly.OnceExactlyWhenFresh` says exactly what happens otherwise.
- Steady.RisingAllRun: asks that no other neighbour's stream have the key, without which another neighbour's stream may take the packet.
- Positions in error messages of the tokenizer, and the text of errors.

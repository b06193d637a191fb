# btc-listener, modelled in Dafny

A model of the parts of btc-listener that carry their own parser, printer,
transformation or protocol, with proofs about all their inputs and all their
runs. `dafny verify dfyconfig.toml` checks everything.

The files, each a module:

- `Bytes`, `Bits`, `Runs`, `Order`: byte strings, bitwise operators, runs of parts
  printed one behind another and walked or searched in place, and the store's
  byte order.
- `CompactSize`, `Transaction`: the Transaction printer of
  tools/witness_tests_to_aver.py and the in-place walker of
  tools/regtest/liar.py (BIP144), and the stripped form Ids are taken over
  (BIP141).
- `Codec`: what is printed can be read back one way only.
- `LyingBlock`, `WitnessFlip`: the two rewritings of a whole Block liar.py serves,
  each proved to be a rewriting of the Block and not only of its bytes.
- `Unicode`: encode, decode and decoding with replacement, as UTF-8.
- `Framing`: the incremental reader `frames`, the printers `msg` and `wire`, and
  the checking reader `receive`.
- `Merkle`: the in-place loop, the same Root from the top down, and the lists that
  share a Root.
- `ScriptNumber`, `LegacyTx`: CScriptNum, CScript's pushes, their Python
  counterparts, BIP34's push, and the Transactions built around it.
- `Store`, `Keyspace`, `ReadBack`: the ordered key-value store, its batches and
  their undoing, and the Output keyspace under its two encodings and read back.
- `Requests`, `Owner`, `Turns`, `Clock`: the fourteen answers of app/owner.av, one
  state threaded through all of them, and what one turn comes to. What
  Infra.Follow, Infra.Peers, Domain.Connect, App.Node and the clock answer is an
  arbitrary `World`.
- `Walk`, `Attempt`: the walk process of main.av as nested calls and as a machine,
  and the order it asks in.
- `Node`, `Telling`, `Points`, `Processes`: every process of main.av and the owner,
  interleaved in any order; what the walk is told while they are, where the
  World takes it, and what the other processes ask.

Double SHA-256 is any function from byte strings to 32 bytes. No hash is assumed
injective: where a property needs it, it is stated for the pairs that were
hashed, or as the absence of a collision among them.

## Where the code and its own words differ

- app/owner.av:1001 says every answer of `connectedAt` puts the Catch-up back. The
  bare `Err` arm of `steppingWith` (app/owner.av:1028) does not. `Node.ErrArmRests`
  shows what follows for every such step, in a final chunk
  or between two slices and whether or not the reason names a Block;
  `Node.StoppedClosesUnlessLost` that this is the only way a Stopped attempt
  fails to close the node; and `Node.ErrArmIsReached` that the owner's own code
  allows it from the start. As infra/follow.av:818-828 is written the arm is never
  taken, since every failure of a step comes back as `Stepping.Refused`, and then
  nothing is ever lost and every Stopped attempt closes the node
  (`Node.StoppedAlwaysCloses`).
- `tx_extent` takes a Transaction with no Inputs for a marked one, and one whose
  stacks are not one to an Input for a longer or shorter one;
  `Transaction.ExtentInvertsSerialise` is the exact condition.
- `height_push(0)` is 01 00 where a Script pushes 00, and a negative Height is an
  error where a Script pushes it (`ScriptNumber.HeightPushIsPushed`);
  `bad_height_block` flips Height 17 into a push of sixteen that Script would
  write as OP_16 (`ScriptNumber.FlippedHeight`).
- `wire` and `msg` do not cut a command longer than twelve bytes. A frame made so
  does not carry its fields where they belong, and names its command only when the
  cut goes through a replacement character at its end (`Framing.CommandRead`).
- Two Transactions can be printed alike when one has no Input
  (`Codec.NoInputReadsTwoWays`). With an Input each, and one stack to an Input if
  marked, they are printed alike exactly when they are the same but for how they
  carry no Witness (`Codec.SerialisedAlike`).
- Text and byte keys of one txid compare alike exactly when the lesser index is no
  more than the greater one with its extra digits off (`Keyspace.KeysOrderAlike`):
  99999 and 100000 turn round, 10000 and 200000 do not. 100,000 is the greatest
  bound under which every pair keeps its order (`Keyspace.KeysOrderAlikeBelow`);
  the samples' indexes stay below eight.

## Model

| member | source | states |
|---|---|---|
| CompactSize.CompactInverts | tools/regtest/liar.py:103-108 | the reader gives back every count below 2^64 and the offset behind it, wherever the printed count stands |
| CompactSize.SizePrefixFree | tools/witness_tests_to_aver.py:58-65 | no count is printed two ways and no printed count begins another |
| CompactSize.ShortSizeAgrees | tools/regtest/liar.py:262-265 | compact_bytes is compact_size exactly up to 2^32 - 1 |
| CompactSize.ReadersAgree | tools/regtest/cmpctblock-capture.py:64-75 | the two readers differ exactly where the string ends inside the number, and then only the strict one refuses |
| Transaction.Serialise | tools/witness_tests_to_aver.py:76-95 | the loops print the Transaction's wire form: marked and with its stacks when some stack is non-empty, stripped otherwise |
| Transaction.TxExtent | tools/regtest/liar.py:109-129 | the advancing walk answers where everything stands, or fails as the source's index does |
| Transaction.ExtentInvertsEncode | tools/regtest/liar.py:109-129 | on any well-formed wire form, whatever its flag byte and stacks, at any offset, the walk answers its exact end, marker, Input count and offsets |
| Transaction.ExtentInvertsSerialise | tools/regtest/liar.py:109-129 | behind any bytes and before any others, the walk ends at the printed end with the marker iff a stack was printed, exactly when there is an Input and, if marked, one stack to an Input |
| Transaction.StrippedOfSerialised | tools/witness_tests_to_aver.py:76-95 | version, the walked Inputs and Outputs and lock time are what serialise prints without Witnesses |
| Transaction.StrippedRead | tools/regtest/liar.py:209-213 | those three slices of any well-formed wire form are its stripped form |
| Transaction.ScriptTestWalked | tools/witness_tests_to_aver.py:98-111 | the crediting Transaction is never marked, the spending one iff its Witness has an item; both are walked exactly; no Witness moves the spending one's stripped form |
| LegacyTx.CreditingPrinted | tools/witness_tests_to_aver.py:98-105 | the crediting Transaction's bytes, each of them |
| LegacyTx.SpendingPrinted | tools/witness_tests_to_aver.py:107-111 | the spending Transaction's bytes, each of them: the crediting one's digest at index nought, and 00 01 with the stack exactly when it has an item |
| Codec.EncodePrefixFree | tools/witness_tests_to_aver.py:58-95 | no well-formed Transaction is printed two ways and none begins another, whatever their flags and stacks |
| Codec.SerialisedAlike | tools/witness_tests_to_aver.py:76-95 | serialise prints two Transactions with an Input, and one stack to an Input if marked, alike exactly when every field agrees but the way of carrying no Witness |
| Codec.NoInputReadsTwoWays | tools/witness_tests_to_aver.py:76-95 | the Input is needed: for every version and lock time a Transaction with none prints exactly as another with one |
| LyingBlock.ServeLyingBody | tools/regtest/liar.py:138-157 | the loop serves the body LyingBody describes |
| LyingBlock.BlockWalked | tools/regtest/liar.py:138-142 | a well-formed Block is walked exactly to its end, yielding every stripped form in order |
| LyingBlock.LyingBodyTellsOneLie | tools/regtest/liar.py:130-157 | for every well-formed Block and both modes the bytes served are the Block with the lie told of the first Transaction the mode can lie about, again well-formed |
| LyingBlock.LieKeepsEveryId | tools/regtest/liar.py:130-157 | the served Block is walked to its own end in as many Transactions with the same stripped forms, so every Id and the Merkle Root stay |
| LyingBlock.FlagLieMovesOneByte | tools/regtest/liar.py:145-146 | witnessflag serves the Block itself, or with one byte made 2 at the flag of the first marked Transaction |
| LyingBlock.EmptyWitnessChangesTheFirst | tools/regtest/liar.py:147-154 | emptywitness changes the first Transaction only; its stacks are then empty, one to an Input |
| LyingBlock.LieIsNoSerialisation | tools/regtest/liar.py:131-141 | no Transaction a reader could hold serialises to the lie, and none begins with it or is begun by it |
| LyingBlock.LiedBlockIsNoBlock | tools/regtest/liar.py:130-157 | whenever there is a Transaction to lie about, the served Block is no Block of Transactions serialise printed, under any header, whatever follows either |
| LyingBlock.BlockPrefixFree | tools/regtest/liar.py:130-157 | no well-formed Block is printed two ways and none begins another |
| WitnessFlip.ServeWrongWitnessBody | tools/regtest/liar.py:158-179 | the byte array, edited in place by the loops, ends as WrongWitnessBody describes, or fails as the source does |
| WitnessFlip.WrongWitnessBodyFlipsTheBlock | tools/regtest/liar.py:158-179 | for every well-formed Block the bytes served are the Block with the first byte of the first non-empty Witness item behind the coinbase flipped, as long and as well-formed |
| WitnessFlip.FlipKeepsEveryId | tools/regtest/liar.py:158-163 | length, every stripped form, every Id and the Merkle Root stay |
| WitnessFlip.FlipMovesAtMostOneByte | tools/regtest/liar.py:158-179 | exactly one byte differs iff a Transaction behind the coinbase carries a non-empty item, none otherwise |
| Framing.Frames | tools/regtest/liar.py:21-42 | over any reads the generator's frames and buffer are the one-shot cut of all the bytes heard; how many frames were yielded before each on_idle call, and the way it ended |
| Framing.CutKeepsEveryByte | tools/regtest/liar.py:31-35 | frames and rest together are the bytes, and the rest holds no whole frame |
| Framing.CutAppend | tools/regtest/liar.py:31-42 | cutting what is there and then the rest with more is cutting it all at once |
| Framing.ChunkingIsNothing | tools/regtest/liar.py:21-42 | with an on_idle handler or without, over any reads: what is heard is the bytes up to the read that ends it, however they were cut, one on_idle call to an idle read, and the end is a close, a raised timeout or none yet by what that read is |
| Framing.StreamIsCutIntoMessages | tools/regtest/liar.py:3-6 | a stream of msg outputs is cut into exactly those Messages, whatever follows |
| Framing.CommandRead | tools/regtest/liar.py:3-20 | a frame names the command it was made with exactly when that is at most twelve bytes of UTF-8 with no NUL at its end, or is thirteen or fourteen ending in a replacement character |
| Framing.YieldedNamesItsCommand | tools/regtest/liar.py:3-20 | of a stream of Messages each yielded frame names its command exactly when that has no NUL at its end |
| Framing.MsgIsLaidOut | tools/regtest/liar.py:2-6 | for a command of at most twelve bytes msg prints the one string with fa bf b5 da, the command filled up with NULs, the length low byte first, the digest's first four bytes (corrupted: the first of them one more, round at 256) and the payload; it fails exactly on a payload four bytes cannot count; wire is the same uncorrupted |
| Unicode.DecodedIffWritten | tools/regtest/suite_support.py:172-186 | decode takes exactly the bytes encode writes, and gives the text back |
| Unicode.ReplacedInverts | tools/regtest/liar.py:19-20 | decoding with replacement gives back any text encoded, whatever follows it |
| Unicode.TextCutShort | tools/regtest/liar.py:19-20 | text cut after any number of bytes decodes to the characters that stand whole, and one replacement character if the cut goes through one |
| Framing.Exact | tools/regtest/suite_support.py:173-179 | all the bytes asked for, or the Peer closed first |
| Framing.Receive | tools/regtest/suite_support.py:172-186 | one Message off the stream or the first check it fails, the stream left behind what was read |
| Framing.ReceiveInvertsWire | tools/regtest/suite_support.py:167-186 | a Message is received exactly when the stream opens with its wire, for bodies up to 4,000,000 bytes |
| Framing.ReceivesWhatIsLaidOut | tools/regtest/suite_support.py:167-186 | byte by byte: a Message is received exactly when it stands at the head of the stream so laid out, with its own digest's first four bytes and a body of at most 4,000,000 |
| Framing.CorruptIsRefused | tools/regtest/liar.py:5 | a checksum made wrong is refused by receive |
| Framing.ReadersAgree | tools/regtest/suite_support.py:172-186 | what receive takes frames yields first, same command and body, and both go on from the same byte |
| Framing.ReceivedIsWhatWasSent | tools/regtest/suite_support.py:167-186 | a whole stream of wires is received as it was sent, and frames names the same commands over the same bodies |
| Framing.ReadMessage | tools/regtest/cmpctblock-capture.py:46-61 | the two loops take one whole frame or say what was cut, the stream left behind what was read either way |
| Framing.ReceiveIsCaptureChecked | tools/regtest/cmpctblock-capture.py:46-61 | receive takes exactly the captured Messages that are short enough and wired as they should be |
| Merkle.MerkleRoot | tools/regtest/liar.py:231-235 | the level loop answers the recursive Root, or fails on no Transactions |
| Merkle.RootIsTheTopEntry | tools/regtest/liar.py:231-235 | that Root is the top entry of the tree computed downwards, with no entry ever appended |
| Merkle.EveryIdFoldsToTheRoot | tools/regtest/liar.py:231-235 | from any id up along the bits of its place, left of its sibling on a nought and right of it on a one, the entry itself the sibling at the end of an odd level, the hashes come to the Root |
| Merkle.SmallRoots | tools/regtest/liar.py:231-235 | one id is its own Root and two are hashed in their order |
| Merkle.RootFixesTheIds | tools/regtest/liar.py:231-235 | lists of one length have one Root exactly when they are equal, unless two pairs hashed in the same place collide |
| Merkle.LastTwiceKeepsTheRoot | tools/regtest/liar.py:233 | any odd length above one keeps its Root when its last id is appended again (CVE-2012-2459) |
| Merkle.RepeatedTailKeepsTheRoot | tools/regtest/liar.py:231-235 | the whole family: 2^k times an odd number above one keeps its Root when its last 2^k ids come again |
| Merkle.RootFixesTheFullList | tools/regtest/liar.py:231-235 | of trees as high, lists of any lengths have one Root exactly when filling every short level with its last entry gives them the same leaves, unless two pairs in one place collide; one list then begins the other |
| Merkle.FullKeepsTheRoot | tools/regtest/liar.py:231-235 | the filled list, 2^k leaves, has the list's own Root and is filled no further |
| Merkle.SharedRootRepeatsAnId | tools/regtest/liar.py:231-235 | of two such lists of different lengths under one Root the longer begins with the other and holds an id twice, unless two pairs collide |
| ScriptNumber.Serialize | tools/script_tests_data/script.h:342-373 | the 64-bit loop writes the number, INT64_MIN in nine bytes included |
| ScriptNumber.SetVch | tools/script_tests_data/script.h:376-391 | the shifts, the or of the bytes and the masked sign bit read the value of any string of at most eight bytes |
| ScriptNumber.FromBytes | tools/script_tests_data/script.h:246-271 | overflow first, then minimality, then the value; past eight bytes, where the shift is undefined, it says so |
| ScriptNumber.ScriptNum | tools/script_tests_to_aver.py:104-116 | writes the same number as the C++ over every integer |
| ScriptNumber.ValueInvertsNumber | tools/script_tests_data/script.h:342-391 | reading what was written gives the value back, and what was written is minimal |
| ScriptNumber.MinimalIffWritten | tools/script_tests_data/script.h:252-268 | the strings that pass the check are exactly the ones that are written |
| ScriptNumber.NumberInjective | tools/script_tests_data/script.h:342-373 | no two numbers are written alike |
| ScriptNumber.NumberFits | tools/script_tests_data/script.h:342-373 | at most k bytes exactly below 2^(8k - 1) in magnitude |
| ScriptNumber.FourBytes | tools/script_tests_data/script.h:244-251 | at most four bytes iff the magnitude is at most 2^31 - 1, eight iff at most 2^63 - 1 |
| ScriptNumber.Script.AppendDataSize | tools/script_tests_data/script.h:408-426 | appends the opcode and length a push of that size begins with and nothing else |
| ScriptNumber.Script.PushInt64 | tools/script_tests_data/script.h:434-449 | appends the push of the integer, for every int64 |
| ScriptNumber.ParseInteger | tools/script_tests_to_aver.py:119-130 | appends the same push for an integer word |
| ScriptNumber.PushPrefixFree | tools/script_tests_to_aver.py:92-101 | no data is pushed two ways and no push begins another |
| ScriptNumber.PushedInjective | tools/script_tests_data/script.h:434-449 | no two int64 are pushed alike |
| ScriptNumber.HeightIsNumber | tools/regtest/liar.py:249 | the closed form through the bit length is the byte loop's number for every positive Height |
| ScriptNumber.HeightPushIsPushed | tools/regtest/liar.py:245-250 | of every int64, height_push is the Script push exactly when the Height is above nought |
| ScriptNumber.FlippedHeight | tools/regtest/liar.py:199-204 | flipping the low byte of a pushed Height from 17 pushes the Height xor 1, except at 17 |
| LegacyTx.LegacyCoinbase | tools/regtest/liar.py:251-265 | the bytes are the wire form of that coinbase, negative values in two's complement, or it fails exactly on a negative Height or a payment that cannot be packed |
| LegacyTx.LegacyCoinbaseWalked | tools/regtest/liar.py:251-261 | it is walked as one Input, its script opening with the push a Script would make |
| LegacyTx.LegacySpendIsEncoded | tools/regtest/liar.py:285-291 | it fails exactly when a field does not fit its four bytes, the version's signed; otherwise the spend is the wire form of its fields and is walked as that |
| Order.PrefixIsContiguous | providers/kv/src/lib.rs:447-462 | between a prefix and a key that has it every key has it, so stopping at the first without it loses nothing |
| Order.BigEndianOrder | providers/kv/src/lib.rs:816-830 | big-endian bytes of one width order as their numbers |
| Store.Db.Get | providers/kv/src/lib.rs:326-342 | the value held under the key, or none |
| Store.Db.GetAll | providers/kv/src/lib.rs:343-365 | one answer to a key, in order |
| Store.Db.PutAll | providers/kv/src/lib.rs:366-383 | the contents with the last put to each key |
| Store.Db.ApplyAll | providers/kv/src/lib.rs:384-405 | the contents with the last put to each key, then without every deleted key |
| Store.Db.DeleteAll | providers/kv/src/lib.rs:406-423 | the contents without the keys |
| Store.Db.Count | providers/kv/src/lib.rs:424-437 | how many keys are held |
| Store.Db.Prefixed | providers/kv/src/lib.rs:438-465 | every row held whose key has the prefix, no other, ascending |
| Store.FilteredIsExact | providers/kv/src/lib.rs:438-465 | filtering an ascending store by prefix is ascending and exact |
| Store.ScannedInIndexOrder | providers/kv/src/lib.rs:816-872 | one Transaction's Outputs come off the scan in numeric index order, whatever was written in whatever order |
| Store.LatestIsTheLast | providers/kv/src/lib.rs:395-397 | within a batch a later put to a key wins |
| Store.UndoRestores | README.md:1054-1060 | undoing a batch restores the contents exactly when no key it put was already held |
| Store.UndoStackRestores | README.md:876-886 | a stack of batches undone last first restores the contents exactly when no key held at the start is put by the first batch to name it |
| Store.NewKeysAreRestored | README.md:1054-1060 | so it does when each batch puts only keys that are new in its turn |
| Keyspace.KeysOrderAlike | tools/keyspace-size/src/main.rs:76-88 | text and byte keys of txids of one length compare alike exactly when the txids differ or the lesser index is no more than the greater with its extra digits off; they are equal together for all indexes |
| Keyspace.KeysOrderAlikeBelow | tools/keyspace-size/src/main.rs:76-88 | every pair of indexes below a bound compares alike exactly when the bound is at most 100,000 |
| ReadBack.ByteRowRead | tools/keyspace-size/src/main.rs:38-88 | a byte row is an 'o', 32 bytes, four and eight more read big-endian, and 25: the numbered Output's Id, index, value and script, each field as sample makes it |
| ReadBack.TextRowRead | tools/keyspace-size/src/main.rs:56-79 | a text row is read back, hex by its characters and decimal by its digits, as the same Id, index in five digits, value and script |
| Keyspace.Built | tools/keyspace-size/src/main.rs:69-99 | whatever the batch boundaries the database ends with exactly the rows that putting every sample one by one leaves |
| Keyspace.BuiltHoldsEveryOutput | tools/keyspace-size/src/main.rs:38-98 | that is exactly count entries, each sample under its own key |
| Keyspace.BuiltAlike | tools/keyspace-size/src/main.rs:69-99 | the rows of the two databases are as many, and row by row the same samples |
| Owner.AskKeeps | app/owner.av:120-344 | every answer keeps: over implies no Catch-up, a Catch-up implies a node, the node is never lost, over never unset and then always answered, the run ends once and puts down exactly the Catch-up held |
| Owner.RunsKeep | app/owner.av:120-344 | the same over any sequence of questions and Worlds |
| Owner.RunsFromFresh | app/owner.av:42-383 | from the first state: the invariant, no Peer seated once over, one ending at most, Run.fail at most once |
| Turns.EveryTurnIsTold | app/owner.av:49-66 | with a node open a turn first adds to its Pool's total the time since the last answer, none before the first and none against a skewed clock, stamps the instant and the question's name, and moves nothing else; without a node it moves nothing |
| Turns.EveryTurnTakesItsHand | app/owner.av:98-1211 | for all fourteen questions: the turn's one call hands back a node, a Pool, a node with its Catch-up, a reply, or an ending, by the World; the state takes that and nothing else; it shuts and fails as that asks; it parks on exactly the turns and until exactly the instants the World has it; a Peer is answered its own Message, and true exactly while its socket is there or its Headers were kept |
| Points.WalkGoesByTheWorld | app/owner.av:754-1211 | where the walk stands after a turn, by its point, the state and the World alone: questions and answers in between say nothing else |
| Points.ArrivesExactly | app/owner.av:1055-1152 | from any system, under any move: the walk comes to a settled Moved exactly on the turn that ends a final chunk Built at the tip with the Catch-up held; to another final chunk exactly on Built short of it or the bodies Landed; to a chunk between slices exactly on Sliced; to aligning exactly on a batch with no more or a paused asking |
| Points.MovedMeansAtTheTip | main.av:212-240 | from boot, under every interleaving: an attempt is being settled Moved exactly when its last turn ended a final chunk at the tip |
| Points.PeerGoesByTheWorld | main.av:69-84 | where a Peer's process stands after a turn, by the state and the World alone: a Message spoken is the one it has acted on next, a Peer gone or with no socket left is let go |
| Points.SeatedWithASocket | app/owner.av:346-357 | the loop seats a Peer's process, reading, exactly when the node is open, the Peer has a socket and no process is there yet |
| Points.FirstIsOwedUntilTaken | app/owner.av:754-801 | from boot, under every interleaving, the first Catch-up is owed exactly until due takes a claim up |
| Owner.CatchUpLeaves | app/owner.av:974-1032 | a held Catch-up leaves the state only through settled, a closing, or the bare Err arm, and always through that arm |
| Owner.FirstReplyKept | app/owner.av:500-549 | once Headers are kept for the walk, nothing a Peer says, a Block landing among it, and nothing the clock does replaces them until the walk asks again or the node closes |
| Clock.AskMeasures | app/owner.av:49-114 | one turn's measured milliseconds are its wait, if there was a node, and its work, if there is one |
| Clock.ClockConserved | app/owner.av:49-114 | over any run with a steady clock, waited plus worked is the last answer's instant less the instant the opening turn was entered |
| Clock.PoolIsToldTheRest | app/owner.av:49-114 | over any run of an open node with a steady clock, whose Worlds hand the Pool's total back as they found it, what the total has grown by and the turns' work are the last answer's instant less the first's |
| Clock.PoolIsToldFromTheOpening | app/owner.av:49-114 | the same from the start: less the instant the turn that opened the node was entered at |
| Walk.MachineIsTheWalk | main.av:107-240 | for every sequence of answers the machine asks the questions the nested calls ask, in order, and returns exactly when they do |
| Attempt.EveryQuestionAllowed | main.av:127-240 | every question is allowed by what was answered before: Headers until done, aligned, a download turn only behind Ready or a chunk come out, a final chunk only behind Done or a built one, no chunk broken off, Heights consecutive from Begun.At, each ending with its reason fixed by the last answer, Moved only behind a final chunk at the tip, one key through an attempt |
| Node.EveryReachableSystem | main.av:69-138 | under every interleaving the walk returns only once over, due is never asked with a Catch-up held, and an attempt in an open node holds its Catch-up unless the Err arm lost it |
| Telling.RunPlaysTape | main.av:127-240 | from any state and under every interleaving the walk stands where the answers it was given take it, each taken and each of its question's type |
| Telling.EveryRunPlaysATape | main.av:69-240 | from boot, under every interleaving: the walk has asked what the nested calls ask on the same answers, has returned when they have, and every question it asked, the open one too, was allowed by what it had been told |
| Node.EveryProcessLasts | main.av:62-105 | under every interleaving the clock and the writer return only once over, and the starter with the node open or the run ended |
| Processes.EveryProcessAsksInOrder | main.av:62-105 | from boot, under every interleaving, read off the questions and answers: each Message heard is, once and in order, its process's very next question handled; true reads on; Gone or false ends it; the loops ask again until told Over and the starter once; a process is there exactly while it owes a question, and every answer is of its question's type |
| Node.StoppedClosesUnlessLost | app/owner.av:1065-1111 | a walk that stopped closes the node exactly when the Err arm was not taken in the attempt |
| Node.ErrArmRests | app/owner.av:1025-1032 | every step that takes that arm in an open node, whether or not its reason names a Block, leads to rest with the node open: two turns of the walk from a final chunk, which is settled Stopped or Invalid, three between slices |
| Node.LostIsSettledToRest | app/owner.av:1065-1089 | whatever the ending, a lost attempt settled in an open node is answered Rested |
| Node.LostRunsToRest | main.av:127-240 | however the rest interleaves, a lost attempt is at rest within two more turns of the walk unless a process has closed the node |
| Node.ErrArmIsReached | app/owner.av:1025-1032 | under a World whose step answers Err, eight turns from the start reach it |
| Node.StoppedAlwaysCloses | infra/follow.av:818-828 | when every step is answered without Err, as there, every attempt in an open node holds its Catch-up and every Stopped one closes the node |
| Node.EveryProcessReturns | main.av:69-138 | once over, under any interleaving, the walk returns within two answers from any point and every other process within one |
| Node.WalkCarriesTheKeyFromBoot | main.av:127-138 | if steps keep the Catch-up's key, the walk's key is that Catch-up's at every question asked while one is held |

## Left out

- CompactSize.CompactInverts: counts from 2^64 on, which the printer refuses with an OverflowError; no list in memory is that long.
- Framing.Msg: a command holding a lone surrogate, which encode refuses.
- Merkle.RootFixesTheFullList: lists whose trees are not as high; there a Root can be shared where an id is itself a pair's digest.
- ScriptNumber.Script.Append: data past 2^32 - 1 bytes, whose size the C++ narrows.
- ScriptNumber.SetVch: strings past eight bytes, where the C++ shift is undefined.
- Node.ErrArmIsReached: its World answers a step with Err, which infra/follow.av as written never does.
- Owner.Ask: which sockets and which job a park waits on; only its milliseconds are kept. Messages' wording is shortened.
- Owner.World: the insides of Infra.Follow, Infra.Peers, Domain.Connect and App.Node; every result is arbitrary but that a Block landing moves only the flight and its eye in the Catch-up (infra/follow.av:484-486,654-712), so nothing is proved about the Set, the Header tree or the Pool themselves.
- Node.Moved: the coordinator's scheduling. Any process may be asked at any time, so nothing is said of fairness or of how long a park lasts.
- Store.Db: RocksDB's durability, compaction, cache and errors; the store is the rows in key order, and shape and arity faults of the provider are not modelled.
- Serving a stop while a job flies, the terminal, the Board and the Screen: I/O.
- version_payload, headers_payload, the flood scenarios, nonce grinding and bitcoin-cli: I/O plumbing with no law of its own.
- bad_height_block beyond its flipped byte: the witness commitment rewrite needs the coinbase's own script layout.
- secp256k1, RIPEMD-160, SHA-1: foreign calls.
- The Script engine, CompactBlock, SipHash, Base58 and the Mempool: not part of this model.

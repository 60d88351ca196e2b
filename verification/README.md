# Bungohan, verified

A Dafny model of the parts of Bungohan where state on two sides must stay in
step, with proofs about whole runs.

- **State stream.** `Wire`, `Utf8`, `Utf16`, `Doubles`, `Buffers`, `StateTypes`: the
  primitive encodings and the buffers. `OpCodec`: the `schema` op codec as
  functions. `WireFormat`, `OpFormat`, `TypeNames`: its bytes. `OpCodecProofs`,
  `OpStreams`: both sides' tables evolve in lockstep, and a client that knows a
  part of the encoder's tables never misreads.
  `SchemaSession`: the session that runs, with tables changed under an undo journal.
- **Replica.** `Containers`, `Replica`: ops applied to a graph of instances.
  `ReplicaProofs`, `ReplicaOps`, `ReplicaBinds`, `ReplicaFrames`, `ReplicaRuns`:
  holder counts are exact after every frame of every disciplined run.
  `ReplicaClasses`: one server class per local class makes runs disciplined.
  `ReplicaEffects`: what each op shows, element by element.
  `StateDecoder`: the decoder that updates the replica in place.
- **Rooms.** `Seats`, `SeatProofs`, `PauseProofs`: the seat machine over its atomic
  steps, with reservations, tokens, held seats, pause and disposal. `Replication`: what
  clients show over whole histories. `SeatEffects`: what each step does.
  `RoomObject`: the room that changes in place.
- **Client.** `ClientSteps`: connection, retries, joins and resumes as functions of
  the whole state, one for each event. `ClientProofs`, `ClientRuns`: what holds
  after every sequence of events. `ClientEffects`: what each event does.
  `ClientMachine`: the client that changes in place.
- **Matchmaking.** `Matchmaking`: every interleaving of find-or-create and keyed
  creation.
- **Messages.** `Contract`, `Messages`, `MessageProofs`: contract messages under
  the `schema` codec; `MessageOutput`, `MessageInput`: written and read in place.
  `MessagePack`, `MessagePackIO`: the MessagePack subset. `Positional`,
  `PositionalLists`: positional arrays. `CodecAgreement`: both codecs agree.
  `MessageFormat`, `MessagePackFormat`, `PositionalFormat`: the bytes and lists.
- **Pacing.** `Limits`, `SimulationLoop`: token buckets and the fixed-step loop
  over real numbers.

Each component that changes things step by step has two layers: functions on
values, about which the theorems are, and a class or methods that change fields,
arrays or buffers in place and are proved to do what the functions say. Members
named `...Is` and `...Are` say what a function does without naming it: which
bytes, which element, which seat.
`dafny verify dfyconfig.toml` checks everything.

Assumptions, all visible as preconditions:

- Payload and op values have their API conversions behind them: integers in range,
  `fixed` numbers scaled, floats as bit patterns of their precision, texts as
  sequences of Unicode scalar values. Writing replaces U+0000 and every NaN but one,
  so the round trips of ops and of messages under the `schema` codec ask for values
  without those (`OpCodecProofs.NormalVal`, `Messages.Clean`).
- Ownership discipline of the replica's ops (`ReplicaFrames.Disciplined`): field
  names of a DEFINE are distinct; an instance placed in a collection is neither
  nested nor the root and its count has not reached 2^31 - 2; a constructor makes
  fresh objects; a nested object rebound keeps mapping what it nests, for which
  one server class per local class is enough. Blocks need not be disjoint.
- State deltas satisfy `Replication.Lawful`: applying what changed since a base
  gives the current state, and no ops means no change.
- Steps are atomic between awaits: hooks and listeners do not call back
  synchronously, issuing a token and activating the seat are one step, the start
  of `dispose()` is one step, using a reservation and sitting down are one step.
- A server answers a join at most once with JOIN_SUCCESS, with a handle that is not
  in use on that connection; a socket opens at most once (`ClientSteps.Enabled`).

Where a promise turned out to depend on a condition, the code is modelled as it is
and the condition is proved: see `SeatProofs.CapThroughout` with
`OverfullAtExpiry` (the seat cap at the instant a reservation expires),
`PauseProofs.PauseBreaks` and `PauseThroughout` with `SeatProofs.PausedYetConnected`
and `PausedYetResumed` (the pause while a room is being disposed: a join that
completes then breaks it, and so does a held seat that is resumed),
`ClientRuns.LeftRoomReturns` with `LeftRoomRecalled` (a room left while its resume
is unanswered comes back through the late answer or through a lost connection),
`MessagePack.RoundTrip` with `NulIsReplaced`, `ClashingKeysRefused` and
`WholeFloatsAreIntegers` (which values MessagePack gives back unchanged),
`CodecAgreement.CodecsAgree` with `NegativeZeroDiffers` (the sign of -0) and
`MessageProofs.ArrayReadsIff` with `EmptyElementsRefused` (arrays of messages that
take no bytes).

## Model

| member | source | states |
|---|---|---|
| `Wire.VarintRoundTrip` | clients/csharp/Bungohan.Protocol/Bytes.cs:96-105 | a varint of any uint32 is read back with exactly what follows it, and takes one to five bytes |
| `Wire.LittleEndianRoundTrip` | clients/csharp/Bungohan.Protocol/Bytes.cs:109-123 | fixed-width little-endian numbers come back unchanged |
| `Wire.BigEndianRoundTrip` | clients/csharp/Bungohan.Protocol/Bytes.cs:133-137 | fixed-width big-endian numbers come back unchanged |
| `Utf8.WireTextDecodes` | clients/csharp/Bungohan.Protocol/Utf8.cs:19-27 | a text is written with U+FFFD for U+0000 and decodes to that; it decodes to itself if and only if it holds no U+0000 |
| `Utf8.DecodeOfEncode` | clients/csharp/Bungohan.Protocol/Utf8.cs:22-27 | every text decodes from its own UTF-8 encoding form (section 4 of RFC 3629), the replacement of U+0000 aside |
| `Doubles.DoubleOfWhole` | clients/csharp/Bungohan.Protocol/MessagePack.cs:104-114 | a bit pattern that stands for a safe integer is that integer's own double, but for -0, which counts as 0 |
| `Doubles.WidenInjective` | clients/csharp/Bungohan.Protocol/MessagePack.cs:221 | widening a float 32 loses nothing but which NaN it was |
| `Utf8.EncodeOfDecode` | clients/csharp/Bungohan.Protocol/Utf8.cs:30-64 | whatever decodes is the encoding of what it decodes to: overlong forms, surrogates and values above U+10FFFF are refused |
| `Utf8.DecodableIsWellFormed` | clients/csharp/Bungohan.Protocol/Utf8.cs:30-64 | bytes are accepted if and only if they are the encodings of some sequence of scalar values, one after the other |
| `Utf8.EncodeInjective` | clients/csharp/Bungohan.Protocol/Utf8.cs:30-64 | that sequence is unique |
| `Utf8.IsValid` | clients/csharp/Bungohan.Protocol/Utf8.cs:30-64 | the validating loop accepts a byte range exactly if it is well-formed UTF-8 |
| `Utf16.WireTextLength` | packages/serializer/src/bytes.ts:25-30 | replacing lone surrogates and U+0000 keeps the number of UTF-16 units |
| `Utf16.Utf8Bound` | packages/serializer/src/bytes.ts:141-150 | a string of n units takes at most 3n bytes, so fewer than 43 units fit a one-byte length |
| `Buffers.ByteWriter.Reserve` | packages/serializer/src/bytes.ts:164-177 | room for the extra bytes with the contents kept; a buffer with enough room is not replaced |
| `Buffers.ByteWriter.Patch` | clients/csharp/Bungohan.Protocol/Bytes.cs:81 | one byte already written is changed and no other |
| `Buffers.ByteWriter.Varint` | packages/serializer/src/bytes.ts:100-109 | appends the varint; with five bytes of room it neither replaces the buffer nor touches a byte past what it wrote |
| `Buffers.ByteWriter.EncodeInto` | packages/serializer/src/bytes.ts:147-150 | the UTF-8 bytes land at the given place, earlier bytes untouched |
| `Buffers.ByteWriter.CopyWithin` | packages/serializer/src/bytes.ts:160 | a range moved down within the buffer, overlap included |
| `Buffers.ByteWriter.PrefixInPlace` | packages/serializer/src/bytes.ts:151-155 | the one-byte length path: the length written before a body already in place |
| `Buffers.ByteWriter.PrefixAndMoveDown` | packages/serializer/src/bytes.ts:156-161 | the long path: the length is written over the gap without reallocating or overwriting the body before the move down |
| `Buffers.ByteWriter.String` | packages/serializer/src/bytes.ts:141-162 | for every string and fill level, exactly varint(length) and the UTF-8 bytes are appended and earlier contents kept |
| `Buffers.ByteReader.Varint` | clients/csharp/Bungohan.Protocol/Bytes.cs:191-201 | reads what the LEB128 specification gives, refuses a sixth byte and values over 32 bits, and stays failed once failed |
| `Buffers.ByteReader.Take` | clients/csharp/Bungohan.Protocol/Bytes.cs:271-283 | a slice of that many bytes, or failure if fewer are left |
| `WireFormat.VarintIs` | clients/csharp/Bungohan.Protocol/Bytes.cs:96-105 | groups of seven bits, the lowest first; all but the last byte have the top bit set |
| `WireFormat.ReadVarintIs` | clients/csharp/Bungohan.Protocol/Bytes.cs:191-201 | a varint is read from at most five bytes, and refused above 2^32 - 1 |
| `WireFormat.ZigzagIs` | clients/csharp/Bungohan.Protocol/Bytes.cs:47-51 | 0, -1, 1, -2, 2 and so on |
| `WireFormat.LittleEndianIs` | clients/csharp/Bungohan.Protocol/Bytes.cs:109-123 | byte i holds bits 8i to 8i + 7 |
| `WireFormat.BigEndianIs` | clients/csharp/Bungohan.Protocol/Bytes.cs:133-137 | the same from the other end |
| `WireFormat.CharIs` | clients/csharp/Bungohan.Protocol/Utf8.cs:19-27 | section 3 of RFC 3629: how many bytes, the first byte, and six bits in each byte after it |
| `WireFormat.TextIs` | clients/csharp/Bungohan.Protocol/Utf8.cs:19-27 | a text is encoded character by character, in order |
| `WireFormat.WireTextIs` | packages/serializer/src/bytes.ts:25-30 | each unit is written as it is, but lone surrogates and U+0000 as U+FFFD |
| `WireFormat.WholeIs` | clients/csharp/Bungohan.Protocol/MessagePack.cs:104-114 | which integer a double's sign, exponent and fraction stand for |
| `WireFormat.NearestIs` | clients/csharp/Bungohan.Protocol/MessagePack.cs:59-62 | a large integer is rounded to the nearest number of 53 bits, to the even one of two |
| `WireFormat.LargeIs` | clients/csharp/Bungohan.Protocol/MessagePack.cs:59-62 | so its double is off by at most half a unit of its last bit |
| `WireFormat.WidenIs` | clients/csharp/Bungohan.Protocol/MessagePack.cs:221 | a float 32 read as a double is the same number: sign, bits and exponent, subnormals included |
| `OpCodecProofs.StringRoundTrip` | clients/csharp/Bungohan.Protocol/Bytes.cs:125-131 | a length-prefixed string without U+0000 is read back with what follows it |
| `OpCodecProofs.ScalarRoundTrip` | clients/csharp/Bungohan.Protocol/SchemaCodec.cs:166-257 | every scalar that is written under a type is read back under it |
| `OpCodecProofs.HeaderRoundTrip` | clients/csharp/Bungohan.Protocol/SchemaCodec.cs:306-331 | op header: the S bit, the omitted target and the F escape at 15 all decode to what was encoded |
| `OpCodecProofs.OpRoundTrip` | clients/csharp/Bungohan.Protocol/SchemaCodec.cs:306-556 | one op against tables that agree: the same op, the same tables and the same running refId on both sides; against a part of the encoder's tables, the same op or an error |
| `OpCodecProofs.OpsLockstep` | clients/csharp/Bungohan.Protocol/SchemaCodec.cs:267-302 | a frame's ops decode to themselves, with refs that rebind blocks mid-frame and restated DEFINEs |
| `OpCodecProofs.OpsPartial` | clients/csharp/Bungohan.Protocol/SchemaCodec.cs:428-556 | a decoder that knows a part of the encoder's tables decodes a frame to exactly its ops or refuses it, and still knows a part |
| `OpFormat.HeaderIs` | clients/csharp/Bungohan.Protocol/WireOp.cs:7-14 | for every op that encodes, the first byte divided by 32 is 0 for SET, 1 for ADD, 2 for REMOVE, 3 for CLEAR and 4 for DEFINE; bit 4 is set exactly if the target is the last one; the low nibble is the field's index, at most 15 |
| `OpFormat.OpIs` | clients/csharp/Bungohan.Protocol/SchemaCodec.cs:306-401 | what follows the header: the target unless it repeats, the field's index past 15, the key, the value |
| `OpFormat.OpAccepted` | clients/csharp/Bungohan.Protocol/SchemaCodec.cs:306-401 | exactly which ops are encoded: what the target denotes, the key's and the value's type, known classes |
| `OpFormat.ScalarIs` | clients/csharp/Bungohan.Protocol/SchemaCodec.cs:166-220 | exactly the values of the type are written, each as its bytes |
| `OpFormat.DefineBytesAre` | clients/csharp/Bungohan.Protocol/SchemaCodec.cs:410-426 | a DEFINE: 0x80, the class id, its name, how many fields, and for each its name and type |
| `OpFormat.DefineClassIs` | clients/csharp/Bungohan.Protocol/SchemaCodec.cs:104-123 | a DEFINE adds the class under the next id or restates a known one exactly; the first class's instance is refId 0 |
| `OpFormat.CollectionsAre` | clients/csharp/Bungohan.Protocol/SchemaCodec.cs:125-146 | a class's collection fields, in field order |
| `OpFormat.BindIs` | clients/csharp/Bungohan.Protocol/SchemaCodec.cs:125-146 | a bound refId denotes its instance, the refIds after it its collections in field order, every other what it denoted before |
| `OpFormat.DecodesAs` | clients/csharp/Bungohan.Protocol/SchemaCodec.cs:428-499 | which constructor the bytes decode to, by the top three bits and by what the target is |
| `OpFormat.Refused` | clients/csharp/Bungohan.Protocol/SchemaCodec.cs:428-499 | header bytes that no op has are refused, and so are targets that denote nothing |
| `TypeNames.ScalarParses` | clients/csharp/Bungohan.Protocol/StateTypes.cs:51-74 | exactly the scalar names are scalars, each its own |
| `TypeNames.ScalarsParse` | clients/csharp/Bungohan.Protocol/StateTypes.cs:141-147 | a scalar's name is its own type string |
| `TypeNames.ObjectsParse` | clients/csharp/Bungohan.Protocol/StateTypes.cs:148-163 | a nested object, or a set or an array of instances, names its class |
| `TypeNames.PlainCollectionsParse` | clients/csharp/Bungohan.Protocol/StateTypes.cs:163-170 | a set holds what may be a key, an array anything but integers |
| `TypeNames.MapsParse` | clients/csharp/Bungohan.Protocol/StateTypes.cs:170-180 | a map names its key's type and its values', or their class |
| `TypeNames.KindsAre` | clients/csharp/Bungohan.Protocol/StateTypes.cs:121-136 | which kinds are collections, and of what |
| `OpStreams.FrameLockstep` | clients/csharp/Bungohan.Protocol/SchemaCodec.cs:267-302 | one frame: same ops, same class, layout and target tables |
| `OpStreams.Lockstep` | clients/csharp/Bungohan.Protocol/SchemaCodec.cs:259-556 | for every sequence of frames, refused ones skipped, a fresh decoder returns exactly the accepted frames and ends with the encoder's tables, hence after every prefix |
| `OpStreams.FramePartial` | clients/csharp/Bungohan.Protocol/SchemaCodec.cs:84-146 | prefix-and-submap knowledge survives every frame that decodes |
| `OpStreams.MissedFrame` | packages/core/src/room.ts:1579-1591 | a frame sent to other clients leaves a client's tables a part of the encoder's |
| `OpStreams.NeverMisreads` | packages/core/src/room.ts:1579-1591 | however the one encoder's frames are split between clients, no client ever decodes anything but what was encoded |
| `OpStreams.LateJoinerKnows` | packages/core/src/room.ts:1579-1591 | a client that starts at a later snapshot starts with a part of the encoder's tables |
| `SchemaSession.TableStore.Begin` | clients/csharp/Bungohan.Protocol/SchemaCodec.cs:84-88 | marks the tables a rollback returns to |
| `SchemaSession.TableStore.Rollback` | clients/csharp/Bungohan.Protocol/SchemaCodec.cs:90-102 | class list, layouts and target map are what they were at Begin, however often refIds were rebound since |
| `SchemaSession.TableStore.BindRef` | clients/csharp/Bungohan.Protocol/SchemaCodec.cs:125-146 | a block of refIds bound under the journal; an unknown class or a block past 2^32 - 1 is refused |
| `SchemaSession.TableStore.Define` | clients/csharp/Bungohan.Protocol/SchemaCodec.cs:104-123 | a new class takes the next id and the first one binds the root's block; a known one must be restated as it was |
| `SchemaSession.Session.EncodeOps` | clients/csharp/Bungohan.Protocol/SchemaCodec.cs:267-282 | the body and tables of the specification, or failure with every table as before |
| `SchemaSession.Session.DecodeOps` | clients/csharp/Bungohan.Protocol/SchemaCodec.cs:284-302 | the ops and tables of the specification, or failure with every table as before |
| `SchemaSession.Session.EncodeOp` | clients/csharp/Bungohan.Protocol/SchemaCodec.cs:306-367 | one op written, its refs bound and the running refId moved, as specified |
| `SchemaSession.Session.DecodeOp` | clients/csharp/Bungohan.Protocol/SchemaCodec.cs:428-499 | one op read, its refs bound and the running refId moved, as specified |
| `SchemaSession.Session.EncodeDefine` | clients/csharp/Bungohan.Protocol/SchemaCodec.cs:410-426 | a DEFINE written and applied to the tables |
| `SchemaSession.Session.DecodeDefine` | clients/csharp/Bungohan.Protocol/SchemaCodec.cs:540-556 | a DEFINE read and applied to the tables |
| `SchemaSession.Session.EncodeRef` | clients/csharp/Bungohan.Protocol/SchemaCodec.cs:388-401 | a ref written and its block bound |
| `SchemaSession.Session.DecodeRef` | clients/csharp/Bungohan.Protocol/SchemaCodec.cs:507-519 | a ref read and its block bound, or failure |
| `SchemaSession.Session.WriteScalar` | clients/csharp/Bungohan.Protocol/SchemaCodec.cs:166-220 | a scalar appended exactly, or refused |
| `SchemaSession.Session.ReadScalar` | clients/csharp/Bungohan.Protocol/SchemaCodec.cs:222-257 | a scalar read exactly, or a sticky failure |
| `Containers.UpsertSets` | clients/csharp/Bungohan.Protocol/Collections.cs:130-143 | a map upsert sets its key, reports what was there and changes no other key |
| `Containers.DeleteKeyRemoves` | clients/csharp/Bungohan.Protocol/Collections.cs:145-154 | a map deletion removes its key, reports what was there and changes no other key |
| `Containers.MembersChange` | clients/csharp/Bungohan.Protocol/Collections.cs:282-296 | set add and delete change membership of that one element and say whether they did |
| `Containers.UpsertHeld` | clients/csharp/Bungohan.Protocol/Collections.cs:125-143 | an upsert changes what a map holds by exactly the value out and the value in |
| `Containers.InsertHeld` | clients/csharp/Bungohan.Protocol/Collections.cs:200-207 | an insertion adds exactly the inserted element to what an array holds |
| `Containers.RemoveAtHeld` | clients/csharp/Bungohan.Protocol/Collections.cs:209-218 | a removal takes exactly the element at the index |
| `Containers.ReplaceHeld` | clients/csharp/Bungohan.Protocol/Collections.cs:220-230 | a replacement swaps exactly the element at the index |
| `ReplicaEffects.InsertIs` | clients/csharp/Bungohan.Protocol/Collections.cs:200-207 | an insertion is at its index; what was from there on has moved up by one, and what was before it has not moved |
| `ReplicaEffects.RemoveAtIs` | clients/csharp/Bungohan.Protocol/Collections.cs:209-218 | what was at the index is gone, and what came after it has moved down by one; a missing index is refused |
| `ReplicaEffects.ReplaceIs` | clients/csharp/Bungohan.Protocol/Collections.cs:220-230 | the element at the index, and no other, is exchanged; a missing index is refused |
| `ReplicaEffects.UpsertIs` | clients/csharp/Bungohan.Protocol/Collections.cs:125-143 | a map's key has the value, in its old place or at the end, and every other entry is as it was |
| `ReplicaEffects.DeleteKeyIs` | clients/csharp/Bungohan.Protocol/Collections.cs:145-154 | a map's key is gone, and every other entry is as it was |
| `ReplicaEffects.MemberOpsAre` | clients/csharp/Bungohan.Protocol/Collections.cs:282-296 | a set's additions and deletions, element by element |
| `ReplicaEffects.AddIs` | clients/csharp/Bungohan.Protocol/StateDecoder.cs:173-218 | ADD shows the element its value stands for at its key or index, or in the set, with later elements moved up; nothing else in any collection changes; an element of an unknown class is left out with its block ignored |
| `ReplicaEffects.AddAccepted` | clients/csharp/Bungohan.Protocol/StateDecoder.cs:173-218 | when an ADD succeeds: key by container, index within the length, no unknown class in an array |
| `ReplicaEffects.SetItemIs` | clients/csharp/Bungohan.Protocol/StateDecoder.cs:125-171 | SET on an array shows the element at its index and leaves every other element and collection alone |
| `ReplicaEffects.SetItemAccepted` | clients/csharp/Bungohan.Protocol/StateDecoder.cs:125-171 | when it succeeds |
| `ReplicaEffects.RemoveIs` | clients/csharp/Bungohan.Protocol/StateDecoder.cs:220-256 | REMOVE takes away the key, the index or the member, plain members included, and nothing else; and exactly when it succeeds |
| `ReplicaEffects.ClearIs` | clients/csharp/Bungohan.Protocol/StateDecoder.cs:258-274 | CLEAR leaves nothing in that collection, plain elements included, and changes no other |
| `ReplicaEffects.ElementIs` | clients/csharp/Bungohan.Protocol/StateDecoder.cs:279-316 | a decoded element is the one its value stands for, or none exactly for an unknown class; no collection changes |
| `ReplicaEffects.ElementAccepted` | clients/csharp/Bungohan.Protocol/StateDecoder.cs:279-316 | when an element is accepted |
| `ReplicaEffects.FitsIs` | clients/csharp/Bungohan.Protocol/Schema.cs:177-212 | a wire value fits a scalar type by its kind and the range of the type's bits |
| `ReplicaEffects.IgnoredIs` | clients/csharp/Bungohan.Protocol/StateDecoder.cs:405-417 | ops on an ignored target show nothing; an object that one would make is ignored with its whole block |
| `ReplicaEffects.UnknownRefused` | clients/csharp/Bungohan.Protocol/StateDecoder.cs:173-274 | a refId that leads nowhere and is not ignored is refused |
| `ReplicaEffects.LocalFieldsAre` | clients/csharp/Bungohan.Protocol/StateDecoder.cs:382-400 | a server field maps to the local field of its name, the last if there are more, or to none; a different type refuses the class |
| `ReplicaEffects.BindIs` | clients/csharp/Bungohan.Protocol/StateDecoder.cs:318-379 | after a bind the refId leads to the instance and the refIds after it to its mapped collections in server field order, all empty, or are ignored |
| `ReplicaEffects.BindAccepted` | clients/csharp/Bungohan.Protocol/StateDecoder.cs:318-400 | a bind of a class known here fails exactly if a field that both sides have differs in type |
| `ReplicaEffects.FieldSetIs` | clients/csharp/Bungohan.Protocol/StateDecoder.cs:125-171 | SET on an instance, by the kind of field |
| `ReplicaEffects.DefineIs` | clients/csharp/Bungohan.Protocol/StateDecoder.cs:104-123 | DEFINE records the class, and the first that names the root's class binds the root to refId 0, for good |
| `ReplicaEffects.OpIs` | clients/csharp/Bungohan.Protocol/StateDecoder.cs:92-100 | which of these an op asks for |
| `ReplicaEffects.FrameIs` | clients/csharp/Bungohan.Protocol/StateDecoder.cs:73-90 | a frame does every op in turn, each on what the one before left, and shows what the last one left; it fails exactly if one of them does |
| `ReplicaProofs.ChildrenCount` | clients/csharp/Bungohan.Protocol/StateDecoder.cs:470-483 | what a drop releases is each held slot and each nested instance once |
| `ReplicaProofs.ForgetKeeps` | clients/csharp/Bungohan.Protocol/StateDecoder.cs:459-469 | forgetting an instance nobody holds hides no visible element, and owes exactly its children's releases |
| `ReplicaProofs.DropKeeps` | clients/csharp/Bungohan.Protocol/StateDecoder.cs:459-484 | a drop settles every release it owes, on any graph, cycles included |
| `ReplicaProofs.DropReleasedKeeps` | clients/csharp/Bungohan.Protocol/StateDecoder.cs:85-90 | after the drops at the end of a frame, no instance is left without a holder |
| `ReplicaOps.ReleaseCounts` | clients/csharp/Bungohan.Protocol/StateDecoder.cs:436-443 | a list of releases lowers each count by the times the instance is in it |
| `ReplicaOps.ReleaseZeros` | clients/csharp/Bungohan.Protocol/StateDecoder.cs:436-443 | whatever a release leaves without a holder is queued for the end of the frame |
| `ReplicaOps.ChangeKeeps` | clients/csharp/Bungohan.Protocol/StateDecoder.cs:173-274 | any change of one collection with its releases and its retain keeps every count exact |
| `ReplicaBinds.BlockRefs` | clients/csharp/Bungohan.Protocol/StateDecoder.cs:361-377 | binding a block changes the meaning of its own refIds only, and those lead to mapped collections of the instance |
| `ReplicaBinds.BoundKeeps` | clients/csharp/Bungohan.Protocol/StateDecoder.cs:318-379 | binding a new, nested, rebound or root instance keeps every count exact |
| `ReplicaFrames.LocalFieldsDistinct` | clients/csharp/Bungohan.Protocol/StateDecoder.cs:382-400 | no two server fields are mapped to the same local field |
| `ReplicaFrames.AllocKeeps` | clients/csharp/Bungohan.Protocol/StateDecoder.cs:312 | an instance made but not placed changes no count |
| `ReplicaFrames.DecodeElementKeeps` | clients/csharp/Bungohan.Protocol/StateDecoder.cs:279-316 | an element is an existing instance, a new one waiting for its place, or ignored; the counts stay exact |
| `ReplicaFrames.BindRecords` | clients/csharp/Bungohan.Protocol/StateDecoder.cs:318-379 | binding records the server class of that instance and of no other |
| `ReplicaFrames.SameMapping` | clients/csharp/Bungohan.Protocol/StateDecoder.cs:382-400 | the mapping to local fields depends on the declaration and the local class only |
| `ReplicaClasses.OpDisciplined` | clients/csharp/Bungohan.Protocol/StateDecoder.cs:125-147 | with one server class per local class so far, the next op that binds so too asks for nothing more of rebinding |
| `ReplicaClasses.OpConforms` | clients/csharp/Bungohan.Protocol/StateDecoder.cs:104-274 | every op that binds instances as their local class's server class keeps all of them mapped so |
| `ReplicaClasses.OneClassRuns` | clients/csharp/Bungohan.Protocol/StateDecoder.cs:73-90 | a run from the start that binds every instance as its local class's one server class, and is orderly otherwise, is disciplined, so its holder counts are exact |
| `ReplicaFrames.OneClassIsEnough` | clients/csharp/Bungohan.Protocol/StateDecoder.cs:125-147 | a nested object rebound as the server class it was bound as keeps mapping what it nests, which is what the replica asks of rebinding |
| `ReplicaRuns.SetKeeps` | clients/csharp/Bungohan.Protocol/StateDecoder.cs:125-171 | SET on a field, a nested object or an array element keeps the counts exact |
| `ReplicaRuns.AddKeeps` | clients/csharp/Bungohan.Protocol/StateDecoder.cs:173-218 | ADD to a map, array or set keeps the counts exact |
| `ReplicaRuns.RemoveKeeps` | clients/csharp/Bungohan.Protocol/StateDecoder.cs:220-256 | REMOVE keeps the counts exact |
| `ReplicaRuns.ClearKeeps` | clients/csharp/Bungohan.Protocol/StateDecoder.cs:258-274 | CLEAR keeps the counts exact |
| `ReplicaRuns.DefineKeeps` | clients/csharp/Bungohan.Protocol/StateDecoder.cs:104-123 | DEFINE, with the root bound by the first one that names its class, keeps the counts exact |
| `ReplicaRuns.FrameKeeps` | clients/csharp/Bungohan.Protocol/StateDecoder.cs:73-90 | a frame of disciplined ops ends with every count exact and at least one |
| `ReplicaRuns.ExactHolders` | clients/csharp/Bungohan.Protocol/StateDecoder.cs:73-90 | over every run of successful disciplined frames: every registered instance but the root has a count that is at least 1 and equals its slots in registered instances plus one for a registered nesting parent; every visible element is registered; every refId leads to something registered |
| `StateDecoder.StateDecoder.constructor` | clients/csharp/Bungohan.Protocol/StateDecoder.cs:52-56 | a decoder over a constructed root, nothing registered |
| `StateDecoder.FirstStateStarts` | clients/csharp/Bungohan.Protocol/StateDecoder.cs:52-56 | that state is one the run theorem starts from |
| `StateDecoder.StateDecoder.Retain` | clients/csharp/Bungohan.Protocol/StateDecoder.cs:429-434 | one more holder, the root's count never moved |
| `StateDecoder.StateDecoder.Release` | clients/csharp/Bungohan.Protocol/StateDecoder.cs:436-443 | one holder fewer, and queued if none is left |
| `StateDecoder.StateDecoder.Unregister` | clients/csharp/Bungohan.Protocol/StateDecoder.cs:445-456 | the whole block forgotten, whatever its length |
| `StateDecoder.StateDecoder.Ignore` | clients/csharp/Bungohan.Protocol/StateDecoder.cs:409-417 | the whole block of an unknown class marked as ignored |
| `StateDecoder.StateDecoder.Bind` | clients/csharp/Bungohan.Protocol/StateDecoder.cs:318-379 | the bind of the specification, or failure where a shared field's type differs |
| `StateDecoder.StateDecoder.Drop` | clients/csharp/Bungohan.Protocol/StateDecoder.cs:459-484 | the recursive drop in place; terminates because the registrations shrink |
| `StateDecoder.StateDecoder.DecodeElement` | clients/csharp/Bungohan.Protocol/StateDecoder.cs:279-316 | an element decoded in place as specified |
| `StateDecoder.StateDecoder.Set` | clients/csharp/Bungohan.Protocol/StateDecoder.cs:125-171 | SET in place as specified |
| `StateDecoder.StateDecoder.Add` | clients/csharp/Bungohan.Protocol/StateDecoder.cs:173-218 | ADD in place as specified |
| `StateDecoder.StateDecoder.Remove` | clients/csharp/Bungohan.Protocol/StateDecoder.cs:220-256 | REMOVE in place as specified |
| `StateDecoder.StateDecoder.Clear` | clients/csharp/Bungohan.Protocol/StateDecoder.cs:258-274 | CLEAR in place as specified |
| `StateDecoder.StateDecoder.Define` | clients/csharp/Bungohan.Protocol/StateDecoder.cs:104-123 | DEFINE in place as specified |
| `StateDecoder.StateDecoder.Apply` | clients/csharp/Bungohan.Protocol/StateDecoder.cs:73-90 | a frame in place as specified; a disciplined one that succeeds keeps the counts exact |
| `SeatProofs.TakeKeeps` | packages/core/src/room.ts:1078-1099 | taking a seat keeps the bookkeeping |
| `SeatProofs.UnseatKeeps` | packages/core/src/room.ts:1102-1117 | undoing a failed join keeps the bookkeeping |
| `SeatProofs.IssueKeeps` | packages/core/src/room.ts:1190-1198 | a new token replaces the old one in both directions |
| `SeatProofs.ActivateKeeps` | packages/core/src/room.ts:1219-1234 | a newcomer resumes a paused room |
| `SeatProofs.WelcomeKeeps` | packages/core/src/server.ts:1276-1294 | token and activation together keep the bookkeeping |
| `SeatProofs.ReconnectKeeps` | packages/core/src/room.ts:1237-1255 | a held seat bound again loses its timer and waits for a snapshot |
| `SeatProofs.LoseKeeps` | packages/core/src/room.ts:1266-1292 | a lost connection holds, keeps joining or releases the seat, and never leaves it synced |
| `SeatProofs.ReleaseKeeps` | packages/core/src/room.ts:1299-1340 | a released seat leaves no timer and no token |
| `SeatProofs.UpdatePauseKeeps` | packages/core/src/room.ts:1641-1662 | after re-evaluating the pause, it and the sync loop match the seats |
| `SeatProofs.BoundaryKeeps` | packages/core/src/room.ts:1436-1560 | a sync boundary keeps the bookkeeping |
| `SeatProofs.StepKeeps` | packages/core/src/room.ts:1056-1363 | every step of the seat machine keeps the bookkeeping |
| `SeatProofs.SeatBookkeeping` | packages/core/src/room.ts:996-1034 | over every run: a reconnect timer exactly for held seats; tokens and seats' tokens mutually inverse, so a superseded or released token resolves to nothing; synced means joined, connected and not held back; the sync loop runs exactly when ready, not disposing and not paused; a paused room that is not disposing has no joined, connected seat |
| `SeatProofs.PausedYetConnected` | packages/core/src/room.ts:1641-1662 | the last clause needs its condition: a run in which a join completes while a paused room is being disposed leaves it paused with a joined, connected seat |
| `SeatProofs.PausedYetResumed` | packages/core/src/room.ts:1237-1255 | so does one in which a held seat is resumed then |
| `PauseProofs.PauseBreaks` | packages/core/src/room.ts:1641-1662 | the exact condition: a step takes a paused room without joined, connected seats to one with such a seat, still paused, if and only if the room is disposing and the step connects a seat (a join completed over an open connection, a bot with a channel admitted, a held seat resumed) |
| `PauseProofs.PauseStarts` | packages/core/src/room.ts:1641-1662 | no step pauses a room over a joined, connected seat |
| `PauseProofs.PauseThroughout` | packages/core/src/room.ts:1641-1662 | over every run, a paused room never has a joined, connected seat if and only if no such step happened while it was paused and disposing |
| `SeatEffects.SeatGiven` | packages/core/src/room.ts:1056-1099 | a seat is given exactly if the room is not disposing, the seat is free and there is a reservation or the room is neither locked nor full; it is a joining seat and the only change |
| `SeatEffects.LockedStep` | packages/core/src/room.ts:1059-1061 | in a locked room no step but the use of a reservation adds a seat, and none adds a reservation |
| `SeatEffects.LockedThroughout` | packages/core/src/room.ts:1059-1061 | the same of every run in which the room stays locked |
| `SeatEffects.SeatUndone` | packages/core/src/room.ts:1102-1117 | a failed join leaves no seat and changes no other |
| `SeatEffects.TokenIssued` | packages/core/src/room.ts:1190-1198 | the seat's old token is gone, the new one leads to it, and every other token to what it led to |
| `SeatEffects.SeatActivated` | packages/core/src/room.ts:1219-1234 | a joining seat joins, and no other seat changes |
| `SeatEffects.SeatHeld` | packages/core/src/room.ts:1266-1292 | a joined seat with a token, in a room that reconnects and neither disposes nor shuts down, is held with a timer and keeps its token |
| `SeatEffects.SeatDropped` | packages/core/src/room.ts:1266-1292 | any other joined seat that loses its connection is gone, with its token and timer |
| `SeatEffects.SeatUnbound` | packages/core/src/room.ts:1266-1292 | a joining seat stays without a connection; a held one is left alone |
| `SeatEffects.SeatBack` | packages/core/src/room.ts:1237-1255 | a held seat bound again is joined on the new channel, waits for a snapshot and has no timer |
| `SeatEffects.TokenNames` | packages/core/src/room.ts:1237-1240 | a token names the seat that has it, and only while that seat is held |
| `SeatEffects.DropAndResume` | packages/core/src/room.ts:1237-1292 | a joined client that drops while it may be held comes back to its own seat with the token it has, all other seats as they were |
| `SeatEffects.TooLate` | packages/core/src/room.ts:1266-1292 | once a held seat's time is up, its token resumes nothing |
| `SeatEffects.SeatReleased` | packages/core/src/room.ts:1299-1340 | a released seat is gone with its token and its timer, and no other seat changes |
| `SeatEffects.JoinCompletes` | packages/core/src/server.ts:1264-1297 | a join ends with the seat joined and its token issued, or, if its connection has closed, as a lost connection leaves it |
| `SeatEffects.HeldPauses` | packages/core/src/room.ts:1266-1292 | when a client of a running room drops and is held, the room pauses unless someone else is connected |
| `SeatEffects.ResumeCompletes` | packages/core/src/server.ts:1264-1294 | a resume ends with a new token in the old one's place, which resolves to nothing from then on, or as a lost connection |
| `SeatEffects.LeavesIs` | packages/core/src/room.ts:1299-1340 | whoever leaves is gone at once, with token and timer; an admitted bot is joined |
| `SeatEffects.AfterLeaveIs` | packages/core/src/room.ts:1629-1662 | after a seat is given up, an empty room that disposes itself goes and one with only held seats pauses |
| `SeatEffects.PauseIs` | packages/core/src/room.ts:1641-1662 | a running room pauses exactly if someone is held and nobody is connected; a paused one resumes exactly if someone is connected |
| `SeatEffects.EmptyIs` | packages/core/src/room.ts:1629-1639 | disposal starts exactly if a ready room that disposes itself has no seat and holds no place |
| `SeatEffects.PlainStepIs` | packages/core/src/room.ts:996-1005 | the steps that only set a field set that field and no other |
| `SeatEffects.HeldFor` | packages/core/src/room.ts:1347-1363 | a reservation holds its place, and is accepted, from now for exactly as long as it was made for |
| `SeatEffects.HoldEnds` | packages/core/src/room.ts:1347-1363 | an expired hold gives its place back, and does not before its time |
| `SeatEffects.ReservationUsed` | packages/core/src/matchmaker.ts:477-499 | the first use that is not past its expiry uses a reservation up, whether or not the client sits down |
| `SeatProofs.ReservationsKeep` | packages/core/src/room.ts:1347-1363 | until it expires, a reservation the matchmaker accepts is held by the room |
| `SeatProofs.ConsumeWithinCap` | packages/core/src/matchmaker.ts:477-499 | using a reservation stays within the cap if and only if the room still holds its place, has another, or does not seat the client |
| `SeatProofs.SeatCap` | packages/core/src/room.ts:857-881 | over every run in which reservations are used before they expire, clients plus reservations never exceed maxClients |
| `SeatProofs.CapBreaks` | packages/core/src/matchmaker.ts:477-499 | a step takes a room past its cap if and only if it uses a reservation whose place the room has given away, while full, for a client that sits down |
| `SeatProofs.CapThroughout` | packages/core/src/room.ts:857-881 | over every run, the cap holds throughout if and only if no such use happened |
| `SeatProofs.OverfullAtExpiry` | packages/core/src/room.ts:1347-1354 | at the instant of expiry the cap can be exceeded: the timer has fired, and consuming refuses only later |
| `SeatProofs.ConsumedOnce` | packages/core/src/matchmaker.ts:483-494 | over every run each reservation is consumed at most once |
| `Replication.StepFollows` | packages/core/src/room.ts:1672-1689 | every step but a boundary changes the binding of one seat at most, to a new channel, and syncs nobody |
| `Replication.SeatAtBoundary` | packages/core/src/room.ts:1485-1560 | what a boundary sends on one channel leads its replica to the state at that boundary, or to an earlier one if it is held back |
| `Replication.SyncKeeps` | packages/core/src/room.ts:1475-1577 | a boundary with adoption, backpressure, patches and snapshots keeps the replication invariant |
| `Replication.ReplicationSafety` | packages/core/src/room.ts:1436-1577 | over every history of joins, drops, reconnections, pauses and replaced states: each channel starts with a snapshot, every prefix of it shows the state at some boundary, and a synced seat's whole channel shows the state at the last one |
| `Replication.ExactAtBoundaries` | packages/core/src/room.ts:1485-1560 | right after a boundary, every synced client that has received everything shows the room's state itself |
| `Replication.ShownOrHeldBack` | packages/core/src/room.ts:1436-1560 | over every history, at a boundary each joined, connected seat either has too much queued for its state of pause and gets no frame, or shows the room's state itself once it has received everything |
| `Replication.TreeStep` | packages/core/src/room.ts:1563-1577 | what each event does to the tree and the assignment: only a boundary of a ready room adopts, exactly a valid assignment; an invalid one stays and changes no tree |
| `Replication.BoundaryShowsAll` | packages/core/src/room.ts:1475-1560 | at a boundary every joined, connected seat that is not held back folds to the tree |
| `Replication.AssignedIsShown` | packages/core/src/room.ts:1563-1577 | over every history: a valid state assigned before a boundary of a ready room is the tree after it, and every joined, connected seat that is not held back shows it; an invalid one leaves tree and assignment alone |
| `Replication.ChangedIsShown` | packages/core/src/room.ts:1485-1560 | over every history: a changed tree is what those seats show after the next boundary |
| `Replication.FrameIs` | packages/core/src/room.ts:1485-1560 | what a boundary sends a seat: the changes if it is synced, the whole tree if it waits, nothing if it is held back or there is nothing new |
| `Replication.PressedIs` | packages/core/src/room.ts:1436-1468 | a seat is held back from pauseBytes on, let go at resumeBytes, and otherwise left as it is |
| `Replication.ReceiveIs` | packages/client-js/src/room.ts:741-753 | a client replaces its state by a snapshot, applies a patch to what it has, and desyncs on a patch before a snapshot |
| `Replication.SnapshotForgets` | packages/client-js/src/room.ts:741-753 | from a snapshot on, a replica does not depend on what came before |
| `Replication.ClientSafety` | packages/client-js/src/room.ts:495-523 | across reconnections, whatever prefixes arrive, a client never desyncs and always shows the state at some boundary |
| `Replication.TablesAreLawful` | packages/core/src/room.ts:1501-1525 | keyed tables with removed keys and changed entries satisfy the law asked of state deltas |
| `RoomObject.RoomObject.constructor` | packages/core/src/room.ts:920-941 | a new room satisfies the replication invariant |
| `RoomObject.RoomObject.Sit` | packages/core/src/room.ts:1078-1099 | a seat taken in place exactly if the room is not disposing, the seat is free, and it is reserved or the room is neither locked nor full; the seat invariant is kept |
| `RoomObject.RoomObject.Unseat` | packages/core/src/room.ts:1102-1117 | a failed join undone in place; the seat invariant is kept |
| `RoomObject.RoomObject.RevokeToken` | packages/core/src/room.ts:1691-1696 | the seat's token revoked in place |
| `RoomObject.RoomObject.IssueToken` | packages/core/src/room.ts:1190-1198 | a token issued in place; what it returns is the seat's token |
| `RoomObject.RoomObject.Activate` | packages/core/src/room.ts:1219-1234 | activation in place; the seat invariant is kept |
| `RoomObject.RoomObject.Reconnect` | packages/core/src/room.ts:1243-1255 | reconnection in place; the seat invariant is kept |
| `RoomObject.RoomObject.ConnectionLost` | packages/core/src/room.ts:1266-1292 | a lost connection in place; the seat invariant is kept |
| `RoomObject.RoomObject.Release` | packages/core/src/room.ts:1299-1328 | a release in place, up to its first await; the seat invariant is kept |
| `RoomObject.RoomObject.CompleteJoin` | packages/core/src/server.ts:1264-1297 | a join's last step in place; on a joining seat with a new token it keeps the seat invariant |
| `RoomObject.RoomObject.CompleteResume` | packages/core/src/server.ts:1264-1294 | a resume's last step in place; with a new token it keeps the seat invariant |
| `RoomObject.RoomObject.CheckEmpty` | packages/core/src/room.ts:1629-1639 | disposal starts exactly if the room is ready, empty and disposes itself; the seat invariant is kept |
| `RoomObject.RoomObject.Hold` | packages/core/src/room.ts:1347-1354 | a reservation held in place until its time, exactly if the room is not disposing, not locked and not full; the seat invariant is kept |
| `RoomObject.RoomObject.Consume` | packages/core/src/matchmaker.ts:477-499 | a reservation taken and its seat with it; tells whether the client sits down: exactly if the reservation is accepted, the client admitted, the room not disposing and the seat free; the seat invariant is kept |
| `RoomObject.RoomObject.UpdatePause` | packages/core/src/room.ts:1641-1662 | the counting loop pauses and resumes exactly as specified; the seat invariant is kept |
| `RoomObject.RoomObject.AdoptReplacedState` | packages/core/src/room.ts:1563-1577 | a valid assigned state becomes the tree, the assignment is cleared and every seat waits for a snapshot; an invalid one changes nothing |
| `RoomObject.RoomObject.ApplyBackpressure` | packages/core/src/room.ts:1436-1468 | each seat is held back, released or left alone as its queue says |
| `RoomObject.RoomObject.SendPatches` | packages/core/src/room.ts:1495-1525 | the patch goes to the synced seats' channels and nowhere else, and the changes are cleared |
| `RoomObject.RoomObject.SendSnapshots` | packages/core/src/room.ts:1526-1554 | snapshots go to the waiting seats' channels and nowhere else |
| `RoomObject.RoomObject.SyncNow` | packages/core/src/room.ts:1475-1560 | the whole boundary in place is the boundary of the specification and keeps the replication invariant |
| `ClientRuns.NeverStuckNothingLost` | packages/client-js/src/client.ts:562-1208 | after every sequence of events from a new client: connecting or reconnecting has exactly one driver; joins wait only while connected; disconnected means nothing is left; every room a caller holds and has not left is bound, resuming or being resumed; at most maxAttempts retries since the last open; no wait is above delayMax, the first is the lesser of delay and delayMax, and each next one the lesser of factor times the one before and delayMax (for delay >= 0 and factor >= 1) |
| `ClientRuns.AnsweredExactlyOnce` | packages/client-js/src/client.ts:791-850 | after every sequence of events, each first-time join either waits unanswered or was answered once, and has been answered if the client is not connected; no answer is ever given twice |
| `ClientRuns.NextOk` | packages/client-js/src/client.ts:562-1208 | every event keeps the invariant behind these |
| `ClientRuns.LostKeepsRooms` | packages/client-js/src/client.ts:1099-1192 | an unexpected loss keeps every room its caller holds among those to resume, not left, and schedules exactly one retry with the next wait |
| `ClientRuns.LeaveUnlists` | packages/client-js/src/room.ts:692-699 | a room left for the first time is in neither table, and no first-time join waits for it; only its resume may still be unanswered, and exactly if it was |
| `ClientRuns.LeftRoomReturns` | packages/client-js/src/client.ts:852-904 | an event puts a left room that no table leads to back into one if and only if it is a usable JOIN_SUCCESS for that room's unanswered resume, or a loss of the connection over that resume that is followed by a retry |
| `ClientRuns.StaysLeft` | packages/client-js/src/room.ts:692-699 | a room that was left stays left, whatever happens |
| `ClientRuns.LeftForGood` | packages/client-js/src/client.ts:852-904 | over every run, a room once left is in no table ever after if and only if no event recalled it |
| `ClientRuns.LeftRoomBound` | packages/client-js/src/client.ts:901-903 | the first way holds of every reachable state: leaving a room whose resume is unanswered and then hearing the answer leaves a left room bound |
| `ClientRuns.LeftRoomResumed` | packages/client-js/src/client.ts:1111-1116 | the second way: losing the connection instead sends the left room to be resumed |
| `ClientRuns.LeftRoomRecalled` | packages/client-js/src/client.ts:1071-1096 | a run from a new client that leads to both |
| `ClientEffects.ConnectIs` | packages/client-js/src/client.ts:562-572 | connecting starts an attempt if there is none, and otherwise only adds a waiter |
| `ClientEffects.RetryIs` | packages/client-js/src/client.ts:1187-1190 | a timer that fires starts an attempt and takes its place |
| `ClientEffects.FetchIs` | packages/client-js/src/client.ts:1036-1045 | only the latest token fetch has an effect, and only while it is wanted: it opens a socket or fails the attempt |
| `ClientEffects.DisconnectIs` | packages/client-js/src/client.ts:603-614 | the client is over: nothing bound, awaited or held, every held room left, every waiting join failed |
| `ClientEffects.CloseIs` | packages/client-js/src/client.ts:1099-1165 | a close that is not the connection's changes nothing; otherwise the client goes on to retry exactly if it was connected, the close is not terminal, reconnection is on and retries are left, and is over if not |
| `ClientEffects.SuspendBoundIs` | packages/client-js/src/client.ts:1148-1158 | on a loss that is followed by a retry, a bound room that never got a snapshot is left, every other bound room waits to be resumed, and the rest are as they were |
| `ClientEffects.JoinIs` | packages/client-js/src/client.ts:772-823 | a join waits under the next number, or has failed if it could not be sent |
| `ClientEffects.SuccessIs` | packages/client-js/src/client.ts:852-904 | a usable JOIN_SUCCESS binds the room to its handle with its token; any other fails the join |
| `ClientEffects.FailureIs` | packages/client-js/src/client.ts:829-850 | a join that fails is answered and its seat given up, a resume that fails leaves its room; nobody else notices |
| `ClientEffects.SnapshotIs` | packages/client-js/src/client.ts:974-998 | a snapshot that applies makes its room joined and hands it to the join that waits for it; one that does not is a loss of the connection; one for no room here changes nothing |
| `ClientEffects.OpenIs` | packages/client-js/src/client.ts:1071-1096 | on the open of the current connection retries are forgotten and every held seat is asked for with its token, or left; every other room is as it was |
| `ClientEffects.LeaveIs` | packages/client-js/src/client.ts:1000-1011 | leaving a room answers the join that waits for it and leaves every other room and join alone |
| `ClientProofs.FailSound` | packages/client-js/src/client.ts:829-850 | a join that fails gives up its seat, a resume that fails leaves its room, and every other held room stays kept |
| `ClientProofs.GiveSound` | packages/client-js/src/client.ts:989-998 | a join answered with its room hands over a room that frames reach |
| `ClientProofs.LeaveSound` | packages/client-js/src/client.ts:1000-1011 | leaving a room keeps the others and strands no join |
| `ClientProofs.EndSound` | packages/client-js/src/client.ts:1195-1208 | once everything is ended no table leads anywhere and every room a caller holds is left |
| `ClientProofs.SuspendPendingSound` | packages/client-js/src/client.ts:1108-1123 | after a loss exactly the rooms that resumes waited for are added to those to resume, and no held room is left |
| `ClientProofs.UnbindSound` | packages/client-js/src/client.ts:1148-1158 | a bound room that is dropped, not suspended, was never handed out |
| `ClientProofs.ResumeEachSound` | packages/client-js/src/client.ts:1082-1096 | every held seat is asked for again or left, and none waits any more |
| `ClientMachine.Client.constructor` | packages/client-js/src/client.ts:518-550 | a new client is the one every run starts from |
| `ClientMachine.Client.Handle` | packages/client-js/src/client.ts:927-972 | whatever event comes, the object goes where the run theorems say, and keeps their invariant |
| `ClientMachine.Client.Connect` | packages/client-js/src/client.ts:562-572 | one attempt started, or one more caller waiting for the one under way |
| `ClientMachine.Client.Disconnect` | packages/client-js/src/client.ts:603-614 | everything left and disconnected |
| `ClientMachine.Client.LeaveAllNow` | packages/client-js/src/client.ts:616-623 | every bound, resuming or awaited room left |
| `ClientMachine.Client.Join` | packages/client-js/src/client.ts:772-789 | a join waits for an answer only if it could be sent |
| `ClientMachine.Client.Request` | packages/client-js/src/client.ts:791-823 | a request waits under a number and a promise of its own, or fails at once |
| `ClientMachine.Client.Settle` | packages/client-js/src/client.ts:829-850 | the answer in place: the tables are those of the specification, unchanged if nobody waits |
| `ClientMachine.Client.JoinFails` | packages/client-js/src/client.ts:948-955 | an error or timeout in place |
| `ClientMachine.Client.JoinSucceeds` | packages/client-js/src/client.ts:852-904 | a usable handshake binds the room and keeps the join waiting; another ends it; an unknown request changes nothing |
| `ClientMachine.Client.Snapshot` | packages/client-js/src/client.ts:974-998 | a snapshot completes the join and hands the room out; one that does not apply loses the connection |
| `ClientMachine.Client.LeaveRoom` | packages/client-js/src/room.ts:391-404 | after the first leave the room is left and in neither table, and no first-time join waits for it |
| `ClientMachine.Client.Leave` | packages/client-js/src/client.ts:1000-1011 | the room left and forgotten in place, its first-time join failed |
| `ClientMachine.Client.FailAll` | packages/client-js/src/client.ts:1200-1202 | the loop fails every waiting join |
| `ClientMachine.Client.LeaveEach` | packages/client-js/src/client.ts:1206 | the loop leaves every room given |
| `ClientMachine.Client.SuspendPending` | packages/client-js/src/client.ts:1108-1123 | the loop fails joins and sends resumes back to waiting |
| `ClientMachine.Client.SuspendBound` | packages/client-js/src/client.ts:1148-1158 | the loop suspends bound rooms and leaves those never shown |
| `ClientMachine.Client.ResumeAll` | packages/client-js/src/client.ts:1082-1096 | the loop asks for every held seat with a token and leaves the others |
| `ClientMachine.Client.Open` | packages/client-js/src/client.ts:1029-1046 | a socket, or a token fetch with a number that supersedes the older ones |
| `ClientMachine.Client.FetchReturns` | packages/client-js/src/client.ts:1036-1045 | a superseded or unwanted fetch changes nothing; the latest opens the socket or fails the attempt |
| `ClientMachine.Client.OpenSocket` | packages/client-js/src/client.ts:1048-1069 | a new socket that is the connection, or a failed attempt |
| `ClientMachine.Client.SocketOpened` | packages/client-js/src/client.ts:1071-1096 | connected, retries forgotten, held seats asked for; a stale socket changes nothing |
| `ClientMachine.Client.SocketClosed` | packages/client-js/src/client.ts:1099-1101 | a stale socket's close changes nothing; the current one's is a loss |
| `ClientMachine.Client.Lost` | packages/client-js/src/client.ts:1099-1165 | joins suspended, then disconnected or one retry scheduled |
| `ClientMachine.Client.FailedAttempt` | packages/client-js/src/client.ts:1168-1192 | one more retry waiting min(delay * factor^k, delayMax), or giving up at maxAttempts |
| `ClientMachine.Client.RetryFires` | packages/client-js/src/client.ts:1187-1190 | the timer's place is taken by the next attempt |
| `ClientMachine.Client.SetDisconnected` | packages/client-js/src/client.ts:1195-1208 | no pending join, room, waiter or timer is left |
| `Matchmaking.ReleaseClaims` | packages/core/src/matchmaker.ts:640-646 | releasing removes the claim's own entry only |
| `Matchmaking.MakeClaimKeeps` | packages/core/src/matchmaker.ts:630-636 | a claim made when the pool has none is the pool's only one |
| `Matchmaking.OneCreator` | packages/core/src/matchmaker.ts:166-204 | two callers about to create in one pool are the same caller |
| `Matchmaking.CreateRooms` | packages/core/src/matchmaker.ts:657-747 | a creation under a claim makes the only open room of its key |
| `Matchmaking.StepKeeps` | packages/core/src/matchmaker.ts:657-747 | every step of every caller keeps claims and keys exclusive, failed creations included |
| `Matchmaking.OneClaimPerPool` | packages/core/src/matchmaker.ts:630-647 | in every interleaving of find-or-create and keyed createRoom calls, each pool has at most one unreleased claim |
| `Matchmaking.OneRoomPerKey` | packages/core/src/matchmaker.ts:166-204 | in every interleaving, at most one room of a type that is not closing has a given key |
| `Matchmaking.SecondReleaseIsHarmless` | packages/core/src/matchmaker.ts:640-646 | releasing a released claim changes nothing, whoever holds the pool by then |
| `Matchmaking.LookIs` | packages/core/src/matchmaker.ts:166-204 | a look waits while the pool is being created; in a free pool a find-or-create takes the room it sees and claims nothing, and claims the pool only if it sees none; createRoom claims it first |
| `Matchmaking.KeyLookedUp` | packages/core/src/matchmaker.ts:657-747 | under its claim createRoom is refused exactly if an open room has the key, and then gives its claim up |
| `Matchmaking.RoomsChange` | packages/core/src/matchmaker.ts:657-747 | a room appears only by a creation, open and at the placement asked for, under its pool's claim unless it has no key; it closes and goes only by itself |
| `Matchmaking.CreationEnds` | packages/core/src/matchmaker.ts:640-646 | a creation that is refused, fails or is ready is over and frees its pool |
| `Matchmaking.EarlyIs` | packages/core/src/matchmaker.ts:640-646 | a claim given up early frees the pool while the call goes on |
| `Matchmaking.NobodyWaitsForNothing` | packages/core/src/matchmaker.ts:630-747 | in every interleaving, a pool that is being created has a call at work under its claim, whose end, by failure at any point or by success, frees the pool |
| `Contract.MessagePlan.constructor` | clients/csharp/Bungohan.Protocol/Contract.cs:169-192 | the loop lays out flag bits in field order without gaps, and the mask covers the used bits of the last byte |
| `Contract.BitsApart` | clients/csharp/Bungohan.Protocol/Contract.cs:169-192 | no flag bit belongs to two fields, and every one fits the flag bytes |
| `Messages.UnpackOfPack` | clients/csharp/Bungohan.Protocol/SchemaCodec.cs:621-623 | flag bits come back from their bytes, followed by zero padding |
| `MessageFormat.DataAccepted` | clients/csharp/Bungohan.Protocol/SchemaCodec.cs:626-700 | exactly the payloads that match their type are encoded |
| `MessageFormat.MessageAccepted` | clients/csharp/Bungohan.Protocol/SchemaCodec.cs:581-619 | the same of messages |
| `MessageFormat.MessageIs` | clients/csharp/Bungohan.Protocol/SchemaCodec.cs:581-619 | a message: its flags in whole bytes and then its fields |
| `MessageFormat.FlagsAre` | clients/csharp/Bungohan.Protocol/SchemaCodec.cs:621 | flag i is bit i % 8 of byte i / 8, and the bits past the last are clear |
| `MessageFormat.FieldFlagsAre` | clients/csharp/Bungohan.Protocol/SchemaCodec.cs:589-617 | a field's flags: a bool's value; whether an optional is there and, for a bool, its value |
| `MessageFormat.FieldsAre` | clients/csharp/Bungohan.Protocol/SchemaCodec.cs:589-617 | fields in the order of their declaration |
| `MessageFormat.FieldIs` | clients/csharp/Bungohan.Protocol/SchemaCodec.cs:589-617 | a bool, and an optional that is absent or a bool, is in the flags alone; another optional has no presence byte |
| `MessageFormat.DataIs` | clients/csharp/Bungohan.Protocol/SchemaCodec.cs:626-700 | a value: its scalar, its index, how many and then each, whether and then what, or a message |
| `MessageFormat.ItemsAre` | clients/csharp/Bungohan.Protocol/SchemaCodec.cs:626-700 | elements in order |
| `MessageFormat.PropsAre` | clients/csharp/Bungohan.Protocol/SchemaCodec.cs:626-700 | entries in order, each its key and then its value |
| `MessageFormat.ReadRefuses` | clients/csharp/Bungohan.Protocol/SchemaCodec.cs:741-800 | what no encoder writes is refused |
| `MessageFormat.FlagsRefused` | clients/csharp/Bungohan.Protocol/SchemaCodec.cs:702-710 | set padding, and a message too short for its flags, are refused |
| `MessageFormat.NormalFieldsAre` | clients/csharp/Bungohan.Protocol/SchemaCodec.cs:702-739 | a decoded message has its fields in declared order, without absent optionals or anything else |
| `MessageFormat.NormalElementsAre` | clients/csharp/Bungohan.Protocol/SchemaCodec.cs:741-800 | decoded elements and entries are those encoded, in order |
| `MessageFormat.NormalDataIs` | clients/csharp/Bungohan.Protocol/SchemaCodec.cs:741-800 | scalars and choices come back as they are; the others through their parts |
| `MessageProofs.TakesByte` | clients/csharp/Bungohan.Protocol/SchemaCodec.cs:626-700 | a type that cannot be empty takes at least one byte, so its count guard never refuses it |
| `MessageProofs.DataRoundTrip` | clients/csharp/Bungohan.Protocol/SchemaCodec.cs:626-800 | any value of any declared type decodes to its normal form with exactly what follows it |
| `MessageProofs.MessageRoundTrip` | clients/csharp/Bungohan.Protocol/SchemaCodec.cs:581-800 | for every declaration and payload that encodes, decoding gives the normalised payload and consumes every byte |
| `MessageProofs.ArrayReadsIff` | clients/csharp/Bungohan.Protocol/Bytes.cs:203-212 | an encoded array is refused exactly if its count exceeds the bytes after it |
| `MessageProofs.EmptyElementsRefused` | clients/csharp/Bungohan.Protocol/Bytes.cs:203-212 | an array of empty messages encodes and is then refused |
| `MessageProofs.NormalKeys` | clients/csharp/Bungohan.Protocol/SchemaCodec.cs:702-739 | with distinct field names a decoded message has distinct keys, each a field's |
| `MessageOutput.SetBit` | clients/csharp/Bungohan.Protocol/SchemaCodec.cs:621 | sets that flag bit and no other |
| `MessageOutput.WriteFieldsTo` | clients/csharp/Bungohan.Protocol/SchemaCodec.cs:589-617 | fields written in order while their flags collect beside the buffer |
| `MessageOutput.PatchFlags` | clients/csharp/Bungohan.Protocol/SchemaCodec.cs:617 | the flags replace the zeros reserved for them and nothing else |
| `MessageOutput.WriteMessageTo` | clients/csharp/Bungohan.Protocol/SchemaCodec.cs:581-619 | zeros, fields and patched flags together append exactly the message's bytes, or it is refused |
| `MessageOutput.WriteDataTo` | clients/csharp/Bungohan.Protocol/SchemaCodec.cs:626-700 | one value appended exactly, or refused |
| `MessageInput.PaddingIs` | clients/csharp/Bungohan.Protocol/SchemaCodec.cs:707-710 | the mask test refuses exactly a set padding bit |
| `MessageInput.Bit` | clients/csharp/Bungohan.Protocol/SchemaCodec.cs:623 | tells that flag bit |
| `MessageInput.ReadMessageFrom` | clients/csharp/Bungohan.Protocol/SchemaCodec.cs:702-739 | a message read in place as specified, with sticky failure |
| `MessageInput.ReadDataFrom` | clients/csharp/Bungohan.Protocol/SchemaCodec.cs:741-800 | one value read in place as specified, with sticky failure |
| `MessageInput.ReadPropsFrom` | clients/csharp/Bungohan.Protocol/SchemaCodec.cs:773-787 | a map read in place; a repeated or forbidden key fails it |
| `MessagePack.IntRoundTrip` | clients/csharp/Bungohan.Protocol/MessagePack.cs:116-137 | every safe integer is read back from whichever of the ten int formats it takes |
| `MessagePack.FloatRoundTrip` | clients/csharp/Bungohan.Protocol/MessagePack.cs:139-144 | a float is read back, every NaN as the one the wire has |
| `MessagePack.TextRoundTrip` | clients/csharp/Bungohan.Protocol/MessagePack.cs:146-155 | every string is read back from whichever str format it takes, with U+FFFD for U+0000 |
| `MessagePack.ReadOfWrite` | clients/csharp/Bungohan.Protocol/MessagePack.cs:36-178 | every nested value that is written is read as the wire has it with exactly what follows it, or refused, exactly if some map has a key __proto__ or two keys that are one on the wire; no length or count guard fires |
| `MessagePack.DecodesTo` | clients/csharp/Bungohan.Protocol/MessagePack.cs:189-299 | the same of whole encodings: what decoding any encoding gives |
| `MessagePack.RoundTrip` | clients/csharp/Bungohan.Protocol/MessagePack.cs:26-299 | a value that encodes is decoded unchanged if and only if it is legal: integers safe, floats neither whole and safe nor another NaN, texts and keys without U+0000, keys unique and not __proto__ |
| `MessagePack.NulIsReplaced` | clients/csharp/Bungohan.Protocol/MessagePack.cs:146-148 | the string U+0000 is written as a3 ef bf bd and comes back as U+FFFD |
| `MessagePack.ClashingKeysRefused` | clients/csharp/Bungohan.Protocol/MessagePack.cs:272-299 | a map with the keys U+0000 and U+FFFD encodes, and its encoding is refused |
| `MessagePack.WholeFloatsAreIntegers` | clients/csharp/Bungohan.Protocol/MessagePack.cs:104-114 | the doubles 1.0 and -0 are written as the integers 1 and 0 |
| `MessagePack.WritesWhatFits` | clients/csharp/Bungohan.Protocol/MessagePack.cs:36-97 | a value is encoded if and only if it is nested at most 512 deep, its integers have 64 bits and its lengths fit |
| `MessagePackFormat.ValueIs` | clients/csharp/Bungohan.Protocol/MessagePack.cs:36-97 | the format of every value: c0, c2 and c3, and each other kind in its own |
| `MessagePackFormat.IntIs` | clients/csharp/Bungohan.Protocol/MessagePack.cs:116-137 | an integer takes the shortest format of its sign, big-endian; a negative one is its two's complement |
| `MessagePackFormat.FloatIs` | clients/csharp/Bungohan.Protocol/MessagePack.cs:139-144 | cb and eight bytes, the highest first; every NaN is the one |
| `MessagePackFormat.TextIs` | clients/csharp/Bungohan.Protocol/MessagePack.cs:146-155 | UTF-8 with U+FFFD for U+0000, after the shortest form of its length |
| `MessagePackFormat.BinIs` | clients/csharp/Bungohan.Protocol/MessagePack.cs:157-164 | bytes after the shortest form of their length |
| `MessagePackFormat.HeaderIs` | clients/csharp/Bungohan.Protocol/MessagePack.cs:166-178 | array and map headers: the shortest form of the count |
| `MessagePackFormat.ItemsAre` | clients/csharp/Bungohan.Protocol/MessagePack.cs:85-92 | elements in order |
| `MessagePackFormat.EntriesAre` | clients/csharp/Bungohan.Protocol/MessagePack.cs:64-73 | entries in order, each its key and then its value |
| `MessagePackFormat.HeadIs` | clients/csharp/Bungohan.Protocol/MessagePack.cs:199-246 | what the first byte says is there |
| `MessagePackFormat.IntHeadIs` | clients/csharp/Bungohan.Protocol/MessagePack.cs:199-246 | integers of every width, signed ones by the top bit, large unsigned ones as floats |
| `MessagePackFormat.ShortHeadIs` | clients/csharp/Bungohan.Protocol/MessagePack.cs:199-246 | the short forms have their length in the first byte |
| `MessagePackFormat.LongHeadIs` | clients/csharp/Bungohan.Protocol/MessagePack.cs:199-246 | the long forms have it after; one that exceeds what is left is refused |
| `MessagePackFormat.BytesAre` | clients/csharp/Bungohan.Protocol/MessagePack.cs:199-246 | a text must be valid UTF-8, and its bytes must be there |
| `MessagePackFormat.KeysAre` | clients/csharp/Bungohan.Protocol/MessagePack.cs:272-299 | an entry's key is a text, not __proto__ and not one of those before, or the map is refused |
| `MessagePackFormat.WholeIs` | clients/csharp/Bungohan.Protocol/MessagePack.cs:189-197 | one value and nothing after it |
| `MessagePackIO.WriteTo` | clients/csharp/Bungohan.Protocol/MessagePack.cs:36-97 | a value appended to the buffer exactly, unsafe integers as doubles and whole doubles as integers, or refused |
| `MessagePackIO.ReadFrom` | clients/csharp/Bungohan.Protocol/MessagePack.cs:199-246 | a value read in place as specified, float 32 and large uint 64 included, with sticky failure |
| `MessagePackIO.ReadItemsFrom` | clients/csharp/Bungohan.Protocol/MessagePack.cs:260-270 | an array's elements read in place |
| `MessagePackIO.ReadEntriesFrom` | clients/csharp/Bungohan.Protocol/MessagePack.cs:272-299 | a map's entries read in place; keys that are not strings, repeated or forbidden fail it |
| `MessagePackIO.EncodeValue` | clients/csharp/Bungohan.Protocol/MessagePack.cs:26-33 | a whole value to bytes, as specified |
| `MessagePackIO.DecodeValue` | clients/csharp/Bungohan.Protocol/MessagePack.cs:189-197 | exactly one value with nothing after it |
| `Positional.Trimmed` | clients/csharp/Bungohan.Protocol/MessagePackCodec.cs:200-206 | what is trimmed is exactly the trailing absent optionals |
| `Positional.DataUnpacks` | clients/csharp/Bungohan.Protocol/MessagePackCodec.cs:210-393 | whatever is packed under a type and decoded by MessagePack unpacks to the payload as MessagePack hears it, trimmed optionals restored at every level |
| `Positional.MessageUnpacks` | clients/csharp/Bungohan.Protocol/MessagePackCodec.cs:188-303 | the same of whole messages |
| `Positional.LawfulExists` | clients/csharp/Bungohan.Protocol/Numeric.cs:78-79 | there is a rounding to single precision that undoes widening, as the model asks of the platform's |
| `Positional.DataIsReadable` | clients/csharp/Bungohan.Protocol/MessagePackCodec.cs:210-285 | what is packed from a clean payload has unique keys on the wire, none forbidden |
| `Positional.MessagePacks` | clients/csharp/Bungohan.Protocol/MessagePackCodec.cs:188-208 | what the schema codec encodes can be packed |
| `PositionalFormat.ScalarIs` | clients/csharp/Bungohan.Protocol/MessagePackCodec.cs:210-285 | scalars by their kind |
| `PositionalFormat.DataIs` | clients/csharp/Bungohan.Protocol/MessagePackCodec.cs:210-285 | an array as a list, a map as one, an enum value as its first index, an absent optional as nil |
| `PositionalFormat.MessageIs` | clients/csharp/Bungohan.Protocol/MessagePackCodec.cs:188-208 | a message as the list of its fields in declared order, up to the last that is used |
| `PositionalFormat.UsedIs` | clients/csharp/Bungohan.Protocol/MessagePackCodec.cs:200-206 | none after the used fields is anything but an absent optional, and the last of them is |
| `PositionalFormat.UnpackRefuses` | clients/csharp/Bungohan.Protocol/MessagePackCodec.cs:304-393 | what no packed payload is, is refused |
| `CodecAgreement.TrimmedUsed` | clients/csharp/Bungohan.Protocol/MessagePackCodec.cs:200-206 | the array's length is that of the fields up to the last that is not an absent optional |
| `CodecAgreement.DataFits` | clients/csharp/Bungohan.Protocol/MessagePackCodec.cs:210-285 | what is packed from a value the schema codec encodes fits MessagePack if and only if the value nests within the limit |
| `CodecAgreement.CarriedExactly` | clients/csharp/Bungohan.Protocol/MessagePack.cs:36-97 | of the payloads the schema codec encodes, MessagePack encodes exactly those that nest at most 512 deep (with at most 2^31 - 1 fields to a message) |
| `CodecAgreement.HeardIs` | clients/csharp/Bungohan.Protocol/MessagePackCodec.cs:210-393 | what MessagePack hears of a clean payload is its normal form if and only if no float in it is -0 |
| `CodecAgreement.CodecsAgree` | clients/csharp/Bungohan.Protocol/MessagePackCodec.cs:188-393 | a clean payload that nests at most 512 deep is encoded and decoded by both codecs, to the same message if and only if no float in it is -0 |
| `CodecAgreement.NegativeZeroDiffers` | clients/csharp/Bungohan.Protocol/MessagePack.cs:99-114 | a message with -0: the schema codec keeps its sign, MessagePack gives 0 |
| `PositionalLists.PackRecord` | clients/csharp/Bungohan.Protocol/MessagePackCodec.cs:188-208 | the fields packed in a loop and trimmed in place are the specified array |
| `PositionalLists.TrimmedLength` | clients/csharp/Bungohan.Protocol/MessagePackCodec.cs:200-206 | the trimming loop stops where the specification does |
| `PositionalLists.UnpackRecord` | clients/csharp/Bungohan.Protocol/MessagePackCodec.cs:287-303 | a positional array read in a loop as specified |
| `PositionalLists.Pack` | clients/csharp/Bungohan.Protocol/MessagePackCodec.cs:210-285 | one value packed as specified |
| `PositionalLists.Unpack` | clients/csharp/Bungohan.Protocol/MessagePackCodec.cs:304-393 | one value unpacked as specified |
| `Limits.GrantedExactly` | packages/core/src/limits.ts:26-35 | a take succeeds if and only if, since every earlier call up to now, what was granted plus this cost is within capacity + rate * elapsed seconds |
| `Limits.WindowBound` | packages/core/src/limits.ts:26-35 | in every window of calls, what was granted is within capacity + rate * elapsed seconds |
| `Limits.NoLimit` | packages/core/src/limits.ts:27 | a rate of zero or less grants everything |
| `Limits.AcceptedBounded` | packages/core/src/limits.ts:67-73 | accepted frames and bytes of a connection are bounded in every window |
| `Limits.JoinsBounded` | packages/core/src/limits.ts:56-60 | in every window, the joins allowed are at most joinsPerMinute plus joinsPerMinute per minute of the window |
| `Limits.Bucket.Take` | packages/core/src/limits.ts:26-35 | one call in place as specified |
| `Limits.ConnectionLimiter.constructor` | packages/core/src/limits.ts:48-61 | three separate full buckets with the configured rates |
| `Limits.ConnectionLimiter.FrameProblem` | packages/core/src/limits.ts:67-73 | both buckets are charged whatever either answers, and frames are reported before bytes |
| `Limits.ConnectionLimiter.AllowJoin` | packages/core/src/limits.ts:76-78 | a join charges the join bucket only |
| `SimulationLoop.SimulationLoop.constructor` | packages/core/src/loop.ts:33-43 | at least one catch-up step, and nothing stepped or dropped |
| `SimulationLoop.SimulationLoop.Start` | packages/core/src/loop.ts:69-74 | measures from now; a running loop is left alone |
| `SimulationLoop.SimulationLoop.Stop` | packages/core/src/loop.ts:77-81 | stopped, and safe to repeat |
| `SimulationLoop.SimulationLoop.SetTickRate` | packages/core/src/loop.ts:84-89 | a running loop restarts its account at the new rate |
| `SimulationLoop.SimulationLoop.Wake` | packages/core/src/loop.ts:91-112 | elapsed time is steps * stepMs + dropped time + accumulator, with -EPSILON <= accumulator < stepMs, at most maxCatchUpSteps steps, and dropped time whole steps, only after a full catch-up, and never taken back while a step is longer than EPSILON; the step that stops the loop is the last, and nothing is dropped after it |
| `SimulationLoop.SimulationLoop.DropBacklog` | packages/core/src/loop.ts:107-111 | what is dropped is whole steps, and what stays is less than one |

## Left out

- Cluster mode, proxies, remote connections and the cluster-wide lock: one process only.
- WebSocket, HTTP and Redis transports, metrics, logging, React hooks, code generators.
- Conversions at the API: rounding to float 32 (`Positional.Floats`, of which only that it undoes widening is asked), scaling of `fixed` numbers and quantisation of out-of-range numbers. Times and rates are real numbers.
- The payload of a NaN read as a float 32: it is widened to the wire's NaN.
- Error codes and messages: a failed call is a flag or `None`.
- The state of a replica after an op that fails, and of a buffer after a refused write: neither is used again.
- Scalar field values, change notifications and unknown-class reports of the replica.
- The per-binding cache of field mappings in the state decoder: the mapping is computed for each bind.
- Per-client views of a state: one tree serves every client.
- State encoding on the server (`generateDeltas`, `encodeSnapshot`, `clearChangeTrees`): abstracted by the delta law.
- Frames other than state frames, and the client room's held and unclaimed events.
- A join whose seat is released between the end of `onJoin` and the handshake: excluded by taking token and activation as one step on a joining seat.
- Shedding of connections that read too slowly: it is a request to the transport, and its effect is the lost connection that follows.
- `maxClients`, `allowReconnection` and `reconnectionTimeout` are constant over a run.
- Wrap-around of the client's request numbers at 2^32 - 1.
- The retry timers of pings, and latency measurement.
- ClientMachine.Client.JoinSucceeds: does not model a second JOIN_SUCCESS for a join that still waits and whose room is bound already, because no server sends one; the source would then keep the room under both handles.
- Whole strings longer than a byte array can hold (2^31 - 1 bytes) are refused by the writers; the in-place string writer is stated for strings of at most (2^32 - 1) / 3 units.
- SimulationLoop.SimulationLoop.constructor: does not model a tick rate of zero or less, which is no rate.
- SimulationLoop.SimulationLoop.SetTickRate: does not model a tick rate of zero or less, for the same reason.
- Re-entrant calls of `setTickRate` from within a step.
- The frame envelope, typed options and handshake parsing.

# NTD97: a verified model

This project models the parts of NTD97 that other parts rely on without looking back:
the transactional action fabric, the byte formats, the encrypted store and its backups,
the paired-PC protocol, and the approval of external writes. Each file is one module.

- **Action fabric** (`Actions`, `FabricModel`, `FabricInvariant`, `FabricRuns`,
  `FabricUndo`, `Fabric`, `FabricValidation`, `ScopedFiles`, `FileRollbacks`): plans of ordered actions with
  suspension, retry, verification, commit and rollback in reverse order. Adapters and
  verifiers are arbitrary functions of the state of the world and may answer anything at
  any step. The class `ActionFabric` updates plans in place and is proved against
  functions; the invariant that validation checks, the laws of whole runs, and undo are
  proved about those functions.
- **Checkpoints** (`Taf97Format`, `Taf97`, `Taf97Streams`): the TAF97 format and what
  restoring from it means for the runs that follow.
- **Capsules** (`Capsule`, `CapsuleLayout`, `CapsuleFile`): the NCC97 container written
  into one buffer at computed offsets, and the reader that accepts exactly that layout.
- **Section codecs** (`Graphs`, `GraphCodec`, `GraphStreams`, `Descriptors`, `Tensors`,
  `TensorStreams`, `Tokenizers`, `TokenizerStreams`) and the two **loaders** over them
  (`Loaders`, `Activation`, `LoaderRuns`).
- **SHA-256** (`Primes`, `Sha256`) against FIPS 180-4. Everywhere else the hash is a parameter.
- **Backups** (`Trimming`, `ObjectStore`, `BackupFormat`, `Backup`, `BackupRuns`,
  `BackupFiles`): create, encode, decode and restore, end to end.
- **Paired PC** (`Sessions`, `SessionSafety`, `Handshake`, `SecureChannel`, `Artifacts`,
  `Wire`, `WireStreams`, `Agent`, `AgentRuns`, `PcAdapter`, `PcLinks`, `PcRequests`):
  sequenced sessions, the agent that answers each request once, and the phone's adapter over
  any transport, with artifacts pulled in chunks and replies that may be lost.
- **Assistant plans and approvals** (`PlanText`, `PlanParser`, `AssistantDriver`,
  `ChatExecution`, `Approvals`, `ApprovalSafety`, `ApprovalFailures`, `NativeChat`): the
  plan protocol, the driver over the fabric and its checkpoints, and the chat that runs
  external writes only as approved. What the adapters, the model and the user do is
  arbitrary.

`Wrappers`, `Bytes`, `Ordering` and `Streams` are shared. An encoder is specified by a
function `PutX(v, t)`, the encoding of `v` before the bytes `t`; a decoder by `GetX(s)`,
the value and the bytes after it. `Buffer` and `Cursor` are the growing vector and the
reading cursor the encoders and decoders work on, and their methods are proved against
those functions.

## Where the code does less than one would like

Each of these is stated as a condition that holds exactly when the code does what is
wanted, or as what happens in every such case, and has a lemma with an input, or a family of
inputs, for which the code does less.

- A rollback that fails half-way can leave a state that validation refuses, and then no
  checkpoint of it can be written (`RollbackBreaksExactly`, `PartialRollbackBreaksInvariant`).
- A write is undone only if no other file has the temporary file's name (`WriteIsUndone`,
  `TakenTempIsLost`).
- A write that its verifier wants retried is made twice, and then its rollback token holds what
  the first write left: the rollback succeeds and the written file stays
  (`RollbackRestoresExactly`, `RetriedWriteStays`).
- An encryption whose ciphertext is longer than a u32 has used its nonce without counting
  it (`NoncesAreNeverReused`, `OversizedPlaintextReusesNonce`).
- A handler whose answer cannot be stored or reported runs again when its request is
  repeated (`RecordedExactly`, `NamelessRunsEveryTime`).
- A run of an approved plan whose state is then too large to store is forgotten: a retry
  that should go back to the user is repeated without asking
  (`ExternalWritesAreApproved`, `LostRetryRunsUnapproved`).
- A run that commits an external write and then ends without anything to store is
  forgotten too: a later action fails, or the prompt made of the evidence is too long. The
  write commits again at the next poll (`ExternalWritesCommitOnce`, `LostWriteCommitsTwice`).
- A restore that fails for want of a request id has already replaced the conversation
  under the running session (`RestoreIsSafe`, `FailedRestoreRunsUnapproved`).
- A tensor bound to value u32::MAX comes back unbound (`Tensors.DecodeOfEncode`,
  `SentinelBindingIsLost`).
- The bytes of alignment gaps are not covered by any check (`LayoutIsForced` and
  `GapsAreFree` say that only they are free, `GapByteIsNotSeen`).
- A reader takes chunks and pulls of transfer 0, which a writer refuses (`MessageExactly`,
  `PullOfZeroOnlyArrives`).
- An artifact chunk without data is accepted and makes no progress, so a peer can keep the
  phone pulling until the session's counter gives out (`UsedUpExactly`,
  `EmptyChunksUseUpSession`; `EndlessExactly` for a counter of any size).
- A reply that is lost leaves the agent ahead of the phone, and the session is of no more use.
  The agent's record ends with it: the action, repeated in a new session, is executed again
  (`AheadForGood`, `LostReplyRunsTwice`).

## Conventions

`usize` is 64 bits wide; a vector or slice holds at most 2^63 - 1 elements; running out of
memory is not modelled. Integers of the source are bounded types, and wrap-around,
saturation and overflow checks are written out. Text is bytes with a UTF-8 predicate. An
`f32` is its 32 bits. Maps iterated in key order are written out in that order.
Authenticated encryption, signatures and key agreement are functions with their
correctness laws: what was sealed opens to itself and is 16 bytes longer, signatures of a
key verify, shared secrets commute; in the runs of `SessionSafety` only what was sealed
opens.

## Model

| member | source | states |
|---|---|---|
| FabricInvariant.PrepareKeepsValid | crates/ntd-runtime/src/action_fabric.rs:281-379 | From a valid state, preparing any plan, accepted or refused, leaves a valid state: fresh ids, committed prefix, prepared suffix, status and cursor in agreement, token rules |
| FabricInvariant.ExecuteKeepsValid | crates/ntd-runtime/src/action_fabric.rs:381-497 | One execution call keeps the whole invariant of every plan for any answers of adapters and verifier, whether it returns a report or an error, a missing adapter or a failing undo included |
| FabricInvariant.ApplyIsSound | crates/ntd-runtime/src/action_fabric.rs:561-713 | Whatever an adapter answers, the action left at the cursor agrees with the status left in the plan, keeps its request, and holds only tokens its capability may keep |
| FabricInvariant.RollbackKeepsValid | crates/ntd-runtime/src/action_fabric.rs:499-559 | A rollback that succeeds keeps the invariant, whatever the plan's status was |
| FabricInvariant.PartialRollback | crates/ntd-runtime/src/action_fabric.rs:499-559 | A rollback that stops part-way keeps the invariant if and only if it had undone nothing, or the plan was rolled back before, or it undid only the failing action of a failed plan |
| FabricInvariant.SturdyPlanStaysValid | crates/ntd-runtime/src/action_fabric.rs:499-559 | No failing rollback breaks a plan that is not fragile, whatever its adapters and the world do; fragile are the plans, not rolled back before, with two actions to undo of which the first to be undone holds a token, or three with two tokens if that first one is the failing action of a failed plan |
| FabricInvariant.RollbackBreaksExactly | crates/ntd-runtime/src/action_fabric.rs:499-559 | Whatever the adapters do, rolling back leaves a valid state if and only if the plan is not fragile: for every fragile plan there are adapters that break it |
| FabricInvariant.PartialRollbackBreaksInvariant | crates/ntd-runtime/src/action_fabric.rs:499-559 | A concrete rollback that leaves a completed plan holding a rolled-back action, so that the state no longer validates |
| FabricRuns.RunAdvances | crates/ntd-runtime/src/action_fabric.rs:281-559 | Along every run, failed rollbacks included, cursors never move back, committed actions stay committed or become rolled back, rolled back is final, and no request or attempt count is lost |
| FabricRuns.RunIsLawful | crates/ntd-runtime/src/action_fabric.rs:381-559 | In the history of every run no action runs or resumes after its commit, commits of a plan come in plan order, and a rollback succeeds at most once per action with nothing of that action after it |
| FabricRuns.RunKeepsValid | crates/ntd-runtime/src/action_fabric.rs:281-559 | Every run of prepare, execute and rollback calls in which no rollback of a fragile plan fails keeps the invariant |
| FabricRuns.RunInTwoParts | crates/ntd-runtime/src/action_fabric.rs:237-255 | A run may be cut anywhere: the second part goes on from the stored state of the first |
| FabricUndo.RollbackRestoresWorld | crates/ntd-runtime/src/action_fabric.rs:499-559 | If every action with side effects was called at most once and its adapter undoes what it completes, a successful rollback returns the world to what it was before the plan |
| ScopedFiles.Directory.Write | crates/ntd-android-bridge/src/lib.rs:1766-1822 | The write as it changes the directory: snapshot of the target, temporary file, rename, with every refusal |
| ScopedFiles.Directory.Rollback | crates/ntd-android-bridge/src/lib.rs:1824-1847 | Rolling back restores or removes the target as the token says, and refuses malformed tokens |
| ScopedFiles.SnapshotReadBack | crates/ntd-android-bridge/src/lib.rs:1766-1847 | The token of an existing file is read back as its contents |
| ScopedFiles.WriteIsUndone | crates/ntd-android-bridge/src/lib.rs:1766-1847 | Rolling back a write restores the files if and only if no other file had the name of the temporary file |
| FileRollbacks.TakenTempIsLost | crates/ntd-android-bridge/src/lib.rs:1725-1847 | Action 1 writes the file a beside a file .a.ntd97-1: that file is lost, and undoing the write does not bring it back |
| ScopedFiles.RolledBackWritesRestoreFiles | crates/ntd-android-bridge/src/lib.rs:1851-1901 | A plan of file reads and writes that is prepared, run and rolled back restores every file, several writes to one path included, when temporary names are unused |
| FileRollbacks.RollbackRestoresExactly | crates/ntd-runtime/src/action_fabric.rs:499-559 | Whatever a plan of the file adapter went through, a successful rollback leaves at each path what the token of the first action undone there remembers, and other paths alone; so it restores earlier files if and only if those tokens and paths say what was there |
| FileRollbacks.RetriedWriteStays | crates/ntd-runtime/src/action_fabric.rs:561-713 | A single write whose verifier first asks for a retry and then accepts or rejects: the rollback succeeds and the written file stays, so the files are restored if and only if that content was there before |
| Fabric.ActionFabric.PreparePlan | crates/ntd-runtime/src/action_fabric.rs:281-379 | The loops over nodes and payloads, and the stored plan, are those of the specification that the invariant is proved about |
| Fabric.ActionFabric.ExecuteNext | crates/ntd-runtime/src/action_fabric.rs:381-497 | The stepwise updates of status, attempts, tokens and cursor end in the state, world, answer and events of the specified step |
| Fabric.ActionFabric.ApplyAdapterResult | crates/ntd-runtime/src/action_fabric.rs:561-713 | The match over adapter answers and verdicts leaves the specified turn of the action, the failing undo after a reject included |
| Fabric.ActionFabric.UndoAll | crates/ntd-runtime/src/action_fabric.rs:512-542 | The reverse loop undoes from the last action on, up to the first failure, and marks exactly the undone ones |
| Fabric.ActionFabric.RollbackPlan | crates/ntd-runtime/src/action_fabric.rs:499-559 | State, world, answer and events of the specified rollback |
| FabricValidation.ValidateFabricState | crates/ntd-runtime/src/action_fabric.rs:801-903 | The validation loops accept exactly the states the invariant holds of; a capability error names an action the registry refuses so, any other error means that something else is wrong |
| FabricValidation.FromState | crates/ntd-runtime/src/action_fabric.rs:237-247 | A stored state is refused if and only if it is not valid, with that error |
| Taf97Format.ActionReadBack | crates/ntd-runtime/src/action_checkpoint.rs:227-405 | Every typed action that fits is read back from its encoding |
| Taf97Format.ActionReadOnly | crates/ntd-runtime/src/action_checkpoint.rs:227-405 | Bytes read as an action are exactly the encoding of that action |
| Taf97Format.ValueReadBack | crates/ntd-runtime/src/action_checkpoint.rs:425-481 | Every action value, maps included, is read back |
| Taf97Format.ValueReadOnly | crates/ntd-runtime/src/action_checkpoint.rs:425-481 | Accepted values, whose map keys must ascend, are the encoding of what they are read as |
| Taf97Format.PlanReadBack | crates/ntd-runtime/src/action_checkpoint.rs:136-225 | A stored plan with all its actions, tokens and errors is read back |
| Taf97Format.PlanReadOnly | crates/ntd-runtime/src/action_checkpoint.rs:136-225 | Bytes read as a plan are exactly its encoding |
| Taf97.OrderedThenById | crates/ntd-runtime/src/action_checkpoint.rs:40-134 | Writing the plans in key order and collecting them again gives the same map |
| Taf97.DecodeOfEncode | crates/ntd-runtime/src/action_checkpoint.rs:40-134 | A valid state is decoded from its encoding, under the header of any accepted minor version |
| Taf97.EncodeOfDecode | crates/ntd-runtime/src/action_checkpoint.rs:40-134 | Accepted bytes are the encoding of what they decode to except for the minor version in bytes 10 and 11; with minor 4 they are identical |
| Taf97.RestoredRunContinues | crates/ntd-runtime/src/action_checkpoint.rs:40-134 | A run cut at a checkpoint and continued from the decoded bytes has the states and the adapter and commit history of the uncut run |
| Taf97Streams.EncodeCheckpoint | crates/ntd-runtime/src/action_checkpoint.rs:40-69 | The appending encoder succeeds on exactly the valid states whose lengths fit and writes the specified bytes |
| Taf97Streams.DecodeCheckpoint | crates/ntd-runtime/src/action_checkpoint.rs:71-134 | The cursor-driven decoder returns what the specification reads, errors included |
| Taf97Streams.ReadAction | crates/ntd-runtime/src/action_checkpoint.rs:335-405 | The match over action tags reads what the specification reads |
| Taf97Streams.ReadPlan | crates/ntd-runtime/src/action_checkpoint.rs:151-172 | One plan, with its loop over actions |
| CapsuleLayout.RangesAreDisjoint | crates/ntd-capsule/src/binary.rs:84-181 | Header, manifest, index and stored chunks lie in order, do not overlap, are in bounds and aligned |
| CapsuleLayout.PayloadIsCovered | crates/ntd-capsule/src/binary.rs:84-181 | Every place of the payload is in a stored chunk or the gap before it, and gaps are under eight bytes |
| CapsuleLayout.ReadExactly | crates/ntd-capsule/src/binary.rs:209-318 | A reader shows a view of a file if and only if the view is consistent and the file holds it, all offsets and hashes being forced |
| CapsuleLayout.LayoutIsForced | crates/ntd-capsule/src/binary.rs:209-318 | Two accepted files with equal views are equally long and identical outside the alignment gaps |
| CapsuleLayout.GapsAreFree | crates/ntd-capsule/src/binary.rs:209-318 | What a gap holds changes nothing: the gap bytes are not checked |
| CapsuleLayout.GapByteIsNotSeen | crates/ntd-capsule/src/binary.rs:209-318 | Files of two one-byte chunks that differ in a gap byte, any byte, are all read as the same view |
| CapsuleFile.CapsuleBuilder.WithBaseRoot | crates/ntd-capsule/src/binary.rs:65-68 | Sets the base root and nothing else |
| CapsuleFile.CapsuleBuilder.PushEmbedded | crates/ntd-capsule/src/binary.rs:70-75 | Adds an embedded chunk after the others, and nothing else |
| CapsuleFile.CapsuleBuilder.PushExternal | crates/ntd-capsule/src/binary.rs:77-82 | Adds a reference to an external chunk after the others, and nothing else |
| CapsuleFile.CapsuleBuilder.PlanLayout | crates/ntd-capsule/src/binary.rs:98-145 | The running cursor gives exactly the offsets of the layout, and fails exactly on overflow |
| CapsuleFile.CapsuleBuilder.PlacePayload | crates/ntd-capsule/src/binary.rs:170-178 | Every stored chunk is copied to its offset; nothing else is touched |
| CapsuleFile.CapsuleBuilder.Write | crates/ntd-capsule/src/binary.rs:84-181 | Writing fails exactly on an external chunk in a full capsule or on overflow; otherwise reading the file gives the same kind, id, base root and chunks in order, and gaps are zero |
| CapsuleFile.DecodeHeader | crates/ntd-capsule/src/binary.rs:386-430 | The header fields read at fixed offsets, or the error of the first check that fails |
| CapsuleFile.DecodeIndex | crates/ntd-capsule/src/binary.rs:498-533 | The loop over index entries reads what the specification reads |
| CapsuleFile.CollectChunks | crates/ntd-capsule/src/binary.rs:258-308 | The loop with its running expected offset accepts exactly the chunks laid out without slack |
| CapsuleFile.ReadCapsule | crates/ntd-capsule/src/binary.rs:209-318 | The reader returns what the specification says, errors included |
| Graphs.Validate | crates/ntd-ir/src/lib.rs:137-179 | Succeeds exactly on readable versions with unique node ids, values declared once and before use, and declared outputs; otherwise its error names something wrong |
| GraphCodec.NodeCodec | crates/ntd-capsule/src/ir_codec.rs:220-397 | Nodes of all operations are read back, and nothing but their encodings is read |
| GraphCodec.DeclCodec | crates/ntd-capsule/src/ir_codec.rs:150-218 | Value declarations are read back, and nothing but their encodings is read |
| GraphCodec.ParseExactly | crates/ntd-capsule/src/ir_codec.rs:53-148 | Bytes parse to a graph if and only if they are the encoding of that graph in a readable version |
| GraphCodec.CanonicalForm | crates/ntd-capsule/src/ir_codec.rs:53-148 | A byte string decodes to at most one graph, and a well-formed graph with u32 counts has exactly one accepted byte string, its encoding |
| GraphStreams.EncodeGraph | crates/ntd-capsule/src/ir_codec.rs:53-88 | Succeeds on exactly the well-formed graphs whose counts fit; the bytes decode to the graph |
| GraphStreams.DecodeGraph | crates/ntd-capsule/src/ir_codec.rs:90-148 | Accepts exactly the encodings of well-formed graphs |
| Descriptors.TableExactly | crates/ntd-capsule/src/descriptors.rs:49-129 | A descriptor table decodes if and only if it is one of a readable version, to the descriptors it was written from |
| Descriptors.FrameExactly | crates/ntd-capsule/src/descriptors.rs:131-208 | A descriptor frame decodes if and only if it was written under a readable minor version, to what was written |
| Tensors.CountUpToIsProduct | crates/ntd-capsule/src/native_tensor.rs:490-496 | The checked element count is the product of the dimensions, and exists exactly when no product on the way overflows |
| Tensors.Check | crates/ntd-capsule/src/native_tensor.rs:392-444 | The checks in their order find nothing exactly for valid tensors |
| Tensors.PayloadIsShapeTimesWidth | crates/ntd-capsule/src/native_tensor.rs:392-425 | The payload of a valid tensor is as long as its shape product times the element width |
| Tensors.DecodeExactly | crates/ntd-capsule/src/native_tensor.rs:203-268 | Decoding gives a tensor if and only if the bytes are its form in an accepted minor version, the tensor is valid with at most 255 dimensions, and its binding is not the sentinel |
| Tensors.DecodeOfEncode | crates/ntd-capsule/src/native_tensor.rs:152-268 | Decoding after encoding is the identity if and only if the binding is not u32::MAX; that binding comes back as none |
| Tensors.SentinelBindingIsLost | crates/ntd-capsule/src/native_tensor.rs:152-268 | A one-byte tensor bound to value u32::MAX comes back unbound, under any hash |
| TensorStreams.CountElements | crates/ntd-capsule/src/native_tensor.rs:490-496 | The checked fold returns the product, and nothing exactly when a leading product overflows |
| TensorStreams.EncodeTensor | crates/ntd-capsule/src/native_tensor.rs:152-201 | Succeeds on exactly the valid tensors of at most 255 dimensions, with the specified bytes, else with the first failing check |
| TensorStreams.DecodeTensor | crates/ntd-capsule/src/native_tensor.rs:203-268 | The cursor-driven decoder is the specified one, errors included |
| TensorStreams.EncodeDescriptors | crates/ntd-capsule/src/descriptors.rs:49-75 | Fails on exactly the tables too large for their counts; what it writes decodes to the table |
| TensorStreams.DecodeDescriptors | crates/ntd-capsule/src/descriptors.rs:77-129 | Accepts exactly the tables of the readable versions |
| TensorStreams.EncodeFrameBytes | crates/ntd-capsule/src/descriptors.rs:131-149 | A frame whose lengths fit is written so that it decodes to itself |
| TensorStreams.DecodeFrameBytes | crates/ntd-capsule/src/descriptors.rs:151-208 | The cursor-driven frame decoder is the specified one |
| Tokenizers.Fault | crates/ntd-capsule/src/tokenizer.rs:412-494 | The first fault in the order of the checks; none exactly for valid tokenizers |
| Tokenizers.SpecialsAreNotSentinel | crates/ntd-capsule/src/tokenizer.rs:428-441 | No special token of a valid tokenizer is the sentinel id |
| Tokenizers.ModelExactly | crates/ntd-capsule/src/tokenizer.rs:140-306 | The model part is read back exactly in the minor versions that can tell that model |
| Tokenizers.ParseExactly | crates/ntd-capsule/src/tokenizer.rs:218-318 | A payload parses to a tokenizer if and only if it is its encoding under a minor version that can tell its model |
| Tokenizers.DecodeExactly | crates/ntd-capsule/src/tokenizer.rs:208-320 | Decoding gives a tokenizer if and only if the frame tells a valid one under either format name |
| Tokenizers.DecodeOfEncode | crates/ntd-capsule/src/tokenizer.rs:101-320 | Decoding after encoding is the identity for the valid tokenizers of all three models |
| TokenizerStreams.CheckTokens | crates/ntd-capsule/src/tokenizer.rs:417-426 | The loop with its map of seen tokens finds the first empty or repeated token and names both places |
| TokenizerStreams.CheckMerge | crates/ntd-capsule/src/tokenizer.rs:479-485 | Splitting at the first blank accepts exactly the merges of two non-empty parts around the only blank |
| TokenizerStreams.Validate | crates/ntd-capsule/src/tokenizer.rs:412-494 | Returns the first fault in order; none exactly for valid tokenizers |
| TokenizerStreams.EncodeTokenizer | crates/ntd-capsule/src/tokenizer.rs:101-206 | Succeeds on exactly the valid tokenizers whose lengths fit; the bytes decode to the tokenizer |
| TokenizerStreams.DecodeTokenizer | crates/ntd-capsule/src/tokenizer.rs:208-320 | The cursor-driven decoder is the specified one, errors included |
| Loaders.ProgramIsBound | crates/ntd-capsule/src/native_tensor.rs:287-390 | A loaded program has one tensor for each descriptor, by ascending id, bound to distinct graph inputs of matching types |
| Loaders.LoadedSame | crates/ntd-capsule/src/tokenizer.rs:330-410 | The loader's result depends on each chunk only through its kind and what it resolves to |
| Loaders.ExternalReferencesAreInvisible | crates/ntd-capsule/src/native_tensor.rs:521-544 | Replacing any embedded chunks by references to the same stored bytes changes neither the loaded program nor the error |
| Activation.TensorsAreNoTables | crates/ntd-capsule/src/native_tensor.rs:203-207 | Bytes that decode as a tensor start with the tensor magic and not with that of a table |
| Activation.ClassifiedIsCollected | crates/ntd-assimilation/src/activation.rs:166-190 | The full loader collects the thin one's table and the tensors of its shards, in order |
| Activation.LinkedIsChecked | crates/ntd-assimilation/src/activation.rs:191-231 | Shards the thin loader links pass the full loader's checks, with the same ids and bindings |
| Activation.ActivationIsLoaded | crates/ntd-assimilation/src/activation.rs:120-247 | Whenever thin activation accepts, the full loader loads the same content and agrees on graph, tokenizer, manifest and the tensor each value resolves to |
| LoaderRuns.CollectTensors | crates/ntd-capsule/src/native_tensor.rs:306-328 | The loop over tensor chunks collects what the specification says, or stops at its first error |
| LoaderRuns.CheckTensors | crates/ntd-capsule/src/native_tensor.rs:338-359 | The loop over shards accepts and refuses as specified |
| LoaderRuns.RunLoadProgram | crates/ntd-capsule/src/native_tensor.rs:287-367 | The loader returns the specified program, well-formed and sorted by id, or the specified error |
| LoaderRuns.RunLoadGenerative | crates/ntd-capsule/src/tokenizer.rs:330-410 | Program, tokenizer and optional manifest as specified, with the first error in order |
| LoaderRuns.RunActivate | crates/ntd-assimilation/src/activation.rs:120-247 | Thin activation returns what the specification says, with its first error in order |
| Primes.TableHoldsPrimes | crates/ntd-capsule/src/hash.rs:1-18 | The table behind the constants holds the first 64 primes: it starts with 2, ascends, and no prime lies between neighbours |
| Sha256.KeysAreCubeRoots | crates/ntd-capsule/src/hash.rs:1-18 | The round constants are the first 32 fractional bits of the cube roots of the first 64 primes (section 4.2.2 of FIPS 180-4) |
| Sha256.InitialIsSquareRoots | crates/ntd-capsule/src/hash.rs:1-18 | The initial hash value is made of the square roots of the first eight primes (section 5.3.3) |
| Sha256.PaddingIsMinimal | crates/ntd-capsule/src/hash.rs:20-30 | The padded message is the shortest whole number of blocks with room for mark and length (section 5.1.1) |
| Sha256.PaddingIsInjective | crates/ntd-capsule/src/hash.rs:20-30 | No two messages under 2^61 bytes are padded alike |
| Sha256.Pad | crates/ntd-capsule/src/hash.rs:21-30 | The padding loop stops, with exactly the padding of the standard |
| Sha256.ExpandSchedule | crates/ntd-capsule/src/hash.rs:35-48 | The schedule array holds the recursive message schedule |
| Sha256.Compress | crates/ntd-capsule/src/hash.rs:34-89 | One block: 64 rounds on the working variables, added to the state |
| Sha256.Sha256 | crates/ntd-capsule/src/hash.rs:20-96 | The digest is that of section 6.2.2 of FIPS 180-4, for every input a slice can hold |
| ObjectStore.InsertKeepsStore | crates/ntd-portability/src/store.rs:33-57 | Inserting keeps the content-address invariant; on success the bytes are under their digest and nothing else changed, on failure nothing changed |
| ObjectStore.ImportExactly | crates/ntd-portability/src/store.rs:59-76 | An import succeeds on exactly the records that open to a text of their digest and length and do not contradict a stored one |
| ObjectStore.SovereignObjectStore.Insert | crates/ntd-portability/src/store.rs:33-57 | The object map changes as specified |
| ObjectStore.SovereignObjectStore.Import | crates/ntd-portability/src/store.rs:59-76 | The object map changes as specified, and not at all on failure |
| Trimming.TrimTwice | crates/ntd-portability/src/asset.rs:40-52 | Trimming an already trimmed asset id changes nothing |
| Trimming.BlankIsTrimmedAway | crates/ntd-portability/src/asset.rs:40-52 | Blank text, of which ids and action texts must not consist, is exactly the text of which trimming leaves nothing |
| Backup.BuiltFromCapsule | crates/ntd-portability/src/asset.rs:40-75 | Rebuilding an asset from its own fields and capsule gives the same asset |
| BackupFormat.ManifestTextReadBack | crates/ntd-portability/src/backup.rs:254-329 | A manifest decodes, for its own kind and id, to the entries it was written from |
| BackupFormat.BackupReadBack | crates/ntd-portability/src/backup.rs:48-133 | A backup is decoded from its encoding |
| BackupFormat.BackupReadOnly | crates/ntd-portability/src/backup.rs:84-133 | Accepted bytes are the encoding of the backup they decode to, up to the minor version |
| Backup.RestoreKeepsStore | crates/ntd-portability/src/backup.rs:221-252 | Whatever the backup, a successful restore keeps the store's invariant and loses nothing |
| Backup.RestoreReturnsBackup | crates/ntd-portability/src/backup.rs:221-252 | Restoring returns exactly the backed-up assets in manifest order: full and state backups into any valid store that agrees on shared digests, thin ones into one that already holds the objects |
| Backup.FileRestoresBackup | crates/ntd-portability/src/backup.rs:48-252 | The same through the encoded file |
| BackupRuns.SortEntries | crates/ntd-portability/src/backup.rs:183-189 | The entries end up ascending by class, id and version, none lost or doubled |
| BackupRuns.CollectRecords | crates/ntd-portability/src/backup.rs:195-208 | One record for each digest of the entries, ascending, none besides |
| BackupRuns.Create | crates/ntd-portability/src/backup.rs:148-218 | Backs up exactly the selected assets in manifest order, only stateful ones for a state backup, or its error names what kept it from doing so, a failing cipher by the object or manifest it failed on; the store keeps its invariant, loses nothing and gains nothing but the assets' objects |
| BackupFiles.EncodeBackup | crates/ntd-portability/src/backup.rs:48-82 | Refuses an empty manifest or too many objects; otherwise writes the specified bytes |
| BackupFiles.DecodeBackup | crates/ntd-portability/src/backup.rs:84-133 | The cursor-driven decoder is the specified one |
| BackupFiles.ReadManifest | crates/ntd-portability/src/backup.rs:280-329 | The manifest decoder is the specified one, its order and kind checks included |
| BackupFiles.RestoreBackup | crates/ntd-portability/src/backup.rs:221-252 | Assets are read from a staged copy; a failed restore leaves the store unchanged |
| BackupFiles.MoveThroughFile | crates/ntd-portability/src/backup.rs:48-252 | Created, encoded, decoded and restored into another store, exactly the selected assets arrive, ordered by class, id and version; the file is the encoding of the backup made of them; it fails only where the backup cannot be made or the file does not fit memory, and then changes nothing there |
| Sessions.SealedFrameOpens | crates/ntd-pc-fabric/src/crypto.rs:335-422 | The peer that expects its sequence number opens a sealed frame to the plaintext and moves on by one |
| Sessions.NoncesDiffer | crates/ntd-pc-fabric/src/crypto.rs:552-557 | Different sequence numbers give different nonces |
| Sessions.SecureSession.Seal | crates/ntd-pc-fabric/src/crypto.rs:335-363 | Frame, error and counter as specified, with the header patched after encryption |
| Sessions.SecureSession.Open | crates/ntd-pc-fabric/src/crypto.rs:365-422 | Every check of a frame in order, and the counter moving only on success |
| SessionSafety.RunIsSafe | crates/ntd-pc-fabric/src/crypto.rs:335-422 | The session invariant holds in every run over a network that drops, repeats, reorders and invents frames |
| SessionSafety.AcceptedInOrder | crates/ntd-pc-fabric/src/crypto.rs:335-422 | What each side has accepted is always an in-order prefix of what its peer sealed |
| SessionSafety.FramesHaveOwnNonces | crates/ntd-pc-fabric/src/crypto.rs:335-363 | In no run are two frames sent under one key and nonce |
| SessionSafety.NoncesAreNeverReused | crates/ntd-pc-fabric/src/crypto.rs:335-363 | In a run no two encryptions of either side, discarded ones included, use the same key and nonce if and only if every encryption followed by another of its side had a plaintext of at most u32::MAX - 16 bytes |
| SessionSafety.OversizedPlaintextReusesNonce | crates/ntd-pc-fabric/src/crypto.rs:335-363 | With a lawful cipher, sealing a plaintext of u32::MAX bytes and then an empty one uses one key and nonce twice |
| Handshake.HonestHandshake | crates/ntd-pc-fabric/src/crypto.rs:185-299 | Between identities made from seeds the handshake succeeds if and only if their ids differ, and gives one session id and crossed keys |
| Handshake.FinishedOnSignedHello | crates/ntd-pc-fabric/src/crypto.rs:222-299 | A client that finished on a hello the server signed shares one session with that server, whatever else reached the two, unless digests of hellos collide |
| SecureChannel.ConnectedIsFresh | crates/ntd-pc-fabric/src/crypto.rs:185-299 | Any two identities made from seeds connect if and only if their ids differ, to sessions with crossed and distinct keys that have sent nothing, if expansion never gives two equal keys |
| SecureChannel.ChannelIsSafe | crates/ntd-pc-fabric/src/crypto.rs:185-422 | From the seeds on, in every run of the network each side has accepted an in-order prefix of what the other sealed, and no key and nonce encrypt twice if and only if every encryption but each side's last fitted a frame |
| Artifacts.ChunkCountIsCeiling | crates/ntd-pc-fabric/src/artifact.rs:88-103 | The number of chunks is the length divided by the chunk size, rounded up |
| Artifacts.Chunks | crates/ntd-pc-fabric/src/artifact.rs:88-103 | The list has that many chunks, each what a pull at its offset returns, none empty, together the source bytes |
| Artifacts.ArtifactAssembler.Push | crates/ntd-pc-fabric/src/artifact.rs:132-154 | Takes exactly the chunks of this transfer that start where the last one ended and fit, empty ones included, and appends them |
| Artifacts.ArtifactAssembler.Finish | crates/ntd-pc-fabric/src/artifact.rs:156-165 | Returns the bytes if and only if all have come and their hash is the announced one |
| Artifacts.EndlessExactly | crates/ntd-pc-fabric/src/adapter.rs:108-121 | However many answers the pull loop may take, it takes them all with bytes missing if and only if from some turn on every answer is an acceptable empty chunk |
| Wire.MessageExactly | crates/ntd-pc-fabric/src/wire.rs:272-388 | Bytes decode to a message if and only if they are its form in an accepted minor version and a reader takes it: every sendable message, and besides only chunks and pulls of transfer 0, which cannot be sent |
| Wire.MessageReadBack | crates/ntd-pc-fabric/src/wire.rs:272-388 | Every message that is encoded is decoded to the same message |
| Wire.PullOfZeroOnlyArrives | crates/ntd-pc-fabric/src/wire.rs:272-388 | A pull of transfer 0 is decoded, and encoding it is refused |
| WireStreams.ValidateRequest | crates/ntd-pc-fabric/src/wire.rs:126-136 | None exactly for valid requests, digest included; otherwise the error of the first check that fails |
| WireStreams.ValidateResult | crates/ntd-pc-fabric/src/wire.rs:226-259 | None exactly for valid results, ascending artifacts and digest included; otherwise the error of the first check that fails |
| WireStreams.EncodeWire | crates/ntd-pc-fabric/src/wire.rs:272-334 | The appending encoder sends exactly the sendable messages, and a decoder gives each of them back |
| WireStreams.DecodeWire | crates/ntd-pc-fabric/src/wire.rs:336-388 | The cursor-driven decoder is the specified one, errors included |
| Wire.TextTellsRequest | crates/ntd-pc-fabric/src/wire.rs:652-660 | Requests with equal digested texts ask for the same thing |
| Agent.RequestKeepsAgent | crates/ntd-pc-fabric/src/agent.rs:114-152 | One request keeps the agent's invariant, changes nothing recorded or stored, and every reply verifies against the request |
| Agent.RecordedIsFinal | crates/ntd-pc-fabric/src/agent.rs:114-122 | A recorded request is never run again: the same digest gets the same result, another is refused, nothing changes |
| Agent.RecordedExactly | crates/ntd-pc-fabric/src/agent.rs:114-170 | A handler is called if and only if the request is valid, new and for the installed version; the call is then on record if and only if the answer's artifact names are not blank and fit, enough transfer ids are left and the output fits, or it is a rejection whose reason is not blank and fits |
| Agent.RunsUntilRecorded | crates/ntd-pc-fabric/src/agent.rs:114-170 | A repeated request runs its handler each time up to and with the first answer that can be recorded, and never after it |
| Agent.NamelessRunsEveryTime | crates/ntd-pc-fabric/src/agent.rs:124-170 | A handler that finishes with an artifact of empty name runs at every repetition of its request |
| Agent.StoringKeepsAgent | crates/ntd-pc-fabric/src/agent.rs:154-170 | Storing artifacts, also when it fails half-way, keeps the invariant and everything stored; what it returns can be fetched |
| AgentRuns.AnswersAreFinal | crates/ntd-pc-fabric/src/agent.rs:83-152 | In every run, once a result is recorded its handler never runs again and no second result is recorded |
| AgentRuns.RepliesVerify | crates/ntd-pc-fabric/src/wire.rs:234-245 | At any point of any run a reply verifies against its request, also after the wire, and recorded artifacts stay retrievable under their descriptors |
| AgentRuns.DesktopAgent.Execute | crates/ntd-pc-fabric/src/agent.rs:114-152 | The maps of results and artifacts change as specified |
| AgentRuns.DesktopAgent.HandleEncryptedFrame | crates/ntd-pc-fabric/src/agent.rs:83-112 | Opens the frame, answers its message and seals the reply, leaving session and agent as specified at every early return |
| PcAdapter.PairedPcAdapter.ExchangeMessage | crates/ntd-pc-fabric/src/adapter.rs:66-72 | Over any transport, session and world change and the answer is as specified, at every early return |
| PcAdapter.PairedPcAdapter.PullArtifact | crates/ntd-pc-fabric/src/adapter.rs:108-121 | Over any transport, the loop and its assembler come to the specified end, session and world included |
| PcAdapter.PairedPcAdapter.Materialize | crates/ntd-pc-fabric/src/adapter.rs:123-148 | The output is given the bytes of its one artifact, or notes of its artifacts, as specified |
| PcAdapter.PairedPcAdapter.Execute | crates/ntd-pc-fabric/src/adapter.rs:150-198 | An action is mapped, requested, checked and concluded as specified, with each error |
| PcAdapter.PullEnds | crates/ntd-pc-fabric/src/adapter.rs:108-121 | Whatever the peer answers, the loop takes at most as many chunks as the session has messages left, each following those before it; it stops without a fault if and only if all bytes are there; when the messages run out first, sealing refuses |
| PcAdapter.UsingUpTakesEmptyChunks | crates/ntd-pc-fabric/src/adapter.rs:108-121 | A loop that uses up the session took fewer chunks with data than the artifact has bytes; all the others were empty |
| PcLinks.MessageArrives | crates/ntd-pc-fabric/src/adapter.rs:66-72 | Sealed by one side in step with the other, a message is opened and decoded to itself, and both stay in step |
| PcLinks.ExchangeWithAgent | crates/ntd-pc-fabric/src/adapter.rs:66-72 | Over a lossless link the answer is the agent's, each counter moves by one, and both sides stay in step, also when the agent refuses |
| PcLinks.OfferedIsPulled | crates/ntd-pc-fabric/src/adapter.rs:108-121 | Against an agent that offers the artifact, over a lossless link, the loop makes exactly length divided by chunk size pulls, rounded up, and returns the offered bytes |
| PcLinks.UsedUpExactly | crates/ntd-pc-fabric/src/adapter.rs:108-121 | Pulling from any peer uses up the session, and so fails, if and only if as many of its answers as messages are left are all acceptable and together too short |
| PcLinks.StallingUsesUp | crates/ntd-pc-fabric/src/adapter.rs:108-121 | A peer that answers with empty chunks from some turn on makes the phone pull until no message is left, once for each |
| PcLinks.EmptyChunksUseUpSession | crates/ntd-pc-fabric/src/adapter.rs:108-121 | Empty chunks from the first pull on: in a new session the phone pulls u64::MAX times and then fails |
| PcLinks.LastMessageBringsOneByte | crates/ntd-pc-fabric/src/adapter.rs:108-121 | A session with one message left is used up by a peer that sends two bytes one at a time and never stalls |
| PcRequests.PerformedByAgent | crates/ntd-pc-fabric/src/adapter.rs:150-198 | Over a lossless link an action comes to one step of the agent, and the phone reports the agent's result, artifact bytes included |
| PcRequests.RepeatedAction | crates/ntd-pc-fabric/src/adapter.rs:150-198 | An action repeated in a session whose agent has it on record is reported as before; its handler is not called again, and nothing changes |
| PcRequests.RecordedIdExactly | crates/ntd-pc-fabric/src/agent.rs:114-122 | An action whose id is on record is reported as recorded if the record answers its own request, and refused otherwise; nothing runs or changes |
| PcRequests.OneRequestOnRecord | crates/ntd-pc-fabric/src/wire.rs:234-245 | No result answers two different requests, unless their digests collide |
| PcRequests.AheadForGood | crates/ntd-pc-fabric/src/crypto.rs:365-422 | Once the agent has sent a frame the phone never opened, no later exchange of the session succeeds, whatever messages go over |
| PcRequests.LostReplyRunsTwice | crates/ntd-pc-fabric/src/agent.rs:53-61 | An action whose reply is lost has been executed and is reported as failed, and no later exchange succeeds; repeated in a new session, with a new agent, it is executed again |
| AssistantDriver.CollectEvidence | crates/ntd-runtime/src/assistant_actions.rs:412-443 | Succeeds exactly on completed plans whose actions all have evidence, with one piece for each in order, else with the first action's reason |
| AssistantDriver.GoesOn | crates/ntd-runtime/src/assistant_actions.rs:643-684 | A call whose report does not stop the driver committed the action at the cursor or completed the plan |
| AssistantDriver.RunHasEvidence | crates/ntd-runtime/src/assistant_actions.rs:605-703 | At most as many calls as actions, never the step limit, and success only with one piece of evidence for each committed action in order |
| AssistantDriver.ContinueVerified | crates/ntd-runtime/src/assistant_actions.rs:605-703 | The driver's loop leaves the state, world, events and answer of the specified run that this is proved about |
| PlanText.CanonicalReadBack | crates/ntd-runtime/src/assistant_actions.rs:45-100 | The canonical text of accepted lines parses to exactly their plan |
| PlanText.PlansParseBack | crates/ntd-runtime/src/assistant_actions.rs:45-392 | An accepted plan has ids 1 to n, at most eight, exactly those payload keys, well-formed payloads, and its canonical text parses back to the identical plan |
| PlanParser.ParseNativePlan | crates/ntd-runtime/src/assistant_actions.rs:45-100 | The line-by-line parser with its growing graph, payloads and text returns what the specification parses |
| PlanParser.ParsedPlansArePrepared | crates/ntd-runtime/src/action_fabric.rs:281-379 | For a task with an id, a parsed plan is refused only because the registry rejects an action or declares another side effect, or ids have run out |
| ChatExecution.ExecuteActions | crates/ntd-android-bridge/src/lib.rs:4105-4751 | Restoring or preparing the fabric, storing it, driving the plan and storing what is left end in the specified answer and events, with a refusal at each check that can fail |
| ChatExecution.StretchIsSound | crates/ntd-android-bridge/src/lib.rs:4679-4716 | What a run leaves is a valid fabric with only the task's plan; its commits are of places from the stored cursor up to the new one, each once, in order; a tokenless external retry is stored if and only if the state fits 4 MiB |
| ChatExecution.StoredIsLoaded | crates/ntd-android-bridge/src/lib.rs:4649-4692 | Loading the stored checkpoint gives exactly the fabric that was left |
| ChatExecution.LostExactly | crates/ntd-android-bridge/src/lib.rs:4694-4751 | The conversation loses what a run did if and only if the run neither finished with an answerable prompt nor paused with a state that fits |
| ChatExecution.NoWritesNoRetry | crates/ntd-android-bridge/src/lib.rs:4649-4716 | A plan without external writes never commits or retries one |
| ApprovalSafety.ExternalWritesAreApproved | crates/ntd-android-bridge/src/lib.rs:4753-5628 | A sequence of calls starts plans with external writes only under an approval of that very plan, given after the latest restore and the latest tokenless external retry, whatever call comes next at any point, if and only if no run in it ends with such a retry in a state that does not fit 4 MiB and no restore meets exhausted request ids while the old session could run the restored plan |
| ApprovalSafety.RestoreIsSafe | crates/ntd-android-bridge/src/lib.rs:5580-5628 | After a restore every continuation that loses nothing itself keeps that guarantee if and only if not: request ids are exhausted and the old session is running, on the restored turn's task, whose stored plan writes externally, is supported, was being executed as approved and can be loaded |
| ApprovalSafety.ExternalWritesCommitOnce | crates/ntd-android-bridge/src/lib.rs:4753-5628 | If no restore loses the session, each external write commits at most once per approval, whatever call comes next at any point, if and only if no run commits one and then ends in a way that the conversation does not keep |
| ApprovalFailures.LostRetryRunsUnapproved | crates/ntd-android-bridge/src/lib.rs:4704-4715 | A computer that answers with a complaint over 4 MiB: submit, approve, advance and advance again start the external write twice, the second time with no approval after the retry |
| ApprovalFailures.LostWriteCommitsTwice | crates/ntd-android-bridge/src/lib.rs:4726-4736 | A write that reports more than the prompt has room for: the same four calls commit it twice under one approval |
| ApprovalFailures.FailedRestoreRunsUnapproved | crates/ntd-android-bridge/src/lib.rs:5580-5628 | A request and a restore of the empty conversation, repeated until one request id is left, and one more request: restoring an approved conversation then fails, and the running session starts its external write unapproved |
| NativeChat.NativeChatState.Submit | crates/ntd-android-bridge/src/lib.rs:4753-4937 | The state changes as specified; plans without external writes are executed, others wait; the guarantees are kept |
| NativeChat.NativeChatState.Resolve | crates/ntd-android-bridge/src/lib.rs:4939-5067 | The state changes as specified; only an approval of the stored plan that can be prepared starts execution; the guarantees are kept |
| NativeChat.NativeChatState.Advance | crates/ntd-android-bridge/src/lib.rs:5301-5433 | The state changes as specified; a stored tokenless external retry goes back to the user; the guarantees are kept unless the run loses a retry or a write |
| NativeChat.NativeChatState.Cancel | crates/ntd-android-bridge/src/lib.rs:5218-5257 | The state changes as specified |
| NativeChat.NativeChatState.RestoreCheckpoint | crates/ntd-android-bridge/src/lib.rs:5580-5628 | The state changes as specified; an approval that was executing has to be given again; the guarantees are kept unless the session is lost |

## Left out

- RunKeepsValid: does not cover runs in which a rollback of a fragile plan fails half-way, because some such rollback breaks the invariant; RollbackBreaksExactly says so of every fragile plan.
- ExternalWritesCommitOnce: covers sequences without a restore that loses the session; those are the subject of RestoreIsSafe.
- FinishedOnSignedHello: assumes that the digests of the two client hellos do not collide.
- RepliesVerify: assumes that no other request has the digest of this one; likewise PerformedByAgent, RepeatedAction, RecordedIdExactly and OneRequestOnRecord.
- The phone's adapter as part of an action fabric: the checks of its construction, its listing of capabilities, and the bridge's wrapper, which connects and adds evidence; resuming and rolling back are not supported over a paired PC.
- ReadGraph: the loaders' error for a graph says that it is bad and not why; the reason is modelled by DecodeGraph and Validate.
- RunActivate: the texts inside its errors are not modelled.
- SortById: the library sort is modelled as an insertion sort, likewise the sorts of a backup's entries and of a result's artifacts.
- The capability registry beyond lookup, domain and well-formedness of actions, and the authority's scopes beyond what they permit.
- Fixed English texts in reports and errors, which are parameters.
- The internals of Ed25519, X25519, HKDF, ChaCha20-Poly1305 and XChaCha20-Poly1305.
- Reading and writing real files, sockets, processes, path canonicalisation and links; the file system is a map from paths to bytes, in which input and output do not fail.
- Capability handlers of the agent, which are arbitrary functions, and the registration of handlers.
- Model inference, prompt texts, the rendering of values for prompts, and tensor loading after a tensor is decoded.
- Bookkeeping of the conversation that can fail besides what is modelled: world facts, provenance records, prompt tokens, a model unloaded or replaced, and another thread's change of the conversation during a call.
- The capability descriptors, scopes and approval texts the bridge derives from a plan, which are parameters.
- The unreachable second checks of duplicate keys when a checkpoint is decoded.
- The inner format of conversation and cognitive checkpoints; a restored conversation is any conversation whatever.
- JNI entry points, Java, browser, web, clipboard and accessibility adapters, capability probes.
- MCS97 bundles, provenance sections, GGUF import, avatars, voice, scheduling: they repeat patterns modelled here in a harder form, or are outside these cores.

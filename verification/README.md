# What the example app's checks and flows promise

This project models the hand-written logic around a Matrix cryptography library for React Native: the text and
byte codecs of its interoperability suite, the run in which another device's camera reads a code off the screen,
the verdicts printed about such runs and the host programs that read them, and the store behind the client half
of an oblivious function. Each module proves, for every input or every run, what that code is for.

## How it is laid out

* **Codecs.** `Utf8` holds the suite's encoder and decoder, `Rfc3629` measures them against RFC 3629, `ByteSearch`
  shows that searching the bytes is searching the text, and `Utf8Bits` says bit by bit what the decoder makes of bytes
  that are not well-formed. `Base64` holds the reader that never masks its 32-bit
  accumulator and the control that corrupts one character; its reference is RFC 4648 section 4. `Checksum` holds
  FNV-1a and the cutting into chunks. They compute with integers, `/` and `%`; `BitForms` shows, on 32-bit vectors,
  that these are the source's shifts, masks and exclusive ors, and `Bits` has what both need of binary digits.
* **The scanned-code run.** `Protocol` says, of the events an observer of a run sees (calls that go out and settle,
  states that are shown, buttons, announcements), which may follow which. `Course` says which one does: after what was
  observed the run calls, shows a state, or rests, and while a call is outstanding a script moves the environment. Each
  call takes the next turn of the script, which says what happens meanwhile and how the call settles; a script that
  runs out leaves the call outstanding, so the logs of all scripts are the prefixes of all runs. `ScannedCodeRun` is
  the runner: a class with its closure variables, its three phases as loops, its pump, its two recoveries and its outer
  handler. Its log is proved to keep the rules and to be the one course of its script. What the log then means is
  stated of the log alone: `ScannedCodeLaws` has what never happens, `ScannedCodeOrigins` where every token, flow, code,
  stage and request in it comes from, `ScannedCodeOrder` what every call and state comes after and leads to,
  `ScannedCodeEndings` what a run does about failures, `ScannedCodeLibrary` what a drain hands over.
  `ScannedCodeWitness` has the scripts against which a claim of the run or of its documentation fails, whatever runs.
* **The camera proof.** `CameraProof` folds the published states into five checks and proves what each of them says of
  the log and what five out of five takes; `CameraProofHarness` is the harness, with every line it prints.
* **The level 2 verdict.** `LevelTwo` has the suite's step loop and the harness that reconciles and prints;
  `LevelTwoHost` has the host's rule over the printed lines, and what accepting means for the steps.
* **The oblivious function's store.** `OprfStore` has the two calls over real arrays; `OprfSession` runs any sequence
  of calls and writes over arrays that may be shared, beside a model that has only bytes.
* **Smaller loops.** `Collect` is the counterparty's retry loop, `Quoting` the encodings of typed text, `Layout` the
  drawing of a code. `Sequences` and `Options` are shared.

## Where the code and its documentation part

* The camera proof's log says that a first state is published only once the machine exists. That is so exactly if
  making the machine was not refused (`StatesNeedTheMachine`); a run whose machine was refused publishes the state
  that says so, and the check `run_started` passes on it, as on no other run without a machine (`NoMachineWasMade`,
  `StartedWithoutMachine`).
* The runner says that it called a flow off whenever a drain finds nothing outstanding. When the library refused the
  call-off because the stage had moved, and the stage read again has not, nothing was queued and the sentence is
  false. The sentence is true exactly of the runs whose call-off the library queued (`DeliveredCallOff`); every run
  against one script says it and calls nothing off (`NothingWasCalledOff`, `ClaimNothing`).
* The host says that an accepted mutated run turned its target red as it must. It accepts such a run exactly if the
  target, or any step before it, failed (`MutatedAcceptance`); the target ran, and then failed itself, exactly if every
  step before it succeeded (`AcceptedTargetRan`). A run whose first step fails is accepted without the sabotaged step
  ever having run (`AcceptUnreached`).
* `op_collect` says that an event reported encrypted kept failing for the whole window. An event can be decrypted and
  still be reported encrypted: exactly if its first copy came encrypted, a later one did not, and every attempt since
  the first was refused (`DeliveredTwice`, `EarlyEnd`), as in the two turns of `LoseOne`.

## Model

| member | source | states |
|---|---|---|
| `Utf8.Utf8Encode` | packages/react-native-matrix-crypto/interop/crypto-suite.ts:158-189 | the encoder's loop, with its lookahead for a low surrogate, yields the encoding by code points |
| `Utf8.ReadCharacter` | packages/react-native-matrix-crypto/interop/crypto-suite.ts:194-212 | the inner loop reads a code point from the bytes there are, at most as many as the first byte announces |
| `Utf8.Utf8Decode` | packages/react-native-matrix-crypto/interop/crypto-suite.ts:191-222 | the outer loop decodes any bytes, truncated tails included, and terminates |
| `Utf8.DecodeEncode` | packages/react-native-matrix-crypto/interop/crypto-suite.ts:158-222 | decoding the encoding of any sequence of 16-bit units, unpaired surrogates included, gives it back |
| `Utf8.EncodeInjective` | packages/react-native-matrix-crypto/interop/crypto-suite.ts:158-189 | two texts have one encoding exactly if they are equal |
| `Utf8.CharacterBytes` | packages/react-native-matrix-crypto/interop/crypto-suite.ts:169-186 | the decoder reads an encoded code point back whatever follows it |
| `Utf8.DecodeLength` | packages/example-app/src/levelTwoSuite.ts:157-188 | decoding never yields more units than there were bytes |
| `Utf8.AsciiDecode` | packages/example-app/src/flowRunners.ts:298-307 | the walkthrough's decoder replaces every byte that is not ASCII |
| `Utf8.AsciiAgreement` | packages/example-app/src/flowRunners.ts:298-307 | it agrees with the full decoder on exactly the all-ASCII bytes |
| `Utf8Bits.ReadsFreeBits` | packages/react-native-matrix-crypto/interop/crypto-suite.ts:194-212 | of any bytes, well-formed or not, the code point read has the free bits of the first byte and then six bits of each that follows, as many as are announced and there are |
| `Utf8Bits.UnitsJoin` | packages/react-native-matrix-crypto/interop/crypto-suite.ts:213-219 | the units emitted for a code point, past the last legal one too, join to it again |
| `BitForms.EncoderForms` | packages/react-native-matrix-crypto/interop/crypto-suite.ts:169-186 | the bytes pushed are the arithmetic ones |
| `BitForms.SurrogateForms` | packages/react-native-matrix-crypto/interop/crypto-suite.ts:163-166 | joining and splitting a surrogate pair by shifts is arithmetic, within 16 bits |
| `BitForms.DecoderForms` | packages/react-native-matrix-crypto/interop/crypto-suite.ts:197-212 | the masks that classify a first byte are ranges, and absorbing a byte is base-64 arithmetic |
| `BitForms.AccumulatorForms` | packages/example-app/src/oprfTiming.ts:59-63 | shifting a digit in, masking a byte and mixing a byte in are arithmetic on 32 bits |
| `BitForms.ByteForms` | packages/example-app/src/oprfTiming.ts:61-63 | a byte read by a signed shift of 0, 2 or 4 bits is the byte an unsigned one reads, and is arithmetic |
| `BitForms.XorStep` | packages/example-app/src/oprfTiming.ts:86-86 | an exclusive or is, bit by bit from the right, addition without carry, which is how the checksum's is defined here |
| `Rfc3629.ReencodeExactly` | packages/react-native-matrix-crypto/interop/crypto-suite.ts:158-222 | encoding what was decoded gives the bytes back on exactly the bytes that are characters or lone surrogates, with no high one straight before a low one |
| `Rfc3629.EncodeWellFormed` | packages/react-native-matrix-crypto/interop/crypto-suite.ts:158-189 | a text is well-formed UTF-16 exactly if its encoding is well-formed under RFC 3629 section 4 |
| `Rfc3629.StandardRoundTrip` | packages/react-native-matrix-crypto/interop/crypto-suite.ts:158-222 | bytes are well-formed under RFC 3629 exactly if they survive the round trip by way of a well-formed text |
| `ByteSearch.ContainsBytes` | packages/react-native-matrix-crypto/interop/crypto-suite.ts:225-238 | the nested loops find a needle exactly if it is not empty and occurs |
| `ByteSearch.OccursMeans` | packages/react-native-matrix-crypto/interop/crypto-suite.ts:225-238 | to occur is to stand between what comes before and what comes after |
| `ByteSearch.BytesEqual` | packages/react-native-matrix-crypto/interop/crypto-suite.ts:240-246 | the loop says whether the bytes are equal |
| `ByteSearch.BytesOccurAtCuts` | packages/react-native-matrix-crypto/interop/crypto-suite.ts:158-238 | for all texts the needle's bytes occur exactly if the needle occurs without parting a surrogate pair at either end |
| `ByteSearch.ByteSearchIsTextSearch` | packages/react-native-matrix-crypto/interop/crypto-suite.ts:445-457 | for a well-formed needle, in any text, searching the bytes is searching the text, which is what the opacity check relies on |
| `ByteSearch.HalfPairIsNotFound` | packages/react-native-matrix-crypto/interop/crypto-suite.ts:225-238 | half of a surrogate pair is in a text and not in its bytes, so the condition on the needle is needed |
| `Base64.FromBase64` | packages/example-app/src/oprfTiming.ts:50-67 | the reader strips padding and reads the rest, or rejects it |
| `Base64.RejectsStrangers` | packages/example-app/src/oprfTiming.ts:57-58 | a text is rejected exactly if a character that no padding at the end accounts for is not of the alphabet |
| `Base64.FromIndices` | packages/example-app/src/oprfTiming.ts:52-66 | the loop with its overflowing accumulator writes `floor(3n/4)` bytes, all within the buffer, and rejects any character that is not of the alphabet |
| `Base64.PushDigit` | packages/example-app/src/oprfTiming.ts:59-59 | however often the accumulator has overflowed, its last twelve bits are the last two digits |
| `Base64.ReaderIsReference` | packages/example-app/src/oprfTiming.ts:50-67 | the bytes read are the only ones with the bits of the digits, which is RFC 4648 section 4 |
| `Base64.ReadStandardEncoding` | packages/example-app/src/oprfTiming.ts:49-67 | reading the standard's padded encoding of any bytes returns those bytes |
| `Base64.StandardIsAlphabet` | packages/example-app/src/oprfTiming.ts:46-47 | the source's alphabet is 64 distinct characters without the padding one |
| `Base64.StandardSpelled` | packages/example-app/src/oprfTiming.ts:46-47 | its runs of letters and digits are spelled as the source spells them |
| `Base64.CorruptionCorrupts` | packages/example-app/src/levelTwoTransport.ts:392-401 | every unpadded text longer than 8, and no other, is corrupted: the middle character becomes an `A`, or a `B` if it was one, length and alphabet are kept, and the decoded bytes differ, in one byte or two neighbours |
| `Checksum.Fnv1a` | packages/example-app/src/oprfTiming.ts:82-90 | the nested loops compute FNV-1a of the buffers end to end, as eight hexadecimal digits |
| `Checksum.Fingerprint` | packages/example-app/src/FoldWatch.tsx:88-95 | with a signed intermediate kept in place, the other copy computes the same function of a text's low bytes |
| `Checksum.LowBytesAreUtf8` | packages/example-app/src/FoldWatch.tsx:88-95 | the bytes it hashes are the text's UTF-8 exactly if the text is all ASCII |
| `Checksum.Cut` | packages/example-app/src/oprfTiming.ts:70-76 | the cutting loop yields consecutive buffers of the size asked for |
| `Checksum.ChunksFlatten` | packages/example-app/src/oprfTiming.ts:69-76 | end to end the buffers are the bytes; all but the last are full and none is empty |
| `Checksum.ChecksumOfChunks` | packages/example-app/src/oprfTiming.ts:70-90 | the checksum does not depend on how the bytes were cut |
| `Checksum.StepMeans` | packages/example-app/src/oprfTiming.ts:86-86 | one step changes the low eight bits of the hash where the byte has a 1, keeps the others, multiplies by the FNV prime and keeps 32 bits |
| `Checksum.FnvExamples` | packages/example-app/src/oprfTiming.ts:82-90 | nothing hashes to the offset basis 0x811c9dc5, and one zero byte to 0x050c5d1f |
| `Checksum.HexReadsBack` | packages/example-app/src/oprfTiming.ts:89-89 | the eight digits printed, read as hexadecimal, are the hash |
| `Checksum.StepKeepsHashes` | packages/example-app/src/oprfTiming.ts:86-86 | one step is injective in the hash, its factor being odd |
| `Checksum.HexInjective` | packages/example-app/src/oprfTiming.ts:89-89 | padded to eight digits, two 32-bit hashes print alike exactly if they are equal |
| `Checksum.ByteChangeShows` | packages/example-app/src/oprfTiming.ts:82-90 | two inputs of one length that differ in exactly one byte print different checksums |
| `Course.CourseIsSettled` | packages/example-app/src/scannedCodeRunner.ts:298-566 | a script settles the whole log: two courses of it that leave nothing more to do are equal |
| `ScannedCodeRun.Start` | packages/example-app/src/scannedCodeRunner.ts:265-582 | against every script the run's log keeps the rules and is the script's whole course, with nothing left to do; a run that comes to an end has shown a finished state unless it was stopped, and one that does not has a call outstanding |
| `ScannedCodeRun.ScannedCodeRun.Await` | packages/example-app/src/scannedCodeRunner.ts:298-332 | a call goes out, the world moves, and the call settles as its turn says; a flow once known stays the flow |
| `ScannedCodeRun.ScannedCodeRun.OnSignal` | packages/example-app/src/scannedCodeRunner.ts:325-329 | a subscribed run that knows of no flow takes the one announced; any other announcement changes nothing |
| `ScannedCodeRun.ScannedCodeRun.Confirm` | packages/example-app/src/scannedCodeRunner.ts:570-572 | a confirmation is held |
| `ScannedCodeRun.ScannedCodeRun.Stop` | packages/example-app/src/scannedCodeRunner.ts:576-580 | the run is stopped and no longer subscribed |
| `ScannedCodeRun.ScannedCodeRun.Serve` | packages/react-native-matrix-crypto/src/facade.ts:896-904 | the library's side of a call: a drain hands over all that is outstanding, a report of success takes out the requests of that id, calling off a flow queues one refusal, and no other call changes the requests |
| `ScannedCodeRun.KeptSent` | packages/react-native-matrix-crypto/src/facade.ts:896-904 | a report of success takes out only what was posted with success, so a call-off that was queued is outstanding or was posted |
| `ScannedCodeRun.ScannedCodeRun.Pump` | packages/example-app/src/scannedCodeRunner.ts:179-210 | every request of a drain is posted in order and reported as it was answered; zero is returned exactly if nothing was outstanding |
| `ScannedCodeRun.ScannedCodeRun.Fetch` | packages/example-app/src/scannedCodeRunner.ts:222-235 | a sync goes out, and succeeds exactly if it is answered with 200 and can be read; what token it asks with is `ScannedCodeOrigins.SyncsFromTheLatest` |
| `ScannedCodeRun.ScannedCodeRun.SyncOnce` | packages/example-app/src/scannedCodeRunner.ts:213-236 | one sync, fed to the library and drained after; the token it leaves is the one returned |
| `ScannedCodeRun.ScannedCodeRun.AskFromHere` | packages/example-app/src/scannedCodeRunner.ts:353-365 | an ask makes the flow asked for the flow, and is drained before anything else |
| `ScannedCodeRun.ScannedCodeRun.FindFlow` | packages/example-app/src/scannedCodeRunner.ts:352-368 | phase 1 ends with a flow, or stopped |
| `ScannedCodeRun.ScannedCodeRun.Agree` | packages/example-app/src/scannedCodeRunner.ts:382-386 | only a flow the peer opened, read as requested, is accepted |
| `ScannedCodeRun.ScannedCodeRun.TryCancel` | packages/example-app/src/scannedCodeRunner.ts:411-419 | the library queues the call-off, or says that the stage moved; then the stage is read and shown once more, and only one still requested goes on to be delivered |
| `ScannedCodeRun.ScannedCodeRun.CallOffFlow` | packages/example-app/src/scannedCodeRunner.ts:397-456 | an unanswered flow is called off and the run is over, unless the flow moved after all |
| `ScannedCodeRun.ScannedCodeRun.Deliver` | packages/example-app/src/scannedCodeRunner.ts:427-443 | at most three drains; delivered exactly if one of them found nothing outstanding |
| `ScannedCodeRun.ScannedCodeRun.TryCode` | packages/example-app/src/scannedCodeRunner.ts:473-494 | a code, another sync, or a refusal shown and the run over, by the kind of the rejection |
| `ScannedCodeRun.ScannedCodeRun.Look` | packages/example-app/src/scannedCodeRunner.ts:389-496 | one turn of phase 2 |
| `ScannedCodeRun.ScannedCodeRun.Decide` | packages/example-app/src/scannedCodeRunner.ts:508-554 | one turn of phase 3: the person is asked when the flow says scanned, and a held answer is sent at once |
| `ScannedCodeRun.ScannedCodeRun.Run` | packages/example-app/src/scannedCodeRunner.ts:298-566 | the run ends with nothing more to do, or waits on a call; the outer handler shows what the phases do not handle |
| `ScannedCodeLaws.ConfirmOnlyWhenScanned` | packages/example-app/src/scannedCodeRunner.ts:507-528 | in every run a confirmation follows a read of that flow as scanned, with nothing but states between, and an earlier published code |
| `ScannedCodeLaws.ConfirmationsNeedPresses` | packages/example-app/src/scannedCodeRunner.ts:518-520 | at every point of every run there are no more confirmations than presses |
| `ScannedCodeLaws.AcceptAtMostOnce` | packages/example-app/src/scannedCodeRunner.ts:342-386 | acceptance is called at most once, and never in a run that asked from this side, even when a peer's announcement lands during the ask |
| `ScannedCodeLaws.OneFlow` | packages/example-app/src/scannedCodeRunner.ts:375-376 | any two stages read in a run are of one flow |
| `ScannedCodeLaws.FedAsAnswered` | packages/example-app/src/scannedCodeRunner.ts:222-233 | the library is fed a sync only straight after it was answered with 200 and could be read |
| `ScannedCodeLaws.LeavesTheLibrary` | packages/react-native-matrix-crypto/src/facade.ts:896-904 | an outstanding request leaves exactly when it is reported sent, or is evicted and not a `to_device` one |
| `ScannedCodeLaws.ReportedAsAnswered` | packages/example-app/src/scannedCodeRunner.ts:199-207 | a request is reported sent only straight after it was posted with a 2xx, and failed only after it was not, with that status |
| `ScannedCodeOrigins.SyncsFromTheLatest` | packages/example-app/src/scannedCodeRunner.ts:217-235 | a sync is asked for with the token of the latest answer that brought one, or with none while none did |
| `ScannedCodeOrigins.CallsNameTheFlow` | packages/example-app/src/scannedCodeRunner.ts:325-376 | every call about a flow, and every state that has one, names the flow asked for if the asking was answered, and else the first announced to the run while it listened |
| `ScannedCodeOrigins.ShowsTheCodeHandedOver` | packages/example-app/src/scannedCodeRunner.ts:473-502 | a code on the screen is one the library handed over |
| `ScannedCodeOrigins.ShowsTheLatestStage` | packages/example-app/src/scannedCodeRunner.ts:390-391 | a stage on the screen is that of the latest read |
| `ScannedCodeOrigins.PostedInOrder` | packages/example-app/src/scannedCodeRunner.ts:183-210 | the requests of a drain are posted in the order it handed them over, each once, before the next drain |
| `ScannedCodeOrigins.AskTakesAPress` | packages/example-app/src/scannedCodeRunner.ts:352-355 | the other devices are asked only after a press, and while no flow was announced or asked for |
| `ScannedCodeOrigins.StopIsSeen` | packages/example-app/src/scannedCodeRunner.ts:352-509 | once stopped, a run asks for nothing and reads no stage, unless the library has just refused to call its flow off |
| `ScannedCodeOrigins.ThreeDrains` | packages/example-app/src/scannedCodeRunner.ts:427-443 | a run that says it could not deliver its call-off made exactly three drains since it was queued, and one that says it did, at most three |
| `ScannedCodeOrder.CallsInOrder` | packages/example-app/src/scannedCodeRunner.ts:298-554 | drains aside: phase 1 syncs, or asks once, until there is a flow; phase 2 reads the stage, and accepts, calls off, fetches the code or syncs by what that was; phase 3 reads it, confirms only while the person is asked, syncs, and pauses; a call out of that order, or on another phase's screen, is in no run |
| `ScannedCodeOrder.StatesInOrder` | packages/example-app/src/scannedCodeRunner.ts:331-554 | a state changes the one before only in its stage after a read, in its flow after an announcement or an ask, or in what its own headline says after the call it is about; of the last states only those of phase 3 take the code away |
| `ScannedCodeOrder.Opening` | packages/example-app/src/scannedCodeRunner.ts:300-332 | once the machine is made the run subscribes, says that it publishes its keys, and drains |
| `ScannedCodeOrder.SyncsForAFlow` | packages/example-app/src/scannedCodeRunner.ts:352-367 | in phase 1 the run syncs only while it knows of no flow and was not stopped |
| `ScannedCodeOrder.FirstRead` | packages/example-app/src/scannedCodeRunner.ts:382-386 | the first read is followed by an acceptance exactly if it says requested and the flow was not asked for from here |
| `ScannedCodeOrder.ReadIsShown` | packages/example-app/src/scannedCodeRunner.ts:389-391 | every later read is shown at once, over what the screen had |
| `ScannedCodeOrder.ReadDecides` | packages/example-app/src/scannedCodeRunner.ts:392-541 | and without a code on screen it is followed by a call-off exactly if it says requested, of a flow asked for from here, past the budget; by fetching the code exactly if ready or started; by the end if done or cancelled; with a code, by asking the person exactly if scanned, and by the end if done or cancelled; by another sync in every other case |
| `ScannedCodeOrder.ScanDecides` | packages/example-app/src/scannedCodeRunner.ts:511-522 | when the code was scanned the person is asked, and the confirmation sent at once exactly if a press is held |
| `ScannedCodeOrder.MovedDecides` | packages/example-app/src/scannedCodeRunner.ts:413-419 | after a refused call-off the stage read again is shown, and only one still requested is followed by the drains |
| `ScannedCodeOrder.RefusedCode` | packages/example-app/src/scannedCodeRunner.ts:473-494 | a refused code is followed by another sync, by the state that names the refusal, or by the state of the outer handler, by the kind of the error |
| `ScannedCodeOrder.EffectsAreDrained` | packages/example-app/src/scannedCodeRunner.ts:234-522 | an ask, an acceptance, a confirmation and a sync fed to the library are each drained at once |
| `ScannedCodeOrder.DrainsAreDue` | packages/example-app/src/scannedCodeRunner.ts:332-443 | a drain comes straight after a call whose effect waits in the library, or, of a call-off, after it was queued or after a pause |
| `ScannedCodeOrder.PostsAreReported` | packages/example-app/src/scannedCodeRunner.ts:203-207 | whatever a post is answered, the library is told at once, of success for a 2xx alone |
| `ScannedCodeOrder.StopEndsTheLoops` | packages/example-app/src/scannedCodeRunner.ts:352-509 | after a stop there is at most one more sync, and no stage is read after it |
| `ScannedCodeOrder.StopIsShown` | packages/example-app/src/scannedCodeRunner.ts:368-500 | a stopped run takes up no flow and shows no code |
| `ScannedCodeOrder.RestsAtALoop` | packages/example-app/src/scannedCodeRunner.ts:352-509 | a run that ends without a last state was stopped, and rests at the top of a loop with every request it was handed posted and reported |
| `ScannedCodeLibrary.HandsOverAll` | packages/react-native-matrix-crypto/src/facade.ts:723-751 | a drain hands over exactly the requests added and not taken out since, oldest first |
| `ScannedCodeLaws.StatesNeedTheMachine` | packages/example-app/src/cameraProofLog.ts:109-113 | when a state is published the machine has been made exactly if making it was not refused |
| `ScannedCodeLaws.FinishedIsLast` | packages/example-app/src/scannedCodeRunner.ts:287-290 | nothing follows a finished state |
| `ScannedCodeLaws.EndsOnce` | packages/example-app/src/scannedCodeRunner.ts:368-561 | a run that ends without being stopped publishes exactly one finished state, last, and no failed one before it |
| `ScannedCodeLaws.VerifiedMeansDone` | packages/example-app/src/scannedCodeRunner.ts:529-540 | finished and not failed means a known flow, just read as done, and an earlier published code |
| `ScannedCodeLaws.DeliveredCallOff` | packages/example-app/src/scannedCodeRunner.ts:397-456 | a run that says its call-off was delivered had it posted with success exactly if the library had queued one; otherwise the library had refused with `wrong_stage` |
| `ScannedCodeEndings.RejectionEnds` | packages/example-app/src/scannedCodeRunner.ts:555-561 | a rejected call ends the run, with its own error as the last state, exactly unless it is a refused code, a call-off refused because the stage moved, or a call of a drain that delivers a call-off |
| `ScannedCodeEndings.BadSyncEnds` | packages/example-app/src/scannedCodeRunner.ts:230-232 | a sync ends the run exactly if it is answered with anything but 200 or cannot be read, and otherwise is fed to the library next |
| `ScannedCodeEndings.NoEndpointEnds` | packages/example-app/src/scannedCodeRunner.ts:146-170 | the request at the head of a drain is posted next exactly if it has an endpoint, and ends the run exactly if it has none and the drain is not one of a call-off |
| `ScannedCodeWitness.NothingWasCalledOff` | packages/example-app/src/scannedCodeRunner.ts:411-456 | every run against one script ends with the claim that the flow was called off, and no call-off was ever queued |
| `ScannedCodeWitness.ClaimNothing` | packages/example-app/src/scannedCodeRunner.ts:411-456 | there is such a run |
| `ScannedCodeWitness.NoMachineWasMade` | packages/example-app/src/scannedCodeRunner.ts:555-561 | every run whose machine is refused at once publishes one state, and the check that it started passes |
| `ScannedCodeWitness.StartedWithoutMachine` | packages/example-app/src/cameraProofLog.ts:109-122 | the check that the run started passes without a machine in exactly the runs whose machine was refused |
| `CameraProof.HeldUntilUsed` | packages/example-app/src/scannedCodeRunner.ts:518-520 | a confirmation pressed before any state is held until it is sent, and sent at most once |
| `CameraProof.ChecksMean` | packages/example-app/src/cameraProofLog.ts:115-178 | after any states the five checks are, in order, whether one was published, one with a flow, one with a code, one with stage scanned, and one finished with none failed |
| `CameraProof.PassedCounts` | packages/example-app/src/CameraProofHarness.tsx:110-126 | what is counted is the checks that passed |
| `CameraProof.FiveOfFive` | packages/example-app/src/cameraProofLog.ts:115-178 | with a confirmation held from the start and a library that says scanned only once it has handed over a code: five passed checks mean a published code, exactly one resolved confirmation after it, and a last state that is finished, not failed, with stage done |
| `CameraProofHarness.Harness.LogChecks` | packages/example-app/src/CameraProofHarness.tsx:110-126 | the five checks are printed in order, each with its own name and verdict, and then their count over five; nothing already printed changes |
| `CameraProofHarness.Harness.Publish` | packages/example-app/src/CameraProofHarness.tsx:128-174 | a state is folded in and adds exactly its own lines: the milestones it is the first to reach and, if it is the first finished one, the verdict |
| `CameraProofHarness.Present` | packages/example-app/src/CameraProofHarness.tsx:128-180 | shown every state of a run, the console is, line for line, what the log calls for |
| `CameraProofHarness.ConsoleTells` | packages/example-app/src/CameraProofHarness.tsx:110-174 | a line is on the console exactly if a state prompted it: the first state, the first with a code, a scan or an end, or one whose stage is not that of the state before |
| `CameraProofHarness.SummaryIsFinal` | packages/example-app/src/CameraProofHarness.tsx:161-174 | a run that comes to a finished state has one summary, and it counts the checks of the whole run |
| `CameraProofHarness.WasPressed` | packages/example-app/src/CameraProofHarness.tsx:195-204 | by the time the first call has settled, a press of the first turn has been heard |
| `CameraProofHarness.HeldByScript` | packages/example-app/src/CameraProofHarness.tsx:195-204 | pressing as soon as there is a handle holds the confirmation from the start |
| `CameraProofHarness.Perform` | packages/example-app/src/CameraProofHarness.tsx:182-206 | the harness's whole run, from its presses to its console, against every environment: a console that says five out of five stands on one confirmed scan of a shown code, and on a flow that is done |
| `LevelTwo.RunSteps` | packages/react-native-matrix-crypto/interop/crypto-suite.ts:462-488 | the step loop reports every step in order by name, runs each until one fails, reports of each that ran its own verdict and detail, and of the rest that they were not reached |
| `LevelTwo.RunSuite` | packages/example-app/src/levelTwoSuite.ts:992-1018 | the level 2 suite does so for its twelve steps, with teardown run and reported last whatever happened |
| `LevelTwo.Reconcile` | packages/example-app/src/LevelTwoHarness.tsx:95-104 | the loop adds each promised name that is missing |
| `LevelTwo.ReconcileOnlyAddsFailures` | packages/example-app/src/LevelTwoHarness.tsx:95-104 | reconciling keeps what was reported, names all that was promised, and adds only failures |
| `LevelTwo.ThrowCountsOneTooMany` | packages/example-app/src/LevelTwoHarness.tsx:78-104 | a suite that throws leaves one result more than was promised |
| `LevelTwo.RunHarness` | packages/example-app/src/LevelTwoHarness.tsx:74-119 | one line a result, in order, and the count of those that are ok over the count of all, in the words the host looks for; a suite that throws is one failed result |
| `LevelTwo.CountOkCounts` | packages/example-app/src/LevelTwoHarness.tsx:111-111 | what is counted is the results that are ok |
| `LevelTwoHost.CountReadsBack` | packages/example-app/level-two/run_level_two.py:984-984 | digits printed on both sides of a slash after a prefix are the two numbers the host parses |
| `LevelTwoHost.RuleMeans` | packages/example-app/level-two/run_level_two.py:971-1014 | over what the harness printed, among whatever else the log holds, the requirements hold exactly if there are thirteen results and all are ok, or, mutated, one is red for the target |
| `LevelTwoHost.AcceptanceTakes` | packages/example-app/level-two/run_level_two.py:971-1014 | of any log whatever, an acceptance takes exactly one summary line, with the prefix due and digits on both sides of its slash, a total of thirteen, exactly thirteen verdict lines, and all passed, or, mutated, fewer and a red line for the target |
| `LevelTwoHost.AcceptanceIsDue` | packages/example-app/level-two/run_level_two.py:971-1014 | and a log that meets those requirements is accepted |
| `LevelTwoHost.CleanAcceptance` | packages/example-app/level-two/run_level_two.py:971-1005 | a clean run is accepted exactly if every promised step ran, in order, teardown last, and succeeded |
| `LevelTwoHost.MutatedAcceptance` | packages/example-app/level-two/run_level_two.py:1006-1014 | a mutated run is accepted exactly if its target or a step before it failed |
| `LevelTwoHost.AcceptedTargetRan` | packages/example-app/level-two/run_level_two.py:1006-1014 | in an accepted mutated run the target ran exactly if every step before it succeeded, and then it failed |
| `LevelTwoHost.AcceptUnreached` | packages/example-app/level-two/run_level_two.py:1006-1014 | with its first step failing, a run mutated to hand over an intact message is accepted though the sabotaged step never ran |
| `OprfStore.ToArrayBuffer` | packages/react-native-matrix-crypto/src/probe.ts:36-40 | what is handed over holds the window's bytes and no others, and is shared exactly if the window is the whole array |
| `OprfStore.CopyAll` | packages/react-native-matrix-crypto/src/oprf.ts:81-83 | the copies are new arrays holding what the windows show |
| `OprfStore.Store.Settle` | packages/react-native-matrix-crypto/src/oprf.ts:84-97 | a blinding is kept with its copies and its states, and the object returned reaches only other, new arrays |
| `OprfStore.Store.Finalize` | packages/react-native-matrix-crypto/src/oprf.ts:139-162 | an object the store never returned is rejected; for one it did, the native call is handed what was kept |
| `OprfSession.RunSession` | packages/react-native-matrix-crypto/src/oprf.ts:37-162 | over real arrays that may be shared, any sequence of calls and writes hands the native side what a model without arrays says |
| `OprfSession.WhatWasBegun` | packages/react-native-matrix-crypto/src/oprf.ts:78-83 | an outstanding call holds the bytes its windows showed when it, and no other call, was begun |
| `OprfSession.ShowsWhatWasPut` | packages/react-native-matrix-crypto/src/probe.ts:36-40 | what a window shows is, place by place from its offset on, what was last put in its array |
| `OprfSession.SettlesOnce` | packages/react-native-matrix-crypto/src/oprf.ts:84-97 | a call settles once: an end that names a call already ended changes nothing |
| `OprfSession.WhatWasBlinded` | packages/react-native-matrix-crypto/src/oprf.ts:78-97 | a blinding holds the bytes its windows showed when its call began and the states that same call was answered with, in the operation that made this blinding |
| `OprfSession.FinalisedIsBlinded` | packages/react-native-matrix-crypto/src/oprf.ts:81-82 | what is finalised is what was blinded, byte for byte, with the states of its own call, whatever was written since and whatever else was blinded, and with the evaluation, proof and key its own windows show; an object never returned is rejected |
| `Collect.Collect` | packages/example-app/level-two/run_level_two.py:386-442 | what is reported and what is missing partition what was wanted; what is missing was never delivered; each report accounts for the copies delivered and the attempts made; the loop stops once nothing is outstanding |
| `Collect.ReportAccounts` | packages/example-app/level-two/run_level_two.py:411-441 | decrypted on arrival means that the first copy came so, with that body; decrypted when retried, that it came encrypted and the first attempt to succeed gave that body; not decrypted, that every attempt was refused, the last for the reason given |
| `Collect.WaitsFor` | packages/example-app/level-two/run_level_two.py:408-411 | the loop goes on exactly for an id no sync delivered and for a required one that neither came decrypted nor was decrypted when retried |
| `Collect.DeliveredTwice` | packages/example-app/level-two/run_level_two.py:411-441 | an id is missing exactly if no sync delivered it; it is decrypted and still retried exactly if its first copy came encrypted, a later one did not, and every attempt since was refused |
| `Collect.VerdictIsFinal` | packages/example-app/level-two/run_level_two.py:411-435 | a settled verdict is never overwritten while the loop runs |
| `Collect.EncryptedHasReason` | packages/example-app/level-two/run_level_two.py:426-441 | what is reported encrypted was attempted: "never attempted" is never said |
| `Collect.EarlyEnd` | packages/example-app/level-two/run_level_two.py:437-442 | ended early, the loop misses nothing, and reports every required id decrypted exactly if none was decrypted and lost in that way, as none is that was delivered once |
| `Collect.DecryptedThenLost` | packages/example-app/level-two/run_level_two.py:411-441 | two turns that the loop takes in full, ends early after, and that leave a decrypted event still retried |
| `Collect.LoseOne` | packages/example-app/level-two/run_level_two.py:386-442 | against them `op_collect` reports the event encrypted |
| `Quoting.QuotedIsOneWord` | packages/example-app/level-two/run_camera_proof_rig.py:986-986 | a POSIX shell reads the quoted text, wherever it stands on a line and whatever follows a blank after it, as one word, the encoded text |
| `Quoting.EncodedDecodes` | packages/example-app/level-two/run_camera_proof_rig.py:985-985 | the encoded text holds no space and decodes to the text |
| `Quoting.TypedTextSurvives` | packages/example-app/level-two/run_camera_proof_rig.py:978-990 | of the line that types a text the shell makes the command, its verb and one word, which decodes to the text |
| `Layout.Rows` | packages/example-app/src/codeMatrixLayout.ts:81-97 | the nested loops draw every square of the code, row by row, and each row is as wide as the code |
| `Layout.Lay` | packages/example-app/src/codeMatrixLayout.ts:56-105 | exactly the codes whose squares do not match their width are refused; every square drawn is the module at its place; a square is the largest whole number of hundredths with which `width + 8` of them fit, the quiet zone is four squares, and the side is two quiet zones and the code |

## Left out

- ScannedCodeRun.Start: the wording of what is shown is reduced to which message it is, and its explanation to whether a call-off was delivered and what error was met.
- ScannedCodeRun.Start: it says nothing of time; whether the unanswered-request budget has run out is the environment's choice at each read of the stage, and pauses last as long as it likes.
- Protocol.MayReport: the path a request is posted to, and the event type and transaction id in it, are reduced to whether there is one.
- BitForms.ByteForms: no lemma joins the vectors of this module to the integers the codecs compute with.
- Collect.Collect: the order of the missing ids and the event's type name are not modelled.
- LevelTwoHost.RuleMeans: each line the app prints is one line of the log the host reads, and no other program prints lines with the run's prefix.
- OprfStore.Store.Finalize: the native side reads what it is handed during the call, writes to none of it, and answers what it likes.
- Layout.Lay: lengths are real numbers; the rounding of binary floating point is not modelled.
- The steps of the level 2 suite are reduced to whether they succeed, fail or throw; what they do over the network is not modelled.
- The facade's wrappers and enumeration switches, attachment handling, the group arithmetic of RFC 9497, React components, device driving, HTTP clients and log scans would add only easy members or are not logic of this kind.
- ScannedCodeLibrary.HandsOverAll: the model's library hands requests over oldest first; the documentation promises that order only to requests that need one.
- The Rust cryptographic core is not part of this model; of its request queue only what the facade documents is assumed: `to_device` requests are never evicted, and a request leaves when it is reported sent.

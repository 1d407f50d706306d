# Verified model of the Alea seed tool

A Dafny model of the parts of this repository whose correctness rests on more than one line
of code, and proofs about every input, every run or every reachable state of them. Verify it
with `dafny verify dfyconfig.toml`.

| file | models |
|---|---|
| `WordWrap.dfy` | the word wrapper of the text screens |
| `StateMachine.dfy` (module `Protocol`), `PreSecretFlow.dfy`, `PreSecretDriver.dfy` | the ceremony's state machine; the driver of the startup gates, its runs on values and its loops |
| `EntropyEncoding.dfy`, `Bip39.dfy` | raw entropy typed as symbols, to bytes, to word indexes |
| `CompatDerive.dfy`, `VerifyScreens.dfy`, `VerifyLoop.dfy` | device profiles; the verification screens over both derivations, on values and as the loop with its text buffers |
| `Drawing.dfy`, `Compositor.dfy` | rectangles, panels, QR symbols; the window with its watermark bands |
| `VectorReader.dfy`, `Hex.dfy` | the reader of the frozen test vectors; hexadecimal text |
| `Passphrase.dfy`, `CustomPath.dfy` | the passphrase buffer; the derivation path read-back |
| `Arithmetic.dfy`, `Bits.dfy`, `Utf8Strings.dfy`, `Contracts.dfy`, `Wrappers.dfy` | shared facts and types |

Code that updates state in place is a class or a method with loops, proved against a function
of its inputs; the theorems are lemmas about that function, or postconditions of the method
that runs the whole thing.

**Parameters.** SHA-256 is any function to 32 bytes (`Hash`), the glyph table any function
(`Font`). Watchdog outcomes and keys are finite sequences: a run is `None` or `Waiting` when
they run out, and only then. What a gate reports, what the user does
at an error or setup screen, and how many keys the custom-path tool reads are functions of how
often they were asked.

**Where the code does not do what it seems to.** Each is stated with its exact condition.

- A failed cryptographic self-test reaches the setup screen if and only if one of its step's
  two watchdog re-assertions fails and the user leaves the last error screen by Enter
  (`CryptoFailureLetThrough`), and such runs do hand off (`FailedSelfTestHandsOff`): a recovery
  lands exactly where a pass would. The module's comment (`crates/seed-flow/src/driver.rs:54-63`)
  takes a landing on the next gate's state as proof that the gate passed; for the last gate the
  code does not ensure that.
- The loop trusts the error class that the platform and console gates report: a failed check
  goes on to the next gate if and only if its class resumes there, both re-assertions succeed
  and the key is Enter (`MisreportedClassGoesOn`). With the classes each gate documents, a
  handoff means that the gates themselves reported clean checks (`HandoffMeansClean`).
- The drawn border of a panel is the rectangle's own at every visible pixel if and only if
  `LineOk` holds along both axes (`PanelBorderIsExact`); in particular when no far edge
  overflows 32 bits, or the framebuffer is below the largest 32-bit size.
- Typing outgrows an allocation if and only if a text of more than 512 bytes is drawn
  (`RunOver`, `LongTextIsDrawn`). Only then can typed text stay behind unwiped, and it does
  where growing moves the text instead of extending its allocation in place.

## Model

| member | source | states |
|---|---|---|
| `WordWrap.WrapWords.constructor` | crates/seed-flow/src/text.rs:43-45 | the column count is clamped into 1..160 and nothing is consumed yet |
| `WordWrap.WrapWords.Next` | crates/seed-flow/src/text.rs:57-106 | one call yields the next line of the specification and consumes up to its break, or nothing when only spaces are left |
| `WordWrap.WriteWrappedProse` | crates/seed-flow/src/text.rs:125-129 | the lines written are the whole wrap of the text |
| `WordWrap.TrimAsciiEnd` | crates/seed-flow/src/text.rs:132-139 | exactly the trailing spaces go, for every string |
| `WordWrap.EveryLineIsGood` | crates/seed-flow/src/text.rs:57-106 | every line is nonempty, fits the width, and neither starts nor ends with a space |
| `WordWrap.WordsSurvive` | crates/seed-flow/src/text.rs:57-106 | the words of the lines are the words of the text in order, each over-long one cut at width offsets; a word that fits is never split |
| `WordWrap.CharactersSurvive` | crates/seed-flow/src/text.rs:57-106 | the non-space characters come out once each, in order |
| `WordWrap.WrapUsesFewestLines` | crates/seed-flow/src/text.rs:57-106 | no division into word-boundary lines of that width has fewer lines |
| `WordWrap.GreedySpansOfWrap` | crates/seed-flow/src/text.rs:57-106 | the wrapper's lines are the pieces of the text its spans mark out |
| `WordWrap.GreedySpansAreWrap` | crates/seed-flow/src/text.rs:57-106 | when every word fits, the wrapper's own lines are such a division, so the minimum is attained |
| `WordWrap.JoinInvertsWrap` | crates/seed-flow/src/text.rs:57-106 | joining the lines with one space gives back single-spaced text whose words fit |
| `Protocol.StateMachine.Transition` | crates/seed-protocol/src/state/mod.rs:660-734 | a transition takes the routed state, keeps or sets the committed fields, and returns the next state |
| `Protocol.SecretIsNeverLeft` | crates/seed-protocol/src/state/mod.rs:738-1025 | after a secret exists, no sequence of events and watchdog outcomes leaves the post-secret states |
| `Protocol.SecretBoundary` | crates/seed-protocol/src/state/mod.rs:738-984 | a step enters the post-secret states if and only if it is an accepted final confirmation |
| `Protocol.SecretNeedsConfirmation` | crates/seed-protocol/src/state/mod.rs:738-984 | every run that reaches a secret sent that confirmation in that state under a good re-assertion |
| `Protocol.FaultHalts` | crates/seed-protocol/src/state/mod.rs:660-734 | post-secret, a failed re-assertion or an unlisted event ends in the terminal halt within two more steps, whatever they are |
| `Protocol.TerminalAbsorbs` | crates/seed-protocol/src/state/mod.rs:660-734 | a terminal state is never changed again |
| `Protocol.WaysToGates` | crates/seed-protocol/src/state/mod.rs:757-980 | every way into the opening states and the gates, by state and event, under a good re-assertion |
| `Protocol.WaysToConfirmation` | crates/seed-protocol/src/state/mod.rs:786-980 | every way into the setup, the collection of entropy and the final confirmation, by state, event and committed mode |
| `Protocol.WaysOutBeforeSecret` | crates/seed-protocol/src/state/mod.rs:757-1022 | every way out to the firmware before a secret, and the class of every error screen, decided by the event |
| `Protocol.WaysToWords` | crates/seed-protocol/src/state/mod.rs:832-862 | every way to the words and to their destruction |
| `Protocol.WaysToReentry` | crates/seed-protocol/src/state/mod.rs:839-861 | every way into the hidden re-entry |
| `Protocol.WaysToPassphrase` | crates/seed-protocol/src/state/mod.rs:857-874 | every way through the passphrase; a mismatched confirmation goes back to the entry |
| `Protocol.WaysToDisplay` | crates/seed-protocol/src/state/mod.rs:869-885 | every way to the derivation display and past it |
| `Protocol.WaysToShutdown` | crates/seed-protocol/src/state/mod.rs:842-894 | every way into the two scrubs and the shutdown |
| `Protocol.WithoutTheTable` | crates/seed-protocol/src/state/mod.rs:660-715 | where a failed re-assertion, the fatal chain and a terminal state lead |
| `Protocol.WhatIsReported` | crates/seed-protocol/src/state/mod.rs:660-734 | when a call is reported illegal, and with which fatal class |
| `Protocol.ShutdownScrubsBoth` | crates/seed-protocol/src/state/mod.rs:842-894 | every run that comes to the shutdown scrubbed the secret arena and then the framebuffer, after a confirmed destruction or the closing page |
| `Protocol.DisplayNeedsPassphrase` | crates/seed-protocol/src/state/mod.rs:857-874 | every run that comes to the derivation display completed the hidden re-entry and then matched a confirmation or chose the empty passphrase |
| `Protocol.EntropyIsCollected` | crates/seed-protocol/src/state/mod.rs:786-824 | right before a run asks for the final confirmation a setup was committed and the sources of its mode were completed, and the machine carries that setup |
| `Protocol.SecretIsEarned` | crates/seed-protocol/src/state/mod.rs:786-824 | every run that comes to a secret confirmed exactly that |
| `PreSecretDriver.DriveOnce` | crates/seed-flow/src/driver.rs:237-258 | one event is sent under one re-assertion, and the machine takes that step |
| `PreSecretDriver.StepRecoverable` | crates/seed-flow/src/driver.rs:237-258 | the recovery loop settles exactly where the specification says, having sent the events and answered the error screens it says |
| `PreSecretFlow.EventsLead` | crates/seed-flow/src/driver.rs:237-258 | the events of a step lead the machine where it settles, and use up the re-assertions if it does not |
| `PreSecretFlow.ErrorScreenLanding` | crates/seed-flow/src/driver.rs:237-258 | from an error screen: out if the last key was Escape, else the setup screen if a re-assertion failed on the way, else where the error's class resumes |
| `PreSecretFlow.GateLanding` | crates/seed-flow/src/driver.rs:701-718 | exactly where any verdict of any gate lands, for all re-assertions and keys |
| `PreSecretFlow.ErrorScreenCount` | crates/seed-flow/src/driver.rs:237-258 | error screens end at the first re-assertion that succeeds, after one screen for each that fails |
| `PreSecretFlow.ForcedEnds` | crates/seed-flow/src/driver.rs:746-763 | the forced exit's end is decided by the re-assertions of its Escapes alone |
| `PreSecretFlow.BlockedLanding` | crates/seed-flow/src/driver.rs:237-258 | on the inputs alone: when a blocking verdict settles, and where, from the first re-assertion that succeeds and the key at the last error screen |
| `PreSecretFlow.CryptoFailureLetThrough` | crates/seed-flow/src/driver.rs:441-461 | on the inputs alone: a failing crypto verdict is let through if and only if one of the step's two re-assertions fails and the key at the last error screen is Enter |
| `PreSecretFlow.CryptoFailureExample` | crates/seed-flow/src/driver.rs:441-461 | one failed re-assertion and one Enter do let it through |
| `PreSecretFlow.MisreportedClassGoesOn` | crates/seed-flow/src/driver.rs:373-415 | a failing platform or console check goes on to the next gate if and only if its class resumes there, both re-assertions succeed and the key is Enter |
| `PreSecretFlow.MisreportedClassExample` | crates/seed-flow/src/driver.rs:373-394 | a failed platform check that reports the console's class moves on to the console gate |
| `PreSecretFlow.FailedCheckIsRepeated` | crates/seed-flow/src/driver.rs:373-461 | a check that fails with a documented class is made again after Enter, under good re-assertions |
| `PreSecretFlow.ReassertFailureStops` | crates/seed-flow/src/driver.rs:701-718 | after a failed re-assertion no gate but the last lets the run go on |
| `PreSecretDriver.ForceExit` | crates/seed-flow/src/driver.rs:746-763 | the forced exit sends exactly the faults and Escapes specified; it ends at the firmware if and only if one of its Escapes is sent under a good re-assertion; after eight failures it rests on an error screen |
| `PreSecretDriver.DriveGateStep` | crates/seed-flow/src/driver.rs:701-718 | a gate step settles as specified and goes on only at the gate itself after a blocking verdict or at its successor after an admitting one (last gate: or after a watchdog recovery); everything else is forced out |
| `PreSecretDriver.RunGate` | crates/seed-flow/src/driver.rs:373-461 | the gate's report is logged, and the events sent, the machine and whether the run goes on are those of the specified step |
| `PreSecretFlow.PhaseOrder` | crates/seed-flow/src/driver.rs:371-461 | the checks of a run have the shape P+ K+ (G or X)*, beginning with G: platform and console never run again |
| `PreSecretFlow.OrderAdmits` | crates/seed-flow/src/driver.rs:371-461 | every gate before the one checked last was admitted by its own latest check |
| `PreSecretFlow.SetupIsEarned` | crates/seed-flow/src/driver.rs:493-503 | at the setup screen all four gates have results, the earlier ones were admitted, and the crypto check's own step led there |
| `PreSecretFlow.SetupIsReached` | crates/seed-flow/src/driver.rs:441-461 | the crypto check before the setup screen was clean, or one of its own step's two re-assertions failed and the last error screen was left by Enter |
| `PreSecretFlow.NextIsSound` | crates/seed-flow/src/driver.rs:371-552 | each step that goes on keeps the order of the checks, their tie to reports and events, and what the next state demands of them |
| `PreSecretDriver.OnSetup` | crates/seed-flow/src/driver.rs:493-548 | the commit ends the run with the recap of the latest verdicts, Back re-enters at graphics, as the specified step says; the missing-results branch is dead |
| `PreSecretFlow.EarnedMeansClean` | crates/seed-flow/src/driver.rs:371-461 | with documented error classes the latest platform, console and graphics checks before a handoff are clean |
| `PreSecretFlow.HandoffMeansClean` | crates/seed-flow/src/driver.rs:371-552 | with documented error classes, a handoff means the gates' own reports were, in this order: clean platform, clean console, an available display tested or skipped, and last a crypto check that was clean or let through in its own step; the next event after that step is the commit |
| `PreSecretFlow.FlowHandsOff` | crates/seed-flow/src/driver.rs:493-553 | every handoff is a commit sent at an earned setup screen under a good re-assertion, nothing sent or checked after it, with the committed choices and the recap of the verdicts that earned it |
| `PreSecretFlow.HandoffCarries` | crates/seed-flow/src/driver.rs:493-553 | a handoff carries the word count, mode and instrument of the first commit the user made, stands where that mode leads, and its recap shows what the platform, console and crypto gates reported at their last checks |
| `PreSecretFlow.FailedSelfTestHandsOff` | crates/seed-flow/src/driver.rs:266-553 | a whole run that does hand off with its one self-test failed |
| `PreSecretFlow.FlowIsKept` | crates/seed-flow/src/driver.rs:266-553 | in every run the checks come in order, each holds what its gate reported, was made in that gate's state and answered by its verdict's event; the final machine is where the events sent lead a fresh one; the outcome tells exactly where it is; a run stays unfinished only if the re-assertions run out |
| `PreSecretFlow.AllClearHandsOff` | crates/seed-flow/src/driver.rs:266-553 | a run whose checks and re-assertions are all good, and whose user acknowledges and commits, hands off |
| `PreSecretFlow.LeavingChecksNothing` | crates/seed-flow/src/driver.rs:327-338 | leaving the first screen runs no gate, and hands back to the caller under good re-assertions |
| `PreSecretDriver.RunGates` | crates/seed-flow/src/driver.rs:371-552 | the loop makes exactly the specified rest of the run: the same result, events and checks |
| `PreSecretDriver.RunOpening` | crates/seed-flow/src/driver.rs:301-361 | the opening screens end the run as specified, or leave it at the first gate |
| `PreSecretDriver.RunPreSecretFlow` | crates/seed-flow/src/driver.rs:266-553 | the method makes the one run its script determines, keys at error screens included: the same result, events sent and checks made; so the theorems on runs hold of it, and a failed disable exits before any event |
| `Bip39.EntropyToIndexes` | crates/seed-core/src/bip39/mod.rs:121-180 | succeeds exactly on 16 or 32 bytes; the indexes, read in base 2048, are the entropy followed by its checksum bits, the rest zero |
| `Bip39.EntropyFromIndexes` | crates/seed-core/src/bip39/mod.rs:121-164 | dropping the checksum bits of the indexes gives back the entropy |
| `Bip39.EncodesUnique` | crates/seed-core/src/bip39/mod.rs:121-180 | one entropy has one word count and one list of indexes |
| `EntropyEncoding.BitBuf.PushBit` | crates/seed-compat/src/entropy_encoding.rs:254-261 | the accumulator holds the first 2048 of all bits pushed, and overflow is set exactly when there were more |
| `EntropyEncoding.BitBuf.PushStr` | crates/seed-compat/src/entropy_encoding.rs:265-269 | a bit string is appended to all bits pushed |
| `EntropyEncoding.PushCardBits` | crates/seed-compat/src/entropy_encoding.rs:351-362 | a card's code is appended |
| `EntropyEncoding.CodesSpellDigits` | crates/seed-compat/src/entropy_encoding.rs:276-322 | what each encoding takes, and the number and width its one-character codes spell, digit by digit |
| `EntropyEncoding.SymbolsAreLetters` | crates/seed-compat/src/entropy_encoding.rs:406-417 | the symbols accepted are the characters the encoding takes |
| `EntropyEncoding.BinaryIsItself` | crates/seed-compat/src/entropy_encoding.rs:276-322 | in binary the bits are the digits typed |
| `EntropyEncoding.CardCodeValue` | crates/seed-compat/src/entropy_encoding.rs:351-362 | the code spells the card's index within its width class, five, four or two bits |
| `EntropyEncoding.CardNames` | crates/seed-compat/src/entropy_encoding.rs:331-346 | the ranks are A23456789TJQK and the suits CDHS, in either case and in that order |
| `EntropyEncoding.CardsByName` | crates/seed-compat/src/entropy_encoding.rs:331-362 | the code of a card spells thirteen times its suit plus its rank, within its width class |
| `EntropyEncoding.CardsNeverOverlap` | crates/seed-compat/src/entropy_encoding.rs:331-346 | a card is never followed by another one byte later, so skipping two bytes misses none |
| `EntropyEncoding.ScanCards` | crates/seed-compat/src/entropy_encoding.rs:382-405 | the left-to-right scan accepts every index where a rank is followed by a suit, and pushes those codes in order |
| `EntropyEncoding.CardsInUtf8` | crates/seed-compat/src/entropy_encoding.rs:382-405 | scanning the UTF-8 bytes finds the cards of the characters, whatever else was typed |
| `EntropyEncoding.ConsumedFits` | crates/seed-compat/src/entropy_encoding.rs:406-417 | no character is counted twice, so the ignored count is exact |
| `EntropyEncoding.Pack` | crates/seed-compat/src/entropy_encoding.rs:443-451 | the bytes, read as a number, are the last retained bits, and the bytes behind them are zero |
| `EntropyEncoding.EntropyEncodingDerive` | crates/seed-compat/src/entropy_encoding.rs:370-473 | the outcome is decided by the exact length of the whole bit string; on success the entropy equals its value modulo two to the retained length, with exact counts |
| `EntropyEncoding.OutcomeIsUnique` | crates/seed-compat/src/entropy_encoding.rs:370-473 | that contract leaves every input exactly one outcome |
| `EntropyEncoding.WordsSpellLastBits` | crates/seed-compat/src/entropy_encoding.rs:444-473 | the words spell the last retained bits and then the checksum |
| `EntropyEncoding.DiceIsBase6` | crates/seed-compat/src/entropy_encoding.rs:276-322 | dice faces give the bits and the number of symbols that base 6 gives with 6 and 0 relabelled |
| `EntropyEncoding.DiceOutcomeIsBase6` | crates/seed-compat/src/entropy_encoding.rs:370-473 | so whatever dice input derives, words or refusal, base 6 derives from the relabelled faces, but for the name of the encoding |
| `EntropyEncoding.UnmatchedIsIgnored` | crates/seed-compat/src/entropy_encoding.rs:406-417 | inserting a character without a code changes nothing but the ignored count, by one |
| `EntropyEncoding.HexSpellsNumber` | crates/seed-compat/src/entropy_encoding.rs:276-322 | in hexadecimal the bits are those of the number typed |
| `CompatDerive.ThreeProfiles` | crates/seed-compat/src/lib.rs:300-305 | the three device profiles are found, the digest oracle is not |
| `CompatDerive.DeviceAlphabets` | crates/seed-compat/src/lib.rs:211-290 | dice devices take faces 1 to 6, the coin device takes 0 and 1 |
| `CompatDerive.FirstBadByte` | crates/seed-compat/src/lib.rs:533-542 | the first byte outside the alphabet, or none when all are inside |
| `CompatDerive.NoPhantomPairing` | crates/seed-compat/src/lib.rs:490-529 | a word count comes out if and only if the device can produce it from that many events and it is the one asked for |
| `CompatDerive.DeviceNumbers` | crates/seed-compat/src/lib.rs:213-529 | 50 or 99 rolls, 128 or 256 flips give 12 or 24 words and any other count is refused; the free device gives what is asked for |
| `CompatDerive.CompatOutput.Scrub` | crates/seed-compat/src/lib.rs:365-378 | every index is zero afterwards |
| `CompatDerive.Derive` | crates/seed-compat/src/lib.rs:444-485 | each error exactly when it applies; otherwise the words encode the first 16 or all 32 bytes of the digest of the typed bytes |
| `VerifyScreens.HandleMenuKey` | crates/alea-verify/src/verify.rs:228-237 | a chosen row exists, and is the one the digit names |
| `VerifyScreens.OkAfter` | crates/alea-verify/src/verify.rs:1119-1321 | every key keeps text inside its alphabet, and asks for a word count exactly where it is free |
| `VerifyScreens.KeysAtProfiles` | crates/alea-verify/src/verify.rs:1122-1137 | what every key does at the profile menu |
| `VerifyScreens.KeysAtEncodings` | crates/alea-verify/src/verify.rs:1247-1257 | what every key does at the menu of encodings, whose rows are Binary, Base6, Dice, Base10, Hex, Cards |
| `VerifyScreens.KeysAtEntry` | crates/alea-verify/src/verify.rs:399-454 | what every key does at an event entry and at the word count |
| `VerifyScreens.KeysAtEncodingEntry` | crates/alea-verify/src/verify.rs:856-871 | what every key does at the entry of an encoding |
| `VerifyScreens.KeysAtResult` | crates/alea-verify/src/verify.rs:1187-1246 | where words are shown exactly e and E toggle, exactly p and P open the tool, and every other key goes back; at a refusal every key does |
| `VerifyScreens.KeysAtEncodingResult` | crates/alea-verify/src/verify.rs:1280-1317 | the same for raw entropy, where nothing toggles |
| `VerifyScreens.FourEscapesLeave` | crates/alea-verify/src/verify.rs:1119-1321 | from every place four Escapes leave the loop |
| `VerifyScreens.TypedIsHeld` | crates/alea-verify/src/verify.rs:399-416 | typing events of the alphabet adds exactly them |
| `VerifyScreens.BackspaceUndoes` | crates/alea-verify/src/verify.rs:399-416 | backspace undoes a typed event |
| `VerifyScreens.LeavesFromMenu` | crates/alea-verify/src/verify.rs:1119-1321 | no key ends the loop where a text is held |
| `VerifyScreens.EventsReachTheirResult` | crates/alea-verify/src/verify.rs:1124-1186 | from the menu, choosing a profile, typing events and submitting reaches the result of exactly those events and that word count |
| `VerifyScreens.SymbolsReachTheirResult` | crates/alea-verify/src/verify.rs:1247-1317 | choosing an encoding by its row, typing symbols and submitting reaches the result of exactly those in that encoding |
| `VerifyScreens.AllowedBytes` | crates/alea-verify/src/verify.rs:122-127 | text the entry screen lets through is accepted byte by byte by the derivation |
| `VerifyScreens.SubmitOutcome` | crates/alea-verify/src/verify.rs:1187-1246 | a submitted text gives the device's word count or the one refusal of a length-derived profile with a non-canonical count, nothing else |
| `VerifyScreens.RightIsNoLastResort` | crates/alea-verify/src/verify.rs:461-521 | the screen that is right at a place is never the free-choice, the cannot-produce or the last-resort refusal |
| `VerifyLoop.TextBuffer.Push` | crates/alea-verify/src/verify.rs:399-416 | the text grows by the character and its UTF-8 bytes; an allocation without room for them is outgrown |
| `VerifyLoop.TextBuffer.Pop` | crates/alea-verify/src/verify.rs:399-416 | the text loses its last character and keeps its allocation |
| `VerifyLoop.TextBuffer.Scrub` | crates/alea-verify/src/verify.rs:177-195 | the whole allocation is zero, cells above the text's length included |
| `VerifyLoop.Retire` | crates/alea-verify/src/verify.rs:1159-1162 | a dropped text's whole allocation is zero and joins the wiped ones, which grow by exactly that |
| `VerifyLoop.DropText` | crates/alea-verify/src/verify.rs:1159-1162 | on the way to a menu the text is wiped, and as many texts are wiped as were dropped |
| `VerifyLoop.Type` | crates/alea-verify/src/verify.rs:399-416 | a character is added; the allocations change exactly when the text outgrows one, and one is outgrown exactly when a text passes 512 bytes |
| `VerifyLoop.HandleEntryKey` | crates/alea-verify/src/verify.rs:399-416 | the text is edited and the action chosen as specified, for every key |
| `VerifyLoop.HandleEncodingEntryKey` | crates/alea-verify/src/verify.rs:856-871 | the same for raw entropy, where every character but the question mark is taken |
| `VerifyLoop.Finish` | crates/alea-verify/src/verify.rs:570-629 | the words and the entropy shown belong to the same digest prefix, every index has a word, and the derived output is zeroed |
| `VerifyLoop.DeriveSubmitted` | crates/alea-verify/src/verify.rs:1192-1193 | the derivation of a submitted text gives the device's words, or the non-canonical refusal and nothing else |
| `VerifyLoop.EncodeSubmitted` | crates/alea-verify/src/verify.rs:1280-1285 | the raw-entropy derivation gives words exactly for a supported number of bits |
| `VerifyLoop.Ask` | crates/alea-verify/src/verify.rs:1119-1122 | the screen drawn is the next of the log, and the key that answers it is the next of the keys |
| `VerifyLoop.RunCustomPath` | crates/alea-verify/src/verify.rs:1206-1226 | the custom-path tool takes its keys off the sequence and comes back to the same screen |
| `VerifyLoop.OnProfileMenu` | crates/alea-verify/src/verify.rs:1124-1137 | the menu's row opens the profile it names, with an empty text of its own allocation |
| `VerifyLoop.OnEventEntry` | crates/alea-verify/src/verify.rs:1138-1170 | the next stage is where the key leads; it has the same text, or none, and then the whole allocation is zero |
| `VerifyLoop.OnWordCount` | crates/alea-verify/src/verify.rs:1171-1186 | the chosen word count goes with the text; Escape goes back to the text |
| `VerifyLoop.OnResult` | crates/alea-verify/src/verify.rs:1187-1246 | the right screen is drawn: words if and only if the device would give some, the non-canonical refusal if and only if not; the last-resort arm is dead; the text is kept or wiped |
| `VerifyLoop.OnEncodingEntry` | crates/alea-verify/src/verify.rs:1258-1279 | the same as for events, over raw entropy |
| `VerifyLoop.OnEncodingResult` | crates/alea-verify/src/verify.rs:1280-1317 | the one outcome of the raw entropy is drawn, words exactly for 128..159 or 256..287 bits; the next stage is where the key leads, and the text is kept or wiped |
| `VerifyLoop.RunOver` | crates/alea-verify/src/verify.rs:1119-1321 | the log of screens is the one run these keys make, from the profile menu until it is left or the keys run out, each screen the right one of its place; as many allocations were wiped as texts were dropped, and all of those are zero; every allocation was wiped, is live or was outgrown, and one was outgrown if and only if a text of more than 512 bytes was drawn; without one, leaving means every allocation is zero |
| `VerifyLoop.RunReaches` | crates/alea-verify/src/verify.rs:1119-1321 | every run draws the place its first keys lead to, so what the places say is said of runs |
| `VerifyLoop.EscapesLeave` | crates/alea-verify/src/verify.rs:1119-1321 | a run whose keys end in four Escapes and open no tool leaves |
| `VerifyLoop.LongTextIsDrawn` | crates/alea-verify/src/verify.rs:171-172 | 513 typed events are such a text, in every run whose keys begin so |
| `Drawing.Framebuffer.PutRow` | crates/seed-desktop-test/src/shared_screen.rs:62-73 | the row's visible pixels change and no others |
| `Drawing.FillRect` | crates/seed-gop-ui/src/panel.rs:29-57 | a visible pixel takes the color exactly when it lies in the rectangle over unbounded integers |
| `Drawing.DrawPanel` | crates/seed-gop-ui/src/panel.rs:69-82 | border, interior and outside, pixel by pixel |
| `Drawing.FarEdgeIsExact` | crates/seed-gop-ui/src/panel.rs:69-82 | the saturating far edge is the rectangle's own if and only if the sum fits 32 bits or the framebuffer is below the largest size |
| `Drawing.PanelBorderIsExact` | crates/seed-gop-ui/src/panel.rs:69-82 | at every visible pixel the drawn border is the rectangle's own, that is the rectangle minus its interior, if and only if the far line is right along both axes |
| `Drawing.BadColumn` | crates/seed-gop-ui/src/panel.rs:69-82 | otherwise a pixel of the last but one column is wrong |
| `Drawing.ModulePxForWidth` | crates/seed-gop-ui/src/qr.rs:54-80 | the largest module size whose block fits the width |
| `Drawing.DarkIsSomeModule` | crates/seed-gop-ui/src/qr.rs:95-131 | a pixel is dark by division into cells exactly when it lies in the square of some dark module |
| `Drawing.DrawQr` | crates/seed-gop-ui/src/qr.rs:95-131 | for every position, size and symbol each visible pixel is dark in a dark module, light elsewhere in the block, untouched outside |
| `Compositor.FillRows` | crates/seed-desktop-test/src/window.rs:223-234 | the band's rows take the color as far as the buffer reaches |
| `Compositor.BandRow.PutRow` | crates/seed-desktop-test/src/window.rs:252-260 | a row lands at the band's offset, added modulo 2 to the 32, clipped at the right edge, never out of range, whatever row number it is given |
| `Compositor.DrawText` | crates/seed-gop-ui/src/font/mod.rs:102-115 | each pixel of the text's cells, one a byte, shows its glyph bit, every other pixel is kept; of a long text the first 128 bytes are drawn |
| `Compositor.PresentFrame` | crates/seed-desktop-test/src/window.rs:193-221 | every pixel of every frame, empty and low ones included: watermark bands above and below, the canvas between them, no slice out of range |
| `Compositor.BandsIgnoreCanvas` | crates/seed-desktop-test/src/window.rs:193-221 | for any two canvases the bands are identical, and the canvas shows unchanged between them |
| `Compositor.BandsApart` | crates/seed-desktop-test/src/window.rs:193-221 | on a frame with room for both bands each shows its own text alone |
| `Compositor.WatermarkStands` | crates/seed-desktop-test/src/window.rs:193-221 | in numbers and colors, which pixels of the bands show the watermark text and which do not |
| `VectorReader.Parser.SkipWs` | crates/seed-desktop-test/src/vectors.rs:106-110 | the position moves to the first byte that is no whitespace |
| `VectorReader.Parser.Value` | crates/seed-desktop-test/src/vectors.rs:121-129 | a value is returned and consumed exactly as the reading function says, or fails where it does |
| `VectorReader.Parser.Object` | crates/seed-desktop-test/src/vectors.rs:130-153 | the same for objects, over the loop of pairs |
| `VectorReader.Parser.Array` | crates/seed-desktop-test/src/vectors.rs:154-173 | the same for arrays, over the loop of items |
| `VectorReader.Parser.String` | crates/seed-desktop-test/src/vectors.rs:174-190 | the same for strings; a backslash or a missing quote fails |
| `VectorReader.Parser.Number` | crates/seed-desktop-test/src/vectors.rs:191-202 | the same for numbers; a lone minus or a value beyond 64 bits fails |
| `VectorReader.ReadDocument` | crates/seed-desktop-test/src/vectors.rs:203-209 | a document is one value and then only whitespace |
| `VectorReader.Reads` | crates/seed-desktop-test/src/vectors.rs:121-202 | every spelling of a value, with any whitespace, is read in full and for its meaning |
| `VectorReader.Source` | crates/seed-desktop-test/src/vectors.rs:121-202 | whatever is read has a spelling at that place, ending where the reading stops |
| `VectorReader.StandsIsText` | crates/seed-desktop-test/src/vectors.rs:121-202 | a spelling's parts stand in place exactly where its rendered text does |
| `VectorReader.NumeralsAreNumbers` | crates/seed-desktop-test/src/vectors.rs:191-202 | a numeral is an optional minus and decimal digits, stands for the number they spell, and is read exactly when that fits 64 bits |
| `VectorReader.DocumentsAreSpellings` | crates/seed-desktop-test/src/vectors.rs:203-209 | a document is accepted with a value if and only if it is a rendering of that value |
| `VectorReader.PrintParses` | crates/seed-desktop-test/src/vectors.rs:203-209 | writing a value and reading the text back gives the value |
| `VectorReader.ReadableIsPrintable` | crates/seed-desktop-test/src/vectors.rs:203-209 | the values that some ASCII document holds are exactly those of 64-bit numbers and ASCII strings without quote or backslash |
| `Hex.BytesToHex` | crates/seed-desktop-test/src/pipeline.rs:37-45 | two lowercase digits for each byte, high half first |
| `Hex.HexInverse` | crates/seed-desktop-test/src/vectors.rs:212-216 | a text decodes to some bytes if and only if it is their encoding |
| `Hex.DecodesHex` | crates/seed-desktop-test/src/vectors.rs:212-216 | exactly the lowercase texts of even length decode, and re-encode to themselves |
| `Passphrase.PassphraseAscii.PushAscii` | crates/seed-core/src/passphrase.rs:135-145 | a printable byte is appended while there is room; a refused one changes nothing |
| `Passphrase.PassphraseAscii.PushChar` | crates/seed-core/src/passphrase.rs:156-161 | accepts exactly the printable ASCII characters |
| `Passphrase.PassphraseAscii.Backspace` | crates/seed-core/src/passphrase.rs:166-172 | the last byte goes and its cell is zero |
| `Passphrase.PassphraseAscii.Scrub` | crates/seed-core/src/passphrase.rs:177-180 | empty, and every cell zero |
| `Passphrase.PassphraseAscii.CtEq` | crates/seed-core/src/passphrase.rs:193-210 | true if and only if the two passphrases are the same bytes |
| `Passphrase.PassphraseAscii.CellsGiveLength` | crates/seed-core/src/passphrase.rs:193-210 | folding the length is for defence only: equal cells have equal lengths |
| `Passphrase.FoldStep` | crates/seed-core/src/passphrase.rs:193-210 | each byte folded in covers the next eight bits of the length difference |
| `CustomPath.PathString` | crates/alea-verify/src/custom_path.rs:59-75 | the text of a path is its steps in order |
| `CustomPath.StepSpells` | crates/alea-verify/src/custom_path.rs:59-75 | a step is a slash, its number in plain decimal, and a prime exactly when it is hardened |
| `CustomPath.ReadsBack` | crates/alea-verify/src/custom_path.rs:59-75 | reading the text gives back the child numbers, so no two paths read the same |

## Left out

- `WordWrap.WrapWords.Next`: text is a sequence of ASCII characters, as the source assumes; splitting inside a multi-byte character is not modelled.
- `EntropyEncoding.EntropyEncodingDerive`: the 32-bit symbol counters are unbounded, so inputs of four thousand million characters and more are not modelled; scrubbing of its output is not repeated here.
- `PreSecretDriver.RunPreSecretFlow`: screens, the checklist, the extras of the setup screen and the mode availability are not modelled; an answer at a screen is given at once, without the keys that lead to it.
- `PreSecretDriver.RunGate`: one method stands for the four arms of the gate loop, which differ only in the gate.
- `PreSecretDriver.RunOpening`: the opening screens are a method of their own; in the source they are the first lines of the flow.
- `VerifyLoop.TextBuffer.Push`: the first allocation is exactly as large as asked for. Where the allocator extends it in place, the outgrown allocation is the front of the new one and is wiped with it, which is not modelled.
- `VerifyLoop.Finish`: the seed, the fingerprint and the addresses are not derived.
- `VerifyLoop.RunCustomPath`: the custom-path tool is a number of keys it reads; what it draws is not modelled.
- `CompatDerive.Derive`: display texts, citations and caveats of the profiles are dropped.
- `Drawing.Framebuffer.PutRow`: pixels are a two-dimensional array; the locked flat vector behind it is not modelled (the compositor's buffer is flat).
- `Compositor.BandRow.PutRow`: a row sum beyond 32 bits wraps, as in a release build; a debug build panics there.
- `Compositor.DrawText`: column numbers are unbounded, so a text that begins within 1024 columns of 2 to the 32 is not modelled.
- `Compositor.PresentFrame`: the buffer is given; presenting it to the window is not modelled.
- `Passphrase.PassphraseAscii.CtEq`: timing is not modelled, only the result.
- `VectorReader.ReadableIsPrintable`: documents beyond ASCII are left out, whose multi-byte characters the source turns into one character a byte.
- `VectorReader.Parser.Value`: a panic is `None`; bytes are the characters of their codes; the recursion depth a machine stack allows is not bounded.
- SHA-256, PBKDF2, BIP32, secp256k1 and addresses: abstract or absent.
- Firmware calls (GOP, TPM, RNG, boot services), volatile writes and fences: only the stored result is modelled.
- The secret-phase screens, `ceremony.rs`, the QR encoder and the desktop event loop: not modelled.
- `parse_path`, the purpose classes and the dispatch loop of the custom-path tool, `tag_from_str`, `arch_from_str`, `bits_from_num`, menu texts, banners and layout constants: they would only add easy members.

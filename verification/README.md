# Scriba: verified model of the collaborative editor

Scriba is a collaborative text editor: every client keeps a replicated document, a server relays the
edits, keeps open files in memory and stores them. This project models its logic in Dafny and proves
what keeps the replicas equal and the data intact. `dafny verify dfyconfig.toml` checks all of it.

| File | What it models |
|---|---|
| `Positions`, `Generation` | positions and their order; inventing a position between two others |
| `Documents`, `Lines` | the flat sorted document; its line structure |
| `ReferenceProtocol`, `Regeneration`, `SharedEditor` | the flat reference replica with its broadcast queue, as a state machine and as classes |
| `CRDT`, `Replay` | the client document in lines, searched in two levels; replaying its messages |
| `PositionKey`, `Server` | the server's string-keyed maps, its open files and its database |
| `EndToEnd`, `Membership`, `Delivery`, `Refinement` | clients, server and channels together, with clients joining and leaving: the state machine, its invariant, and the objects that implement it |
| `LateErasures`, `LateChanges` | messages that name symbols which are gone: what the client's loops make of them |
| `DoubleErasure`, `Races` | two clients erasing or changing overlapping ranges, with the server between them |
| `Formatting`, `FormatRefinement` | the machine of `EndToEnd` with changes of format on its channels, and the objects that implement these changes |
| `Bytes`, `Framing`, `SymbolCodec`, `Payload` | the bytes on the wire |
| `Opening` | a user opening a file, from the server's map to the client's lines |

## How the model is built

The document invariant (`ClientDocument.ValidLines`) is: every line but the last ends in its only
newline, the flat document is strictly sorted, every position is well formed (digits in 0..31, the last
one at least 1), and `size` does not count the terminator. `Terminated` says that the last line is not
empty, which the searches rely on.

Objects whose methods update their fields are classes. Their methods are tied to operations on the
flat document, on maps or on byte sequences, and the theorems are about those. `Refinement` and
`FormatRefinement` show that the methods of the client and server objects take the steps of the end-to-end
machines; the classes of `SharedEditor` state the same about the reference protocol in their own contracts.

Random choices are arbitrary choices within their bounds. Exceptions are failure results. Maps are
enumerated in an arbitrary order, except in `Opening.LoadingUndefined`, where the order of `QMap`
matters. Inductions are written out in every lemma.

## What does not hold

The code is modelled as it is. These are the places where it does not do what one would expect, each
with its exact condition:

- A position cannot always be generated (`GeneratePositionBetween` throws exactly on a `Blocked` gap), and
  `BlockedGapArises` shows such a gap between positions that the algorithm itself generates.
- Replicas diverge when an editor generates a position again while messages about it are queued
  (`InsertAgreesExactly`, `EraseAgreesExactly`, `RegenerationDiverges`).
- A client that receives an erasure with an absent symbol erases the first symbol of the line that would hold
  it ("not found" is returned as index 0), and drops the rest of the message when the symbol is outside the
  document's range. A message does what it means exactly when its stored symbols come first and nothing else
  lies before the rest (`ErasesExactly`). Two clients that erase overlapping ranges get there: one of
  them at least loses agreement with the server, unless one of the ranges starts the document and they end
  together (`EraseTwice`, `AgreementLost`).
- A client that receives a change with an absent symbol overwrites the same wrong symbol, which now and then
  repairs itself (`ChangedExactly`). A client that erases what another one changes gets there
  (`EraseAndChange`), and a server that handles the change last brings the erased symbols back
  (`ErasedFirst`, `ChangeAgreement`).
- Two clients that change overlapping ranges at the same time end with different styles, unless they chose the
  same one (`ChangeTwice`).
- A file that the database does not know is opened in memory although a failure is reported (`SendFile`),
  and creating it then can leave the cache incoherent (`CreateNewFile`, `PhantomFile`).
- A client that opens a file looks past an empty last line when a newline is loaded as the largest symbol
  so far (`LoadingDefined`, `LoadingUndefined`).
- A file whose symbols are all gone cannot be opened: the client ignores the answer (`Join`).

## Model

| member | source | states |
|---|---|---|
| `Positions.CompareLoop` | Utility/symbol.h:191-208 | The comparison loop returns a negative, zero or positive number exactly as the first list is before, equal to or after the second lexicographically. |
| `Positions.OrderMeaning` | Utility/symbol.h:191-208 | One position is smaller exactly when at some index, all before it being equal, it ends or has the smaller identifier; for lists of any lengths. |
| `Positions.Antisymmetric` | Utility/symbol.h:22-36 | Swapping the arguments flips the comparison; it is zero just on equal positions. |
| `Positions.Transitive` | Utility/symbol.h:191-208 | The order of positions is transitive. |
| `Positions.Trichotomy` | Utility/symbol.h:191-208 | Of two positions exactly one is smaller, or they are equal. |
| `Generation.GenerateIdBetween` | Client/CRDT.cpp:221-236 | Whatever the random choices, the new digit lies strictly between the given ones, within the boundary of the end that the strategy of the level says; a strategy once drawn for a level stays. |
| `Generation.GenerateRandomNumBetween` | Client/CRDT.cpp:245-247 | Every random number is reduced to the bounds, both included. |
| `Generation.GeneratePositionBetween` | Client/CRDT.cpp:186-219 | Ends for all well-formed pairs; throws exactly on a `Blocked` gap, drawing nothing; otherwise appends a position strictly between the two that is no prefix of the right one, with digits in 0..31, a last digit of at least 1 and the own site last. It takes over the padded left position up to the first level with room for a digit and ends there, with a digit near the end that the strategy of that very level says; that strategy is the only one that may have been drawn, and one drawn before stays. |
| `Generation.PrefixDetermined` | Client/CRDT.cpp:186-219 | All of a generated position but its last digit is determined by the gap and the site, its length included. |
| `Generation.OpenBehindGenerated` | Client/CRDT.cpp:87-105 | Behind a freshly generated position the gap is never blocked, for any site. |
| `Generation.BlockedSkipsPadding` | Client/CRDT.cpp:190-193 | Over an exhausted left position, a leading `(0, own site)` of the right one does not matter to whether the gap is blocked. |
| `Generation.BlockedGapArises` | Client/CRDT.cpp:215-217 | The throw is reachable: site 1 generates two positions in an empty document so that site 2 cannot generate before the second. |
| `Generation.SitesNeverCollide` | Client/CRDT.cpp:196-200 | Positions generated by different sites, between whatever neighbours, are never equal. |
| `Reference.SharedEditor.LocalInsert` | Resources/CRDT_LSEQ_implementation_in_c++/SharedEditor.h:36-55 | An index outside the text is an error; otherwise the call fails exactly on a blocked gap, changing nothing, and else inserts a fresh symbol, with the next counter and a position generated between its neighbours on the strategies drawn so far, queues it, and takes an insertion step of the protocol. |
| `Reference.SharedEditor.GeneratePosition` | Resources/CRDT_LSEQ_implementation_in_c++/SharedEditor.h:57-82 | The same exact failure condition, the same density and the same use of the strategies for the flat version. |
| `Reference.SharedEditor.LocalErase` | Resources/CRDT_LSEQ_implementation_in_c++/SharedEditor.h:116-123 | Removes the symbol at the index, queues the deletion, and takes an erasing step of the protocol. |
| `Reference.SharedEditor.ProcessMessage` | Resources/CRDT_LSEQ_implementation_in_c++/SharedEditor.h:125-138 | Does to the sorted vector what the message means: throws exactly when an inserted position is occupied, and deletes only what is there. |
| `Reference.SharedEditor.FindIndexByPosition` | Resources/CRDT_LSEQ_implementation_in_c++/SharedEditor.h:150-165 | The binary search returns the index of the position, or reports that it is absent, exactly. |
| `Reference.SharedEditor.FindInsertIndex` | Resources/CRDT_LSEQ_implementation_in_c++/SharedEditor.h:183-197 | The binary search returns the number of smaller symbols, and throws exactly when the position is occupied. |
| `Reference.NetworkServer.Connect` | Resources/CRDT_LSEQ_implementation_in_c++/NetworkServer.cpp:8-11 | Editors get consecutive site ids. |
| `Reference.NetworkServer.Disconnect` | Resources/CRDT_LSEQ_implementation_in_c++/NetworkServer.cpp:13-15 | Takes a leaving step of the protocol; queued messages stay. |
| `Reference.NetworkServer.Send` | Resources/CRDT_LSEQ_implementation_in_c++/NetworkServer.cpp:17-19 | Appends to the queue. |
| `Reference.NetworkServer.Deliver` | Resources/CRDT_LSEQ_implementation_in_c++/NetworkServer.cpp:24-28 | One message reaches every editor but its sender, in any order of the editors. |
| `Reference.NetworkServer.DispatchMessages` | Resources/CRDT_LSEQ_implementation_in_c++/NetworkServer.cpp:21-31 | Succeeds exactly when no editor throws; in every consistent state it does succeed, empties the queue and leaves all editors equal. |
| `ReferenceProtocol.InsertKeepsInv` | Resources/CRDT_LSEQ_implementation_in_c++/SharedEditor.h:36-55 | Typing at a new position keeps the protocol invariant: every editor's document and pending messages lead to the set of live positions. |
| `ReferenceProtocol.EraseKeepsInv` | Resources/CRDT_LSEQ_implementation_in_c++/SharedEditor.h:116-123 | So does erasing, even of a symbol that other editors erased or are about to erase. |
| `ReferenceProtocol.DispatchKeepsInv` | Resources/CRDT_LSEQ_implementation_in_c++/NetworkServer.cpp:21-31 | So does delivering the oldest message. |
| `ReferenceProtocol.ReplayReachesLive` | Resources/CRDT_LSEQ_implementation_in_c++/NetworkServer.cpp:21-31 | Replaying the queue on a consistent editor never throws and gives exactly the symbols nobody erased. |
| `ReferenceProtocol.Convergence` | Resources/CRDT_LSEQ_implementation_in_c++/NetworkServer.cpp:17-31 | Along every run without reuse of a position, replaying the queued messages of others gives the same document for every editor; with an empty queue all editors are equal, and hold exactly the live positions. |
| `ReferenceProtocol.DispatchNeverThrows` | Resources/CRDT_LSEQ_implementation_in_c++/SharedEditor.h:125-138 | Along every such run the oldest message can be delivered to every editor. |
| `Regeneration.ReplayWithOneMore` | Resources/CRDT_LSEQ_implementation_in_c++/SharedEditor.h:125-138 | What one additional symbol in a document changes about replaying any queue: it survives untouched exactly when the queue never mentions its position. |
| `Regeneration.InsertAgreesExactly` | Resources/CRDT_LSEQ_implementation_in_c++/SharedEditor.h:36-55 | From an agreeing state, with at least one other editor, typing at any position, new or reused, leads to an agreeing state if and only if no queued message of another editor mentions the position. |
| `Regeneration.EraseAgreesExactly` | Resources/CRDT_LSEQ_implementation_in_c++/SharedEditor.h:116-123 | From an agreeing state, an erasure leads to an agreeing state if and only if the last queued operation of others on that position is not an insertion. |
| `Regeneration.RegenerationDiverges` | Resources/CRDT_LSEQ_implementation_in_c++/SharedEditor.h:46-54 | A run from the start: a symbol is typed and reaches the other editor, both erase it, the first generates the same position again in the same gap, and the replicas end up different for good. |
| `Regeneration.RunsAgreeExactly` | Resources/CRDT_LSEQ_implementation_in_c++/NetworkServer.cpp:17-31 | For whole runs of two or more editors, wherever positions come from: the replicas agree in every state if and only if every insertion and every erasure meets its condition. |
| `Regeneration.AgreementIsEquality` | Resources/CRDT_LSEQ_implementation_in_c++/NetworkServer.cpp:21-31 | With an empty queue, agreement means that all editors are equal and sorted. |
| `Documents.FitsIsCountLess` | Resources/CRDT_LSEQ_implementation_in_c++/SharedEditor.h:183-197 | A place between a smaller and a not smaller symbol is the count of smaller symbols. |
| `Documents.SortedInsertKeepsSorted` | Resources/CRDT_LSEQ_implementation_in_c++/SharedEditor.h:126-131 | Inserting a new position at the count of smaller symbols keeps the list strictly sorted. |
| `Documents.RemoveThenInsert` | Resources/CRDT_LSEQ_implementation_in_c++/SharedEditor.h:125-138 | Erasing a symbol and processing its insertion again gives the same list back. |
| `Documents.SortedUnique` | Resources/CRDT_LSEQ_implementation_in_c++/SharedEditor.h:36-55 | A strictly sorted document is determined by its set of symbols. |
| `Lines.CanonicalUnique` | Client/CRDT.cpp:544-560 | Two line structures in which just the last line is not closed by its only newline, and with the same text, are the same. |
| `Lines.CanonicalIsSplit` | Client/CRDT.cpp:544-560 | The line structure is the unique split of the flat document. |
| `Lines.InsertFlat` | Client/CRDT.cpp:544-560 | Inserting into the lines is inserting at the flat offset, also when a newline splits a line. |
| `Lines.InsertCanonical` | Client/CRDT.cpp:544-560 | It keeps the lines canonical. |
| `Lines.EraseFlat` | Client/CRDT.cpp:249-275 | Erasing from the lines is erasing at the flat offset, also when a newline's erasure merges two lines. |
| `Lines.EraseCanonical` | Client/CRDT.cpp:249-275 | It keeps the lines canonical. |
| `Lines.PlaceUnique` | Client/CRDT.cpp:562-643 | Equal flat offsets are equal places. |
| `ClientDocument.CRDT.constructor` | Client/CRDT.cpp:12-15 | A new document is valid and empty: one empty line, size -1, no counter and no strategies yet. |
| `ClientDocument.CRDT.FindInsertIndexInLine` | Client/CRDT.cpp:616-643 | Within a line that reaches the position, the search finds where it fits. |
| `ClientDocument.CRDT.FindIndexInLine` | Client/CRDT.cpp:419-448 | Within a line that reaches the position, the search returns its index, and index 0 exactly when it is absent. |
| `ClientDocument.CRDT.NarrowToLines` | Client/CRDT.cpp:587-603 | The search over lines ends with one or two neighbouring lines that enclose the position, or hits a line's last symbol. |
| `ClientDocument.CRDT.FindInsertPosition` | Client/CRDT.cpp:562-614 | The two-level search returns a place whose flat offset is the number of smaller symbols, as the flat search does. |
| `ClientDocument.CRDT.FindPosition` | Client/CRDT.cpp:368-417 | For any lines without empty ones: reports success exactly for positions within the document's range; then it points into the line that holds the position or would hold it: at the symbol itself, or at index 0 when it is absent. |
| `ClientDocument.CRDT.FindPosBefore` | Client/CRDT.cpp:155-166 | The position before any place, across line starts; empty at the beginning. |
| `ClientDocument.CRDT.FindPosAfter` | Client/CRDT.cpp:168-184 | The position behind any place, across line ends; empty at the end. |
| `ClientDocument.CRDT.InsertChar` | Client/CRDT.cpp:544-560 | Inserts into a line, or splits it at a newline. |
| `ClientDocument.CRDT.LocalInsert` | Client/CRDT.cpp:50-85 | Fails exactly for negative places and on blocked gaps, then changing nothing; otherwise the document is the old one with one symbol at the flat offset, which is broadcast: it has the typed character, style and, if it ends a line, alignment, the next counter, and a position generated in the gap on the strategies drawn so far. The lines stay in order if and only if the symbol does not go behind the newline of its line. |
| `ClientDocument.CRDT.LocalInsertGroup` | Client/CRDT.cpp:87-132 | Fails exactly for negative places and when the first gap is blocked, then changing nothing; otherwise the whole text is one contiguous slice at the starting offset, the place is just behind it, and that slice is broadcast. Its symbols have the characters in order, consecutive counters, the style and, where they end a line, the alignment; each position is generated between the one before and what follows the slice, on strategies that are kept once drawn. |
| `ClientDocument.CRDT.LocalErase` | Client/CRDT.cpp:249-275 | Removes exactly the range, merging lines, keeps the invariant and broadcasts exactly that slice in order. |
| `ClientDocument.CRDT.LocalChangeGroup` | Client/CRDT.cpp:294-351 | Restyles exactly the range and broadcasts the restyled slice, in both directions of the lines; characters, positions, counters and alignments stay; negative arguments change nothing. |
| `ClientDocument.SelectedRestyled` | Client/CRDT.cpp:294-351 | Seen from the lines: of the symbols exactly those from the start to the end, both included, get the style; when the end comes on an earlier line, the rest of the start's line and the front of the end's. |
| `ClientDocument.RestyledMeaning` | Utility/symbol.h:172-179 | Restyling changes font and colour only: character, position, counter and alignment of every symbol stay. |
| `ClientDocument.CRDT.LocalChangeAlignment` | Client/CRDT.cpp:134-149 | The last symbol of the line takes the alignment and is broadcast, with its own character, position, counter and style; nothing else changes. |
| `ClientDocument.CRDT.HandleRemoteInsert` | Client/CRDT.cpp:523-542 | The document is the sorted insertion, for any symbol; it stays valid if and only if the position is well formed and new. The place shown is where the symbol went, none for the terminator. |
| `ClientDocument.CRDT.HandleRemotePaste` | Client/CRDT.cpp:481-521 | Inserts every symbol where the order puts it, then aligns the lines of the pasted line ends; reports the first symbol's place and the text without terminators. |
| `ClientDocument.ShownParts` | Client/CRDT.cpp:506-513 | The text shown is the symbols' characters in order without terminators; the alignment pass is about the newlines and terminators in order. |
| `ClientDocument.AlignAllMore` | Client/CRDT.cpp:518-520 | The pass aligns the lines of those symbols one after the other. |
| `ClientDocument.AlignAtMeaning` | Client/CRDT.cpp:466-479 | Aligning changes the alignment of one symbol: the end of the line that holds the position or would hold it; nothing outside the document's range. |
| `ClientDocument.CRDT.HandleRemoteAlignChange` | Client/CRDT.cpp:467-479 | The line that holds the symbol, or would hold it, takes its alignment; nothing happens outside the document's range. The place where the symbol was found is reported, exactly for positions within the document's range. |
| `ClientDocument.CRDT.EraseRemote` | Client/CRDT.cpp:661-694 | What one round of the erasing loop removes, for any symbol: the symbol itself, the first symbol of the line that would hold it, or nothing outside the document's range; the round does what the symbol means if and only if the symbol is present or out of range. |
| `ClientDocument.CRDT.ChangeRemote` | Client/CRDT.cpp:699-707 | What one round of the changing loop replaces, for any symbol: the same place, and with the same exact condition. |
| `ClientDocument.CRDT.HandleRemoteErase` | Client/CRDT.cpp:656-696 | For any message that never runs out of lines: round by round as `EraseRemote` says, up to the first symbol outside the range, where it ends without telling the editor. A message of distinct present symbols before the last one removes exactly these, keeps the invariant and reports the first one's place. |
| `ClientDocument.CRDT.HandleRemoteChange` | Client/CRDT.cpp:698-710 | For any message: round by round as `ChangeRemote` says, up to the first symbol outside the range. Of a message of stored symbols every one replaces what is at its position, and the invariant is kept. |
| `ClientDocument.GeneratedFits` | Client/CRDT.cpp:58-66 | A position generated between a place's neighbours keeps the document sorted and is new; other replicas insert it at the same place. |
| `ReplayAgreement.ReplayInsert` | Client/CRDT.cpp:50-85 | A typed symbol makes an identical replica identical again: both have the old document with the symbol at its place, which the receiver shows; a blocked gap changes neither. |
| `ReplayAgreement.ReplayPaste` | Client/CRDT.cpp:87-132 | After a paste, identical replicas are identical again: both have the old document with the text, as it was formatted, at the place, or on a blocked gap the old one; the receiver shows the pasted text at the place where it was pasted. |
| `ReplayAgreement.ReplayErase` | Client/CRDT.cpp:249-275 | The same for erasing a range: both have the old document without it; the receiver reports the sender's place. |
| `ReplayAgreement.ReplayChange` | Client/CRDT.cpp:294-351 | The same for a format change: both have the old document with the range restyled. |
| `ReplayAgreement.ReplayAlignment` | Client/CRDT.cpp:134-149 | The same for an alignment change: both have the old document with the line's last symbol aligned, which the receiver finds at the sender's place. |
| `ReplayAgreement.PasteReplays` | Client/CRDT.cpp:481-512 | Inserting pasted symbols one by one where the order puts them rebuilds the contiguous text. |
| `ReplayAgreement.EraseReplays` | Client/CRDT.cpp:656-696 | Erasing a slice symbol by symbol, each looked up, cuts the slice out. |
| `ReplayAgreement.ChangeReplays` | Client/CRDT.cpp:698-710 | Replacing symbols by their restyled versions restyles the range. |
| `LateErasures.StopsBehind` | Client/CRDT.cpp:672-674 | Any message, in any order, whose stored symbols are followed by one outside the range: these go, nothing behind is erased, and the message is done if and only if nothing it names is left. |
| `LateErasures.ErasesExactly` | Client/CRDT.cpp:656-696 | Any message in document order: what is left is what the message means if and only if its stored symbols come first and the document has nothing else in front of the rest of it. |
| `LateErasures.OutsiderLost` | Client/CRDT.cpp:661-694 | A message in document order that starts with an absent symbol within the range always costs a symbol that it does not name. |
| `LateErasures.HandledExactly` | Client/CRDT.cpp:656-696 | The same of the lines that the handler leaves; on the way no search looks at an empty line or at no line, also when lines were merged at the wrong place or the last symbol went. |
| `LateErasures.SafeExactly` | Client/CRDT.cpp:249-275 | For a range erased here and one erased elsewhere the condition is: they have nothing in common, or one of them starts the document and the other client's ends first. |
| `LateErasures.EraseTwice` | Client/CRDT.cpp:656-696 | Two identical replicas each erase a range and handle each other's message: both end without the two ranges if and only if these have nothing in common, or one starts the document and they end together; which of the two goes wrong is stated too. |
| `LateErasures.OneErasedTwice` | Client/CRDT.cpp:444-447 | The smallest instance: the second erasure of a symbol takes the first symbol of the line behind it, unless the symbol was the document's first. |
| `LateChanges.StoppedExactly` | Client/CRDT.cpp:702-703 | Any message without repetitions whose stored symbols are followed by one outside the range: it is done if and only if the rest of it is there already. |
| `LateChanges.ChangedExactly` | Client/CRDT.cpp:698-710 | Any message in document order, on any lines: it does what it means if and only if, when it starts in front of the document, what it names is there already, and otherwise every absent symbol belongs right before a line that goes on and whose first symbol the message changes too. |
| `Races.ChangeSafeExactly` | Client/CRDT.cpp:294-351 | For a range changed elsewhere after a range was erased here the condition is: they have nothing in common, or the erased range starts the document and the change would do nothing behind it, or it starts a line that goes on behind it with a changed symbol. |
| `Races.EraseAndChange` | Client/CRDT.cpp:656-710 | Of two identical replicas one erases a range and the other changes one: once each has handled the other's message, their documents are equal if and only if that condition holds. |
| `Races.OneChangedLate` | Client/CRDT.cpp:444-447 | The smallest instance: a symbol that was erased here and changed elsewhere comes back in the place of the first symbol of the line behind it, unless it was the document's first. |
| `Races.ErasedFirst` | Server/server.cpp:424-436 | A change that the server handles after the erasure brings all its symbols back into the map, which then lists the right document if and only if the ranges have nothing in common. |
| `Races.ChangedFirst` | Server/server.cpp:424-436 | One that it handles before the erasure leaves the right list. |
| `Races.ChangeAgreement` | Server/server.cpp:424-439 | Both clients agree with the server if and only if, with the erasure first at the server, the ranges have nothing in common, and with the change first, the change is safe. |
| `Races.ChangeTwice` | Client/CRDT.cpp:698-710 | Two identical replicas each change a range and handle each other's message: they are identical if and only if the ranges have nothing in common or the styles are equal. |
| `PositionKey.PositionString` | Utility/symbol.h:234-248 | The loop builds the key of the position. |
| `PositionKey.KeyCharacters` | Utility/symbol.h:38-40 | An instance, character by character: digit, underscore and site, separated by comma and blank, in brackets. |
| `PositionKey.NumberStringInjective` | Utility/symbol.h:38-40 | The decimal form of integers, also negative ones, is injective. |
| `PositionKey.KeyInjective` | Utility/symbol.h:234-248 | Two positions have the same key if and only if they are equal. |
| `PositionKey.KeyFaithful` | Server/server.cpp:424-436 | After any edits the string-keyed map holds exactly what a map keyed by positions would. |
| `EndToEnd.InsertKeepsInv` | Client/CRDT.cpp:50-132 | Typing or pasting at new positions keeps the end-to-end invariant: conservation of symbols at every client and the server, causal order on all channels, documents sorted and terminated. |
| `EndToEnd.EraseKeepsInv` | Client/CRDT.cpp:249-275 | So does erasing a range that nobody else erased and that spares the terminator. |
| `Membership.JoinKeepsInv` | Server/server.cpp:946-1035 | So does a client that opens the file at any time, from the server's symbols of that moment. |
| `Membership.LeaveKeepsInv` | Server/server.cpp:1040-1072 | So does a client that leaves at any time; what the server did not receive from it is lost without harm. |
| `Delivery.ServerKeepsInv` | Server/server.cpp:395-439 | So does the server's handling and relaying of a message. |
| `Delivery.ClientKeepsInv` | Client/CRDT.cpp:481-560 | So does a client's handling of a relayed message. |
| `Delivery.ServerContents` | Server/server.cpp:424-436 | Applying a message adds exactly its inserted symbols to the server's map, or takes exactly its erased ones out. |
| `Delivery.HandlersAlwaysApply` | Client/CRDT.cpp:656-696 | Along every run, what arrives at a client meets what its handler needs: insertions are new and before the terminator, erased symbols are present. |
| `Delivery.Agreement` | Server/server.cpp:553-567 | Along every interleaving, clients joining and leaving, a client's document is exactly the sorted list of the server's symbols as soon as everything is delivered to the server and to that client. |
| `Delivery.ClientsAgree` | Client/CRDT.cpp:481-560 | All such clients have the same document, and the same lines. |
| `Delivery.NothingLost` | Server/server.cpp:424-439 | Such a client's document holds exactly what was inserted less what was erased, nothing lost and nothing twice; what a client took with it when it left counts as neither. |
| `Delivery.MayJoin` | Server/server.cpp:984-989 | In every reachable state the sorted list of the server's symbols is a document with the terminator last. |
| `Delivery.TypedCarryOne` | Client/CRDT.cpp:74-85 | In every reachable state every message of typing carries one symbol. |
| `Formatting.StepWithout` | Client/CRDT.cpp:294-351 | With changes of format and alignment on the channels too, every step is a step of the machine without them, or none, once formats are left out; every change on its way stays ahead of the erasures of its symbols. |
| `Formatting.FullAgreement` | Server/server.cpp:424-439 | Agreement with changes among the messages, clients joining and leaving: along every run in which nobody changes a symbol erased before, nor erases one while somebody else's change of it is on its way to them, a client to which everything is delivered has exactly the server's symbols, in order, but for formats. |
| `Formatting.FullHandlersApply` | Client/CRDT.cpp:698-710 | Along every such run whatever arrives at a client meets what its handler needs; the symbols of a change are stored. |
| `FormatRefinement.RestyleHere` | Client/CRDT.cpp:294-351 | A client object that restyles a range takes a changing step of the machine and keeps its invariant, unless a symbol of the range was erased. |
| `FormatRefinement.RealignHere` | Client/CRDT.cpp:134-149 | So does one that aligns a line, unless its last symbol was erased. |
| `FormatRefinement.HandleChange` | Client/CRDT.cpp:698-710 | In every reachable state the handler of a relayed change of format or alignment applies, and takes the client's step. |
| `FormatRefinement.ServeChange` | Server/server.cpp:424-439 | The server object takes the server's step for a change, stores it, marks the file and relays it to exactly the other editors. |
| `DoubleErasure.RelayedIsReached` | Client/CRDT.cpp:249-275 | Two clients that each erase a range, and the server that relays both, reach the state of the next rows. |
| `DoubleErasure.AcceptableExactly` | Client/CRDT.cpp:672-674 | There the message that a client receives meets what its handler needs if and only if the ranges have nothing in common. |
| `DoubleErasure.AgreementLost` | Client/CRDT.cpp:656-696 | There the server holds the right list; once the messages are handled, both clients agree with it if and only if the ranges have nothing in common, or one starts the document and they end together; for each client alone its own condition is stated. |
| `Refinement.TypeSymbol` | Client/CRDT.cpp:50-85 | The client object that types inserts the symbol as typed and takes an insertion step of the end-to-end machine, unless the position was used before; it fails exactly on a blocked gap, changing no document. |
| `Refinement.PasteText` | Client/CRDT.cpp:87-132 | A paste that succeeds inserts the text as typed and is one insertion step of all of it; one that fails, exactly on a blocked first gap, changes no document. |
| `Refinement.EraseRange` | Client/CRDT.cpp:249-275 | Erasing a range that nobody else erased is an erasing step, and sends exactly its slice. |
| `Refinement.HandleMessage` | Client/CRDT.cpp:481-542 | In every reachable state the handler of a relayed message applies, and takes the client's step. |
| `Refinement.ServeMessage` | Server/server.cpp:395-439 | The server object takes the server's step: the file's map takes the message, which goes to everybody else who has the file open; the file is marked as changed, no other file or list is touched, and coherence is kept. |
| `Refinement.AlignAndStore` | Server/server.cpp:553-568 | A client that aligns a line and the server that stores the message: a server map that listed the client's document lists it again. |
| `Refinement.RestyleAndStore` | Server/server.cpp:424-439 | The same for a change of format. |
| `Refinement.ReplaceAllListed` | Server/server.cpp:430-433 | Storing symbols in the place of others, one after the other, keeps a map the listing of the document with these symbols replaced. |
| `Refinement.LoadsAgreed` | Server/server.cpp:984-989 | Along every run, what a newcomer loads, in whatever order the server sends it, is the document of every client to which everything is delivered. |
| `Refinement.OpenDocument` | Client/client.cpp:371-480 | The server and client objects take the newcomer's step, from the answer's bytes to the client's lines, wherever loading is defined. |
| `Refinement.ObjectsAgree` | Client/CRDT.cpp:481-560 | Once all messages are delivered to them, client objects that hold the documents of a run have the same lines and size. |
| `FileServer.SaveLoad` | Server/server.cpp:1130-1145 | Saving a map's values in any order and loading them again gives the map back. |
| `FileServer.Server.SaveFile` | Server/server.cpp:1130-1145 | Afterwards no file is marked as changed; every changed file that the database knows is stored as memory holds it; all others are untouched. |
| `FileServer.Server.StoreSymbolsServerMemory` | Server/server.cpp:901-914 | Adds the loaded symbols to the file's map and marks it as unchanged. |
| `FileServer.Server.SendFile` | Server/server.cpp:916-1038 | Opens a file from memory or else from the database, keeps the three maps in step and the cache coherent, touches no other file or list; one picture per listed user; an unknown file is kept open although a failure is reported. |
| `FileServer.Server.ConnectedUsers` | Server/server.cpp:959-979 | Lists the other users of the file in order, each with the image stored for that very user or an empty one. |
| `FileServer.OtherUsersMember` | Server/server.cpp:959-969 | A name is listed exactly when it is another than the user's own and some worker on the file's list has it. |
| `FileServer.OtherUsersMore` | Server/server.cpp:959-969 | Names are listed worker by worker, in the order of the file's list. |
| `FileServer.ImagesAt` | Server/server.cpp:970-978 | The image at an index is the one stored for the user at that index, or empty. |
| `FileServer.Server.CreateNewFile` | Server/server.cpp:878-899 | Throws exactly when the database already has the file; otherwise keeps the cache coherent if and only if nobody had the name open in memory with symbols and a clear flag. |
| `FileServer.Server.SingleOperation` | Server/server.cpp:553-568 | Stores the symbol of an insertion or alignment change, marks the file, and relays to exactly the other editors. |
| `FileServer.Server.BulkOperation` | Server/server.cpp:424-439 | Stores or removes every symbol of the message, marks the file, and relays to exactly the other editors. |
| `FileServer.Server.Broadcast` | Server/server.cpp:171-180 | Reaches everybody who has the file open but the sender, in order. |
| `FileServer.OthersMembers` | Server/server.cpp:203-210 | The recipients are exactly the list's other members, each once. |
| `FileServer.Server.UpdateSymbolListAndCommunicateDisconnection` | Server/server.cpp:1040-1072 | Succeeds exactly for a listed worker; the last one to leave writes back every changed file that the database knows, as memory holds it, and no other, clears the flags, and drops the file from all three maps; otherwise the others are told and nothing else changes. |
| `FileServer.Server.CloseFile` | Server/server.cpp:1074-1127 | The same for closing, and nothing at all changes when the worker was not listed; otherwise it holds no file afterwards. |
| `FileServer.Server.UserDisconnected` | Server/server.cpp:223-230 | A lost connection leaves its file the same way, with the same effect on the maps and the database; afterwards the worker is on no list. |
| `FileServer.CloseThenReopen` | Server/server.cpp:1040-1072 | After the last editor closes a stored file, whoever opens it next gets exactly the symbols that were in memory. |
| `FileServer.PhantomFile` | Server/server.cpp:881-895 | How coherence is lost: an unknown file is opened and edited, saved to nowhere, and then created. |
| `Bytes.BigEndianRoundTrip` | Utility/byte_reader.h:17-34 | A number that fits its width is read back from its big-endian form. |
| `Bytes.BigEndianDigit` | Utility/byte_reader.h:17-34 | Byte by byte: counted from the end, byte i is the digit of weight 256^i. |
| `Bytes.LittleEndianRoundTrip` | Client/client.cpp:371-375 | A number that fits its width is read back from its little-endian form. |
| `Bytes.LittleEndianDigit` | Client/client.cpp:371-375 | Byte i is the digit of weight 256^i: the big-endian bytes the other way round. |
| `Bytes.SignedRoundTrip` | Utility/symbol.h:49-52 | A signed number that fits is read back from its two's complement form. |
| `Framing.ParseFrame` | Utility/byte_reader.h:93-100 | Every frame that is taken off has more than 8 bytes, so the recursion ends. |
| `Framing.ByteReader.ParseJson` | Utility/byte_reader.h:36-76 | Takes exactly the first frame off the buffer and emits its byte array, a JSON object as JSON and what is no JSON as binary; leaves everything alone when the array is incomplete; throws exactly for JSON that is no object. |
| `Framing.ByteReader.OnReadyRead` | Utility/byte_reader.h:78-102 | For any bytes: emits exactly the complete messages of the buffer in order, JSON objects as JSON and what is no JSON as binary, keeps the rest, keeps the cached length 0 or the value of the first 8 bytes. |
| `Framing.ParsedArray` | Utility/byte_reader.h:36-76 | Once its length has arrived, a frame is parsed exactly when its byte array is complete: to that array cut to the length, a null array to an empty one. |
| `Framing.DrainSorts` | Utility/byte_reader.h:62-73 | For any bytes, whatever is emitted as JSON is a JSON object, and whatever is emitted as binary is no JSON. |
| `Framing.ParseMonotone` | Utility/byte_reader.h:36-76 | More bytes behind a complete frame do not change how it is parsed. |
| `Framing.DrainInTwo` | Utility/byte_reader.h:78-102 | For any bytes, handling two chunks is handling their concatenation; after an exception nothing more is emitted. |
| `Framing.FeedChunks` | Utility/byte_reader.h:78-102 | For any division into chunks the reader emits what it would emit had all bytes come at once, and throws exactly when it would. |
| `Framing.ParseSent` | Client/client.cpp:53-60 | A sent frame is parsed to exactly its payload, whatever follows. |
| `Framing.IncompleteWaits` | Utility/byte_reader.h:93-100 | No proper prefix of a sent frame is taken for a frame. |
| `Framing.StreamPrefix` | Utility/byte_reader.h:78-102 | Any part of a sent stream from its start emits exactly its complete messages and leaves a proper prefix of the next frame. |
| `Framing.ReceiveSent` | Utility/byte_reader.h:78-102 | Chunk-invariant framing: for any messages and any chunks of what was sent so far, the reader has emitted exactly the complete messages, byte for byte and in order, each as JSON if and only if it is a JSON object, and holds a proper prefix of the next frame. |
| `Framing.EventsAt` | Utility/byte_reader.h:62-73 | There is one event per message, in order, with its bytes, and it is JSON if and only if the message is a JSON object. |
| `SymbolCodec.IdentifierRoundTrip` | Utility/symbol.h:49-58 | An identifier of 32-bit integers is read back, and exactly its bytes are consumed. |
| `SymbolCodec.FormatRoundTrip` | Utility/symbol.h:126-139 | So is a format, its alignment as 8 bytes, its strings in UTF-16. |
| `SymbolCodec.SymbolRoundTrip` | Utility/symbol.h:282-292 | So is a symbol with every field. |
| `SymbolCodec.VectorRoundTrip` | Server/server.cpp:128-130 | So is a vector of symbols of any length. |
| `SymbolCodec.TruncatedFails` | Utility/symbol.h:287-292 | Of the beginnings of a written vector only the whole is read: one that was cut short is an error, never a shorter vector. |
| `SymbolCodec.SpecialCases` | Utility/symbol.h:133-139 | A null string is read as an empty one; an odd size of a string is an error, and so is an alignment outside the enumeration. |
| `SymbolCodec.DataStream.WriteSymbol` | Utility/symbol.h:282-285 | Appends exactly the symbol's encoding to the stream. |
| `SymbolCodec.EnumerationBytes` | Utility/symbol.h:62-63 | The bytes of the three alignments and of truth values. |
| `SymbolCodec.StringBytes` | Utility/symbol.h:126-131 | The bytes of a string: its size in bytes and its UTF-16 units, high byte first. |
| `SymbolCodec.PositionBytes` | Utility/symbol.h:49-52 | The bytes of a position: its length, and of each identifier the digit and then the site. |
| `SymbolCodec.DataStream.ReadSymbol` | Utility/symbol.h:287-292 | For any bytes: takes exactly what decoding says off the stream, or sets its error status for good. |
| `SymbolCodec.DataStream.ReadSymbols` | Client/client.cpp:414-417 | The same for a vector, which is left empty on an error. |
| `Payload.CreateByteArrayFileContentImage` | Server/server.cpp:122-153 | Builds header, content and one part per image; an empty part when there are none. |
| `Payload.ImagePartsMore` | Server/server.cpp:138-151 | One part per image in order; four zero bytes when there are none. |
| `Payload.CreateByteArrayFileContent` | Client/client.cpp:682-698 | Builds header and content of a bulk edit. |
| `Payload.SliceContent` | Server/server.cpp:300-422 | For any bytes: the header, content and symbols that successive slicing yields, or which of its failures occurs. |
| `Payload.SlicesParts` | Server/server.cpp:408-422 | Of any two parts, slicing gives back the header, the content and what it decodes to; an empty content is an exception. |
| `Payload.ContentRoundTrip` | Server/server.cpp:408-422 | Slicing recovers header, content and every symbol, whatever follows; a vector without symbols is no empty content. |
| `Payload.BulkEdit` | Server/server.cpp:182-201 | A bulk edit is read as it was sent, by the server and, relayed under another header, by the other client. |
| `Payload.SliceImages` | Client/client.cpp:458-479 | For any bytes: one image per listed user in order, the default one for length 0. |
| `Payload.PicturesAt` | Client/client.cpp:458-479 | The image at an index is the one sent at that index, the default one if that is empty. |
| `Payload.OpenFile` | Client/client.cpp:371-480 | For any bytes and any header: what the client makes of an answer that opens a file, with its checks of the header and its failures. |
| `Payload.OpenedByHeader` | Client/client.cpp:371-410 | Which answers are rejected, failed, ignored and shown, exactly, by what the header says. |
| `Payload.FileRoundTrip` | Client/client.cpp:411-475 | For any header, symbols and possibly empty images, one per listed user, the client recovers all of them in order. |
| `Opening.LoadFile` | Client/client.cpp:425-434 | Inserting and aligning the received symbols from the last to the first gives the loaded document with its unique lines. |
| `Opening.LoadMore` | Client/client.cpp:425-434 | Symbol by symbol: each is inserted where the order puts it, and a newline or terminator then aligns its line. |
| `Opening.LoadingDefined` | Client/CRDT.cpp:578-583 | Loading never looks past an empty last line if and only if every newline comes after some larger symbol. |
| `Opening.LoadingUndefined` | Client/client.cpp:425-434 | A valid two-symbol document whose map order violates that condition: keys are ordered as strings. |
| `Opening.LoadContents` | Client/client.cpp:425-434 | In whatever order the symbols come, loading gives exactly these symbols, sorted, alignments unchanged. |
| `Opening.OpensServerList` | Server/server.cpp:984-989 | When the terminator is the largest symbol, the loaded document is the sorted list of the server's symbols. |
| `Opening.Join` | Server/server.cpp:946-1020 | From the server's map or database over the answer's bytes to the client: all symbols and one image per other user arrive, in order of the users; a file without symbols is ignored, and an unknown one reported as a failure; the server lists the user and keeps everything else. |
| `Opening.SecondUser` | Server/server.cpp:946-1020 | An instance of the former: the second user of a file with one symbol sees it, and the first user. |

## Left out

- Reference.NetworkServer.DispatchMessages: says nothing about the editors' documents when an editor throws midway, because the exception leaves the loop at a point that depends on the map's order.
- ClientDocument.CRDT.LocalInsertGroup: starts at a place of the text; behind a newline its first symbol would break the lines as `LocalInsert` states. Alignments as there.
- ClientDocument.CRDT.HandleRemoteInsert: requires `Searchable`; for a newline larger than everything in a document without terminator the original reads before the start of an empty line.
- ClientDocument.CRDT.HandleRemotePaste: requires new, distinct positions before the last symbol; the first occupied or malformed position leaves a document without the strict order that the next search relies on, as `HandleRemoteInsert` states.
- ClientDocument.CRDT.HandleRemoteErase: requires `Outlasts`; a message that goes on after it erased the whole document makes the original read the first of no lines. No message in document order does (`HandledExactly`).
- ClientDocument.CRDT.HandleRemoteChange: once a change of an absent symbol broke the order of positions, states only that each round overwrites some symbol; `ChangedExactly` needs no more.
- ClientDocument.CRDT.LocalInsert: states what a symbol behind the newline of its line does to the lines; the text editor does not put a cursor there. It promises no alignment for a symbol that ends no line: the original sets it only for newlines and terminators and leaves it uninitialised otherwise.
- EndToEnd.EraseKeepsInv: no symbol is erased at two sites; `DoubleErasure` states what happens otherwise, and the reference protocol does cover it.
- Refinement.EraseRange: requires that nobody else erased the range, for the same reason.
- Refinement.OpenDocument: promises nothing about the client when loading is not defined, exactly when a newline is loaded before everything larger; requires a file in memory and a worker that holds none.
- Opening.Join: requires a worker that holds no file, as `SendFile`.
- Delivery.Agreement: the channels carry insertions and erasures only; `Formatting.FullAgreement` has changes too, and speaks of everything but the formats, which do differ after simultaneous changes (`ChangeTwice`).
- Framing.ByteReader.ParseJson: lengths near 2^64, where adding 8 wraps around, are added without wrapping.
- FileServer.Server.SendFile: requires a worker that holds no file; one that still held another would stay on that file's list under a wrong name.
- FileServer.Server.CreateNewFile: requires a worker that holds no file, for the same reason.
- FileServer.Server.SingleOperation: requires that the worker holds an open file, as every other edit; the original dereferences a null map otherwise.
- SymbolCodec.DataStream.ReadSymbol: refuses alignment numbers other than the three of the enumeration; the original casts them to values the type does not have.
- SymbolCodec.DataStream.ReadSymbols: refuses them in the same way.
- User interface, cursors and remote cursors: `Client/editor.cpp` and the dialogs depend on QTextDocument.
- Sockets, TLS, threads and timers: FIFO channels and an arbitrary interleaving take their place.
- MongoDB: a map from file names to symbol lists, whose operations succeed; compression is the identity.
- JSON text: written and read by arbitrary functions, of which only what a theorem needs is required; the JSON form of single symbols is not modelled.
- Accounts, passwords, nicknames, invitations and shared links: independent of the documents.
- Login and profile payloads: the same parts as in `Payload`, with one image.
- QFont, QColor and Qt alignment flags: a style with the stored fields and an alignment are parameters.
- `localChange` of a single symbol: the receivers ignore its message type.
- Editors that connect to the reference server after the first edit: they start empty and never receive earlier messages.
- Names of files: taken as given, without the splitting into file and author.
- The server's thread load counters and the uniqueness of logins.

# Screen sharing server: the signalling hub and the QR encoder

Two parts of the program are modelled here and proved to keep what they promise.

**The signalling hub** (`ws/`, and the credential table in `turn/server.go`) is one loop that takes messages and
changes shared state: registered connections, rooms with users and sessions, TURN credentials, counters, and one
write queue per connection. A failing event is turned into a disconnect in the same turn of the loop.

- `HubModel` is the state and one turn of the loop as a function, event by event. What the loop does not decide
  itself (the result of the address lookup, a random name, the iteration order of maps, the order of equal entries
  in a roster) is a choice that is only required to be a possible one.
- `HubInvariants` says what holds between any two changes, and what no change ever undoes. `HubChanges`,
  `HubAdditions` and `HubOpenings` prove it for each single change, `HubLoops` for each loop.
- `HubBoundary` says what holds whenever the loop waits for a message. `HubEvents`, `HubArrivals` and
  `HubDepartures` prove it for each event, also for those that fail half way. `HubTheorems` puts them together for
  every run. `HubOverview` shows that the whole machine does to the rooms and their users what one short function
  says, `HubStories` what messages lead to in plain terms, `HubNames` when a room without a name comes to be, and
  `HubNameless` what exactly such a room spoils.
- `HubServer` is the program in its own form: classes `Rooms`, `Room` and `InternalServer` with maps that their
  methods update in place. Its loop is proved to go through runs of the model, so the theorems hold of it.
  `HubRefinement` has the lemmas for that, `Rosters` the sorting of room listings, `RosterOrder` what their order is.
- `Once` is the once that lets go of its lock before it runs its function, under any interleaving.

**The QR encoder** (`qr_util.py` and its Kotlin twin `QRCodeGenerator.kt`) computes over GF(256), packs bits, draws
function modules, and places and masks bits in zig-zag order.

- `BitXor`, `GaloisField` and `Tables`: the table-based product is multiplication in a field.
- `Polynomials`, `ReedSolomon` and `ReedSolomonTheorems`: the generator polynomial, the division in place, and what
  its result is.
- `BitStream` and `BitStreamTheorems`: version choice, bit packing, padding, and the matching decoder.
- `ZigZag`, `Placement`, `FunctionModules`, `Capacity` and `QrSymbol`: from code words to modules and back.
  `SymbolLooks` says what the finished symbol looks like.
  `Arithmetic` and `Collections` have facts about quotients and sizes.

## Where the code does not do what it seems to promise

- The generator polynomial has its lowest degree first, but the division takes its first entry for a leading 1. So
  data followed by check symbols does not in general vanish at the generator's roots: `RootsIff` says that it does for
  all data exactly for the degrees 0, 1 and 255, and `DegreeTwoFails` is the smallest example. What the division
  really computes is in `CodewordIdentity` and `CodewordUnique`.
- The last table version is also used for payloads that do not fit. A payload of 154 bytes, one more than the room test
  asks for, still comes back; a longer one never does (`SymbolRoundTrip`).
- The room test asks for one code word more than needed for six payload lengths, which then get a larger version
  (`ChosenIsSmallest`).
- The Python twin sets its loop variable anew from its range, so stepping over column 6 lasts for one pass: it never
  visits column 0 and goes through column 4 twice (`TwinWalk`, `TwinVisitsMembers`), and what it wrote there first is
  lost. But all data code words are placed before that, in every version (`TwinHolds`, `RightCapacitySuffices`), so its
  symbols decode all the same. At most the last 3v code words of version v, or 16 for v = 7, can be wrong, and these
  are check code words (`TwinGenerateMatrix`).
- A room can be created under the empty identifier, which is also the mark of a connection that is in no room.
  `StepNamed` and `RunNamed` say exactly when that happens, and all theorems allow for it. What it spoils: whoever
  creates a room and disconnects stays a user of it exactly if it has no name (`StaysBehind`, and `NamelessRun` from
  the start of the program). From then on a turn that joins this room writes to connections that are gone, exactly to
  those among its users (`StepSilence`, `RunSilence`). Exactly such a turn makes a user of a named room, who is also in
  this one, miss the roster of the former (`StepRosters`, `RosterMissed`). And the user counter gets too high by one
  exactly when somebody joins it who is already there (`StepSurplus`, `CountedTwice`).
- A call of the once may return before the one function has begun (`ReturnsEarly`). When a call has returned, the
  function has run exactly if the winning call has returned too (`DoneIffWinnerReturned`), which is always so if no
  two calls overlap (`DoneIfNoOverlap`).

## Model

| member | source | states |
|---|---|---|
| GaloisField.MulComm | qr_util.py:19-22 | the product of two elements does not depend on their order |
| GaloisField.MulAssoc | qr_util.py:19-22 | the product is associative |
| GaloisField.MulAddRight | qr_util.py:19-22 | the product distributes over addition, which is exclusive or |
| GaloisField.MulOneLeft | qr_util.py:19-22 | 1 is neutral |
| GaloisField.MulNonZero | qr_util.py:19-22 | a product is 0 exactly if a factor is |
| GaloisField.MulInverse | qr_util.py:7-22 | every non-zero element has an inverse, a power of 2 |
| GaloisField.GeneratorOrder | qr_util.py:7-17 | the powers of 2 come back to 1 after 255 steps and not before |
| GaloisField.LogExists | qr_util.py:7-17 | every non-zero element is one of the first 255 powers of 2, so the logarithm table has no gap |
| GaloisField.ExpInjective | qr_util.py:7-17 | the first 255 powers are different, so no logarithm is overwritten |
| Tables.FillTables | android/app/src/main/java/net/screenshare/app/QRCodeGenerator.kt:13-24 | the loop leaves the powers of 2, twice over, in one table and their exponents in the other |
| Tables.GaloisTables.GfMul | android/app/src/main/java/net/screenshare/app/QRCodeGenerator.kt:26-29 | the table look-up is shift-and-add multiplication modulo 0x11D |
| ReedSolomon.RsGeneratorPoly | android/app/src/main/java/net/screenshare/app/QRCodeGenerator.kt:31-43 | the nested loops compute the product of the factors (x + power), lowest degree first |
| ReedSolomon.CancelAt | android/app/src/main/java/net/screenshare/app/QRCodeGenerator.kt:51-56 | one round adds a multiple of the generator under the current entry, by its old value, and changes nothing else, also where it skips a zero |
| ReedSolomon.DivideInPlace | qr_util.py:38-42 | the rounds together leave the reduction of the buffer |
| ReedSolomon.RsEncode | android/app/src/main/java/net/screenshare/app/QRCodeGenerator.kt:45-62 | the check symbols are the remainder of the division of the data followed by zeros |
| ReedSolomonTheorems.GeneratorRoots | qr_util.py:24-33 | for every degree up to 255 the generator is monic at its degree, and its zeros are exactly the powers below the degree |
| ReedSolomonTheorems.GeneratorConstant | qr_util.py:24-33 | the constant term is the power with the sum of the roots' exponents |
| ReedSolomonTheorems.DivisionIdentity | qr_util.py:35-43 | for any buffer and any divisor, what is left is the buffer plus quotient times divisor |
| ReedSolomonTheorems.CodewordIdentity | qr_util.py:35-43 | data and check symbols are a multiple of the generator with its first entry replaced by 1 |
| ReedSolomonTheorems.CodewordUnique | qr_util.py:35-43 | they are the only such multiple that begins with the data |
| ReedSolomonTheorems.SystematicUnique | qr_util.py:35-43 | for a divisor that begins with 1, only the quotient clears the data |
| ReedSolomonTheorems.MonicCodeword | qr_util.py:35-43 | for any divisor that begins with 1, data and check symbols are quotient times divisor |
| ReedSolomonTheorems.MonicRoots | qr_util.py:35-43 | for any divisor that begins with 1, its roots are roots of data and check symbols |
| ReedSolomonTheorems.RootsIff | qr_util.py:24-43 | data and check symbols vanish at the generator's roots for all data of a length exactly for the degrees 0, 1 and 255 |
| ReedSolomonTheorems.RootsAtExtremes | qr_util.py:24-43 | for these degrees they vanish for all data |
| ReedSolomonTheorems.DegreeTwoFails | qr_util.py:24-43 | for degree 2 and data 1 the check symbols are 3 and 1, and 1 is no root |
| ReedSolomonTheorems.EncodeLinear | qr_util.py:35-43 | the check symbols of a sum of equally long data are the sum of the check symbols |
| BitStream.ChooseSpec | qr_util.py:59-60 | the first version with three code words to spare is chosen, or else the last |
| BitStream.PushBits | qr_util.py:63-65 | a value is appended as bits, highest first, and nothing for a negative length |
| BitStream.PushContent | qr_util.py:67-70 | mode, length and payload make up the content |
| BitStream.PushTerminator | qr_util.py:72-77 | at most four zero bits, none if there is no room, then zero bits up to a whole byte |
| BitStream.PushPads | qr_util.py:79-83 | pad bytes fill what room there is |
| BitStream.PackBits | qr_util.py:62-83 | all of this in order is the packed stream |
| BitStream.CollectBytes | qr_util.py:85-90 | eight bits make a byte, highest first |
| BitStreamTheorems.BytesOfBits | qr_util.py:85-90 | bytes written as bits and collected again are the same bytes |
| BitStreamTheorems.BitsOfBytes | qr_util.py:85-90 | whole bytes of bits collected and written again are the same bits |
| BitStreamTheorems.DecodeContent | qr_util.py:67-70 | what a byte-mode decoder reads from any stream that begins with the content, also if the length does not fit its field or the stream is cut short |
| BitStreamTheorems.StreamRoundTrip | qr_util.py:55-90 | decoding the data code words gives the payload back exactly if it has at most 154 bytes |
| BitStreamTheorems.PackedWhenFits | qr_util.py:72-90 | a stream that fits has exactly the version's number of bytes, the unused ones alternating 0xEC and 0x11 |
| BitStreamTheorems.PackedBytes | qr_util.py:67-90 | all bytes of a stream that fits: mode 4 and length in halves of a byte, so that the payload is shifted by half a byte, four zero bits at its end, then the pad bytes |
| BitStreamTheorems.PackedWhenTooLong | qr_util.py:72-90 | one that does not fit has two bytes more than the payload |
| BitStreamTheorems.ChosenIsSmallest | qr_util.py:59-60 | every payload of at most 154 bytes fits the chosen version, and the version is the smallest possible except for six lengths |
| ZigZag.WalkInjective | android/app/src/main/java/net/screenshare/app/QRCodeGenerator.kt:197-219 | no step of the walk is off the grid, in column 6, or at a cell of another step |
| ZigZag.WalkSurjective | android/app/src/main/java/net/screenshare/app/QRCodeGenerator.kt:197-219 | every cell outside column 6 is visited |
| ZigZag.WalkBegins | android/app/src/main/java/net/screenshare/app/QRCodeGenerator.kt:193-202 | the walk begins in the last row and column |
| ZigZag.WalkNext | android/app/src/main/java/net/screenshare/app/QRCodeGenerator.kt:197-219 | from the right cell of a pair of columns it goes to the left one, from there to the right one of the row above or below, and at the edge to the next two columns in the same row |
| ZigZag.DataCellsMembers | android/app/src/main/java/net/screenshare/app/QRCodeGenerator.kt:199-203 | the cells that get bits are the ones outside the function mask, each once |
| ZigZag.TwinWalk | qr_util.py:143-148 | the Python passes reach exactly the columns other than 0 and 6, and exactly column 4 in two of them |
| ZigZag.RightCellsMembers | android/app/src/main/java/net/screenshare/app/QRCodeGenerator.kt:197-203 | the bits of the first passes, before the walk meets column 6, go to exactly the free cells right of it, each once |
| Placement.Visit | android/app/src/main/java/net/screenshare/app/QRCodeGenerator.kt:202-214 | a free cell gets the next bit of the code words, false once they run out, and the two counters move one bit on; a function cell, and every other cell, is untouched |
| Placement.PlacePass | android/app/src/main/java/net/screenshare/app/QRCodeGenerator.kt:200-216 | one pass over two columns, up or down, appends its free cells to the visits, and every cell holds the bit of its last visit so far |
| Placement.PlaceBits | android/app/src/main/java/net/screenshare/app/QRCodeGenerator.kt:193-219 | after the loops every cell holds the bit of its visit in the whole walk, and cells that the walk skips are as before |
| Placement.TwinPlaceBits | qr_util.py:139-158 | the Python loop, which sets its variable anew from the range: every cell holds the bit of its last visit in that loop's own passes |
| Placement.TwinVisitsMembers | qr_util.py:143-157 | its passes bring a bit to exactly the free cells outside columns 0 and 6 |
| Placement.WalkHolds | android/app/src/main/java/net/screenshare/app/QRCodeGenerator.kt:193-219 | in the Kotlin walk the i-th free cell holds bit i, and function cells are as before |
| Placement.TwinsAgree | qr_util.py:143-158 | up to the pass that meets column 6 both walks visit the same cells in the same order |
| Placement.TwinHolds | qr_util.py:139-158 | in the Python walk the free cells right of column 6 hold the same bits as in the Kotlin one, and function cells and column 0 are as before |
| FunctionModules.SetFunc | android/app/src/main/java/net/screenshare/app/QRCodeGenerator.kt:135-140 | a cell inside the grid gets the value and is marked, a cell outside is ignored, and nothing else changes |
| FunctionModules.DrawFinder | android/app/src/main/java/net/screenshare/app/QRCodeGenerator.kt:142-153 | exactly the cells of the finder and its border that are on the grid are marked, with a dark ring around a dark square, and nothing else changes |
| FunctionModules.DrawTiming | android/app/src/main/java/net/screenshare/app/QRCodeGenerator.kt:159-162 | exactly the timing cells between the finders are marked, every other one dark, and nothing else changes |
| FunctionModules.DrawAlignments | android/app/src/main/java/net/screenshare/app/QRCodeGenerator.kt:164-177 | exactly the alignment squares that do not meet a finder are marked, with a dark ring around a dark cell each, and nothing else changes |
| FunctionModules.OnePattern | android/app/src/main/java/net/screenshare/app/QRCodeGenerator.kt:164-177 | a cell is in at most one alignment pattern, so the order of drawing them makes no difference |
| FunctionModules.ReserveFormat | android/app/src/main/java/net/screenshare/app/QRCodeGenerator.kt:179-191 | exactly the format cells are marked, the newly marked ones light but for the dark module; marked ones keep their colour |
| FunctionModules.DrawFunctionModules | android/app/src/main/java/net/screenshare/app/QRCodeGenerator.kt:155-191 | the mask is exactly the set of function cells of the version, and every cell has the colour of the pattern it belongs to |
| Capacity.CapacitySuffices | android/app/src/main/java/net/screenshare/app/QRCodeGenerator.kt:73-81 | in every version of the table there are free cells for all code words, and data and check code words add up |
| Capacity.CapacityIs | android/app/src/main/java/net/screenshare/app/QRCodeGenerator.kt:73-81 | how many free cells each version has: exactly those its code words need, and 7 more in versions 2 to 6, 36 more in version 7 |
| Capacity.TableShape | android/app/src/main/java/net/screenshare/app/QRCodeGenerator.kt:73-81 | the size is 17 and 4 for each version, data and check code words add up, and the outer alignment patterns are 6 modules from the edges |
| Capacity.RightCapacitySuffices | qr_util.py:45-53 | in every version the free cells right of column 6 are enough for all data code words, and for all code words of version v but the last 3v, or 16 for v = 7; and they come first in the walk |
| QrSymbol.MakeCodewords | android/app/src/main/java/net/screenshare/app/QRCodeGenerator.kt:118-130 | the code words are the packed bytes followed by their check symbols |
| QrSymbol.FillModules | android/app/src/main/java/net/screenshare/app/QRCodeGenerator.kt:132-219 | the free cells hold the code words in zig-zag order, and the function cells their patterns |
| QrSymbol.TwinFillModules | qr_util.py:95-158 | with the Python loop the free cells right of column 6 hold them, and the function cells their patterns |
| QrSymbol.ApplyMask | android/app/src/main/java/net/screenshare/app/QRCodeGenerator.kt:221-230 | free cells are flipped where row and column add up to an even number, function cells are copied |
| QrSymbol.Checkerboard | android/app/src/main/java/net/screenshare/app/QRCodeGenerator.kt:227 | the mask is a checkerboard that flips the first cell |
| QrSymbol.WriteFormat | android/app/src/main/java/net/screenshare/app/QRCodeGenerator.kt:232-243 | the format bits are where the code puts them, and no other cell changes |
| QrSymbol.FinishMatrix | android/app/src/main/java/net/screenshare/app/QRCodeGenerator.kt:221-243 | after mask and format bits, what any free cells held can be read back, and all patterns and format bits are in place |
| QrSymbol.GenerateMatrix | android/app/src/main/java/net/screenshare/app/QRCodeGenerator.kt:83-243 | in zig-zag order the i-th free cell is dark if bit i of the code words is set, and the other way round exactly where row and column add up to an even number; all patterns are in place; decoding gives the payload exactly up to 154 bytes |
| QrSymbol.TwinGenerateMatrix | qr_util.py:55-186 | the Python matrix holds the data code words, with all patterns in place; decoding it gives the payload exactly up to 154 bytes; its code words can differ from those computed only among the last 3v of version v, or 16 for v = 7, which are check code words |
| QrSymbol.SymbolRoundTrip | android/app/src/main/java/net/screenshare/app/QRCodeGenerator.kt:83-243 | up to 154 bytes exactly the code words of the payload are read from any such matrix, with the version told by its size; and decoding gives the payload exactly up to 154 bytes |
| QrSymbol.SymbolDecodes | android/app/src/main/java/net/screenshare/app/QRCodeGenerator.kt:83-243 | any matrix of a version's size whose first free cells carry the data code words of a payload decodes to it exactly if the payload has at most 154 bytes |
| QrSymbol.TwinReads | qr_util.py:139-166 | a matrix whose free cells right of column 6 hold the bits has all code words but those |
| QrSymbol.SymbolInjective | android/app/src/main/java/net/screenshare/app/QRCodeGenerator.kt:83-243 | payloads of at most 154 bytes with the same matrix are the same |
| SymbolLooks.FinderShown | android/app/src/main/java/net/screenshare/app/QRCodeGenerator.kt:142-157 | in a finished symbol the three finders are as pictured module by module, with a light border |
| SymbolLooks.AlignmentShown | android/app/src/main/java/net/screenshare/app/QRCodeGenerator.kt:164-177 | and so is every alignment pattern that is drawn |
| SymbolLooks.LeftOutIfOverlapping | android/app/src/main/java/net/screenshare/app/QRCodeGenerator.kt:167-169 | a pattern of the table is left out exactly if it would overlap a finder or its border |
| SymbolLooks.TimingShown | android/app/src/main/java/net/screenshare/app/QRCodeGenerator.kt:159-162 | every other module of the timing lines is dark, beginning next to the finders, also where an alignment pattern covers them |
| SymbolLooks.FormatBits | android/app/src/main/java/net/screenshare/app/QRCodeGenerator.kt:232-233 | the fifteen format bits one by one |
| SymbolLooks.FormatWord | android/app/src/main/java/net/screenshare/app/QRCodeGenerator.kt:232 | with the QR standard's fixed pattern taken off they are a multiple of its generator, and announce level L and the mask that is applied |
| HubChanges.CloseConnectionKeeps | ws/event_disconnected.go:22-23 | closing a connection keeps the invariant between changes and undoes nothing |
| HubChanges.CloseSessionKeeps | ws/room.go:85-92 | so does closing a session, with its two credentials and its counter |
| HubChanges.EndSessionKeeps | ws/event_disconnected.go:45-60 | so does ending a session after telling its other end, whose trace ends there |
| HubAdditions.RelayKeeps | ws/event_hostoffer.go:31-35 | so does relaying a message from one end to the other |
| HubAdditions.RemoveUserKeeps | ws/event_disconnected.go:42-43 | so does removing a user who is no longer registered and has no session |
| HubAdditions.DropRoomKeeps | ws/rooms.go:135-141 | so does dropping a room without sessions, with all its users counted as left |
| HubAdditions.AddUserKeeps | ws/event_join.go:35-45 | so does putting a connection that is in no room into one |
| HubAdditions.SetUserKeeps | ws/event_name.go:19 | so does changing a user's name or streaming flag |
| HubOpenings.ConnectedKeeps | ws/event_connected.go:5-8 | so does registering a new connection |
| HubOpenings.AddRoomKeeps | ws/event_create.go:61-81 | so does adding a room with its owner, under whatever identifier |
| HubOpenings.OpenSessionKeeps | ws/room.go:36-67 | so does opening a session: a fresh identifier, credentials for both ends, and one message to each end |
| HubLoops.NotifyAllInforms | ws/room.go:99-132 | after the rosters are sent, the last one of everyone addressed is the one made for them, and nobody else's changed |
| HubLoops.OpenAllPairs | ws/event_share.go:24-29 | the loop opens sessions with exactly the partners it runs over, all in the right direction |
| HubLoops.OpenAllKeeps | ws/event_join.go:52-57 | it keeps the invariant and leaves older sessions and everyone's rosters alone |
| HubLoops.EndAllKeeps | ws/event_stop_share.go:24-32 | the loop ends exactly the sessions it runs over and keeps the invariant |
| HubLoops.EndAllTells | ws/event_stop_share.go:25-31 | the other end of each of them is told |
| HubLoops.CloseAllKeeps | ws/rooms.go:136-138 | closing sessions in a loop writes nothing and keeps the invariant |
| HubLoops.KickAllKeeps | ws/event_disconnected.go:62-66 | every member is unregistered and sent the close message, and nothing else changes |
| HubBoundary.Notified | ws/room.go:99-132 | rosters of a named room reach exactly its users and no user of another named room; those of the room without a name reach its own users only |
| HubBoundary.InvNoDangling | ws/event_clientice.go:24-35 | under the invariant every user that a handler takes for granted is there |
| HubEvents.ConnectedHandled | ws/event_connected.go:5-8 | a new connection leaves the hub in order |
| HubEvents.RelayHandled | ws/event_clientanswer.go:18-38 | a relay message leaves the hub in order, or fails and leaves it in order but for its sender |
| HubEvents.NameHandled | ws/event_name.go:13-23 | so does a change of name |
| HubEvents.ShareHandled | ws/event_share.go:11-33 | so does starting to share: sessions and rosters are complete, and where the lookup fails all but the sharer's own are |
| HubEvents.ShareCovered | ws/event_share.go:24-29 | sessions to everyone else are what a new streamer lacks; sharing again repeats pairs but adds and loses none |
| HubEvents.StopHandled | ws/event_stop_share.go:17-36 | so does ceasing to share, and each ended session is announced |
| HubArrivals.JoinHandled | ws/event_join.go:18-60 | so does joining, also where the lookup fails half way |
| HubArrivals.JoinCovered | ws/event_join.go:52-57 | sessions from everyone who streams are what a new member lacks |
| HubArrivals.CreateHandled | ws/event_create.go:25-83 | so does creating a room, or joining it where it exists |
| HubDepartures.LeaveHandled | ws/event_disconnected.go:20-77 | a disconnect, also after a failed event, puts the whole hub in order again and announces every session it ends |
| HubDepartures.OwnerGoes | ws/event_disconnected.go:62-69 | if the owner's leaving closes the room, every member is unregistered and gets the close message, the room is gone, each ended session is announced, and the hub is in order |
| HubDepartures.SomeStay | ws/event_disconnected.go:76 | if the room stays, those left get new rosters and keep a complete set of sessions |
| HubDepartures.NobodyStays | ws/event_disconnected.go:71-74 | if nobody is left the room is gone, nothing more is written, and the hub is in order |
| HubTheorems.StepKeeps | ws/rooms.go:98-111 | every message, whatever identifiers it carries, takes a state in order to a state in order, undoes nothing, and ends no session silently |
| HubTheorems.RunKeeps | ws/rooms.go:98-111 | in every state of every run the invariant holds and no handler misses a user it takes for granted |
| HubTheorems.RunEvolves | ws/rooms.go:98-111 | what is closed at one point of a run is closed and silent at every later point: sessions always, connections unless they are users of the room without a name |
| HubTheorems.RunAnnounces | ws/event_disconnected.go:45-69 | whenever a turn ends a session, each end other than the cause is told of it, or of the end of its connection, in that turn |
| HubTheorems.SessionLife | ws/room.go:36-67 | in every run each session gets one HostSession and one ClientSession first, in a TURN room with the TURN servers and the receiver's own user name, in a STUN room with the STUN servers, else with none; offers and candidates of the host relayed to the client only, answers and candidates of the client to the host only; at most one EndShare, at the very end, and none while it lives |
| HubTheorems.LiveCredentials | ws/room.go:51-66 | while a session of a TURN room lives, the user name each end was sent is in the table with that end's address |
| HubStories.SessionStory | ws/room.go:36-67 | in every run each session was opened in a turn in which exactly the addresses were looked up that its ends were told of, in a room of the mode that decided its servers |
| HubTheorems.ClosedForever | ws/room.go:85-92 | a closed session never lives again and nothing carrying its identifier is sent any more |
| HubTheorems.RelayDelivers | ws/event_hostice.go:18-38 | a message is relayed, unchanged and to the other end, exactly if its session is live and its sender the right end, which is the host for HostOffer and HostICE and the client for ClientAnswer and ClientICE; nothing changes exactly if the sender's room does not know the session; the sender is disconnected exactly if in no room or the wrong end |
| HubTheorems.CloseIsFinal | ws/rooms.go:100-104 | in every run a connection has been sent a close message exactly if it is no longer registered, and then only one; it is the last entry of its queue, but for room infos of the room without a name to that room's users |
| HubTheorems.GoneForGood | ws/rooms.go:100-104 | in every run, once a connection is gone it stays gone, and any later message of it leaves the whole state unchanged |
| HubTheorems.QueueIsFrozen | ws/rooms.go:98-104 | and nothing is written to its queue any more, if it is not a user of the room without a name |
| HubTheorems.Agreement | ws/rooms.go:57-71 | a connection is registered for a named room exactly if it is one of its users |
| HubTheorems.OneRoomOnly | ws/event_join.go:19-21 | nobody is in two named rooms |
| HubTheorems.CredentialTable | turn/server.go:138-152 | in every run a user name is in the table exactly if it is an end of a live session of a TURN room, with that user's address |
| HubTheorems.Conservation | ws/rooms.go:135-141 | in every run created minus closed are the live rooms and sessions, and joined minus left the connections that are in a room, the users of the room without a name, and the joins of that room by who was there already |
| HubTheorems.RosterShape | ws/room.go:100-110 | a roster lists each user once and marks exactly one entry as the reader |
| RosterOrder.NameOrder | ws/room.go:124 | the name order in plain terms: no name comes before a proper prefix of itself, or before one that is smaller at the first difference |
| RosterOrder.OrderIsPlain | ws/room.go:112-125 | a listing is sorted exactly if owners come first, then who streams, then by name |
| RosterOrder.RosterIsPlain | ws/room.go:99-132 | a roster is exactly such a listing of every user once, as they are, with the reader marked |
| HubTheorems.RoomsInOrder | ws/event_disconnected.go:62-76 | in every run each named room has a user, at most one owner, and its owner if it is to close with them; its sessions are from those who stream to everyone else; and the last roster a user was sent shows the room as it is exactly unless it is that of the room without a name, which only its users are sent; what it shows, and in what order, is spelled out |
| HubNames.StepNamed | ws/event_create.go:25-83 | after a turn all rooms have names exactly if they had before and the message was not an accepted one that creates a room without |
| HubNames.RunNamed | ws/event_create.go:25-83 | so in every run all rooms have names until, and only until, one is created without |
| HubNames.Founded | ws/event_create.go:61-81 | an accepted creation, with a name or without, leaves the hub in order with exactly one new room, its creator in it and registered for it |
| HubNames.StaysBehind | ws/event_disconnected.go:24-28 | someone registered for no room creates one and disconnects: they are unregistered, and still a user of some room exactly if the room was created without a name, or they were in such a room before |
| HubNames.NamelessRun | ws/event_create.go:25-83 | from the initial state, connecting, creating a room without a name and disconnecting leaves a user in the room and nobody connected |
| HubNameless.StepWrites | ws/rooms.go:98-111 | rosters of the room without a name are written only in turns that join or create it |
| HubNameless.JoinInforms | ws/event_join.go:42-50 | a join of it writes its roster to all its users, as the last room info they are sent, also where the lookup fails after that |
| HubNameless.StepSilence | ws/event_join.go:18-60 | a turn writes to a connection that is gone exactly if it joins the room without a name and the connection is one of its users |
| HubNameless.RunSilence | ws/rooms.go:98-111 | so between two points of a run nothing is written to a connection that is gone exactly if it is not a user of that room or no turn between joins it |
| HubNameless.StepRosters | ws/room.go:99-132 | a user who stays in a named room, and knows it as it is, no longer does after a turn exactly if the turn joins the room without a name and they are in that one too |
| HubNameless.StepSurplus | ws/event_join.go:35-45 | a turn makes the user counter too high by one exactly if it joins the room without a name for somebody who is in it already, and is right in every other |
| HubNameless.UsersCounted | ws/rooms.go:98-111 | in every run joined minus left are the connections in a room, the users of the room without a name, and the number of such turns; with named rooms only, the first alone |
| HubNameless.CountedTwice | ws/event_join.go:19-45 | from the initial state, connecting, creating a room without a name and joining it counts one user twice |
| HubNameless.RosterMissed | ws/room.go:99-132 | from the initial state, a user of that room who also creates a named one misses the roster of the latter once somebody else joins the former |
| HubOverview.StepHalls | ws/rooms.go:98-111 | one turn of the loop does to rooms and users exactly what one loop-free function of the message says, whatever the iteration orders |
| HubOverview.RunHalls | ws/rooms.go:98-111 | the same for every message of every run |
| HubOverview.LeaveHalls | ws/event_disconnected.go:42-76 | a disconnect removes one user, or the whole room if the owner closes it or nobody is left |
| HubOverview.JoinUndone | ws/event_join.go:47-50 | a join that fails half way and is turned into a disconnect leaves no trace in the rooms, exactly if the room has a name |
| HubStories.CreateDecided | ws/event_create.go:25-83 | who is in no room and asks for one that is not there gets it exactly if no login is asked for, or they are logged in, or logins are asked for TURN only and the room is local or STUN, and never under an unknown mode of authentication; otherwise nothing changes but that they are gone |
| HubStories.RoomStory | ws/event_create.go:45-78 | in every run every room was created by an earlier message that asked for one of its kind, from somebody who may |
| HubStories.NameStory | ws/event_join.go:27-33 | in every run a user is called what they last renamed themselves to in the room, or else by their login if logged in, as they asked if not, and only where that is empty by a random name |
| HubStories.Farewell | ws/rooms.go:106-109 | a turn disconnects its sender exactly if they said so or were refused; the last they are sent is the code and reason they gave, or 1000 and why they were refused, which is spelled out for every message |
| HubStories.LastWords | ws/event_disconnected.go:20-23 | a connection that goes is sent its close message and nothing else in that turn |
| HubStories.StepOrder | ws/event_join.go:44-57 | a join that succeeds writes the rosters before the new sessions; every other turn, but for a join that fails, writes the rosters last |
| Rosters.SortRoster | ws/room.go:112-125 | a permutation of the entries with owners first, then who streams, then by name |
| Rosters.MakeRoster | ws/room.go:101-125 | the sorted listing of all users as one of them sees it, in plain terms too |
| Rosters.NotBefore | ws/room.go:112-125 | the comparison is a total order up to ties, as sorting needs |
| HubServer.InternalServer.Allow | turn/server.go:138-145 | one entry of the table is set, with the address and the key of the password |
| HubServer.InternalServer.Disallow | turn/server.go:147-152 | one entry of the table is removed |
| HubServer.InternalServer.Credentials | turn/server.go:173-177 | the user name is allowed for the address, with the key of the password that is returned with it, whatever that is |
| HubServer.InternalServer.Authenticate | turn/server.go:158-171 | a user name is let in exactly if it is in the table, with the key that is stored there |
| HubServer.Room.NewSession | ws/room.go:36-67 | the method does what the model's single change does, servers and user names included |
| HubServer.Room.CloseSession | ws/room.go:85-92 | the method does what the model's single change does |
| HubServer.Room.NotifyInfoChanged | ws/room.go:99-132 | every user is sent their sorted roster, in some order |
| HubServer.Rooms.constructor | ws/rooms.go:19-44 | a new hub is in the model's initial state |
| HubServer.Rooms.CurrentRoom | ws/rooms.go:57-71 | the room of a connection, which does have it among its users, or the reason why there is none |
| HubServer.Rooms.Connect | ws/event_connected.go:5-8 | the connection is registered in no room |
| HubServer.Rooms.Create | ws/event_create.go:25-83 | the method goes through the model's branches, with the same errors |
| HubServer.Rooms.Join | ws/event_join.go:18-60 | the method goes through the model's branches, also where it fails half way |
| HubServer.Rooms.Name | ws/event_name.go:13-23 | the method does what the model's event does |
| HubServer.Rooms.StartShare | ws/event_share.go:11-33 | the method does what the model's event does, also where it fails half way |
| HubServer.Rooms.StopShare | ws/event_stop_share.go:17-36 | the method does what the model's event does |
| HubServer.Rooms.EndHosted | ws/event_stop_share.go:24-32 | exactly the sessions hosted by the user are ended, though the map shrinks while it is ranged over |
| HubServer.Rooms.RelayMessage | ws/event_clientice.go:18-38 | the method does what the model's event does; the other three relay handlers differ only in the direction |
| HubServer.Rooms.EndSessionsOf | ws/event_disconnected.go:45-60 | exactly the sessions of the dropped user are ended, though the map shrinks while it is ranged over |
| HubServer.Rooms.KickMembers | ws/event_disconnected.go:63-66 | every remaining member is unregistered and sent the close message |
| HubServer.Rooms.CloseRoom | ws/rooms.go:130-142 | all sessions of the room are closed and the room is gone; an unknown room is ignored |
| HubServer.Rooms.Disconnect | ws/event_disconnected.go:20-77 | the method, in its own order of steps, does what the model's disconnect does |
| HubServer.Rooms.Handle | ws/rooms.go:99-110 | one message is one turn of the model, for some possible choice, and keeps the invariant; so a turn is always possible |
| HubServer.Rooms.Start | ws/rooms.go:98-111 | whatever messages come in, in any order and with any room identifiers, the loop goes through a run of the model |
| HubRefinement.RemoveThenEnd | ws/event_disconnected.go:42-60 | dropping the user before or after a session is ended makes no difference |
| Once.InvNext | ws/once.go:19-36 | every atomic step of any call keeps the invariant |
| Once.AtMostOnce | ws/once.go:19-36 | for any number of callers and any schedule at most one function begins, so there is at most one disconnect message and one close frame |
| Once.ExactlyOnce | ws/client.go:72-91 | once all calls have returned, exactly one function has run to its end, with a disconnect message exactly if it was that of an error |
| Once.Progress | ws/once.go:19-36 | there is no deadlock: while some call has not returned, some call can take a step, and has fewer left after it |
| Once.DoneIffWinnerReturned | ws/once.go:19-36 | in every schedule, when some call has returned there is a winning call, and one function has run to its end exactly if that call has returned |
| Once.DoneIfNoOverlap | ws/once.go:19-36 | if no two calls overlap, then whenever a call has returned one function has run to its end |
| Once.ReturnsEarly | ws/once.go:28-36 | where calls do overlap, one may return while the winner's function has not even begun |

## Left out

- HubServer.Rooms.Handle: a write always reaches its queue; the two-second time limit after which the source drops a message is not modelled, and neither is the Health event.
- HubServer.Rooms.Start: requires what the rest of the program guarantees of its messages: that the first one of a connection, and no other, skips the check, and that connection identifiers are not reused.
- HubServer.InternalServer.Credentials: the password is any string, as the source draws it at random, and the key is what it is derived from, not the hash; the lock is left out, since the table is modelled from the one goroutine that writes it.
- HubServer.Room.NewSession: the ICE servers in a message are represented by the addresses, the kind of server and the user name they are made from, without the password; the external TURN server, which keeps no table, is not modelled.
- Users and sessions are values in the maps of a room, not objects of their own: the source shares no pointer to them between maps, so aliasing is not captured.
- Rosters.SortRoster: the library's sort is not specified beyond its result; an insertion sort stands for it, and the model allows any sorted order.
- Names are compared character by character, which stands for the source's comparison byte by byte.
- HubServer.Rooms.Create: random user names and the outcome of the address lookup are inputs.
- Once.AtMostOnce: the function is two effects, starting the goroutine that sends the disconnect message and writing the close frame; sockets are not part of this model.
- QrSymbol.WriteFormat: says where the code writes the format bits, not that this is where the QR standard wants them; the code has rows and columns the other way round.
- QrSymbol.SymbolRoundTrip: is a round trip with a decoder that reads what this encoder writes; it is no conformance claim, as the larger versions use a single block and version 7 has no version information.
- Tables.FillTables: the last two of the 512 entries stay zero, as in the source, and are never looked up.
- QrSymbol.GenerateMatrix: begins with the payload's bytes, as the UTF-8 encoding is the library's, and ends with the matrix, as the drawing of pixels is left out.
- QrSymbol.TwinGenerateMatrix: up to the code words and from the mask on the Python twin does the same as the Kotlin one and shares its methods; cells that hold nothing in Python are false. Which of the endangered check code words do differ depends on the payload.
- Sockets, HTTP routing, JSON, ping timers, cookies, passwords, configuration, port ranges, the browser, the Android services and the desktop programs are input and output or small beside these two parts.

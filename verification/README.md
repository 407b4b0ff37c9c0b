# Caddis, verified models of its ledger, leases and deliberation engine

A Dafny 4.11 project that models five components of the repository and proves what they promise.
`dafny verify dfyconfig.toml` checks all of it.

**The append-only ledger** (`crates/caddis-core`). `LedgerRow.dfy` is the row codec: the escaping, the
elision to a byte budget, the finished row, and the reader that recovers a number from a line.
`Ledger.dfy` is the counter: recovery by maximum, the windowed re-read, and `append` on a handle object.
`LedgerProtocol.dfy` interleaves any number of processes that open, lock, append and leave, one
file-system operation at a time, with crashes between any two. A run keeps two processes from being inside
at once, and its numbers consecutive up to the last 64-bit one, when every lock it breaks is broken with
nobody inside and every entry past the lock finds nobody inside and the file still there; and that
condition is exact: after the first step outside it two can get in. `LedgerRepeats.dfy` says of every run,
guarded or not, when a number is issued twice and when a handle jumps over a row.

**The lease store** (`crates/caddis-bitynas`). `Lease.dfy` is the record, the journal rows and their fold,
the resource types; `LeaseOps.dfy` says what each operation answers, journals and leaves;
`LeaseStore.dfy` is the object whose methods do it step by step. `LeaseRuns.dfy`, `LeaseSafety.dfy` and
`LeaseJoin.dfy` hold the theorems over runs: index equals fold, replay after a crash anywhere, holders,
preemptions, and when one question has one live consultation.

**The deliberation engine** (`crates/caddis-deliberate`). `Caps.dfy` is the cap law and the greedy wave
planner; `Seats.dfy` and `Disjoint.dfy` the selection order, the floors, the strict quorum pool and the
vetted reserve; `Votes.dfy` collection, the disagreement map and the majority ruling; `Sessions.dfy`
convening, the gate and re-dispatch chains; `Executor.dfy` the run of a session, wave by wave, and
`Refusals.dfy` what a wave leaves behind when one of its legs stops the run.

**The edit protocol** (`edits.rs`). `EditJournal.dfy` is the journal's rows, their parser and the fold;
`EditDesk.dfy` the three verbs as an object; `Edits.dfy` every interleaving of their steps with writers
that take no lock, with crashes, and with the operator who removes the lock file afterwards;
`Confirms.dfy` when a confirm errs although its card has landed.

**The codecs.** `Json.dfy` is the grammar and the writer, `JsonParser.dfy` the recursive-descent parser
and the pushing writer as objects and loops proved against it, `JsonRoundTrip.dfy` the round trip.
`Flat.dfy` shows that the hand-written encoders write what the JSON writer would; `Protocols.dfy` uses
it for the canonical protocol text, `CardStream.dfy` and `Cards.dfy` for the card stream,
`CardHome.dfy` for the digest-checked view, `QuorumRows.dfy` for the quorum's ledger row and
`RowFloors.dfy` for the majority it names. `Text.dfy`
and `BTree.dfy` hold strings, lines, trimming and ordered keys, `Decimals.dfy` decimal numbers, the
digits that write them, and the rounding of a 64-bit count read through a double.

**What the answers are.** A method proved against a function is worth what is known of the function. These
files say what every answer is in terms of the inputs and outputs alone, without the functions that compute
it: `JsonGrammar.dfy` gives the grammar of JSON as a relation and shows the parser decides it, surrogate
quirk, exponents, blanks, depth and all, and `JsonWriter.dfy` that the writer wastes nothing; `LedgerJson.dfy`
and `LedgerReader.dfy` say what a ledger row carries and which lines count; `LeaseAnswers.dfy` every answer of
the lease store; `JournalRows.dfy`, `JournalLaws.dfy`, `DeskLaws.dfy` and `EditRuns.dfy` which lines are
journal rows, what they fold to, every answer of the three verbs, and that a refusal is final over every run;
`CardLaws.dfy` and `CardView.dfy` which lines are cards, which line breaks a stream, and what the view shows;
`SeatLaws.dfy` that no panel or pool takes a dearer seat than one it leaves out; `CapsLaws.dfy` the first row
that breaks the cap law, and that the plan is the only cut of its kind; `VoteLaws.dfy` and `RowLaws.dfy`
ballots, rulings and the rows that record them; `SessionLaws.dfy` when convening and re-dispatching succeed;
`RunLaws.dfy` the answer and the rows of every run. `Lexical.dfy`, `Members.dfy`, `Doubles.dfy` and
`TextLaws.dfy` hold what these share: the order of strings, JSON members by name, the nearest double, trimming
and lines.

Two parts of the system enter as parameters. A digest is any function from text to text; where a
theorem needs it not to confuse two texts, it says so for just the texts at hand. What the warden ledger
reports of an actor is a value (`Warden.dfy`).

## Where the code and its documentation differ

The model follows the code.

- `json.rs:8` and `json.rs:266` say surrogate pairs are read. Every pair of `\u` escapes that section 7
  of RFC 8259 allows is refused, and two halves with one byte between them are accepted
  (`JsonRoundTrip.RfcEscapeRead`, `SplitPairRead`).
- `executor.rs:290-291` says usage rows land for every answered leg of a wave before the first failure
  refuses. The loop returns at the first failure. The comment holds of a stopped wave if and only if no leg
  behind the one that stopped it answered (`Refusals.WaveRowsLaw`, `WaveLegsLaw`);
  `Refusals.AnsweredWithoutRow` is a council of one wave whose third leg answered and left no row.
- `resource.rs` promises that a question joins its live consultation. A heartbeat on an expired quorum
  lease revives it beside the one that took its question over (`LeaseJoin.TwoLiveConsultations`);
  `LeaseJoin.OneEachLaw` says that nothing else breaks the promise.
- `quorum.rs` refuses a ledger row whose counts do not add up to its pool. The sum is a `u64` sum, and no
  build profile of the workspace turns overflow checks on, so outside debug builds it wraps
  (`QuorumRows.WrappedRowAccepted`); `QuorumRows.AcceptedRowLaw` gives the exact condition.
- `quorum.rs:816` says the floor of a row must be `N/M` with `N == M/2 + 1`. The writer puts the number of
  agreeing seats there and the reader takes every majority. A decided session's row meets the documentation
  if and only if exactly the decision floor agreed (`RowFloors.SessionFloor`); a pool of one mind meets it
  only when it has two seats (`UnanimousFloor`), and `RowFloors.ThreeOfThreeAccepted` is a row `3/3` that
  the reader takes.
- `caps.rs:170-172` says no provider runs above its effective cap within a wave. The planner compares
  with the cap of the seat that joins, so a seat with a smaller cap that joined first does not bind the
  wave (`Caps.SmallCapFirst`). Every plan keeps the bound if and only if the seats of one provider share one
  effective cap (`Caps.UniformLaw`).
- `ledger_lock.rs:90-92` calls a stale lock nobody's. Two processes that find a dead holder's lock stale can both
  get in, the second by breaking the lock the first has just taken (`LedgerProtocol.TwoBreakers`).
- `ledger.rs:185-189` says that re-reading the length keeps another writer's row from being left unread. It
  jumps over a row written between the maximum read and the length: the handle accounts for the file exactly
  when its own number was not behind at the claim and no larger one was written since (`LedgerRepeats.StatLaw`).
  A handle that has jumped over a row repeats a
  number later, alone and under the lock (`LedgerRepeats.JumpedRowRepeats`).
- `ledger.rs:113-114` promises a number no other writer can claim. Past the last 64-bit number every process
  that opens the ledger claims zero, again and again (`LedgerProtocol.ZeroRepeats`).
- `edits.rs` writes the confirm row last. A confirm errs after its card has landed if and only if its checks
  pass and then the stream does not read back, as when its last line was unterminated, or its row would pass
  the 4096-byte cap (`Confirms.ErrsAfterLanding`, `OnlyTheCap`; `LongConfirmLands` is one such confirm). It
  still cannot land twice.

## Model

| member | source | states |
|---|---|---|
| LedgerRow.Esc | crates/caddis-core/src/ledger_row.rs:27-43 | the pushing loop produces the escaped text |
| LedgerRow.KeepPrefix | crates/caddis-core/src/ledger_row.rs:80-91 | the loop that counts escaped bytes stops at the longest prefix that fits the room |
| LedgerRow.Elide | crates/caddis-core/src/ledger_row.rs:73-93 | the loop yields the elided text that the elision law describes |
| LedgerRow.RowFor | crates/caddis-core/src/ledger_row.rs:102-120 | the finished row is the escaped, elided fields in the fixed frame, which `LedgerJson.RowSays` reads back field by field |
| LedgerRow.ElisionLaw | crates/caddis-core/src/ledger_row.rs:68-93 | elision returns its input when that fits, else the longest prefix whose escaped form fits budget minus 48, with a marker that counts exactly the bytes dropped; from a budget of 48 on the whole escapes to within it |
| LedgerRow.KeptIsLongest | crates/caddis-core/src/ledger_row.rs:80-91 | a prefix fits the room if and only if it is no longer than the one kept |
| LedgerRow.RowReadsBack | crates/caddis-core/src/ledger.rs:56-67 | for every envelope the row holds one newline, its last character, is one line, and reads back its own number, with or without the newline |
| LedgerRow.RowFits | crates/caddis-core/src/ledger_row.rs:45-120 | every row of any envelope and any 64-bit number is at most 4096 bytes |
| Ledger.Highest | crates/caddis-core/src/ledger.rs:139-141 | the fold is an upper bound of the intact numbers and the floor, and is one of them |
| Ledger.WindowRefinesRescan | crates/caddis-core/src/ledger.rs:113-142 | while the file only grew past a row boundary the windowed read equals the full rescan; after a shrink it is the larger of the carried number and the rescan |
| Ledger.AppendedRow | crates/caddis-core/src/ledger.rs:182-190 | appending a row adds exactly its number to the intact numbers, and the maximum becomes the larger of the two |
| Ledger.GrownWindow | crates/caddis-core/src/ledger.rs:131-137 | whatever is appended, what a handle accounts for stays accounted for |
| Ledger.Handle.Open | crates/caddis-core/src/ledger.rs:82-105 | the counter starts at the maximum intact number, unreadable counts the non-blank lines that are none, and the offset is the end |
| Ledger.Handle.MaxSeq | crates/caddis-core/src/ledger.rs:126-142 | the loop over the window finds its highest intact number above the carried one |
| Ledger.Handle.Append | crates/caddis-core/src/ledger.rs:143-191 | alone on the file the number issued is the maximum intact number plus one and becomes the maximum, and the window invariant is kept; when the maximum is the last 64-bit number it issues zero, leaves the maximum, and the window no longer accounts for the file |
| LedgerProtocol.Step | crates/caddis-core/src/ledger_lock.rs:47-174 | every guarded step keeps exclusion, each process's hold on the lock and knowledge of the file, and the record of issued numbers |
| LedgerProtocol.RunKeepsInv | crates/caddis-core/src/ledger_lock.rs:47-174 | so does every guarded run |
| LedgerProtocol.GuardedRunsAreSafe | crates/caddis-core/src/ledger.rs:113-191 | in every run that breaks a lock only with nobody inside, and enters past one only with nobody inside and the file still there, at most one process is inside and the numbers issued are exactly what a reader finds appended; they are the consecutive ones after the file's first maximum if and only if those are 64-bit numbers |
| LedgerProtocol.CleanRunsAreSafe | crates/caddis-core/src/ledger.rs:113-191 | so in every run that takes neither fail-open branch, and until the 64-bit numbers are used up no number is issued twice |
| LedgerProtocol.ClaimIsNext | crates/caddis-core/src/ledger.rs:155-155 | in every guarded run, until a number has wrapped, one claimed under the lock is one more than the largest intact number then in the file, or zero after the last |
| LedgerProtocol.UnlinkIsOwn | crates/caddis-core/src/ledger_lock.rs:132-174 | in every guarded run the lock file a process unlinks is the one it created |
| LedgerProtocol.GuardIsExact | crates/caddis-core/src/ledger_lock.rs:84-111 | where the invariant holds a step is guarded if and only if no guarded way to go on from it lets two processes inside |
| LedgerProtocol.ExclusionLaw | crates/caddis-core/src/ledger_lock.rs:64-111 | a whole run is guarded if and only if at no point of it a guarded continuation lets two processes inside |
| LedgerProtocol.TwoBreakers | crates/caddis-core/src/ledger_lock.rs:90-101 | of any two processes that find a dead holder's lock stale with nobody inside, both can get in |
| LedgerProtocol.TimedOutWriterRepeats | crates/caddis-core/src/ledger_lock.rs:103-111 | a concrete run in which a timed-out writer issues the holder's number again |
| LedgerProtocol.ZeroRepeats | crates/caddis-core/src/ledger.rs:155-155 | once the file holds the last 64-bit number, any sequence of processes that open, append and leave in turn issues zero each time |
| LedgerProtocol.LastNumberExists | crates/caddis-core/src/ledger.rs:56-67 | one row makes such a file |
| LedgerRepeats.AnyRun | crates/caddis-core/src/ledger.rs:113-191 | in every run, fail-open branches included, a reader finds exactly the numbers issued appended, and until the counter is at its end these fill the space up to the file's maximum and no process knows a number beyond it |
| LedgerRepeats.RepeatLaw | crates/caddis-core/src/ledger.rs:113-182 | in every run, until the counter is at its end, the number a process is about to write has been issued before if and only if it was not above the file's maximum when claimed, or one at least as large was written since |
| LedgerRepeats.StatLaw | crates/caddis-core/src/ledger.rs:182-190 | in every run a process that has written and measured the file accounts for all of it if and only if its number was not below the maximum when claimed and no larger one was written since |
| LedgerRepeats.JumpedRowRepeats | crates/caddis-core/src/ledger.rs:185-189 | a concrete run in which a handle jumps over a row and later, alone under the lock with no step in between, issues a number again |
| JsonParser.Parser.Ws | crates/caddis-deliberate/src/json.rs:114-118 | the loop skips exactly the white space |
| JsonParser.Parser.ReadValue | crates/caddis-deliberate/src/json.rs:120-135 | the method answers as the grammar does and leaves the index where the value ends |
| JsonParser.Parser.ReadWord | crates/caddis-deliberate/src/json.rs:137-144 | so for literals |
| JsonParser.Parser.ReadArray | crates/caddis-deliberate/src/json.rs:146-167 | so for arrays, the loop against the recursion |
| JsonParser.Parser.ReadObject | crates/caddis-deliberate/src/json.rs:169-201 | so for objects |
| JsonParser.Parser.ReadKey | crates/caddis-deliberate/src/json.rs:178-188 | so for a key and its colon |
| JsonParser.Parser.ReadDigits | crates/caddis-deliberate/src/json.rs:208-210 | the loop ends at the first character that is no digit |
| JsonParser.Parser.ReadNumber | crates/caddis-deliberate/src/json.rs:203-240 | so for numbers, leading zeros refused, the value the decimal the literal spells |
| JsonParser.Parser.ReadExponent | crates/caddis-deliberate/src/json.rs:226-234 | so for exponents |
| JsonParser.Parser.ReadString | crates/caddis-deliberate/src/json.rs:242-311 | so for strings |
| JsonParser.Parser.ReadEscape | crates/caddis-deliberate/src/json.rs:252-291 | so for escapes, surrogate branches included |
| JsonParser.Parser.ReadHex4 | crates/caddis-deliberate/src/json.rs:313-328 | so for the four digits, whose value is below 65536 |
| JsonParser.ParseDocument | crates/caddis-deliberate/src/json.rs:93-106 | the whole parser is the grammar on every input, and ends |
| JsonParser.PushStr | crates/caddis-deliberate/src/json.rs:387-403 | the loop appends the escaped string between quotes |
| JsonParser.PushValue | crates/caddis-deliberate/src/json.rs:350-385 | the pushing writer appends the written value |
| JsonParser.PushItems | crates/caddis-deliberate/src/json.rs:362-371 | its loop over items appends the written array |
| JsonParser.PushMembers | crates/caddis-deliberate/src/json.rs:372-383 | its loop over members appends the written object |
| JsonRoundTrip.ReadBack | crates/caddis-deliberate/src/json.rs:120-135 | anywhere inside a text, a written value parses to itself and ends where it ends if the depth allows, and is refused if not |
| JsonRoundTrip.RoundTrip | crates/caddis-deliberate/src/json.rs:344-385 | a written value parses back to itself if and only if its text and its nesting are within the two caps |
| JsonRoundTrip.WriteInjective | crates/caddis-deliberate/src/json.rs:344-385 | two values within the depth cap that are written alike are equal |
| JsonRoundTrip.ReadNum | crates/caddis-deliberate/src/json.rs:354-360 | a number, fractional or not, is read back from the digits that write it |
| Decimals.CountKept | crates/caddis-deliberate/src/registry.rs:428-439 | a 64-bit count read through a double comes back as it was if and only if it is a multiple of the spacing of the doubles around it, or the largest |
| JsonRoundTrip.RfcEscapeRead | crates/caddis-deliberate/src/json.rs:263-289 | the escape RFC 8259 gives a character is read as that character below U+10000 and always refused from there on |
| JsonRoundTrip.PairRefused | crates/caddis-deliberate/src/json.rs:265-280 | every high and low surrogate written one after the other is refused as a lone high surrogate |
| JsonRoundTrip.SplitPairRead | crates/caddis-deliberate/src/json.rs:267-277 | the two halves with any one-byte character between them are read as the character |
| Flat.WrittenPrintable | crates/caddis-deliberate/src/json.rs:387-403 | no written value holds a control character, so each is one line |
| Flat.ObjectIsWritten | crates/caddis-deliberate/src/registry.rs:228-289 | an object written key by key from verbatim words is what the writer makes of the whole |
| Lease.FoldRows | crates/caddis-bitynas/src/journal.rs:62-80 | the loop over the live map computes the fold |
| Lease.ReplayAppend | crates/caddis-bitynas/src/journal.rs:58-80 | replaying two stretches of rows is replaying them one after the other |
| Lease.FoldKeyed | crates/caddis-bitynas/src/journal.rs:62-80 | every lease in a fold is filed under its own slot |
| Lease.NamespaceLaw | crates/caddis-bitynas/src/resource.rs:55-112 | two claims meet in one slot exactly when they name the same resource or a bee id spells another type's prefixed name; a slot parses to its type except for such a bee |
| Lease.FindActive | crates/caddis-bitynas/src/resource.rs:114-130 | a lease is found if and only if some live quorum lease consults the question, and it is one |
| LeaseOps.StaleSlots | crates/caddis-bitynas/src/store.rs:175-180 | the slots of a sweep are exactly the stale ones, in slot order, each once |
| LeaseRuns.IndexReplays | crates/caddis-bitynas/src/store.rs:129-203 | the map updates of every operation equal the replay of the rows it journals |
| LeaseRuns.IndexIsFold | crates/caddis-bitynas/src/store.rs:48-224 | in every state any run reaches, crashes included, the index is the fold of a journal that only grew |
| LeaseRuns.ReplayAnywhere | crates/caddis-bitynas/src/resource.rs:132-165 | a replay cut at any row boundary of any run gives the index some operation leaves, or one in the middle of a sweep or preemption where only stale leases are gone and nothing else differs |
| LeaseSafety.EventFate | crates/caddis-bitynas/src/store.rs:129-203 | one operation, cut short or not, leaves a lease as it was, refreshes it for its holder, releases it for its holder, or journals a reclaim row carrying it while stale |
| LeaseSafety.HolderChange | crates/caddis-bitynas/src/store.rs:129-203 | over any run a slot changes holder only after the holder's release or a reclaim row with the holder's stale record |
| LeaseSafety.ClaimLaw | crates/caddis-bitynas/src/resource.rs:167-222 | a claim takes a slot only when it is free or stale, files the claimer's lease with its type's time to live and nothing else; Busy and Join name a live lease and change nothing; a panic is exactly a malformed claim |
| LeaseSafety.FedLeaseIsKept | crates/caddis-bitynas/src/lease.rs:54-69 | under a monotone clock a holder whose completed heartbeats come at most its time to live apart keeps its slot throughout every run in which it does not release it |
| LeaseSafety.PreemptionsConserved | crates/caddis-bitynas/src/store.rs:170-209 | over the life of a store the reclaim rows journaled are, with multiplicity, the events returned by sweeps, drained, or still pending |
| LeaseJoin.OneEachLaw | crates/caddis-bitynas/src/resource.rs:114-130 | from a state with one live lease a question, an operation leaves such a state if and only if it is not a heartbeat on an expired quorum lease whose question another live lease consults |
| LeaseJoin.OneLiveLeasePerQuestion | crates/caddis-bitynas/src/resource.rs:167-222 | in every run without such a heartbeat one question has at most one live lease |
| LeaseJoin.TwoLiveConsultations | crates/caddis-bitynas/src/store.rs:148-168 | a concrete run of three operations that leaves two live leases on one question |
| LeaseStore.LeaseStore.Open | crates/caddis-bitynas/src/store.rs:50-81 | the index starts as the fold of the intact rows and every other line is counted |
| LeaseStore.LeaseStore.FindActiveQuorum | crates/caddis-bitynas/src/resource.rs:118-130 | the walk in slot order finds what FindActive defines |
| LeaseStore.LeaseStore.PreemptStale | crates/caddis-bitynas/src/resource.rs:136-165 | reclaim row, claim row, one pending event, new index entry |
| LeaseStore.LeaseStore.ClaimTyped | crates/caddis-bitynas/src/resource.rs:185-222 | the method answers and leaves what the operation does |
| LeaseStore.LeaseStore.ClaimBee | crates/caddis-bitynas/src/store.rs:112-125 | the bee claim is the typed claim and never joins |
| LeaseStore.LeaseStore.ReleaseSlot | crates/caddis-bitynas/src/store.rs:129-143 | so for release |
| LeaseStore.LeaseStore.Beat | crates/caddis-bitynas/src/store.rs:148-168 | only the owner refreshes; the answer and the new state are those of `LeaseAnswers.HeartbeatLaw` |
| LeaseStore.LeaseStore.Sweep | crates/caddis-bitynas/src/store.rs:174-203 | so for sweep, its loop freeing the stale slots one row at a time |
| LeaseStore.LeaseStore.Events | crates/caddis-bitynas/src/store.rs:207-209 | the pending events are handed out and none is left |
| BTree.Walk | crates/caddis-bitynas/src/store.rs:175-180 | walking an ordered map visits every key once, in order |
| Caps.RegistryLaw | crates/caddis-deliberate/src/caps.rs:114-158 | the walk over a registry refuses if and only if some provider row breaks the cap law or some seat has no provider or a larger cap |
| Caps.PlanBatches | crates/caddis-deliberate/src/caps.rs:178-214 | the loop with its usage map computes the plan |
| Caps.PlanSpells | crates/caddis-deliberate/src/caps.rs:167-214 | the waves spell the wanted list in order, none is empty, each request had headroom, and each wave after the first opens with a request its predecessor refused |
| Caps.PlanRefuses | crates/caddis-deliberate/src/caps.rs:184-196 | a plan is made if and only if every request is known, else refused whole with the first one's reason |
| Caps.PlanWithinCaps | crates/caddis-deliberate/src/caps.rs:169-172 | no wave exceeds a provider's cap, nor the hard ceiling once the registry passes the law, and no seat is repeated beyond its own effective cap |
| Caps.PlanFewest | crates/caddis-deliberate/src/caps.rs:174-177 | no other cut of the list into consecutive admissible waves, empty ones allowed, has fewer |
| Caps.UniformLaw | crates/caddis-deliberate/src/caps.rs:167-214 | in every wave of every plan each provider stays within the effective cap of each seat of the wave, if and only if known seats of one provider have one effective cap |
| Caps.SmallCapFirst | crates/caddis-deliberate/src/caps.rs:170-172 | a concrete registry that passes the cap law and whose one wave runs a provider above the effective cap of a seat in it |
| Seats.SortOrders | crates/caddis-deliberate/src/lib.rs:417-417 | the sort is a permutation in selection order |
| Seats.SortUnique | crates/caddis-deliberate/src/lib.rs:204-211 | with distinct lanes the order the seats arrive in does not show |
| Seats.PanelLaw | crates/caddis-deliberate/src/lib.rs:402-432 | a panel seats the least live candidates by the order of `SeatLaws.BeforeMeans`, in role order, meets the floors, and does not depend on the candidates' order |
| Disjoint.SelectQuorumPool | crates/caddis-deliberate/src/disjoint.rs:166-210 | the counting loop computes the strict pool or refusal |
| Disjoint.StrictLaw | crates/caddis-deliberate/src/disjoint.rs:144-210 | the pool is the `size` least live seats off the council, by the same order, meeting the floors; too few is exactly the insufficiency refusal; the overlap re-proof never fires |
| Disjoint.StrictIgnoresOrder | crates/caddis-deliberate/src/disjoint.rs:144-210 | pool and refusal, counts included, do not depend on the candidates' order |
| Disjoint.ShapeOf | crates/caddis-deliberate/src/disjoint.rs:411-447 | the one walk classifies every candidate, sorts the two buckets and lists the unapproved lanes in order |
| Disjoint.SelectWithReserve | crates/caddis-deliberate/src/disjoint.rs:478-553 | the method computes the pool with reserve or its refusal |
| Disjoint.NoOverlapReached | crates/caddis-deliberate/src/disjoint.rs:530-540 | neither selector's overlap post-condition is ever reached |
| Disjoint.HealthyDay | crates/caddis-deliberate/src/disjoint.rs:491-506 | when strict selection succeeds its pool is returned and the approval stays unspent |
| Disjoint.DegradedDay | crates/caddis-deliberate/src/disjoint.rs:507-553 | when too few are apart, all of them are taken and exactly the shortfall from the least of the approved reserve; the audit's two lists spell the pool, the second only approved council lanes; it succeeds if and only if both together suffice and the floors hold |
| Disjoint.ReserveIgnoresOrder | crates/caddis-deliberate/src/disjoint.rs:478-553 | answer, refusal and audit do not depend on the candidates' order |
| Protocols.CanonicalIsWritten | crates/caddis-deliberate/src/protocol.rs:76-98 | the canonical text is the JSON writer's text of the card |
| Protocols.CanonicalInjective | crates/caddis-deliberate/src/protocol.rs:66-98 | cards with equal canonical texts are equal, whatever their stage strings hold |
| Protocols.PinNamesCard | crates/caddis-deliberate/src/protocol.rs:100-102 | among cards the digest keeps apart, equal pins mean the same card |
| Sessions.ConstructedPanelOpens | crates/caddis-deliberate/src/protocol.rs:160-184 | a constructed panel is never refused by the convening's own checks |
| Sessions.SelectedPool | crates/caddis-deliberate/src/quorum.rs:402-430 | every pool seated, with or without reserve, has the card's size and meets its floors |
| Sessions.SameCardNeedsCollision | crates/caddis-deliberate/src/council.rs:799-811 | after the version bump the same-card refusal means the digest confused two different texts |
| Sessions.CouncilFollows | crates/caddis-deliberate/src/council.rs:783-822 | a council re-dispatch keeps task and stakes, bumps the version, extends the id, points back, passes the gate, and is never refused by the convening re-proof |
| Sessions.QuorumFollows | crates/caddis-deliberate/src/quorum.rs:1006-1061 | so does a quorum's, which also keeps its council |
| Sessions.ChainLaw | crates/caddis-deliberate/src/council.rs:763-822 | along any chain versions strictly increase, pins and ids are pairwise distinct, task and stakes never change, and each link points back to the one before |
| Sessions.CouncilChainLaw | crates/caddis-deliberate/src/council.rs:783-822 | that law for every chain of council re-dispatches |
| Sessions.QuorumChainLaw | crates/caddis-deliberate/src/quorum.rs:1006-1061 | that law for every chain of quorum re-dispatches, whose council never changes |
| Sessions.ConvenedPin | crates/caddis-deliberate/src/council.rs:310-336 | a convened council is pinned to its card and has the card's panel size |
| Sessions.ConvenedQuorumPin | crates/caddis-deliberate/src/quorum.rs:443-478 | a convened quorum is pinned to its card, linked to its council, and has at least two seats |
| Votes.ByLane | crates/caddis-deliberate/src/quorum.rs:513-527 | the loop refuses exactly blank models and repeated lanes, and otherwise maps every lane to its reply |
| Votes.CollectVotes | crates/caddis-deliberate/src/quorum.rs:512-569 | the method computes the ballot in pool order with the missing lanes sorted, or the refusal |
| Votes.CollectPanel | crates/caddis-deliberate/src/council.rs:397-442 | so for the council, where any missing seat refuses |
| Votes.IntegrateVotes | crates/caddis-deliberate/src/council.rs:504-530 | the pushing loop and the sorts compute the three clusters |
| Votes.ClustersExact | crates/caddis-deliberate/src/council.rs:445-530 | each cluster lists in order exactly the lanes that took its position |
| Votes.CountsSum | crates/caddis-deliberate/src/council.rs:504-530 | every reply is counted in exactly one cluster |
| Votes.OneMajority | crates/caddis-deliberate/src/quorum.rs:602-626 | at most one position reaches the decision floor |
| Votes.RulingIsMajority | crates/caddis-deliberate/src/quorum.rs:129-131 | a ruling lands on a position if and only if more than half of the full pool took it |
| Votes.DegradedRulingIsStable | crates/caddis-deliberate/src/quorum.rs:512-660 | however the missing seats might have replied, the larger set of replies is collected and rules the same position |
| Votes.BallotAccountsForPool | crates/caddis-deliberate/src/quorum.rs:529-569 | the three counts and the missing seats add up to the pool |
| QuorumRows.RowRoundTrip | crates/caddis-deliberate/src/quorum.rs:756-942 | a written row parses to the same fields if and only if it fits the size cap, its figures agree, and a double holds its counts |
| QuorumRows.FloorReads | crates/caddis-deliberate/src/quorum.rs:944-962 | the floor text reads back as its two numbers |
| QuorumRows.SessionRowAccepted | crates/caddis-deliberate/src/quorum.rs:756-806 | the row of every collected and decided session is accepted with the same fields if and only if it fits the size cap and a double holds its counts, as it does for every pool below 2^53 |
| QuorumRows.AcceptedRowLaw | crates/caddis-deliberate/src/quorum.rs:822-942 | any accepted row's ruled position holds a strict majority of its pool, degraded is missing-ness, and counts plus missing equal the pool if and only if their sum is within 64 bits |
| QuorumRows.WrappedRowAccepted | crates/caddis-deliberate/src/quorum.rs:888-894 | a concrete accepted row whose counts sum to 2^64 + 2 for a pool of two |
| RowFloors.SessionFloor | crates/caddis-deliberate/src/quorum.rs:756-806 | the floor of every decided session's row reads as the agreeing seats over the pool, a majority, and it is the least majority if and only if exactly that many agreed |
| RowFloors.UnanimousFloor | crates/caddis-deliberate/src/quorum.rs:813-820 | every pool of one mind is decided with the floor pool over pool, which meets the documentation if and only if the pool is two |
| RowFloors.ThreeOfThreeAccepted | crates/caddis-deliberate/src/quorum.rs:816-816 | a concrete pool of three of one mind whose row says 3/3 and is accepted with the same fields |
| Cards.FoldCards | crates/caddis-deliberate/src/registry.rs:575-588 | the inserting loop computes the fold |
| Cards.LastRowWins | crates/caddis-deliberate/src/registry.rs:572-588 | looking a key up in the fold finds its last row in the stream |
| CardStream.CardIsWritten | crates/caddis-deliberate/src/registry.rs:226-282 | a card's line is the JSON writer's text of the card |
| CardStream.LineReads | crates/caddis-deliberate/src/registry.rs:348-558 | a card's line parses to the card with its 64-bit counts as a double gives them, exactly when the field laws and the size cap are met, and is refused otherwise; it parses back to the card itself if and only if besides a double holds those counts |
| CardStream.StreamRoundTrip | crates/caddis-deliberate/src/registry.rs:299-346 | a rendered stream parses back to the same cards in order if and only if every card is acceptable, no line passes the cap, and a double holds every 64-bit count |
| CardHome.ViewText | crates/caddis-deliberate/src/registry.rs:598-621 | the pushing loops compute the view that `CardView.ViewShows` reads back |
| CardHome.ViewClaims | crates/caddis-deliberate/src/registry.rs:680-690 | a view claims the digest it was encoded with, or is too long to claim any |
| CardHome.Files.LoadAndSync | crates/caddis-deliberate/src/registry.rs:671-695 | the method leaves the view and answers as the load does |
| CardHome.Files.AppendCard | crates/caddis-deliberate/src/registry.rs:700-718 | the row is appended and the view synced from the whole stream |
| CardHome.CompletedLoadSyncs | crates/caddis-deliberate/src/registry.rs:671-718 | over every sequence of appends and loads, cut between row and view anywhere, a completed load leaves exactly the view of the stream and returns its fold |
| EditJournal.RowReadsBack | crates/caddis-deliberate/src/edits.rs:275-442 | a row the verbs write parses back to itself, up to the largest number the parser takes |
| EditJournal.AppendedRow | crates/caddis-deliberate/src/edits.rs:247-260 | appending a row adds that row to the parsed journal, or one unparseable line past that number |
| EditJournal.FoldJournal | crates/caddis-deliberate/src/edits.rs:471-528 | the loop over the map computes the fold or its defect, which `JournalLaws.FoldLaw` describes row by row |
| EditJournal.NextIdIsNew | crates/caddis-deliberate/src/edits.rs:583-585 | the id spelled by the next number names no proposal yet |
| Edits.Step | crates/caddis-deliberate/src/edits.rs:678-822 | every step of every verb, a crash, an unlock and an outside append keep the protocol's invariant |
| Edits.RecordKeeps | crates/caddis-deliberate/src/edits.rs:572-607 | so does the append to the journal in particular |
| Edits.EditsAreSafe | crates/caddis-deliberate/src/edits.rs:471-822 | over every run the journal folds without a defect, every confirmed card has its line in the stream, every applied card is its proposal's under the digest it was pinned to, and unless the digest confuses two stream texts no two applications were pinned alike, so none is applied twice and at most one of those pinned to one stream |
| Edits.LineIsCard | crates/caddis-deliberate/src/edits.rs:625-634 | a self-valid card whose line is in a stream that parses is one of its cards |
| Edits.SelfValidLaw | crates/caddis-deliberate/src/edits.rs:654-664 | a card passes self-validation if and only if the field laws and the size cap are met and a double holds its counts |
| EditDesk.Desk.AppendLine | crates/caddis-deliberate/src/edits.rs:572-607 | the next number is the largest parsed one plus one, and a row past the cap is not written |
| EditDesk.Desk.Find | crates/caddis-deliberate/src/edits.rs:731-744 | a pending proposal is found, or the refusal says why not |
| EditDesk.Desk.Propose | crates/caddis-deliberate/src/edits.rs:678-704 | with the lock free the verb leaves and answers what its checks say; with the lock taken, nothing |
| EditDesk.Desk.ConfirmProposal | crates/caddis-deliberate/src/edits.rs:723-789 | so for confirm, the card before the row |
| EditDesk.Desk.RefuseProposal | crates/caddis-deliberate/src/edits.rs:795-822 | so for refuse |
| EditDesk.VerbIsRun | crates/caddis-deliberate/src/edits.rs:678-822 | a verb alone is a run of the interleaved steps that ends with the lock free |
| Confirms.ErrsAfterLanding | crates/caddis-deliberate/src/edits.rs:723-789 | a confirm errs and yet changes something if and only if its checks pass and then the stream does not read back or its row would pass the cap |
| Confirms.CappedConfirmHasApplied | crates/caddis-deliberate/src/edits.rs:778-783 | it then answers with a defect, its card in the stream and the journal unchanged |
| Confirms.OnlyTheCap | crates/caddis-deliberate/src/edits.rs:588-593 | over a stream that ends a line and for a self-valid card, a confirm whose checks pass errs after its card has landed if and only if its row would pass the row cap |
| Confirms.LongConfirmLands | crates/caddis-deliberate/src/edits.rs:588-593 | a concrete stream, journal and confirm with a long name: a defect, the card landed, the proposal still pending |
| Executor.CourseBound | crates/caddis-deliberate/src/executor.rs:261-338 | the walk over the waves takes legs in order, stops at the first that halts it, and finishes only at the last |
| Executor.CoursePinMoved | crates/caddis-deliberate/src/executor.rs:261-270 | a pin that moved before a wave leaves exactly the legs of the waves before it |
| Executor.TakeResults | crates/caddis-deliberate/src/executor.rs:290-336 | the joined results of a wave become rows, log entries and replies up to the first that halts |
| Executor.RunWaves | crates/caddis-deliberate/src/executor.rs:261-338 | the loop over the waves computes that course, its rows and its replies |
| Executor.RunSession | crates/caddis-deliberate/src/executor.rs:227-373 | plan, identity, waves, collection and close give the answer and the trace |
| Executor.RunCouncil | crates/caddis-deliberate/src/executor.rs:227-373 | a council's bundle and disagreement map, with its trace |
| Executor.RunQuorum | crates/caddis-deliberate/src/executor.rs:383-522 | a quorum's ballot, ruling and ledger row, with its trace |
| Executor.TraceLaw | crates/caddis-deliberate/src/executor.rs:227-522 | the rows are nothing when refused before the first leg, else the open row, a usage row for each answered leg of an initial run of the seats in order (all of that run in a council, a subsequence in a quorum), and the close row exactly on success, the run then being everyone |
| Refusals.WaveRowsLaw | crates/caddis-deliberate/src/executor.rs:290-336 | when a leg stops a council or a quorum, the usage rows are those of every answered leg up to the end of its wave if and only if no leg behind it in the wave answered |
| Refusals.WaveLegsLaw | crates/caddis-deliberate/src/executor.rs:290-336 | so too leg by leg: with distinct lanes each answered leg of that wave has its row if and only if none behind the stopping one answered |
| Refusals.WaveBounds | crates/caddis-deliberate/src/executor.rs:261-288 | the two bounds in that law are those of one wave of the plan |
| Refusals.AnsweredWithoutRow | crates/caddis-deliberate/src/executor.rs:290-336 | a concrete council of one wave, answered, refused, answered, whose trace is the open row and the first leg's |
| Executor.PinMovedLeavesEarlierWaves | crates/caddis-deliberate/src/executor.rs:261-270 | a pin moved before a wave leaves usage rows for exactly the lanes of the waves before it that answered, in a council all of them, and the refusal names the moved pin |
| Executor.QuorumUsageIsBallot | crates/caddis-deliberate/src/executor.rs:383-522 | a quorum that succeeds has usage rows for exactly the seats its ballot counts as answered, the others being its missing |
| LedgerJson.RowSays | crates/caddis-core/src/ledger_row.rs:102-120 | for every number and typed envelope the row is the line of one JSON object whose nine members are the number and the envelope's own fields, each short one itself when its escaped form is at most 256 bytes, the body when it fits what the others leave of 4096, and otherwise a prefix with a marker that counts what is gone |
| LedgerReader.RowSeqLaw | crates/caddis-core/src/ledger.rs:56-67 | a line counts if and only if, trimmed, it is braced, holds each of the two keys in exactly one place and has a 64-bit number behind the first |
| LedgerReader.LinesAccounted | crates/caddis-core/src/ledger.rs:82-105 | every line is a number, damaged, or blank |
| JsonGrammar.ParserIsGrammar | crates/caddis-deliberate/src/json.rs:93-328 | the parser accepts a text with a value if and only if the text is at most 8 MiB and is, between blanks, a value of the grammar denoting it: every escape, every form of number with its exact decimal, the depth cap, and nothing after |
| JsonWriter.WrittenIsShortest | crates/caddis-deliberate/src/json.rs:350-403 | no document that denotes a value without numbers is shorter than the one written |
| LeaseAnswers.StaleLaw | crates/caddis-bitynas/src/lease.rs:54-69 | when a lease is stale, and that one whose stamp does not parse is |
| LeaseAnswers.HeartbeatLaw | crates/caddis-bitynas/src/store.rs:148-168 | refreshed exactly when the caller holds the slot, with the lease at the new heartbeat filed there; busy exactly when another does, with that lease and nothing changed; gone exactly when the slot is free |
| LeaseAnswers.ReleaseLaw | crates/caddis-bitynas/src/store.rs:129-143 | released when the caller holds the slot, which is then free, or when it was free already; otherwise busy with the holder and nothing changed |
| LeaseAnswers.SweepLaw | crates/caddis-bitynas/src/store.rs:174-203 | exactly the expired leases are reclaimed, in slot order, each with its row and its event |
| LeaseAnswers.EventsLaw | crates/caddis-bitynas/src/store.rs:207-209 | the pending events are handed out once |
| LeaseAnswers.ClaimAnswers | crates/caddis-bitynas/src/resource.rs:185-222 | every answer of a claim with the rows, index and events it leaves |
| JournalRows.RowSays | crates/caddis-deliberate/src/edits.rs:396-440 | a row's text is the JSON object of its own fields under their names |
| JournalRows.RowMeans | crates/caddis-deliberate/src/edits.rs:275-387 | a line is a journal row if and only if it is one object that says the row: exactly the names of its kind, a number in range, an id the number spells, a card that is its own stream |
| JournalRows.JournalMeans | crates/caddis-deliberate/src/edits.rs:247-260 | the rows of a journal are those of its lines that are rows, all of them in order, and the unparseable count is that of the other lines that are not blank |
| JournalLaws.FoldLaw | crates/caddis-deliberate/src/edits.rs:471-528 | the fold exists if and only if ids are proposed once and resolved once and later, and then an id is confirmed or refused exactly when a row of that kind names it, pending when none does |
| EditRuns.ResolvedIsFinal | crates/caddis-deliberate/src/edits.rs:723-822 | over every run no application follows for an id the journal has confirmed or refused |
| DeskLaws.ProposeLaw | crates/caddis-deliberate/src/edits.rs:678-704 | every answer of a proposal and what it leaves |
| DeskLaws.ConfirmLaw | crates/caddis-deliberate/src/edits.rs:723-789 | what a confirm that succeeds needed and leaves |
| DeskLaws.ConfirmRefusals | crates/caddis-deliberate/src/edits.rs:731-789 | when a confirm is refused how |
| DeskLaws.RefuseLaw | crates/caddis-deliberate/src/edits.rs:795-822 | every answer of a refusal and what it leaves |
| CardLaws.ObjectMeans | crates/caddis-deliberate/src/registry.rs:348-558 | an object is read as a card if and only if its members say that card: the names of its kind and no other, scalar values, the vocabularies, whole counts in range |
| CardLaws.StreamMeans | crates/caddis-deliberate/src/registry.rs:335-346 | a stream gives the cards its lines say, in order and none dropped, or the number of the first line that is neither blank nor a card |
| CardView.ViewShows | crates/caddis-deliberate/src/registry.rs:598-621 | the view of every stream that parses, within the size cap, parses to the digest, the number of rows, and exactly the providers and seats no later row supersedes, each once by rising id and read back by the stream's own parser |
| CardView.CompletedLoadShows | crates/caddis-deliberate/src/registry.rs:671-718 | over every run of appends and loads a completed load leaves such a view |
| Doubles.DoubleIsNearest | crates/caddis-deliberate/src/registry.rs:428-439 | no double is nearer to a count than the one it is read as |
| Doubles.DoubleIsDouble | crates/caddis-deliberate/src/registry.rs:428-439 | which has 53 binary digits |
| Doubles.TieIsEven | crates/caddis-deliberate/src/registry.rs:428-439 | and of two equally near is the even one |
| Lexical.OrderIsLexical | crates/caddis-deliberate/src/lib.rs:204-211 | the order of lanes is the lexicographic one |
| SeatLaws.BeforeMeans | crates/caddis-deliberate/src/lib.rs:146-153 | one seat comes before another unless the other is cheaper, or as cheap with a smaller lane |
| SeatLaws.FloorsLaw | crates/caddis-deliberate/src/lib.rs:313-335 | the floors hold if and only if enough families and enough seats outside the sixteen families are there, and a refusal names the first that is short with its figures |
| SeatLaws.PanelAnswers | crates/caddis-deliberate/src/lib.rs:402-432 | every answer of a construction: in the order of the roles the live candidates than which none left out is cheaper, or as cheap with a smaller lane; or the first reason why not, with its figures |
| SeatLaws.StrictAnswers | crates/caddis-deliberate/src/disjoint.rs:166-210 | so for the strict pool, off the council's lanes |
| SeatLaws.ReserveAnswers | crates/caddis-deliberate/src/disjoint.rs:478-553 | so for the pool with the reserve: seats off the council first, approved ones on it only when those are all taken, each share the best there is, and an audit that names them all |
| CapsLaws.RegistryAnswers | crates/caddis-deliberate/src/caps.rs:114-158 | every answer of the registry check: the first row by key, providers first, with no call at a time, with more than two where the law allows two, without its provider or above its caps |
| CapsLaws.PlanAnswers | crates/caddis-deliberate/src/caps.rs:178-214 | a plan is a cut of the wanted list in which each request had room when it joined and each wave was closed by one that had none; or the first request without a seat is named |
| CapsLaws.OnlyPlan | crates/caddis-deliberate/src/caps.rs:178-214 | and every such cut is the plan of the list it spells |
| CapsLaws.WavesWithinCaps | crates/caddis-deliberate/src/caps.rs:36-52 | in a lawful registry no wave puts more on a provider than its caps, nor more than two on the two the law names |
| VoteLaws.CollectAnswers | crates/caddis-deliberate/src/quorum.rs:512-569 | every answer of the quorum's collection: one reply per answering seat in pool order and exactly the missing lanes, from half the pool and one on, unless a reply is blank, repeated or a stranger's |
| VoteLaws.PanelAnswers | crates/caddis-deliberate/src/council.rs:397-442 | every answer of the council's |
| VoteLaws.MapAnswers | crates/caddis-deliberate/src/council.rs:504-530 | the three clusters in order, each the sorted lanes of its takers |
| VoteLaws.DecideAnswers | crates/caddis-deliberate/src/quorum.rs:602-660 | every answer of the verdict: the first position with more than half the pool, its word, marked when a seat is missing |
| RowLaws.SessionRowSays | crates/caddis-deliberate/src/quorum.rs:756-806 | the row of every decided session is the object of the session's, the gate's and the ballot's own figures and names |
| RowLaws.RowMeans | crates/caddis-deliberate/src/quorum.rs:822-942 | a line is accepted as a row if and only if it is one object with the sixteen names, each once, that says a coherent row |
| SessionLaws.CanonicalSays | crates/caddis-deliberate/src/protocol.rs:76-98 | the canonical text of a card is the object of its version, kind, stages and floors |
| SessionLaws.ConveneAnswers | crates/caddis-deliberate/src/council.rs:310-336 | every answer of convening a council |
| SessionLaws.RedispatchAnswers | crates/caddis-deliberate/src/council.rs:783-822 | every answer of re-dispatching one |
| SessionLaws.RedispatchSucceeds | crates/caddis-deliberate/src/council.rs:783-822 | it succeeds if and only if both cards are convenable, the archived one is the session's, the version rises, the pin changes, the gate is open and the floors can be met |
| SessionLaws.ConveneQuorumAnswers | crates/caddis-deliberate/src/quorum.rs:443-478 | every answer of convening a quorum |
| SessionLaws.RedispatchQuorumAnswers | crates/caddis-deliberate/src/quorum.rs:1006-1061 | every answer of re-dispatching one |
| RunLaws.RunAnswers | crates/caddis-deliberate/src/executor.rs:227-522 | every run of a job: how many legs counted and why no more, a usage row for each answered one with the seat's names, the leg's model and its tokens, the open row from the first wave on, the close row on success, and the answer for each ending |
| RunLaws.CouncilRuns | crates/caddis-deliberate/src/executor.rs:227-262 | a council is run with its panel's seats in order, its pin and its gate's receipt |
| RunLaws.QuorumRuns | crates/caddis-deliberate/src/executor.rs:383-420 | a quorum with its pool |
| TextLaws.TrimLaw | crates/caddis-deliberate/src/registry.rs:335-346 | trimming takes the white space off both ends, all of it and nothing else |
| TextLaws.LinesLaw | crates/caddis-deliberate/src/registry.rs:335-346 | a line for each piece a line feed ends, without its carriage return, and one for what is left |

## Left out

- JsonParser.Parser.ReadNumber: a literal stands for the decimal it spells. A double is modelled by its shortest decimal, so the rounding of a literal with more digits than a double keeps, the overflow of one too large and the underflow of one too small are not modelled, except that 64-bit counts are rounded where they are read.
- LedgerProtocol.GuardedRunsAreSafe: age and waiting time are left open, so a process that finds a lock file may retry, break it or enter past it whenever it likes.
- LedgerRepeats.RepeatLaw: stops where a claim could wrap; ZeroRepeats says what happens from there on when processes come one at a time.
- Ledger.Handle.Append: the addition that overflows wraps, as in a build without overflow checks, which no profile of the workspace turns on; a debug build panics there.
- QuorumRows.AcceptedRowLaw: the sum of a row's counts wraps in the same way.
- Edits.EditsAreSafe: the operator removes a lock file only after its holder died, and the view beside the stream is left to CardHome.
- Text is a sequence of Unicode scalar values. Byte lengths are computed where a cap counts bytes, but positions inside texts, and those that JSON errors report, count characters; invalid UTF-8 does not arise.
- Error messages: refusals keep their kind and, where the original carries them, their figures; texts are dropped, and refusals that differ only in text are one. The JSON grammar alone keeps its texts, as names for its refusals; the original counts bytes in a `\u` escape cut short by the end of the text, so with multi-byte characters there it may refuse for another reason.
- File-system errors, fsync, directory creation and delete-pending names: files are sequences that grow by whole writes, the lock file is a token, the view a cell.
- A torn row: each append lands whole or not at all, and the ledger, journals and stream start empty or at a line's end.
- The lease journal's JSON encoding: a line is one row or unreadable.
- Timestamps: the epoch second they parse to, or one value for all that do not parse.
- SHA-256 and HMAC: the digest is a parameter.
- The warden gate's derivation of the active card: its result is a parameter.
- `canonical_verdict_bytes`: its fields are joined unescaped, so nothing is claimed of it; the digest of a verdict is a parameter of the executor.
- Threads inside a wave: the joined results in wave order are a parameter.
- The payload digest of the dispatch log and the encoding of session rows.
- The council's own ledger row and the prose of the verdict file, which would repeat the quorum row with fewer checks.
- The TTL state machine, rotation, seeds, the collector and the prober, the ladder, policies, idempotency, envelopes and footers, adapters and reporting.

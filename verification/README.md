# Verification of the guest kernel: scheduler, barrier, boot, printf

A Dafny model of the parts of this kernel where the order of instructions or of buffer writes decides whether the code is
right, with proofs over every interleaving, every function graph, every pool size and every input.
`dafny verify dfyconfig.toml` checks the whole project.

## What is modelled

**The DAG scheduler (`src/sched.c`)** is a transition system, `SchedModel`. A state holds the shared words and, for each
vcpu, a program counter and its slot of `metadata->current`. One step of one vcpu is one locked instruction, load or store:
the `lock` increments and bit operations, the CAS on `num_fin_fn`, the 16-byte CAS on the reflective bitmaps, each word that
`get_work` looks at, each byte of the restart copy, each instruction around `hlt`. `Exec` is the code; the `Observe`
functions keep a history beside it (what has happened to each function in the round, tokens issued, surplus in the
free-vcpu counter) that no step of the code reads. A run is any schedule of vcpus,
each with the outcome of whatever its step leaves open, from the state that `scheduler_init_post` leaves.

* `Dag` – the byte table of the graph; `SchedTotals` – what each vcpu contributes to each ledger, summed over the pool.
* `SchedRounds` – the round invariant: each function is published, taken, run and counted once, in order, behind its
  predecessors; the winner of a round is alone.
* `SchedAwake` – no runnable function is orphaned and the pool never sleeps as a whole.
* `SchedLedgers` – `runnable_tasks`, the wake tokens, `num_free_vcpu`.
* `SchedClaims` – the claims on kick targets in the reflective bitmaps, and what the wipe does to them.
* `SchedUnderflow` – when the run can go on from a recovery store until `num_free_vcpu` underflows.
* `SchedRace` – concrete runs in which the recovery store of the winner makes `num_free_vcpu` underflow, and in which its
  wipe breaks claims.
* `SchedQueue` – `add_runnable_fn`, `get_work` and `process_sched_dag` as loops over arrays, run by one vcpu alone.
* `SchedSolo`, `SchedPaths`, `SchedAlone` – what a vcpu does from any reachable state when nobody interferes: coming back
  from a function, waking others, taking work, going to sleep, waking up, the recovery, setting up the next round.
* `SchedProgress` – from every reachable state the vcpus that are awake can win any number of further rounds.

**The barrier (`include/util.h`)** is a transition system in `Barrier`: `barrier` on top of `cond_wait` and `cond_set`.
`BarrierProgress` shows that it never locks up.

**Boot (`src/main.c`)**: `TaskSegment` is the locked section in which each vcpu fills and loads its task segment, one byte
or field at a time; `Rendezvous` is the wait of vcpu 0 for the others.

**printf (`src/libc/printf.c`)**, without floating point: `PrintfSpec` gives the ideal text of a conversion and of a format;
`Printf` holds the loops of the source, over a 32-byte reversed buffer and a truncating destination, proved against it;
`PrintfLaws` and `PrintfParse` prove lengths, round trips and the parser against a printer of specifiers;
`PrintfShape` writes a printed number front to back, and `PrintfFormat` says what a whole format prints in terms of its
literal text, its requests and the arguments, independently of the parser and of the number buffer;
`PrintfAlternate` says when the alternate form costs digits.

`Bits` and `Sums` are the words and the sums that all of these use.

## Assumptions

* Memory is sequentially consistent, and a locked instruction is one step.
* The scheduler starts in the state behind `scheduler_init_post`, with every helper halted in `main`.
* A halted vcpu of the scheduler may wake up at any moment, kicked or not. Kicks themselves therefore change nothing in
  the scheduler model. In the barrier a kick to a vcpu that has not halted yet is latched, and a halted vcpu may also wake
  without a kick.
* Where C leaves the order of two loads open, in `runnable_tasks - num_free_vcpu` and in the comparison of `cond_set`,
  both orders are runs.
* A user function ends and re-enters `sched` once; while it runs it touches none of the modelled words.
* `runtime_if.h` is not part of this model. The table is read as the code reads it: with n nodes, entries 0 to n-1 are
  in-degrees, entries n to 2n are edge offsets, the targets follow from 2n+1 on, and the whole table has at most 255 bytes.
  The graph has at least one and at most 254 nodes and no cycle, its in-degrees are true, and the start function is its
  only source. The in-counts may hold anything when the kernel boots.
* The pool has 1 to 63 vcpus.
* Time stamps are arbitrary: `hlt_ts > kick_ts` and the re-kick threshold may come out either way each time.
* The 64-bit counters are integers. A negative one stands for a wrapped word; the proofs show which of them never are.
* Words of flags are sets of bit positions; `bsf` yields the least.
* A string of the model is a C string without its NUL. `long`, `long long`, `ptrdiff_t`, `intmax_t`, `size_t` and pointers
  have 64 bits, `int` has 32 and `char` is signed, so `_ntoa_long` and `_ntoa_long_long` are the same function.
* The quotient and remainder of the digit loop are defined by repeated subtraction; `PrintfSpec.DivisionIs` shows that they
  are `/` and `%`.

## Where the code does not do what it is for

* **The recovery store can make the free-vcpu counter underflow.** The test of src/sched.c:326-330 and the store behind it
  are separate steps. If a helper wakes up in between and counts itself free, the store loses that count, and the next
  vcpus that take work or give up lower the counter below zero (`SchedRace.RacedRecoveryUnderflows`, two vcpus and one
  function). The store makes the counter exact, and no less than what it stands for, if and only if no other vcpu is
  counted free at that moment and no kick is under way (`SchedLedgers.RecoveryRestores`). As long as the last recovery
  store met that condition, no decrement underflows (`SchedLedgers.FreeNeverUnderflows`); and for every graph, pool and
  run, after a store with no kick outstanding the run can go on to an underflow, without another such store, if and only
  if another vcpu was counted free at the store (`SchedUnderflow.UnderflowIff`).
* **The wipe of the reflective bitmaps can break a claim.** It can meet a vcpu on its first entry that has not run a
  function yet and is inside `wake_up_task`, and never any other (`SchedClaims.WipeMeetsOnlyFirstEntries`). If that vcpu
  posts its snapshot between the two stores of the wipe, a target is left in word 0 and missing from word 1
  (`SchedRace.DirtyWipeBreaksClaim`, three vcpus and one function; `SchedRace.DirtyWipeBreaksRekick` for the other
  bitmap); if it holds a claim through the wipe, another vcpu can claim the same target, and both are bound to kick it
  (`SchedRace.TwoOwners`). For either bitmap, the wipe of word 1 leaves every
  claim accounted for if and only if word 0 is still empty and no first-entry vcpu is between claim and release
  (`SchedClaims.WipeExactIff`); every other step but the first store of the wipe keeps the claims
  (`SchedClaims.ClaimsKept`). So claims are exclusive as long as the last wipe met the condition
  (`SchedClaims.ClaimsExclusive`), and every wipe meets it once a round has been won with all vcpus through their first
  entry (`SchedClaims.SettledForever`).
* **The alternate form drops digits** (`PrintfAlternate.AlternateLosesDigits`: `%#2x` of 0x12 prints `0x`, `%#03x` prints
  `0x2`). A printed number ends with all its digits if and only if it is not the case that digits and zeros together fill
  the width exactly, no precision being given, and the places that the prefix takes from them, two in base 16 and one in
  bases 2 and 8, are more than there are zeros (`PrintfAlternate.AlternateKeepsDigits`, `PrintfAlternate.OnlyTheWidth`).
* **The sign of a number is lost** when digits and zeros fill the 32-byte buffer (`PrintfFormat.SignLost`: `%.32d` of -1
  reads as 1); it comes back from the printed text if and only if they leave a place for it (`PrintfLaws.PrintThenRead`).
  In base 2 only the low 32 digits are printed.

## Model

| member | source | states |
|---|---|---|
| SchedModel.StartTyped | src/sched.c:36-64 | the state that the two initialisers leave is well-typed for every graph, pool size and leftover in-counts |
| SchedModel.StepTyped | src/sched.c:120-143 | no step of any vcpu uses an index outside its table, and the run set only ever holds function ids |
| Dag.EdgeBounds | src/sched.c:128-131 | the `uint8_t` bounds of the edge loop do not wrap, and the edges of a function lie inside the table |
| Dag.EdgeOwner | src/sched.c:128-131 | no edge is walked for two functions |
| Dag.EdgeSource | src/sched.c:128-131 | every edge of the table is walked for some function |
| Dag.PendingNone | src/sched.c:131-139 | the in-edges still to be processed are none exactly when all edges into the function have been processed |
| SchedRounds.RoundStep | src/sched.c:281-391 | every step of every vcpu keeps the round invariant |
| SchedRounds.RoundAlways | src/sched.c:281-391 | every reachable state satisfies the round invariant |
| SchedRounds.EdgeWaits | src/sched.c:131-139 | the edge that a vcpu is about to process has not been processed, its target still waits for it, and processing it lowers the target's open in-edges by one and nobody else's |
| SchedRounds.EveryStageOnce | src/sched.c:287-301 | in a round each function is published, taken, ended and counted in this order and at most once, by one vcpu at a time; its in-count is the number of its unprocessed in-edges, zero exactly when it is published or being published; it is in the run set exactly between publication and taking |
| SchedRounds.PublishedAfterPredecessors | src/sched.c:120-143 | a function that is published or taken has all its predecessors run to their end |
| SchedRounds.ZeroSeenOnce | src/sched.c:131-139 | a decrement never wraps, its target is not published yet, and it brings the in-count to zero exactly when all other edges into the target are processed |
| SchedRounds.RoundComplete | src/sched.c:300-308 | when the finished counter equals the number of functions, each has gone through every stage once and nobody holds one |
| SchedRounds.WonRoundComplete | src/sched.c:304-308 | the CAS on the finished counter succeeds in a round only when the round is complete, the run set empty and all in-counts zero |
| SchedRounds.RestartAlone | src/sched.c:308-338 | at most one vcpu restarts a round; until it publishes the start function the run set is empty, nobody else holds a function or walks the graph, no other CAS can succeed, in-counts not yet copied are zero, and in the end they are the in-degrees |
| SchedAwake.AwakeStep | src/sched.c:281-391 | every step keeps: each runnable function has a vcpu bound to look into its word, and a full finished counter has someone on the way to the CAS |
| SchedAwake.QuietMeansComplete | src/sched.c:287-308 | with an acyclic graph, nothing runnable and nobody holding a function means that the finished counter is full |
| SchedAwake.PoolNeverSleeps | src/sched.c:287-391 | in every reachable state at least one vcpu is awake and not committed to sleep |
| SchedAwake.RunnableNeverOrphaned | src/sched.c:145-201 | for every runnable function some vcpu is awake that cannot sleep before it has looked into that word of the run set |
| SchedLedgers.RunnableAlways | src/sched.c:103-117 | `runnable_tasks` is the run set plus publishers and takers between their two instructions |
| SchedLedgers.RunnableNeverUnderflows | src/sched.c:375 | the counter is never below the run set, its decrement never underflows, and it is zero when a round is won and when the recovery store resets it |
| SchedLedgers.TokensAlways | src/sched.c:229-240 | the right to issue tokens is in exactly one place, and stores, re-arms, tokens, passes and first kicks balance, whatever the amount of a store is (for the amount see SchedAlone.WakesTheSurplus) |
| SchedLedgers.TokensConserved | src/sched.c:229-257 | with the signal up no token is left and nobody is about to store or re-arm; with it down exactly one of pending store, tokens left and pending re-arm holds; first kicks never exceed passes, nor passes tokens, whatever the amount of a store is |
| SchedLedgers.FreeAlways | src/sched.c:245-253 | `num_free_vcpu` is the vcpus counted free, the kickers between count and mark, the marked targets, and the recorded surplus; the inactive bits are exactly the vcpus between setting and clearing them |
| SchedLedgers.RecoveryTestMeans | src/sched.c:326-330 | the condition of the recovery block, taken at one moment, means that the winner alone is counted free and nobody is mid-kick (that the steps store under this condition and no other is SchedAlone.RecoveryAlone) |
| SchedAlone.RecoveryAlone | src/sched.c:323-335 | from every reachable state at the recovery block the winner alone resets both counters exactly when no kick is marked and all others are asleep; the free-vcpu counter still covers what it stands for if it did before, and is exact when all others were asleep |
| SchedLedgers.RecoveryRestores | src/sched.c:326-334 | the recovery store makes the counter exact, and no less than what it stands for, if and only if no kick is marked or under way and no other vcpu is counted free, which the test ensures when it still holds |
| SchedLedgers.FreeNeverUnderflows | src/sched.c:305 | as long as the last recovery store met that condition, the counter is at least what it stands for and neither decrement underflows |
| SchedLedgers.RecoveryExcess | src/sched.c:331 | after a recovery store the counter falls short if and only if the store did not meet that condition |
| SchedRace.RacedRecoveryUnderflows | src/sched.c:326-334 | an interleaving of two vcpus in which the recovery store meets a spurious wake-up and the counter goes to -1 |
| SchedUnderflow.UnderflowIff | src/sched.c:326-334 | after a recovery store with no kick outstanding the run can go on, without another one, until the counter underflows, if and only if another vcpu was counted free at the store |
| SchedClaims.ClaimsKept | src/sched.c:210-272 | every step of every vcpu but the two stores that wipe a bitmap keeps each bit of word 1 either in word 0 or owned once |
| SchedClaims.WipeMeetsOnlyFirstEntries | src/sched.c:298-301 | while a round is restarted, only a vcpu on its first entry can be inside `wake_up_task` |
| SchedClaims.WipeExactIff | src/sched.c:319-322 | for either bitmap, the wipe of word 1 leaves every target accounted for if and only if word 0 is empty and no first-entry vcpu is between claim and release |
| SchedClaims.ClaimsExclusive | src/sched.c:233-272 | as long as the last wipe met that condition, word 0 is part of word 1, the other bits of word 1 are exactly those with an owner, and no target has two owners |
| SchedClaims.SettledForever | src/sched.c:319-322 | from the first round won with every vcpu through its first entry, every wipe that is over met the condition |
| SchedRace.DirtyWipeBreaksClaim | src/sched.c:319-320 | an interleaving of three vcpus in which the wipe leaves a target in word 0 that is missing from word 1 |
| SchedRace.DirtyWipeBreaksRekick | src/sched.c:321-322 | an interleaving of four vcpus in which the same happens to the bitmap of re-kicks |
| SchedRace.TwoOwners | src/sched.c:319-320 | an interleaving of four vcpus in which a wipe meets the owner of a target and two vcpus then own it |
| SchedQueue.Bsf | src/sched.c:158-161 | the lowest one bit of a word that has one |
| SchedQueue.RunQueue.constructor | src/sched.c:20-22 | an empty queue |
| SchedQueue.RunQueue.AddRunnableFn | src/sched.c:103-119 | the queue gains exactly this function and the counter one |
| SchedQueue.RunQueue.GetWork | src/sched.c:145-201 | returns and removes the least function in the queue, or -1 exactly when there is none |
| SchedQueue.ProcessEdge | src/sched.c:131-139 | the target's in-count falls by one and it becomes runnable exactly when that makes zero |
| SchedQueue.ProcessSchedDag | src/sched.c:120-143 | each in-count falls by the number of edges from the function to it, and exactly those brought to zero become runnable |
| SchedPaths.ScanLeads | src/sched.c:145-201 | the steps of `get_work`, undisturbed, take the least function out of the run set or find none exactly when there is none, and change nothing else |
| SchedAlone.ReturnsAlone | src/sched.c:281-301 | from every reachable state a vcpu back from function fn, undisturbed, counts itself free, lowers each in-count by the number of edges from fn, publishes and counts exactly those brought to zero, clears its slot, wakes others as `wake_up_task` should if the pool has any, counts fn as finished and looks for work |
| SchedAlone.EntersAlone | src/sched.c:281-301 | a vcpu on its first entry wakes others if the pool has any, and looks for work |
| SchedAlone.WakesTheSurplus | src/sched.c:203-273 | with more functions runnable than vcpus free, the signal up and no targets posted, a vcpu alone in `wake_up_task` makes exactly min(surplus, inactive vcpus that ask for one) first kicks, each on a different vcpu and on the lowest ones; stale stamps cost no token; nothing else is changed but the bitmaps and the token words |
| SchedSolo.WakeWhole | src/sched.c:203-273 | the same for any shared words at all, with tokens left by others and targets posted by others: the exact words behind the function |
| SchedAlone.TakesAlone | src/sched.c:373-388 | with something runnable a vcpu takes the least function, lowers both counters by one, names it in its slot and runs it |
| SchedAlone.RestartsAlone | src/sched.c:304-339 | with nothing runnable and all functions finished it resets the finished counter, wipes both bitmaps, recovers exactly under the condition, copies the in-degrees, publishes the start function and looks for work |
| SchedAlone.SleepsAlone | src/sched.c:340-353 | with nothing runnable and the round not finished it takes itself out of the free vcpus, marks itself inactive and halts |
| SchedAlone.RisesAlone | src/sched.c:352-371 | a vcpu that wakes up clears its inactive and its kicked bit, counts itself free exactly when it was not marked as kicked, and goes on where it should |
| SchedAlone.SlotAlways | src/sched.c:281-294 | in every reachable state `metadata->current` names the function that a vcpu runs or has just run, and nothing otherwise |
| SchedProgress.RoundsGoOn | src/sched.c:274-391 | no deadlock: from every reachable state, for every k, some schedule in which no vcpu moves that is asleep or on the way to sleep wins exactly k more rounds |
| Barrier.BarrierStep | include/util.h:261-283 | every step keeps: the barrier word counts the vcpus in an odd half, the condition follows the turns, all halves are within one of the turn, and whoever is about to store is behind nobody |
| Barrier.BarrierSafe | include/util.h:261-283 | nobody leaves a barrier that another vcpu has not entered, and entries differ by at most one |
| Barrier.StoresInOrder | include/util.h:168-172 | a store of the condition, late or repeated, either moves it on by one turn with every vcpu waiting for that, or changes nothing |
| Barrier.NoLostWakeUp | include/util.h:144-187 | a vcpu halted for the value that the condition has holds a latched kick, or another vcpu inside `cond_set` is still bound to kick it |
| Barrier.NobodyLeftBehind | include/util.h:181-187 | with every `cond_set` over and every kick consumed, nobody sleeps through the value it waits for |
| Barrier.SleepersWaitForArrivals | include/util.h:261-283 | no deadlock: when everybody inside a barrier is asleep, they sleep in the first half of the same barrier and some vcpu outside has not entered it |
| BarrierProgress.EverybodyGetsThrough | include/util.h:144-283 | no deadlock: from every reachable state, for every k, some schedule in which nobody wakes up without having been kicked takes every vcpu through k more barriers |
| TaskSegment.BootStep | include/util.h:227-251 | every step keeps: the mutex word is the one bit of its holder or zero, the bytes written so far stand, and what was loaded is the own segment |
| TaskSegment.Recombine | src/main.c:249-254 | the split fields give the segment's address and its limit back, in a loadable descriptor |
| TaskSegment.EveryVcpuLoadsItsOwn | src/main.c:394-399 | in every interleaving a descriptor about to be loaded, and the base that was loaded, name the vcpu's own segment, although neighbouring descriptors overlap |
| TaskSegment.EverybodyGetsThrough | include/util.h:227-251 | no deadlock: from every reachable state some schedule lets every vcpu take the mutex, load its own segment and release the mutex |
| Rendezvous.LeavesWhenAllAnnounced | src/main.c:143-176 | vcpu 0 leaves its loop exactly when every helper has announced itself, and initialises the scheduler only after that |
| Printf.Atoi | src/libc/printf.c:193-200 | the value of the digits modulo 2^32, and the position right behind them |
| Printf.Printer.Put | src/libc/printf.c:138-151 | the printed text gains a character; the buffer gets it only below the limit |
| Printf.Printer.OutRev | src/libc/printf.c:204-228 | the reversed buffer in its field of spaces |
| Printf.Printer.NtoaFormat | src/libc/printf.c:232-282 | zeros, alternate form, sign and field as specified, with the buffer index in bounds for any flags, width and precision |
| Printf.Printer.DigitLoop | src/libc/printf.c:298-302 | the digits of the value, least significant first, as many as fit |
| Printf.Printer.Ntoa | src/libc/printf.c:286-306 | the whole text of a number |
| Printf.Printer.PutString | src/libc/printf.c:801-825 | the ideal text of the conversion; which characters stand where in it is PrintfFormat.StringPrinted |
| Printf.Printer.PutChar | src/libc/printf.c:781-799 | the character in its field |
| Printf.Printer.PutInteger | src/libc/printf.c:695-761 | the ideal text of the conversion; base, sign, prefix, zeros, digits and value of it are PrintfFormat.IntegerPrinted |
| Printf.Printer.PutConversion | src/libc/printf.c:688-854 | the text of one conversion and the arguments it takes |
| Printf.Printer.PutFormat | src/libc/printf.c:592-855 | the ideal text of the whole format; its literal text, conversions and arguments are PrintfFormat.FormatPrints |
| Printf.Printer.Terminate | src/libc/printf.c:857-858 | a NUL behind the text or at the last place, and nothing at all in a buffer of size zero |
| Printf.ParseFlags | src/libc/printf.c:606-617 | the flags, and the first character that is none |
| PrintfParse.WidthRead | src/libc/printf.c:619-634 | an absent width reads as zero, a numeral as its value modulo 2^32, a star as its argument, a negative one asking for the left; the parser stops right behind it |
| PrintfParse.PrecisionRead | src/libc/printf.c:636-649 | the same for a precision behind its point, an empty or negative one counting as zero |
| PrintfParse.LengthRead | src/libc/printf.c:651-685 | each length modifier, spelled before a character that ends a specifier, is read as what it means and nothing behind it is taken |
| Printf.ParseSpecifier | src/libc/printf.c:606-685 | the four parts of a specifier, and the position of its conversion character |
| Printf.Vsnprintf | src/libc/printf.c:582-862 | truncation: the buffer gets the first maxlen - 1 characters of the ideal text and a NUL and keeps the rest, nothing is written at or above maxlen, and the result is the full length for every maxlen and for no buffer; place by place, the kept prefix, the NUL behind it and the old characters behind that; without a limit, as in `sprintf_`, a buffer that holds the text and a NUL is enough |
| PrintfSpec.DivisionIs | src/libc/printf.c:299-301 | the quotient and remainder of the digit loop are those of `/` and `%` |
| PrintfLaws.NumberLength | src/libc/printf.c:232-282 | the exact length of a printed number for all flags but the alternate form, any width and precision |
| PrintfLaws.NumberLengthSmall | src/libc/printf.c:232-282 | up to width 32 and precision 31, and when the digits leave a place for a sign, it is the greater of width and signed, zero-filled number |
| PrintfLaws.AssembleFits | src/libc/printf.c:235-279 | the 32-byte buffer is never overfull, alternate form included |
| PrintfLaws.StringLength | src/libc/printf.c:801-825 | the length of a printed string: width or cut string, whichever is longer |
| PrintfLaws.PrintThenRead | src/libc/printf.c:286-306 | a printed number read back gives the value, exactly in bases 8, 10 and 16 and modulo 2^32 in base 2, and its sign if and only if the buffer had a place for it |
| PrintfAlternate.AlternateKeepsDigits | src/libc/printf.c:248-267 | a number printed in the alternate form in base 2, 8 or 16 ends with all its digits, if and only if it is not the case that digits and zeros fill the field exactly and the cut goes further than the zeros |
| PrintfAlternate.OnlyTheWidth | src/libc/printf.c:637-649 | with the precision that a format passes, only the width can be filled so |
| PrintfAlternate.AlternateLosesDigits | src/libc/printf.c:248-267 | `%#2x`, `%#03x` and `%#04x` of 0x12 print `0x`, `0x2` and `0x12` |
| PrintfFormat.SignLost | src/libc/printf.c:269-279 | `%.32d` of -1 reads as 1 |
| PrintfParse.PrintThenAtoi | src/libc/printf.c:193-200 | `_atoi` reads a printed decimal number back modulo 2^32 and stops right behind its digits |
| PrintfParse.SpellThenParse | src/libc/printf.c:606-685 | any flags, width, precision and length modifier, spelled out and parsed, come back, stars and negative arguments included, and the parser stops at the conversion character |
| PrintfShape.NumberShape | src/libc/printf.c:232-306 | a printed number is spaces, sign, prefix, zeros, positional digits, spaces, each on the side and in the number that value, flags, width and precision ask for; of what stands between the spaces the last 32 characters; any flags, alternate form included |
| PrintfFormat.IntegerPrinted | src/libc/printf.c:688-761 | from the request to the text: an integer conversion prints its argument, reduced modulo 2^8, 2^16, 2^32 or 2^64 into the range of its length modifier, in base 10 (d, i, u), 16 (x, X), 8 (o) or 2 (b), in the shape that its flags, width, precision and stars ask for |
| PrintfFormat.LettersPrinted | src/libc/printf.c:711-714 | `%X` prints no small letter and every other integer conversion no capital |
| PrintfFormat.RequestThenRead | src/libc/printf.c:592-761 | from a request to the text and back, in the base that the conversion stands for: the text reads as the argument in the type of its length modifier, with any flags but the alternate form, width, precision, length modifier and stars, up to 32 digits in base 2 and to the place that the buffer has for a sign |
| PrintfFormat.StringPrinted | src/libc/printf.c:801-825 | `%s`: min(length, precision) characters of the string, in order, at the left end with `-` or a negative star and at the right end otherwise, in a field of exactly the width or as long as they need, everything else spaces |
| PrintfFormat.ConversionPrinted | src/libc/printf.c:592-854 | any conversion, `%c`, `%p`, `%%` and unknown characters included, prints what its request asks and the format behind it goes on with the arguments behind its own |
| PrintfFormat.LiteralPrinted | src/libc/printf.c:592-598 | a text without a percent sign is printed as it is, in front of what the rest of the format prints |
| PrintfFormat.PercentPrinted | src/libc/printf.c:845-848 | two percent signs print one and take no argument |
| PrintfFormat.FormatPrints | src/libc/printf.c:592-855 | any list of literal texts and conversions in front of any other format prints the texts in order, each conversion with the arguments behind those of the conversions before it, and then the other format with the arguments that are left |

## Left out

- Weak memory: store buffers and the `sfence` instructions of `cond_set`.
- SchedUnderflow.UnderflowIff: recovery stores while a target is marked kicked or about to be; the marks may then bring the counter back, and whether the run can still underflow is not characterised.
- Liveness under a fair scheduler: that spin loops end and kicked vcpus run. What is proved is that the scheduler, the barrier and the boot section can always go on from every reachable state, by some schedule.
- SchedLedgers.TokensAlways: says nothing of the amount that a store of tokens issues; SchedAlone.WakesTheSurplus says it for a vcpu alone, and with interference the two counters are loaded at different moments.
- SchedLedgers.TokensConserved: the same.
- Counters that step over 2^63 or 2^64, and time stamps (`tsc`, `hlt_ts`, `kick_ts`, `dag_ts` and the other statistics).
- A helper that wakes up between its arrival in `main` and the end of `scheduler_init_post`.
- `jump_usermode`, page tables, `cr3`, system calls, model-specific registers, stacks, port output.
- Interrupts, PIC, APIC, inter-processor interrupts and the boot assembly, except for the `ltr` in `flush_tss`.
- Contents of the task segment itself (`rsp0`, `iomap_base`), and the user-mode descriptors filled after the locked section.
- `mutex_lock` is modelled where `init_boot` uses it; the mutex around `printf_` is not.
- PrintfFormat.FormatPrints: conversion characters that the parser could still read as part of the specifier (`%lll`, `%5*`), which no request spells.
- SchedQueue.RunQueue: one vcpu alone; the interleavings of the same code are those of `SchedModel`.
- Printf.Vsnprintf: the character and function outputs are not covered; needs a text shorter than 2^31; formats that end inside a specifier, missing arguments, the most negative value of a signed conversion and the most negative `*` width are excluded, all undefined in C.
- Floating-point conversions (`%f`, `%e`, `%g`): they rest on IEEE arithmetic.
- PrintfLaws.NumberLength: the alternate form is left out of the length law and of PrintfLaws.PrintThenRead, because it may drop digits; PrintfAlternate.AlternateKeepsDigits says when, and the buffer bound includes it.
- `mutex_lock_hlt`, `src/stack.c`, `src/mm.c` and `src/libc/util.c`: sequential code that would add only easy members.

# Verified model of the trading platform's core

The Go platform under `services/internal` signs its own chain transactions, keeps
a weekly prize ledger, guards open positions, limits what an account may risk,
caches market data and watches price bars for signals. This project models the
logic of those parts in Dafny and proves what they keep, one module per source
file. `dafny verify dfyconfig.toml` verifies all of it.

How the source is rendered:

- A Go object whose methods change its fields under a lock is a class. Each
  critical section is a method whose contract gives the whole new state as a
  function of the old one, and a protocol is a run of those functions in any
  order: callers, retries, the venue and the clock are events of the run. Time
  only goes forward, because a run says how long passes between events.
- What such a function means is stated beside it without naming it, with the source's
  own numbers: which bytes are signed, when an order is allowed, what an amendment
  leaves, what the index is (the lemmas named `...Means`, `...Iff`, `...Reads`).
- Signals keep a ghost `hist`, every closed bar taken in. Their invariants say
  what the trimmed buffers are in terms of the whole stream.
- Integers are Dafny's, with int64 and uint64 arithmetic written out where the
  source depends on it (`Machine`, `Fixed`, `Decimal`, `Rsi.MachineAgrees`). A Go
  panic is a result (`None`).
- Chain words and RLP are byte strings. The readers the source does not have
  (`Rlp.Decode`, `Abi.ReadArray`) follow Appendix B of the Ethereum Yellow Paper
  and the "Formal Specification of the Encoding" of the Solidity Contract ABI
  Specification.
- Times are integers counted from Go's zero time, so truncating to a period is a
  remainder.

Where the code does less than one would hope, the code is modelled as it is, with the
input that shows it and the exact condition under which it does hold:

- `mulDiv` says it panics when the result does not fit. A quotient that rounds up
  from 2^64 - 1 wraps to 0 instead (`Fixed.MulDivExact`, `Fixed.WrappedCorner`).
- `Parse` takes a second sign, in front of the whole part or of the fraction, where it
  also counts as a place (`Decimal.ParseIff`, `Decimal.SecondSigns`).
- A transaction's preimage ignores the access list and the sign of an amount
  (`Tx.PreimageIff`, `Tx.SignIsNotCommitted`).
- An open that arms a stop alone overwrites the row of a horizon still armed, so
  a restart loses that horizon (`Guards.StepBackedIff`, `Guards.UncoveredOpenLoses`).
- A stop whose position is found gone leaves its row, so a restart can arm it again
  on a newer position (`Guards.StepMatchedIff`, `Guards.StaleStopReturns`).
- Rows of older account names outlive the account's own, so one of the same symbol
  overrides its deadline at every restart (`Guards.RestartIff`,
  `Guards.OlderRowOverrides`).
- With k orders out at once a position limit can be passed by k - 1, and an exposure
  limit by k - 1 of the largest orders, for every limit and k, so both hold exactly
  when k is at most one (`Policy.LimitIffOneAtATime`, `Policy.LimitCanBePassed`,
  `Policy.ExposureIffOneAtATime`, `Policy.ExposureCanBePassed`).
- A deadline set again to the instant that is just firing drops out of the timer
  table; the table stays coherent exactly in runs without that (`Timers.RunCoherent`,
  `Timers.SameInstantForgets`).
- The index of a price stream fails in int64 when its ratio of averages is too large
  (`Rsi.MachineAgrees`, `Rsi.RatioCanOverflow`).
- A long enough level stretch makes the moving average signal report a cross that
  the whole stream does not have (`MaCross.ReportIff`, `MaCross.FlatStretchMisreports`).
- An opening session off the bar grid gets no range unless a bar is shorter than the
  range (`Orb.RangeIff`, `Orb.HourlyMissesNewYork`).
- The bar builder takes a zero low for a missing price (`BarBuilder.LowIff`), and
  closes bars in order, once each, exactly for streams that never go back a bucket
  (`BarBuilder.ClosesRight`, `BarBuilder.GoingBackCloses`).
- Signed EIP-712 fields are told apart by their words exactly up to 256 bits
  (`TypedData.SignedApartIff`, `TypedData.WideNumbersCollide`).
- Type and field names are not checked. Two documents with clean names encode alike
  exactly when they define the type alike; a clean document is told apart from all
  others, clean or not, exactly when its type reaches no other and has at most one field
  (`Eip712.EncodingCommits`, `Eip712.EncodingPinsIff`, `Eip712.UncleanNamesCollide`).

## Model

| member | source | states |
|---|---|---|
| Rlp.UintBytes | services/internal/chain/rlp.go:50-64 | The filled and stripped eight-byte buffer is the shortest big-endian form of the number. |
| Rlp.RlpEncode | services/internal/chain/rlp.go:12-33 | The recursive printer with its growing body yields the encoding that `RoundTrip`, `PrefixFree` and `EncodeInjective` are about, for every value. |
| Rlp.HeadRoundTrip | services/internal/chain/rlp.go:42-48 | Every length prefix, short or long, string or list, reads back as its kind, its own width and the length announced, whatever follows. |
| Rlp.RoundTrip | services/internal/chain/rlp.go:12-64 | A decoder recovers from a printed value followed by any bytes exactly that value's item and exactly those bytes. |
| Rlp.DecodeSound | services/internal/chain/rlp.go:12-64 | The decoder accepts nothing but printed values: what it reads, printed again, is the input. |
| Rlp.PrefixFree | services/internal/chain/rlp.go:12-64 | No printed value is a proper prefix of another. |
| Rlp.EncodeInjective | services/internal/chain/rlp.go:12-64 | Two values print alike if and only if they stand for the same item. |
| Tx.PreimageIff | services/internal/chain/tx.go:52-67 | For all transactions, signing preimages are equal exactly when every field sent is equal up to sign and nil against zero. |
| Tx.PreimageReads | services/internal/chain/tx.go:52-67 | What is signed is type byte 2 and one list that decodes to exactly the nine fields in their order: chain ID, nonce, tip, fee cap, gas, recipient, amount, data and an empty access list. |
| Tx.PreimageCommits | services/internal/chain/tx.go:52-67 | With non-negative amounts, equal preimages mean equal fields, nil value counted as zero. |
| Tx.SignIsNotCommitted | services/internal/chain/tx.go:52-67 | A concrete pair that differs in the sign of its value and shares its preimage. |
| Tx.RawSignedIff | services/internal/chain/tx.go:69-82 | A raw signed transaction determines its fields and its signature, and is never another transaction's preimage. |
| Tx.RawReads | services/internal/chain/tx.go:69-82 | A raw transaction is type byte 2 and one list of the same nine items, then v, r and s. |
| Abi.BuildWord | services/internal/chain/abi.go:22-49 | The word built in place for every kind of argument, and the panic for a number too long for it. |
| Abi.UintBytes8 | services/internal/chain/abi.go:51-58 | The eight bytes filled from the right are the fixed-width big-endian form. |
| Abi.SignedRoundTrip | services/internal/chain/abi.go:22-49 | A signed number survives a word and `Int128` if and only if 256-bit two's complement can hold it. |
| Abi.WordMeans | services/internal/chain/abi.go:22-49 | An address lies in the last twenty bytes and a flag in the last bit behind zeros, a number that is not negative is big-endian at the end. |
| Abi.NumValue | services/internal/chain/abi.go:92-95 | An unsigned word reads back as the number printed. |
| Abi.Words | services/internal/chain/abi.go:71-81 | Cutting a payload into words fails exactly for a ragged one, and otherwise loses nothing. |
| Abi.EncodeCall | services/internal/chain/abi.go:121-143 | The loop with its running offset prints static words, one offset per array and the segments, as the layout that `CallReadsBack` reads. |
| Abi.EncodeArrays | services/internal/chain/abi.go:97-119 | Its bytes are those of a call without static words. |
| Abi.SegmentsTile | services/internal/chain/abi.go:121-143 | Segments start right after the head, follow one another without gap or overlap and end with the payload; each is its array's length and elements. |
| Abi.OffsetWord | services/internal/chain/abi.go:121-143 | The i-th offset word names the byte where array i's segment starts. |
| Abi.CallReadsBack | services/internal/chain/abi.go:121-143 | Every static word reads back in place, and following the i-th offset yields exactly array i. |
| Abi.CallInjective | services/internal/chain/abi.go:121-143 | Calls of one shape are equal bytes if and only if all their words are equal. |
| Fixed.MulDivExact | services/internal/fixed/fixed.go:313-355 | For all operands: the quotient rounded half away from zero when its magnitude is at most 2^63 - 1, 0 in the one wrapped corner, a panic otherwise. |
| Fixed.FallbackPanics | services/internal/fixed/fixed.go:324-355 | The fallback is entered exactly for quotients of at least 2^64, and never returns a value. |
| Arith.RoundDivNearest | services/internal/fixed/fixed.go:313-339 | What is called the rounded quotient here is the nearest integer, and of two equally near ones the one away from zero. |
| Fixed.WrappedCorner | services/internal/fixed/fixed.go:329-332 | Concrete operands whose quotient rounds to 2^64 and comes back as 0. |
| Fixed.DAgrees | services/internal/fixed/fixed.go:206-225 | Decimal product and quotient are the exactly rounded ones whenever those fit. |
| Fixed.DNearest | services/internal/fixed/fixed.go:206-224 | In units of 1e-8 they are within half a unit of the exact ones, and dividing by zero is an error. |
| Fixed.ScaledMeaning | services/internal/fixed/fixed.go:47-99 | Both conversions are exact or refused towards more places and rounded half away from zero towards fewer, over all values and places. |
| Fixed.ScaledRoundTrip | services/internal/fixed/fixed.go:47-99 | Scaling towards more places and back is the identity whenever the first step succeeds. |
| Decimal.RoundTrip | services/internal/fixed/fixed.go:104-176 | Parsing the text of a value gives the value back, except for the minimum, whose text is refused. |
| Decimal.ParseReads | services/internal/fixed/fixed.go:104-151 | Any numeral, between spaces and with a sign or none, reads as the value its digits spell in units of 1e-8; it is out of range exactly with more than eight places or a value above 2^63 - 1. |
| Decimal.ParseIff | services/internal/fixed/fixed.go:104-151 | Of all texts, exactly which are read and as what: spaces around, a sign, a whole part and a fraction that fit; either part may have a sign of its own, and the fraction's counts as one of its eight places. |
| Decimal.SpacesMean | services/internal/fixed/fixed.go:105 | The spaces trimmed are tab, line feed, vertical tab, form feed, carriage return and the space. |
| Decimal.SecondSigns | services/internal/fixed/fixed.go:104-151 | "-+5" reads as minus five and "1.+5" as one and five hundredths. |
| Decimal.OneAndAHalf | services/internal/fixed/fixed.go:104-151 | One and a half reads as 150,000,000 units. |
| Decimal.StringInjective | services/internal/fixed/fixed.go:164-176 | Values other than the minimum share a text only when equal. |
| Decimal.StringCanonical | services/internal/fixed/fixed.go:164-176 | Sign only when negative, no leading zero, at most eight places and no trailing zero. |
| Prize.Allocate | services/internal/platform/prize.go:206-226 | The two loops give every strategy with an accrual what `AllocationBounds` is about. |
| Prize.AllocationBounds | services/internal/platform/prize.go:206-226 | Never more than received in total or than accrued per strategy; all of the accrual when enough arrived, otherwise short of the receipt by less than one unit per strategy. |
| Prize.AllocationFair | services/internal/platform/prize.go:206-226 | Each strategy with an accrual has it in full when enough arrived, and otherwise its proportional share of the receipt rounded down. |
| Prize.Ledger.Accept | services/internal/platform/prize.go:166-192 | Every refusal in its order, a missing or failing journal among them, and that none of them, a second receipt of a week included, changes anything. |
| Prize.AcceptedIff | services/internal/platform/prize.go:166-192 | A receipt is accepted if and only if it is not negative, its week is over, the journal reads and saves, and the week has none yet. |
| Prize.WeekMeans | services/internal/platform/prize.go:113-117 | Week w is the seven days from second 604,800 w - 259,200, a midnight, on, and that day is a Monday. |
| Prize.Ledger.QueueFunding | services/internal/platform/prize.go:193-203 | The locked loop adds each non-zero part to its own entry and no other. |
| Prize.Ledger.TakeBatch | services/internal/platform/prize.go:273-276 | The whole queue moves to the batch. |
| Prize.Ledger.PutBack | services/internal/platform/prize.go:279-287 | A failed amount joins whatever its entry holds by then. |
| Prize.Ledger.Flush | services/internal/platform/prize.go:272-296 | A flush on its own: what lands leaves the queue, the rest stays as it was, and the counters count both. |
| Prize.StepConserves | services/internal/platform/prize.go:166-296 | Every critical section and every send outcome keeps waiting + queued + in batches + landed equal to what the receipt granted, for every week and strategy. |
| Prize.RunConserves | services/internal/platform/prize.go:166-296 | So does every interleaving of receipts and concurrent flushes. |
| Prize.ReceiptIsFinal | services/internal/platform/prize.go:180-192 | A week's accepted receipt never changes. |
| Prize.NeverOverpaid | services/internal/platform/prize.go:166-296 | In every run, what lands for a week never exceeds what was received for it. |
| Prize.DrainedIsPaid | services/internal/platform/prize.go:166-296 | Once nothing of a week is waiting or in flight, all accrued has landed, or all received but less than one unit per strategy. |
| Prize.Winners | services/internal/platform/prize.go:360-386 | The loop with its early exit picks the first three payable rows with a positive result, in order, with 50, 30 and 20 percent. |
| Prize.WinnersAreBest | services/internal/platform/prize.go:360-386 | Nobody eligible who is left out did better than anyone paid, and with fewer than three winners nobody is left out. |
| Prize.SharesMean | services/internal/platform/prize.go:360-386 | Of every settlement, first place gets 50 percent of the pool, second 30 and third 20, each rounded down. |
| Prize.PoolCovers | services/internal/platform/prize.go:360-386 | The prizes never exceed the pool, fall short by less than three units when all are taken, and a better place never pays less. |
| Timers.Timers.Schedule | services/internal/strategy/timers.go:51-73 | The key's former callback is stopped and replaced. |
| Timers.KeyMeans | services/internal/strategy/timers.go:51-90 | Scheduling leaves one callback waiting for the key, at the new time, and cancelling leaves none; no other key is touched. |
| Timers.Timers.Fire | services/internal/strategy/timers.go:57-70 | The callback forgets the entry whose time is its own. |
| Timers.Timers.Close | services/internal/strategy/timers.go:93-100 | Nothing is left pending or waiting. |
| Timers.StepCoherent | services/internal/strategy/timers.go:51-90 | A step keeps every waiting callback the one its key's entry would stop, and every entry's callback still to run, if and only if it does not set a key to an instant already firing for it. |
| Timers.RunCoherent | services/internal/strategy/timers.go:51-90 | Over every interleaving, the table is coherent all along if and only if no key is ever set to an instant already firing. |
| Timers.OnePerKey | services/internal/strategy/timers.go:51-90 | At most one callback per key is ever waiting, at the time `Deadline` shows. |
| Timers.NewerEntrySurvives | services/internal/strategy/timers.go:57-70 | In every such run a callback forgets its own entry and no other, although it compares times only. |
| Timers.SameInstantForgets | services/internal/strategy/timers.go:57-70 | A concrete run in which an equal time loses the entry while its timer still runs. |
| Guards.Service.Open | services/internal/platform/service.go:425-440 | The deadline, the stop and the row after an open, for every combination of horizon and bounds. |
| Guards.OpenMeans | services/internal/platform/service.go:425-440 | When an open goes through, and what it leaves: the deadline is now plus the horizon, a stop is armed if and only if a bound is positive, the row says what was given, and no other symbol changes. |
| Guards.Service.Amend | services/internal/platform/service.go:585-656 | The merged exits, the deadline pushed out from the later of now and the one in force, the row written or deleted, and every refusal. |
| Guards.AmendIff | services/internal/platform/service.go:585-656 | An amendment goes through if and only if its exits and extension are in range, a position is open and the extended deadline is at most a day ahead; otherwise nothing changes. |
| Guards.AmendMeans | services/internal/platform/service.go:614-656 | After it each bound is the one asked for, or else the one there was; the stop is armed if and only if one is positive; an extension runs from the later of now and the deadline in force, which otherwise stays; the row says the same. |
| Guards.Service.Disarm | services/internal/platform/service.go:679-686 | Every exit drops deadline, stop and row before the venue is read. |
| Guards.ExitsMean | services/internal/platform/service.go:519-571 | An exit and a fired timer drop deadline, stop and row of their symbol, a position found gone its stop, and none touches another symbol. |
| Guards.Service.CloseOnHorizon | services/internal/platform/service.go:556-571 | Up to three attempts through the one exit, with any events while the timer sleeps between them. |
| Guards.HorizonTries | services/internal/platform/service.go:556-571 | It tries again only after the venue failed and three times at most, with what happens while it sleeps in between. |
| Guards.HorizonDropsGuards | services/internal/platform/service.go:556-571 | However often the venue fails and whatever happens meanwhile, nothing of the symbol is left armed or stored. |
| Guards.Service.Restore | services/internal/platform/service.go:175-202 | The rows read back, in their order, are what is armed. |
| Guards.StepBackedIff | services/internal/platform/service.go:425-440 | A step keeps every armed guard equal to its stored row if and only if it is neither an open that leaves an armed guard out of the row it writes nor a restart whose older rows say something else. |
| Guards.RunBacked | services/internal/platform/service.go:425-686 | So over every run of opens, amendments, closes, timers, positions found gone and restarts. |
| Guards.UnarmedRunCovers | services/internal/platform/service.go:425-440 | A run that only opens symbols with nothing armed meets that condition throughout. |
| Guards.RowsReadBack | services/internal/platform/service.go:175-202 | A restart arms what the older rows of a symbol say last, and otherwise what its own row says. |
| Guards.CrashKeepsGuards | services/internal/platform/service.go:175-202 | After any such run, restarts included, a service that starts on the stored rows arms every deadline and stop that was armed, unchanged, if and only if no older row of the symbol says otherwise. |
| Guards.OlderRowOverrides | services/internal/platform/service.go:183-191 | A concrete older row that overrides the account's deadline, and comes back after a close. |
| Guards.RestartMatches | services/internal/platform/service.go:175-202 | A service that has read its rows back is backed, and matched, if and only if the older rows say no more than its own. |
| Guards.RestartIsBacked | services/internal/platform/service.go:175-202 | Without older rows it always is, so the argument repeats. |
| Guards.UncoveredOpenLoses | services/internal/platform/service.go:425-440 | A concrete open after which a restart loses an armed horizon. |
| Guards.RestartIff | services/internal/platform/service.go:175-202 | A restart arms exactly what was armed: on a matched symbol if and only if the older rows say nothing else of it, and without older rows if and only if the symbol was matched. |
| Guards.StepMatchedIff | services/internal/platform/service.go:519-523 | A step keeps rows and guards matched if and only if it neither leaves an armed guard out of the row it writes, nor forgets a stop and leaves its row, nor is a restart whose older rows say something else. |
| Guards.CrashRestoresExactly | services/internal/platform/service.go:175-202 | Started on any rows, after any run of such steps and any number of crashes, a restart arms exactly what was armed if and only if the older rows say nothing else of the symbol. |
| Guards.StaleStopReturns | services/internal/platform/service.go:519-523 | A concrete run after which a restart arms a stop that was gone, on a position opened without one. |
| Guards.RunSoon | services/internal/platform/service.go:614-656 | No deadline, armed or stored, is ever further out than the longest horizon, restarts included. |
| Guards.AmendRepairs | services/internal/platform/service.go:614-656 | A successful amendment backs its symbol whatever came before, never moves a deadline in, keeps what it does not name, and touches no other symbol. |
| Policy.Engine.Authorize | services/internal/policy/policy.go:300-395 | The verdict of every branch in its order, with its limit, amount and wait, and that a refusal changes at most the day. |
| Policy.AllowedIff | services/internal/policy/policy.go:300-395 | An opening order is allowed if and only if account and symbol are given, the switch is off, the account has limits that list the symbol, notional and leverage are in bounds, the day's loss is below its limit, position and exposure have room and the cooldown is over; and the switch is the reason given if and only if it is on. |
| Policy.AllowedInRun | services/internal/policy/policy.go:300-395 | In every run from an empty engine the same with the journal: opening stops for the day exactly when the closes recorded under the key since midnight UTC net a loss of the limit. |
| Policy.RefusalMeans | services/internal/policy/policy.go:326-393 | Every refusal names the limit in the way and an amount that is really past it, or a wait that is not over. |
| Policy.SymbolsMatch | services/internal/policy/policy.go:520-524 | Symbols match letter by letter up to case folding, and no others do. |
| Policy.KillStops | services/internal/policy/policy.go:275-290 | Over every run, from the moment the switch is on until it is turned off no order joins those that were out, and every opening order is refused for it. |
| Policy.LimitsInForce | services/internal/policy/policy.go:95-121 | In every run the limits in force name a market and leave something to trade with, and any that do are put in force. |
| Policy.CooldownWait | services/internal/policy/policy.go:384-392 | The wait is exact: the same request is refused for the cooldown again after any shorter wait and after no longer one. |
| Policy.TomorrowWait | services/internal/policy/policy.go:504-506 | So is the wait for tomorrow after the daily loss, in every state a run comes to. |
| Policy.Engine.RecordOpen | services/internal/policy/policy.go:400-409 | One more position and its notional under the group's key, on today's state. |
| Policy.Engine.RecordClose | services/internal/policy/policy.go:414-431 | One position fewer, exposure floored and cleared when flat, the loss moved by the result. |
| Policy.RecordsMean | services/internal/policy/policy.go:400-431 | What an open and a close make of the day's state under the key, its loss, count, exposure and cooldown, and that nothing else changes. |
| Policy.Engine.Reconcile | services/internal/policy/policy.go:437-455 | Count and exposure become those of the positions given. |
| Policy.ReconcileMeans | services/internal/policy/policy.go:437-450 | Each position given counts once and with its value, from zero, under the group's key, and nothing else changes. |
| Policy.Engine.Snapshot | services/internal/policy/policy.go:461-472 | The view of today's state, rolled if the day turned. |
| Policy.TodayIsLogged | services/internal/policy/policy.go:496-502 | The running loss, rolled to today, is the negated sum of today's closes under the key. |
| Policy.DailyLossIsLogged | services/internal/policy/policy.go:166-171 | After any run across a group's accounts, the reported daily loss is the net of exactly the closes recorded that UTC day, whichever operation rolled it. |
| Policy.OpenFromFlat | services/internal/policy/policy.go:300-431 | From a flat account, with at most k orders between authorisation and record, open + in flight stay within the limit - 1 + k, whatever the fills are worth. |
| Policy.ExposureFromFlat | services/internal/policy/policy.go:300-431 | If moreover fills are recorded at no more than authorised, exposure + in-flight notional stay within the limit + (k - 1) largest orders, and exposure is never negative. |
| Policy.ExposureCanBePassed | services/internal/platform/service.go:402-420 | For all amounts 1 <= N <= E and every k, some such run from flat ends with exactly E + (k - 1) N exposed. |
| Policy.ExposureIffOneAtATime | services/internal/platform/service.go:402-420 | So the exposure limit holds in every such run if and only if k is at most one. |
| Policy.OneAtATimeIsExact | services/internal/platform/service.go:402-420 | With one order at a time both limits hold exactly, each on its own terms. |
| Policy.LimitCanBePassed | services/internal/platform/service.go:402-420 | For every limit m and every k, some run from flat ends with exactly m - 1 + k positions open. |
| Policy.LimitIffOneAtATime | services/internal/platform/service.go:402-420 | So the limit holds in every run if and only if k is at most one. |
| Policy.RunFlat | services/internal/policy/policy.go:400-455 | Over every run, exposure is never negative and is 0 whenever no position is counted. |
| Policy.ClosingAlwaysPasses | services/internal/policy/policy.go:306-312 | At any point of any run a close is allowed, and asking for it changes nothing that comes after. |
| Memo.Memo.Begin | services/internal/platform/memo.go:37-58 | A caller hits, joins or computes, and the map after each. |
| Memo.Memo.Prune | services/internal/platform/memo.go:73-87 | The loop removes exactly the finished entries past the TTL, once there are enough. |
| Memo.PruneIff | services/internal/platform/memo.go:73-87 | A key is dropped if and only if there are 512 or more and its computation ended longer ago than the TTL. |
| Memo.PruneKeepsLive | services/internal/platform/memo.go:73-87 | Over any run, a computation in flight stays listed until it ends or its key is forgotten, and whoever asks joins it. |
| Memo.PruneKeepsFresh | services/internal/platform/memo.go:73-87 | Over any run, a value younger than the TTL whose key is not forgotten answers whoever asks. |
| Memo.OneAtATime | services/internal/platform/memo.go:37-62 | In any run, with no Forget in between, a second computation of a key started only after the first was over and had failed or aged at least the TTL. |
| Memo.JoinersAgree | services/internal/platform/memo.go:37-62 | A computation's result, once there, is the same for everyone who holds it, for good. |
| Memo.ForgottenIsGone | services/internal/platform/memo.go:64-69 | A Get that comes any time after a Forget is served by a computation that started after it. |
| Memo.HitIsFresh | services/internal/platform/memo.go:37-47 | In any run, what is answered at once is a value of the key, younger than the TTL and started after every Forget so far, and nothing is computed while such a value or a computation in flight is there. |
| Cards.MarketContext.Look | services/internal/platform/context.go:148-192 | What a caller does next after each turn of the loop, and that only a fetch changes the entry. |
| Cards.LookMeans | services/internal/platform/context.go:141-192 | An unknown market is refused, one not in memory read from the store, a fetch under way awaited, a card held served until the TTL is over and an error answered for a minute. |
| Cards.MarketContext.Stored | services/internal/platform/context.go:173-190 | Only the first caller back from the store makes the entry. |
| Cards.StoreMeans | services/internal/platform/context.go:167-190 | A kept card is served for the rest of its TTL; without one the market is fetched; an entry made meanwhile is left alone. |
| Cards.MarketContext.Refreshed | services/internal/platform/context.go:205-228 | The entry and the answer after a fetch that worked or failed, with or without a card held. |
| Cards.FetchMeans | services/internal/platform/context.go:205-228 | A card got is served for the TTL; a failed fetch leaves the card held, marked stale, for the TTL, or answers its error for a minute; after that the market is fetched again. |
| Cards.RefreshesTakeTurns | services/internal/platform/context.go:148-229 | In every interleaving, a market's next refresh starts only after the last one ended, at least the TTL later when a card was held and at least the retry pause later otherwise. |
| Cards.NeverServesEmpty | services/internal/platform/context.go:148-229 | In every interleaving no caller is ever given an empty card, at once or after its own fetch. |
| Cards.KeptCardIsServed | services/internal/platform/context.go:173-190 | Once the store has handed back a kept card, no run refreshes the market before the card is older than the TTL; everyone is served it. |
| Cards.RestartServesKept | services/internal/platform/context.go:173-190 | The same from a restart on, whatever else happens. |
| Candles.AcceptAllAscends | services/internal/strategy/orb.go:171-205 | Whatever a stream brings, in whatever order, the history a signal keeps ascends. |
| Candles.AcceptIff | services/internal/strategy/orb.go:171-205 | A bar joins the history if and only if its period is over and it opens after the last. |
| Rsi.RSI.Append | services/internal/strategy/rsi.go:143-193 | Appending and trimming keep the buffers, the averages and the last cross those of the whole stream. |
| Rsi.RSI.Extend | services/internal/strategy/rsi.go:150-180 | The new value is the unbounded Wilder recurrence's: warm-up, first averages and blending. |
| Rsi.RSI.Apply | services/internal/strategy/rsi.go:123-141 | A live bar extends the stream exactly when it is closed and newer. |
| Rsi.RSI.Seed | services/internal/strategy/rsi.go:102-121 | Seeding is taking the bars in one by one, with all the invariant says. |
| Rsi.AppendFaithful | services/internal/strategy/rsi.go:143-193 | The kept values are exactly the last min(n, History) terms of the unbounded index, and the last cross the stream's last zone entry. |
| Rsi.LastCrossIsLast | services/internal/strategy/rsi.go:180-193 | The last cross is the zone entry of the last bar that made one. |
| Rsi.EntryMeans | services/internal/strategy/rsi.go:180-193 | A zone entry is the index coming down to the oversold edge, for a long, or up to the overbought one, for a short, and is dated one bar after the bar opened. |
| Rsi.StreamInRange | services/internal/strategy/rsi.go:195-205 | Every value of every stream lies between 0 and 100. |
| Rsi.IndexMeans | services/internal/strategy/rsi.go:195-205 | The index is 50 without moves, 100 for rises alone, 0 for falls alone, and otherwise within 51 units of 1e-8 of 100 gain / (gain + loss). |
| Rsi.IndexGrows | services/internal/strategy/rsi.go:195-205 | It never falls when the average rise is higher, nor rises when the average fall is. |
| Rsi.AveragesMean | services/internal/strategy/rsi.go:150-180 | The averages are the mean rise and fall of the first Length changes, then each change weighs one part in Length, to within half a unit. |
| Rsi.MovesMean | services/internal/strategy/rsi.go:150-165 | Rises less falls is how far the stream came, and a bar adds its move to one of them only. |
| Rsi.OncePositive | services/internal/strategy/rsi.go:165-178 | An average once positive never rounds back to zero. |
| Rsi.MachineAgrees | services/internal/strategy/rsi.go:150-205 | With closes up to any cap whose Length-fold fits an int64, every product, quotient and sum of the averages is the exact one, and the index is computed if and only if its ratio leaves room for one unit. |
| Rsi.RatioFitsIff | services/internal/strategy/rsi.go:195-205 | The index of two averages can be computed in int64 if and only if their ratio leaves room for one unit. |
| Rsi.RatioCanOverflow | services/internal/strategy/rsi.go:195-205 | Three closes whose averages are exact and whose index cannot be computed. |
| MaCross.MACross.CrossAtIndex | services/internal/strategy/macross.go:193-218 | The backward search finds the last bar apart and reports a change of side. |
| MaCross.CrossMeans | services/internal/strategy/macross.go:193-236 | A cross is the fast average above the slow one, for a long, or below it, for a short, when the last bar apart was the other way or there was none. |
| MaCross.AverageMeans | services/internal/strategy/macross.go:222-236 | An average is the mean of its closes to within half a unit. |
| MaCross.MACross.Apply | services/internal/strategy/macross.go:164-183 | A newer closed bar joins the trimmed buffer, and the last cross is its or the one before. |
| MaCross.MACross.Seed | services/internal/strategy/macross.go:130-161 | Fill, trim, then the last cross of what is left. |
| MaCross.ReportIff | services/internal/strategy/macross.go:164-236 | For every stream, the report for the newest bar is the whole stream's, except exactly after averages level over all the buffer can see. |
| MaCross.FlatStretchMisreports | services/internal/strategy/macross.go:193-218 | Four bars after which a cross is reported that the stream does not have. |
| MaCross.CrossesAlternate | services/internal/strategy/macross.go:193-218 | Successive crosses point opposite ways. |
| MaCross.SeedEqualsLive | services/internal/strategy/macross.go:130-183 | Up to History bars, seeding equals replaying; without a long level stretch, replaying leaves the stream's own last cross. |
| Donchian.Donchian.ChannelBeforeIndex | services/internal/strategy/donchian.go:178-194 | The edges are the highest high and the lowest low of the Length bars before. |
| Donchian.BreakMeans | services/internal/strategy/donchian.go:178-210 | A breakout is a close above the highest high of the Length bars before, for a long at that level, or below their lowest low, for a short. |
| Donchian.Donchian.Apply | services/internal/strategy/donchian.go:148-167 | The remembered breakout after a bar is the whole stream's view of it, trimmed or not. |
| Donchian.Donchian.Seed | services/internal/strategy/donchian.go:119-146 | Fill, trim, then the last breakout of what is left. |
| Donchian.ReplayMeans | services/internal/strategy/donchian.go:148-167 | Replaying leaves the last breakout of the part replayed, or what was remembered. |
| Donchian.SeedAgainstLive | services/internal/strategy/donchian.go:119-210 | For any length, a seed remembers the live last breakout, or nothing exactly when that lies outside the last History - Length bars. |
| Donchian.SameOffer | services/internal/strategy/donchian.go:213-241 | On the grid, with Window at most (History - Length) periods, a seeded process and one that watched everything offer the same window. |
| Orb.ORB.OpensAround | services/internal/strategy/orb.go:257-272 | The scan over three days returns adjacent opens with last <= t < next. |
| Orb.ORB.Append | services/internal/strategy/orb.go:210-247 | The session and the last breakout stay those of the whole stream. |
| Orb.LastOpenMeans | services/internal/strategy/orb.go:249-272 | The session's open is the latest open at or before the bar. |
| Orb.SessionMeans | services/internal/strategy/orb.go:210-255 | Over any ascending stream, the range is the extremes of exactly the session's bars before RangeUntil, and the break its first bar within the watch to close strictly outside. |
| Orb.SessionLies | services/internal/strategy/orb.go:247-272 | Of every ascending stream the newest session opens at the latest of the days' opens, its range starts on the grid and lasts the range or a whole bar, and it is watched from its open. |
| Orb.SessionTells | services/internal/strategy/orb.go:210-247 | Its range is set by the bars from its open until the range ends, and it breaks out on the first bar from there to the end of the watch to close outside, above for a long and below for a short. |
| Orb.SessionCounts | services/internal/strategy/orb.go:221-231 | It counts exactly those bars. |
| Orb.NeverRevisited | services/internal/strategy/orb.go:210-255 | Sessions are never revisited. |
| Orb.OneBreakEach | services/internal/strategy/orb.go:231-246 | Each session breaks out at most once. |
| Orb.SeedSeesSession | services/internal/strategy/orb.go:163-189 | While the newest session's watch lasts, a seed of Lookback history leaves the session, its range and its break as the whole stream does. |
| Orb.SeedStaysRight | services/internal/strategy/orb.go:163-189 | And it stays so whatever bars follow. |
| Orb.OffGridOpenGetsNoRange | services/internal/strategy/orb.go:249-255 | On bars at least as long as the range, a session whose open is off the grid never gets one. |
| Orb.RangeIff | services/internal/strategy/orb.go:249-255 | For every stream of grid bars with the first bar of its newest session, the session has a range if and only if its open is on the grid or a bar is shorter than the range. |
| Orb.HourlyMissesNewYork | services/internal/strategy/orb.go:49-60 | On hourly bars the shipped 13:30 session gets no range, and a close far outside is no breakout. |
| BarBuilder.BarBuilder.Add | services/internal/platform/signals.go:354-384 | Each minute sends on the bar it closes, if any, then the bucket as it is forming, told from all the minutes of the bucket. |
| BarBuilder.ClosesRight | services/internal/platform/signals.go:345-384 | For every stream, bars close in ascending order, so once each, if and only if it never goes back a bucket; then all buckets but the newest close, each bar telling of all its minutes. |
| BarBuilder.ClosedBarMeans | services/internal/platform/signals.go:345-384 | Each closed bar has its bucket's first open, last close, highest high and total volume and trades, each minute in its final version; its low is the lowest under the condition of `LowIff`. |
| BarBuilder.ClosedBarCovers | services/internal/platform/signals.go:345-384 | For every stream in order, a closed bar starts on the grid, lasts one period and tells of exactly the minutes that open while it lasts, which lie together. |
| BarBuilder.Conserved | services/internal/platform/signals.go:363-380 | For every stream, what closed and forming bars count adds up to the final version of each minute. |
| BarBuilder.LowIff | services/internal/platform/signals.go:373-375 | The low kept is the lowest if and only if that is not zero or the last minute has it. |
| BarBuilder.GoingBackCloses | services/internal/platform/signals.go:355-361 | A stream that goes back to a closed bucket closes it again. |
| Eip712.CollectDeps | services/internal/eip712/eip712.go:138-156 | The shared set grows by types reached from the given one only, and by all that those need; the recursion ends on cyclic graphs. |
| Eip712.CollectedIsReach | services/internal/eip712/eip712.go:106-156 | Started empty, the set is exactly the struct types reachable from the primary one. |
| Eip712.BaseMeans | services/internal/eip712/eip712.go:148 | A list's base is its type without one empty pair of brackets; any other type is its own. |
| Eip712.EncodeType | services/internal/eip712/eip712.go:106-136 | Whatever order the map gives its keys in, the text is the primary type and then the strictly sorted rest. |
| Eip712.ListUnique | services/internal/eip712/eip712.go:115-120 | A set of names has only one strictly sorted list. |
| Eip712.LessMeans | services/internal/eip712/eip712.go:119 | The order is that of the first character that differs, a prefix first. |
| Eip712.PairEncodes | services/internal/eip712/eip712.go:104-136 | A struct with a field and a list of another, letter by letter. |
| Eip712.EncodingCommits | services/internal/eip712/eip712.go:104-136 | For clean names, two types encode alike if and only if they are the same type, reach the same types and define each of them alike. |
| Eip712.EncodingPinsIff | services/internal/eip712/eip712.go:104-136 | A clean definition is told apart from every other, clean or not, if and only if its type reaches no other type and has at most one field. |
| Eip712.NamesRunTogether | services/internal/eip712/eip712.go:121-135 | Wherever it stands, a field name with a space, or with a comma and then a space, has the text of other fields. |
| Eip712.UncleanNamesCollide | services/internal/eip712/eip712.go:121-135 | So two definitions of a type can share an encoding. |
| TypedData.EncodeData | services/internal/eip712/eip712.go:158-174 | The loop over fields, its recursion into structs and its errors. |
| TypedData.Digest | services/internal/eip712/eip712.go:65-80 | The digest of a document, or the error of whichever part has one. |
| TypedData.DigestPreimage | services/internal/eip712/eip712.go:63-79 | There is a digest if and only if domain and message can be hashed, and it is the hash of 66 bytes: 0x19, 0x01, the domain's hash and the message's. |
| TypedData.StructHasHash | services/internal/eip712/eip712.go:158-173 | A struct can be hashed if and only if every field of its type is there and has a word. |
| TypedData.StructPreimage | services/internal/eip712/eip712.go:81-102 | What is hashed for it is the hash of its type's text and then one word a field, in order. |
| TypedData.BytesMean | services/internal/eip712/eip712.go:211-245 | A flag lies in the last bit, an address in the last twenty bytes and fixed bytes at the front, zeros elsewhere; bytes of another length have no word. |
| TypedData.NumbersMean | services/internal/eip712/eip712.go:247-274 | A number has a word if and only if its type has room for it: big-endian, and two's complement in 256 bits below zero. |
| TypedData.KindMeans | services/internal/eip712/eip712.go:185-231 | A list is no supported type, and a struct's name goes before the built-in ones. |
| TypedData.SizedKinds | services/internal/eip712/eip712.go:175-262 | A size is the number all the digits after the prefix spell, and byte types have 1 to 32. |
| Machine.WrapMeans | services/internal/eip712/eip712.go:233 | A size wraps as an int64 does: it stays the same modulo 2^64. |
| TypedData.OddSizes | services/internal/eip712/eip712.go:175-276 | Anything else behind a prefix is no supported type. |
| TypedData.SizesInUse | services/internal/eip712/eip712.go:175-262 | The sizes in use read as they are meant. |
| TypedData.WordAt | services/internal/eip712/eip712.go:158-174 | Field i's word lies at byte 32 i of the data, so no field is missing or out of place. |
| TypedData.ScalarCommits | services/internal/eip712/eip712.go:182-272 | Equal words of one field type mean equal values, or a collision among what was hashed for them. |
| TypedData.StructCommits | services/internal/eip712/eip712.go:82-174 | Equal struct hashes mean the same type, the same definitions and the same values all the way down, or a collision among what was hashed on the way. |
| TypedData.DigestCommits | services/internal/eip712/eip712.go:65-174 | A digest commits to domain, type definitions and message in the same sense, across any two clean documents. |
| TypedData.SameMeansSameHash | services/internal/eip712/eip712.go:82-174 | Conversely, the same type with the same values hashes alike in any two documents. |
| TypedData.WideNumbersCollide | services/internal/eip712/eip712.go:250-268 | In every signed type of more than 256 bits, 0 and -2^256 print one word. |
| TypedData.SignedApartIff | services/internal/eip712/eip712.go:250-268 | A signed field type tells all its numbers apart if and only if it has at most 256 bits. |

## Left out

- HTTP handlers, JSON, SQL, logging, the chain node, the market data clients and the mobile app. The store is a map and the venue an outcome chosen freely.
- Keccak, secp256k1, Ed25519 and AES-GCM. Signing is about preimages; in `TypedData` the hash is any function, text is hashed as UTF-8 and counts as a collision only against other text, and readers of hexadecimal and numeric text are any functions.
- `Volatility`, break-even, card headlines and other floating-point code, the catalog, request field checks, `riskstats.go` and the boards of `ledger.go`: easy members or simpler folds.
- The library calls `sort.Slice` and `sort.Strings` appear by their results; Go maps are ranged over in any order.
- Policy.OpenFromFlat: of its callers it assumes that accounts keep their group, and that a reconcile of the key finds no more positions than the bound leaves beside the orders out.
- Policy.ExposureFromFlat: the same for what a reconcile finds positions worth; sums are unbounded integers, and amounts the venue reports are not negative.
- Policy.Engine.Authorize: the text of a denial is not modelled, nor is the persister; the table of simple case folding is any table.
- Guards.CrashKeepsGuards: store writes succeed and steps do not interleave. Stops are armed bounds; the watcher's reading of the venue is the event that a position is gone.
- Guards.Service.Open: what surrounds the guards in an open (request checks, policy, placing) is one flag; excursions, the last close and the trade ledger are not modelled.
- Prize.RunConserves: a send that reports an error is taken not to have landed, and a restart, which empties the queue, is not an event. Settling on chain and allowances are not modelled.
- Prize.Ledger.Accept: weeks are counted from the first Monday on or after 29 December 1969; earlier times, where Go's division truncates, are left out.
- Timers.Timers.Close: from a coherent state; a callback already launched still runs.
- Memo.Memo.Begin: a computation that panics is not modelled; entries live in a table in place of the heap.
- Decimal.RoundTrip: text is ASCII.
- Rsi.RSI.Append: computed on unbounded integers; `Rsi.MachineAgrees` and `Rsi.RatioFitsIff` say when int64 gives the same.
- MaCross.MACross.Apply: sums of closes are unbounded integers, as are the differences `Rsi` takes.
- Rsi.RSI.Apply: `State`, with its zones, windows and time to the next bar, is not modelled; of the signals' `State` only Donchian's offer window is.
- BarBuilder.BarBuilder.Add: a builder starts with an empty bucket, so one started in mid-bucket speaks of the minutes it saw. Volume sums are unbounded integers.
- Abi.BuildWord: an argument of a type `Word` does not know panics and is not a value of the model; the selector is a given four bytes.
- TypedData.StructCommits: names free of the encoding's own punctuation in both documents, which the code does not check.
- TypedData.DigestCommits: signed fields of at most 256 bits, which the code does not check.

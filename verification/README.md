# Verification of the rate limiter, the fee configuration, the channel fees and the mint

This project models four parts of the chain in Dafny and proves properties of them.

**The IBC rate limiter** (`RateLimitTypes`, `RateLimitSpec`, `RateLimitKeeper`, `RateLimitMiddleware`,
`RateLimitHistory`, `RateLimitRuns`, `RateLimitTheorems`, `RateLimitCoverage`, `RateLimitAwaited`, `RateLimitPackets`,
`RateLimitThresholds`, `Epochs`, `EpochRuns`, `EpochSchedule`, `Genesis`, `Denoms`). The keeper is a class over its
three stores, keyed by byte strings. Each of its methods is proved to do what a function on the stores says
(`RateLimitSpec`). Runs are sequences of steps: sends, receives, acknowledgements and timeouts in any order, and
limits that are added, updated, removed and reset. A run leaves a history log behind, and the flows and pending marks
in the stores are proved to be what the log alone determines. A second layer (`RateLimitMiddleware`) puts the channel
keeper's part of the protocol around the callbacks and proves that whatever reaches the chain is such a run. Nothing
is asked of the order of these steps: limits may be updated and removed while their packets are under way, and the
theorems say path by path what that costs (`RateLimitTheorems`, `RateLimitCoverage`, and for the packets a chain still
awaits `RateLimitAwaited`). What each packet and each message does to a chain is stated exactly, in terms of the
packet's own data and the stored record (`RateLimitPackets`). Resets come from the epoch clock (`Epochs`, `EpochRuns`,
`EpochSchedule`), and a run survives export and import (`Genesis`).

**The codec of the fee parameters** (`Wire`, `UnknownFields`, `WireCode`, `FeeTypes`, `FeeCodec`, `FeeCodecLaws`,
`FeeCodecFields`, `FeeCodecCode`, `ParamsStore`). The loops of the generated code, which write backwards into a sized
buffer and read with shifts and overflow checks, are proved equal to a wire format in the sense of the Protocol
Buffers "Encoding" specification (sections "Base 128 Varints", "Message Structure" and "Last One Wins"); round trips,
concatenation, unknown fields, the effect of every single field and the data that is refused are proved about that
format.

**The fee configuration and the channel fees** (`FeeConfig`, `FeeSplit`, `FeeFlow`, `FeeRuns`, `FeeHandlers`). Lists
edited in place refine nested maps; a transfer is split into a fee and a forwarded amount, the fee is recorded under
its sequence, and a timeout gives it back. `FeeHandlers` states exactly what each handler does, by positions in the
configuration and by balances.

**The mint** (`Decimals`, `Mint`, `MintRuns`). `sdk.Dec` is an integer scaled by 10^18, with the SDK's rounding in
every step. `Mint` has the rate and the provision of a block, `MintRuns` which settings make blocks fail or pay, and
what a number of blocks pays.

Shared arithmetic, byte strings and key order are in `Integers`, `Bytes`, `KeyOrder` and `Wrappers`.

`dafny verify dfyconfig.toml` checks everything.

## Findings

Where the code does not have a property, the project states exactly when it does:

- An update, or a removal followed by an add, zeroes the outflow but keeps the pending marks. The outflow still covers
  the pending sends if and only if none of a positive amount is pending then (`UpdateCoversPending`,
  `AddCoversPending`); every other pending send takes it below zero if it is the next to fail
  (`StaleAnswerGoesNegative`). From then on the outflow is what is outstanding less these stale reverts, and equals what
  is outstanding if and only if none of a positive amount came since the last zeroing (`FlowsFollowHistory`). Over a
  whole run the outflow of a path covers its pending sends in every state if and only if every add and update of the
  path that takes effect finds none of a positive amount pending; removals, and whatever happens to other paths, do
  not matter (`CoveredThroughout`, and for the packets a chain awaits `AwaitedCoveredThroughout`).
- A failed answer removes the mark of its packet only if it finds the limit. Every mark is that of a packet still
  awaited, in every state of a chain, if and only if every failed answer to a marked packet finds it
  (`MarksAwaitedThroughout`).
- The fee record is kept under the sequence without the channel. The records stay everyone's own throughout a run if
  and only if every transfer respects those it finds: one without a charge finds no record under its sequence, and one
  with a charge shares its sequence only with packets that still have a charge of the same coin to their name
  (`OwnExact`). Two channels that use the same sequence can otherwise get each other's refund
  (`SharedSequenceRefundsTheWrongFee`); sequences that no packets under way share are enough
  (`DistinctSequencesRefundTheirOwn`).
- A refund is paid by the address that collected the fee if and only if the channel's fee address is the same as it was
  (`RefundPayer`), so always if no configuration was set in between; if it was changed, the old address keeps the fee
  and the new one pays (`AnotherAddressPays`).
- The two copies of `Transfer` agree if and only if the percentage is not zero or nothing is left to take it from
  (`CopiesAgree`); otherwise the keeper's copy divides by zero. `Percentage` divides the remainder: a setting of 10
  takes a tenth, a setting of 1 takes everything.
- A token that crosses the same channel twice in a row is counted under another path on its way back, as long as the
  hash keeps its trace apart from the stripped one (`RoundTripPathExact`). `CrossedTwiceIsCountedTwice` gives such
  packets for every parser and hash that takes the base as native and hashes it behind two hops to another name;
  `PlainRulesHash` shows stand-in rules (the path ends at the last slash, the hash is a prefix) that do.
- A reset unmarks every channel whose id starts with the reset one's (`PendingPrefix`), so a reset of channel 1 also
  unmarks the sends of channel 10, which can then no longer be reverted (`ResetUnmarksChannelTen`).
- Pending keys of channel ids longer than sixteen bytes collide exactly where the first sixteen bytes do
  (`PendingKeyExact`).
- The exported genesis holds the default epoch in place of the stored ones, so an import starts the hour clock over.
  The stored epochs come back if and only if the hour epoch is the only one and is exactly that new clock, so a clock
  that has started never does (`ExportForgetsEpochs`). The constant named `DayEpoch` is the string "hour", and its
  period is 24 hours.
- A negative `MinTokenPerYear` passes validation, and then a block can fail on a negative coin
  (`NegativeMinimumFails`). No minter and no state of the staking module makes a block fail if and only if the tokens
  a year may have to take back, doubled for the worst rounding, stay below the blocks per year (`BlocksFailOnlyIf`).
  `RunsFailOnlyIf` is the exact condition for chains that start from an inflation that is not negative and whose
  bonded ratios are real ones: up to the largest int64 they also never fail where the maximum is not negative and the
  rate does not fall even with everything bonded.
- Once `BlocksPerYear` passes the largest int64 its divisor is negative: the inflation rises with the bonded ratio
  (`InflationAntitone`, `InflationCanRise`), and with a negative minimum a block can pay more than the maximum
  (`PastInt64CanPay`). No state makes a block pay if and only if the tokens a year may give out, which past the
  largest int64 are the minimum with its sign turned, stay too few for the blocks in the same way
  (`BlocksPayOnlyIf`).

## Model

| member | source | states |
|---|---|---|
| RateLimitTheorems.FlowsFollowHistory | x/ratelimit/keeper/rate_limit.go:58-135 | After every run, and for every path, the stored outflow is the sends counted since its last zeroing less those reverted since, and also those still outstanding less the stale reverts; the inflow is the receives since then. The outflow is exactly what is outstanding if and only if no revert of a positive amount since the last zeroing was stale. All sums are read off the history log alone. |
| RateLimitTheorems.MarksFollowHistory | x/ratelimit/keeper/packet.go:159-229 | After every run, a send is marked as pending exactly while the log counts it and no success, no revert and no reset that unmarked its channel came after it. |
| RateLimitTheorems.RevertsAreJustified | x/ratelimit/keeper/rate_limit.go:91-107 | On every run, every revert takes back one earlier counted send, at its full amount and on its own path, that no success, revert or unmarking reset came between; no send is reverted twice; and a revert is stale if and only if its path was zeroed in between. |
| RateLimitCoverage.CoveredThroughout | x/ratelimit/keeper/rate_limit.go:91-135 | Over every run, and for every path, the outflow covers the amounts of all pending sends in every state if and only if every add and update of the path that takes effect finds no send of a positive amount pending on it. Removals of the path and steps of other paths are asked nothing. |
| RateLimitCoverage.PendingCoveredByOutflow | x/ratelimit/keeper/rate_limit.go:91-135 | After every run, the amounts of all pending sends of a path sum to at least zero and at most its outflow, the stale reverts and the stale marks together; under the condition of CoveredThroughout they sum to at most its outflow, which then is exactly what is outstanding. |
| RateLimitTheorems.UpdateCoversPending | x/ratelimit/keeper/rate_limit.go:232-273 | After an update the outflow covers the pending sends of the path if and only if none of a positive amount was pending. |
| RateLimitTheorems.AddCoversPending | x/ratelimit/keeper/rate_limit.go:148-229 | After any run, an add that takes effect covers the pending sends of its path if and only if none of a positive amount is pending then; what a removal left behind is found however long ago it was. |
| RateLimitTheorems.StaleAnswerGoesNegative | x/ratelimit/keeper/rate_limit.go:91-107 | Every pending send of a positive amount that an update or an add finds on its path takes the outflow to minus its amount if it is the next to fail. |
| RateLimitTheorems.UpdateCanMakeOutflowNegative | x/ratelimit/keeper/rate_limit.go:232-273 | A send, an update and the timeout of the send leave an outflow of -10: a concrete run outside the condition. |
| RateLimitThresholds.FlowWithinThresholds | x/ratelimit/types/flow.go:21-47 | In every state reached by any steps with nonnegative amounts, a path of nonzero channel value has a net outflow within its send threshold and a net inflow within its receive threshold plus what was reverted since its last zeroing. |
| RateLimitThresholds.NetSentWithinWindows | x/ratelimit/keeper/rate_limit.go:112-135 | Over a whole run, sends less reverts less receives of a path are at most t for each time its flow started at zero, if t bounds the send threshold of each of those windows. |
| RateLimitRuns.RunKeepsInv | x/ratelimit/keeper/rate_limit.go:58-351 | The invariant behind these holds after every run: flows are what the log says and the marks are those of the open sends. |
| RateLimitRuns.StepKeepsInv | x/ratelimit/keeper/packet.go:159-229 | One step of any kind keeps that invariant. |
| RateLimitMiddleware.ChainIsALegalRun | x/ratelimit/ibc_middleware.go:106-169 | Whatever channels, packets, acknowledgements, timeouts and messages reach the chain, in whatever order and with whatever outcomes of the inner application, the stores are those of a run of the rate limiter: sequences are fresh, only sent packets are answered, each at most once, and what a failed callback wrote is gone. |
| RateLimitAwaited.AwaitedCoveredThroughout | x/ratelimit/keeper/rate_limit.go:91-107 | On every chain, and for every path, the amount of each marked packet that awaits its answer is part of the outflow of its limit in every state, so that a failed answer never takes it below zero, if and only if every add and update of the path that takes effect finds no awaited packet of it pending with a positive amount. |
| RateLimitAwaited.MarksAwaitedThroughout | x/ratelimit/keeper/packet.go:192-229 | On every chain, in every state each mark in the store belongs to a packet that still awaits its answer, if and only if every failed answer to a marked packet finds the limit of its path. |
| RateLimitAwaited.MarkIsAwaitedAndCovered | x/ratelimit/keeper/rate_limit.go:91-107 | Under that condition each mark belongs to an awaited packet, and where also every add and update of the path of that packet found nothing at stake, its amount is part of the outflow. |
| RateLimitPackets.SendExact | x/ratelimit/keeper/packet.go:113-176 | On every chain, a packet is sent exactly if its channel is open with a sequence left, its data can be read, and its path has no limit, its own sender and receiver are whitelisted as a pair, or the net outflow and its amount together are within the minimum or the percentage for sends of a nonzero channel value. It is committed under the next sequence; unless exempt, the outflow of its path grows by exactly its amount and it is marked; nothing else changes. |
| RateLimitPackets.RecvExact | x/ratelimit/keeper/packet.go:113-188 | On every chain, a received packet gets a success acknowledgement exactly if its data can be read, the application accepts it, and it is exempt or the net inflow and its amount together are within the quota for receives; unless exempt, the inflow of its path then grows by exactly its amount; nothing else changes. |
| RateLimitPackets.AnswerExact | x/ratelimit/keeper/packet.go:192-229 | On every chain, an answer takes effect exactly if its packet is the one committed, the application accepts it and the acknowledgement is neither undecodable nor an empty result. A failed one takes exactly the packet's amount off the outflow of its path and removes its mark if limit and mark are there, a success only removes the mark; the commitment goes; nothing else changes. |
| RateLimitPackets.AdminExact | x/ratelimit/keeper/rate_limit.go:112-273 | On every chain, an add or an update stores the percentage for sends, that for receives, the duration and the minimum of the message, each in its place, with a zero flow at the present supply, unless the supply is zero or a limit exists (add) or none does (update); a removal drops exactly its limit; a reset zeroes the flow and unmarks; a parachain token of that channel stands for its native one. |
| RateLimitPackets.StoredLimitIsAsked | x/ratelimit/keeper/rate_limit.go:184-273 | For every message within the bounds of its validation: right after an add or an update that takes effect with some supply, a send of the path that is not exempt is refused if and only if its amount is past the minimum and a hundred times it is past supply times the message's percentage for sends, a receive if and only if that holds for receives, and the limit is due at exactly the epochs the message's duration divides. |
| RateLimitPackets.ChainSound | x/ratelimit/types/msg.go:55-160 | On every chain, every stored limit is kept under its own path, its percentages lie between zero and a hundred and are not both zero, its minimum and its duration are positive and its channel value is not negative. |
| RateLimitPackets.SequencesAreConsecutive | x/ratelimit/keeper/packet.go:233-269 | On every chain, the sequences sent over a channel so far are one, two, three and so on, without a gap. |
| RateLimitMiddleware.DeliverRefines | x/ratelimit/ibc_middleware.go:106-169 | Every call that takes effect is one allowed step of the rate limiter or opens a channel; a call that does not take effect changes nothing. |
| RateLimitMiddleware.AnswerUnmarks | x/ratelimit/keeper/packet.go:192-229 | After an answer the mark of its packet is gone if and only if there was none, it was a success, or the limit is there. |
| RateLimitMiddleware.IBCMiddleware.SendPacket | x/ratelimit/keeper/packet.go:233-269 | A packet is sent exactly if the channel keeper numbers it and the quota admits it, and then it is counted under that number. |
| RateLimitMiddleware.IBCMiddleware.OnRecvPacket | x/ratelimit/ibc_middleware.go:106-120 | The acknowledgement is a success exactly if the packet parses, the quota admits it and the inner application accepts it; then it is counted. |
| RateLimitMiddleware.IBCMiddleware.OnAcknowledgementPacket | x/ratelimit/ibc_middleware.go:123-134 | The rate-limit step comes first, and its failure or that of the inner application fails the callback; otherwise the send is settled or reverted. |
| RateLimitMiddleware.IBCMiddleware.OnTimeoutPacket | x/ratelimit/ibc_middleware.go:137-147 | The same for a timeout, which reverts the send. |
| RateLimitKeeper.Keeper.CheckRateLimitAndUpdateFlow | x/ratelimit/keeper/rate_limit.go:58-88 | Untracked or exempt packets pass uncounted, packets past the threshold are refused without effect, all others are counted in their direction. |
| RateLimitSpec.CheckExact | x/ratelimit/keeper/rate_limit.go:58-88 | A packet passes uncounted if and only if its path has no limit or its address pair is whitelisted; any other is refused if and only if the channel value is not zero, the new net amount is past the minimum, and a hundred times it is past the percentage of the channel value; only a counted packet changes the stores. |
| RateLimitKeeper.Keeper.UndoSendPacket | x/ratelimit/keeper/rate_limit.go:91-107 | Takes the amount off the outflow and removes the mark if the limit exists and the send is marked, and changes nothing otherwise. |
| RateLimitKeeper.Keeper.ResetRateLimit | x/ratelimit/keeper/rate_limit.go:112-135 | Zeroes the flow at the present supply and unmarks every key starting with the channel id, or fails without effect. |
| RateLimitKeeper.Keeper.AddRateLimit | x/ratelimit/keeper/rate_limit.go:184-229 | Stores a fresh limit under the resolved denomination unless the supply is zero or a limit exists, in this order of errors. |
| RateLimitKeeper.Keeper.UpdateRateLimit | x/ratelimit/keeper/rate_limit.go:232-273 | Replaces quota, minimum and flow of an existing limit and leaves the pending marks alone. |
| RateLimitKeeper.Keeper.RemoveRateLimit | x/ratelimit/keeper/rate_limit.go:148-166 | Removes exactly the limit and leaves the pending marks alone. |
| RateLimitKeeper.Keeper.SetRateLimit | x/ratelimit/keeper/rate_limit.go:138-145 | Stores the limit under its own key and changes nothing else. |
| RateLimitKeeper.Keeper.GetRateLimit | x/ratelimit/keeper/rate_limit.go:169-181 | Finds exactly the limit stored under the key of the pair. |
| RateLimitKeeper.Keeper.GetAllRateLimits | x/ratelimit/keeper/rate_limit.go:276-291 | Lists the limits in key order. |
| RateLimitKeeper.Keeper.SetPendingSendPacket | x/ratelimit/keeper/rate_limit.go:294-298 | Adds exactly the mark of the packet. |
| RateLimitKeeper.Keeper.RemovePendingSendPacket | x/ratelimit/keeper/rate_limit.go:302-306 | Removes exactly the mark of the packet. |
| RateLimitKeeper.Keeper.CheckPacketSentDuringCurrentQuota | x/ratelimit/keeper/rate_limit.go:310-316 | Answers whether the mark is there. |
| RateLimitKeeper.Keeper.RemoveAllChannelPendingSendPackets | x/ratelimit/keeper/rate_limit.go:342-351 | The deleting loop removes exactly the marks whose key starts with the channel id. |
| RateLimitSpec.ResetUnmarksChannelTen | x/ratelimit/keeper/rate_limit.go:342-351 | A reset of channel 1 unmarks every send of channel 10, whatever its sequence, and its failure is then not undone. |
| RateLimitKeeper.Keeper.SetWhitelistedAddressPair | x/ratelimit/keeper/rate_limit.go:355-359 | Stores the pair under its concatenated addresses and changes nothing else. |
| RateLimitKeeper.Keeper.RemoveWhitelistedAddressPair | x/ratelimit/keeper/rate_limit.go:363-367 | Removes exactly that entry. |
| RateLimitKeeper.Keeper.IsAddressPairWhitelisted | x/ratelimit/keeper/rate_limit.go:370-378 | Answers whether the pair has an entry. |
| RateLimitKeeper.Keeper.SendRateLimitedPacket | x/ratelimit/keeper/packet.go:159-176 | Refuses an unreadable packet; otherwise checks the quota and marks the send exactly if it was counted. |
| RateLimitKeeper.Keeper.ReceiveRateLimitedPacket | x/ratelimit/keeper/packet.go:180-188 | Refuses an unreadable packet; otherwise checks the quota in the receiving direction. |
| RateLimitKeeper.Keeper.AcknowledgeRateLimitedPacket | x/ratelimit/keeper/packet.go:192-218 | An empty or undecodable acknowledgement fails, a result settles the send, anything else reverts it. |
| RateLimitKeeper.Keeper.TimeoutRateLimitedPacket | x/ratelimit/keeper/packet.go:222-229 | Reverts the send of a readable packet. |
| RateLimitTypes.QuotaExact | x/ratelimit/types/quota.go:8-26 | A net amount exceeds the quota if and only if the channel value is not zero, the amount is past the minimum, and a hundred times the amount is past the percentage of the channel value, despite the rounding of the threshold. |
| RateLimitTypes.Flow.AddInflow | x/ratelimit/types/flow.go:21-32 | Counts the amount exactly if the net inflow stays within the receive threshold or the channel value is zero. |
| RateLimitTypes.Flow.AddOutflow | x/ratelimit/types/flow.go:36-47 | Counts the amount exactly if the net outflow stays within the send threshold or the channel value is zero. |
| RateLimitTypes.GetPendingSendPacketKey | x/ratelimit/types/keys.go:33-41 | The two filled buffers make the zero-padded channel id followed by the big-endian sequence. |
| Bytes.BigEndianWeighs | x/ratelimit/types/keys.go:33-41 | Bytes in front count 256 times as much for each byte behind them. |
| Bytes.DecimalWeighs | x/ratelimit/keeper/rate_limit.go:319-338 | Digits in front count ten times as much for each digit behind them. |
| KeyOrder.BelowExact | x/ratelimit/keeper/epoch.go:74-95 | Iteration order is the order of the bytes: a prefix comes first, and otherwise the first byte that differs decides. |
| RateLimitTypes.LimitKeyInjective | x/ratelimit/keeper/rate_limit.go:18-20 | The concatenated denomination and channel id determine both, for channel ids of the form "channel-" and digits, of any length. |
| RateLimitTypes.PendingKeyExact | x/ratelimit/types/keys.go:33-41 | Two pending keys are equal if and only if the sequences and the first sixteen bytes of the channel ids are. |
| RateLimitTypes.PendingKeyInjective | x/ratelimit/types/keys.go:33-41 | For channel ids that fit, a pending key determines channel and sequence. |
| RateLimitTypes.PendingPrefix | x/ratelimit/keeper/rate_limit.go:342-351 | A reset matches a pending key if and only if its channel id is a prefix of the key's channel id. |
| Denoms.RoundTripPath | x/ratelimit/keeper/packet.go:38-155 | A token sent over a channel and returned over it is counted under the same path both ways if and only if its trace does not cross the channel twice in a row or both traces have the same bank denomination. |
| Denoms.RoundTripPathExact | x/ratelimit/keeper/packet.go:38-155 | Where the hash keeps a twice-crossing trace apart from the one with both hops removed: the same path both ways if and only if the trace does not cross the channel twice in a row. |
| Denoms.CrossedTwiceIsCountedTwice | x/ratelimit/keeper/packet.go:38-155 | For every parser and hash that takes the base as native and behind two hops as not, and hashes it there to another name, and whatever the ports and channels: a native token of the counterparty that crossed the channel twice leaves under the hash of its trace and comes back under its plain name. |
| Denoms.PlainRulesHash | x/ratelimit/keeper/packet.go:38-155 | The conditions of CrossedTwiceIsCountedTwice and of RoundTripPathExact can be met together: stand-in rules meet them for every base without a slash, and hash the whole name of such a token. |
| Denoms.SendDenomIsLocal | x/ratelimit/keeper/packet.go:38-51 | The send side counts a token under its bank denomination on this chain. |
| Denoms.HookAgreesWithRateLimiter | x/ibc-hooks/utils.go:40-67 | The hook module reads the same denomination as the rate limiter from every packet that decodes. |
| Epochs.VisitExact | x/ratelimit/keeper/abci.go:16-57 | A visit starts a clock that has not started, at epoch 1 and its start time, unless that is still to come; it moves a started clock by one if it is behind the time and leaves it otherwise; an epoch ends exactly when it is behind; the block height is kept exactly where something moved. |
| Epochs.ClockOnTime | x/ratelimit/keeper/abci.go:16-57 | After any blocks of nondecreasing times, the start time is the first one plus (epoch - 1) durations, the epoch number is at least 1 and at most the rounded-up gap in durations, and one block advances it by at most one. |
| Epochs.EndsAreConsecutive | x/ratelimit/keeper/abci.go:16-57 | The epochs that end are 1, 2, 3 and so on without a gap, up to the present one. |
| Epochs.CatchUp | x/ratelimit/keeper/abci.go:16-57 | A clock that is behind reaches the target in exactly as many visits as it is epochs behind, and then stands still. |
| Epochs.ClockStarts | x/ratelimit/keeper/abci.go:25-38 | After any blocks of nondecreasing times, a fresh clock has started if and only if its start time has come. |
| Epochs.CatchUpFromStart | x/ratelimit/keeper/abci.go:16-57 | From a fresh clock, n + 1 visits at a time at or past its start show the epoch of that time or, if earlier, epoch n + 1, and have ended exactly the epochs before it. |
| Epochs.EpochEndResetsExactlyTheDue | x/ratelimit/keeper/epoch.go:119-132 | The end of the hour epoch resets exactly the limits whose duration divides the ended number, leaves every other limit as it was, and unmarks exactly the keys starting with a reset channel id. |
| RateLimitSpec.ResetAllIsResetKeys | x/ratelimit/keeper/epoch.go:123-129 | A loop of resets over any list of stored limits is the simultaneous reset of exactly those, in whatever order. |
| EpochSchedule.ResetsOnSchedule | x/ratelimit/keeper/abci.go:14-58 | Over any run of blocks from a fresh clock, with anything done to the limits in between: a block ends no epoch and leaves the limits alone, or ends the next number and resets exactly the limits whose duration divides it, as a uint64. |
| EpochSchedule.LimitResetsOnMultiples | x/ratelimit/keeper/epoch.go:119-132 | Over any run of blocks fewer than 2^64 from a fresh clock, a stored limit that keeps its duration d, whatever else happens to the limits between the blocks, is reset to the present supply with a zero flow by exactly the blocks that end the epochs d, 2d, 3d and so on, without one left out, and every other block leaves it as it finds it. |
| EpochSchedule.ResetsAreMultiples | x/ratelimit/keeper/epoch.go:119-132 | The blocks that end an epoch whose number d divides are those that end the epochs d, 2d, 3d and so on, as many as d goes into the number of ended epochs. |
| EpochSchedule.HourClock | x/ratelimit/keeper/abci.go:14-58 | In a store in which no epoch before the hour epoch is still to start, the hour epoch runs as a clock of its own. |
| EpochSchedule.HourStarts | x/ratelimit/keeper/abci.go:14-58 | In such a store, after any blocks of nondecreasing times, the hour epoch has started if and only if its start time has come. |
| EpochSchedule.HourCatchesUp | x/ratelimit/keeper/abci.go:14-58 | In such a store, n + 1 blocks at a time at or past the start of a fresh hour epoch show the epoch of that time or, if earlier, epoch n + 1; all epochs before it have ended, and as many of those blocks reset a limit of duration d as d goes into their number. |
| EpochSchedule.BlockExact | x/ratelimit/keeper/epoch.go:74-95 | A block visits every epoch up to which, in key order, none is still to start, and leaves every other one alone. |
| EpochSchedule.RunBlock | x/ratelimit/keeper/abci.go:14-58 | One call of the keeper is one block of the schedule. |
| Epochs.ReachedIff | x/ratelimit/keeper/epoch.go:74-95 | The iteration of a block reaches an epoch if and only if no epoch up to it in key order is still to start. |
| Epochs.BlockResets | x/ratelimit/keeper/abci.go:16-57 | Whatever epochs a block visits, the limits change only if the hour epoch is among those reached and ends, and then as its end says. |
| Epochs.EpochKeeper.AddEpochInfo | x/ratelimit/keeper/epoch.go:38-55 | Stores a valid epoch of a new identifier, with the block time as start if none is set, and fails without effect otherwise. |
| Epochs.EpochKeeper.AfterEpochEnd | x/ratelimit/keeper/epoch.go:119-132 | The reset loop over the snapshot of all limits computes the end of the epoch. |
| Epochs.EpochKeeper.VisitEpoch | x/ratelimit/keeper/abci.go:23-54 | One visit ticks the epoch and, if it ends, resets what is due. |
| Epochs.EpochKeeper.IterateEpochInfo | x/ratelimit/keeper/epoch.go:74-95 | The loop visits the epochs in key order up to the first that is still to start. |
| Epochs.EpochKeeper.BeginBlocker | x/ratelimit/keeper/abci.go:14-58 | A block ticks exactly the reached epochs, and the limits change only by the end of the hour epoch. |
| EpochRuns.EpochEndIsARun | x/ratelimit/keeper/epoch.go:119-132 | The end of an epoch after a legal run is itself a legal run of resets, so every theorem about runs holds across epochs. |
| EpochRuns.RunResolved | x/ratelimit/keeper/rate_limit.go:113-118 | If the parachain lookup is idempotent, every stored path is found by its own denomination after every run. |
| Genesis.ImportOfExport | x/ratelimit/keeper/genesis.go:12-49 | Import of an export on empty stores gives the stores back if no pending channel id holds a slash, and stops otherwise. |
| Genesis.RunSurvivesRestart | x/ratelimit/keeper/genesis.go:12-49 | After every legal run, import restores exactly the limits, the whitelist and the pending marks that export wrote. |
| Genesis.PacketIdRoundTrip | x/ratelimit/keeper/rate_limit.go:319-338 | A pending key survives trimming, printing, splitting and parsing if its channel bytes hold no slash, and is refused otherwise. |
| Genesis.GetAllPendingSendPackets | x/ratelimit/keeper/rate_limit.go:319-338 | The loop prints the pending keys in key order. |
| Genesis.ExportGenesis | x/ratelimit/keeper/genesis.go:40-49 | Exports limits, whitelist and printed marks, and the default epoch. |
| Genesis.ExportForgetsEpochs | x/ratelimit/keeper/genesis.go:40-49 | An import of any export starts exactly one clock, the hour epoch, anew; this is the epoch store there was before if and only if the hour epoch was the only one and was that new clock, so a clock that had started does not come back. |
| Genesis.ImportStores | x/ratelimit/keeper/genesis.go:14-32 | The three loops store every entry, and stop at an unreadable packet id. |
| Genesis.ParsePacketIdExact | x/ratelimit/keeper/genesis.go:20-28 | A text is read as this channel and sequence if and only if it is the channel id without a slash, a slash, and nonempty decimal digits of that value; any other text is refused. |
| Genesis.InitGenesis | x/ratelimit/keeper/genesis.go:12-38 | The start succeeds exactly if every packet id can be read and every epoch can be added, and then the stores are the imported ones and the epochs the added ones. |
| Genesis.AddEpochsExact | x/ratelimit/keeper/genesis.go:32-37 | A list of epochs can be added if and only if all are valid, no two share an identifier and none is stored already; then the store holds each, started now if it had no start, and what it held before. |
| FeeCodecLaws.ParamsRoundTrip | x/ibctransfermiddleware/types/ibctransfermiddleware.pb.go:302-337 | Every Params value, whatever its nesting, lengths and negative numbers, is read back from what Marshal writes. |
| FeeCodecLaws.FeeRoundTrip | x/ibctransfermiddleware/types/ibctransfermiddleware.pb.go:354-393 | The same for a channel fee. |
| FeeCodecLaws.ItemRoundTrip | x/ibctransfermiddleware/types/ibctransfermiddleware.pb.go:410-445 | The same for a coin item. |
| FeeCodecLaws.TxRoundTrip | x/ibctransfermiddleware/types/ibctransfermiddleware.pb.go:462-485 | The same for a priority fee. |
| FeeCodecLaws.HoldsFees | x/ibctransfermiddleware/types/ibctransfermiddleware.pb.go:317-337 | The encoding of the parameters is a sequence of one field 1 for each channel fee. |
| FeeCodecLaws.HoldsFee | x/ibctransfermiddleware/types/ibctransfermiddleware.pb.go:354-393 | The encoding of a channel fee is its fields 1 to 4 in order, the channel, the address and the timeout left out where they are empty or zero. |
| FeeCodecLaws.HoldsItem | x/ibctransfermiddleware/types/ibctransfermiddleware.pb.go:410-445 | The same for a coin item with its fields 1 to 3. |
| FeeCodecLaws.HoldsTx | x/ibctransfermiddleware/types/ibctransfermiddleware.pb.go:462-485 | The same for a priority fee with its fields 1 and 2. |
| FeeCodecFields.ParamsFieldByField | x/ibctransfermiddleware/types/ibctransfermiddleware.pb.go:580-663 | Whatever was read before and whatever follows: field 1 appends a channel fee that must be readable, any other well-formed field adds nothing, and field 1 in another wire type is refused. |
| FeeCodecFields.FeeFieldByField | x/ibctransfermiddleware/types/ibctransfermiddleware.pb.go:664-830 | The same for a channel fee: field 1 overwrites the channel, field 2 appends a readable token, field 3 overwrites the fee address, field 4 the timeout as a signed value. |
| FeeCodecFields.ItemFieldByField | x/ibctransfermiddleware/types/ibctransfermiddleware.pb.go:831-966 | The same for a coin item: field 1 merges into the minimum fee, field 2 overwrites the percentage as a signed value, field 3 appends a readable priority fee. |
| FeeCodecFields.TxFieldByField | x/ibctransfermiddleware/types/ibctransfermiddleware.pb.go:967-1081 | The same for a priority fee: field 1 overwrites the priority, field 2 merges into the fee. |
| FeeCodecFields.ReadVarintExact | x/ibctransfermiddleware/types/ibctransfermiddleware.pb.go:585-599 | A varint of any bytes ends at the first byte without its top bit and is the sum of its groups of seven bits, wrapped to 64 bits; more than ten bytes, or data that ends first, are refused. |
| FeeCodecFields.WrongTypeIsRefused | x/ibctransfermiddleware/types/ibctransfermiddleware.pb.go:580-663 | A known field in another wire type, groups and fixed sizes included, is refused. |
| FeeCodecFields.ShortPayloadIsRefused | x/ibctransfermiddleware/types/ibctransfermiddleware.pb.go:580-663 | A length past the end of the data is refused for known and unknown fields. |
| FeeCodecFields.StrayTagIsRefused | x/ibctransfermiddleware/types/ibctransfermiddleware.pb.go:580-663 | The end of a group that was not started, a wire type that does not exist and field number zero are refused. |
| FeeCodecFields.HighNumberIsRefused | x/ibctransfermiddleware/types/ibctransfermiddleware.pb.go:600-607 | A field number is taken modulo 2^32 and refused where it is then negative as an int32. |
| FeeCodecFields.OpenGroupIsRefused | x/ibctransfermiddleware/types/ibctransfermiddleware.pb.go:1082-1159 | An unknown group that the data ends in is refused, whatever well-formed fields it holds. |
| FeeCodecLaws.ConcatenationMerges | x/ibctransfermiddleware/types/ibctransfermiddleware.pb.go:580-663 | If two byte strings each read as Params, their concatenation does too and gives the first one's channel fees followed by the second one's. |
| FeeCodecLaws.UnknownFieldAddsNothing | x/ibctransfermiddleware/types/ibctransfermiddleware.pb.go:580-663 | A well-formed field of an unknown number, nested groups included, changes nothing wherever it stands between fields. |
| UnknownFields.UnknownFieldIsSkipped | x/ibctransfermiddleware/types/ibctransfermiddleware.pb.go:1082-1159 | The skipper passes every well-formed field of every wire type, groups nested to any depth included, and stops exactly at its end. |
| UnknownFields.GroupIsPassed | x/ibctransfermiddleware/types/ibctransfermiddleware.pb.go:1130-1145 | A group is passed together with everything nested in it, at any depth. |
| Wire.NextFieldStable | x/ibctransfermiddleware/types/ibctransfermiddleware.pb.go:580-663 | A field that was read is not affected by what follows it. |
| Wire.SkipStable | x/ibctransfermiddleware/types/ibctransfermiddleware.pb.go:1082-1159 | A successful skip is not affected by what follows it. |
| Wire.FieldsAppend | x/ibctransfermiddleware/types/ibctransfermiddleware.pb.go:580-663 | The fields of two concatenated messages are those of the first followed by those of the second. |
| Wire.VarintRoundTrip | x/ibctransfermiddleware/types/ibctransfermiddleware.pb.go:487-496 | Every 64-bit value is read back from its varint, whatever follows. |
| Wire.SovExact | x/ibctransfermiddleware/types/ibctransfermiddleware.pb.go:574-576 | The size computed from the bit length is the exact length of the varint. |
| WireCode.EncodeVarint | x/ibctransfermiddleware/types/ibctransfermiddleware.pb.go:487-496 | The loop writes the varint so that it ends at the offset and touches no other byte. |
| WireCode.DecodeVarint | x/ibctransfermiddleware/types/ibctransfermiddleware.pb.go:585-600 | The shifting loop, with its overflow and end-of-data checks, computes the varint modulo 2^64 or fails. |
| WireCode.SkipData | x/ibctransfermiddleware/types/ibctransfermiddleware.pb.go:1082-1159 | The skipping loop terminates on any data, stays in bounds, and computes the end of the field or group. |
| WireCode.SplicedTwice | x/ibctransfermiddleware/types/ibctransfermiddleware.pb.go:317-337 | Two adjacent writes, the later one in front, are one write of both. |
| FeeCodecCode.Marshal | x/ibctransfermiddleware/types/ibctransfermiddleware.pb.go:302-310 | A buffer of the computed size is filled completely with the encoding. |
| FeeCodecCode.MarshalParams | x/ibctransfermiddleware/types/ibctransfermiddleware.pb.go:317-337 | Writing backwards fills exactly the tail in front of the end with the encoding. |
| FeeCodecCode.MarshalFee | x/ibctransfermiddleware/types/ibctransfermiddleware.pb.go:354-393 | The same for a channel fee. |
| FeeCodecCode.MarshalItem | x/ibctransfermiddleware/types/ibctransfermiddleware.pb.go:410-445 | The same for a coin item. |
| FeeCodecCode.MarshalTx | x/ibctransfermiddleware/types/ibctransfermiddleware.pb.go:462-485 | The same for a priority fee. |
| FeeCodecCode.SizeParams | x/ibctransfermiddleware/types/ibctransfermiddleware.pb.go:498-511 | Size is the exact length of the encoding. |
| FeeCodecCode.SizeFee | x/ibctransfermiddleware/types/ibctransfermiddleware.pb.go:513-537 | The same for a channel fee. |
| FeeCodecCode.SizeItem | x/ibctransfermiddleware/types/ibctransfermiddleware.pb.go:539-557 | The same for a coin item. |
| FeeCodecCode.SizeTx | x/ibctransfermiddleware/types/ibctransfermiddleware.pb.go:559-572 | The same for a priority fee. |
| FeeCodecCode.UnmarshalParams | x/ibctransfermiddleware/types/ibctransfermiddleware.pb.go:580-663 | The reading loop, on any data, folds the fields into the message or fails. |
| FeeCodecCode.UnmarshalFee | x/ibctransfermiddleware/types/ibctransfermiddleware.pb.go:664-830 | The same for a channel fee. |
| FeeCodecCode.UnmarshalItem | x/ibctransfermiddleware/types/ibctransfermiddleware.pb.go:831-966 | The same for a coin item. |
| FeeCodecCode.UnmarshalTx | x/ibctransfermiddleware/types/ibctransfermiddleware.pb.go:967-1081 | The same for a priority fee. |
| FeeCodecCode.ReadField | x/ibctransfermiddleware/types/ibctransfermiddleware.pb.go:583-655 | One turn of the loop reads the next field: tag, wire-type check, payload with bounds, or skip. |
| ParamsStore.Store.SetParams | x/ibctransfermiddleware/keeper/keeper.go:49-54 | After a write, the store stands for the written parameters. |
| ParamsStore.Store.GetParams | x/ibctransfermiddleware/keeper/keeper.go:57-66 | A read decodes the stored bytes, and gives empty parameters from an empty store. |
| FeeConfig.ConfigKeeper.AddIBCFeeConfig | x/ibctransfermiddleware/keeper/msg_server.go:41-72 | Keeps channels and denominations distinct; sets the address and timeout of the channel in the map and keeps its tokens. |
| FeeConfig.ConfigKeeper.RemoveIBCFeeConfig | x/ibctransfermiddleware/keeper/msg_server.go:74-93 | Keeps them distinct; removes exactly the channel, and a missing one is no error. |
| FeeConfig.ConfigKeeper.AddAllowedIbcToken | x/ibctransfermiddleware/keeper/msg_server.go:95-126 | Keeps them distinct; sets exactly the token in the channel's map, or fails without effect if the channel is missing. |
| FeeConfig.ConfigKeeper.RemoveAllowedIbcToken | x/ibctransfermiddleware/keeper/msg_server.go:128-153 | Keeps them distinct; removes exactly the token from the channel's map, or fails without effect if the channel is missing. |
| FeeConfig.FindChannelParams | x/ibctransfermiddleware/keeper/msg_server.go:155-162 | Finds the first entry of the channel, exactly if there is one. |
| FeeConfig.FindCoinByDenom | x/ibctransfermiddleware/keeper/msg_server.go:164-171 | Finds the first entry of the denomination, exactly if there is one. |
| FeeConfig.AssocUpdate | x/ibctransfermiddleware/keeper/msg_server.go:58-64 | Overwriting the first entry of a key is an update of the map the list stands for. |
| FeeConfig.AssocRemove | x/ibctransfermiddleware/keeper/msg_server.go:80-89 | Splicing out an entry of a list with distinct keys removes its key from the map. |
| FeeSplit.ServerSplitIsFair | custom/ibc-transfer/keeper/msg_server.go:60-80 | Charge and forwarded amount add up to the amount; the charge reaches the smaller of amount and flat fee if and only if the percentage is not negative or too small a negative number to matter, and whenever it does, both parts are nonnegative. |
| FeeSplit.CopiesAgree | custom/ibc-transfer/keeper/keeper.go:86-106 | The keeper's copy computes the server's split if and only if the percentage is not zero or nothing is left after the flat fee, and divides by zero otherwise. |
| FeeSplit.FlatFeeNonnegative | custom/ibc-transfer/keeper/msg_server.go:60-67 | Nonnegative settings make the flat fee at least the minimum fee. |
| FeeSplit.FlatFeeExact | custom/ibc-transfer/keeper/msg_server.go:60-67 | The flat fee is the minimum fee plus, if the first entry of the given priority is in the same denomination, the fee of that entry, and plus nothing in every other case. |
| FeeSplit.ServerSplitExact | custom/ibc-transfer/keeper/msg_server.go:60-80 | The charge is the smaller of the amount and that flat fee, plus the quotient of the rest by the percentage if there is a rest and a percentage; the remainder is forwarded. The sums determine the split. |
| FeeSplit.SplitInServer | custom/ibc-transfer/keeper/msg_server.go:60-80 | The step-by-step split is the split function. |
| FeeSplit.SplitInKeeper | custom/ibc-transfer/keeper/keeper.go:86-106 | The same for the keeper's copy, with the division by zero. |
| FeeSplit.FindChannelParams | custom/ibc-transfer/keeper/msg_server.go:111-118 | The loop finds the first entry of the channel. |
| FeeSplit.FindCoinByDenom | custom/ibc-transfer/keeper/msg_server.go:120-127 | The loop finds the first entry of the denomination. |
| FeeSplit.FindPriorityFee | custom/ibc-transfer/keeper/keeper.go:151-158 | The loop finds the first entry of the priority. |
| FeeRuns.OwnExact | x/ibctransfermiddleware/keeper/keeper.go:80-88 | On every run in which a channel never uses a sequence twice, the record of every packet under way is its own fee throughout if and only if every transfer respects the records it finds; no timeout, acknowledgement or new configuration breaks it. |
| FeeRuns.TransferKeepsOwn | x/ibctransfermiddleware/types/keys.go:29-31 | A transfer that sends a packet keeps every record its packet's own if and only if, uncharged, it finds no record under its sequence, or, charged, every other packet under way with that sequence still has a charge of the same coin to its name. |
| FeeRuns.OthersKeepOwn | x/transfermiddleware/ibc_middleware.go:114-175 | No other step makes a record someone else's. |
| FeeRuns.RefundsMatchCharges | x/transfermiddleware/ibc_middleware.go:114-175 | On every run whose transfers respect the records they find, a fee is given back only when its own packet times out and at the amount taken with it; on every run, at most once with each packet. |
| FeeRuns.DistinctSequencesRefundTheirOwn | x/ibctransfermiddleware/types/keys.go:29-31 | On every run in which no packet under way shares the sequence of a new one, and a charge overwrites any record left under it, every fee goes back with its own packet and at the amount taken. |
| FeeRuns.RefundExact | x/transfermiddleware/ibc_middleware.go:130-151 | A refund is the packet's own fee if and only if the record under its sequence is. |
| FeeRuns.RefundPayer | x/transfermiddleware/ibc_middleware.go:132-151 | A refund is paid by the address that collected the fee if and only if the channel's fee address was the same in the configuration at the refund as in that at the charge; so it is if no configuration was set in between. |
| FeeRuns.AnotherAddressPays | x/transfermiddleware/ibc_middleware.go:132-151 | A concrete run in which the fee address changes in between: the old one keeps the fee and the new one pays. |
| FeeRuns.RunConserves | x/transfermiddleware/ibc_middleware.go:114-175 | No run of any steps makes or loses a coin, except the native ones under which the middleware reissues parachain tokens. |
| FeeRuns.TransferThenTimeoutRestores | custom/ibc-transfer/keeper/msg_server.go:92-108 | A charged transfer followed by a timeout whose refund succeeds leaves every balance as it was and no record, except that a parachain token comes back as its native one. |
| FeeRuns.SenderPays | custom/ibc-transfer/keeper/msg_server.go:92-108 | A transfer that sends a packet takes the whole amount from the sender, the fee to the fee address and the rest to escrow, and records the fee. |
| FeeRuns.SenderIsPaidBack | x/transfermiddleware/ibc_middleware.go:114-154 | A timeout with a refund moves the forwarded amount from escrow and the recorded fee from the present fee address to the sender, and a parachain token on into escrow again for its native one. |
| FeeHandlers.ConfiguredTransfer | custom/ibc-transfer/keeper/msg_server.go:33-109 | For the first entry of the channel and its first token of the denomination: a transfer is refused without effect exactly if its timeout is nearer than a positive configured distance, an address does not decode, or the sender cannot pay charge and rest; if nothing is left, only the charge moves; otherwise the packet carries the rest, and the charge is recorded under its sequence unless it is zero. All balances are given. |
| FeeHandlers.UnlistedTransfer | custom/ibc-transfer/keeper/msg_server.go:55-58 | A token the first entry of the channel does not list is refused without effect. |
| FeeHandlers.UnconfiguredTransfer | custom/ibc-transfer/keeper/msg_server.go:33-109 | Without an entry of the channel the whole amount is forwarded, without fee and record, exactly if the inner application accepts it and the sender holds it. |
| FeeHandlers.AcknowledgeExact | x/transfermiddleware/ibc_middleware.go:157-175 | An acknowledgement ends exactly its packet's record, whether it reports success or an error; a success moves nothing, an error gives the token back, and fails without effect exactly if that is not possible. |
| FeeHandlers.TimeoutExact | x/transfermiddleware/ibc_middleware.go:114-154 | A timeout fails without effect exactly if the token cannot be given back; otherwise the token is, and the recorded fee too, and its record ends, exactly if there is one and the present fee address is known, decodes and holds it. All balances are given. |
| FeeRuns.SharedSequenceRefundsTheWrongFee | x/ibctransfermiddleware/types/keys.go:29-31 | A concrete run in which two channels share a sequence and the first packet is refunded the second one's fee. |
| FeeFlow.FeeKeeper.Transfer | custom/ibc-transfer/keeper/msg_server.go:33-109 | The handler, with its timeout, token and address checks, the bank transfer and the inner send, computes the transfer step. |
| FeeFlow.FeeKeeper.RefundToken | x/transfermiddleware/keeper/ics4wrapper.go:162-206 | The inner application gives the token back; then an undecodable sender fails, and a parachain token goes into escrow and is reissued as its native one. |
| FeeFlow.FeeKeeper.OnTimeoutPacket | x/transfermiddleware/ibc_middleware.go:114-154 | The callback fails if giving the token back does; otherwise it gives the fee back if record, address and funds are there, and deletes the record only then. |
| FeeFlow.FeeKeeper.OnAcknowledgementPacket | x/transfermiddleware/ibc_middleware.go:157-175 | After a success, or an error whose token was given back, the callback deletes the record; otherwise it fails. |
| FeeFlow.SequenceKeyInjective | x/ibctransfermiddleware/types/keys.go:29-31 | The printed keys of two sequences are equal if and only if the sequences are. |
| FeeFlow.FeeKeeper.GetSequenceFee | x/ibctransfermiddleware/keeper/keeper.go:68-78 | Finds exactly the record of the sequence under its printed key. |
| FeeFlow.FeeKeeper.SetSequenceFee | x/ibctransfermiddleware/keeper/keeper.go:80-83 | Stores the record under the printed key of the sequence, and changes no other sequence's record. |
| FeeFlow.FeeKeeper.DeleteSequenceFee | x/ibctransfermiddleware/keeper/keeper.go:85-88 | Deletes the record under the printed key of the sequence, and no other sequence's record. |
| FeeFlow.FeeKeeper.GetChannelFeeAddress | x/ibctransfermiddleware/keeper/keeper.go:99-106 | Finds the fee address of the channel, or the empty string. |
| Mint.InflationAntitone | x/mint/types/minter.go:47-79 | The next inflation rate does not rise with the bonded ratio, through every rounding step and both clamps, while the blocks per year fit an int64; past that it does not fall. |
| Mint.InflationCanRise | x/mint/types/minter.go:47-79 | A concrete setting past the largest int64 at which it rises from four to five. |
| Mint.InflationStep | x/mint/types/minter.go:47-79 | One block moves the inflation by a step and clamps it between the shares of the minimum and the maximum; without a supply it leaves it alone. The step, times the blocks per year, is (1 - ratio / goal) times the yearly rate change, up to a unit of the last place for each block and two more. |
| MintRuns.InflationFollowsRatios | x/mint/abci.go:14-36 | Over any blocks none of which is clamped, the inflation moves by the yearly rate change times the gaps between goal and bonded ratio added up, over the goal and the blocks per year, up to that rounding for each block. |
| MintRuns.YearWithNothingBonded | x/mint/abci.go:14-36 | A year of such blocks with nothing bonded raises the inflation by the yearly rate change, up to a unit of the last place for each block and two more. |
| Mint.ProvisionsInBand | x/mint/types/minter.go:83-85 | For any positive supply, annual provisions stay within supply / 10^18 tokens of the configured minimum and maximum. |
| Mint.ShareIsClose | x/mint/types/minter.go:68-69 | A share of the supply, taken of the supply again, misses the tokens by less than one unit per token of supply. |
| Mint.ProvisionExact | x/mint/types/minter.go:89-92 | For all parameters that pass validation and all annual provisions: the provision is negative, and the coin cannot be made, if and only if a year of blocks takes a unit or more back each; otherwise it is the largest whole amount that, over a year of blocks, fits what the year pays. |
| MintRuns.BlocksFailOnlyIf | x/mint/abci.go:14-36 | No minter and no staking state makes a block fail if and only if the parameters satisfy one linear inequality; a nonnegative minimum and an int64 block count do. |
| MintRuns.FailingBlock | x/mint/abci.go:28-30 | Under any other parameters, the block at a named minter and supply fails. |
| MintRuns.RunsFailOnlyIf | x/mint/abci.go:14-36 | No chain that starts from a nonnegative inflation, and whose bonded ratios lie between zero and one, ever fails, whatever the supplies, if and only if no state at all makes a block fail, or the blocks per year fit an int64, the maximum is not negative and the rate does not fall even with everything bonded. |
| MintRuns.BlocksPayOnlyIf | x/mint/abci.go:14-36 | No state with a nonnegative pool makes a block that does not fail pay anything if and only if the parameters satisfy one linear inequality; past the largest int64 a nonnegative minimum does. |
| MintRuns.PayingBlock | x/mint/abci.go:28-36 | Under any other parameters, the block at a named minter, pool and supply empties a pool of at least one token. |
| MintRuns.NegativeMinimumFails | x/mint/types/params.go:67-89 | A concrete negative minimum that passes validation, and the first block of a chain with everything bonded, which fails. |
| MintRuns.BlocksPay | x/mint/abci.go:14-36 | Under any parameters that pass validation, blocks that do not fail never overdraw the pool, keep the total of pool and collector, and n of them pay at most n blocks' shares of what a year may pay, up to the rounding. |
| MintRuns.YearPaysAtMostMaximum | x/mint/abci.go:14-36 | A year's number of consecutive blocks that do not fail pays at most the maximum and supply / 10^18 tokens more: for every int64 block count, and past that for every setting under which blocks cannot pay. |
| MintRuns.PastInt64CanPay | x/mint/abci.go:14-36 | A concrete setting past the largest int64, with a negative minimum, at which a first block pays one token of a maximum of none. |
| MintRuns.YearPaysAtLeastMinimum | x/mint/abci.go:14-36 | Under any parameters that pass validation: from a pool that holds the maximum, a year's number of consecutive blocks that do not fail pays at least the minimum, less one token for each block and supply / 10^18 tokens. |
| Mint.MintKeeper.BeginBlocker | x/mint/abci.go:14-36 | The block stores the new minter, then moves its provision from the pool if the pool holds it. |
| Mint.MintKeeper.AddCollectedFees | x/mint/keeper/keeper.go:154-156 | Moves the amount exactly if the pool holds it, and keeps the total. |
| Decimals.ChopNearest | x/mint/types/minter.go:60-69 | Rounding half to even is at most half a unit off, and gives the even neighbour at exactly half. |
| Decimals.QuoClose | x/mint/types/minter.go:60-69 | A rounded quotient, multiplied by its divisor again, misses the dividend by less than one divisor of the last place. |
| Decimals.QuoMonotone | x/mint/types/minter.go:60-69 | A rounded quotient by a positive divisor is monotone. |
| Decimals.MulMonotoneDec | x/mint/types/minter.go:60-62 | A rounded product with a nonnegative factor is monotone. |

## Left out

- Genesis.RunSurvivesRestart: does not restore the epochs, because the export does not hold them; Genesis.ExportForgetsEpochs says exactly when they come back.
- RateLimitMiddleware.ChainIsALegalRun: assumes channel ids of at most sixteen bytes made of "channel-" and digits, that the transfer application neither sends nor accepts a negative amount, and that a channel does not run out of sequences; opening a channel is all that is modelled of the handshake.
- FeeCodecLaws.ParamsRoundTrip: asks of the coin codec that it reads back what it writes (ParamsStore.LawfulCodecExists gives one that does), and that the encoding fits a Go int, as every Go slice does. The coin codec itself belongs to the SDK and is a parameter.
- FeeCodecCode.UnmarshalParams: tells success from failure but not which error a failure carries.
- WireCode.DecodeVarint: writes the bitwise or of disjoint bits as an addition and a shift as a product.
- Mint.MintKeeper.BeginBlocker: does not model the bit limit of `sdk.Dec`, past which the SDK panics.
- Epochs.ClockOnTime: epoch numbers and times are unbounded; the wrap-around of int64 nanoseconds and counters is not modelled.
- FeeFlow.FeeKeeper.OnTimeoutPacket: the lookup that finds a parachain token's native denomination is a parameter.
- FeeFlow.FeeKeeper.Transfer: leaves out the transfer middleware's override of a parachain token's send, which burns the native token and starts a second transfer.
- MintRuns.YearPaysAtMostMaximum: past the largest int64 it is stated for the settings under which blocks cannot pay (MintRuns.BlocksPayOnlyIf); under the others MintRuns.BlocksPay bounds the blocks by the other side of the band.
- FeeConfig.ConfigKeeper.AddIBCFeeConfig: who may send a message and whether an address is valid bech32 are parameters.
- RateLimitKeeper.Keeper.IsAddressPairWhitelisted: keeps the source's key, sender and receiver without a separator, so pairs with equal concatenations share an entry, as they do in the source.
- Stored records are values in maps; their encoding is modelled for the fee parameters only.
- JSON decoding of packets, acknowledgements and memos, the parser of denomination traces and the SHA-256 hash: a packet carries its decoded data, and the parser and the hash are parameters.
- `UpdateCustomIbcParams`, which replaces the whole fee configuration.
- Message authority, bech32 and channel-id syntax in the rate limiter's `ValidateBasic`; only its numeric part is modelled.
- Module parameters of the rate limiter in genesis, which are empty.
- Events, logging, telemetry, gas and queries.
- Wasm hooks, staking overrides, migrations, application wiring and the other generated codecs.

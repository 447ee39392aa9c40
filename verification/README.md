# The Lemon vault agent's money-moving core, in Dafny

The Lemon agent runs one loop per vault. Every tick it reads the chain and a perp venue, computes
every action it is allowed to take, lets an untrusted advisor pick one, and moves USDC between a
vault on Base, the agent's own wallets, a bridge to Solana and a perp account there. This project
models the parts of that loop that decide how much money moves and where, and proves what they
keep: for every snapshot, every advisor, every delivery of the bridge and every run.

| file | what it covers |
|---|---|
| `Arithmetic.dfy`, `Sorting.dfy`, `Optional.dfy` | floor division and the array operations (stable sort, filter, map) the source relies on |
| `Sizing.dfy`, `Economics.dfy` | leverage sizing, required margin and buffer, the spot/margin split and its inverse, action costs |
| `Policy.dfy`, `PolicyTheorems.dfy`, `PolicyActions.dfy` | the option list as functions, what holds of it, and its step-by-step form |
| `OptionList.dfy` | the same list from outside: exactly what is on it, when, for how much and in what order, in the snapshot's figures |
| `UnwindAllocation.dfy` | the two-pass greedy allocator, on values and over its mutable tables |
| `Venue.dfy`, `Runs.dfy` | the adapter's effect on the perp account under every failure, and whole runs with an arbitrary advisor and a moving mark |
| `Ledger.dfy` | where the money is after any run |
| `Convergence.dfy` | what a sequence of deployments does to the weights |
| `Bridge.dfy` | the crossing protocol: counter, rows, crash points, whole histories |
| `Cooldown.dfy`, `Nav.dfy`, `Queue.dfy` | backoff, NAV cadence and funding periods, queue settlement |
| `Valuation.dfy`, `Weights.dfy` | the valuation total and the common unit, and the weight check the policy relies on |
| `FixedPoint.dfy`, `CanonicalJson.dfy`, `Indexer.dfy` | amounts as text, canonical key order, share accounting over an event log |

Code that updates state is modelled as methods with loops, maps or class fields, each proved equal
to a function of its inputs or its old state; the theorems are about those functions. What the
outside decides (what landed, what failed, what a poll said, what the advisor answered) is a
parameter with no assumption on it beyond those listed below.

## Where the code does not keep its promise

Each of these has an input that breaks the promise and, beside it, the exact condition under which it
holds.

- An unwind keeps back the buffer of the notional it reads, and what it reads can be too little
  (`apps/agent/src/venue.ts:1314-1345`): nothing when the positions cannot be read, and, when only the
  prices cannot, what the position cost at entry, which after a rise of the mark is less than what it is
  worth. A position marked at zero or missing from the configured markets counts as nothing, and a close
  order that leaves a leg open keeps nothing back at all. The account is then backed if and only if what
  is asked for, the venue's free figure less the buffer kept, is no more than equity less the required
  margin. That is known before the withdrawal is asked for: `Runs.WithdrawalKeepsBufferIff`,
  `Runs.UnwindKeepsBufferIff`, `Runs.CloseOrderKeepsBufferIff`. Reading no less than is open is enough
  (`Runs.NotedKeepsRoom`), and so is reading the prices, or entry prices no lower
  (`Runs.PricedKeepsRoom`). Inputs: `Runs.FailedReadCanSpendTheBuffer` (positions unread),
  `Runs.UnreadPricesCanSpendTheBuffer` (positions read, prices not), `Runs.FailedLegSpendsTheBuffer`.
- A deployment waits for the venue to know the account, not for the account to show the deposit
  (`apps/agent/src/venue.ts:318-347`), and from the second deployment on the account is known already. A
  short opened before its own margin is credited leaves the equity the venue shows backing it if and only
  if the equity from before the deposit does: `Runs.LateCreditKeepsBufferIff`. Input:
  `Runs.LateCreditCanSpendTheBuffer`, which reads 9990 where its sizing is 9700. Counting the deposit the
  venue holds and does not show yet, the account is backed throughout: `Runs.RunStaysBacked`.
- A rebalance that sells adds notional and no margin, and can take a conservative vault from 0.97x over
  its ceiling in one permitted tick: `Runs.RebalanceCanBreachTheMandate`. It keeps the buffer if and only
  if the equity backs the notional with the whole correction on top: `Runs.RebalanceKeepsBufferIff`.
  `Runs.Careful` names this condition and the one on withdrawals, both on figures known beforehand, and
  the run theorems hold of every run in which they are met.
- The policy offers a rebalance only when the venue would accept it, as its comment at
  `apps/agent/src/policy.ts:672-680` says, but it values the drift before the lot grid is applied and
  the venue after. The offer trades if and only if the whole lots in it still reach the venue's minimum:
  `Venue.OfferedTradesIff`, and `Venue.OfferTheVenueRefuses` for one that is listed and does not.
- A restart can count too little in four ways. A refund reported before the money is back and a send that
  throws after its money left are `Stray`; a withdrawal the venue has not settled and a deposit it has not
  registered are in no balance and no row (`Bridge.SlowSettlementIsCountedNowhere`,
  `Bridge.SlowRegistrationIsCountedNowhere`). With no closing write lost, a call that starts square ends
  with everything counted if and only if none of the four applies: `Bridge.CallCounts`. Over whole
  histories, crashes included: `Bridge.HistoryNeverShort`. Counter and rows part when the write that
  closes a row is lost, or when the read that seeds the counter fails with something pending.
- Queue entries are valued at a default price and paid at the vault's (`apps/agent/src/index.ts:174-196`).
  At the default or below every scaled request fits; above it `Queue.RefusedIff` says which are refused,
  and past a threshold no request is ever paid in part: `Queue.DearSharesAreNeverPartlyPaid`,
  `Queue.DearSharesGoUnpaid`.
- The comment on `sortJsonKeys` promises ascending keys. The host enumerates integer-like keys first and
  numerically, and an assignment to `__proto__` leaves no member. The promise is kept for exactly the
  values described by `CanonicalJson.AscendingIff`; `CanonicalJson.IndicesComeOutNumerically` breaks it.
  `CanonicalIffSame` is about values up to key order that ignore `__proto__`.
- The indexer conserves shares if and only if every debited position exists:
  `Indexer.SharesConservedIffBacked`. Fee shares break it: `Indexer.FeeSharesAreUnbacked`.
- The mark-rise bound is exact in real numbers. Over figures rounded to a base unit a position may exceed
  its ceiling by that unit's worth when equity after the move is 10,000 units or less:
  `Sizing.MarkRiseStaysUnderCeiling`, and `Sizing.RoundingCanCrossTheCeiling` for one that does.

## Model

| member | source | states |
|---|---|---|
| Sizing.SizingLeverageBps | apps/agent/src/policy.ts:346-352 | The sizing leverage never passes the vault's ceiling, and under a ceiling of 1x it always leaves the whole buffer |
| Sizing.SplitAdjunction | apps/agent/src/policy.ts:1317-1345 | A deployment buys a spot leg of at least `spot` if and only if it is at least `DeploymentFor(spot)`, for every total, spot and leverage |
| Sizing.SplitInvertsDeploymentFor | apps/agent/src/policy.ts:1328-1345 | Asking for a spot leg and splitting the answer gives exactly that spot leg, never a unit short |
| Sizing.SplitMarginCarriesItsHedge | apps/agent/src/policy.ts:1304-1325 | The margin half of every split carries its own spot half after rounding, and only an empty deployment bridges nothing |
| Sizing.BackedIff | apps/agent/src/policy.ts:361-364 | Equity of at least the required margin, restated without division, in both directions |
| Sizing.BackedIffBackable | apps/agent/src/policy.ts:361-364 | A position is backed exactly when its notional is at most what its equity can back |
| Sizing.BackedReading | apps/agent/src/valuation.ts:188-192 | A backed position reports at most S + floor((S-1)/equity) |
| Sizing.ReadingAtMostIffCarried | apps/agent/src/valuation.ts:188-192 | The reported leverage is at or under S exactly when notional * 10000 < (S+1) * equity |
| Sizing.ReadingAtTheEnds | apps/agent/src/valuation.ts:188-192 | An empty position reads 1x, and one with no equity left the largest safe integer |
| Sizing.BackedCoversNotional | apps/agent/src/policy.ts:366-380 | At 1x and under, what is required is the notional the venue reserves plus the buffer, and backed equity covers the notional |
| Sizing.ConservativeSizing | apps/agent/src/policy.ts:334-352 | A vault whose target and ceiling are both 1x is sized at 1x less the buffer |
| Sizing.MarkRiseStaysUnderCeiling | apps/agent/src/policy.ts:310-316 | After any mark rise of at most b / (2 * (10000 - b)), a buffered 1x position's notional exceeds its equity by at most one rounded unit, and it reads over its ceiling exactly when it does exceed it and equity is at most 10000 units |
| Sizing.RoundingCanCrossTheCeiling | apps/agent/src/policy.ts:310-316 | A buffered hedge of 64 units on 65 that reads 1.0156x after the whole rise, by rounding alone |
| Economics.FloorIgnoresNotional | apps/agent/src/economics.ts:154-206 | The economic floor depends on fixed costs only, so an amount rounded up to its floor reaches it |
| Economics.CostsAre | apps/agent/src/economics.ts:154-202 | What each of the four actions costs, fixed and variable, spelled out |
| PolicyTheorems.DeployableIffWithinCeilings | apps/agent/src/policy.ts:1264-1274 | An amount is deployable exactly when it fits the deployment ceiling, leaves ripe and pending redemptions covered, and fits the withdrawal window |
| PolicyTheorems.FirstIsBest | apps/agent/src/policy.ts:1154-1206 | Skipping candidates that fail a gate still stops at the best one that passes: most room, then highest weight |
| PolicyTheorems.BestOfAll | apps/agent/src/policy.ts:1135-1180 | The market chosen beats every weighted market that clears the size floor and the payback gate, and its room ends exactly at its share of the projected total |
| PolicyTheorems.DeploymentGoesWhereRoomIsGreatest | apps/agent/src/policy.ts:1127-1207 | A deployment names a market of greatest room among those worth opening and never carries it past its share; there is none only when no weighted market is worth opening |
| PolicyTheorems.RoomIsNeverStarved | apps/agent/src/policy.ts:1135-1146 | With buyable weights summing to 10000 over n markets, the greatest room r satisfies r * n >= incoming - (n - 1) |
| PolicyTheorems.TargetsCover | apps/agent/src/policy.ts:1138-1142 | Rounding every market's target down loses less than one unit a market |
| PolicyTheorems.SourceFacts | apps/agent/src/policy.ts:1085-1125 | Every funding source is the split of what it may spend, or idle USDC no larger than what spare margin carries |
| PolicyTheorems.DeploymentIsSound | apps/agent/src/policy.ts:1182-1204 | Trimming a deployment to its market's room and rebuilding its margin still fits the source, and the margin still carries the spot leg |
| PolicyTheorems.TopUpIsSound | apps/agent/src/policy.ts:844-894 | A top-up covers the whole shortfall out of one source that holds it, and is forced exactly when the ceiling is breached |
| PolicyTheorems.CorrectionIsSound | apps/agent/src/policy.ts:809-839 | A correction is a top-up, a sellable unwind or an explanation, within its bounds |
| PolicyTheorems.OptionsAreSound | apps/agent/src/policy.ts:508-731 | Every permitted action, on every snapshot, asks only for what its source, the market and the position allow |
| PolicyTheorems.DriftIsOffered | apps/agent/src/policy.ts:659-700 | Whenever nothing outranks it, a drift past the threshold that the policy expects the venue to take is on the list |
| PolicyTheorems.TrimmedFits | apps/agent/src/policy.ts:1182-1204 | Trimming a split's spot leg and rebuilding its margin stays within what was split, buys exactly the trimmed leg and carries it |
| PolicyTheorems.AdvisorOnlyChooses | apps/agent/src/policy.ts:1387-1426 | The list is never empty, and an advisor that is absent, throws or answers anything leaves a decision that is on it |
| PolicyTheorems.AnswerIsHeeded | apps/agent/src/policy.ts:1404-1413 | On any list that leaves a choice, an answer decides the earliest option of its kind in the market it names in any case, else the earliest of its kind, else the first option |
| PolicyTheorems.SilenceDecidesTheFirst | apps/agent/src/policy.ts:1392-1400 | With one option, a forced first option, no advisor or one that throws, the first option is decided |
| PolicyTheorems.ToUpperLetters | apps/agent/src/policy.ts:1404-1405 | The market an answer names is put in capitals letter by letter |
| PolicyTheorems.EveryChoiceIsSound | apps/agent/src/policy.ts:1387-1426 | So every decision an adversarial advisor can bring about is within its bounds |
| PolicyTheorems.ChoiceSpendsWithinCeilings | apps/agent/src/policy.ts:1182-1204 | Whatever the advisor, vault money spent keeps deployed + amount under the ceiling and free - amount over ripe and pending redemptions, agent money is held, and a deployment is the sum of its legs |
| PolicyTheorems.AtMostOneHold | apps/agent/src/policy.ts:706-729 | The list holds at most one HOLD |
| PolicyTheorems.OrdersLeaveNoChoice | apps/agent/src/policy.ts:523-583 | A close order, an urgent redemption or a real forced correction is what is decided, whatever the advisor says |
| PolicyTheorems.ForcedHoldKeepsRedemptions | apps/agent/src/policy.ts:632-650 | A forced HOLD never displaces a redemption unwind already listed, and suppresses the catch-all |
| PolicyTheorems.SmallVaultStillPays | apps/agent/src/policy.ts:636-650 | A $2 vault over its ceiling that cannot afford any correction says so and still offers to pay the $1 it owes |
| PolicyTheorems.TopUpRestoresMandate | apps/agent/src/policy.ts:844-894 | A landed top-up of at least the shortfall leaves the account backed, reading at most S + floor((S-1)/equity) |
| PolicyTheorems.ClosingTheExcessRestores | apps/agent/src/policy.ts:921-996 | Closing at least the excess, equity unchanged, leaves a reading at or under S exactly, and a backed account |
| PolicyTheorems.DeleverageRestoresMandate | apps/agent/src/policy.ts:921-996 | A deleverage whose sellable value covers the buffered excess leaves a reading at or under S exactly, equity unchanged |
| PolicyTheorems.BreachMeansExcess | apps/agent/src/policy.ts:931-934 | An account over its ceiling always holds more notional than its equity carries, so a deleverage has something to close |
| PolicyTheorems.BreachIsAnswered | apps/agent/src/policy.ts:809-996 | With nothing to top up from, a breach is answered by nothing only when nothing is sellable, by HOLD if and only if all that is sellable is under the economic floor, else by an unwind of at least that floor |
| OptionList.ResumableIff | apps/agent/src/policy.ts:1219-1223 | The agent may spend of its own exactly what lies idle, unless redemptions are short of cover |
| OptionList.DriftedIff | apps/agent/src/policy.ts:1286-1297 | The drift threshold without its division, for every pair of legs, an empty spot leg included |
| OptionList.PlaceableIff | apps/agent/src/policy.ts:747-780 | A correction is placeable if and only if it is at least a lot, at a mark, and worth the venue's minimum |
| OptionList.WorthOpeningIff | apps/agent/src/policy.ts:1155-1190 | A market is worth opening if and only if what fits clears the floor and its funding over the longest horizon covers the whole cost |
| OptionList.UnwindFloorIs | apps/agent/src/economics.ts:154-206 | The floor of an unwind: its fixed costs at the dearest gas it may meet, times the multiple |
| OptionList.TopUpIs | apps/agent/src/policy.ts:844-894 | Who pays for a top-up, how much, and whether it is forced, on both sides of the ceiling |
| OptionList.ExcessIs | apps/agent/src/policy.ts:921-960 | The excess a deleverage closes: what is open past what the equity carries, never less than nothing |
| OptionList.CorrectionIs | apps/agent/src/policy.ts:809-996 | The correction in full: nothing up to halfway to the ceiling, a funded top-up past it, and past the ceiling with nobody to pay an unwind, an explanation or nothing |
| OptionList.SourcesAreTriedInTurn | apps/agent/src/policy.ts:1048-1125 | Stranded margin first, then what is idle at the agent, then the vault, a source that opens nothing never stopping the next |
| OptionList.DeploymentIs | apps/agent/src/policy.ts:1146-1207 | A deployment names one of the markets and the source that funds it; its spot leg is the room or the budget, and its margin matches |
| OptionList.PlainActions | apps/agent/src/policy.ts:508-731 | A HOLD, an unwind and a rebalance, field by field |
| OptionList.CommandsStandAlone | apps/agent/src/policy.ts:508-600 | A close order, a redemption due within a day and an overriding correction are each the whole list, with their conditions and amounts spelled out |
| OptionList.ListIs | apps/agent/src/policy.ts:508-731 | Any other list holds exactly: what redemptions call for, or else the retired drain; the correction; every placeable drift past the threshold; the deployment; and a plain HOLD unless the correction says one |
| OptionList.ListIsRanked | apps/agent/src/policy.ts:508-731 | In that order |
| OptionList.RebalancesAreRanked | apps/agent/src/policy.ts:659-700 | Rebalances furthest adrift first, and of two equally adrift the one listed first |
| PolicyActions.DeploymentSources | apps/agent/src/policy.ts:1085-1125 | The list grown by pushing is stranded margin first, then idle USDC, then the vault |
| PolicyActions.DeployFrom | apps/agent/src/policy.ts:1127-1207 | The loop with its early exits computes the specified deployment of one source |
| PolicyActions.DeployNext | apps/agent/src/policy.ts:1048-1057 | The first source that can fund a deployment funds it |
| PolicyActions.OfferRebalances | apps/agent/src/policy.ts:659-700 | Each drifted market the venue would let the agent correct is offered, worst drift first, after what was already listed |
| PolicyActions.PermittedActions | apps/agent/src/policy.ts:508-731 | The pushed list with its early returns is the specified option list |
| PolicyActions.Decide | apps/agent/src/policy.ts:1387-1426 | The decision is the specified choice, within every bound for any advisor; what is chosen for which answer is `PolicyTheorems.AnswerIsHeeded` |
| UnwindAllocation.GreedyBounds | apps/agent/src/venue.ts:1600-1611 | A pass takes at most each limit, and never a slice under the floor |
| UnwindAllocation.GreedyExhausts | apps/agent/src/venue.ts:1623-1630 | With no floor a pass raises everything asked for or everything there is |
| UnwindAllocation.GreedyHeaviestFirst | apps/agent/src/venue.ts:1591-1611 | A lighter slice is touched only once every heavier one was taken in full |
| UnwindAllocation.FirstAreLargest | apps/agent/src/venue.ts:1613-1631 | No choice of k legs holds more than the k largest |
| UnwindAllocation.GreedyTouchesFewest | apps/agent/src/venue.ts:1613-1631 | Every set of legs that could raise what is asked is at least as large as the set a largest-first pass touches |
| UnwindAllocation.FirstPassStopsAtTarget | apps/agent/src/venue.ts:1591-1611 | A first-pass take is zero or at least $100, from a sellable leg, and leaves the leg at or above its target share of the total before the unwind |
| UnwindAllocation.FirstPassHeaviestFirst | apps/agent/src/venue.ts:1591-1611 | The first pass reaches a market only after bringing every heavier one, and every one as heavy listed before it, to its target |
| UnwindAllocation.FirstPassTakesTheExcess | apps/agent/src/venue.ts:1591-1611 | Every sellable leg $100 or more past its share gives up exactly its excess, unless under $100 is left for the second pass, and only a part of it when nothing is left |
| UnwindAllocation.PlanBringsToTarget | apps/agent/src/venue.ts:1571-1636 | On the plan: allocations past the excesses by $100 in total give every sellable leg $100 past its share at least its excess |
| UnwindAllocation.SecondPassLargestFirst | apps/agent/src/venue.ts:1613-1631 | The second pass reaches a leg only after emptying every larger one, and every equal one listed before it |
| UnwindAllocation.PlanKeepsOrder | apps/agent/src/venue.ts:1633-1636 | The plan lists its markets in the order of the legs |
| UnwindAllocation.PassesRaise | apps/agent/src/venue.ts:1571-1636 | Both passes together take exactly min(amount, everything sellable) |
| UnwindAllocation.UnwindConserves | apps/agent/src/venue.ts:1571-1636 | The allocations sum to min(amount, total sellable value), and to zero when nothing is asked |
| UnwindAllocation.UnwindAllocationsAreSellable | apps/agent/src/venue.ts:1571-1636 | Each allocation is positive, from a sellable leg, and at most that leg's value |
| UnwindAllocation.SecondPassTouchesFewest | apps/agent/src/venue.ts:1613-1631 | No smaller set of markets could have raised what the first pass left |
| UnwindAllocation.TakeOne | apps/agent/src/venue.ts:1600-1611 | One leg's take moves between the tables, or nothing does under the floor |
| UnwindAllocation.TakeInTurn | apps/agent/src/venue.ts:1600-1611 | One pass over the mutable tables moves each leg's greedy take from its capacity to its allocation, stopping early or not |
| UnwindAllocation.OpenTables | apps/agent/src/venue.ts:1581-1586 | Every leg starts with nothing allocated and its sellable value as capacity |
| UnwindAllocation.AllocateUnwind | apps/agent/src/venue.ts:1571-1636 | The two passes over mutable maps compute the plan the theorems above are about |
| UnwindAllocation.TakeFromLargest | apps/agent/src/venue.ts:1613-1636 | The second pass and the final listing, in place, give the specified plan |
| Venue.SnapToLot | apps/agent/src/venue.ts:1780-1783 | A quantity snapped to the grid is a whole number of lots, never more, and less than a lot short |
| Venue.SnappedShortFitsSpend | apps/agent/src/venue.ts:711-726 | A short snapped down from a quote at the mark adds at most the spend to the notional |
| Venue.CorrectionClosesDrift | apps/agent/src/venue.ts:1112-1150 | A rebalance never crosses its target, and one that trades leaves less than a lot |
| Venue.RebalanceMovesTheLeg | apps/agent/src/venue.ts:1112-1190 | The notional moves by what the perp leg is worth after the fill less before, to one unit, and nothing else moves |
| Venue.OfferedTradesIff | apps/agent/src/policy.ts:747-780 | Anything the venue would trade at a mark is offered, and what is offered trades if and only if the whole lots in the drift are still worth the venue's minimum |
| Venue.OfferTheVenueRefuses | apps/agent/src/policy.ts:672-700 | A rebalance on the option list for which the venue trades nothing: a lot and a half, over the minimum as a whole and under it in lots |
| Venue.ShortedFitsSpend | apps/agent/src/venue.ts:711-747 | With a router that quotes at the mark, the short a deployment opens is worth at most what it spends on spot, whatever the lot grid |
| Venue.DeployedIsCarried | apps/agent/src/venue.ts:565-835 | Whatever fails, whatever is lost in transit and whenever the deposit is credited, a deployment adds no more notional than its landed or spare margin carries, takes nothing from equity, and what landed is in custody by the time the short is open |
| Venue.DeployedExactly | apps/agent/src/venue.ts:565-835 | Every balance, the notional and the outcome of a deployment, in what it was asked and answered |
| Venue.NakedShortIsClosed | apps/agent/src/venue.ts:776-796 | A short whose spot could not be bought and which was closed again leaves the notional where it was |
| Venue.RepatriationKeeps | apps/agent/src/venue.ts:1227-1301 | However a repatriation ends, it touches no notional, and takes from equity nothing or exactly what it asked for, which leaves the notional and the buffer of what it read as open |
| Venue.KeptIs | apps/agent/src/venue.ts:1320-1345 | The margin kept is the buffer of size times price summed over what is listed, at the mark or else at entry |
| Venue.RepatriatedExactly | apps/agent/src/venue.ts:1227-1301 | Every balance and the answer of a repatriation, in what it was asked and answered |
| Venue.NotedCovers | apps/agent/src/venue.ts:1320-1340 | Priced at its marks, or at entry prices no lower, what a withdrawal reads as open is no less than what is |
| Venue.ClosedIs | apps/agent/src/venue.ts:1381-1509 | Closing legs takes exactly the worth of what closed off the notional, leaves equity alone and adds exactly what was raised |
| Venue.ClosedOneIs | apps/agent/src/venue.ts:1381-1509 | One leg in figures: what fills of its whole lots, never more than is open, and what its sale raised |
| Venue.FailuresAre | apps/agent/src/venue.ts:1057-1067 | The failures counted are exactly the legs with something to close that could not be |
| Venue.LegClosesItsAmount | apps/agent/src/venue.ts:879-897 | Selling an allocation's part of a leg closes at least that much of its short, less one lot and one unit |
| Venue.PlanIsCarried | apps/agent/src/venue.ts:861-881 | Every allocation of an unwind finds a holding of its ticker worth at least as much |
| Venue.UnwindClosesItsAmount | apps/agent/src/venue.ts:841-897 | From the amount asked through the allocations and the units to the notional: filled orders close at least min(amount, all sellable), less a lot and a unit for each leg |
| Venue.ClosesMatchThePlan | apps/agent/src/venue.ts:879-897 | One close for each allocation, in its order, of its holding, for units u with u * value <= balance * amount < (u + 1) * value, or all of them |
| Venue.PartClosesNoMore | apps/agent/src/venue.ts:887-897 | A part of a leg quoted at its mark or above closes no more of the short than was allocated |
| Venue.UnwindClosesNoMore | apps/agent/src/venue.ts:841-897 | And the other side, however orders fill: each close sells its allocation's part and no more, and where sales are quoted at the mark or above no more than min(amount, all sellable) closes |
| Venue.UnwindReturnsWhatItRaised | apps/agent/src/venue.ts:934-941 | A completed unwind sends back exactly what it raised and brought home, leaving the rest of the Base balance where it was |
| Venue.UnwoundKeeps | apps/agent/src/venue.ts:841-950 | However far an unwind gets, it only shrinks the position, and a withdrawal leaves the notional and the buffer of what was read as open |
| Venue.UnwoundExactly | apps/agent/src/venue.ts:841-950 | When an unwind is refused, where it breaks off, and what it sends home and answers otherwise |
| Venue.UnwoundNotional | apps/agent/src/venue.ts:841-950 | However far an unwind gets, the notional falls by exactly the worth of the legs it tried |
| Venue.ClosedOutKeeps | apps/agent/src/venue.ts:1021-1110 | However far a close order gets, it never takes equity below the notional still open |
| Venue.ClosedOutExactly | apps/agent/src/venue.ts:1021-1110 | Where a close order breaks off, what its sweep and return leave, and how it ends |
| Venue.AllClosesAre | apps/agent/src/venue.ts:1046-1052 | Every market is closed for the larger of what is held and what is short |
| Venue.OrderedNotional | apps/agent/src/venue.ts:1021-1110 | However far a close order gets, the notional falls by exactly the worth of the legs it read |
| Venue.CleanCloseLeavesNothing | apps/agent/src/venue.ts:1071-1092 | A close order in which nothing fails leaves nothing idle on either chain and takes all the venue would give |
| Venue.Adapter.ToSolana | apps/agent/src/bridge.ts:273-380 | As the account sees it: deposited margin waits for the venue, stranded margin waits in the Solana wallet, missing margin is nowhere |
| Venue.Adapter.AwaitRegistration | apps/agent/src/venue.ts:318-347 | The wait ends when the venue knows the account; what was deposited is equity from then on only if the venue has credited it too |
| Venue.Adapter.Deploy | apps/agent/src/venue.ts:565-835 | Which of the five outcomes happens and exactly where each leaves the account and the wallets, an order or swap that errs after taking effect included |
| Venue.Adapter.TopUpMargin | apps/agent/src/venue.ts:959-995 | A top-up is one crossing and nothing else |
| Venue.Adapter.RetainedMargin | apps/agent/src/venue.ts:1320-1345 | The loop over positions keeps back the buffer of everything it could read and price, each at its mark or else at its entry price |
| Venue.Adapter.RepatriateMargin | apps/agent/src/venue.ts:1227-1301 | The step-by-step withdrawal and crossing has the specified effect, a request that errs after taking effect included |
| Venue.Adapter.CloseLeg | apps/agent/src/venue.ts:1381-1509 | One leg: whole lots of the short, reduce-only, then at most what is held of the spot |
| Venue.Adapter.CloseInTurn | apps/agent/src/venue.ts:879-897 | Legs are closed up to and including the first that fails, and proceeds are counted only if none does |
| Venue.Adapter.SendHome | apps/agent/src/venue.ts:899-941 | Margin that does not make it home does not stop the proceeds going back |
| Venue.Adapter.Unwind | apps/agent/src/venue.ts:841-950 | The whole unwind, from its allocations to what it returns, has the specified effect, refusing when nothing is priced |
| Venue.Adapter.CloseEach | apps/agent/src/venue.ts:1031-1067 | Every leg before the first failed read is tried, and the failures counted are those that happened |
| Venue.Adapter.CloseAll | apps/agent/src/venue.ts:1021-1110 | A failed read stops the order before the sweep, a failed return is an error, and otherwise every leg is tried, the account swept and the Base balance sent back |
| Venue.Adapter.Rebalance | apps/agent/src/venue.ts:1112-1190 | The perp leg alone moves, by what fills of the whole lots worth trading; no margin moves with it |
| Runs.RebalanceKeepsBufferIff | apps/agent/src/venue.ts:1112-1190 | A rebalance that sells keeps the account backed, however much of it fills, if and only if the equity backs the notional with the whole correction on top, in figures known before the order |
| Runs.RebalanceCanBreachTheMandate | apps/agent/src/policy.ts:659-700 | A backed conservative vault whose permitted rebalance takes its reading from 0.97x to 1.0669x |
| Runs.WithdrawalKeepsBufferIff | apps/agent/src/venue.ts:1227-1262 | A withdrawal leaves the account backed if and only if what it asks for is no more than equity less the required margin; unread or in a sweep it asks for all that is free |
| Runs.NotedKeepsRoom | apps/agent/src/venue.ts:1320-1345 | An unwind that reads no less than is open always keeps the buffer, whatever the account was before it |
| Runs.PricedKeepsRoom | apps/agent/src/venue.ts:1320-1340 | In particular one that reads its prices, or has entry prices no lower than the marks |
| Runs.UnwindKeepsBufferIff | apps/agent/src/venue.ts:841-950 | The same condition, on what is open once the legs are closed, decides an unwind, whatever it could and could not read |
| Runs.CloseOrderKeepsBufferIff | apps/agent/src/venue.ts:1021-1110 | And a close order, whatever it leaves open |
| Runs.SweptBackedIffDust | apps/agent/src/venue.ts:1241-1251 | A position swept to bare 1x keeps its buffer exactly when its notional times (10000 - S) is under S |
| Runs.FailedReadCanSpendTheBuffer | apps/agent/src/venue.ts:1314-1324 | An unwind, run through its own inputs, whose failed read leaves $100 of hedge at exactly its ceiling |
| Runs.UnreadPricesCanSpendTheBuffer | apps/agent/src/venue.ts:1320-1340 | An account restored to 0.9621x whose unwind reads its positions and not the prices, keeps the buffer of its entry prices, and ends at 9705 without the buffer it requires |
| Runs.FailedLegSpendsTheBuffer | apps/agent/src/venue.ts:1057-1076 | For any account and leg, a close order whose leg fails and whose sweep goes through leaves the whole hedge at exactly 1x |
| Runs.LateCreditKeepsBufferIff | apps/agent/src/venue.ts:318-347 | A short opened before its margin is credited leaves the account backed, as the venue shows it, if and only if the equity from before the deposit backs it |
| Runs.LateCreditCanSpendTheBuffer | apps/agent/src/venue.ts:636-643 | A vault at its sizing whose next deployment is credited late reads 9990, and is backed again once it is credited |
| Runs.CarriedStaysBacked | apps/agent/src/venue.ts:674-675 | Margin that landed carries what was opened against it, whatever the bridge kept, at any sizing |
| Runs.SpareStaysBacked | apps/agent/src/policy.ts:382-402 | Spending the venue's free margin less the buffer keeps the account backed |
| Runs.RetainedStaysBacked | apps/agent/src/venue.ts:1302-1312 | Notional and its own buffer is what the surviving position requires |
| Runs.UnwindLeavesNothingSpare | apps/agent/src/policy.ts:366-376 | After a full withdrawal the next deployment finds no spare margin: deployment and withdrawal agree on the buffer |
| Runs.DeployOwesNoMore | apps/agent/src/policy.ts:1085-1125 | Any permitted deployment, fresh or resumed, on any delivery credited at any time, leaves the account no further behind than it was, counting what the venue holds for it |
| Runs.UnwindOwesNoMore | apps/agent/src/venue.ts:841-950 | So does an unwind whose withdrawal has room |
| Runs.CloseOrderOwesNoMore | apps/agent/src/venue.ts:1021-1110 | So does a close order whose sweep has room |
| Runs.RebalanceOwesNoMore | apps/agent/src/venue.ts:1112-1190 | So does a rebalance that buys, or sells what the equity backs |
| Runs.TopUpOwesNoMore | apps/agent/src/policy.ts:844-894 | So does a top-up, and one that delivers all that is short leaves nothing owed, credited or not |
| Runs.StepOwesNoMore | apps/agent/src/worker.ts:497-606 | So does one tick with an arbitrary advisor, decided by the policy and executed by the adapter on whatever it is answered |
| Runs.RestoringOwesNothing | apps/agent/src/worker.ts:497-606 | A tick that delivers the shortfall, or whose unwind or close order closes all that the equity does not carry, leaves nothing owed, whatever was owed before |
| Runs.MarkOwes | apps/agent/src/valuation.ts:162-187 | A rise of the mark puts the account behind by what it takes and calls for, and a fall pays back what it gives and frees |
| Runs.RunOwes | apps/agent/src/worker.ts:497-606 | Over any run sized at or under 1x, equity, deposits not credited yet, and what the mark has taken and not given back since the account was last restored cover floor(notional * 10000 / S) after every event |
| Runs.RunStaysBacked | apps/agent/src/worker.ts:497-606 | While the mark stands still, equity and deposits not credited yet >= floor(notional * 10000 / S) after every event, and equity alone whenever every deposit is credited |
| Runs.RunReading | apps/agent/src/valuation.ts:188-192 | So whenever every deposit is credited the leverage reported, from a flat start, is at most S + floor((S-1)/equity) |
| Runs.RunStaysUnderCeiling | apps/agent/src/policy.ts:300-319 | A conservative vault reads at or under its ceiling for as long as what is owed and what is not credited yet stay within the buffer's share of its equity |
| Runs.OwedIsSinceALow | apps/agent/src/policy.ts:300-319 | However often the mark comes and goes, no more is owed than its rise since some earlier moment calls for, and two base units for each move since |
| Runs.RunUnderCeilingNearItsLow | apps/agent/src/policy.ts:300-319 | So a conservative vault reads at or under its ceiling while its mark is within the buffer of its low, however it oscillated before and with nothing restored |
| Runs.RunRidesOutAMarkRise | apps/agent/src/policy.ts:310-319 | Until its mark first moves it still reads at or under its ceiling after a rise of at most b / (2 * (10000 - b)), once what the venue holds for it is above 10000 units after the move and credited |
| Runs.FundedBreachIsToppedUp | apps/agent/src/policy.ts:809-894 | A breach is topped up, whatever the advisor, if and only if some source holds all that is short |
| Runs.FundedBreachIsRestored | apps/agent/src/policy.ts:809-894 | When all that is short is delivered, nothing is owed, and once it is credited the reading is back at its sizing |
| Runs.UnfundedBreachIsUnwound | apps/agent/src/policy.ts:827-996 | A breach nothing funds is answered by an unwind of the buffered excess or the economic floor, whenever what is sellable reaches the floor |
| Runs.FilledOrdersCloseTheExcess | apps/agent/src/venue.ts:841-897 | An unwind whose orders fill closes the excess whenever their lots are worth no more than what is asked for beyond it |
| Runs.UnfundedBreachIsRestored | apps/agent/src/policy.ts:921-996 | Once the legs close the excess, what is left reads at or under S exactly and nothing is owed, and if the withdrawal has room it is still backed when the freed margin has gone home |
| Runs.FreshVaultDeploys | apps/agent/src/policy.ts:1127-1207 | What a fresh $1,000 vault deploys, to the base unit |
| Runs.FreshVaultRuns | apps/agent/src/worker.ts:497-606 | Such a vault's first tick is a run, with an advisor that throws and a crossing that loses a dollar, and reads 9699 after it |
| Runs.RisenVaultIsRestored | apps/agent/src/worker.ts:497-606 | A run in which the mark takes a vault over its ceiling and the next tick, with any advisor, brings it back to 9621 |
| Runs.FullVaultIsRestored | apps/agent/src/worker.ts:588-593 | A fully deployed vault over its ceiling, whose tick unwinds with any advisor from 1.0097x to 0.9698x |
| Ledger.RepatriatedHolds | apps/agent/src/venue.ts:1227-1301 | A withdrawal moves money within what is held, and only the crossing costs any |
| Ledger.DeployedHolds | apps/agent/src/venue.ts:565-835 | However a deployment ends, what is held falls by what its crossing cost and what it paid for spot |
| Ledger.UnwoundHolds | apps/agent/src/venue.ts:841-950 | However far an unwind gets, what is held changes by what was raised, what came home and what went back |
| Ledger.ClosedOutHolds | apps/agent/src/venue.ts:1021-1110 | The same of a close order and its sweep |
| Ledger.TickHolds | apps/agent/src/worker.ts:497-606 | Over any tick, equity, deposits not credited and both wallets change by exactly what was drawn and raised, less what was spent, returned, kept by crossings and lost |
| Ledger.RunHolds | apps/agent/src/worker.ts:497-606 | And over any run, with any advisor and any failures, by the sum of those books and what the mark moved |
| Convergence.SplitLess | apps/agent/src/policy.ts:1317-1345 | Taking a deployment out of a budget leaves the rest of its spot half, less at most one unit |
| Convergence.DeploymentProgresses | apps/agent/src/policy.ts:1127-1207 | A deployment goes into a market with room, gives no market more room, and fills its market unless it spends all there is |
| Convergence.GreatestRoomNeverGrows | apps/agent/src/policy.ts:1020-1047 | Over any sequence of deployments at constant quotes the greatest room never grows, and the total the shares are taken of drifts by at most one unit each |
| Convergence.ChainIsShort | apps/agent/src/policy.ts:1020-1047 | Such a sequence is no longer than the number of markets with room when it begins |
| Convergence.StopsOnlyWhenDone | apps/agent/src/policy.ts:1048-1057 | It stops if and only if nothing is left to spend or no weighted market is worth opening |
| Convergence.DeploymentsFinish | apps/agent/src/policy.ts:1020-1047 | From any such vault one market a tick finishes, in no more ticks than that |
| Convergence.NoRoomIsAtTheWeights | apps/agent/src/policy.ts:1135-1150 | When none of n buyable markets carrying the whole weight has room, all but n - 1 base units are deployed and each holds its share to within those |
| Bridge.PendingTotalUpdate | apps/agent/src/bridge.ts:529-537 | Changing one row changes the pending total by that row's share of it |
| Bridge.PendingTotalIs | apps/agent/src/bridge.ts:529-537 | The total is the amounts of the vault's own PENDING and SENT rows |
| Bridge.OutcomeIsDecided | apps/agent/src/bridge.ts:136-178 | A crossing fills, or is refunded, exactly when its first answer that is not waiting says so, and times out exactly when none does |
| Bridge.CrossingAddsUp | apps/agent/src/bridge.ts:306-379 | A recorded crossing loses nothing but the relayer's cut, and leaves in transit exactly what strayed or timed out |
| Bridge.CallCounts | apps/agent/src/bridge.ts:306-379 | Counter and rows agree after a call exactly when they agreed before and no closing write was lost; a square start ends with everything counted exactly when nothing strayed and nothing is hidden |
| Bridge.SmoothOut | apps/agent/src/bridge.ts:273-380 | Margin out with nothing amiss is all at the venue, its row COMPLETE, the counter as before |
| Bridge.SmoothHome | apps/agent/src/bridge.ts:391-470 | Margin home with nothing amiss is all on Base, the withdrawal settled, its row COMPLETE |
| Bridge.RefundedOut | apps/agent/src/bridge.ts:156-161 | A refunded crossing leaves the money where it was, its row FAILED and nothing counted |
| Bridge.StuckOut | apps/agent/src/bridge.ts:162-167 | One that is never decided is under way, its row SENT and the counter up by it |
| Bridge.UnsentOut | apps/agent/src/bridge.ts:273-340 | One that could not be sent moved nothing, and its row, if it had one, is FAILED |
| Bridge.LostWriteOut | apps/agent/src/bridge.ts:558-571 | A closing write that is lost leaves the row SENT, or PENDING if that write was lost too |
| Bridge.HistoryKeepsUp | apps/agent/src/bridge.ts:107-116 | Over any sequence of calls, crashes inside calls, restarts and arrivals, the rows fall behind what is crossing by no more than what strayed |
| Bridge.HistoryAgrees | apps/agent/src/bridge.ts:107-116 | Over any such history that loses no closing write and no seed read, counter and rows agree after every stage |
| Bridge.HistoryNeverShort | apps/agent/src/bridge.ts:107-116 | At any moment of any such history at which nothing has strayed, a restart is short by no more than a withdrawal not yet settled and a deposit not yet registered |
| Bridge.SlowSettlementIsCountedNowhere | apps/agent/src/bridge.ts:391-403 | A withdrawal still settling is in no balance and no row, for any amount |
| Bridge.SlowRegistrationIsCountedNowhere | apps/agent/src/venue.ts:265-276 | A deposit the venue has not registered is in no balance, and its row is closed |
| Bridge.RelayBridge.constructor | apps/agent/src/bridge.ts:107-116 | The seeded counter agrees with the rows exactly when the read succeeded or there was nothing pending |
| Bridge.RelayBridge.AwaitFill | apps/agent/src/bridge.ts:136-178 | Polling goes on to the first answer that decides, and gives up only when every answer is waiting |
| Bridge.RelayBridge.Record | apps/agent/src/bridge.ts:539-556 | A new PENDING row counts its amount at once |
| Bridge.RelayBridge.Write | apps/agent/src/bridge.ts:558-572 | A status write that fails leaves the row as it was; one that closes it stops it counting |
| Bridge.RelayBridge.Send | apps/agent/src/bridge.ts:319-325 | A send that throws may or may not have moved the money; the row counts either way until it is closed |
| Bridge.RelayBridge.Receive | apps/agent/src/bridge.ts:327-341 | A fill closes the row with what landed, a refund closes it as failed, a timeout leaves it counted |
| Bridge.RelayBridge.Transmit | apps/agent/src/bridge.ts:319-379 | The rows and the money after each of the four endings |
| Bridge.RelayBridge.Carry | apps/agent/src/bridge.ts:306-379 | The counter keeps exactly a crossing that timed out |
| Bridge.RelayBridge.Cross | apps/agent/src/bridge.ts:292-379 | Whether it returns or throws, the counter moves with the rows except for a lost closing write, the rows cover the crossing except for a stray one, and every moment between is as safe |
| Bridge.RelayBridge.Bank | apps/agent/src/bridge.ts:343-362 | What landed goes to the venue when it is enough and the deposit succeeds, and stays in the wallet otherwise |
| Bridge.RelayBridge.CrossAndBank | apps/agent/src/bridge.ts:273-380 | One crossing out and the deposit of what landed: the row, the counter and every balance after it |
| Bridge.RelayBridge.BridgeToSolana | apps/agent/src/bridge.ts:273-380 | Margin out, end to end: one row, the counter and every balance exactly, and every moment it passed through safe to restart at |
| Bridge.RelayBridge.BridgeToBase | apps/agent/src/bridge.ts:391-470 | The same for margin coming home, its wait for the withdrawal included |
| Cooldown.ActionCooldown.Remaining | apps/agent/src/cooldown.ts:83-88 | The wait left is what the entry's deadline leaves, never negative |
| Cooldown.ActionCooldown.Failed | apps/agent/src/cooldown.ts:90-103 | A failure lengthens its own key's wait and touches no other |
| Cooldown.ActionCooldown.Succeeded | apps/agent/src/cooldown.ts:105-107 | A success forgets its own key and touches no other |
| Cooldown.BackoffIs | apps/agent/src/cooldown.ts:90-103 | The waits are 120, 240, 480 and 960 seconds, and 1800 from the fifth failure on |
| Cooldown.BlockedForIs | apps/agent/src/cooldown.ts:83-88 | A key waits exactly until its deadline |
| Cooldown.EntryIsStreak | apps/agent/src/cooldown.ts:77-112 | After any log, a key's entry is the length of its failure streak and the last failure plus that streak's backoff |
| Cooldown.OtherKeysUnchanged | apps/agent/src/cooldown.ts:77-112 | No event on one key changes another key's wait or count |
| Cooldown.SuccessResets | apps/agent/src/cooldown.ts:105-107 | A success clears the wait and the streak, whatever had built up |
| Cooldown.StreakSpansItsWaits | apps/agent/src/worker.ts:512-531 | Under the tick's gate, consecutive failures span at least the sum of their waits |
| Cooldown.SpanAtLeast | apps/agent/src/cooldown.ts:97-100 | The waits of n >= 5 failures add up to exactly 1800 * (n - 4) seconds |
| Cooldown.FailuresAreSpread | apps/agent/src/worker.ts:512-531 | n >= 5 consecutive failed attempts of one key span at least 1800 * (n - 4) seconds |
| Cooldown.KeysAreDistinct | apps/agent/src/cooldown.ts:59-61 | Two actions share a backoff exactly when they are one kind on one market, no market reading as "-" |
| Nav.CrossedIffSettled | packages/core/src/funding.ts:60-82 | A settlement has landed since a moment exactly when the next settlement after it has come |
| Nav.NoPeriods | packages/core/src/funding.ts:49-82 | With no interval nothing ever settles |
| Nav.DueExactlyFromDueAt | apps/agent/src/worker.ts:298-323 | A report is due exactly from max(floor, min(settlement, keepalive)), and every refusal names that instant |
| Nav.DueIff | apps/agent/src/worker.ts:298-323 | A report is due if and only if the least interval has passed and, since the last, a funding period has begun or half the staleness window has gone |
| Nav.ReportsAreSpaced | apps/agent/src/worker.ts:298-323 | Over any run no two accepted reports are closer than the least interval |
| Nav.ReportsInDistinctPeriods | apps/agent/src/worker.ts:298-323 | Over any run with half the staleness window at least one period, accepted reports fall in strictly later funding periods |
| Nav.ReportsAreFrequent | apps/agent/src/worker.ts:298-323 | With ticks at most d apart and stamps at most l late, reports are at most max(minInterval, min(3600, staleness / 2)) + d + l apart |
| Nav.Latest | packages/core/src/funding.ts:101-110 | The walk keeps, for every occupied period, its latest item and the last of those that tie |
| Nav.LastPerFundingPeriod | packages/core/src/funding.ts:96-113 | The result holds exactly one winner per occupied period, in ascending order, whatever the input order |
| Nav.ThinnedIsUnique | packages/core/src/funding.ts:96-113 | That specification has one answer |
| Nav.ThinnedAscends | packages/core/src/funding.ts:84-95 | The result is strictly ascending in time, not only in period |
| Nav.ThinnedTwice | packages/core/src/funding.ts:96-113 | Thinning a thinned series changes nothing |
| Queue.PayableFits | apps/agent/src/worker.ts:788-791 | At the quoted price or below, scaling a request down never asks for more than is free |
| Queue.RefusedIff | apps/agent/src/worker.ts:788-791 | Above it, exactly which scaled requests the vault refuses for size, in figures known before the call |
| Queue.DearSharesAreNeverPartlyPaid | apps/agent/src/index.ts:174-196 | Once free * (price - quoted) reaches quoted * (1 + price), in shares of 1e18, no request is ever paid in part |
| Queue.DearSharesGoUnpaid | apps/agent/src/index.ts:174-196 | With requests quoted at $1 and shares at $1.10: $1.05 does not pay a request listed at $1, and $1 pays no part of one listed at $2 |
| Queue.PartialTakes | apps/agent/src/worker.ts:788-791 | What a partial payment takes of what is free, for any quoted and any paid price |
| Queue.PartialUsesAllButOne | apps/agent/src/worker.ts:788-791 | At one price of at most one, a partial payment takes all but at most one unit of what is free |
| Queue.PayWithinFree | apps/agent/src/worker.ts:770-810 | A pass never pays out more than was free when it began |
| Queue.PayFrom | apps/agent/src/worker.ts:780-807 | From any entry on, a pass is a pass over the rest with what is left |
| Queue.PayAt | apps/agent/src/worker.ts:780-807 | Each entry is paid out of exactly what the entries before it left |
| Queue.EveryoneInTurn | apps/agent/src/worker.ts:770-810 | For any quoted and any paid price, which entries are paid, in full or how far in part; at one price everyone after a partial payment shares at most one unit |
| Queue.FulfilledIs | apps/agent/src/worker.ts:780-807 | The count reported is the number of payments that paid anything |
| Queue.ServedInOrder | apps/agent/src/worker.ts:778-778 | Everyone is served once, in eligibility order |
| Queue.Vault.FulfillRedeem | packages/contracts/src/LemonVault.sol:636-672 | A fulfilment prices at one price, reverts for no shares or too little free, and takes exactly what it paid |
| Queue.SettleQueue | apps/agent/src/worker.ts:770-810 | The loop pays the specified payments until nothing is free or a read of the vault throws, and says which |
| FixedPoint.FractionReads | packages/core/src/units.ts:29-30 | A fraction padded to its width takes exactly that width and reads back as itself |
| FixedPoint.TrimThenPad | packages/core/src/units.ts:18-30 | Padding puts back exactly the zeros trimming took |
| FixedPoint.BaseUnitsRoundTrip | packages/core/src/units.ts:11-33 | toBaseUnits(fromBaseUnits(v, d), d) = v for every signed v and every d |
| FixedPoint.UnsignedRoundTrip | packages/core/src/units.ts:11-33 | The same for the text without its sign |
| FixedPoint.GroupedReads | packages/client/src/format.ts:42-78 | Dropping the commas undoes the grouping |
| FixedPoint.GroupsOfThree | packages/client/src/format.ts:42-45 | Commas stand at every fourth place from the right and nowhere else |
| FixedPoint.CutRoundsDown | packages/client/src/format.ts:39-40 | Showing m digits of a fraction rounds it down to a multiple of the step shown |
| FixedPoint.SignIsRefused | packages/client/src/format.ts:77-86 | The parser takes no sign |
| FixedPoint.DisplayRoundTrip | packages/client/src/format.ts:26-86 | Reading back what was displayed gives the amount rounded down to a multiple of 10^(d-m), all of it when m >= d, and a refusal for a negative amount |
| CanonicalJson.SortJsonKeys | packages/pacifica/src/signing.ts:66-76 | The recursive rebuild computes the canonical form |
| CanonicalJson.Rebuild | packages/pacifica/src/signing.ts:68-74 | Filling a fresh object in ascending key order leaves every canonical member, in the host's enumeration order |
| CanonicalJson.CanonicalIffSame | packages/pacifica/src/signing.ts:60-86 | Two values are equal up to key order at every depth if and only if they have the same canonical form |
| CanonicalJson.CanonicalPreserves | packages/pacifica/src/signing.ts:60-76 | The canonical form keeps array order and every key's value |
| CanonicalJson.CanonicalIsIdempotent | packages/pacifica/src/signing.ts:66-76 | Canonicalising twice is canonicalising once |
| CanonicalJson.OrderedIsUnique | packages/pacifica/src/signing.ts:68-72 | There is one way to put given members in order |
| CanonicalJson.IsIndexIff | packages/pacifica/src/signing.ts:60-72 | The keys the host enumerates as indices: digits without a spare leading zero, up to 2^32 - 2 |
| CanonicalJson.ObjectAscendsIff | packages/pacifica/src/signing.ts:60-72 | An object's keys come out ascending if and only if every integer-like key sorts below every other key and integer-like keys sort alike as numbers and as text |
| CanonicalJson.AscendingIff | packages/pacifica/src/signing.ts:60-72 | The promise of ascending keys at every depth is kept for exactly the values whose objects all meet that condition |
| CanonicalJson.AscendingWithoutIndices | packages/pacifica/src/signing.ts:60-72 | In particular with no integer-like key |
| CanonicalJson.IndicesComeOutNumerically | packages/pacifica/src/signing.ts:60-72 | With the keys "10" and "9" they do not |
| Indexer.EventConserves | apps/indexer/src/index.ts:197-502 | One event adds exactly what it mints and what it credits with no row to debit |
| Indexer.LogConserves | apps/indexer/src/index.ts:197-502 | Over any log, shares held, pending, claimable and claimed are shares deposited plus shares credited unbacked |
| Indexer.SharesConservedIffBacked | apps/indexer/src/index.ts:197-502 | Per vault they equal the shares deposited if and only if every sender and queueing controller of a non-zero amount already had a position |
| Indexer.FeeSharesAreUnbacked | packages/contracts/src/LemonVault.sol:1088-1106 | The log of a fee mint and the fund's first transfer: the tables know 5 shares, and none was deposited |
| Indexer.EventOnPosition | apps/indexer/src/index.ts:197-502 | What one event does to one holder's position, column by column: nothing unless it names the holder |
| Indexer.EventOnRequest | apps/indexer/src/index.ts:251-348 | And to one holder's redemption, in shares and in assets |
| Indexer.StopsIff | apps/indexer/src/index.ts:291-348 | Indexing stops at a fulfilment or a claim with no request behind it, and nowhere else |
| Indexer.RequestIsItsHistory | apps/indexer/src/index.ts:251-348 | After any log what is pending, claimable and claimed is what was queued, fulfilled and claimed, for every holder |
| Indexer.PositionIsItsHistory | apps/indexer/src/index.ts:197-502 | A holder has a position if and only if it was ever credited, and its shares are what was credited less what was debited since |
| Indexer.Handlers.OnDeposit | apps/indexer/src/index.ts:197-250 | The Deposit handler's rows are the specified ones |
| Indexer.Handlers.OnRedeemQueued | apps/indexer/src/index.ts:251-290 | The RedeemQueued handler moves shares to the request, and off the position if there is one |
| Indexer.Handlers.OnRedeemFulfilled | apps/indexer/src/index.ts:291-307 | The RedeemFulfilled handler moves pending shares to claimable, or fails and changes nothing |
| Indexer.Handlers.OnRedeemClaimed | apps/indexer/src/index.ts:308-348 | The RedeemClaimed handler moves claimable shares to claimed, or fails and changes nothing |
| Indexer.Handlers.OnTransfer | apps/indexer/src/index.ts:478-502 | The Transfer handler skips mints, burns and escrow, debits the sender if it is known and credits the receiver |
| Weights.ValidateWeights | packages/db/src/markets.ts:112-136 | A proposal is accepted if and only if it is non-empty, distinct up to case, positive and sums to 10000, and each refusal names the first fault |
| Weights.AcceptedIsWhole | apps/api/src/services/admin.ts:440-490 | Whatever rows there were, writing an accepted proposal leaves enabled weights of exactly 10000 |
| Weights.WrittenHoldsEverything | apps/api/src/services/admin.ts:440-490 | Every proposed market is written enabled at its weight, and every other row is kept, disabled |
| Weights.WrittenRowsAreDistinct | apps/api/src/services/admin.ts:440-490 | The rows it leaves have distinct tickers, as the tables keyed by ticker need |
| Weights.ValidatedMarketsAreNeverStarved | packages/db/src/markets.ts:112-136 | A vault whose rows were written from an accepted proposal never starves a deployment of room |
| Weights.SoundRowsAreDistinct | packages/db/src/markets.ts:119-123 | Rows that pass the check have distinct tickers, as the tables keyed by ticker need |
| Weights.WeightsOfMirror | packages/db/src/markets.ts:81-95 | The weights the policy reads are the enabled rows' weights |
| Valuation.Value | apps/agent/src/valuation.ts:112-152 | The valuation refuses if and only if some holding has no quote, and otherwise totals and lists every market's quote |
| Valuation.TotalHoldings | apps/agent/src/valuation.ts:126-132 | One walk gives the total and the table |
| Valuation.BalanceRoundTrip | apps/agent/src/valuation.ts:201-222 | A balance survives the common unit exactly up to 18 decimals, and is rounded down beyond |
| Valuation.UnitsRoundTrip | apps/agent/src/valuation.ts:201-222 | A size handed to a token comes back rounded down to what the token can hold |
| Valuation.UnitsAre | apps/agent/src/valuation.ts:201-222 | The common unit is the token's own moved to 18 decimals, multiplied up exactly or divided down |

## Left out

- Runs.RunOwes: for sizing above 1x it is not claimed, because the retained margin assumes the venue reserves at 1x while a deployment sets a rounded-up leverage; that landed margin carries what is opened on it is proved at any sizing (`Runs.CarriedStaysBacked`). It also assumes no taker fees, closing at the mark, and ticks that meet `Careful`. A snapshot reads the account as it is when the tick acts on it.
- Runs.RunStaysBacked: while a deposit is not credited the claim is about equity and that deposit together; about equity alone it is false, and `Runs.LateCreditKeepsBufferIff` says when it holds.
- Runs.RunRidesOutAMarkRise: one rise, from a run whose mark has not moved before it; `Runs.RunUnderCeilingNearItsLow` covers any sequence of moves with a bound in base units.
- Ledger.RunHolds: the tokens bought and sold are not valued, only the USDC paid and raised for them; the vault's own balance is the other side of what was drawn and returned.
- Convergence.GreatestRoomNeverGrows: every deployment goes through in full at constant quotes, and nothing is idle at the agent, so that all of them draw on the vault.
- Venue.DeployedIsCarried: the router quotes no more units than the spend buys at the mark, and the order fills in full at the mark; a router or fill away from the mark is executed by `Deploy` and bounded by nothing here. Closing a naked short again is all or nothing.
- Venue.UnwindClosesItsAmount: a sale is quoted at no more than the mark and the short covers the spot. The float fraction of a leg is an exact quotient here.
- Venue.Adapter.CloseLeg: what a sale raises is arbitrary, and an order's slippage is not modelled.
- Venue.Adapter.ToSolana: the perp account's view of a crossing is its outcome; the protocol behind it is `Bridge.dfy`.
- Bridge.RelayBridge.Cross: no other crossing runs at the same time, balances receive nothing from elsewhere while it runs, and the relay delivers no more than it was handed.
- Bridge.HistoryNeverShort: a crossing that times out stays SENT and counted for ever, because nothing in the code reconciles it, so the count can be too high. What is proved is how far it can be too low.
- Queue.EveryoneInTurn: one price for the pass on the vault's side and one on the entries'; no deposit between two fulfilments.
- Queue.Vault.FulfillRedeem: the contract's conversion is one scaled price; roles, staleness, the delay and the caller's pending shares are folded into one flag, `accepted`; fees and the burn are not modelled.
- FixedPoint.BaseUnitsRoundTrip: a number instead of a text, and text that is not a plain decimal, take the host's own number syntax and are refused here. Only the common space characters are trimmed.
- CanonicalJson.CanonicalIffSame: the text `JSON.stringify` prints is not modelled, strings compare by character and not by UTF-16 unit, and numbers are integers. Hence `canonicalMessage` is covered up to the printing of an equal value.
- PolicyTheorems.ChoiceSpendsWithinCeilings: the withdrawal window is whatever the snapshot says; that the contract's rolling window is respected is not claimed. Snapshots with a sizing of zero, which the contract's risk profile forbids and on which the source divides by zero, are excluded.
- PolicyActions.PermittedActions: the reasons attached to decisions, and the ADL figures no rule reads, are not modelled.
- Economics.FloorIgnoresNotional: prices, percents and payback horizons are floats in the source; here they are scaled integers and exact rationals (percents in hundred-thousandths, the payoff multiple and the payback days as whole numbers), and a negative percent is not represented for costs.
- Indexer.LogConserves: only positions and redemption requests; the flow history, the vault row, the counts of depositors and pending requests, and chain reorganisations are not modelled.
- Weights.ValidateWeights: tickers are upper-cased over ASCII letters only and not trimmed, and a weight that is not a whole number is not represented.
- Nav.ReportsInDistinctPeriods: timestamps are whole seconds; a tick's report is stamped no earlier than the tick decided on it.
- Activity rows, logging and what an operator reads.
- Network, RPC, database, router and venue calls: each is a parameter that says how it answered.
- Reading settings from the environment: settings are a value whose bounds are `Settings.Valid`.
- The rest of the agent and its neighbours: the state machine of single-user basis positions (`basis-machine.ts`), yield estimates in floating point (`vault-yield.ts`, `basis.ts`), the liquidation-risk score shown to operators (`adl.ts`), response caching (`cache.ts`), the keepalive of a vault with no position, and the NEAR client's queue of signing requests.
- User interface, API routing, ABI tables, token registries, key derivation and signatures.

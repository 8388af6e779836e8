# The pos33 chain: ledger and committee protocol

This project models the two halves of the pos33 chain and proves what they keep.

* **The staking and reward ledger** (`plugin/dapp/pos33/executor/pos33.go`). Entrusting
  stake updates a consignee record with its consignors, a consignor record with its
  consignees, a frozen total, and the consignor's frozen balance. Each block's miner
  transaction issues coins and splits them by votes and then by stake, in floating point,
  into per-pair remainders that are paid out past a threshold less a fee; the rest goes to
  a fund.
* **The committee protocol** (`plugin/consensus/pos33/node.go`, `sortition.go`). For each
  height and round nodes draw sorts, vote for a committee, freeze it once, vote for one
  candidate's pre-block, and make the block on a majority. Two worker pools, the cached
  ticket counts (`pos33.go`) and the message stream (`io.go`) are modelled beside it.

## How the model is laid out

| file | models |
|---|---|
| `Params.dfy` | protocol constants and the shipped mining parameters |
| `Doubles.dfy` | binary64 rounding to nearest, ties to even (section 4.3.1 of IEEE 754-2019), over reals |
| `Shares.dfy` | one share of a reward in double arithmetic, and its exact bound |
| `Options.dfy`, `Order.dfy`, `Sums.dfy` | optional values; sorting distinct keys; sums over sequences and maps |
| `Coins.dfy` | the coins account: main balances and per-user (balance, frozen) sub-accounts |
| `Stake.dfy` | stake records, one entrust, the ledger invariant |
| `Reward.dfy` | crediting one record: accounting, thresholds, shares within the pool |
| `Mining.dfy` | the whole miner transaction, and solvency |
| `Credits.dfy` | what one block credits to each consignor |
| `LedgerRuns.dfy` | every run of entrusts, miner transactions, bindings and outside movements |
| `Payouts.dfy` | who is paid what, over a pass, a block and every run |
| `Solvency.dfy` | exactly which blocks and runs keep the executor solvent |
| `Insolvency.dfy` | a run from an empty ledger that does not |
| `Executor.dfy` | the executor's own loops and shared records, as a class, tied to the above |
| `Messages.dfy` | the consensus messages |
| `Committee.dfy` | counting committee votes, the frozen committee, its candidates |
| `Node.dfy` | one node's state machine, as a class, tied to its steps |
| `Agreement.dfy` | a network of nodes with broadcasts in flight; agreement over every run |
| `VerifyVotes.dfy` | `verifyVotes` and its eight workers under every interleaving |
| `Sortition.dfy` | `doSort` and its eight workers; drawing, checking and seeding sorts |
| `Pipeline.dfy` | what each new block starts, and what `clear` drops |
| `CountCache.dfy` | `acMap` and `tcMap`, whose per-height Go maps are shared heap objects |
| `DrawCounts.dfy` | drawing and checking sorts with the counts of those caches |
| `Stream.dfy` | length-delimited messages |

Objects the source updates in place are classes (`Coins.CoinsAccount`,
`Executor.ConsigneeObject`, `Executor.Action`, `Node.Round`, `Pipeline.Loop`,
`CountCache.GoMap`, `CountCache.Cache`, `Stream.VarintWriter`, `Stream.VarintReader`). The
contract of each of their methods gives the new state as a function, or a relation, of
the old one; the lemmas are about those functions and relations. Go's map iteration is a
nondeterministic choice, so a method whose contract names one result gives that result
in every iteration order. Concurrent code is a state machine whose steps interleave.

## What is assumed, and where the code promises less

* Addresses and 32-byte hashes are natural numbers, in the order the source sorts them.
  Addresses are canonical: the executor normalises database keys but compares list
  entries as they are.
* Signatures, VRF proofs, SHA-256 and the address of a key are functions or answers given
  to the steps that use them. `Sortition.Env.Ideal` states the one VRF assumption: a
  single value per key and input, and the honest proof opens to it. A node's own address is
  that of its key, as `getMiner` sets it (`plugin/consensus/pos33/pos33.go:223-241`).
* The agreement theorems assume that a node's broadcast reaches another node at most once
  (`handleVoteMsg` and `handleCommittee` do not deduplicate) and that every voter runs
  this code. `Agreement.HonestNodesMakeOne` also assumes that the 25 smallest sorts agree at
  the nodes that vote for a committee, and have reached each node when it freezes. How many
  of the committee votes each had received by then, and in what order, is left open, so one
  node may have frozen the full committee and another an empty one.
  `Agreement.AtMostOneMaker` needs only that outcome.
* `setEntrust` does not keep a single pair non-negative; only the consignor's sum is
  guarded (`Stake.OverdrawnPair`). `Stake.PairCoveredIff` and
  `LedgerRuns.NonNegativeOnRunsIff` give the exact condition. With a negative pair the
  shares of a block can exceed its pools, and solvency over every run is false:
  `Insolvency.InsolventRun` is a run of four entrusts, a key binding and one accepted block
  of the shipped parameters that ends insolvent. `Solvency.SolventOnRunsIff` says exactly
  which runs stay solvent, from numbers known before each block;
  `LedgerRuns.SolventOnRuns` shows that those without negative pairs do.
* A consignee can hold an amount but no whole ticket. The share is then a conversion of a
  NaN or an infinity to int64, whose result Go leaves to the implementation. It is a
  parameter, `MineParam.nonFinite`, so the ledger invariant and the accounting hold
  whatever the machine answers.
* `setCommittee` does not stop at three candidates when the third member repeats an
  address; `Committee.AtMostThreeIff` says exactly when there are more, and
  `Committee.FourCandidates` freezes a committee with four.
* `verifySort` bounds Index from above only and never looks at Num. `Sortition.AcceptedIffDrawn`
  gives the exact condition under which an accepted sort is one its key draws. Up to
  height 10 it accepts anything.
* `verifyVotes` never returns for an empty list; `handleVoteMsg` returns before calling it.
* `tcMap` answers a miss from the state at the time of the lookup, so a miner's count for
  a height may be that of a later block: `CountCache.LateLookup` is a run of two blocks and
  one lookup that records 3 where the stake after the block was 2.
  `CountCache.CountsRightIff` says over every run exactly when all recorded counts are
  right: each lookup that found nothing was answered while the stake over the price was
  still what it was after the block asked about.
* `AddBlock` queues a block for the node's loop before it counts it. A draw that comes first
  finds no total, and with a total of 0 every ticket wins (`DrawCounts.EarlyDraw`);
  `DrawCounts.DrawTotal` covers draws after the count.
* `updateTicketCount` stops at the first transaction it cannot decode. The height is then
  left without a total, and `CountCache.TotalsCoherent` covers that case too. A Pos33Entrust
  that names no consignee cannot be applied: logging its first 16 characters panics.
* `plugin/consensus/pos33/doc.go` describes an earlier protocol with other constants (10
  drawn tickets, 10,000 coins a ticket, three draws a ticket); the model follows the code.

## Model

| member | source | states |
|---|---|---|
| `Doubles.RoundIsNearest` | plugin/dapp/pos33/executor/pos33.go:143-148 | the rounding used by every float64 operation returns a double at least as near as any other double |
| `Doubles.RoundIsDouble` | plugin/dapp/pos33/executor/pos33.go:143-148 | what it returns is a double |
| `Doubles.RoundError` | plugin/dapp/pos33/executor/pos33.go:143-148 | its relative error is at most 2^-53 |
| `Shares.ShareBound` | plugin/dapp/pos33/executor/pos33.go:143-148 | with pool * total at most 2^51, int64(r1*n) is never above floor(pool*n/total), at most one below it, and not negative |
| `Shares.OneUnitLost` | plugin/dapp/pos33/executor/pos33.go:200-206 | the lower end is reached: one shipped vote over 37 tickets credits 24999999 of 25000000 |
| `Params.ShippedIssueCoversPools` | ycc.go:113-120 | with 13 to 25 keys the shipped issue covers both pools and leaves at least 6 coins for the fund |
| `Coins.CoinsAccount.ExecIssueCoins` | plugin/dapp/pos33/executor/pos33.go:275-284 | issues exactly the amount, or refuses a non-positive one and changes nothing |
| `Coins.CoinsAccount.Transfer` | plugin/dapp/pos33/executor/pos33.go:157-161 | debits and credits exactly the amount between distinct accounts, or fails without effect when it is not positive or not covered |
| `Coins.CoinsAccount.ExecFrozen` | plugin/dapp/pos33/executor/pos33.go:399-404 | moves the amount from free to frozen, or fails without effect |
| `Coins.CoinsAccount.ExecActive` | plugin/dapp/pos33/executor/pos33.go:405-411 | moves the amount from frozen to free, or fails without effect |
| `Coins.SubUpdateKeepsDeposits` | plugin/dapp/pos33/executor/pos33.go:396-414 | freezing and unfreezing leave all deposits together unchanged |
| `Stake.EntrustRefines` | plugin/dapp/pos33/executor/pos33.go:430-473 | the record updates refine stake[(r,e)] += amount and touch no other pair |
| `Stake.IndexesStayAgreed` | plugin/dapp/pos33/executor/pos33.go:76-99 | after an entrust r is in e's list if and only if e is in r's list, with the same amount |
| `Stake.EntrustKeepsRecords` | plugin/dapp/pos33/executor/pos33.go:363-473 | no duplicate entries, each consignee's amount is the sum over its consignors, and the frozen total is the sum over consignees |
| `Stake.EntrustKeepsStakeInv` | plugin/dapp/pos33/executor/pos33.go:416-473 | every accepted entrust or un-entrust keeps all of that and each consignor's sum equal to its frozen balance, and moves no main balance and no deposit |
| `Stake.EntrustAcceptedIff` | plugin/dapp/pos33/executor/pos33.go:396-473 | on any ledger, exactly which entrusts are accepted, by sender, amount, listing and balances, and how the sub-accounts move |
| `Stake.EntrustThenBack` | plugin/dapp/pos33/executor/pos33.go:416-473 | an accepted entrust of a can be followed by -a, which restores every stake, amount, total and balance |
| `Stake.PairCoveredIff` | plugin/dapp/pos33/executor/pos33.go:456-466 | all pairs stay non-negative if and only if the un-entrust is covered by its own pair |
| `Stake.OverdrawnPair` | plugin/dapp/pos33/executor/pos33.go:456-466 | an un-entrust above the pair but within the consignor's frozen balance is accepted and takes the pair below zero |
| `Stake.OverdrawReachable` | plugin/dapp/pos33/executor/pos33.go:430-473 | such a ledger is reached from an empty one by two entrusts |
| `Reward.CreditFirstAccounted` | plugin/dapp/pos33/executor/pos33.go:144-179 | over any prefix of the consignors, credited shares equal what is owed more plus what was paid, and rewards, fees and payments balance separately |
| `Reward.CreditFirstBelow` | plugin/dapp/pos33/executor/pos33.go:152-178 | every remainder stays below the threshold and the fee remainder below ten times it |
| `Reward.CreditFirstSound` | plugin/dapp/pos33/executor/pos33.go:151-178 | with non-negative shares every payment is positive and goes to a consignor of the record or to its owner, and no remainder goes negative |
| `Reward.SharesWithinPool` | plugin/dapp/pos33/executor/pos33.go:143-149 | with no negative pair the shares of one pool, rounded in floating point, add up to at most the pool |
| `Reward.NegativePairOverpays` | plugin/dapp/pos33/executor/pos33.go:143-149 | a record of one ticket with pairs of two and of minus half a ticket is credited twice the pool |
| `Mining.VotesCovered` | plugin/dapp/pos33/executor/pos33.go:286-311 | the names counted from the voter keys cover each vote at most once |
| `Mining.BlockPassSound` | plugin/dapp/pos33/executor/pos33.go:312-332 | what the two passes pay and newly owe stays within the two pools of the block |
| `Mining.PaysSucceed` | plugin/dapp/pos33/executor/pos33.go:157-172 | payments that the executor's balance covers in total all succeed and cost exactly their sum |
| `Mining.PaysIff` | plugin/dapp/pos33/executor/pos33.go:157-172 | on any balances, the payments of a block all go through if and only if each is positive and to another account and the balance covers their sum |
| `Mining.RewardKeepsStakeInv` | plugin/dapp/pos33/executor/pos33.go:312-336 | rewarding changes no stake and keeps the stake invariant |
| `Mining.BlockBalances` | plugin/dapp/pos33/executor/pos33.go:274-349 | issue, payments and fund share leave the executor's balance covering deposits and everything owed |
| `Mining.MinedIff` | plugin/dapp/pos33/executor/pos33.go:257-352 | on a sound ledger the miner transaction succeeds if and only if it is first, its voters are bound and known, and the pools leave a fund share; it leaves a sound ledger |
| `Mining.MinedConditions` | plugin/dapp/pos33/executor/pos33.go:262-311 | it succeeds only then, on any ledger |
| `Mining.AcceptedIff` | plugin/dapp/pos33/executor/pos33.go:257-352 | on any ledger whatsoever, the exact condition: moreover a positive issue, a fund that is not the executor, every payment positive and to another account, and the payments within the balance plus the pools |
| `Mining.ShippedRewardable` | ycc.go:113-120 | with the shipped parameters the float bound holds for every 64-bit amount |
| `Credits.BlockRewards` | plugin/dapp/pos33/executor/pos33.go:183-336 | each consignor's total reward grows by exactly its share of its own consignee's vote pool and, for the maker, of the maker's pool, whoever else is rewarded |
| `Credits.CreditBounds` | plugin/dapp/pos33/executor/pos33.go:143-149 | each such share is the exact one rounded down, or one unit less |
| `LedgerRuns.LedgerInvOnRuns` | plugin/dapp/pos33/executor/pos33.go:131-473 | after every prefix of every run: stakes, both indexes, totals and frozen balances agree; rewards = remainders + payments + fees per consignee; all remainders are below their thresholds |
| `LedgerRuns.MinedKeepsLedgerInv` | plugin/dapp/pos33/executor/pos33.go:257-352 | a miner transaction keeps all of that and changes no stake |
| `LedgerRuns.SolventOnRuns` | plugin/dapp/pos33/executor/pos33.go:257-352 | over every run whose rewarded records have no negative pair and hold nothing or a whole ticket, the executor's main balance covers all deposits, free and frozen, and every unpaid reward and fee |
| `LedgerRuns.EveryBlockIsPaid` | plugin/dapp/pos33/executor/pos33.go:131-240 | so in every such run no reward, fee or fund transfer of a miner transaction fails |
| `LedgerRuns.NonNegativeOnRunsIff` | plugin/dapp/pos33/executor/pos33.go:456-466 | over a run no pair is ever negative if and only if each accepted un-entrust was covered by its pair |
| `LedgerRuns.NonNegativeIsRewardable` | plugin/dapp/pos33/executor/pos33.go:131-148 | in such a state a record with nothing or a whole ticket can be rewarded |
| `LedgerRuns.BoundByOwner` | plugin/dapp/pos33/executor/pos33.go:354-361 | over every run each voter key is bound to the account that sent its binding, or was bound at height 0 |
| `LedgerRuns.MovedBySender` | plugin/dapp/pos33/executor/pos33.go:430-436 | over every run, whenever a stake or a frozen balance moves, that transaction is an entrust of that pair sent by its consignor or its consignee, or from height 0 |
| `Payouts.PassPays` | plugin/dapp/pos33/executor/pos33.go:144-179 | each consignor of a rewarded record: below the threshold its share joins its remainder and nothing is paid; from the threshold on all of it goes out in one payment to its own address, less the percentage rounded down |
| `Payouts.FeePaidWhole` | plugin/dapp/pos33/executor/pos33.go:154-176 | each turn adds the fee it withholds to the fee remainder, which is paid out whole as soon as it reaches ten thresholds |
| `Payouts.BlockPaysInTurn` | plugin/dapp/pos33/executor/pos33.go:286-332 | in a block each record is rewarded once from the voters' pool for its own votes and then, if it is the maker's, from the maker's pool, whoever is rewarded in between |
| `Payouts.PayoutsOnRuns` | plugin/dapp/pos33/executor/pos33.go:131-240 | over every run each consignor's rewards are its remainder plus what was paid to its own address and withheld on those payments; each payment was due, with the right fee; each fee payment went to the consignee |
| `Payouts.BlockReceived` | plugin/dapp/pos33/executor/pos33.go:274-349 | an accepted block gives every account but the executor's exactly the payments made to it, the fund also its share, and all main balances together the issue |
| `Solvency.BlockConserves` | plugin/dapp/pos33/executor/pos33.go:312-332 | every unit a block credits is either paid out or newly owed, whatever the records |
| `Solvency.MinedSolventIff` | plugin/dapp/pos33/executor/pos33.go:257-352 | any accepted block moves the executor's slack by exactly its pools less its credits, and leaves it solvent if and only if the credits fit in both |
| `Solvency.SolventOnRunsIff` | plugin/dapp/pos33/executor/pos33.go:257-473 | over every run, with no restriction: solvent throughout if and only if each accepted block's credits fit in its pools and the slack before it |
| `Insolvency.InsolventRun` | plugin/dapp/pos33/executor/pos33.go:430-473 | a run from an empty ledger, with an accepted block of 13 voter keys, after which deposits and debts are not covered |
| `Executor.Action.FindConsignor` | plugin/dapp/pos33/executor/pos33.go:449-455 | the scan finds the first entry of the consignor |
| `Executor.Action.UpdateConsignor` | plugin/dapp/pos33/executor/pos33.go:81-99 | overwrites or appends exactly one entry |
| `Executor.Action.SetEntrust` | plugin/dapp/pos33/executor/pos33.go:430-473 | returns the new records exactly when sender, amount and pair permit it, and never for a sender who is neither consignor nor consignee, except at height 0 |
| `Executor.Action.Freeze` | plugin/dapp/pos33/executor/pos33.go:396-414 | freezes a positive and unfreezes a negative amount, or fails without effect |
| `Executor.Action.Pos33Entrust` | plugin/dapp/pos33/executor/pos33.go:416-428 | records and balances change together, or nothing does |
| `Executor.Action.Pos33BlsBind` | plugin/dapp/pos33/executor/pos33.go:354-361 | outside height 0 the key is bound to the sender, whatever the message names, and no key is ever bound to another account |
| `Executor.Action.PayConsignor` | plugin/dapp/pos33/executor/pos33.go:144-179 | one turn of the loop, transfers included, on the shared record: the step that `Payouts.PassPays` and `Payouts.FeePaidWhole` characterise |
| `Executor.Action.PayConsignors` | plugin/dapp/pos33/executor/pos33.go:144-180 | the whole loop credits every consignor once, or fails exactly when some transfer is not covered |
| `Executor.Action.MinerReward` | plugin/dapp/pos33/executor/pos33.go:131-181 | credits the maker's pool; nothing for an amount of 0 |
| `Executor.Action.VoteReward` | plugin/dapp/pos33/executor/pos33.go:183-240 | credits each voter's pool on its own record, in the given order |
| `Executor.Action.CountVotes` | plugin/dapp/pos33/executor/pos33.go:286-298 | counts each bound voter's keys and adds the maker with 0, or fails when a key is unbound |
| `Executor.Action.LoadMiners` | plugin/dapp/pos33/executor/pos33.go:300-311 | loads one fresh record per name, in whatever order the map is traversed |
| `Executor.Action.GatherMiners` | plugin/dapp/pos33/executor/pos33.go:286-312 | whatever that order, the sorted list is the increasing list of names |
| `Executor.Action.PayBlock` | plugin/dapp/pos33/executor/pos33.go:313-332 | the maker's shared record ends with what both passes added |
| `Executor.Action.WriteBack` | plugin/dapp/pos33/executor/pos33.go:334-336 | each rewarded record is written once and no other is touched |
| `Executor.Action.Pos33MinerNew` | plugin/dapp/pos33/executor/pos33.go:257-352 | records, balances and payments are one function of the state and the set of votes, whatever the map order; on any error nothing changes |
| `Executor.Action.WrittenBack` | plugin/dapp/pos33/executor/pos33.go:334-336 | writing back the loaded records gives exactly the records of the two passes |
| `Committee.CountedAllIs` | plugin/consensus/pos33/node.go:936-938 | after any accepted committee votes a hash's count is the total weight of the votes that select it |
| `Committee.CountsIgnoreOrder` | plugin/consensus/pos33/node.go:907-940 | the counts are the same for every delivery order of the same votes |
| `Committee.CommProperties` | plugin/consensus/pos33/node.go:79-95 | the committee is strictly increasing by hash, has at most 75 members, each collected and selected with weight at least 17 |
| `Committee.CommExactly` | plugin/consensus/pos33/node.go:79-95 | a sort is in the committee if and only if it is collected, has weight 17 and fewer than 75 collected sorts with votes have smaller hashes |
| `Committee.CandidateProperties` | plugin/consensus/pos33/node.go:96-109 | candidates are a subsequence of the committee with pairwise distinct addresses |
| `Committee.CandidatesExactly` | plugin/consensus/pos33/node.go:96-109 | a member is a candidate if and only if its address is new and it is one of the first three, or the third repeats an earlier address |
| `Committee.AllAddresses` | plugin/consensus/pos33/node.go:97-108 | when the third member repeats an address every address of the committee becomes a candidate |
| `Committee.AtMostThreeIff` | plugin/consensus/pos33/node.go:97-108 | there are at most three candidates if and only if the third member does not repeat an address in a committee of more than three addresses |
| `Committee.FourCandidates` | plugin/consensus/pos33/node.go:74-111 | four owners whose seventeen sorts are owned 1, 2, 1, 3, 4, ... vote for all of them, and the frozen committee has four candidates |
| `Committee.SmallestSorted` | plugin/consensus/pos33/node.go:146-156 | the selected sorts are the collected ones with the smallest hashes, in order |
| `Committee.AllOrNothing` | plugin/consensus/pos33/node.go:74-95 | when all counted votes select one list of at most 25 sorts, a node that has collected those, and whatever others, freezes exactly that list if their weight reaches 17 and nothing if not |
| `Node.Round.HandleVoterSort` | plugin/consensus/pos33/node.go:686-721 | files the first list of a key and ignores later ones |
| `Node.FiledIs` | plugin/consensus/pos33/node.go:716-718 | of several sorts with one hash the last one filed stays, and no other hash is touched |
| `Node.Round.HandleCommittee` | plugin/consensus/pos33/node.go:907-940 | the counts change only for a signed or own vote whose sorts all belong to the signer, verify and are selected, and then each selected hash gains their number, as often as it is selected |
| `Node.WeightIsVerified` | plugin/consensus/pos33/node.go:907-940 | after any sequence of committee votes, forged ones included, the weight of a hash is the number of verified sorts of the signers that selected it |
| `Node.Round.GetSorts` | plugin/consensus/pos33/node.go:146-156 | whatever the map order, the smallest sorts |
| `Node.Round.GetMySorts` | plugin/consensus/pos33/node.go:134-144 | this node's sorts of a list, in its order |
| `Node.Round.VoteCommittee` | plugin/consensus/pos33/node.go:942-973 | votes for the 25 smallest with my sorts among them, counting that vote at once, or does nothing when none is mine |
| `Node.CommitteeVoteIs` | plugin/consensus/pos33/node.go:942-962 | the vote selects the 25 smallest sorts, carries exactly the voter's own of them, and is cast when there are any |
| `Node.OwnVoteCounts` | plugin/consensus/pos33/node.go:907-973 | wherever those sorts verify, the vote adds their number to each of the 25 |
| `Node.Round.SetCommittee` | plugin/consensus/pos33/node.go:74-111 | freezes committee and candidates once, whatever the map order; a second call changes nothing |
| `Node.Round.MakePreBlock` | plugin/consensus/pos33/node.go:831-889 | at most one pre-block, for my first candidate, after freezing the committee |
| `Node.Round.HandleBlockMsg` | plugin/consensus/pos33/node.go:891-905 | files the pre-block under its sort hash; the first one starts the timer, and from the third on the node votes |
| `Node.Round.VoteBlock` | plugin/consensus/pos33/node.go:1124-1166 | votes once, for the first candidate whose pre-block has arrived and verifies, with exactly my committee sorts; if there is one and I have not voted, I do |
| `Node.CastIs` | plugin/consensus/pos33/node.go:1124-1166 | the same of the step the network takes |
| `Node.Round.MyCandidateSort` | plugin/consensus/pos33/node.go:784-793 | my sort for the first candidate that is mine |
| `Node.Round.MakeBlock0` | plugin/consensus/pos33/node.go:303-350 | makes the block once, only for my first candidate and on 13 votes; of more than 25 it carries 25 with the smallest sort hashes, in order, and keeps the rest |
| `Node.Round.HandleVoteMsg` | plugin/consensus/pos33/node.go:723-782 | appends votes up to the first one that differs, and on a majority for my candidate makes the block; late, unchecked or higher-numbered votes change nothing |
| `Node.HandlingAdds` | plugin/consensus/pos33/node.go:753-763 | the ballots of the votes' hash gain exactly those votes, and no other ballots change but in order |
| `Node.MajorityMakes` | plugin/consensus/pos33/node.go:771-781 | with 13 votes for its first own candidate a node that has made none makes the block, if the chain allows it |
| `Node.MineIs` | plugin/consensus/pos33/node.go:134-144 | the sorts picked are exactly the node's own, still strictly increasing |
| `Node.SamePrefixIs` | plugin/consensus/pos33/node.go:753-763 | the votes appended are the longest prefix with one hash and round |
| `Node.BlockKeys` | plugin/consensus/pos33/node.go:207-219 | a block carries 13 to 25 keys, those of its candidate's votes with the smallest sort hashes: enough for blockCheck, and leaving the fund at least 6 coins |
| `Agreement.OneMajority` | plugin/consensus/pos33/node.go:303-349 | two majorities, at one node or two, share a voter and so are for one hash |
| `Agreement.StepKeepsInv` | plugin/consensus/pos33/node.go:723-782 | every step keeps each ballot box a set of votes that their owners cast |
| `Agreement.CommitteeFrozen` | plugin/consensus/pos33/node.go:74-78 | over every sequence of steps, whatever the nodes freeze, a committee and its candidates never change once set |
| `Agreement.AtMostOneMaker` | plugin/consensus/pos33/node.go:303-349 | over every run whose nodes freeze one shared committee or none: at any nodes and times at most one node makes a block and at most one hash has 13 votes |
| `Agreement.AtMostOneBlock` | plugin/consensus/pos33/node.go:303-349 | at most one step of such a run makes a block |
| `Agreement.SentIsVerified` | plugin/consensus/pos33/node.go:1124-1166 | over every sequence of steps, each block vote broadcast was cast when its hash was the voter's first candidate with a verified pre-block, for one of the voter's committee sorts |
| `Agreement.BallotsVerified` | plugin/consensus/pos33/node.go:753-763 | so each ballot counted anywhere, and each vote behind a block, was cast by its sort's owner on a verified pre-block |
| `Agreement.HonestNodesMakeOne` | plugin/consensus/pos33/node.go:74-111 | end to end, with committee votes cast, broadcast and counted in the network in any number and order: nodes that follow this code and agree on the 25 smallest sorts make at most one block and give at most one hash a majority |
| `Agreement.SharedFromVotes` | plugin/consensus/pos33/node.go:942-962 | nodes with the same sorts and votes of weight 17 each freeze the same committee, of at most 25 |
| `VerifyVotes.NothingBlocks` | plugin/consensus/pos33/node.go:448-493 | under every interleaving votes are conserved over queue, workers, channel, hand and drained results; putting a result back never blocks; nobody is left to send on the closed channel |
| `VerifyVotes.AnswerIsRight` | plugin/consensus/pos33/node.go:458-493 | whenever there is an answer it is whether every vote verifies, early break included |
| `VerifyVotes.AlwaysAnswers` | plugin/consensus/pos33/node.go:458-493 | for a non-empty list every run ends within 6 steps a vote and one more, with that answer |
| `VerifyVotes.EmptyListHangs` | plugin/consensus/pos33/node.go:479-491 | for an empty list the caller never returns |
| `Sortition.DoSortAnswer` | plugin/consensus/pos33/sortition.go:71-99 | under every schedule doSort receives each index below count exactly once, returns the winners once each, and leaves no worker holding a result |
| `Sortition.DoSortEnds` | plugin/consensus/pos33/sortition.go:71-99 | every schedule ends |
| `Sortition.WinsNearly` | plugin/consensus/pos33/sortition.go:48-52 | comparing against 75/total in doubles moves the threshold by less than one part in 2^53 |
| `Sortition.WinsExactly` | plugin/consensus/pos33/sortition.go:48-52 | where 75/total is a double the threshold is exact, and reaching it still wins |
| `Sortition.FewTicketsAllWin` | plugin/consensus/pos33/node.go:672-678 | with at most 75 tickets in all every ticket wins |
| `Sortition.CommitteeSortDraws` | plugin/consensus/pos33/sortition.go:101-122 | committeeSort returns each winning ticket of its key exactly once and nothing else |
| `Sortition.DrawnIsAccepted` | plugin/consensus/pos33/sortition.go:154-204 | whatever is drawn verifies under the same counts |
| `Sortition.AcceptedIffDrawn` | plugin/consensus/pos33/sortition.go:154-204 | above height 10 a sort is accepted with Num 0 and Index at least 0 if and only if its proof opens and its key draws it |
| `Sortition.NegativeIndexAccepted` | plugin/consensus/pos33/sortition.go:164-166 | a sort with Index -1 that nobody draws can be accepted |
| `Sortition.NoMoreThanTickets` | plugin/consensus/pos33/sortition.go:163-190 | whatever a key's owner sends, at most as many hashes of Num 0 and Index at least 0 are accepted as the key has tickets |
| `Sortition.SeedIs` | plugin/consensus/pos33/node.go:600-652 | a draw's seed is the sort hash of the block ten below, and zero up to height 20 |
| `Sortition.HonestSortsPass` | plugin/consensus/pos33/node.go:600-670 | every sort a node draws, by sortition, reSortition or firstSortition, passes checkSort at a node with the same chain and counts |
| `Sortition.PassesElsewhereIff` | plugin/consensus/pos33/node.go:1005-1024 | at a node with other counts it passes if and only if its ticket exists there and its hash wins against the total there |
| `Pipeline.Loop.FirstSortition` | plugin/consensus/pos33/node.go:640-647 | draws for heights 0 to 10 in order |
| `Pipeline.Loop.Clear` | plugin/consensus/pos33/node.go:410-416 | drops exactly the heights more than 20 below |
| `Pipeline.Loop.HandleNewBlock` | plugin/consensus/pos33/node.go:1381-1400 | what one new block starts, in order, and which heights it leaves |
| `Pipeline.EachOnce` | plugin/consensus/pos33/node.go:1381-1400 | after blocks 0..b each of 0..b+10 has been drawn for once, each of 0..b+5 voted on once, each of 2..b+2 frozen and pre-made for once, and no other |
| `Pipeline.InOrder` | plugin/consensus/pos33/node.go:1381-1400 | per height the draw precedes the vote, the vote the freeze, and the freeze the pre-block |
| `Pipeline.HeightsKept` | plugin/consensus/pos33/node.go:113-132 | whatever heights messages and timers name, after block b the heights with a committee are exactly those from b-20 on that are at most b+5, or at most b+10 with a drawn sort, or that some message or timer has named; `clear` drops no other |
| `CountCache.Cache.QueryMinerTicketCount` | plugin/consensus/pos33/pos33.go:277-303 | writes the count into the height's own map object, creating one if there is none |
| `CountCache.Cache.QueryTicketCount` | plugin/consensus/pos33/pos33.go:254-275 | at any height, cached or not: returns what is recorded; on a miss returns the executor's answer and records it there and at the heights sharing that map, overwriting nothing |
| `CountCache.Cache.QueryAllPos33Count` | plugin/consensus/pos33/pos33.go:305-326 | records the total over the price, or nothing when the query fails |
| `CountCache.Cache.RecountMiners` | plugin/consensus/pos33/pos33.go:191-197 | on a price change counts again every miner of the previous height, in any map order, even if both heights share one map |
| `CountCache.Cache.UpdateTicketCount` | plugin/consensus/pos33/pos33.go:156-221 | total and per-miner maps after a block, at a height cached or not, and which heights share a map: fresh counts of the touched miners go into the height's own map, or a new one, or it takes over the previous height's; the rest stays |
| `CountCache.TouchedIs` | plugin/consensus/pos33/pos33.go:164-190 | the miners touched are those named by any transaction but the first, up to the first one that does not decode |
| `CountCache.Cache.AllCount` | plugin/consensus/pos33/pos33.go:117-131 | reads the total of the height asked about, one below 0 as 0, or that of the current height when there is none |
| `CountCache.TotalsCoherent` | plugin/consensus/pos33/pos33.go:156-221 | over every run from any height the cached total is the frozen total after its block over the ticket price there, for the last 21 blocks |
| `CountCache.TotalsRead` | plugin/consensus/pos33/pos33.go:117-131 | what allCount answers over every run: the frozen total after the block asked about if it is still cached, else the one after the current block, else 0 |
| `CountCache.CountsStable` | plugin/consensus/pos33/pos33.go:254-303 | over any calls in any order, once a miner's count is recorded every lookup returns it until an update drops the height or counts the miner again in its map |
| `CountCache.LookupsAgree` | plugin/consensus/pos33/pos33.go:254-275 | two lookups of a miner at a height agree, with no such update between them |
| `CountCache.CountsRightIff` | plugin/consensus/pos33/pos33.go:194-303 | over every sequence of updates and lookups, at any heights, all recorded counts are the stake after their block over the price if and only if every lookup that found nothing was answered while that quotient was still the same |
| `CountCache.LateLookup` | plugin/consensus/pos33/pos33.go:254-303 | block 5 touches another miner, block 6 raises miner 7 from 2 to 3, and then looking it up at height 5 records 3 |
| `CountCache.TimelyLookup` | plugin/consensus/pos33/pos33.go:254-275 | so when no lookup came late each returns the stake after its block over the price |
| `DrawCounts.DrawTotal` | plugin/consensus/pos33/node.go:672-678 | a draw for height H uses the frozen total after block H-10 over the price there, when the node has counted that block and not pruned it |
| `DrawCounts.EarlyDraw` | plugin/consensus/pos33/pos33.go:150-154 | a draw that comes before that block is counted sees a total of 0 and every ticket wins |
| `DrawCounts.PassesOnTickets` | plugin/consensus/pos33/sortition.go:154-204 | between two nodes that have counted the same block, in caches of their own, a drawn sort passes if and only if its ticket exists at the other |
| `DrawCounts.PassesOnChain` | plugin/consensus/pos33/node.go:1005-1024 | and passes if neither looked a count up late: nothing is assumed of the counts but the chain they are read from |
| `Stream.PutUvarint` | plugin/consensus/pos33/io.go:46-47 | fills the reused length buffer with the base-128 varint, in place |
| `Stream.VarintMeans` | plugin/consensus/pos33/io.go:46-47 | the bytes are the base-128 digits of the length, smallest first, with the high bit on all but the last and no leading zero |
| `Stream.VarintWriter.WriteMsg` | plugin/consensus/pos33/io.go:39-54 | appends length and payload, or fails having written a prefix of them |
| `Stream.ReadUvarint` | plugin/consensus/pos33/io.go:79-82 | reads a varint of at most ten bytes, refusing more than 64 bits and a cut stream |
| `Stream.VarintReader.ReadMsg` | plugin/consensus/pos33/io.go:78-95 | result and rest depend on the stream alone, not on the reused buffer |
| `Stream.VarintRoundTrip` | plugin/consensus/pos33/io.go:46-82 | every 64-bit length reads back as itself, whatever follows |
| `Stream.FrameReadIff` | plugin/consensus/pos33/io.go:83-94 | a frame is read back if and only if it is within maxSize |
| `Stream.CutFrame` | plugin/consensus/pos33/io.go:90-93 | a proper prefix of a frame is never read as a message |
| `Stream.StreamRoundTrip` | plugin/consensus/pos33/io.go:39-95 | any sequence of messages within maxSize is read back as written with nothing left over |
| `Stream.FramesInjective` | plugin/consensus/pos33/io.go:39-54 | the bytes determine the messages and their number |

## Left out

- LedgerRuns.SolventOnRuns: covers runs whose rewarded records have no negative pair and hold nothing or at least one ticket; it is false of the others (`Insolvency.InsolventRun`), and `Solvency.SolventOnRunsIff` is the exact condition for all runs.
- LedgerRuns.EveryBlockIsPaid: covers the same runs as `LedgerRuns.SolventOnRuns`.
- Agreement.AtMostOneMaker: assumes voters that follow this code, one delivery per broadcast, and committees that are one shared list of at most 25 sorts or empty; `Agreement.HonestNodesMakeOne` derives the last of these from the committee votes in the network.
- Agreement.AtMostOneBlock: under the same assumptions as `Agreement.AtMostOneMaker`.
- Agreement.HonestNodesMakeOne: assumes that the nodes agree on the 25 smallest sorts of the round, and one delivery of each broadcast of block votes; committee votes may be delivered any number of times.
- Sortition.HonestSortsPass: assumes both nodes see the same counts; for other counts `Sortition.PassesElsewhereIff` is exact, and `DrawCounts.PassesOnChain` derives them from each node's own caches.
- Pipeline.HeightsKept: heights below 0, which a message can name, are outside it.
- Integer width: amounts, counts and heights are unbounded; the 64-bit ranges appear only where a theorem needs one (`Mining.ShippedRewardable`, `Stream`).
- Doubles: the exponent range is unbounded, so overflow and subnormals do not appear; the quantities involved are far inside it.
- chain33's account package, block store, mempool and fork choice are not part of this model; the coins account has the four operations the executor calls.
- The executor's error path: chain33 discards a failed transaction's writes and panics on a failed miner transaction; here the action leaves its state unchanged.
- Protobuf encoding, nil fields of messages, receipts' logs and log output.
- Gossip, peer discovery, timers and goroutine scheduling of `runLoop`: only their effect as steps that can happen in any order.
- Re-sorting after a timeout is modelled for its seed only; rounds above 0 of the pipeline are not.
- Voters that do not follow this code, and duplicated deliveries.
- Agreement is about one height and round; that a later round can make a second block for the same height is outside it.
- Reorganisations and repeated blocks in `handleNewBlock`.
- The block store's answers inside `makeBlock0` and `verifyPreBlock`, and what `checkVotes` checks, are inputs of the steps.
- Which of several equal hashes sorting puts first among votes: the model keeps any sorted permutation.
- `io.EOF` and `io.ErrUnexpectedEOF` are one error.
- `queryMinerTicketCount` for a negative height is modelled, although its callers never pass one; the ticket-count query before the UseEntrust fork always fails, as the executor no longer has it.
- Withdrawal, fee-rate and migration actions: their handlers are commented out. Wallet, RPC, command line and load tests.

# swapsack: the money-handling algorithms, modelled and proved

swapsack is a self-custody wallet that sends, swaps and sweeps coins on several
chains. This project models the parts of it where an arithmetic or ordering
mistake would lose money, and proves what those parts promise: that a history
rebuilt from explorers adds up to the ledger behind it, that checksums catch
what they are for, that coin selection and fee bumping are exact and optimal,
that hand-written transaction formats are inverted by their parsers, that fees
reach what the networks ask of the bytes actually built, and that keys and
signatures stay within their mathematical bounds.

`dafny verify dfyconfig.toml` checks everything.

## How it is laid out

| part | modules |
|---|---|
| shared | `Common`, `Rates`, `Sorting`, `Utf8`, `LittleEndian`, `Bits` |
| checksummed addresses | `Alphabet`, `Regroup`, `Bch`, `Bech32`, `Cashaddr`, `Gf32`, `BechSample` |
| chain history | `Chain`, `History`, `Ledger`, `HistoryFields`, `Paging`, `PagingSafety`, `Scan`, `Wallet` |
| UTXO spending and fee bumping | `Coins`, `CoinsComplete`, `TxWeight`, `Rbf`, `Bump`, `Verify`, `UtxoBuilder` |
| Zcash | `ZcashTx`, `ZcashRoundTrip`, `ZcashSighash`, `ZcashFields`, `Zip317`, `ZcashGate` |
| Cosmos messages | `Protobuf`, `CosmosTx`, `CosmosBytes` |
| Cardano | `Cbor`, `CardanoMemo`, `CardanoTx`, `CardanoFees`, `CardanoBytes`, `CardanoSample`, `CardanoRead`, `CardanoSigners`, `CardanoAddress`, `CardanoSelect`, `CardanoFold`, `CardanoSweep`, `CardanoGate`, `CardanoSigned`, `CardanoKeys`, `CardanoSign` |

Code that loops or updates state in the program is a method (or a class with
methods) here, each proved equal to a recursive specification function; the
main results are lemmas about those functions, over all inputs. Explorers,
hashes, ECDSA, HMAC and the Ed25519 group are parameters: functions about which
only the stated hypotheses are known. Errors are `Result` values.

Choices a reader should know:

- Fee rates are exact fractions, and `math.ceil` and `math.floor` exact.
- The BCH registers are strings of 30 and 40 bits, most significant first.
- A string is a sequence of Unicode scalar values.
- A hash into 32 bytes cannot be injective, so binding is stated as: the
  covered fields agree, or two of the messages hashed on the way collide.
- An explorer's list is a function of the moment of the request. It may grow at
  the front between any two requests.
- The Zcash parser carries two notes the program does not keep: whether every
  slice so far lay inside the input, and whether every length prefix was
  minimal. They exist to state what acceptance implies.
- Cardano transactions are written in CBOR (RFC 8949), negative integers, which
  selection does size, and bignums included. Sizes are reckoned part by part and
  proved to be the lengths of the bytes. The ledger's size limit is a 32-bit
  number, and a hash of a transaction has 32 bytes.
- The sets of a Cardano transaction are read back as sets, as the decoder makes
  of them: the order in which they were written is not kept.

Where the program does less than its own comments say, the model follows the
program, and the lemmas name the input and the exact condition:

- `sweep_send_amount` for ADA says its fee is never under. Its stand-in inputs
  carry output indices 0, 1, 2, ..., so one coin at index 24 already makes the
  real transaction a byte longer and the sweep is refused
  (`CardanoSweep.AdvisedSweepRefused`, `CardanoSweep.LateSweepRefused`). It builds exactly when the real
  transaction is no bigger than the stand-in, and is within the size limit
  (`CardanoSweep.AdvisedSweepBuilds`).
- The ZIP-317 fee leaves out the output of a memo that is present but empty, and
  is one action short when that comes with change on at most two inputs
  (`Zip317.EmptyMemoUnderpays`, met by `Zip317.EmptyMemoIsBuilt`). Exactly when
  it is enough: `Zip317.FeeIsConventional`; known from the request alone:
  `Zip317.OrdinaryMemoPays`.
- The size a native-segwit fee is reckoned on is meant to bound the transaction.
  It overlooks counts of 253 and more, the third byte of a push of more than 75
  bytes, and the output of a memo that is present but empty
  (`TxWeight.EstimateAgainstWeight`, `TxWeight.LongMemoOverlooked`); otherwise it
  does bound it (`TxWeight.FeeCoversWeight`).
- A Cardano leftover folded into the fee can make the fee's own encoding longer
  and the fee insufficient for it (`CardanoFold.FoldFallsShort`). It never does
  exactly when no length boundary lies in a gap above the required fee
  (`CardanoFees.LargerFeesPay`). Mainnet charges 155381 lovelace a transaction
  and 44 a byte, for at most 16384 bytes: required fees lie between 2^16 and
  2^32 (`CardanoFees.MainnetIsRoomy`), and there every built transaction pays
  (`CardanoSelect.SignedPays`).
- The rate a refused bump names is meant to be one a second run plans with. It is
  when the refusal had priced the parents (`Bump.RerunAfterPricing`). When the bare
  plan was refused, what the parents are owed at the named rate may no longer fit
  (`Bump.NamedRateRefusedAgain`); it does exactly when `Bump.RerunAfterPlan` says,
  and a third run settles it (`Bump.ThirdRunSettles`).
- One hundredth more than the named rate is refused at the same surcharge
  (`Rbf.NamedRateIsBest`). With a smaller surcharge it is accepted after all
  (`Rbf.LessSurchargeTakesMore`, `Rbf.SurchargeInstance`);
  `Rbf.AcceptedExactlyWhen` says when.
- Selection raises `InsufficientFunds` for coins that cannot cover the spend, but
  also for some that can, when unconfirmed coins are in the pool: a larger coin
  with a dear parent comes before a smaller one that would do
  (`CoinsComplete.DearParentFirst`), and a confirmed coin that costs more than it
  is worth before an unconfirmed one that would do
  (`CoinsComplete.CostlyConfirmedFirst`). For which pools it never happens:
  `CoinsComplete.CompleteExactly`; it never does when every coin is worth its own
  input and what its parent lacks (`CoinsComplete.SelectComplete`), or when every
  coin is confirmed (`Coins.SelectCoinsOptimal`).

## Model

| member | source | states |
|---|---|---|
| `Bch.Polymod` | `src/swapsack/bech32.py:26-34` | the shift-and-xor loop is the left fold of one linear step over the symbols, for any code whose generators fit its register |
| `Bch.FoldLinear` | `src/swapsack/bech32.py:26-34` | the register after the xor of two inputs from the xor of two states is the xor of the two registers |
| `Bch.StepInjective` | `src/swapsack/bech32.py:28-33` | one step is injective in the register when the generators' low five bits form an invertible 5x5 matrix over GF(2) |
| `Bch.WindowDetected` | `src/swapsack/bech32.py:26-34` | two symbol strings of any length that drive one start state to one end state and differ only inside a window as long as the register are equal |
| `Bch.ChecksumReachesTarget` | `src/swapsack/bech32.py:86-88` | the appended symbols bring the register to the wanted constant, whatever came before |
| `Regroup.ConvertBits` | `src/swapsack/bech32.py:41-59` | the accumulator loop computes "concatenate the bits, cut them again", with exactly the padding and range errors |
| `Regroup.EightFiveEight` | `src/swapsack/bech32.py:41-59` | bytes regrouped to five bits with padding and back without it are the same bytes |
| `Regroup.FiveEightFive` | `src/swapsack/bech32.py:41-59` | five-bit groups accepted without padding are the padded regrouping of the bytes they give, so padding is canonical |
| `Regroup.OneByte` | `src/swapsack/bech32.py:41-59` | the bits of a byte are taken from the top: 0x12 is 2 and, padded, 8 |
| `Bech32.Codec.SplitAddress` | `src/swapsack/bech32.py:62-80` | the checks in the order of the code accept exactly what the specification accepts, with its parts |
| `Bech32.Codec.EncodeAddress` | `src/swapsack/bech32.py:83-88` | builds human-readable part, separator, symbols and checksum as specified |
| `Bech32.Codec.DecodeAddress` | `src/swapsack/bech32.py:91-96` | accepts exactly one variant and an unpadded regrouping, and returns the part and the bytes |
| `Bech32.Codec.DecodeEncode` | `src/swapsack/bech32.py:83-96` | decode(encode(h, d)) = (h, d) for every byte string and every non-empty h, including one that contains the separator; an empty h is refused |
| `Bech32.Codec.EncodeDecode` | `src/swapsack/bech32.py:62-96` | encode(decode(a)) = a for every accepted string: padding and checksum are canonical |
| `Bech32.Codec.WindowOfSix` | `src/swapsack/bech32.py:62-80` | two accepted strings with the same human-readable part and variant never differ only inside six consecutive symbols, at any length |
| `Bech32.Codec.SegwitAccepts` | `src/swapsack/bech32.py:123-149` | every address made of a version and a program of a permitted length passes segwit_ok |
| `Bech32.Codec.SegwitAcceptsOnly` | `src/swapsack/bech32.py:123-149` | whatever passes segwit_ok is such an address, with v0 under bech32 and later versions under bech32m |
| `Bech32.BechGood` | `src/swapsack/bech32.py:19-34` | the wallet's alphabet, generators and two constants meet the hypotheses of the lemmas above |
| `Bech32.OtherVariantRejected` | `src/swapsack/bech32.py:91-120` | a string that decodes under one variant is refused under the other |
| `Gf32.StepReduces` | `src/swapsack/bech32.py:26-34` | one step is a step of polynomial division over GF(32): every coefficient moves up, the symbol comes in, and the generator polynomial times the coefficient that fell out is added |
| `Gf32.BechGenerated` | `src/swapsack/bech32.py:26-34` | the five generators are one polynomial of BIP-173, x^6 + {29}x^5 + {22}x^4 + {20}x^3 + {21}x^2 + {29}x + {18}, each the one before times the field's generator |
| `BechSample.SampleDecodes` | `src/swapsack/bech32.py:62-96` | "a12uel5l", an address of BIP-173, decodes as bech32 to "a" and no data |
| `Alphabet.ReadValues` | `src/swapsack/bech32.py:72-74` | every symbol is found in the alphabet, or the string is refused |
| `Cashaddr.Checker.Check` | `src/swapsack/addresses.py:189-206` | the nested checksum loops accept exactly the strings whose fold reaches the constant, bare or with either prefix |
| `Cashaddr.Checker.DefaultPrefix` | `src/swapsack/addresses.py:189-206` | leaving the default prefix off or writing it out makes no difference |
| `Cashaddr.Checker.WindowOfEight` | `src/swapsack/addresses.py:189-206` | two accepted addresses with one prefix never differ only inside eight consecutive symbols |
| `Cashaddr.CashaddrGood` | `src/swapsack/addresses.py:194-206` | the 40-bit generators and constant meet the hypotheses of the lemmas above |
| `Gf32.CashaddrGenerated` | `src/swapsack/addresses.py:194-206` | its five generators are one polynomial of degree 8 over GF(32), each the one before times the field's generator |
| `History.MergeBatches` | `src/swapsack/chains/history.py:225-229` | the dictionary of transactions by id keeps each once, in first-seen order |
| `History.CollectSpenders` | `src/swapsack/chains/history.py:231-238` | the dictionary maps each spent outpoint to a spending transaction among those fetched |
| `History.NetAndList` | `src/swapsack/chains/history.py:240-282` | the loop nets every transaction and lists every output paying an owned address, with its spender |
| `History.WalletHistory` | `src/swapsack/chains/history.py:200-286` | the whole assembly, sorted, with the truncated addresses |
| `Ledger.SpendInferred` | `src/swapsack/chains/history.py:231-280` | on a well-formed ledger with complete address histories, an owned output is marked spent by x exactly when the ledger has x spend it |
| `Ledger.OutputsAreExact` | `src/swapsack/chains/history.py:200-286` | the listing has every owned output of the ledger once and nothing else, rightly marked, and calls no address truncated |
| `Ledger.NetEqualsUnspent` | `src/swapsack/chains/history.py:112-145` | conservation: the sum of net over all wallet transactions is the unspent total |
| `HistoryFields.NewestFirst` | `src/swapsack/chains/history.py:195-286` | in both views nothing confirmed comes before anything unconfirmed, and no block before a later one |
| `HistoryFields.ListingMeans` | `src/swapsack/chains/history.py:240-268` | the listing has one entry for each transaction fetched, with its own id, height, fee, amounts, memo and counterparties |
| `HistoryFields.MemoMeans` | `src/swapsack/chains/history.py:245-248` | the memo is the first data output's payload that was read and is not empty |
| `HistoryFields.CounterpartiesMean` | `src/swapsack/chains/history.py:249-251` | the counterparties are the foreign addresses paid, each once, in the order of their first outputs |
| `Paging.Attempt.constructor` | `src/swapsack/chains/dash.py:452-454` | an attempt starts with no reported total and not raced |
| `Paging.Attempt.NextPage` | `src/swapsack/chains/dash.py:456-468` | the closure remembers the first total, and a different one later empties the page and marks the attempt raced |
| `Paging.Attempt.CollectPages` | `src/swapsack/chains/history.py:154-192` | the dedupe loop over these pages is the recursive walk: same result, same flag, same number of requests |
| `Paging.DashAdapter.WalkWithRetries` | `src/swapsack/chains/dash.py:433-439` | the retry loop is the recursive sequence of attempts |
| `Paging.DashAdapter.FetchAddressTxs` | `src/swapsack/chains/dash.py:324-441` | from the pinned endpoint on, each is asked in turn while the ones before it are down; the first that is not answers and is pinned; no answer means every one was down, and leaves the pin alone |
| `Paging.WalkBounded` | `src/swapsack/chains/history.py:154-192` | a walk makes at least one request and at most one per transaction it may collect |
| `PagingSafety.FaithfulServesPages` | `src/swapsack/chains/dash.py:472-507` | an offset-paged and a page-numbered explorer that answer truthfully both serve slices of the list at positions |
| `PagingSafety.UntruncatedIsWhole` | `src/swapsack/chains/dash.py:408-470` | if the list only grows at the front and every answer reports its length, a result not called truncated is the explorer's whole list as it stood throughout the last walk, without gap or repeat; at most three walks of boundedly many requests are made |
| `PagingSafety.InsightStands` | `src/swapsack/chains/dash.py:472-489` | on Insight, whose count is the length, the count stands still whenever the list does |
| `PagingSafety.StandingIsWhole` | `src/swapsack/chains/dash.py:408-470` | while the explorer answers and its list and counts stand still, the answer is the whole list and not called truncated if it is shorter than the limit, and else its beginning, called truncated |
| `PagingSafety.RetryIsWhole` | `src/swapsack/chains/dash.py:433-439` | if transactions arrive during the first walk only, the answer is whole and not called truncated: the list from then on, or, if the walk did not notice, the one it had throughout the walk |
| `Scan.Source.ScanBranch` | `src/swapsack/chains/scan.py:44-58` | one branch stops at the first window boundary with a long enough gap, and finds exactly the used indices below it, in order |
| `Scan.Source.ScanAccount` | `src/swapsack/chains/scan.py:28-59` | every branch in turn; terminates when used indices are bounded |
| `Scan.Source.ReportedExactly` | `src/swapsack/chains/scan.py:52-58` | an address is reported exactly when it is used and below the stop |
| `Scan.Source.MissedBeyondGap` | `src/swapsack/chains/scan.py:47-58` | a used index that is missed lies beyond gap_limit consecutive unused ones |
| `Scan.Source.FindsAll` | `src/swapsack/chains/scan.py:47-58` | a used index with no such gap below it is found |
| `Scan.Source.BalanceIsWhole` | `src/swapsack/chains/scan.py:62-83` | with no such gap on any branch, the two totals reported are the sums of `confirmed` and of `pending` over all the branches, however far one looks |
| `Wallet.TouchedIsOwned` | `src/swapsack/chains/scan.py:28-59` | with no such gap, every address of the account that the ledger touches is among the records |
| `Wallet.HistoriesComplete` | `src/swapsack/chains/dash.py:408-470` | a history that names no address as truncated, each walked on a truthful explorer, has every transaction touching its addresses |
| `Wallet.AccountIsWhole` | `src/swapsack/cli.py:3807-3838` | both together: the outputs view is exact and holds every output ever paid to any address of the account, and the netted transactions add up to what is unspent |
| `Sorting.SortStable` | `src/swapsack/chains/coins.py:221` | the sort before selecting keeps equal coins in their order |
| `Rates.CeilAtGalois` | `src/swapsack/chains/coins.py:82-88` | a fee covers a size at a rate exactly when it reaches the rounded-up product |
| `Coins.SelectCoins` | `src/swapsack/chains/coins.py:200-237` | the greedy loop returns the first prefix of the ordered coins that funds the spend, with its fee and change, and fails when none does |
| `Coins.SelectionConserves` | `src/swapsack/chains/coins.py:224-233` | inputs = amount + change + fee; change is nothing or at least dust; a folded fee is at least the no-change fee and below the with-change fee plus dust |
| `Coins.SelectExactlyWhenCovered` | `src/swapsack/chains/coins.py:200-237` | on any pool and any fee by count, selection comes back with confirmed coins alone exactly when some non-empty choice of confirmed coins covers the amount and its own no-change fee |
| `Coins.SelectFewest` | `src/swapsack/chains/coins.py:200-237` | whenever confirmed coins can cover, no others are taken, and no covering choice of them uses fewer inputs |
| `Coins.SelectCoinsOptimal` | `src/swapsack/chains/coins.py:240-265` | both, for a fee rate over estimated sizes; with every coin confirmed, it succeeds exactly when some choice covers |
| `TxWeight.EstimateAgainstWeight` | `src/swapsack/chains/coins.py:139-155` | four times the estimated size is the weight of the signed native-segwit transaction and half a virtual byte, plus what its signatures fall short of their longest, less what it overlooks: wide counts, the longer push of more than 75 bytes, an empty memo |
| `TxWeight.FeeCoversWeight` | `src/swapsack/chains/coins.py:139-155` | with fewer than 253 inputs and outputs and no memo or one of 1 to 75 bytes, a fee at a rate on the estimate pays that rate on the transaction as signed |
| `TxWeight.LongMemoOverlooked` | `src/swapsack/chains/coins.py:139-155` | with 76 bytes of memo the estimate is too small |
| `CoinsComplete.SelectComplete` | `src/swapsack/chains/coins.py:200-265` | on any pool, unconfirmed coins and their surcharge included: with every coin worth its own input and what its parent lacks, selection succeeds exactly when some choice of coins covers the amount and its own no-change fee |
| `CoinsComplete.CompleteExactly` | `src/swapsack/chains/coins.py:200-237` | for any fee model under which change costs: selection succeeds for every amount some choice covers, exactly when some prefix of the ordered pool nets at least as much as every choice |
| `CoinsComplete.DearParentFirst` | `src/swapsack/chains/coins.py:221-237` | 1000 and 900 unconfirmed, the larger with a parent lacking 10000: selecting 500 at 1 sat/vB fails although the smaller alone covers it |
| `CoinsComplete.CostlyConfirmedFirst` | `src/swapsack/chains/coins.py:221-237` | 1000 confirmed and 100000 unconfirmed, nothing lacking: selecting 89000 at 100 sat/vB fails although the larger alone covers it |
| `Coins.DeficitIsLeast` | `src/swapsack/chains/coins.py:82-88` | the deficit lifts the parent to the rate, no smaller addition does, and it is zero exactly for a parent already there |
| `Coins.CpfpDeficits` | `src/swapsack/chains/btc.py:179-209` | every distinct unconfirmed parent is fetched once and prices all its outputs alike: at nothing if it is mined, and else at the least that brings it to the rate; other coins are left alone; an unknown parent fails |
| `Coins.PackageRate` | `src/swapsack/chains/coins.py:82-98` | the selected child and its distinct unconfirmed parents together pay the rate on their combined size, each parent charged once |
| `UtxoBuilder.AdvisedSweepPays` | `src/swapsack/chains/coins.py:157-186` | a sweep of the amount advised with its surcharge takes every coin, pays exactly the advised fee, and with its distinct unconfirmed parents pays the rate on their combined size |
| `Coins.OpReturnRoundTrip` | `src/swapsack/chains/coins.py:115-136` | every payload of at most 80 bytes, and no other, is encoded, and decodes to itself |
| `Rbf.InputsWithPaths` | `src/swapsack/chains/rbf.py:119-147` | the loop rebuilds the inputs with their paths or stops at the first that cannot be |
| `Rbf.ShapeMeans` | `src/swapsack/chains/rbf.py:119-181` | a transaction can be planned for exactly when it is unconfirmed, some input signals, every input has its outpoint and an owned address, and its change, its memo if any and its one payee can be told apart; the plan is made on exactly these, each input at the path its address is owned under |
| `Rbf.PlanReplacement` | `src/swapsack/chains/rbf.py:238-344` | the plan or the refusal, check by check |
| `Rbf.AcceptedExactlyWhen` | `src/swapsack/chains/rbf.py:304-325` | with the shape accepted, a rate and surcharge are accepted exactly when the rate and the relay floor both fit under what the change can give up |
| `Rbf.NamedRateWorks` | `src/swapsack/chains/rbf.py:184-235` | the rate a refusal names is plannable with the same or a smaller surcharge |
| `Rbf.NamedRateIsBest` | `src/swapsack/chains/rbf.py:206-235` | one hundredth more, at the same surcharge, is refused |
| `Rbf.LessSurchargeTakesMore` | `src/swapsack/chains/rbf.py:206-235` | one hundredth more is accepted once the surcharge is lower by a hundredth per virtual byte |
| `Rbf.SurchargeInstance` | `src/swapsack/chains/rbf.py:238-344` | a transaction refused at 100 sat/vB with 46.03 named, and accepted at 46.04 without the surcharge |
| `Rbf.NoRateWorks` | `src/swapsack/chains/rbf.py:206-235` | if it names none, every rate is refused at this or a larger surcharge |
| `Rbf.BumpMovesOnlyChange` | `src/swapsack/chains/rbf.py:326-344` | a bump changes the value of the change output and nothing else, conserves value, keeps every input, and leaves at least dust |
| `Rbf.BumpPaysRelay` | `src/swapsack/chains/rbf.py:88-116` | the new fee pays the rate plus the surcharge, and the increment over the old fee on the original and on the estimated replacement |
| `Bump.PlanBump` | `src/swapsack/cli.py:1876-1921` | plans once bare, prices the distinct parents at the rate, and plans again with what they are owed |
| `Bump.BumpCharges` | `src/swapsack/cli.py:1896-1921` | it charges what each distinct transaction spent from lacks: nothing for a mined one, and else the least that brings it to the rate; one nobody knows is refused |
| `Bump.MinedParentsCostNothing` | `src/swapsack/cli.py:1905-1907` | if every transaction the inputs come from is mined, the bump is the bare plan |
| `Bump.NamedIsBelow` | `src/swapsack/chains/rbf.py:184-235` | the rate a refusal names is below the one refused |
| `Bump.RerunAfterPricing` | `src/swapsack/cli.py:1876-1921` | after a refusal that had priced the parents, running again at the rate named succeeds, with what they are owed priced anew |
| `Bump.RerunAfterPlan` | `src/swapsack/cli.py:1876-1921` | after a refusal of the bare plan, running again at the rate named succeeds exactly when what the parents are owed at that rate fits too |
| `Bump.NamedRateRefusedAgain` | `src/swapsack/chains/rbf.py:198-204` | refused at 100 with 48.53 named, refused at 48.53 with 25.00 named, planned at 25.00 |
| `Bump.ThirdRunSettles` | `src/swapsack/cli.py:1876-1921` | however the first run was refused, the third, at the rates named, is not refused for too little change |
| `Verify.VerifySwap` | `src/swapsack/verify.py:75-157` | collects exactly the specified problems, in order |
| `Verify.VerifySend` | `src/swapsack/verify.py:172-218` | collects exactly the specified problems, in order |
| `Verify.MemoPaysMeans` | `src/swapsack/verify.py:27-48` | the check on the memo holds exactly when there is no destination to bind, or the memo is text and has the destination somewhere in it: character for character, or up to the case of A to Z for one starting with 0x or 0X |
| `Verify.SwapGateMeans` | `src/swapsack/verify.py:75-157` | the gate passes exactly the transactions that pay the vault once and exactly, carry the memo byte for byte, return everything else to the wallet, stay within time, memo and fee limits, and whose memo names the destination in that sense |
| `Verify.SwapReports` | `src/swapsack/verify.py:75-157` | each problem is reported exactly when it is there |
| `Verify.PayeeReports` | `src/swapsack/verify.py:97-107` | exactly when the payee's outputs are reported as too few, too many, or of the wrong amount |
| `Verify.MemoReports` | `src/swapsack/verify.py:109-137` | exactly when data outputs are reported as too few, too many, too long, or carrying another memo |
| `Verify.SendGateMeans` | `src/swapsack/verify.py:172-218` | the gate passes exactly the transactions that pay the recipient once and exactly, carry no data, return everything else to the wallet, and keep the fee within its limit |
| `Verify.MemoComparison` | `src/swapsack/verify.py:121-137` | comparing decoded text is comparing bytes |
| `UtxoBuilder.BuildOutputs` | `src/swapsack/chains/utxo.py:74-90` | carrying outputs over and reading them back changes none; it fails exactly on data over 80 bytes |
| `UtxoBuilder.BuildAndVerifyReplacement` | `src/swapsack/chains/utxo.py:244-314` | rebuilds the plan and reports the gate's problems and a fee that does not add up |
| `UtxoBuilder.BumpPassesGate` | `src/swapsack/chains/utxo.py:263-314` | with the payee's address known and a memo that fits, a planned bump has no problem exactly when 0 <= fee <= max_fee and the original's reported fee was its real one |
| `UtxoBuilder.BuildUnsignedSwap` | `src/swapsack/chains/utxo.py:140-201` | the outputs, fee and inputs of a fresh spend and a key per input; fails exactly on missing funds or a memo that does not fit |
| `UtxoBuilder.SpendConserves` | `src/swapsack/chains/utxo.py:140-201` | what is spent is the payment, the change and the fee, swept or selected |
| `UtxoBuilder.KeysOpenInputs` | `src/swapsack/chains/utxo.py:176-188` | if each coin's address is that of the key at its own path, or at the default path if it has none, every key opens its input |
| `UtxoBuilder.ReplacementKeysOpen` | `src/swapsack/chains/rbf.py:119-147` | if every owned address is that of the key at the path it is owned under, a replacement's keys open its inputs |
| `UtxoBuilder.BuiltDepositPassesGate` | `src/swapsack/chains/utxo.py:140-201` | a built deposit passes the swap gate exactly when it is in time, within the fee limit, its memo pays the destination, and change does not go back to the vault itself |
| `UtxoBuilder.BuiltSendPassesGate` | `src/swapsack/chains/gated.py:236-271` | a built plain send passes the send gate exactly when its fee is within the limit and change does not go back to the recipient itself |
| `UtxoBuilder.OwnSpendShape` | `src/swapsack/chains/rbf.py:150-181` | a spend built here and seen in the mempool has its change, payee and memo recognised exactly when it has change and does not pay the change branch |
| `UtxoBuilder.OwnSpendCanBeBumped` | `src/swapsack/chains/rbf.py:238-344` | it can be bumped at some rate and surcharge exactly when, besides, its change less dust pays the relay increment on the replacement; every bump then spends the same coins and pays the same payee, amount and memo |
| `ZcashTx.SerializeV4` | `src/swapsack/chains/zcash_tx.py:185-204` | serializes exactly the in-range transactions, to the specified bytes |
| `ZcashTx.ParseV4` | `src/swapsack/chains/zcash_tx.py:207-246` | the cursor-moving parser is the specification parser, error for error |
| `ZcashRoundTrip.ParseOfSerialize` | `src/swapsack/chains/zcash_tx.py:185-246` | parse(serialize(tx)) = tx for every in-range transaction with 32-byte txids |
| `ZcashRoundTrip.ParsesBackExactly` | `src/swapsack/chains/zcash_tx.py:185-246` | ...and only for those |
| `ZcashRoundTrip.SerializeOfParse` | `src/swapsack/chains/zcash_tx.py:207-246` | whatever is accepted was never sliced past its end, is in range, and serializes to itself exactly when every length prefix was minimal |
| `ZcashFields.OneInOneOut` | `src/swapsack/chains/zcash_tx.py:168-204` | a transaction of one input and one output, byte for byte, its numbers low byte first |
| `ZcashFields.CountMeans` | `src/swapsack/chains/zcash_tx.py:168-173` | a count is one byte below 253, and above a 253 and two bytes |
| `ZcashSighash.SighashIgnoresScriptSigs` | `src/swapsack/chains/zcash_tx.py:261-299` | filling script signatures changes no digest of any input |
| `ZcashSighash.EqualDigestsBind` | `src/swapsack/chains/zcash_tx.py:261-299` | equal digests for one input index force equal outpoints, sequences, outputs, lock time, expiry, spent script, spent value and branch id, or exhibit two colliding messages |
| `ZcashFields.DigestIsZip243` | `src/swapsack/chains/zcash_tx.py:261-299` | the digest is that of ZIP-243, field by field: under "ZcashSigHash" and the branch id, the header, the hashes of all outpoints, sequences and outputs at 8, 40 and 72 under their own personalizations, zeros, lock time, expiry, no value balance, SIGHASH_ALL, and from 220 the input with what it spends |
| `ZcashFields.ScriptSigPushes` | `src/swapsack/chains/zcash_tx.py:328-333` | the spending script pushes the signature with SIGHASH_ALL behind it, then the public key |
| `ZcashFields.P2pkhMeans` | `src/swapsack/chains/zcash_tx.py:114-122` | only scripts that pay a 20-byte key hash are signed for |
| `ZcashSighash.SignInput` | `src/swapsack/chains/zcash_tx.py:317-333` | signs a P2PKH input whose signature verifies, and nothing else |
| `ZcashSighash.SignTransparent` | `src/swapsack/chains/zcash_tx.py:302-334` | succeeds exactly when every input can be signed; the result differs in script signatures only, each holding a signature that verifies over the digest of the returned transaction |
| `Zip317.SelectZecOptimal` | `src/swapsack/chains/coins.py:300-311` | ZIP-317 selection, on any pool: confirmed coins alone exactly when they can cover, with the fewest inputs; with every coin confirmed, it succeeds exactly when some choice covers |
| `Zip317.BuildUnsignedSwap` | `src/swapsack/chains/zcash.py:314-377` | the transaction, what it spends, its keys, its fee, and the gate's view of it parsed back from its own bytes |
| `Zip317.UnsignedMeans` | `src/swapsack/chains/zcash.py:314-377` | the transaction spends the chosen coins in order for 40 blocks, and pays the recipient, the memo and the change as asked |
| `Zip317.FeeIsConventional` | `src/swapsack/chains/coins.py:283-311` | the fee reaches the conventional fee of the signed, serialized transaction exactly when there is no memo, or a non-empty one, or no change, or three inputs, or a surcharge of one action |
| `Zip317.ConventionalMeans` | `src/swapsack/chains/coins.py:268-297` | the conventional fee is 5000 for each of the fewest actions, two or more, that cover the inputs at 150 bytes and the outputs at 34 |
| `Zip317.OrdinaryMemoPays` | `src/swapsack/chains/coins.py:283-311` | without a memo, or with one that is not empty, the fee always reaches the conventional fee |
| `Zip317.EmptyMemoUnderpays` | `src/swapsack/chains/zcash.py:344-347` | one input, change and an empty memo: the fee is one action short |
| `Zip317.EmptyMemoIsBuilt` | `src/swapsack/chains/zcash.py:314-377` | such a request is built and signed, so the shortfall is met in fact |
| `Zip317.SweepFeeIsConventional` | `src/swapsack/chains/coins.py:314-322` | a sweep of the advised amount always pays the conventional fee |
| `Zip317.ViewsOfOutputs` | `src/swapsack/chains/zcash.py:362-373` | every built output reads back from its script, data as data and payments under the address of their script |
| `ZcashGate.ZecDepositPassesGate` | `src/swapsack/chains/gated.py:151-191` | a built Zcash deposit, as read back, passes the swap gate exactly when it is in time, within the fee limit, its memo pays the destination, and change does not go back to the vault, in whichever spelling addresses were given |
| `ZcashGate.ZecSendPassesGate` | `src/swapsack/chains/gated.py:236-271` | the same for a plain send |
| `Protobuf.WriteVarint` | `src/swapsack/chains/cosmos_tx.py:34-43` | the loop writes the base-128 form of every natural and refuses negatives |
| `Protobuf.ReadVarintAt` | `src/swapsack/chains/cosmos_tx.py:169-177` | the loop reads what the recursive reader reads, and the offset after it |
| `Protobuf.ReadOfVarint` | `src/swapsack/chains/cosmos_tx.py:34-43` | reading inverts writing for every natural, whatever follows |
| `CosmosBytes.TwoByteVarint` | `src/swapsack/chains/cosmos_tx.py:34-43` | 300 is two bytes, the lower seven bits first |
| `Protobuf.ReadDictionary` | `src/swapsack/chains/cosmos_tx.py:180-200` | the loop builds the dictionary of the fields in the message |
| `Protobuf.DictionaryHolds` | `src/swapsack/chains/cosmos_tx.py:180-200` | under each field number that occurs, the dictionary has its values in order |
| `Protobuf.ReadOfWireAll` | `src/swapsack/chains/cosmos_tx.py:46-60` | reading inverts the concatenation of any fields, of any numbers and sizes |
| `CosmosTx.BuildMsgDeposit` | `src/swapsack/chains/cosmos_tx.py:83-104` | the loop concatenates the coins, the memo and the signer |
| `CosmosTx.DecodeDepositBody` | `src/swapsack/chains/cosmos_tx.py:203-227` | the decoding loop is the recursive decoder |
| `CosmosTx.SendRoundTrip` | `src/swapsack/chains/cosmos_tx.py:74-248` | a built MsgSend body decodes to exactly what was put in when no field but the memo is empty, and is refused otherwise |
| `CosmosBytes.SendLayout` | `src/swapsack/chains/cosmos_tx.py:63-81` | the bytes of a MsgSend of short parts: sender, recipient and coin under 1, 2 and 3, denomination and amount under 1 and 2 |
| `CosmosTx.DepositRoundTrip` | `src/swapsack/chains/cosmos_tx.py:83-227` | a built MsgDeposit body decodes to exactly what was put in, for any coins, memos and signer, when there is a type URL and every asset has something before and after its first dot and an amount, and is refused otherwise |
| `CosmosBytes.AssetLayout` | `src/swapsack/chains/cosmos_tx.py:95-99` | the bytes of an asset: chain, symbol and ticker under 1, 2 and 3, the ticker being the symbol up to its first dash |
| `CosmosBytes.DepositLayout` | `src/swapsack/chains/cosmos_tx.py:83-104` | the bytes of a MsgDeposit of one coin: coin, memo and signer under 1, 2 and 3 |
| `CosmosBytes.BodyLayout` | `src/swapsack/chains/cosmos_tx.py:107-109` | the bytes of a body: type URL and message under 1 and 2, then the memo |
| `Utf8.DecodeOfEncode` | `src/swapsack/chains/cosmos_tx.py:55-56` | UTF-8 decoding inverts encoding |
| `Utf8.EncodingMeans` | `src/swapsack/chains/cosmos_tx.py:55-56` | ASCII is itself; beyond it two, three and four bytes, the high bits first |
| `Utf8.EncodeOfDecode` | `src/swapsack/verify.py:129-137` | bytes that decode at all are the encoding of what they decode to |
| `CardanoMemo.MemoChunks` | `src/swapsack/chains/cardano_tx.py:99-113` | the loop is the greedy split |
| `CardanoMemo.ChunksOptimal` | `src/swapsack/chains/cardano_tx.py:99-113` | the chunks in order are the memo, each at most 64 bytes of UTF-8, and no split of the memo's characters into such chunks is shorter |
| `CardanoMemo.MemoRoundTrip` | `src/swapsack/chains/cardano_tx.py:116-127` | reading the metadata written for a memo gives its bytes back |
| `Cbor.DecodeOfEncode` | `src/swapsack/chains/cardano_tx.py:137-167` | decoding inverts encoding, whatever follows, for every item within what CBOR heads can say, bignums included |
| `CardanoBytes.InputsSorted` | `src/swapsack/chains/cardano_tx.py:142` | the inputs on the wire are the transaction's, by id and then by position |
| `CardanoBytes.SizeIsLength` | `src/swapsack/chains/cardano_tx.py:133-167` | the size reckoned with is the length of the bytes written, for every transaction and every signatures |
| `CardanoSample.SampleSerialized` | `src/swapsack/chains/cardano_tx.py:133-167` | one transaction with two inputs, a memo and a witness, byte for byte |
| `CardanoBytes.ComputeRequiredFee` | `src/swapsack/chains/cardano_tx.py:183-197` | the loop over the bytes terminates for every transaction and all parameters with the least fee, and raises exactly beyond 256 witnesses |
| `CardanoBytes.RequiredFeeIsLeast` | `src/swapsack/chains/cardano_tx.py:173-197` | that is the least fee which reaches the price of the signed bytes that carry it |
| `CardanoBytes.DepositFee` | `src/swapsack/chains/cardano_tx.py:173-197` | a deposit of two ADA with a memo of 60 characters, from one coin, pays 170209 lovelace on mainnet |
| `CardanoBytes.MinLovelaceMeans` | `src/swapsack/chains/cardano_tx.py:177-180` | min-ADA is the price of 160 bytes and those of the output |
| `CardanoRead.ParseOfSerialize` | `src/swapsack/chains/cardano_tx.py:158-264` | reading a serialized transaction gives back its id, inputs, outputs, fee, memo and witnesses |
| `CardanoRead.ForeignMemoRefused` | `src/swapsack/chains/cardano_tx.py:219-244` | other auxiliary data under the same body is read only if it hashes to what the body commits to; dropped, or added where the body commits to none, never |
| `CardanoTx.LeastFeeMono` | `src/swapsack/chains/cardano_tx.py:183-197` | a bigger transaction never needs less |
| `CardanoFees.LargerFeesPay` | `src/swapsack/chains/cardano_tx.py:173-197` | every fee from the required one R up pays for the transaction carrying it exactly when no amount B at which encodings get longer has R < B < R + price of the extra bytes |
| `CardanoFees.RoomyFeesPay` | `src/swapsack/chains/cardano_tx.py:173-197` | under parameters like mainnet's (at least 2^16 a transaction, at most 2^32 for the largest) every larger fee pays |
| `CardanoFold.FoldFallsShort` | `src/swapsack/chains/cardano.py:124-162` | one coin worth the amount and 65536 lovelace: the builder accepts and folds it, and the fee falls short of the minimum for the signed transaction |
| `CardanoSelect.SelectCoinsAda` | `src/swapsack/chains/cardano.py:124-162` | the loop returns the first prefix with viable change, else the first that covers, folded, else fails |
| `CardanoSelect.SelectSound` | `src/swapsack/chains/cardano.py:124-162` | inputs = outputs + fee, the fee reaches the required fee of the exact shape returned, and change holds its min-ADA |
| `CardanoSelect.SettleIsExact` | `src/swapsack/chains/cardano.py:143-151` | when sizing on the real change settles, the fee is exactly the required fee of the outputs returned |
| `CardanoSelect.SelectExactly` | `src/swapsack/chains/cardano.py:124-162` | fails exactly when no prefix has viable change or covers; folds exactly when none has viable change, and then less was left on every prefix than a worst-case change fee and min-ADA |
| `CardanoSelect.BuildUnsignedSwap` | `src/swapsack/chains/cardano.py:347-431` | succeeds exactly when the checks pass, the sized transaction is within the limit and every key owns its coin, with the chosen coins, the transaction, its keys and the gate's view |
| `CardanoSelect.BuiltIsReadBack` | `src/swapsack/chains/cardano.py:415-424` | what the gate is given is what the bytes without witnesses read back as |
| `CardanoSelect.BuiltIsSound` | `src/swapsack/chains/cardano.py:347-431` | a chosen spend, swept or selected, conserves value, reaches its required fee and keeps every output at min-ADA |
| `CardanoSigners.SigningKeys` | `src/swapsack/chains/cardano.py:331-345` | the distinct keys in order of first use; refused exactly when some key does not own its coin's address |
| `CardanoSigners.KeysAtMostWitnesses` | `src/swapsack/chains/cardano.py:394-412` | there are never more signing keys than the distinct addresses the size was reckoned on, unless two keys hash alike |
| `CardanoSelect.SignedPays` | `src/swapsack/chains/cardano.py:347-431` | the bytes of a built transaction as its keys sign it are within the size limit, and its fee reaches their price whenever no such boundary lies above its required fee, which under parameters like mainnet's is always; unless two keys hash alike |
| `CardanoSigned.SignNeverRefuses` | `src/swapsack/chains/cardano.py:484-500` | a built transaction, signed, always reads back with its id, as many witnesses as keys, and the outputs and fee the gate passed, so the check before broadcasting never refuses; unless two keys hash alike |
| `CardanoAddress.AddressReadsBack` | `src/swapsack/chains/cardano_tx.py:77-86` | an address that is accepted reads back from its bytes in the spelling it was given |
| `CardanoAddress.BytesReadBack` | `src/swapsack/chains/cardano_tx.py:77-86` | bytes with a mainnet header, and no others, are written to an address that is accepted and gives them back |
| `CardanoGate.AdaDepositPassesGate` | `src/swapsack/chains/cardano.py:107-121` | a built ADA deposit, read back from its bytes, passes the swap gate for the vault address as given exactly when it is in time, within the fee and memo limits, its memo pays the destination, and change does not go back to the vault |
| `CardanoGate.AdaSendPassesGate` | `src/swapsack/chains/cardano.py:107-121` | the same for a plain send |
| `CardanoSweep.LeastFeeStrict` | `src/swapsack/chains/cardano_tx.py:183-197` | with a positive price per byte the least fee orders sizes exactly |
| `CardanoSweep.AdvisedSweepBuilds` | `src/swapsack/chains/cardano.py:295-329` | an advised sweep builds exactly when the real transaction with its signatures is no bigger than the stand-in it was advised on, with the fee kept back is within the size limit, and every coin is owned |
| `CardanoSweep.AdvisedSweepRefused` | `src/swapsack/chains/cardano.py:311-322` | one coin at output index 24 is a byte over: the advised amount is refused |
| `CardanoSweep.LateSweepRefused` | `src/swapsack/chains/cardano.py:295-329` | with mainnet parameters, ten ADA in one coin at output index 24: the advice is followed exactly, and the build refused |
| `CardanoKeys.RootKey` | `src/swapsack/chains/cardano_keys.py:118-126` | clamps the buffer in place and cuts it into the master key |
| `CardanoKeys.RootMeans` | `src/swapsack/chains/cardano_keys.py:118-126` | only the scalar is clamped; the right half and the chain code are the bytes as they come |
| `CardanoKeys.RootBounded` | `src/swapsack/chains/cardano_keys.py:123-125` | every root scalar is a multiple of 8 in [2^254, 2^254 + 2^253) |
| `CardanoKeys.ChildMeans` | `src/swapsack/chains/cardano_keys.py:68-87` | a hardened child is made from the private key under 0 and 1, a soft one from the public key under 2 and 3: scalar, right half and chain code |
| `CardanoKeys.ChildExists` | `src/swapsack/chains/cardano_keys.py:68-87` | no child has an index outside 32 bits, and no soft child a parent without a public key |
| `CardanoKeys.SoftFromPublic` | `src/swapsack/chains/cardano_keys.py:68-87` | a soft child's public key and chain code follow from the parent's public key and chain code |
| `CardanoKeys.ChildBounded` | `src/swapsack/chains/cardano_keys.py:68-87` | a child adds at most one step to the bound and does not overflow |
| `CardanoKeys.Derive` | `src/swapsack/chains/cardano_keys.py:142-146` | the loop along the path is the recursive derivation |
| `CardanoKeys.LastStep` | `src/swapsack/chains/cardano_keys.py:142-146` | the last index of a path is the last step |
| `CardanoKeys.PathFromRoot` | `src/swapsack/chains/cardano_keys.py:68-146` | along any path of up to 5 * 2^26 indices the scalar stays a multiple of 8, at least 2^254 and below 2^256, so the overflow error is unreachable |
| `CardanoSign.SignVerifies` | `src/swapsack/chains/cardano_keys.py:89-105` | every signature is canonical and satisfies the Ed25519 verification equation under kL times the base point, so the self-check never refuses one |
| `CardanoSign.SignatureMeans` | `src/swapsack/chains/cardano_keys.py:89-105` | the signature spelled out: R from the right half and the message, S from R, the public key and the message; there is none exactly when the scalar or the nonce is a multiple of L |

## Left out

- Float rounding: rates are exact rationals, so a rate whose float product rounds across an integer is not modelled.
- CardanoSelect.SelectCoinsAda: where more than 256 distinct addresses are among the coins tried, the program raises while sizing (`CardanoBytes.ComputeRequiredFee`) and the model goes on; such a transaction is over mainnet's size limit.
- CardanoRead.Parse: a body that is not a map, a set that is not a list and a fee that is not an integer are refused, where Python would go on with whatever they are; floats, indefinite lengths and other tags of CBOR are not modelled.
- Scan.Source.ScanAccount: the thread pool probing a window is a sequential map.
- CardanoSign.SignVerifies: libsodium's refusal of a zero scalar is an absent result; no other failure of it is modelled.
- UtxoBuilder.BuildUnsignedSwap: bitcoinlib's transaction object is reduced to its inputs, keys and neutral outputs; its serialization is not modelled.
- Zip317.BuildUnsignedSwap: base58 and bech32m decoding of addresses and the derivation of keys are parameters.
- CardanoSelect.BuildUnsignedSwap: the printed fee note is left out.
- Verify.VerifySwap: lower-casing of non-ASCII text in addresses and memos is not modelled.
- CardanoKeys.Derive: paths are lists of indices; reading them from text is not modelled.
- Esplora's paging by last-seen txid: only the position-based walk that a moving list can hurt is modelled.
- Block times and labels of transactions: carried along by the program, not by the model.
- The EVM, TRON, Cosmos and Chainflip gates, CoW orders and the ABI decoders: field-by-field comparisons.
- Keystore, command line, reports, price feeds, quotes and broadcasting.

# Games, keys and git hosting: a model with proofs

This project models the parts of the repository that carry real invariants and proves what they promise.

- **Texas Hold'em** (`Ring`, `SidePots`, `Lex`, `HandRank`, `HandGrowth`, `Shuffling`, `PlayingCards`, `HoldemRules`, `HoldemProofs`,
  `HoldemRuns`, `HoldemDeals`, `HoldemCards`, `HoldemLife`, `HoldemLegal`, `HoldemPlay`, `HoldemShowdown`, `HoldemTable`): the engine and the table state machine. `HoldemRules` gives
  each operation as a function on a hand; `HoldemTable.Table` is the object that is updated in place, and each of its methods is
  proved against the function of the same name, so the lemmas about the functions hold of the object. The heart of it is `Ring.Due`: around the
  ring of seats, the able players who have acted since the last raise form one run that ends just before the player to act.
- **Connect Four** (`ConnectBoard`, `ConnectRules`, `ConnectMatch`, `ConnectScore`, `ConnectWindows`, `ConnectSearch`, `ConnectChoice`, `ConnectBot`): the referee as a
  state machine, and the bot's alpha-beta search over one board that is changed and undone in place and may be aborted at any
  node, against plain minimax.
- **Bech32, NIP-19 and BIP-340** (`Checksums`, `BitGroups`, `Bech32`, `SecretKeys`, `Schnorr`): the checksum as linear algebra over GF(2),
  the regrouping of bits, the strings, the secret-key reader, and signing against verifying over any group with the curve's laws.
- **Git hosting** (`ChunkedBody`, `WebEdit`): the chunked transfer coding of section 4.1 of RFC 7230 in both directions, and the web editor's
  compare-and-swap on a branch that pushes and other editors move at the same time, as a state machine over its steps.
- **Blackjack** (`BlackjackHand`, `BlackjackRules`, `BlackjackProofs`, `BlackjackRounds`, `BlackjackTable`): ace counting, the deck's arithmetic, the dealer, and the
  chip ledger over any number of rounds.
- **The job poller** (`JobCursor`): a capped poll with a cursor and a set of requests already seen.

`Seats`, `Numbers` and `Bytes` hold what several of these share. `dafny verify dfyconfig.toml` checks everything.

## What the code does that its documentation does not say

- A heads-up Hold'em hand in which each blind takes the whole stack starts with nobody to act and status "betting", and no action
  ever moves it; `HoldemDeals.StartIsGood` shows that this is the only such deal, and `HoldemDeals.DealThatStalls` is one.
- `decode_seckey` promises 32 bytes, but hexadecimal text of sixty-four characters may contain blanks between bytes and then yields fewer;
  `SecretKeys.KeyLength` gives the exact condition and `SecretKeys.ShortKeyAccepted` an input.
- `schnorr_sign` raises from its self-check for every message that is not 32 bytes long, and only for those (`Schnorr.SelfCheckFailsOnlyOnLength`).
- The web editor promises to change a single file. Written at a path that is a directory, the file takes the place of everything in
  it; written below a file or a link, it takes the place of that; both are answered as a success. `WebEdit.OnlyPathIffNoClash` gives the
  exact condition, `WebEdit.DirectoryIsLost` and `WebEdit.LinkIsLost` an input each. A path with an empty or dotted name is
  passed over: the answer is "unchanged", or an empty first commit on a new branch (`WebEdit.IgnoredPathMakesEmptyCommit`).
- The reader of chunked bodies promises to consume terminator and trailers exactly. A trailer line of more than 1024 bytes ends the
  section early and the count is returned all the same, with the rest of the section left on the stream (`ChunkedBody.ReadsWithTrailers`
  for the exact condition, `ChunkedBody.LongTrailerLeavesABlank` for an input).
- The seen set of the job poller is emptied when it exceeds 5000 ids. Until then no job is worked on twice. A reset starves nobody as
  long as at most 5000 other ids can be fetched again before a job is reached (`JobCursor.StarvesExactlyAbove`); 5001 already
  can, when one poll brings them all back, and then another job is worked on again and again (`JobCursor.ResetsCanStarve`).
- In Connect Four a resignation is looked at before the game-over test, so it overwrites the status of a finished game
  (`ConnectRules.WinIsOverwritten`); only column plays are refused after the end. The early exit of the bot at 1 000 000 never fires (`ConnectBot.FoundIsChosen`).
- The comment on `start_round` says that players without chips are not dealt in; the code deals them in with a bet of 0, and the model does the same.

## Model

| member | source | states |
|---|---|---|
| Shuffling.NewDeck | botframework/holdem_engine.py:37-43 | the in-place swaps leave the deck in the order that the draws determine, whatever they are |
| Shuffling.ShuffleKeeps | botframework/holdem_engine.py:37-43 | no card is lost or duplicated by the swaps |
| Shuffling.EveryOrderComesOut | botframework/holdem_engine.py:37-43 | every order of the cards comes out for some draws |
| Shuffling.DrawsAreUnique | botframework/holdem_engine.py:37-43 | different draws give different orders, so fair draws make every order equally likely |
| HandRank.CategoryIsRight | botframework/holdem_engine.py:46-85 | the first entry of the tuple is the category that the rules of poker, stated independently, give five cards; a straight carries its top rank, the wheel being five-high |
| HandRank.TieBreakersByStrength | botframework/holdem_engine.py:66-85 | without a straight the tie-breakers are the ranks held, most often held first and then highest first |
| HandRank.Eval5ForgetsOrder | botframework/holdem_engine.py:46-85 | the value of five cards does not depend on their order |
| HandRank.EvaluateIsBestFive | botframework/holdem_engine.py:88-94 | from five cards on, the value is that of some five of them and no other five of them beat it |
| HandGrowth.EvaluateNeverDrops | botframework/holdem_engine.py:88-94 | adding cards never lowers the value, for any numbers of cards, the partial-board branch included |
| HandRank.EvaluateForgetsOrder | botframework/holdem_engine.py:88-94 | the value of any cards does not depend on their order |
| HandRank.EvaluateForgetsSuitNames | botframework/holdem_engine.py:88-94 | renaming the suits changes no value |
| Lex.LessMeans | botframework/holdem_engine.py:88-94 | one tuple is less than another exactly when at the first place where they differ it has the smaller entry or has ended |
| SidePots.DistributePot | botframework/holdem_engine.py:101-138 | the loops over levels and winners compute the slice-by-slice payout |
| SidePots.PayoutsConserve | botframework/holdem_engine.py:101-138 | the chips paid out are exactly the chips put in, and nobody is paid a negative amount |
| SidePots.NobodyWinsMoreThanMatched | botframework/holdem_engine.py:101-138 | no player wins more than the sum over all players of the smaller of the two contributions |
| SidePots.BestHandWinsAllItMatched | botframework/holdem_engine.py:101-138 | a live hand that beats every other live hand wins exactly that sum |
| SidePots.FoldedShare | botframework/holdem_engine.py:121-127 | a folded player is paid from a slice only when no live player reached the slice |
| SidePots.MatchedFolderWinsNothing | botframework/holdem_engine.py:121-127 | a folded player whose contribution some live player matched wins nothing |
| SidePots.TiedWinnersSplitEvenly | botframework/holdem_engine.py:128-137 | tied winners of a slice take equal shares, but the earliest of them in table order also takes the odd chips, fewer than the winners |
| SidePots.SliceGoesTo | botframework/holdem_engine.py:115-137 | the whole rule for a slice, for every player: if a live player reached it, the live ones among those who reached it that none of the others beats share it evenly, the earliest in table order also taking the odd chips; otherwise all of it goes to the earliest of those who put in most |
| SidePots.BeatenWinsNothing | botframework/holdem_engine.py:121-137 | a live player whose contribution a live player with a better hand has matched wins nothing |
| Ring.ActingPassesTheTurn | botframework/holdem_game.py:241-267 | when the seat that is due acts without re-opening the round, the next able seat clockwise is due: the seats that have acted stay one run of the ring ending just before it |
| Ring.RaisingPassesTheTurn | botframework/holdem_game.py:217-239 | after a raise the next able seat clockwise is due and the raiser alone has acted |
| HoldemDeals.StartIsGood | botframework/holdem_game.py:19-48 | a hand dealt to two or more players with chips starts with the turn invariant in force, except that it waits for nobody exactly when there are two players and each blind takes the whole stack; its chips are the stacks brought |
| HoldemDeals.DealThatStalls | botframework/holdem_game.py:19-48 | one chip against two at blinds of one and two is such a hand: it waits for nobody, and no action ever changes it |
| HoldemPlay.DealtIs | botframework/holdem_game.py:19-37 | seat by seat two cards come off the end of the deck; nothing is bet and nobody is out |
| HoldemPlay.HandStarts | botframework/holdem_game.py:38-48 | heads-up the button posts the small blind, otherwise the seat after it, and the next seat the big blind, each no more than the stack; those left without chips are all-in; the big blind is the amount to call and the least raise, and the first able player clockwise of it is to act |
| HoldemProofs.ActKeeps | botframework/holdem_game.py:201-268 | an action by the player to act leads to a hand in play with the turn invariant in force, or to a finished hand; the chips stay the same, and in play the progress measure has dropped |
| HoldemRuns.QuitKeeps | botframework/holdem_game.py:126-142 | a player who leaves, in turn or out of turn, takes a hand in play to one in play or a finished one and a stalled hand to a stalled or a finished one; the chips stay the same, and while betting the progress measure has dropped |
| HoldemRuns.RunKeeps | botframework/holdem_game.py:126-317 | after any sequence of actions and leaves a hand in play is finished or still in play: at least two players are live, the player to act is able and has not acted since the last raise, the able players who have acted form one run of seats ending just before that player and have all matched the bet, amounts are non-negative and all-in means an empty stack; only a hand that started out stalled is ever stalled; stacks plus contributions (stacks alone once done) never change |
| HoldemRuns.RunOnward | botframework/holdem_game.py:126-317 | along any run neither the bet nor the least raise falls within a street, and nobody drops from those who have acted before the bet is lifted |
| HoldemRuns.NotAskedTwice | botframework/holdem_game.py:201-268 | whatever actions and leaves follow, a player who has acted is asked again on the same street only after the bet has been lifted |
| HoldemRuns.ReopenedByRaise | botframework/holdem_game.py:201-268 | an action adds its player to those who have acted, unless the street ends, and drops others from them only by lifting the bet |
| HoldemPlay.MoveMeans | botframework/holdem_game.py:205-242 | what each action does to the chips: a fold takes the player out; a check or a call puts in what is missing, an all-in the stack, a raise what is missing to the amount asked for or the least allowed, never more than the stack; a bet that this lifts becomes the amount to call, the least raise grows to the size of the lift, and nobody counts as having acted |
| HoldemPlay.ActMeans | botframework/holdem_game.py:243-268 | after an action the pot goes to the last player left in, else the street closes exactly when every able player has acted, else the turn passes on |
| HoldemPlay.TurnGoesClockwise | botframework/holdem_game.py:256-267 | the turn passes to the first able player clockwise of the one who acted, and nothing else changes |
| HoldemPlay.StepLeavers | botframework/holdem_game.py:126-142 | a player who leaves is on the list of leavers and, while betting, folded; nobody else is put on that list, and nobody is ever taken off the list of the folded |
| HoldemPlay.RunLeavers | botframework/holdem_game.py:126-142 | after any run the list of leavers is the one before it and those at the table who left meanwhile |
| HoldemProofs.ClosesExactly | botframework/holdem_game.py:250-255 | the closing test of the source, with its separate tests for matching and for acting, holds exactly when every able player has acted |
| HoldemRuns.RoundClosesExactly | botframework/holdem_game.py:250-267 | with two players left in, an action ends the betting round exactly when every able player has now acted; otherwise the turn passes on |
| HoldemRuns.RunsEnd | botframework/holdem_game.py:126-317 | no run of accepted actions and leaves is longer than a rank computed from the state: chips behind plus players in, then streets left, then able players yet to act |
| HoldemRuns.PlayCanGoOn | botframework/holdem_game.py:126-317 | after any run of a hand in play either the hand is finished and takes no event at all, or the player to act may fold; so a run can only stop at a finished hand |
| HoldemRuns.StalledForEver | botframework/holdem_game.py:164-171 | a hand that waits for nobody accepts no action at all |
| HoldemProofs.AdvanceKeeps | botframework/holdem_game.py:271-296 | closing a round opens a later street with the turn invariant in force or runs the board out to a finished hand, and moves no chips but those of the pot |
| HoldemPlay.StreetOpens | botframework/holdem_game.py:271-296 | with two players able to act before the river closing a round opens the very next street: three, four or five cards are on the board, the new ones off the end of the deck, nothing is bet on it, the least raise is the big blind and the first able player clockwise of the button is to act; in every other case the hand is over |
| HoldemProofs.ShowdownPays | botframework/holdem_game.py:308-317 | what the showdown pays is exactly what was put in |
| HoldemShowdown.BestTakesAll | botframework/holdem_game.py:308-317 | a live player whose best five of hole cards and board beat those of every other live player gains the sum over all players of the smaller of the two contributions |
| HoldemShowdown.OutdoneTakesNothing | botframework/holdem_game.py:308-317 | a player whose contribution was matched by a live player with a better hand, or who folded and was matched by any live player, gains nothing |
| HoldemShowdown.ShowdownPaysByHands | botframework/holdem_game.py:308-317 | both, and nobody loses or gains more than was matched, and the winners named are those who gained, with their gains |
| HoldemProofs.AwardEnds | botframework/holdem_game.py:299-305 | when all but one have folded, that player's stack grows by the whole pot, no other stack changes, the one winner named is that player with the pot, and the hand is finished |
| HoldemLegal.PlayHasActor | botframework/holdem_game.py:201-268 | in every hand in play the player to act can act, so the offers below are real |
| HoldemLegal.AllInTakesTheOffer | botframework/holdem_game.py:183-242 | only the player to act has an offer, and an all-in, always part of it, puts the whole stack in |
| HoldemLegal.CallTakesTheOffer | botframework/holdem_game.py:183-225 | a call takes exactly the chips offered, and a check is free exactly when no call is offered |
| HoldemLegal.RaiseStaysInTheOffer | botframework/holdem_game.py:183-242 | a raise goes to the amount asked for, pulled into the offered range, and that becomes the bet; without an offer to raise it is an all-in that leaves the bet where it is |
| HoldemCards.StartHoldsPack | botframework/holdem_game.py:19-37 | the hole cards and the deck of a fresh hand are all fifty-two cards |
| HoldemCards.RunHoldsPack | botframework/holdem_game.py:126-317 | after any actions and leaves hole cards, board and deck are still all fifty-two cards, and while betting the board has the size of its street |
| HoldemCards.ShowdownCards | botframework/holdem_game.py:271-317 | whenever closing a round ends the hand, the showdown is held at the river over seven different cards for each live player, and pays by the best five of them as above |
| HoldemCards.RunEnds | botframework/holdem_game.py:126-317 | whenever a run has finished a hand, the pot was awarded to the one player left in, or a showdown was held at the river between two or more, paid by the best five of seven different cards for each |
| HoldemLife.NextHandSeats | botframework/holdem_game.py:96-117 | the next hand seats exactly those with chips who have not left, in the old order, with the button on the first of them clockwise of the old button |
| HoldemLife.NextHandConserves | botframework/holdem_game.py:96-123 | chips before the deal are the chips seated after it plus the chips carried off by leavers |
| HoldemLife.TableConserves | botframework/holdem_game.py:96-317 | over the whole life of a table, chips seated plus chips carried off never change, every hand holds all fifty-two cards, and every hand is finished or in play with the turn invariant in force, except a heads-up one in which the blinds took both stacks |
| HoldemTable.Table.constructor | botframework/holdem_game.py:19-48 | dealing leaves the state that the lemmas above start from |
| HoldemTable.Table.Act | botframework/holdem_game.py:201-268 | the in-place action gives the state that the lemmas above describe; an action out of turn, after the end or unknown changes nothing |
| HoldemTable.Table.AdvanceStreet | botframework/holdem_game.py:271-296 | the loop over streets gives the state that the lemmas above describe |
| HoldemTable.Table.Showdown | botframework/holdem_game.py:308-317 | the showdown pays the winners in place as the lemmas above describe |
| HoldemTable.Table.Leave | botframework/holdem_game.py:126-142 | leaving changes the state as the lemmas above describe |
| HoldemTable.Table.NextHand | botframework/holdem_game.py:96-123 | a new table is dealt exactly when two survivors remain, in the state that the lemmas above describe |
| ConnectBoard.DropRow | botframework/connect4Listener.py:270-274 | the row found is the lowest empty one, and none is found exactly when the column is full |
| ConnectBoard.WinnerIsFour | botframework/connect4Listener.py:277-287 | the mark found has four in line, and none is found exactly when nobody has four in line in any of the eight directions |
| ConnectBoard.OnlyTheMoverWins | botframework/connect4Listener.py:277-287 | on a board nobody has won, a drop can only make a line for its own mark |
| ConnectRules.StartSound | botframework/connect4Listener.py:519-524 | the empty board of a new game is a sound state |
| ConnectRules.RunKeeps | botframework/connect4Listener.py:270-300 | after any column plays and resignations no disc floats, the players have moved in turn, a line is only ever the last mover's, and the status says what the board says |
| ConnectRules.DropsAreDiscs | botframework/connect4Listener.py:547-563 | every accepted play adds one disc, so at most 42 are accepted |
| ConnectRules.PlayLands | botframework/connect4Listener.py:547-563 | an accepted play puts the disc of the side to move on the lowest empty cell of the column named and changes no other cell; the game is won exactly when that side then has four in line, drawn when otherwise the board is full, and goes on else |
| ConnectRules.PlayIsRefused | botframework/connect4Listener.py:540-557 | a play in a full column or after the end changes nothing |
| ConnectRules.PlayEndsExactlyWhenOver | botframework/connect4Listener.py:547-584 | some column play changes the game exactly while it is active |
| ConnectRules.WinIsOverwritten | botframework/connect4Listener.py:537-546 | seven plays that win the game and then a resignation: the status "win" becomes "resigned" |
| ConnectScore.Score | botframework/connect4Listener.py:330-338 | the nested loops add up the scores of the centre and of all windows |
| ConnectScore.WindowsInRows | botframework/connect4Listener.py:333-337 | the board holds sixty-nine windows of four |
| ConnectScore.EvaluateIsSmall | botframework/connect4Listener.py:316-338 | no positional score comes anywhere near the value of a win |
| ConnectWindows.EvaluateCountsWindows | botframework/connect4Listener.py:316-338 | the score is 6 for every disc more than the opponent in the middle column, 50 and 10 for every window of four with three or two of the own discs and otherwise empty, and 80 and 8 less for every such window of the opponent |
| ConnectSearch.MinimaxBounds | botframework/connect4Listener.py:345-371 | every value lies strictly inside the root window, and only a position won or lost at a given ply has the value of that win or loss |
| ConnectSearch.OrderIsMinimax | botframework/connect4Listener.py:349-371 | trying the columns centre first gives the value of plain minimax in natural order |
| ConnectSearch.OrderIsCentral | botframework/connect4Listener.py:352 | the open columns are tried from the middle outwards, the left one of two first |
| ConnectSearch.FailSoft | botframework/connect4Listener.py:340-371 | for every board, depth and non-empty window the pruned value is exact inside the window, an upper bound at or below it and a lower bound at or above it |
| ConnectSearch.RootWindowIsExact | botframework/connect4Listener.py:382 | with the window of the root the pruned value is the minimax value |
| ConnectBot.Search.Nm | botframework/connect4Listener.py:340-371 | unless the clock cuts in, the search leaves the working board as it found it and returns the pruned value |
| ConnectBot.Search.Maximise | botframework/connect4Listener.py:353-362 | the maximising loop, with its drops undone, computes the maximising side of the pruned search |
| ConnectBot.Search.Minimise | botframework/connect4Listener.py:363-371 | the minimising loop computes the minimising side |
| ConnectBot.Search.Pass | botframework/connect4Listener.py:377-384 | a completed pass finds the first of the best columns and leaves the working board unchanged |
| ConnectBot.FoundIsChosen | botframework/connect4Listener.py:391 | no value found at the root reaches 1 000 000, so that early exit never fires |
| ConnectBot.BotMove | botframework/connect4Listener.py:307-393 | None exactly on a full board; else a playable column, the first minimax-best one of the deepest completed depth (the first in centre order if none was completed); nothing but the clock stops the deepening; the caller's board is not modified |
| ConnectChoice.ChosenIsUnique | botframework/connect4Listener.py:377-390 | there is exactly one such column |
| ConnectChoice.ChosenMeans | botframework/connect4Listener.py:377-390 | it is the open column of greatest value, of several the one nearest to the middle, and of two such the left one |
| ConnectChoice.WinsAtOnce | botframework/connect4Listener.py:345-347 | if some column wins at once, the choice of any completed depth wins at once |
| ConnectChoice.AvoidsTheLoss | botframework/connect4Listener.py:345-347 | on a board nobody has won, if some column leaves the opponent no winning reply, so does the choice of any completed depth from two on |
| ConnectMatch.Match.constructor | botframework/connect4Listener.py:499-528 | a new match is sound, and the bot has opened it if it is the first player |
| ConnectMatch.Match.ApplyBot | botframework/connect4Listener.py:396-418 | the bot drops one disc in the column of its choice, as described above, if it is its turn in a match of two different players and changes nothing otherwise; the match stays sound |
| ConnectMatch.Match.ApplyMove | botframework/connect4Listener.py:531-584 | each message gets the answer of the first test it fails, changes the game only by a legal play of the side to move or a resignation, is followed by the bot's reply if there is one due, and keeps the match sound |
| ConnectMatch.JudgeMeans | botframework/connect4Listener.py:531-558 | each answer exactly when: strangers are ignored, a resignation is taken at any time, then come the end of the game, the turn (the first player moves on an even number of discs), the number and the full column; a number from 1 on names the columns from the left |
| Checksums.ComputePolymod | nostr_post.py:20-28 | the two nested loops compute the register of the checksum |
| Checksums.FeedLinear | nostr_post.py:20-28 | the register is linear over GF(2) in its start value and its symbols |
| Checksums.RoundKernel | nostr_post.py:24-27 | no round loses information: only the zero register is sent to zero |
| Checksums.ChecksumHolds | nostr_post.py:67-70 | appending the six symbols of the encoder makes the checksum 1 for any symbols of any length |
| Checksums.ChecksumIsUnique | nostr_post.py:67-70 | no other six symbols do |
| Checksums.BurstChangesChecksum | nostr_post.py:20-28 | two lists that differ only within six neighbouring symbols have different checksums |
| Checksums.SampleIsValid | nostr_post.py:21-28 | a valid string of BIP-173 has checksum 1 |
| BitGroups.ConvertBits | nostr_post.py:48-65 | the accumulator loops cut the concatenated bits into groups, pad or refuse the rest, and refuse numbers that are negative or too wide, for any widths |
| BitGroups.RegroupBack | nostr_post.py:48-65 | padding into smaller groups and cutting back without padding gives the numbers back |
| BitGroups.RegroupCanonical | nostr_post.py:48-65 | whatever cutting back accepts is padded exactly as the encoder pads |
| BitGroups.RegroupKeepsNumber | nostr_post.py:48-65 | read as one number, most significant first, the list is unchanged but for fewer zero bits than a group, added at the end by padding or dropped from it without |
| Bech32.DecodeEncode | nostr_post.py:33-70 | for every byte string and every lower-case prefix, decoding and regrouping the encoding gives both back |
| Bech32.UnprintableIsRefused | nostr_post.py:34-35 | a string with a character outside the printable ones is refused |
| Bech32.ExpansionSplits | nostr_post.py:30-31 | the prefix is expanded to the high bits of its characters, a zero and their low five bits |
| Bech32.SampleDecodes | nostr_post.py:17-46 | a valid string of BIP-173 is accepted with its prefix and no data |
| Bech32.DecodedIsSpelled | nostr_post.py:33-46 | an accepted string is, lower-cased, its prefix, the separator and the one spelling of its data with its checksum |
| Bech32.EncodeDecode | nostr_post.py:33-70 | an accepted string whose data regroups to bytes is, lower-cased, the encoding of those bytes |
| Bech32.GarbledIsRefused | nostr_post.py:33-46 | a string that differs from an accepted one only within six neighbouring data characters is refused |
| Bech32.OneWrongCharacter | nostr_post.py:33-46 | changing one data character of an accepted string for another of the character set makes it refused |
| SecretKeys.NsecRoundTrip | nostr_post.py:72-86 | every 32-byte key is read back from its nsec1 string |
| SecretKeys.HexKeyReads | nostr_post.py:72-78 | every 32-byte key is read back from its sixty-four hexadecimal digits |
| SecretKeys.WhiteIsListed | nostr_post.py:74 | the characters stripped at either end, one by one |
| SecretKeys.AcceptedNsec | nostr_post.py:79-86 | an nsec1 string that is accepted is, stripped and lower-cased, the encoding of its 32-byte key |
| SecretKeys.KeyLength | nostr_post.py:72-86 | an accepted key has the promised 32 bytes exactly when it did not come from sixty-four characters of hexadecimal text with blanks among them |
| SecretKeys.ShortKeyAccepted | nostr_post.py:75-78 | such text with two blanks is accepted as a key of 31 bytes |
| Schnorr.Mul | nostr_post.py:109-114 | double-and-add is k-fold addition in any abelian group |
| Schnorr.EquationHolds | nostr_post.py:130-154 | the response times the generator, minus the challenge times the public point, is the nonce point |
| Schnorr.BuiltIsAccepted | nostr_post.py:130-154 | every signature built for a 32-byte message is accepted, for both parities of the key and of the nonce |
| Schnorr.SelfCheckFailsOnlyOnLength | nostr_post.py:140-154 | with the key in range and the nonce not zero, the signer returns an accepted signature for a 32-byte message and raises from its self-check for any other length |
| Schnorr.VerifyMeans | nostr_post.py:130-138 | a signature is accepted exactly when its second half times the generator is the point with even y named by its first half plus the public point times the hash of first half, public key and message, the lengths and ranges being right |
| Schnorr.SignMeans | nostr_post.py:140-154 | the signer refuses a key out of range and a nonce of zero, the nonce being hashed from the blinded even key, the public key and the message, and otherwise returns what it built if it verifies |
| Schnorr.SignatureParts | nostr_post.py:148-153 | what it builds is the x of the nonce point and nonce plus challenge times key, nonce and key negated where their points have an odd y |
| Schnorr.AcceptedIsUnique | nostr_post.py:130-138 | for one message, key and nonce point at most one signature is accepted |
| Schnorr.SmallestIsLawful | nostr_post.py:98-123 | the laws assumed of the group and the lift can be met |
| ChunkedBody.Connection.ReadChunkedBody | git_host_main.py:1662-1701 | the nested loops return, write and leave on the stream what the decoding of the rest of the stream says |
| ChunkedBody.DecodeWritesItsCount | git_host_main.py:1662-1701 | on every input at most max_bytes are written, a returned count is the number of bytes written, and what is left is the end of the stream |
| ChunkedBody.HexReads | git_host_main.py:1836-1837 | the size is written in digits and capitals and reads back |
| ChunkedBody.ReadsWhatWasWritten | git_host_main.py:1662-1701 | reading written chunks gives back their concatenation and its length and stops exactly after the terminator, whatever follows it; over the limit the body is refused |
| ChunkedBody.ReadsWithTrailers | git_host_main.py:1662-1701 | with any chunk extensions and trailer lines the chunks still come back, and the stream stops exactly after the blank line if and only if no trailer line is longer than 1024 bytes |
| ChunkedBody.LongTrailerLeavesABlank | git_host_main.py:1682-1689 | a trailer line of 1025 bytes: the count is returned and the blank line is left on the stream |
| ChunkedBody.UnclosedChunkIsRefused | git_host_main.py:1700-1701 | a chunk whose data is not followed by CR and LF is refused, and so is the body |
| ChunkedBody.SizelessLineIsRefused | git_host_main.py:1677-1680 | so is a size line with nothing before its semicolon |
| ChunkedBody.Response.WriteBody | git_host_main.py:1836-1847 | the response on the wire is the framing of the leftover and the pieces, and the terminator |
| ChunkedBody.PiecesFit | git_host_main.py:1840-1846 | the size of every piece the writer sends fits on a size line |
| WebEdit.RunKeeps | git_host_main.py:1563-1637 | in every interleaving of editors and pushes, each commit the route installed carries its request out on the value it replaced, its only parent (none for a new branch); only the edited path differs exactly when the tip holds no file above or below it; a file written is executable exactly if it was before; and, if the client named a base and the branch existed, that base is its parent |
| WebEdit.NoUpdateLost | git_host_main.py:1630-1637 | as long as pushes are fast-forward, no installed edit drops out of the branch's history |
| WebEdit.PlanCarriesOut | git_host_main.py:1584-1619 | the tree written is one that git can hold and not the tip's own: the tip without the path, or with the file at the path, executable exactly if it was before, a link refused, and without whatever clashes with the path; a path that git does not take changes nothing |
| WebEdit.PlanAnswers | git_host_main.py:1584-1619 | before anything is committed: "not found" exactly for a deletion where nothing is, the refusal of a link exactly when one is at the path as looked up, "unchanged" exactly when nothing would change, and otherwise a tree is written |
| WebEdit.PlainDrops | git_host_main.py:1587 | looking a path up drops its empty names and dots and nothing else |
| WebEdit.TipAnswers | git_host_main.py:1563-1571 | reading the tip answers "stale" exactly when the named base is not the tip, and "not found" for a deletion on a branch without commits |
| WebEdit.InstalledIffUnmoved | git_host_main.py:1630-1637 | a built commit becomes the branch exactly when the branch still has the value read before, and is answered "stale" otherwise |
| WebEdit.UndisturbedEditIsInstalled | git_host_main.py:1563-1637 | an edit that nothing interferes with, that changes something and whose base is current ends on the branch |
| WebEdit.OnlyPathIffNoClash | git_host_main.py:1597-1609 | an edit changes its own path alone if and only if the tip holds no file above or below that path |
| WebEdit.DirectoryIsLost | git_host_main.py:1597-1609 | a file written at "docs" over a tree that holds "docs/x": the directory is gone |
| WebEdit.LinkIsLost | git_host_main.py:1597-1609 | an edit of a link is refused, but a file written below the link replaces it |
| WebEdit.IgnoredPathMakesEmptyCommit | git_host_main.py:1606-1619 | a path with an empty name is passed over, so on a new branch the route commits an empty tree |
| BlackjackHand.ComputeHandValue | botframework/blackjack_game.py:35-42 | the demoting loop computes the hand value |
| BlackjackHand.HandValueIsBest | botframework/blackjack_game.py:35-42 | over all ways of counting each ace as 1 or 11 the value is the largest total not above 21, or the smallest total if all are above |
| BlackjackHand.CardValueByName | botframework/blackjack_game.py:14-32 | by name, an ace counts 11, a ten or a court card 10 and a number itself |
| BlackjackHand.DeckTotal | botframework/blackjack_game.py:21-32 | the whole deck counts 340 with its aces as 1, in any order |
| BlackjackRules.ClampedIsLegal | botframework/blackjack_game.py:49-55 | a bet is at least the minimum or the whole stack, never more than the stack, as asked for when that is legal, and the default when nothing is asked |
| BlackjackProofs.StartIsSound | botframework/blackjack_game.py:71-98 | a round dealt from a shuffled deck is sound, and posting the bets changes nobody's worth |
| BlackjackRounds.DealIsFair | botframework/blackjack_game.py:71-98 | seat by seat two cards come off the end of the deck, then two for the dealer; each bet is the one asked for or 25, at least 5 and no more than the stack, and is taken from the stack; exactly the naturals are done |
| BlackjackRounds.StepMarks | botframework/blackjack_game.py:100-139 | a hit takes the top card and ends the turn exactly with a bust, standing ends it, leaving ends it and gives up hand and seat, and nothing else changes; a player not in play can only leave |
| BlackjackProofs.HitAlwaysDraws | botframework/blackjack_game.py:110-121 | at a table of up to ten, whoever may hit draws the top card, and is done exactly when it busts |
| BlackjackProofs.DealerReachesSeventeen | botframework/blackjack_game.py:149-154 | at a table of up to ten, a dealer who plays ends at 17 or more, having stood at the first such total |
| BlackjackRounds.DealerPlays | botframework/blackjack_game.py:149-154 | the dealer draws off the end of the deck up to the first total of 17 or more exactly when some hand is neither given up nor over 21 |
| BlackjackProofs.VerdictFollowsStrength | botframework/blackjack_game.py:172-186 | a hand still in play is paid by its strength against the dealer's alone, three to two for a natural |
| BlackjackProofs.SettlePays | botframework/blackjack_game.py:157-192 | settling pays each seat between minus its bet and one and a half times it and adds exactly that to what the player is worth |
| BlackjackRounds.SettlesByStrength | botframework/blackjack_game.py:157-192 | settling pays every seat: a hand given up or over 21 loses its bet, every other is paid by its strength against the final hand of the dealer, a natural three to two, and the outcome reported says which |
| BlackjackRounds.LeavingForfeits | botframework/blackjack_game.py:130-141 | who leaves in the middle of a hand loses the bet and is not dealt again |
| BlackjackProofs.SettleTwice | botframework/blackjack_game.py:161-162 | settling again changes nothing |
| BlackjackProofs.NextKeeps | botframework/blackjack_game.py:207-226 | dealing the next round changes nobody's worth and seats those with chips who have not left |
| BlackjackRounds.NextRoundIs | botframework/blackjack_game.py:207-226 | the next round seats those with chips who have not left in the old order, bets as asked for or else as last time, and the button goes one further |
| BlackjackProofs.RunBooked | botframework/blackjack_game.py:71-226 | over any rounds, what a player still seated is worth has changed by exactly the payouts reported, and no stack is negative |
| BlackjackProofs.TableBooked | botframework/blackjack_game.py:58-226 | the same from a new table on: the chips brought plus every payout reported |
| BlackjackTable.Table.constructor | botframework/blackjack_game.py:71-98 | dealing leaves the state that the lemmas above start from |
| BlackjackTable.Table.Hit | botframework/blackjack_game.py:110-121 | a hit changes the state as the lemmas above describe and reports a bust |
| BlackjackTable.Table.DealerPlay | botframework/blackjack_game.py:149-154 | the drawing loop leaves the dealer's hand that the lemmas above describe |
| BlackjackTable.Table.Settle | botframework/blackjack_game.py:157-192 | the loop over seats pays out as the lemmas above describe |
| BlackjackTable.Table.NextRound | botframework/blackjack_game.py:207-226 | a new table is dealt exactly when somebody stays, in the state that the lemmas above describe |
| JobCursor.Poller.ProcessJobRequests | botframework/dvmListener.py:107-150 | the loop over a batch handles the jobs, marks the ids and moves the cursor that the lemmas below describe |
| JobCursor.PollLosesNothing | botframework/dvmListener.py:107-150 | after a poll every fetched event is worked on, skipped by rule, was seen before, or is newer than the stored cursor and unmarked |
| JobCursor.CursorIsTight | botframework/dvmListener.py:105-146 | the next poll resumes five seconds before now, or one second before the earliest event not reached if that is sooner |
| JobCursor.PollIsCapped | botframework/dvmListener.py:121-123 | a poll works on at most as many jobs as the cap, all different |
| JobCursor.EveryJobIsWorkedOn | botframework/dvmListener.py:96-150 | with a cap of at least 1, whatever has been seen and however often the seen set is reset, a pending job that the polls bring back is worked on within as many polls as jobs up to its second wait now, plus as many as wait when nothing is marked, if those seconds hold at most 5000 other ids |
| JobCursor.StarvesExactlyAbove | botframework/dvmListener.py:148-150 | that bound is exact: n other ids never starve a job if and only if n is at most 5000 |
| JobCursor.RelayJobIsWorkedOn | botframework/dvmListener.py:96-150 | on a relay that returns everything at or after the cursor only the ids from the last silent second up to the job count; newer events may come and go |
| JobCursor.NoJobTwice | botframework/dvmListener.py:107-150 | between two resets of the seen set no job is worked on twice and none that was seen before, whatever the polls bring back |
| JobCursor.ResetsCanStarve | botframework/dvmListener.py:148-150 | five thousand empty requests and two jobs from one second, all brought back by one poll with a cap of 1 (a relay that ignores the limit of 50): the seen set is reset at every poll, the first job is worked on every time and the second never |

## Left out

- Relays, websockets, HTTP, subprocesses, direct messages, posts, rendering, persistence and locks: only the state passed to and from the rule functions is modelled.
- `bot_decide` of the Hold'em listener, hand names and the event lists returned by `act`: no invariant hangs on them.
- Players are numbers instead of public keys, and the lists `folded`, `allin`, `acted`, `left` and `busted` are sets: the source only asks for membership.
- HoldemTable.Table.Act: the state dictionary is one record-valued field, so aliasing of its inner lists with lists of the caller is not captured; the same holds of `BlackjackTable.Table`.
- HoldemDeals.StartIsGood: the stacks dealt must be positive and the blinds satisfy 0 < sb <= bb, as every caller arranges; the deck must be long enough for the seats, where the source would raise.
- HoldemLife.TableConserves: tables of at most 23 players, the most that fifty-two cards can deal a whole hand to.
- ConnectSearch.FailSoft: windows with alpha >= beta are not covered; the search never opens one.
- ConnectBot.BotMove: the clock is an arbitrary choice at each of its tests.
- ConnectMatch.Match.ApplyMove: the words and the column number are found in a message by the caller; texts, names and posts are not modelled.
- Bech32.DecodeEncode: prefixes of printable characters without capitals; the 90-character limit and the ban on mixed case of BIP-173 are not enforced by the code either.
- Bech32.Encode: prefixes of printable ASCII only, the only ones used.
- Schnorr.Mul: the group is abstract; that the source's point addition forms such a group, and SHA-256, are not modelled. Hashes and the blinding of the key are arbitrary functions.
- ChunkedBody.ChunkSize: what Python's `int(text, 16)` makes of anything but plain digits is an arbitrary function.
- ChunkedBody.Connection.Read: a read returns as many bytes as asked for unless the stream ends, as a buffered reader does.
- ChunkedBody.ReadsWhatWasWritten: chunks must be non-empty and their sizes must fit on a size line, as `ChunkedBody.PiecesFit` shows of those the writer sends.
- WebEdit.RunKeeps: pushed trees are ones that git can write, with paths it takes into an index. Paths that git reads as patterns or quotes (a leading colon or double quote) and a path of dots alone are not modelled; every other git failure is the `Crash` event. Authorisation, size limits and path checks come before the modelled steps.
- WebEdit.Stageable: which names git takes besides the empty and the dotted ones is an arbitrary rule.
- WebEdit.NoUpdateLost: a push that is not fast-forward may discard edits, as in git.
- BlackjackProofs.HitAlwaysDraws: tables of more than ten.
- The blackjack shuffle is an arbitrary order of the deck.
- JobCursor.EveryJobIsWorkedOn: every poll whose cursor admits the job must bring it back. The query asks for at most 50 events, so a relay that holds more than 50 at or after the cursor may return only the newest and lose the rest; that loss is not modelled.
- JobCursor.Poller.ProcessJobRequests: the batch is given in the order of its times; failures while a job is worked on are not modelled, since the code treats such a job as done.
- Chess, hangman, roles, authentication, caches and the id files: shallow, or resting on libraries that are not part of this model.

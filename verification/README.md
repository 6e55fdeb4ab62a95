# Raider Mate, modelled and proved in Dafny

The Raider Mate service keeps a World of Warcraft guild's raid nights: who signs up, who is
seated where, when people are reminded, what Raider.IO knows about their characters, and what
a WarcraftLogs report says happened. This project models the parts of it where the logic is
hard and proves properties of them.

Run `dafny verify dfyconfig.toml` in this directory.

| files | what they model |
|---|---|
| `comp.dfy`, `placing.dfy`, `assigner.dfy` | `internal/comp`: sizing a raid and assigning a pool to it, as functions and as the imperative code |
| `seating.dfy`, `ranking.dfy`, `keys.dfy`, `board.dfy`, `openseats.dfy`, `order.dfy` | what the assigner guarantees: the fixpoint of its repair, who gets the seats by the five keys, the board it writes and what it leaves open, independence of input order |
| `quality.dfy`, `capped.dfy`, `sides.dfy`, `paths.dfy`, `tight.dfy` | how good the seating is, without caps and with them, and when it is the best there is |
| `advise.dfy` | a board read back |
| `tables.dfy`, `eventstore.dfy`, `effects.dfy`, `runs.dfy` | signups, late requests and comp boards as tables, the operations on them, what each stores and whom it tells, and what every run keeps |
| `manual.dfy`, `roles.dfy` | over runs: who leaves a hand-built board, and who has the role of their seat assigned |
| `races.dfy`, `handbuilt.dfy`, `decisions.dfy` | locks, saves and rejections that read first and write later, with anything in between |
| `jobs.dfy`, `worker.dfy`, `jobruns.dfy`, `reminders.dfy` | scheduled reminders: scheduling, cancel-and-reschedule, bounded retry, what each says and to whom |
| `outbox.dfy`, `earliest.dfy`, `notices.dfy` | notification rows, lease-based claiming, failure reports |
| `sync.dfy` | when a fetched character profile is worth writing, and what must be redrawn for it |
| `slug.dfy`, `raidlog.dfy` | realm slugs, matching a log's actors to the roster, the turnout |
| `ingest.dfy` | refreshing reports over several API clients |
| `sequences.dfy` | filtering and sorting, and why neither depends on the order of its input |

Imperative parts of the source are methods over classes and locals, each proved equal to a
specification function on values; the theorems are lemmas about those functions. One method of
a `Store` is one transaction at one reading of the clock. A database error is a refused
outcome that leaves every row as it was.

## What the model assumes

- Ids are compared only through an order, so they are integers; ids made by `db.NewID` are
  fresh, or a counter.
- A pool names each character once and a menu names each role once, as the keys of `signups`
  and `character_roles` ensure; scores, item levels and budgets are exact numbers, never NaN.
- Lock, Save and Reject read first and write in a later transaction or statement
  (internal/comp/lock.go:49-64, internal/comp/manual.go:74-98, internal/signup/late.go:241-253).
  `Runs` takes each as one step; `Races` splits it in two and interleaves everything else.
  What the first half reads (for Lock the mode, the event, the pool and the menus) is taken as
  read at once.
- A reminder whose reads fail counts an attempt only where the failure leaves the transaction
  usable: a missing row, a value that does not convert. A statement the database refuses
  aborts the transaction, `MarkJobFailed` fails too, and the tick is rolled back; that is the
  `breaksOn` case of `Jobs.TickStep`.
- `sort.Slice` is modelled by a stable sort. Wherever the source uses it the order is strict
  and total, so there is only one sorted answer (`Sequences.OrderedUnique`). Rows the SQL
  leaves unordered among equal times are taken in id order.
- Runs of `Runs` keep an event's row fixed; characters may be re-synced between any two steps.
- Sentences for people (advisories, reasons, payload text) are the facts they are printed from.

## Findings

- A template is stored unchecked, and the size test adds tanks and healers in 64 bits. A healer
  override within one raid size of the largest int wraps it: the healers are not trimmed and
  the DPS need goes negative, against "size is the one thing an override cannot argue with".
  `Comp.NeedsFillTheRaid` states exactly when.
- The seating is not always the largest possible: the repair tries one swap, never a chain of
  two. With no side capped it is within two thirds of the best, exactly so for three raiders
  under the suggested five-man needs (`TwoThirdsIsTight.TwoOfThreeSeated`), and the best
  exactly when no chain is left (`SeatingQuality.BestExactlyWithoutChains`), which a pool
  without linked raiders guarantees beforehand (`SeatingQuality.BestWithoutLinks`).
- Under a melee or ranged cap two thirds is false: one of two raiders can be left out
  (`HalfIsTight.OneOfTwoSeated`). Half always holds (`CappedQuality.SeatingIsWithinHalf`), and
  two thirds whenever nobody plays both melee and ranged
  (`SidesQuality.TwoThirdsWithoutHybrids`). Capped or not the seating is the largest exactly
  when no path of moves augments it (`AugmentingPaths.SeatingIsLargestExactly`), which a pool
  without hybrids and tangles guarantees beforehand (`AugmentingPaths.LargestWithoutTangles`).
- A lock is not atomic. A raider who leaves the pool while it runs ends up "assigned and absent
  at once", which `internal/db/queries/comp.sql:88-94` means to rule out
  (`Races.AssignedAndAbsent`), and a board saved by hand meanwhile under a new name is
  overwritten (`HandBuilt.HandBuiltBoardIsOverwritten`), by an empty one too
  (`HandBuilt.EmptyLockErases`). The first goes well exactly when everybody listed is still
  present at the write (`Races.ConsistentExactlyWhenInTime`), the second exactly when what
  lands says the same as what is there (`HandBuilt.KeptExactlyWhenTheSameLands`), which a lock
  never does while anybody is on the board (`HandBuilt.LocksKeepOnlyNothing`).
- Moving between CONFIRMED and LATE keeps a raider's seat and loses their assigned role until
  the board is written again (`AssignedRoles.SeatedExactlyUntilMoved`).
- A rejection tests the request's state in one statement and overwrites it in another. An
  approval in between ends as a written signup whose request says REJECTED
  (`Decisions.ApprovedAndRejected`); a decision stands exactly when no such rejection lands on
  an approval (`Decisions.DecisionStandsExactly`).
- `late_until` beside a status other than LATE can be stored, by approving a request filed so
  (`Runs.LateUntilOutlivesLate`), although `internal/signup/signup.go:105-107` has it stick
  only with LATE. `Runs.LateUntilIsKeptUnlessApprovedAsFiled` is the exact condition.
- A remembered budget that is spent stops every fetch, and only a fetch refreshes it: until the
  process restarts that client is never asked again, though its budget reset long ago
  (`Ingest.ResetIsNeverNoticed`, `Ingest.SpentBudgetsAreNeverRefreshed`). The guard decides it
  exactly (`Ingest.AskedExactlyUnlessSpent`). That path also has no floor under its wait,
  unlike a rate-limit answer (`Ingest.StoppedReportsWait`).
- The doubling backoff never doubles: its one caller passes the constant 1
  (internal/raidlog/ingest.go:197), so every failed read waits 600 seconds
  (`Ingest.AsksAgainWhileItCanChange`) and the six-hour cap is never reached.
- The credentials resolved for a guild decide which budget is charged and blocked, but the
  fetch itself takes only the report's reference (internal/raidlog/ingest.go:155, 189).
- Reporting the same notification as failed twice files two reports: the ack does not look at
  whether the row was acked before (`Outbox.OneReminderTwoReports`,
  `Outbox.TwiceFailedIsTwiceReported`), under the same conditions as the first time
  (`Outbox.FailingAgainFilesAgain`).

## Model

| member | source | states |
|---|---|---|
| Comp.Resolve | internal/comp/comp.go:98-166 | sizes a raid: answers the needs and advisories of the closed form, 64-bit arithmetic included |
| Comp.ResolveCount | internal/comp/comp.go:184-209 | an override is reported when it departs from the suggestion and clamped at zero |
| Comp.ResolveCap | internal/comp/comp.go:171-179 | an unset cap stays unset, a negative one becomes zero and is reported |
| Comp.TrimToSize | internal/comp/comp.go:117-144 | tanks first, then healers, are trimmed to the raid size and DPS takes the rest, with the exact advisories |
| Comp.RaidsHaveTheirSize | internal/comp/comp.go:214-223 | the three needs add up to 20 in a Mythic raid, to 5 in Mythic+, and else to the turnout, no fewer than ten and no more than thirty |
| Comp.CountsAreHonoured | internal/comp/comp.go:98-209 | unset counts are one tank in Mythic+ and two elsewhere, and the least number of healers with one to every five; a count that is set is honoured as written while there is room, none below zero; so are the caps |
| Comp.SaysEveryDeparture | internal/comp/comp.go:98-209 | an advisory is given if and only if the count, clamp, trim or cap it speaks of is there, with its numbers |
| Comp.NeedsFillTheRaid | internal/comp/comp.go:98-166 | for every template, mode and turnout the needs add up to the raid size, tanks and caps are never negative, and DPS is non-negative and healers within the raid exactly when the 64-bit size test does not wrap |
| Comp.OverflowNeedsAHugeOverride | internal/comp/comp.go:127-137 | only a healer override within one raid size of the largest int can wrap that test |
| Comp.OversizedHealersAreNotTrimmed | internal/comp/comp.go:127-137 | the concrete template for which the trim is skipped and the DPS need is negative |
| Placing.PriorityIsListed | internal/comp/assign.go:294-301 | a raider can play exactly the roles on their menu, at a priority listed there |
| Placing.PlacementIsBestOpenRole | internal/comp/assign.go:246-292 | a raider is refused a group exactly when no role of it is on their menu with room on its side; placed, they get the role they like best of those, melee first on a tie |
| Placing.EligibleAreBenched | internal/comp/assign.go:127-138 | the ranked candidates for a group are exactly the unseated raiders who play it |
| Placing.MovableAreSeated | internal/comp/assign.go:159-170 | the ranked movers into a group are exactly the raiders seated elsewhere who play it |
| SeatMaps.SeatMap.Recount | internal/comp/assign.go:337-347 | counts the melee and ranged seats of a map, in whatever order the map is walked |
| Assigner.PartitionByRoleMenu | internal/comp/assign.go:114-123 | splits the pool into raiders with and without a role menu, in order |
| Assigner.RankSignups | internal/comp/assign.go:375-389 | ranks a pool by signup time, ids breaking ties |
| Assigner.FillGroupSeats | internal/comp/assign.go:127-153 | updates the map in place to the greedy fill of one group and answers how many it took |
| Assigner.BackfillSeat | internal/comp/assign.go:202-224 | seats the first candidate who fits, or reports that none does |
| Assigner.TrySwapInto | internal/comp/assign.go:159-198 | commits the first swap that can be backfilled, worked out on a scratch copy; a failed search changes nothing |
| Assigner.FillAll | internal/comp/assign.go:65-68 | fills the groups in the given order; `got` equals the true count of every group |
| Assigner.RepairOnce | internal/comp/assign.go:78-88 | one pass swaps into the first short group a swap helps, keeping `got` equal to the true counts |
| Assigner.RepairAll | internal/comp/assign.go:76-93 | the bounded repair loop, with `got` still equal to the true counts when it ends |
| Assigner.ReportShortfalls | internal/comp/assign.go:95-102 | one advisory for each group still short, with its two numbers |
| Assigner.BuildAssignments | internal/comp/assign.go:391-442 | seats then bench, each sorted and numbered |
| Assigner.PickBenchRole | internal/comp/assign.go:473-481 | a benched raider is shown in the first of their best roles |
| Assigner.Assign | internal/comp/assign.go:38-109 | the imperative assigner answers exactly the result the lemmas below speak of; on its rows, seats go by the five keys (`FiveKeys.SeatsGoToThoseAhead`) and none is left open beside a raider who could take it (`OpenSeats.NobodyWaitsBesideAnOpenSeat`) |
| SeatingRules.FillSeats | internal/comp/assign.go:141-152 | a fill keeps the seating sound, adds exactly the raiders it counts, never passes the need and touches no other group |
| SeatingRules.FillLeavesNoRoom | internal/comp/assign.go:141-152 | whoever a fill that ends short passed over has no room when it ends either |
| SeatingRules.SwapIntoFinds | internal/comp/assign.go:159-224 | the ranked search commits to a swap if and only if the pool admits one |
| SeatingRules.SwapSeatsOneMore | internal/comp/assign.go:172-195 | every swap seats exactly one raider more |
| SeatingRules.SwapEffect | internal/comp/assign.go:172-195 | a swap benches nobody, adds one to the short group, leaves every other count and keeps both side caps |
| SeatingRules.SwapKeepsSettled | internal/comp/assign.go:172-195 | a swap never makes room for a benched raider in a short group, caps included |
| SeatingRules.RepairKeeps | internal/comp/assign.go:78-93 | the whole repair benches nobody and stays sound and settled |
| SeatingRules.RepairRests | internal/comp/assign.go:71-93 | as many passes as there are benched raiders bring the repair to a fixpoint |
| SeatingRules.SeatingIsAtRest | internal/comp/assign.go:53-93 | for every pool: no role is off a menu, no cap or need is exceeded, no benched raider fits a short group, and no short group admits any swap with backfill, so the bound on the loop never cuts it short |
| SeatingQuality.SeatingIsWithinTwoThirds | internal/comp/assign.go:62-93 | with no side capped, three times the seats filled is at least twice any legal seating of the same pool |
| SeatingQuality.BestExactlyWithoutChains | internal/comp/assign.go:71-93 | with no side capped, the seating is as large as any legal one if and only if no chain of two moves from the bench reaches a short group |
| SeatingQuality.BestWithoutLinks | internal/comp/assign.go:71-93 | readable off the pool beforehand: with no side capped and no three raiders b, y, z linked through three groups, no legal seating is larger |
| TwoThirdsIsTight.TwoOfThreeSeated | internal/comp/assign.go:62-93 | three raiders under the suggested five-man needs of whom two are seated where three could be, so the bound cannot be improved |
| CappedQuality.SeatingIsWithinHalf | internal/comp/assign.go:62-93 | whatever the melee and ranged caps, no plan within needs and caps seats more than twice as many as the assigner |
| HalfIsTight.OneOfTwoSeated | internal/comp/assign.go:62-93 | a template with both caps at one for which one of two raiders is seated: half is exact under caps and two thirds is false |
| SidesQuality.TwoThirdsWithoutHybrids | internal/comp/assign.go:62-93 | whatever the caps, if no raider of the pool plays both melee and ranged, three times the seats filled is at least twice any plan within needs and caps |
| AugmentingPaths.LargestExactlyWithoutPaths | internal/comp/assign.go:62-93 | any plan within needs and caps is the largest there is if and only if no path of moves from the bench, of any length over the four roles, ends in a free seat |
| AugmentingPaths.SeatingIsLargestExactly | internal/comp/assign.go:62-93 | the same of the seating the assigner settles on, caps included |
| AugmentingPaths.LargestWithoutTangles | internal/comp/assign.go:62-93 | readable off the pool beforehand, whatever the caps: with nobody on both sides and no three raiders who could pass seats along two groups and on, no plan within needs and caps seats more |
| AugmentingPaths.LargestWithOneRoleEach | internal/comp/assign.go:62-93 | readable off the pool beforehand: with one role on each menu no plan within needs and caps seats more |
| Ranking.HoldersOutrankTheBench | internal/comp/assign.go:127-224 | for every pool and caps, repair included: whoever holds a seat outranks, by the five keys, everybody benched with that seat's role on their menu |
| Board.RanksFollowSignup | internal/comp/assign.go:375-389 | an earlier signup has the lower rank, and only then |
| Board.FavouriteIsBest | internal/comp/assign.go:473-481 | the bench role is the first of those on the raider's menu that none is liked better than |
| Board.BoardIsWellFormed | internal/comp/assign.go:391-442 | every raider with a menu has exactly one row and a roleless one none; each role is on that raider's menu with its own priority and signup rank in the reason; indices run from zero in each partition |
| Board.BoardIsInOrder | internal/comp/assign.go:391-442 | of any two rows the first is listed rightly before the second: seats before bench, seats by group and then strictly by the ranking with their own priorities, bench strictly by signup; `FiveKeys.RowsGoByTheFiveKeys` says it key by key |
| Ranking.BoardSeatsTheBetter | internal/comp/assign.go:38-109 | the same read off the rows Assign returns: the raider of a seat row outranks the raider of any bench row who plays its role |
| FiveKeys.RankingIsFiveKeys | internal/comp/assign.go:349-389 | what outranking means above: the better priority, then mains before alts, then the higher score, then the earlier signup, then the id |
| FiveKeys.SeatsGoToThoseAhead | internal/comp/assign.go:349-373 | on the rows Assign returns: a benched raider who plays the role of a seat likes its group less than the holder does, or ties and is an alt behind a main, or ties and has the lower score, or ties and signed up later, or has the greater id |
| FiveKeys.RowsGoByTheFiveKeys | internal/comp/assign.go:391-442 | of any two rows: seats before bench, tanks before healers before DPS, within a group the five keys on the priorities of the rows' own roles, on the bench the signup time |
| FiveKeys.CandidatesGoByTheFiveKeys | internal/comp/assign.go:353-373 | seats, backfills and swaps are offered in the order of the five keys |
| FiveKeys.ScarcestGroupPicksFirst | internal/comp/assign.go:55-68 | before any repair whoever sits in the group that needs fewest, ties going to tanks and then healers, is ahead by the five keys of everybody outside it who plays their role |
| OpenSeats.NoSeatTooMany | internal/comp/assign.go:62-93 | counted on the rows: no more tanks, healers or DPS than needed, and neither side of the DPS over its cap |
| OpenSeats.NobodyWaitsBesideAnOpenSeat | internal/comp/assign.go:62-93 | counted on the rows: if a benched raider plays a role, its group is full or its side of the DPS is at its cap |
| OpenSeats.LockReports | internal/comp/assign.go:38-109 | an advisory is answered if and only if it is a group's shortfall with the seats its rows fill and the need, names a raider without a menu, or is the template's |
| OpenSeats.ReadBackReports | internal/comp/advise.go:22-56 | for any board, locked or by hand: a gap is reported if and only if the rows seat fewer in the group than the raid they are sized to needs, with both numbers; an empty board says nothing |
| OrderIndependence.AssignIgnoresOrder | internal/comp/assign.go:349-389 | any two listings of a pool with distinct ids get the same assignment list |
| Advice.CountSeats | internal/comp/advise.go:37-42 | counts the seats of a board by group, bench left out |
| Advice.Advise | internal/comp/advise.go:22-56 | a board read back answers the template's advisories and one gap per group short of its need |
| Advice.AdviseRepeatsTheLock | internal/comp/advise.go:22-56 | on a fresh lock of a playable pool, a gap is reported for exactly the groups the lock reported short, with the same two numbers |
| Advice.AssignSeatsTwoThirds | internal/comp/assign.go:38-109 | the two-thirds bound read off the rows Assign returns |
| Advice.AssignSeatsHalf | internal/comp/assign.go:38-109 | the half bound read off the rows Assign returns, for any template |
| Advice.AssignSeatsTwoThirdsWithoutHybrids | internal/comp/assign.go:38-109 | the two-thirds bound read off the rows for any template, when no raider plays both sides |
| EventStore.Store.CheckDeadline | internal/signup/signup.go:248-262 | the deadline gate: raid leads pass, LATE and ABSENT run until the start |
| EventStore.Store.UpsertSignupRow | internal/db/signup.sql.go:581-593 | an upsert keeps the creation time and drops the assigned role exactly when the status changes |
| EventStore.Store.DropCompSlotsForCharacter | internal/db/comp.sql.go:57-67 | unless the signup is CONFIRMED or LATE, every slot of the character on the event goes, and the comps that lost one are named |
| EventStore.Store.UpsertSignup | internal/signup/store.go:382-401 | the upsert and the eviction that follows it |
| EventStore.Store.Write | internal/signup/signup.go:144-193 | the whole new state and answer of a signup write, refusals in the source's order |
| Effects.WriteStores | internal/db/signup.sql.go:581-593 | an accepted write stores the status and note it was given, the time only beside LATE, the first answer's creation time, the assigned role if and only if the status is the same, and no slot for a status out of the pool; nothing else changes |
| Effects.WriteRefusals | internal/signup/signup.go:144-171 | which refusal a write meets, as conditions on the event, the caller and the clock; refused, it changes nothing |
| EventStore.Store.Withdraw | internal/signup/signup.go:205-230 | the whole new state and answer of a withdrawal |
| Effects.WithdrawalRemoves | internal/signup/signup.go:205-230 | when a withdrawal goes through, and that it takes the signup and all its slots of the event and nothing else |
| EventStore.Store.UpsertLateRequest | internal/db/signup.sql.go:534-544 | filing again reopens the one request of that character |
| EventStore.Store.File | internal/signup/late.go:106-164 | the whole new state and answer of filing a late request |
| Effects.FilingAsks | internal/signup/late.go:106-164 | when filing goes through; the one request of the pair then holds the new answer, undecided, with the time it was first filed |
| EventStore.Store.Approve | internal/signup/late.go:192-238 | the whole new state and answer of an approval |
| Effects.ApprovalStores | internal/signup/late.go:192-238 | when an approval goes through; the signup then holds the answer as it was filed, time included, and of the request only state and decision time change |
| Effects.RejectionDecides | internal/signup/late.go:241-253 | when a rejection goes through, and that it touches nothing but the request's state and decision time |
| Effects.SignupOperationsTell | internal/signup/signup.go:275-350 | what a write, withdrawal or approval queues: an edit of the posted message if there is one, and in a channel one notice to the guild's raid leads if a comp lost a slot, naming character, answer and exactly the comps that lost one |
| Effects.OtherOperationsTell | internal/comp/store.go:204-225 | what the others queue: the question to the raid leads for a request filed, one redraw for a board written, renamed or handed over, and nothing else |
| EventStore.Store.InsertBoard | internal/comp/store.go:293-306 | the insert loop goes through exactly when the rows meet the table's constraints, and then stores them all |
| EventStore.Store.AssignRoles | internal/comp/store.go:308-323 | clears the event's assigned roles and sets those of the seats given, on no other event |
| EventStore.Store.ReplaceComp | internal/comp/store.go:269-337 | a whole-board write, rolled back entirely when a constraint refuses a row |
| EventStore.Store.AssignmentPool | internal/comp/store.go:33-94 | reads exactly the CONFIRMED and LATE signups joined with their characters |
| EventStore.Store.Lock | internal/comp/lock.go:48-74 | refuses a MANUAL comp, else replaces the board with the assigner's answer for the current pool, and answers that result, advisories included; both halves run with nothing in between |
| EventStore.Store.ReadForLock | internal/comp/lock.go:49-63 | the reading half: refusals in order, else the assigner's whole answer for the pool as it is, in whatever order it is listed |
| Effects.LockWritesTheAnswer | internal/comp/store.go:33-108 | an accepted lock writes the assigner's rows for any listing of the CONFIRMED and LATE signups with their sheets, ranked by score in Mythic+ and item level else, sized five-man for Mythic+, fixed for a Mythic raid and flexible otherwise; it assigns the roles of the seats and touches no other comp |
| Effects.AnswersAreTheAssigners | internal/comp/store.go:33-108 | the answer a lock hands back is the assigner's for such a listing in that mode, advisories included |
| EventStore.Store.Save | internal/comp/manual.go:74-98 | refuses an AUTO comp or an invalid board, else replaces the board with the raid lead's |
| EventStore.ManualAssignments | internal/comp/manual.go:148-182 | a board is refused exactly when a character repeats or lacks a role; otherwise each partition numbers from zero in submitted order |
| Effects.SaveGoesThrough | internal/comp/manual.go:74-98 | a save is accepted if and only if the comp is not AUTO, the event is known, every seat names a known character, once, and a role, and no position of a side is given twice once the count is cut to 16 bits |
| Effects.SaveStoresTheBoard | internal/comp/manual.go:148-182 | the slot of each character has the role and side submitted, the raid lead's reason, and as index the 16-bit count of the earlier placements on its side; nobody else is on the board and no other comp changes |
| Effects.SaveAssignsTheSeats | internal/comp/store.go:308-323 | a signup of the event is assigned a role if and only if a placement off the bench gives its character that role |
| EventStore.Store.Rename | internal/comp/manual.go:110-133 | refusals in order, and no write when the trimmed name is the old one |
| EventStore.Store.RenameComp | internal/comp/store.go:257-267 | the comp and all its slots move to the new name, a taken one being refused |
| Effects.RenameMoves | internal/comp/manual.go:110-133 | when a rename goes through; each slot then stands under the trimmed name as it was, none under the old one, and nothing else changes |
| Effects.ModeIsSet | internal/comp/store.go:247-255 | handing a board over changes the mode of a comp that exists and nothing else of any table |
| EventStore.AnyListingLocksAlike | internal/comp/store.go:33-94 | the order the pool is read in does not reach the board |
| Runs.LockFitsExactlyTheIndex | internal/comp/store.go:287-306 | the slot constraints accept a lock if and only if neither its seats nor its bench outnumber the positions of a 16-bit index |
| Runs.LockHoldsThePool | internal/comp/lock.go:48-74 | after a lock the comp holds a slot for exactly the pool members with a role menu, and a signup is assigned a role exactly when that slot is a seat |
| Runs.ReachableIsConsistent | internal/comp/store.go:269-337 | the two invariants below in every state a run reaches from a database with no signups |
| Runs.RunsStayConsistent | internal/signup/store.go:382-420 | over every run: a slot the assigner placed belongs to a CONFIRMED or LATE signup, and such a signup's assigned role is the seat it holds in the comp most recently written for its event, under that comp's current name |
| Runs.LostSlotsAreAnnounced | internal/signup/store.go:65-79 | on an event with a channel, a write, withdrawal or approval takes a slot out of a comp if and only if it queues the notice naming that character and comp |
| Runs.OtherSlotsStay | internal/comp/store.go:287-306 | every other operation leaves the slots of every comp it does not rewrite |
| Runs.ReplaceKeeps | internal/comp/store.go:287-323 | replacing a board re-establishes both |
| Runs.RolesFollowTheRename | internal/comp/store.go:257-267 | a rename carries the latest board along: assigned roles are still its seats |
| Runs.WriteGoesThrough | internal/signup/signup.go:42-58 | a write is accepted if and only if event and character exist, the status is the caller's to write and the clock allows it |
| Runs.OnlyThesePathsChangeASignup | internal/signup/signup.go:144-230 | a status changes only by an accepted write or withdrawal, or by the approval before the start of a pending request for that very status |
| Runs.AfterTheDeadline | internal/signup/signup.go:241-262 | past the deadline a raider without a raid lead moves a signup only to LATE or ABSENT, and only before the start |
| Runs.StartedEventsOnlyRecordNoShows | internal/signup/signup.go:144-230 | over any run after the start no signup is removed and the only status that appears is NO_SHOW, which stays |
| Runs.LateUntilIsKeptUnlessApprovedAsFiled | internal/signup/late.go:210-216 | that late_until goes with LATE is kept by every operation but the approval of a request that breaks it, which always does |
| Runs.LateUntilOutlivesLate | internal/signup/late.go:192-238 | the run that breaks the rule, from a database without signups: a TENTATIVE request with a time filed, then approved before the start |
| Runs.DecisionsStand | internal/signup/late.go:192-253 | taken as whole operations, none but filing again changes the row of a decided request |
| AssignedRoles.RolesLastUntilMoved | internal/db/signup.sql.go:581-593 | over any run, a raider holding a place has the role of their seat in the latest board assigned as long as their status has not changed since that board was written, and none once it has, seat kept or not |
| AssignedRoles.SeatedExactlyUntilMoved | internal/comp/store.go:308-323 | the same as an equivalence in every state reached from a database without signups |
| ManualBoards.ExactlyLeaversGo | internal/comp/lock.go:39-56 | under every operation but a raid lead's own on it a MANUAL comp stays MANUAL, and of its slots exactly those go whose raider a write, withdrawal or approval of their own takes out of the pool |
| ManualBoards.ManualBoardsAreNeverRecomputed | internal/comp/lock.go:39-56 | over any run of whole operations, until a raid lead saves, renames or converts it, the board holds exactly the slots it started with, as they were, less those of raiders taken out of the pool since |
| Races.LockIsItsHalves | internal/comp/lock.go:48-74 | an uninterrupted lock, read and write in two transactions, is the whole operation |
| Races.SaveIsItsHalves | internal/comp/manual.go:74-98 | the same for a save |
| Races.RejectIsItsHalves | internal/signup/late.go:241-253 | the same for a rejection, which reads and updates in two statements |
| Races.ConsistentExactlyWhenInTime | internal/comp/lock.go:48-74 | over every interleaving of locks, saves, rejections and all other operations, the tables stay consistent all along if and only if at each write everybody the assigner put on the board still holds their place |
| Races.LockLandsInTime | internal/comp/lock.go:48-74 | over any acts between its halves that leave the lock itself alone, it lands in time as long as nobody it lists changes status |
| Races.OnlyOperationsMove | internal/signup/store.go:382-420 | a status changes in no act but a whole operation, and there only along one of the three ways |
| Races.AssignedAndAbsent | internal/db/queries/comp.sql:87-97 | a pool member with a role menu who is out of the pool when a lock lands, by whatever acts came between its halves, has a slot the assigner placed and no place |
| Races.AWithdrawalIsEnough | internal/signup/signup.go:205-230 | one withdrawal the gates let through does it, a raider's own or a raid lead's |
| HandBuilt.HandBuiltBoardIsOverwritten | internal/comp/lock.go:39-64 | a board saved as a new MANUAL comp while a lock of that name is under way is replaced by the assigner's, and the comp stays MANUAL |
| HandBuilt.EmptyLockErases | internal/comp/store.go:287-306 | when the lock lists nobody, every slot of the board just saved is deleted though no status changed |
| HandBuilt.LandingIsIntactExactly | internal/comp/store.go:269-337 | a board that is written leaves the one before it as it was if and only if each of its rows is a slot already there and nobody there is missing from it |
| HandBuilt.LocksLoseHandBuiltBoards | internal/comp/store.go:269-337 | a lock landing on a board that is all a raid lead's leaves it as it was if and only if nobody is on either |
| HandBuilt.KeptExactlyWhenTheSameLands | internal/comp/lock.go:39-64 | over every interleaving in which no raid lead saves, renames or converts it, a MANUAL comp stays MANUAL, and every act takes off its board exactly those it takes out of the pool if and only if every board that lands on it says the same as the one there |
| HandBuilt.LocksKeepOnlyNothing | internal/comp/lock.go:39-64 | against locks, and for a board all by hand: if and only if no lock lands on it while anybody is on either board |
| HandBuilt.HandBuiltBoardSurvives | internal/comp/lock.go:39-56 | with nothing landing on it, it stays MANUAL and holds at the last act exactly the slots of the first, as they were, less those of raiders taken out of the pool in between |
| Decisions.DecisionStandsExactly | internal/signup/late.go:192-253 | over every interleaving in which it is not filed again, a decision stands at every act if and only if no rejection decided on earlier lands on it while it is an approval |
| Decisions.ApprovedAndRejected | internal/signup/late.go:241-253 | a pending request approved between the two statements of a rejection ends REJECTED with its signup written |
| Jobs.ClaimedAreDue | internal/db/jobs.sql.go:25-31 | a tick claims each job at most once, and only waiting jobs whose time has come |
| Earliest.TakenAreTheEarliest | internal/db/jobs.sql.go:25-31 | a qualifying row is passed over only when the limit is spent on rows no later than it |
| JobRuns.ClaimTakesTheEarliest | internal/db/jobs.sql.go:25-31 | a due job is passed over only by a full claim of jobs no later than it |
| Worker.JobsAhead | internal/signup/schedule.go:22-41 | the schedule of an event, reminders whose time has passed left out |
| JobRuns.JobsForIsOwedAhead | internal/signup/schedule.go:22-41 | a schedule holds exactly the owed reminders still ahead |
| Worker.Store.CreateEvent | internal/signup/store.go:99-171 | the event with all its columns and its resolved lead, its jobs and its announcement, or nothing |
| Reminders.CreationStores | internal/signup/store.go:99-171 | a new event has the columns asked for, its lead the one given, else the guild's, else thirty minutes, and is announced in the events channel when asked |
| Reminders.CreationSchedules | internal/signup/schedule.go:22-41 | what waits for it then: a reminder at the deadline, one a day before the start and one the lead before it if that is any time, each if still ahead |
| Worker.Store.UpdateEvent | internal/signup/store.go:233-306 | COALESCE on every column, the report row beside the log link, a redraw; an edit of the timing cancels and reschedules, every other leaves the jobs; a link that names no report undoes it all |
| Reminders.EditingStores | internal/signup/store.go:233-262 | each column is the one given or else the stored one, and only the log link can be cleared |
| Reminders.EditingReschedules | internal/signup/store.go:264-277 | an edit of start, deadline or lead leaves waiting exactly the reminders at the times the new columns give, those ahead; any other edit leaves every job as it was |
| Reminders.EditingReports | internal/signup/store.go:279-338 | the report row of an edit by its columns, and the redraw it queues if and only if something shown was edited and a message is posted |
| Worker.Store.SyncReportRow | internal/signup/store.go:312-338 | the report row of an edit: removed with its link, kept in place for the same report, started over for another |
| Worker.Store.Resolve | internal/signup/reminder.go:105-143 | the row and the notifications one resolution leaves |
| Worker.Store.RunDue | internal/signup/reminder.go:81-95 | a tick resolves everything it claims, or nothing when the store breaks under it |
| Worker.BuildReminder24h | internal/signup/reminder.go:179-208 | one message for each person who has not answered, with the title and both times |
| Worker.BuildReminderPreEvent | internal/signup/reminder.go:234-305 | the ping and the direct messages the guild's delivery asks for, each with its payload |
| Worker.BuildSignupDeadline | internal/signup/reminder.go:315-354 | the counts of all six statuses, to the raid lead roles |
| Reminders.BreaksExactly | internal/signup/reminder.go:148-174 | a job fails to build if and only if its event or kind is unknown or rows it needs cannot be read |
| Reminders.DayBeforeSays | internal/signup/reminder.go:179-208 | one notice to each person undecided, in order, with title, start and deadline; skipped when there is none |
| Reminders.PreEventSays | internal/signup/reminder.go:234-305 | a ping mentioning everybody attending unless the guild asked for messages only or there is no channel, and a message to each with their role if it asked for them; skipped when that leaves nobody or nowhere |
| Reminders.DeadlineSays | internal/signup/reminder.go:315-354 | to the raid leads, the number of signups with each of the six statuses; skipped without a channel |
| Reminders.ClaimedJobsSettle | internal/signup/reminder.go:105-143 | what a tick leaves of each job it claims: SENT with its notices, SENT with the reason there are none, or one attempt more and FAILED at the third |
| JobRuns.EditsReplaceTheSchedule | internal/signup/store.go:264-277 | after an edit of the timing the waiting jobs are exactly what the new row asks for and has not passed |
| JobRuns.ReachableIsSane | internal/signup/store.go:264-277 | the invariants below in every state reachable from an empty queue |
| JobRuns.RunsStaySane | internal/signup/store.go:264-277 | in every reachable state a waiting job has the time its event's current row gives, one per kind, with fewer than three failures, and a job is SENT with no reason exactly when it wrote something |
| JobRuns.ResolvedOneByOne | internal/signup/reminder.go:129-133 | a tick treats each claimed job as if it were the only one |
| JobRuns.JobMoves | internal/signup/reminder.go:105-143 | a waiting job changes only by a timing edit of its own event or by being claimed after its time |
| JobRuns.FinishedJobsNeverMove | internal/signup/reminder.go:105-143 | once a job has left PENDING no run changes its row or adds to what it wrote |
| JobRuns.ThirdFailureIsFinal | internal/signup/reminder.go:105-158 | over every run a job's attempts are the ticks that claimed it and failed to resolve it; there are never more than three, and the job is FAILED exactly when there were three |
| Outbox.Store.Claim | internal/signup/outbox.go:75-81 | claims and stamps the oldest claimable rows up to the limit |
| Outbox.Store.InsertNotification | internal/db/notification.sql.go:104-108 | inserts a row unless an unclaimed redraw of the event already waits |
| Outbox.Store.MarkFailed | internal/signup/outbox.go:98-145 | acks the row, then reports it once unless it is itself a report |
| Outbox.ClaimTakesFreeRows | internal/db/notification.sql.go:15-27 | a claim takes only unacked rows of its guild that nobody was handed in the last five minutes, stamps them and no others, and passes one over only for a full claim of rows as old |
| Outbox.FailuresAreReported | internal/signup/outbox.go:98-145 | the row is acked; one report naming title, kind and error goes to the guild's raid leads in the event's channel, unless the row is a report itself or there is no such channel |
| Outbox.InsertingQueues | internal/db/notification.sql.go:104-108 | a row is queued as it is, unless it is a redraw of an event for which an unclaimed one waits |
| Outbox.AcksStamp | internal/signup/outbox.go:147-155 | an ack stamps the one row it names, if that is of its guild |
| Outbox.LeaseHolds | internal/db/notification.sql.go:15-27 | no claim within the lease of a stamp returns that row again, whatever happens in between |
| Outbox.AckedStaysAway | internal/db/notification.sql.go:15-27 | an acked row is never handed out again |
| Outbox.ExpiredLeaseReopens | internal/db/notification.sql.go:15-27 | an unacked row is handed out by any claim for its guild after its lease, unless the limit is spent on rows at least as old |
| Outbox.OneReportPerFailure | internal/signup/outbox.go:98-145 | over any run the reports number one for each reported failure of a row that is not itself a report |
| Outbox.FailingAgainFilesAgain | internal/signup/outbox.go:98-145 | a row already acked is reported again exactly when failing it the first time would report it |
| Outbox.TwiceFailedIsTwiceReported | internal/signup/outbox.go:98-145 | failing a reportable row twice files two reports |
| Outbox.OneReminderTwoReports | internal/signup/outbox.go:98-145 | from an empty outbox: one row queued, failed twice, two reports |
| Outbox.RedrawsCoalesce | migrations/00001_baseline.sql:250-252 | at most one unclaimed redraw of an event waits |
| Sync.EnchantCompliance | internal/roster/gear.go:47-58 | counts the filled enchantable slots and those of them with no enchant |
| Sync.TierPieces | internal/roster/gear.go:63-75 | counts the season's set items, or nothing when no season is configured |
| Sync.CurrentRaid | internal/roster/gear.go:83-94 | the first raid under the configured slug |
| Sync.DeriveGear | internal/roster/sync.go:145-162 | the derived columns, truncated to 16 bits, unset where nothing is established |
| Sync.EnchantsCounted | internal/roster/gear.go:47-58 | the two enchant columns: of the pieces in one of the eight slots that take an enchant, how many there are and how many have none, unknown when there is no such piece |
| Sync.SeasonRead | internal/roster/gear.go:63-94 | the tier column counts the season's set items once there are any; the raid is the first under the season's slug, or none |
| Sync.TurnsWrite | internal/roster/store.go:63-139 | the columns each turn leaves: a changed profile fills all of them, keeping a class and spec it leaves out, and adds its snapshot; any other turn moves only the times |
| Sync.TurnsRedraw | internal/roster/store.go:108-127 | a turn that writes queues one edit for each posted message of an event ahead the character is signed up to, any other none |
| Sync.Syncer.IsUnchanged | internal/roster/sync.go:167-198 | whether the stored row and latest snapshot already say what the profile says |
| Sync.Syncer.SyncOne | internal/roster/sync.go:105-142 | the whole new state of one character's turn, and the redraws a write queues |
| Sync.Syncer.QueueRedraws | internal/roster/store.go:108-127 | one redraw for each message up and still ahead that the character is signed up to |
| Sync.Syncer.SyncDue | internal/roster/sync.go:75-103 | a batch and everything it queues, abandoned at the first answer about our own access |
| Sync.SkipsExactlyNoOps | internal/roster/sync.go:164-198 | a sync is skipped if and only if the write would change no data column and repeat the latest snapshot |
| Sync.EverySkipIsANoOp | internal/roster/sync.go:164-198 | the same in every state a run of batches reaches, under changing rules |
| Sync.SyncedStaysWhole | internal/roster/store.go:63-139 | row and latest snapshot stay in step and the five raid columns stay all set or all empty |
| Sync.SecondSyncIsASkip | internal/roster/sync.go:125-141 | syncing a profile twice makes the second a skip |
| Sync.SkipNeedsTheRowInStep | internal/roster/sync.go:176-178 | the concrete row, out of step with its snapshot, for which a skip hides a write |
| Sync.BatchSyncsEachAlone | internal/roster/sync.go:81-102 | each character the batch reaches is synced as if alone, and nobody past a refused access is touched |
| Sync.RedrawsFollowChanges | internal/roster/store.go:108-127 | a batch asks for a message to be redrawn once for each character on it whose turn came and whose profile really changed something, and for nothing else |
| Slug.RealmSlug | internal/roster/slug.go:34-60 | the held-back-hyphen loop answers the words of the realm joined by hyphens |
| Slug.SlugIsSlug | internal/roster/slug.go:21-60 | every slug is words of [a-z0-9] joined by single hyphens |
| Slug.SlugsAreTheFixedPoints | internal/roster/slug.go:34-60 | a realm is left alone if and only if it is a slug already |
| Slug.SlugIsIdempotent | internal/roster/slug.go:34-60 | normalising twice is normalising once |
| Slug.ApostrophesVanish | internal/roster/slug.go:38-40 | an apostrophe, straight or curly, anywhere in a realm leaves no trace |
| Slug.CaseIsFolded | internal/roster/slug.go:38 | runes with the same lower case read alike anywhere in a realm |
| Slug.AccentsAreDropped | internal/roster/slug.go:11-19 | each of the accented letters reads as the letter under the accent, anywhere in a realm |
| Slug.TheRestReadsAsHyphens | internal/roster/slug.go:34-60 | any other rune reads as a hyphen |
| Slug.HyphensCollapse | internal/roster/slug.go:34-60 | hyphens in a row read as one, and at either end as none |
| RaidLog.KeysAreInjective | internal/raidlog/match.go:48-53 | no two pairs of name and realm slug share an index key, whatever the name contains |
| RaidLog.Match | internal/raidlog/match.go:44-76 | the two indexes answer what scanning the roster for each actor would |
| RaidLog.MatchIsTheUniqueAnswer | internal/raidlog/match.go:30-43 | an actor is matched to a character if and only if that character is alone in having this name and realm, or alone in having this name |
| RaidLog.MatchIgnoresRosterOrder | internal/raidlog/match.go:44-76 | the order the roster is read in decides nothing |
| RaidLog.Reckon | internal/raidlog/match.go:111-137 | the turnout of a matched log |
| RaidLog.StoreRaiders | internal/db/raidlog.sql.go:301-320 | one row per actor id, a later one replacing an earlier |
| RaidLog.Report | internal/raidlog/read.go:111-173 | the turnout rebuilt from the rows as listed |
| RaidLog.TurnoutAccountsForEveryone | internal/raidlog/match.go:86-137 | attended is exactly who was found, missing exactly the expected who were not, and the overlap is one exactly when every actor is known |
| RaidLog.TurnoutNumbers | internal/raidlog/match.go:86-137 | nobody attends twice, unknown is the number of actors nobody is, the overlap times the actors is the rest, and whoever is missing is so as often as expected |
| RaidLog.ReadBackAgrees | internal/raidlog/read.go:111-173 | the turnout read back is the one reckoned at fetch time, for any order of rows and of expected characters |
| Ingest.Backoff | internal/raidlog/ingest.go:279-288 | the doubling loop with its cap |
| Ingest.BackoffGrowsToTheCap | internal/raidlog/ingest.go:279-288 | for any number of attempts waits double from five minutes and never pass six hours |
| Ingest.Ingestor.FetchOne | internal/raidlog/ingest.go:188-241 | what one fetch does to its row, and what it says about the client |
| Ingest.Ingestor.HandleOne | internal/raidlog/ingest.go:128-182 | one turn of the batch loop |
| Ingest.FetchLeaves | internal/raidlog/ingest.go:188-297 | what one fetch leaves, answer by answer: status, numbers, next attempt, attempts and fault of the row, the budget remembered, and for how long the client is stopped |
| Ingest.PassedOverLeaves | internal/raidlog/ingest.go:128-158 | what a report that is not fetched leaves: nothing, a row parked for good, or a wait for its client |
| Ingest.Ingestor.FetchDue | internal/raidlog/ingest.go:118-185 | the whole effect of a batch on rows, budgets and fetches made |
| Ingest.AsksAgainWhileItCanChange | internal/raidlog/ingest.go:228-276 | a report is asked for again exactly while it may still change; a failure keeps the stored numbers |
| Ingest.CredentialsDoNotInterfere | internal/raidlog/ingest.go:118-185 | what a batch does on one client is what it would do with every other client's reports taken out |
| Ingest.RefusalEndsTheClientsBatch | internal/raidlog/ingest.go:163-177 | after a rate limit or refused credentials the rest of the batch makes no fetch on that client |
| Ingest.SpentBudgetsAreNeverRefreshed | internal/raidlog/ingest.go:142-158 | a client whose remembered budget is spent is asked nothing by any number of later batches |
| Ingest.AskedExactlyUnlessSpent | internal/raidlog/ingest.go:142-158 | a batch that holds a report of a client fetches nothing on it if and only if the client's remembered budget is spent, whenever it resets |
| Ingest.ResetIsNeverNoticed | internal/raidlog/ingest.go:142-158 | two batches a day apart: the first fetch answers a budget nearly spent that resets in a minute, the second batch fetches nothing |
| Ingest.StoppedReportsWait | internal/raidlog/ingest.go:142-177 | a stopped report waits past now, if and only if it was not stopped by a remembered spent budget with no reset ahead |

## Left out

- HTTP handlers, authentication, links and JSON shapes; who owns a character and who is a raid lead are parameters.
- PostgreSQL itself: isolation, row locks and SKIP LOCKED. Each transaction is one atomic step, that of an approval included, whose read takes no lock.
- Reads before a transaction elsewhere: a signup write reads its event, a rename its comp, a failure report its row and event, a sync its snapshot first; only Lock, Save and Reject are split from what they write.
- Event edits and deletions in the signup runs, and deletions with their cascades everywhere: an event's row is fixed there, and the job model has its own edits.
- Raider.IO and WarcraftLogs clients, tokens, rate gates and GraphQL: a fetch is an answer given from outside, and what a log link parses to comes with the link.
- The raid lead roles of a guild are taken as fixed through a run, as the events are.
- Guild settings, channel catalogues, billing, audit, analysis and event listings: whole-set replacement or queries that would only add easy members.
- Event streams, logging, configuration and the worker's tickers.
- Which characters are due for a sync: a batch is given. That redraws coalesce is in the outbox model.
- The lease a claim of reports puts on its rows (internal/db/raidlog.sql.go:15-31): a batch is given with its reports distinct.
- Unicode lower casing beyond a function on single characters that leaves [a-z0-9-] alone.
- Per-pull rows of a report and their board: the same matching applied again.
- The order of the sentences about raiders with no roles: it follows the order the pool is read in, so it is the assignments, not the advisories, that are independent of it.
- The two readings of the clock inside one write, which are taken as one.

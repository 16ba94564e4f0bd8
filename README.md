# Looms taka ledger, modelled in Dafny

The looms server keeps a ledger of **production records**. Each record is a dated number of meters woven by one worker on one machine in one shift, booked against a **taka**. A taka is a lot of cloth with a target length, a rate per meter, running totals and a status (`Active` or `Completed`).

This project models the parts of the server that compute over that ledger:

- **Lot reconciliation** (`fix-taka-completions.js`). Each taka's records are walked in date order. Records that fit under the target are kept. The record that first overshoots is cut down so the total lands exactly on the target, and is saved. Every later record is deleted. The taka's totals and status are then rewritten. A taka without records is reset. At the end, records without a taka are deleted one by one, each after its date is printed; an orphan without a date makes `toDateString()` throw, which ends the run with the orphans before it already deleted.
- **Lot total recompute** (`fix-taka-earnings.js`). Each taka's `totalMeters` becomes the sum of its records' meters. Its `totalEarnings` becomes that sum times the taka's rate.
- **Earnings backfill** (`fix-earnings.js`). Every record whose earnings are 0 gets meters × its own rate.
- **Meter investigation** (`investigate-taka-meters.js`). This is a read-only check. Per taka, it reports the calculated total, a mismatch flag and any excess over target. It also lists records without a taka and records that point at a taka that is not listed.
- **Reports** (`controllers/report.controller.js`):
  - the worker report and the machine report: query filters, newest-first order, grouping in first-seen order, totals split by shift, and the machine utilization percentage;
  - the salary report: month window, per-worker sums, distinct working days, join with the workers, and the order by worker code;
  - the data fallback of the PDF report, used when the client posts no rows.

## How the model is built

Modelling choices:

- **Numbers.** Meters, rates and earnings are `real`s, and arithmetic on them is exact.
- **Dates.** A date is an `Option<int>` of milliseconds since the epoch (UTC). Its calendar day (`YYYY-MM-DD`) is `DayOf(t) = t / 86400000`.
- **The store.** The production collection is the class `Store.ProductionStore`. Its field `records: seq<Entry>` is reassigned by `Save`, `DeleteOne` and `UpdateEarnings`.
  - The sequence order is the insertion order. The stable date sort (`Ledger.ByDateAscending` / `ByDateDescending`, on top of `Sorting.InsertionSort`) keeps ties in that order.
  - A reference that `populate` could not resolve is a key missing from a set or map that is passed in.
- **Takas.** A taka is the class `Store.Taka`, whose fields the scripts assign.

How the scripts are modelled:

- Each script is a method with the script's loop. The method is proved against a recursive specification function:
  - for reconciliation, `TakaCompletions.Scan` and `ReconcileLot`;
  - for the backfill, `EarningsBackfill.Backfilled`;
  - for the recompute, `TakaEarnings.Recomputed`.
- The script's promises are lemmas about those functions.
- The multi-taka loop of `fix-taka-completions.js` is `TakaCompletions.ReconcileTakas`. Its effect on the store is `ReconcileFirst`, which reconciles the takas one after another.

How the reports are modelled:

- The worker and machine reports are methods. They build the groups in a map in the order the `forEach` loop does.
- Each is proved equal to a declarative definition: `ReportGroups.Grouped`, with one group per distinct key in first-seen order and the group's records in report order. The lemmas about groups are proved on that definition.
- The salary aggregation pipeline is pure and is modelled as functions.

An error the code would throw becomes an explicit result:

- `ServerError`: dereferencing an unpopulated worker or machine, which the handler turns into a 500 response;
- `MissingDate`: `toDateString()` on a record without a date.

## Behaviour of the code worth noting

The model follows the code where it might be read otherwise:

- **Days in range.** `daysInRange` is `Math.ceil((end - start) / day) + 1` (report.controller.js:142), not a floor. `ReportQuery.DaysInRange` is the ceiling.
- **Utilization without a date range.** It is 100 only when the group has a record *with a date* (`_dateSet.size > 0`, :151), not merely a record.
- **Unresolved workers and machines.** They do not become an "N/A" group. `prod.worker._id` throws, and the report answers 500 (`Response.ServerError`).
- **Empty takas.** They reset to `Completed` when `targetMeters <= 0`, not only when it equals 0 (fix-taka-completions.js:32).
- **Orphan purge.** It deletes only records whose `taka` is null (`Production.find({ taka: null })`, :108), not records whose reference no longer resolves.
- **Trimmed earnings.** A trimmed record's new earnings use the taka's rate (:63), not the record's own rate.
- **Night meters.** The worker and machine reports count every shift other than `'Day'` as night. The salary report sums `'Day'` and `'Night'` separately, so other shifts go into neither.

## Model

| member | source | states |
|---|---|---|
| Sorting.InsertionSort | looms/server/fix-taka-completions.js:23-24 | the store's sort returns a permutation of its input |
| Sorting.SortStable | looms/server/fix-taka-completions.js:23-24 | for a strict weak order, the elements tied with any given element come out of the sort in their input order (the sort is stable) |
| Ledger.SameDateKeepsStoreOrder | looms/server/controllers/report.controller.js:36 | two records tie under either date order iff they have the same date, and records of one date keep their store order under `sort({ date: 1 })` and `sort({ date: -1 })` |
| Sorting.InsertionSortSorted | looms/server/fix-taka-completions.js:23-24 | the sorted sequence is ordered by any strict order used to sort it |
| Ledger.OfTakaMembers | looms/server/fix-taka-completions.js:23 | `find({ taka: id })` returns exactly the records booked against that taka |
| Ledger.DateOrdersAreStrict | looms/server/controllers/report.controller.js:36 | date ascending and date descending (missing dates first resp. last) are strict weak orders |
| Ledger.SumsOfSorted | looms/server/fix-taka-earnings.js:22-24 | a lot's meter and earning sums do not depend on the order its records come in |
| Ledger.SumsOfConcat | looms/server/controllers/report.controller.js:55-56 | sums over two runs of records add up |
| Ledger.SortUnique | looms/server/fix-taka-completions.js:23-24 | sorting keeps record ids unique |
| Store.Taka.constructor | looms/server/fix-taka-completions.js:16 | a taka holds exactly the given id, number, target, rate, totals and status |
| Store.ReplacedMembers | looms/server/fix-taka-completions.js:69 | after `record.save()` every stored record is the saved one or an untouched record with another id |
| Store.WithoutMembers | looms/server/fix-taka-completions.js:87 | `deleteOne` by id leaves exactly the records whose id is not deleted |
| Store.WithoutTwice | looms/server/fix-taka-completions.js:86-88 | deleting one id set after another equals deleting their union |
| Store.OfTakaWithout | looms/server/fix-taka-completions.js:86-88 | deleting records of other lots does not change a lot's own records |
| Store.OfTakaReplaced | looms/server/fix-taka-completions.js:69 | saving a record of another lot does not change a lot's own records |
| Store.OfTakaWithoutCommutes | looms/server/fix-taka-completions.js:84-88 | a lot's records after deletions are its records before them with the same ids deleted |
| Store.OfTakaReplacedCommutes | looms/server/fix-taka-completions.js:69 | saving a record of a lot over a record of the same lot changes the lot's records by that save only |
| Store.WithoutSort | looms/server/fix-taka-completions.js:23-24 | for a strict weak order, deleting ids and then sorting gives the same sequence as sorting and then deleting |
| Store.ReplacedSort | looms/server/fix-taka-completions.js:23-24 | saving a record over one of the same date and then sorting by date gives the same sequence as sorting and then saving |
| Store.EarningsSet | looms/server/fix-earnings.js:25-27 | `findByIdAndUpdate(id, { earnings })` changes only the earnings of the record with that id |
| Store.ProductionStore.Save | looms/server/fix-taka-completions.js:69 | the stored record with the saved record's id is replaced by it, ids stay unique |
| Store.ProductionStore.DeleteOne | looms/server/fix-taka-completions.js:87 | the record with the id is gone and all others remain in order |
| Store.ProductionStore.UpdateEarnings | looms/server/fix-earnings.js:25-27 | only the earnings field of the record with the id changes |
| TakaCompletions.Trim | looms/server/fix-taka-completions.js:61-63 | the cut-down record has the given meters and those meters × the lot's rate as earnings; every other field is the original record's |
| TakaCompletions.Scan | looms/server/fix-taka-completions.js:44-75 | the completion index is -1 or a position in the records, and a trimmed record implies a completion index |
| TakaCompletions.ScanSizes | looms/server/fix-taka-completions.js:44-82 | every walked record is either kept or removed |
| TakaCompletions.ScanFilter | looms/server/fix-taka-completions.js:44-89 | with unique ids, saving the trimmed record and deleting the removed ones turns the lot's records into exactly the kept list |
| TakaCompletions.ReconcileLot | looms/server/fix-taka-completions.js:28-94 | kept and removed together are as many as the lot's records; earnings are meters × rate; a lot without records keeps, removes and trims nothing and has 0 meters |
| TakaCompletions.ScanTotals | looms/server/fix-taka-completions.js:39-75 | the walk's cumulative meters are the sum of the kept records; a non-empty kept list never exceeds the target; reaching the completion index means the total equals the target |
| TakaCompletions.ScanProvenance | looms/server/fix-taka-completions.js:44-82 | removed records come from the lot, kept records come from the lot or are the one trimmed record, which is a lot record cut down at the lot's rate |
| TakaCompletions.ScanBelowTarget | looms/server/fix-taka-completions.js:44-75 | starting below target, either every record is kept untrimmed and the total stays below target, or the walk hits the target at a record and everything after it is removed |
| TakaCompletions.ScanIdempotent | looms/server/fix-taka-completions.js:44-75 | walking the kept records again keeps them all, trims nothing, removes nothing |
| TakaCompletions.ReconcileLotTotals | looms/server/fix-taka-completions.js:28-94 | totalEarnings = totalMeters × lot rate; totalMeters = sum of kept (post-trim) meters and ≤ target; an empty lot has totals 0 and is Active iff target > 0; otherwise Completed iff totalMeters ≥ target |
| TakaCompletions.ReconcileLotPartition | looms/server/fix-taka-completions.js:44-82 | kept and removed ids together are the lot's ids, each exactly as many times as in the lot |
| TakaCompletions.ReconcileLotDisjoint | looms/server/fix-taka-completions.js:44-82 | with unique record ids, no record is both kept and removed |
| TakaCompletions.ReconcileLotPrefix | looms/server/fix-taka-completions.js:44-82 | with target > 0 the kept records are a non-empty prefix of the date-sorted records and the removed ones exactly the suffix; only the last kept record may be trimmed, to target − earlier kept meters, strictly positive and strictly below its original meters, with the total then equal to the target |
| TakaCompletions.ReconcileLotIdempotent | looms/server/fix-taka-completions.js:44-94 | reconciling the kept records again keeps them all, trims and removes nothing, and gives the same totals and status |
| TakaCompletions.NothingKept | looms/server/fix-taka-completions.js:44-75 | a lot with records keeps none only when its target is ≤ 0, and then its total is 0 |
| TakaCompletions.AppliedKeepsOtherLots | looms/server/fix-taka-completions.js:18-104 | reconciling one lot leaves every other lot's records unchanged |
| TakaCompletions.StepKeepsOthers | looms/server/fix-taka-completions.js:18-104 | one loop iteration keeps ids unique and other lots' records unchanged |
| TakaCompletions.StepLotRecords | looms/server/fix-taka-completions.js:18-104 | after one lot's pass, the lot's records in date order are exactly the records its reconciliation kept |
| TakaCompletions.StepIdempotent | looms/server/fix-taka-completions.js:18-104 | a second pass over the same lot changes no record and settles the lot with the same totals and status |
| TakaCompletions.StepKeepsOrphans | looms/server/fix-taka-completions.js:18-108 | one lot's pass keeps ids unique and leaves the records without a taka exactly as they were |
| TakaCompletions.AppliedKeepsOrphans | looms/server/fix-taka-completions.js:62-88 | saving the trimmed record and deleting the removed ones never touches a record without a taka |
| TakaCompletions.Terms | looms/server/fix-taka-completions.js:16 | the target and rate of each listed taka, in list order |
| TakaCompletions.WalkUntilTarget | looms/server/fix-taka-completions.js:39-75 | the `for` loop with `break` yields the kept, removed, cumulative and completion index of the walk, and saves exactly the trimmed record |
| TakaCompletions.WalkRecords | looms/server/fix-taka-completions.js:39-82 | the loop plus the "after completion" tail give the walk's kept and removed lists and total; the store changes only by saving the trimmed record |
| TakaCompletions.AppendFrom | looms/server/fix-taka-completions.js:78-82 | the records after the completion index are appended to the removed list in order |
| TakaCompletions.DeleteRecords | looms/server/fix-taka-completions.js:84-89 | the store loses exactly the removed records |
| TakaCompletions.ReconcileTaka | looms/server/fix-taka-completions.js:22-96 | kept and removed are those of the lot's outcome; the store becomes the outcome applied (trimmed record saved, removed deleted); the taka's totals and status are the outcome's, its target and rate unchanged |
| TakaCompletions.Orphans | looms/server/fix-taka-completions.js:108 | exactly the records whose taka is null |
| TakaCompletions.Assigned | looms/server/fix-taka-completions.js:108-117 | exactly the records that have a taka |
| TakaCompletions.PurgeKeepsAssigned | looms/server/fix-taka-completions.js:108-117 | deleting the orphans' ids leaves exactly the records with a taka, in order and untouched |
| TakaCompletions.UntilUndated | looms/server/fix-taka-completions.js:114-117 | the orphans the purge gets through are the longest dated prefix of the orphan list |
| TakaCompletions.PurgeOrphans | looms/server/fix-taka-completions.js:108-120 | the run fails iff some orphan has no date; the store loses exactly the orphans before the first undated one; when none is undated it returns the orphans and the store holds exactly the assigned records |
| TakaCompletions.ReconcileTakas | looms/server/fix-taka-completions.js:16-104 | the store ends as the takas reconciled one after another in list order, and every taka is settled against its own records as they were at the start |
| TakaCompletions.SettleNext | looms/server/fix-taka-completions.js:18-104 | one iteration applies the lot's reconciliation to the store and settles that taka, carrying the loop's progress one lot further |
| TakaCompletions.FixTakaCompletions | looms/server/fix-taka-completions.js:8-135 | every taka is settled from its original records, target and rate; the run fails iff some orphan has no date; the store holds the reconciled records less the orphans purged before the first undated one; on success every remaining record has a taka |
| TakaEarnings.Recomputed | looms/server/fix-taka-earnings.js:20-38 | totalMeters is the sum of the lot's meters, totalEarnings that sum × the lot's rate, and every other figure is unchanged |
| TakaEarnings.RecomputedWithoutRecords | looms/server/fix-taka-earnings.js:27 | a taka without records gets totalMeters 0 and totalEarnings 0 (the `\|\| 0` default) |
| TakaEarnings.RecomputedIdempotent | looms/server/fix-taka-earnings.js:20-38 | recomputing twice gives the same figures as once |
| TakaEarnings.FixTakaEarnings | looms/server/fix-taka-earnings.js:15-40 | updatedCount = number of takas; each taka's totalMeters = sum of its records' meters, totalEarnings = totalMeters × rate; target, rate and status unchanged; the production records unchanged |
| EarningsBackfill.ZeroEarningsMembers | looms/server/fix-earnings.js:17 | `find({ earnings: 0 })` returns exactly the records with zero earnings |
| EarningsBackfill.Backfilled | looms/server/fix-earnings.js:22-27 | nonzero-earnings records are unchanged; zero-earnings records get meters × their own rate; no other field changes |
| EarningsBackfill.BackfilledZeroOnlyIfNothingEarned | looms/server/fix-earnings.js:23-36 | after the fix a record still has zero earnings only if its meters × rate is 0 |
| EarningsBackfill.BackfilledIdempotent | looms/server/fix-earnings.js:17-31 | running the backfill twice equals running it once |
| EarningsBackfill.FixedOneMore | looms/server/fix-earnings.js:22-31 | one iteration fixes one more zero-earnings record and leaves the rest as they were |
| EarningsBackfill.FixedAllIsBackfilled | looms/server/fix-earnings.js:22-31 | once every zero-earnings record is fixed, the store is the backfilled store |
| EarningsBackfill.FixEarningsData | looms/server/fix-earnings.js:17-31 | fixedCount = number of zero-earnings records found; the store becomes the backfilled store |
| TakaInvestigation.Check | looms/server/investigate-taka-meters.js:48-55 | mismatch iff calculated total ≠ stored total; excess present iff target > 0 and calculated > target, and then excess = calculated − target > 0 |
| TakaInvestigation.CalculatedTotal | looms/server/investigate-taka-meters.js:37-44 | the `forEach` sum is the sum of the lot's meters, 0 for none; it fails iff some record has no date (`toDateString` throws) |
| TakaInvestigation.LotRecordsSum | looms/server/investigate-taka-meters.js:31-44 | the sum over the date-sorted lot records equals the sum over the lot's records in store order |
| TakaInvestigation.LotRecordsUndated | looms/server/investigate-taka-meters.js:31-41 | the sorted lot records contain an undated record iff the lot has one |
| TakaInvestigation.OrphanedMembers | looms/server/investigate-taka-meters.js:60-61 | the orphans are exactly the records whose taka is missing or does not resolve |
| TakaInvestigation.Classification | looms/server/investigate-taka-meters.js:60-75 | an orphan is never an invalid reference; a record that is neither points at a listed taka |
| TakaInvestigation.NoInvalidRefsWhenListedAll | looms/server/investigate-taka-meters.js:60-75 | when every resolvable taka is listed, no record is an invalid reference |
| TakaInvestigation.InvalidRefsMembers | looms/server/investigate-taka-meters.js:70-75 | a record is an invalid reference iff it is stored and has a resolved taka that is not listed |
| TakaInvestigation.InvalidTakaRefs | looms/server/investigate-taka-meters.js:70-75 | the pushed records are, in store order, exactly those with a resolved taka that is not among the listed takas |
| TakaInvestigation.CheckLots | looms/server/investigate-taka-meters.js:22-56 | fails iff some listed taka has an undated record; otherwise one check per taka, in order, from its booked meters |
| TakaInvestigation.InvestigateTakaMeters | looms/server/investigate-taka-meters.js:19-79 | fails iff some listed taka has an undated record; otherwise one check per taka from its booked meters, the orphan list and the invalid references in store order; the store is not modified |
| TakaInvestigation.NoMismatchAfterRecompute | looms/server/investigate-taka-meters.js:48-50 | a taka whose total equals the sum of its records (as the recompute sets it) shows no mismatch |
| ReportQuery.QueryOf | looms/server/controllers/report.controller.js:14-29 | the id and shift conditions are present iff supplied; the date condition iff both dates are supplied |
| ReportQuery.FindMembers | looms/server/controllers/report.controller.js:31 | `find(query)` returns exactly the records satisfying every condition |
| ReportQuery.ReportRecordsMatch | looms/server/controllers/report.controller.js:14-36 | a record is in the report iff it is stored, has the requested id and shift when supplied, and with both dates a date in the inclusive range |
| ReportQuery.ReportRecordsNewestFirst | looms/server/controllers/report.controller.js:36 | report records come date-descending |
| ReportQuery.DaysInRange | looms/server/controllers/report.controller.js:142 | n is the ceiling of the range in days plus one: (n−2)·day < end−start ≤ (n−1)·day |
| ReportQuery.DaysInRangeCoversDays | looms/server/controllers/report.controller.js:138-143 | every calendar day from the start's to the end's fits in the counted range |
| ReportGroups.Grouped | looms/server/controllers/report.controller.js:39-66 | the declarative grouping has one group per distinct key |
| ReportGroups.GroupsMap | looms/server/controllers/report.controller.js:39-61 | every dictionary entry is keyed by its group's key and holds at least one record |
| ReportGroups.TotalsAreSums | looms/server/controllers/report.controller.js:46-61 | accumulated totals are the meter and earning sums, and day + night meters = meters |
| ReportGroups.MembersMembers | looms/server/controllers/report.controller.js:54 | a group's records are exactly the report's records with its key |
| ReportGroups.KeysMembers | looms/server/controllers/report.controller.js:39-53 | a key has a group iff some record has that key |
| ReportGroups.KeysDistinct | looms/server/controllers/report.controller.js:39-53 | no key has two groups |
| ReportGroups.KeysFirstSeen | looms/server/controllers/report.controller.js:39-66 | groups come in first-seen order of the report's records |
| ReportGroups.RecordInOneGroup | looms/server/controllers/report.controller.js:39-56 | every record lands in exactly one group, the one keyed by its worker (machine) |
| ReportGroups.GroupTotals | looms/server/controllers/report.controller.js:39-61 | each group's meters and earnings are the sums over its productions, and day + night = meters |
| ReportGroups.GroupsMapSnoc | looms/server/controllers/report.controller.js:40-61 | one `forEach` step creates the group if new, then pushes the record and adds to its totals |
| ReportGroups.GroupsMapAt | looms/server/controllers/report.controller.js:39-62 | the dictionary has an entry for exactly the seen keys, and it is that key's group |
| ReportGroups.GroupsMapValues | looms/server/controllers/report.controller.js:66 | `Object.values` in insertion order is the declarative grouping |
| ReportGroups.TakeRecord | looms/server/controllers/report.controller.js:40-61 | one loop step turns the dictionary and key order of a prefix into those of the prefix plus the record |
| ReportGroups.GroupRecords | looms/server/controllers/report.controller.js:38-66 | fails iff some record's key does not resolve; otherwise yields the grouping |
| Reports.GetWorkerReport | looms/server/controllers/report.controller.js:10-71 | 500 iff some matched record's worker does not resolve; otherwise the worker groups of the date-descending matching records |
| Reports.ProductionDaysSnoc | looms/server/controllers/report.controller.js:130-134 | a record adds its UTC day to the date set when it has a date |
| Reports.ProductionDaysWithin | looms/server/controllers/report.controller.js:130-134 | days of records dated within [start, end] lie between the start's and the end's day |
| Reports.ProductionDaysEmpty | looms/server/controllers/report.controller.js:130-151 | the date set is empty iff no record has a date |
| Reports.ProductionDaysAtMost | looms/server/controllers/report.controller.js:130-147 | there are no more distinct days than records |
| Reports.RoundTenthBounds | looms/server/controllers/report.controller.js:148 | rounding to one decimal keeps [0, 100] and fixes 0 and 100 |
| Reports.RoundTenthClose | looms/server/controllers/report.controller.js:148 | the value rounded to one decimal lies in (x − 0.05, x + 0.05], halves rounding up |
| Reports.PercentBounds | looms/server/controllers/report.controller.js:148 | days ÷ range × 100 is in [0, 100] when days ≤ range, 0 for no days, 100 for all days |
| Reports.TotalDaysInRange | looms/server/controllers/report.controller.js:138-143 | 0 unless both dates are given; with both, the ceiling of the range in days plus one |
| Reports.MachineRow | looms/server/controllers/report.controller.js:145-154 | a machine row keeps its group's key, records and totals; with no positive range its utilization is 100 iff it has a dated record; with one it lies in [0, 100] when the days fit |
| Reports.Utilization | looms/server/controllers/report.controller.js:145-152 | without a positive range 100 if there are dated days else 0; with one, in [0, 100] when the days fit, 0 for none, 100 for all |
| Reports.DatedGrouped | looms/server/controllers/report.controller.js:104-135 | the machine groups with date sets are the machine grouping, group for group |
| Reports.DatesMapSnoc | looms/server/controllers/report.controller.js:131-134 | one step adds the record's day to its machine's date set |
| Reports.DatesMapAt | looms/server/controllers/report.controller.js:119-134 | a machine has a date set iff it has a group, and the set is the distinct days of its records |
| Reports.DatedValues | looms/server/controllers/report.controller.js:145 | the groups and date sets in insertion order are the declarative dated grouping |
| Reports.TakeMachineRecord | looms/server/controllers/report.controller.js:106-134 | one loop step updates groups, date sets and key order to those of the prefix plus the record |
| Reports.GroupMachineRecords | looms/server/controllers/report.controller.js:104-135 | fails iff some machine does not resolve; otherwise the dated machine grouping |
| Reports.UtilizationPass | looms/server/controllers/report.controller.js:145-155 | each group gets the utilization of its distinct days over the range, and its date set is dropped |
| Reports.UtilizationBounds | looms/server/controllers/report.controller.js:137-152 | every machine's utilization lies in [0, 100]; with no range it is 100 iff the machine has a dated record |
| Reports.GetMachineReport | looms/server/controllers/report.controller.js:76-164 | 500 iff some matched machine does not resolve; otherwise one row per machine group with its utilization, each in [0, 100] |
| SalaryReport.DateYear | looms/server/controllers/report.controller.js:176-177 | `new Date(y, m)` reads a year 0 to 99 as 1900 + y and keeps any other year |
| SalaryReport.TargetMonth | looms/server/controllers/report.controller.js:171-177 | the 1-based month becomes 0-based, missing month/year default to now, years 0 to 99 mean 1900 to 1999, and out-of-range months roll over into the year as `new Date(y, m)` does |
| SalaryReport.SummaryOf | looms/server/controllers/report.controller.js:185-209 | a worker's summary names the worker; it has 0 working days iff none of its records is dated; day + night meters = total when every shift is Day or Night |
| SalaryReport.InWindowMembers | looms/server/controllers/report.controller.js:178-183 | the `$match` keeps exactly the records dated within [monthStart, monthEnd] |
| SalaryReport.ShiftSplit | looms/server/controllers/report.controller.js:189-198 | when every shift is Day or Night, day + night meters = total meters |
| SalaryReport.LookedMembers | looms/server/controllers/report.controller.js:212-219 | `$lookup` + `$unwind` keep exactly the summaries whose worker resolves, joined with that worker |
| SalaryReport.LookedDistinct | looms/server/controllers/report.controller.js:185-219 | each worker appears at most once after the join |
| SalaryReport.StringLessTransitive | looms/server/controllers/report.controller.js:220 | the worker-code order is transitive |
| SalaryReport.CodeOrderIsStrict | looms/server/controllers/report.controller.js:220 | ordering by worker code is a strict order |
| SalaryReport.SalaryData | looms/server/controllers/report.controller.js:178-221 | the pipeline's rows are sorted by worker code |
| SalaryReport.SalaryDataMembers | looms/server/controllers/report.controller.js:178-220 | a row is in the pipeline's result iff its worker resolves, has a record in the month, and the row is that worker's month summary |
| SalaryReport.SalaryDataDistinct | looms/server/controllers/report.controller.js:185-220 | one row per worker |
| SalaryReport.WorkerMonthMembers | looms/server/controllers/report.controller.js:178-187 | a worker's month records are exactly its records dated within the month |
| SalaryReport.SalaryRows | looms/server/controllers/report.controller.js:224-237 | one response row per pipeline row |
| SalaryReport.SalaryRowsByCode | looms/server/controllers/report.controller.js:220-237 | rows come in ascending worker-code order |
| SalaryReport.SalaryRowsWorkers | looms/server/controllers/report.controller.js:185-237 | a worker has a row iff it resolves and has a record in the month; no worker has two rows |
| SalaryReport.SalaryRowFigures | looms/server/controllers/report.controller.js:185-237 | a row carries its worker's fields, the month's meter sum, productionEarnings = totalSalary = the month's earning sum, and workingDays = distinct UTC days, between 1 and the record count and at most the days of the month window |
| SalaryReport.SalaryRowsResolved | looms/server/controllers/report.controller.js:212-219 | every row's worker resolves (`$unwind` drops groups whose `$lookup` found no worker) |
| SalaryReport.GetSalaryReport | looms/server/controllers/report.controller.js:169-242 | for the requested (or current) month: every row's worker resolves, no worker has two rows, and rows come in ascending worker-code order |
| PdfReport.FallbackParams | looms/server/controllers/report.controller.js:254-260 | the fallback query uses the id and date range and never a shift |
| PdfReport.Briefs | looms/server/controllers/report.controller.js:269-280 | the fallback groups keep each report group's key and productions |
| PdfReport.BriefGroups | looms/server/controllers/report.controller.js:269-280 | fails iff some key does not resolve; otherwise the grouping with meter and earning totals only |
| PdfReport.BriefTotals | looms/server/controllers/report.controller.js:273-277 | a fallback group's meters and earnings are the sums over its productions |
| PdfReport.MetricsRows | looms/server/controllers/report.controller.js:305-361 | one fallback salary row per pipeline row |
| PdfReport.PdfData | looms/server/controllers/report.controller.js:249-361 | posted data is used unless falsy or an empty array; then worker/machine data are the brief groupings (500 iff a key does not resolve), salary data the month's metrics rows, and other types keep the posted value |
| PdfReport.SalaryMetricsAgree | looms/server/controllers/report.controller.js:305-361 | the fallback salary rows list the salary report's workers in the same order, with the same meters, its salary as earnings, and each shift's meters |

## Left out

- Database connections, `dotenv`, console output, `process.exit` and the summary queries the scripts print after their work (fix-taka-completions.js:122-129; fix-taka-earnings.js:42-62; fix-earnings.js:35-48). These are I/O and do not affect the state the scripts leave behind. The exceptions are the `toDateString()` calls in the log lines of fix-taka-completions.js:115 and investigate-taka-meters.js:41. Each throws on a record without a date and so ends the run, and each is modelled as `MissingDate`.
- HTTP plumbing: `req.query`/`req.body` become parameters, and every 500 response becomes `ServerError`. Error messages are not modelled.
- PDF rendering and pagination (report.controller.js from :364 on). This is presentation through an external library.
- `populate` and `$lookup` internals. A reference resolves when its id is in the set or map passed in. No other Mongo query semantics are modelled.
- The order of `Object.values`: JavaScript lists integer-like keys first, in ascending order, and only then the other keys in creation order. The keys here are ObjectId strings of 24 hexadecimal digits, never an array index (those are decimal numbers below 2^32 − 1 without leading zeros), so the model uses creation order throughout. The model's `Id` is any string, and for an id that is an array index the real order would differ.
- Ledger.ByDateAscending: `sort({ date: 1 })` and `sort({ date: -1 })` do not promise any order among records of the same date. The model assumes the store returns them in insertion order, and `Sorting.SortStable`, `Ledger.SameDateKeepsStoreOrder`, `TakaCompletions.StepLotRecords` and `TakaCompletions.StepIdempotent` rest on that assumption about the store, not on anything the code guarantees.
- Mongo's `$group` output order is unspecified. The salary model takes first-seen order, and the final `$sort` by workerCode is modelled as stable.
- JavaScript `Date` parsing and time zones. Dates are integer UTC milliseconds. `date-fns` `startOfMonth`/`endOfMonth` are the `monthWindow` parameter of `SalaryReport.GetSalaryReport` and `PdfReport.PdfData`. `parseInt` of a non-number (NaN) is not modelled: month and year are `Option<int>`, and every falsy value (a missing field, `""`, or a numeric `0` in a JSON body) is `None`, so it takes the current month or year; the string `"0"` is truthy and is `Some(0)`.
- Floating-point arithmetic. All products and sums are exact `real`s.
- Reports.RoundTenth: rounds half up exactly on reals, where `toFixed(1)` rounds the binary double nearest to the value. It is stated by its distance to the unrounded value (`Reports.RoundTenthClose`), its bounds and its fixed points.
- The `|| 0` defaults on salary figures (:233-236). Every figure the pipeline produces is a number, so `|| 0` is the identity.
- String order for `workerCode` is lexicographic on character codes (`SalaryReport.StringLess`). Mongo collation is not modelled.
- Atomicity and concurrency. The scripts save and delete one record at a time with no transaction, and the model runs them sequentially.
- TakaCompletions.FixTakaCompletions: requires the listed takas to have distinct ids, as `Taka.find({})` returns each document once. Running the whole script twice is not proved to change nothing; that is proved for one lot's pass (`StepIdempotent`).
- Record validation and clamping at entry time (`recordEntry`). The production and taka controllers are not part of this model.

# OS2datascanner core, modelled and proved in Dafny

OS2datascanner searches file shares, mailboxes and web sites for personal data.
Its most important rule looks for Danish CPR numbers: a birth date `ddmmyy`,
then a 7th digit that fixes the century, then three more digits. This project
models the logic that decides what such a match is worth, together with the
smaller state machines around the scanner:

- **`Cpr`** (`cpr.dfy`) covers the pure part of `cpr_probability.py`:
  - the century rule that turns `ddmmyy` and the 7th digit into a birth date;
  - the weighted modulus-11 checksum and its exception dates;
  - the form validator with its ordered error messages;
  - the table of legal 7th digits per birth year.
- **`CprCalculator`** (`cpr_calculator.dfy`) covers `CprProbabilityCalculator`:
  - the nested loops that list every legal CPR of a date, with the per-date cache;
  - the probability ladder that `cpr_check` reads off a CPR's position in that list.
- **`CprBins`** (`cpr_bins.dfy`) covers `cpr_bin_check`. It cuts the positions of
  the matches into bins and keeps the CPRs of bins that are dense enough and
  have a dense neighbour. The bins are held in two arrays updated in place.
- **`Backoff`** (`backoff.dfy`) models the retriers of `backoff.py`: the plain, counting, sleeping
  and exponential-backoff ones. There is one `Retrier` class with an attempt
  counter and a record of the delays it slept. The class also holds the
  `requires_k_attempts` test operation.
- **`BackgroundJobs`** (`background_jobs.dfy`) models the job runner of `run_background_jobs.py`. It claims
  the first waiting job and runs it. It then settles the job as finished, failed
  or cancelled, counting completions and failures.
- **`LdapSync`** (`ldap_sync.dfy`) models the rule for when a
  realm gets a new LDAP import job.
- **`StatusCollector`** (`status_collector.dfy`) folds explorer and worker status
  messages into a scan's counters.
- **`MsGraph`** (`msgraph.dfy`) covers three things from the Graph utilities:
  - the "refresh the token and retry once on 401" policy of `GraphCaller`;
  - paginated reads;
  - `MailFSBuilder`, which builds the folder map with an explicit LIFO stack,
    and `build_path`, which rebuilds a folder's path by following parent ids.
- **`Smbc`** (`smbc.dfy`) covers the SMB source:
  - credentials defaults, censoring and the JSON round trip;
  - Windows and `file:` presentation of a handle;
  - the read-only `_SMBCFile` wrapper with its buffer copy and close discipline.
- **`Wrappers`** (`wrappers.dfy`) holds `Option` and `Result`.

`get_birth_date` is modelled twice. `GetBirthDateAsWritten` reads a 7th digit 9
with yy = 37 as 2037, as the code does; `GetBirthDate` reads it as 1937, as the
CPR office's table does (see "## Findings"). `cpr_check` and the form validator
are modelled as written. The century-rule, checksum and plausibility lemmas are
stated for the corrected reading, and `CutoffsAgree` shows that the two differ
on that one case only.

Python exceptions are modelled as `Result`/`Option` error values. HTTP
answers, the clock, `compute_domain` and the row test `finished` are
parameters. Imperative code keeps its form:

- `_calc_all_cprs`, `cpr_bin_check`, `Retrier.run`, the job loop, the LDAP loop,
  the status receiver, the `GraphCaller` and `MailFSBuilder` methods and
  `_SMBCFile` are methods over class fields and arrays.
- Each of these methods is proved to meet a specification: a function it is proved equal to; for `Retrier.run`, the `RunsAs` relation, whose results are unique; for `close`, `write` and `truncate` of `_SMBCFile`, a contract that states the result and the new state outright.
- The source's default arguments are the parameters' defaults: `num_bins=40, cutoff=0.15`, `mod11_check=True`, `do_mod11_check=True`, `base=1, ceiling=7` and `max_tries=10`.
- The properties are proved as lemmas about those functions.

## Model

Paths are relative to the repository root.

| member | source | states |
|---|---|---|
| Cpr.DaysInMonth | src/os2datascanner/engine2/rules/utilities/cpr_probability.py:73 | every month has between 28 and 31 days, which bounds the day `date(...)` accepts |
| Cpr.ParseDecimal | src/os2datascanner/engine2/rules/utilities/cpr_probability.py:48-50 | `int` of a slice succeeds exactly when the slice is non-empty and all digits |
| Cpr.ParsePad2 | src/os2datascanner/engine2/rules/utilities/cpr_probability.py:249-253 | parsing the two-digit rendering of n < 100 gives n back |
| Cpr.ParsePad3 | src/os2datascanner/engine2/rules/utilities/cpr_probability.py:252 | parsing `str(i).zfill(3)` gives i back for i < 1000 |
| Cpr.Pad2Parse | src/os2datascanner/engine2/rules/utilities/cpr_probability.py:48-50 | every two-digit string is the rendering of the number it parses to |
| Cpr.Pad3Parse | src/os2datascanner/engine2/rules/utilities/cpr_probability.py:252 | every three-digit string is the zero-padded rendering of its value |
| Cpr.CenturyRule | src/os2datascanner/engine2/rules/utilities/cpr_probability.py:55-71 | with the corrected cut-off, the year chosen for a 7th digit and yy lies in that digit's window, ends in yy, and is the only year of the window that does |
| Cpr.GetBirthDateAsWritten | src/os2datascanner/engine2/rules/utilities/cpr_probability.py:43-73 | as written, a date read is a valid date, `strftime("%d%m%y")` of it gives back the first six characters, and it lies in the window of the 7th digit, except 2037 for a 9 |
| Cpr.GetBirthDate | src/os2datascanner/engine2/rules/utilities/cpr_probability.py:43-73 | with the corrected digit-9 cut-off, a date read is a valid date, gives back the first six characters, and always lies in the window of the 7th digit |
| Cpr.AsWrittenNineLeavesWindow | src/os2datascanner/engine2/rules/utilities/cpr_probability.py:67-71 | as written, digit 9 with yy = 37 gives 2037, outside the 1937-2036 window; "0101379000" is dated 2037-01-01 as written and 1937-01-01 when corrected |
| Cpr.BirthDateRoundTrip | src/os2datascanner/engine2/rules/utilities/cpr_probability.py:43-73 | the CPR built from a valid date, a digit whose window holds the year, and any serial parses back to that date |
| Cpr.ParsedCprRoundTrip | src/os2datascanner/engine2/rules/utilities/cpr_probability.py:43-73 | a 10-digit CPR with a valid date lies in its digit's window and is exactly the CPR rebuilt from its date, 7th digit and serial |
| Cpr.WeightedSumDefined | src/os2datascanner/engine2/rules/utilities/cpr_probability.py:101-107 | the checksum is defined exactly when the characters paired by `zip` with a weight are digits; longer tails are never read |
| Cpr.Mod11Raw | src/os2datascanner/engine2/rules/utilities/cpr_probability.py:101-107 | the raw check answers exactly when each of the first ten characters (all of them, if fewer) is a digit; otherwise `int(c)` raises |
| Cpr.WeightedSumSnoc | src/os2datascanner/engine2/rules/utilities/cpr_probability.py:101-107 | appending a digit within the weight table adds digit × its weight to the sum |
| Cpr.CheckDigitUnique | src/os2datascanner/engine2/rules/utilities/cpr_probability.py:101-107 | two 10-digit strings sharing the first nine digits that both pass the raw checksum are equal: the check digit is unique |
| Cpr.Mod11Check | src/os2datascanner/engine2/rules/utilities/cpr_probability.py:79-98 | dating the CPR with `get_birth_date` as written: an unparsable date or a string shorter than 7 gives (False, "malformed birth_date"); an exception date gives (True, "in exception_date"); otherwise the raw checksum with "due to modulus11"; the corrected reading gives the same verdicts, and it never passes with a bad date |
| Cpr.FormValidator | src/os2datascanner/engine2/rules/utilities/cpr_probability.py:193-213 | "" exactly for 10 digits with a date `get_birth_date` accepts (as written, and equally with the corrected cut-off); otherwise too short, too long, non-digit and illegal date, in that order |
| Cpr.CutoffsAgree | src/os2datascanner/engine2/rules/utilities/cpr_probability.py:55-73 | the as-written and the corrected `get_birth_date` accept the same strings and read the same date, except a 7th digit 9 with yy = 37: 1937 against 2037, neither an exception date |
| Cpr.Legal7sAreWindows | src/os2datascanner/engine2/rules/utilities/cpr_probability.py:216-233 | a digit is legal for a year exactly when the year is in that digit's window; the list is empty exactly outside 1858-2057 |
| Cpr.Legal7s | src/os2datascanner/engine2/rules/utilities/cpr_probability.py:216-233 | every digit listed for a year is a decimal digit (which digits, `Legal7sAreWindows` states) |
| Cpr.OwnDigitIsLegal | src/os2datascanner/engine2/rules/utilities/cpr_probability.py:216-233 | every formally valid CPR's own 7th digit is among the legal digits of its birth year |
| Cpr.OwnDigitIsLegalAsWritten | src/os2datascanner/engine2/rules/utilities/cpr_probability.py:43-73 | with `get_birth_date` as written, a formally valid CPR's own 7th digit is legal for its year except for a 9 read as 2037, whose digit is not legal for that year |
| CprCalculator.SerialRunUnfiltered | src/os2datascanner/engine2/rules/utilities/cpr_probability.py:248-259 | without the check the inner loop yields the serials 000 to n-1 in order, one CPR each |
| CprCalculator.SerialRunFiltered | src/os2datascanner/engine2/rules/utilities/cpr_probability.py:254-257 | with the check the inner loop yields the unchecked run with the failing candidates struck out |
| CprCalculator.EnumerationLayout | src/os2datascanner/engine2/rules/utilities/cpr_probability.py:246-259 | without the check the list has exactly 1000 entries per legal digit, and entry 1000·j + i is digit j with serial i |
| CprCalculator.EnumerationFiltered | src/os2datascanner/engine2/rules/utilities/cpr_probability.py:246-259 | the checked list is the unchecked list filtered by the raw checksum, order kept |
| CprCalculator.EnumerationMembers | src/os2datascanner/engine2/rules/utilities/cpr_probability.py:246-259 | a string is listed exactly when it is the date's CPR for some legal digit and serial below 1000 and is kept by the check |
| CprCalculator.SerialRunMembers | src/os2datascanner/engine2/rules/utilities/cpr_probability.py:248-259 | the same membership statement for one digit's run of serials |
| CprCalculator.AllEntriesPassMod11 | src/os2datascanner/engine2/rules/utilities/cpr_probability.py:254-257 | with the check on, every listed CPR passes the raw checksum |
| CprCalculator.PassingMod11Append | src/os2datascanner/engine2/rules/utilities/cpr_probability.py:247-257 | filtering distributes over concatenation, so the digit loops can be filtered one by one |
| CprCalculator.PassingMod11Shrinks | src/os2datascanner/engine2/rules/utilities/cpr_probability.py:254-257 | the modulus-11 filter never lengthens the list |
| CprCalculator.AllCprs | src/os2datascanner/engine2/rules/utilities/cpr_probability.py:235-262 | `_calc_all_cprs` lists at most 1000 CPRs per legal 7th digit, and exactly that many without the check (its contents: `EnumerationMembers`) |
| CprCalculator.LadderDescends | src/os2datascanner/engine2/rules/utilities/cpr_probability.py:312-321 | a later index never gets a higher probability, and every probability is one of 1.0, 0.8, 0.6, 0.25, 0.1 |
| CprCalculator.Ladder | src/os2datascanner/engine2/rules/utilities/cpr_probability.py:312-321 | the probability lies between 0.1 and 1.0; it is 1.0 exactly for indices up to 100 and 0.1 exactly beyond 350 |
| CprCalculator.CheckAgainst | src/os2datascanner/engine2/rules/utilities/cpr_probability.py:289-321 | a precheck verdict is returned as it is; otherwise "CPR is not a legal value" exactly when the CPR is not listed, and else the ladder's probability at the CPR's first position in the list |
| CprCalculator.IndexOf | src/os2datascanner/engine2/rules/utilities/cpr_probability.py:307-310 | `list.index` returns the first position of the CPR, and fails exactly when it is absent |
| CprCalculator.Precheck | src/os2datascanner/engine2/rules/utilities/cpr_probability.py:289-304 | with the birth date read as written or with the corrected cut-off: a form error is returned as is; then "CPR newer than today", then 0.5 for an exception date, then "Modulus 11 does not match"; no verdict means the list decides |
| CprCalculator.PlausibleCprIsListed | src/os2datascanner/engine2/rules/utilities/cpr_probability.py:306-321 | with the corrected cut-off, a CPR that passes every precheck is always found in its date's list made with the same flag, so it gets a ladder probability and never "CPR is not a legal value" |
| CprCalculator.StaleCacheRejects | src/os2datascanner/engine2/rules/utilities/cpr_probability.py:241-243 | under either cut-off, a list cached with the check on makes a later unchecked call reject a CPR that fails the checksum, although it passes every precheck |
| CprCalculator.AsWrittenAgreesElsewhere | src/os2datascanner/engine2/rules/utilities/cpr_probability.py:289-321 | wherever the two cut-offs read the same date, `cpr_check` as written and corrected give the same precheck and the same answer |
| CprCalculator.UnlistedDigit | src/os2datascanner/engine2/rules/utilities/cpr_probability.py:244-259 | a CPR whose 7th digit is not legal for the date's year is never in that date's list |
| CprCalculator.AsWrittenRejectsNine37 | src/os2datascanner/engine2/rules/utilities/cpr_probability.py:289-321 | as written, a CPR with 7th digit 9 read as a 2037 date that passes every precheck gets "CPR is not a legal value" from its own date's list; corrected, it is dated 1937 and gets a ladder probability |
| CprCalculator.NineThirtySevenWitness | src/os2datascanner/engine2/rules/utilities/cpr_probability.py:289-304 | `010137 9 000` passes every precheck as written from 2037-01-01 on, read as a 2037 date, and is "CPR newer than today" before that |
| CprCalculator.NineThirtySevenDates | src/os2datascanner/engine2/rules/utilities/cpr_probability.py:43-73 | `010137 9 000` is well formed, dated 2037-01-01 as written and 1937-01-01 corrected |
| CprCalculator.NineThirtySevenChecksum | src/os2datascanner/engine2/rules/utilities/cpr_probability.py:101-107 | `010137 9 000` passes the raw modulus-11 check |
| CprCalculator.WeightedSumOfTen | src/os2datascanner/engine2/rules/utilities/cpr_probability.py:101-107 | the checksum of ten digits is the sum of each digit times its weight |
| CprCalculator.WeightedSumOfFive | src/os2datascanner/engine2/rules/utilities/cpr_probability.py:101-107 | five steps of the checksum add each digit times its weight to the sum of the rest |
| CprCalculator.WeightedSumCons | src/os2datascanner/engine2/rules/utilities/cpr_probability.py:101-107 | one step of the checksum adds the digit times its weight to the sum of the rest |
| CprCalculator.SerialRunStep | src/os2datascanner/engine2/rules/utilities/cpr_probability.py:254-259 | one candidate appended or skipped extends the accumulated list by exactly one serial of the run |
| CprCalculator.EnumerateLegalCprs | src/os2datascanner/engine2/rules/utilities/cpr_probability.py:244-259 | the nested loops build exactly the specified enumeration of the date |
| CprCalculator.AppendSerials | src/os2datascanner/engine2/rules/utilities/cpr_probability.py:248-259 | the inner loop appends exactly the kept candidates of one 7th digit, serials 000 to 999 in order |
| CprCalculator.ProbabilityCalculator.constructor | src/os2datascanner/engine2/rules/utilities/cpr_probability.py:188-190 | the cache starts empty |
| CprCalculator.ProbabilityCalculator.CalcAllCprs | src/os2datascanner/engine2/rules/utilities/cpr_probability.py:235-262 | a cached date returns its cached list whatever the flag; otherwise the fresh enumeration is returned and stored; the cache keeps holding only enumerations |
| CprCalculator.ProbabilityCalculator.CprCheck | src/os2datascanner/engine2/rules/utilities/cpr_probability.py:264-321 | with `get_birth_date` as written (digit 9 with yy = 37 read as 2037): the precheck verdict, or the ladder probability of the CPR's index in the (possibly cached) list, or "CPR is not a legal value"; the cache is untouched when a precheck decides, and otherwise holds the date's list afterwards |
| CprBins.CeilDiv | src/os2datascanner/engine2/rules/utilities/cpr_probability.py:134 | `ceil(a / b)` is the least q with a ≤ q·b |
| CprBins.InBinIsRun | src/os2datascanner/engine2/rules/utilities/cpr_probability.py:118-126 | `elements_in_bin` returns the maximal run from `start` of elements starting before the bin end |
| CprBins.BinIsSlice | src/os2datascanner/engine2/rules/utilities/cpr_probability.py:141-152 | each bin's CPRs are the slice of `cprs` between the cursors before and after the bin |
| CprBins.ConcatBins | src/os2datascanner/engine2/rules/utilities/cpr_probability.py:141-152 | the bins 1..k laid end to end are the prefix of `cprs` the cursor has passed |
| CprBins.GatherIsSubsequence | src/os2datascanner/engine2/rules/utilities/cpr_probability.py:168-170 | gathering the accepted bins gives a subsequence of all bins laid end to end |
| CprBins.BinFilter | src/os2datascanner/engine2/rules/utilities/cpr_probability.py:128-170 | what `cpr_bin_check` returns, the CPRs of the kept bins in bin order, is always an order-preserving subsequence of `cprs`, and empty when there are no numbers or no CPRs |
| CprBins.BinStep | src/os2datascanner/engine2/rules/utilities/cpr_probability.py:143-156 | one bin iteration advances both cursors past exactly that bin and computes its ratio test |
| CprBins.KeptFromTable | src/os2datascanner/engine2/rules/utilities/cpr_probability.py:154-166 | the neighbour rule on the table of ratio tests is the specified keep rule: own test passes and an adjacent bin in 1..num_bins passes, or there is only one bin |
| CprBins.FinaliseStep | src/os2datascanner/engine2/rules/utilities/cpr_probability.py:158-161 | the in-place update of `bin_accepted[bin_ind-1]` leaves that bin's final keep flag |
| CprBins.FinaliseLast | src/os2datascanner/engine2/rules/utilities/cpr_probability.py:163-166 | the update after the loop leaves the last bin's final keep flag, with the single-bin exception |
| CprBins.ElementsInBin | src/os2datascanner/engine2/rules/utilities/cpr_probability.py:118-126 | the while loop returns the specified run of elements |
| CprBins.ScanBin | src/os2datascanner/engine2/rules/utilities/cpr_probability.py:141-161 | one loop body stores the bin's CPRs, records its ratio test, settles the previous bin's flag, and changes no other slot |
| CprBins.ScanBins | src/os2datascanner/engine2/rules/utilities/cpr_probability.py:138-161 | after the bin loop every bin's CPRs are stored, every flag but the last equals "kept", and the last holds its own ratio test |
| CprBins.FinaliseLastBin | src/os2datascanner/engine2/rules/utilities/cpr_probability.py:163-166 | settling the last flag makes every flag "kept" and the storage the bins |
| CprBins.GatherAccepted | src/os2datascanner/engine2/rules/utilities/cpr_probability.py:168-170 | the chain over accepted bins is the specified gather |
| CprBins.CprBinCheck | src/os2datascanner/engine2/rules/utilities/cpr_probability.py:110-170 | the result is the CPRs of the kept bins in order, and [] when either list is empty |
| Backoff.Pow2Monotone | src/os2datascanner/engine2/utilities/backoff.py:112 | `2 ** n` never shrinks as n grows |
| Backoff.Delay | src/os2datascanner/engine2/utilities/backoff.py:111-117 | no delay before the first failure or with ceiling 0; for a non-negative base the delay is non-negative, and at least the base once a failure is counted |
| Backoff.DelayMonotone | src/os2datascanner/engine2/utilities/backoff.py:111-117 | the delay is nondecreasing in the number of failures |
| Backoff.DelayCapped | src/os2datascanner/engine2/utilities/backoff.py:111-117 | the delay never exceeds base·(2^ceiling − 1), and equals it from the ceiling on |
| Backoff.DelayGrowth | src/os2datascanner/engine2/utilities/backoff.py:111-117 | the first delay is base, and each further one below the ceiling is twice the previous plus base |
| Backoff.Schedule | src/os2datascanner/engine2/utilities/backoff.py:94-101 | the i-th sleep of a sleeping retrier is the delay after i+1 failures; plain and counting retriers never sleep |
| Backoff.RunsAsUnique | src/os2datascanner/engine2/utilities/backoff.py:45-53 | the description of a run determines its result and its number of calls |
| Backoff.UnlimitedNeverGivesUp | src/os2datascanner/engine2/utilities/backoff.py:72 | with `max_tries=None` the run ends at the first settling call, and no transient error escapes |
| Backoff.PermanentErrorStops | src/os2datascanner/engine2/utilities/backoff.py:48-53 | an error outside `exception_set` propagates from the very call that raised it |
| Backoff.Retrier.constructor | src/os2datascanner/engine2/utilities/backoff.py:14-15 | a new retrier has counted no tries and slept nothing |
| Backoff.Retrier.BeforeRetry | src/os2datascanner/engine2/utilities/backoff.py:74-101 | a counting retrier counts the failure; a sleeping one sleeps the computed delay only when another attempt will follow |
| Backoff.Retrier.Run | src/os2datascanner/engine2/utilities/backoff.py:38-53 | the run returns the first value, re-raises a permanent error or the last transient one when the tries are used up, and makes no call and returns None for `max_tries <= 0`; it resets the counter and sleeps once fewer than it calls after failures |
| Backoff.KAttempts.Call | src/os2datascanner/engine2/utilities/backoff.py:135-143 | the closure raises while its counter is at most k, returns (p+q)·scale_factor after that, and counts every call |
| Backoff.KAttemptsRun | src/os2datascanner/engine2/utilities/backoff.py:130-144 | under a counting retrier the operation from `requires_k_attempts(k)` succeeds exactly when `max_tries >= k+2`, after min(max_tries, k+2) calls: it fails k+1 times |
| BackgroundJobs.FirstWaiting | src/os2datascanner/projects/admin/core/management/commands/run_background_jobs.py:73-78 | the claimed job is the first waiting one, and none is claimed exactly when no job waits |
| BackgroundJobs.FinallyState | src/os2datascanner/projects/admin/core/management/commands/run_background_jobs.py:136-152 | the `finally` always leaves a terminal state; cancelling becomes cancelled, failed and cancelled stay, finished stays finished, and any other state becomes finished |
| BackgroundJobs.Settle | src/os2datascanner/projects/admin/core/management/commands/run_background_jobs.py:112-152 | a job cancelled or complete is skipped and ends cancelled or finished; a normal run counts one completion, an Exception one failure and ends failed, a KeyboardInterrupt ends cancelled; a run that returns ends in what the `finally` makes of the state it left; the end state is always terminal |
| BackgroundJobs.Step | src/os2datascanner/projects/admin/core/management/commands/run_background_jobs.py:61-159 | the single-mode loop stops after an iteration exactly when no job was found or the job found was not skipped by the `continue` |
| BackgroundJobs.Loop | src/os2datascanner/projects/admin/core/management/commands/run_background_jobs.py:61-159 | the loop keeps the job table's size, stops by itself only in single mode, and sleeps at most once per iteration |
| BackgroundJobs.StepSettlesOne | src/os2datascanner/projects/admin/core/management/commands/run_background_jobs.py:85-152 | an iteration changes only the first waiting job, leaving it terminal, and each counted completion or failure uses up one waiting job |
| BackgroundJobs.LoopSettlesWaitingJobs | src/os2datascanner/projects/admin/core/management/commands/run_background_jobs.py:61-159 | the runner only ever changes waiting jobs and leaves each one finished, failed or cancelled |
| BackgroundJobs.LoopCounters | src/os2datascanner/projects/admin/core/management/commands/run_background_jobs.py:116-129 | the counters never go down, and completions plus failures never exceed the waiting jobs used up |
| BackgroundJobs.SingleRunsAtMostOneJob | src/os2datascanner/projects/admin/core/management/commands/run_background_jobs.py:153-159 | in single mode the runner never sleeps and completes or fails at most one job |
| BackgroundJobs.IdleLoopSleeps | src/os2datascanner/projects/admin/core/management/commands/run_background_jobs.py:153-156 | with no waiting job a looping runner sleeps once per iteration and changes nothing else |
| BackgroundJobs.FirstWaitingIs | src/os2datascanner/projects/admin/core/management/commands/run_background_jobs.py:73-78 | a waiting job with no waiting job before it is the one the query returns |
| BackgroundJobs.Runner.constructor | src/os2datascanner/projects/admin/core/management/commands/run_background_jobs.py:58-59 | the runner starts on the given job table without having slept |
| BackgroundJobs.Runner.ClaimFirstWaiting | src/os2datascanner/projects/admin/core/management/commands/run_background_jobs.py:73-94 | the first waiting job, if any, is claimed and set to running before any work is done; nothing else changes |
| BackgroundJobs.Runner.RunClaimed | src/os2datascanner/projects/admin/core/management/commands/run_background_jobs.py:112-152 | the try/except/finally leaves the job in the state `Settle` gives and returns its counts; no other job changes |
| BackgroundJobs.Runner.Handle | src/os2datascanner/projects/admin/core/management/commands/run_background_jobs.py:49-162 | the loop ends with the jobs, counters and sleeps of the specified loop |
| BackgroundJobs.Runner.Iteration | src/os2datascanner/projects/admin/core/management/commands/run_background_jobs.py:60-159 | one pass of the loop is the specified step: the first waiting job settled, or a sleep outside single mode, and single mode stops unless the job was skipped |
| LdapSync.Sync | src/os2datascanner/projects/admin/adminapp/management/commands/sync_ldap_configurations.py:31-43 | no realm is added or removed; a 404 names a configuration without a realm; a completed run means every configuration has one |
| LdapSync.MayCreate | src/os2datascanner/projects/admin/adminapp/management/commands/sync_ldap_configurations.py:35-39 | a new import job may be created exactly when the realm has none or its latest is finished, failed or cancelled, and never when the latest is waiting, running or cancelling |
| LdapSync.SyncEffect | src/os2datascanner/projects/admin/adminapp/management/commands/sync_ldap_configurations.py:32-43 | each configured realm with no job or a finished, failed or cancelled latest job gets exactly one new waiting job, and every other realm is unchanged |
| LdapSync.SyncIdempotent | src/os2datascanner/projects/admin/adminapp/management/commands/sync_ldap_configurations.py:35-43 | a second run straight after a successful one creates nothing |
| LdapSync.NoJobBesideActive | src/os2datascanner/projects/admin/adminapp/management/commands/sync_ldap_configurations.py:36-39 | a realm whose latest job is waiting, running or cancelling never gets a new job |
| LdapSync.SyncStopsAtMissingRealm | src/os2datascanner/projects/admin/adminapp/management/commands/sync_ldap_configurations.py:33 | the first missing realm ends the command: the configurations before it are handled, the rest are not |
| LdapSync.ImportJobs.constructor | src/os2datascanner/projects/admin/adminapp/management/commands/sync_ldap_configurations.py:31 | the job table starts as given |
| LdapSync.ImportJobs.Handle | src/os2datascanner/projects/admin/adminapp/management/commands/sync_ldap_configurations.py:31-43 | the loop leaves the realms and the 404 of the specified run |
| StatusCollector.Apply | src/os2datascanner/projects/admin/adminapp/management/commands/status_collector.py:46-63 | an explorer message adds `total_objects`, `new_sources or 0` and one explored source; a worker message adds its size and one scanned object; each branch leaves the other's counters alone; a message in neither branch changes nothing |
| StatusCollector.ApplyAll | src/os2datascanner/projects/admin/adminapp/management/commands/status_collector.py:46-63 | over a run of messages no counter goes down, and a run of messages from neither explorers nor workers leaves the row as it was |
| StatusCollector.ApplyAllCounts | src/os2datascanner/projects/admin/adminapp/management/commands/status_collector.py:46-63 | over a run of messages, explored sources count the explorer messages, scanned objects count the worker messages, and no counter goes down |
| StatusCollector.ApplyCommutes | src/os2datascanner/projects/admin/adminapp/management/commands/status_collector.py:46-63 | the counters do not depend on the order in which two messages arrive |
| StatusCollector.StatusTable.constructor | src/os2datascanner/projects/admin/adminapp/management/commands/status_collector.py:25 | the table starts with the given rows and scanners and no last-run times |
| StatusCollector.StatusTable.Receive | src/os2datascanner/projects/admin/adminapp/management/commands/status_collector.py:25-95 | a message for a deleted scanner or a missing row changes nothing; otherwise the row is updated, and a finished row stamps the scanner's last run time with its `last_modified` |
| MsGraph.Attempt | src/os2datascanner/engine2/model/msgraph/utilities.py:72-89 | a request makes one raw call, or two when the first answer is 401 and this is not the retry; the second uses a freshly issued token |
| MsGraph.SingleRetryOn401 | src/os2datascanner/engine2/model/msgraph/utilities.py:81-89 | a 401 that escapes came from both calls; another error escapes after one call; a request succeeds exactly when the first call succeeded or was a 401 followed by a success |
| MsGraph.IgnoreResponses | src/os2datascanner/engine2/model/msgraph/utilities.py:140-148 | an HTTP error is swallowed exactly when its status is listed; any other is re-raised unchanged |
| MsGraph.Censor | src/os2datascanner/engine2/model/msgraph/utilities.py:39-40 | censoring keeps the client and tenant ids and drops the secret |
| MsGraph.CensorIdempotent | src/os2datascanner/engine2/model/msgraph/utilities.py:39-40 | censoring twice is censoring once |
| MsGraph.GraphCaller.constructor | src/os2datascanner/engine2/model/msgraph/utilities.py:54-58 | a new caller holds its first token and has made no request |
| MsGraph.GraphCaller.RefreshToken | src/os2datascanner/engine2/model/msgraph/utilities.py:88 | the token is replaced by a newly issued one |
| MsGraph.GraphCaller.Get | src/os2datascanner/engine2/model/msgraph/utilities.py:72-89 | `get` follows the retry policy: its calls, token and answer are those of `Attempt` |
| MsGraph.GraphCaller.Head | src/os2datascanner/engine2/model/msgraph/utilities.py:107-117 | `head` follows the same retry policy |
| MsGraph.GraphCaller.FollowNextLink | src/os2datascanner/engine2/model/msgraph/utilities.py:119-129 | `follow_next_link` follows the same retry policy on the absolute link |
| MsGraph.GraphCaller.PaginatedGet | src/os2datascanner/engine2/model/msgraph/utilities.py:91-99 | the items yielded, the status raised, the token state after and the requests sent are those of fetching each page in turn under the retry policy, stopping at the first page whose answer is an error; so the items are a prefix of every page's values, all of them without an error, and only an HTTP failure is raised |
| MsGraph.GraphCaller.FollowPages | src/os2datascanner/engine2/model/msgraph/utilities.py:95-99 | the `while` loop follows the next links from a fetched page exactly as the chain of fetches after that page does |
| MsGraph.Paginate | src/os2datascanner/engine2/model/msgraph/utilities.py:91-99 | a paginated GET sends at least one request, only adds tokens, raises only an HTTP error, and yields nothing and raises the status when the first answer is an error other than 401 |
| MsGraph.FollowFrom | src/os2datascanner/engine2/model/msgraph/utilities.py:97-99 | the `while` loop sends no request exactly when the page has no next link, and then yields and raises nothing |
| MsGraph.PaginatePrefix | src/os2datascanner/engine2/model/msgraph/utilities.py:91-99 | what a paginated GET yields is a prefix of the items of all pages, all of them when nothing is raised, and only an HTTP failure is raised |
| MsGraph.PaginateWithoutErrors | src/os2datascanner/engine2/model/msgraph/utilities.py:91-99 | against a service that answers no request with an error, every item is yielded, the token is never refreshed and one request is sent per page |
| MsGraph.RecordKeys | src/os2datascanner/engine2/model/msgraph/utilities.py:179-185 | after recording, the folder map's keys are the old keys plus every recorded folder's id |
| MsGraph.RecordLastWins | src/os2datascanner/engine2/model/msgraph/utilities.py:185 | a folder id maps to the last folder recorded under it |
| MsGraph.RecordUnlisted | src/os2datascanner/engine2/model/msgraph/utilities.py:185 | ids not among the recorded folders keep their entries |
| MsGraph.RecordAppend | src/os2datascanner/engine2/model/msgraph/utilities.py:179-192 | recording two pages is recording the first, then the second |
| MsGraph.WithChildrenMembers | src/os2datascanner/engine2/model/msgraph/utilities.py:187-188 | exactly the folders with children are pushed |
| MsGraph.WithChildrenAppend | src/os2datascanner/engine2/model/msgraph/utilities.py:187-192 | pushing over two pages pushes the first page's folders, then the second's |
| MsGraph.Process | src/os2datascanner/engine2/model/msgraph/utilities.py:178-194 | `_process_result` only advances the token state and the request count, keeps an error once raised, and raises only HTTP errors |
| MsGraph.PopAndFetch | src/os2datascanner/engine2/model/msgraph/utilities.py:196-205 | each pop sends at least one request and raises only HTTP errors |
| MsGraph.Crawl | src/os2datascanner/engine2/model/msgraph/utilities.py:196-208 | the walk sends a request per pop, only advances the token state, and stops early on nothing but an HTTP error |
| MsGraph.ProcessExtendsStack | src/os2datascanner/engine2/model/msgraph/utilities.py:178-194 | `_process_result` only pushes; the old stack stays underneath |
| MsGraph.ProcessRecordsEveryFolder | src/os2datascanner/engine2/model/msgraph/utilities.py:178-194 | without an error every folder of every page is recorded by id, later ones winning, and exactly those with children are pushed, in page order |
| MsGraph.ProcessGrowsMap | src/os2datascanner/engine2/model/msgraph/utilities.py:178-194 | processing never removes a folder from the map |
| MsGraph.Visits | src/os2datascanner/engine2/model/msgraph/utilities.py:196-208 | the first folder crawled is the top of the stack: the most recently pushed one |
| MsGraph.PopKeepsRest | src/os2datascanner/engine2/model/msgraph/utilities.py:196-205 | a pop takes only the top; every folder below stays on the stack |
| MsGraph.PopExtendsRest | src/os2datascanner/engine2/model/msgraph/utilities.py:196-205 | a pop without an error leaves the folders below the top as the bottom of the stack |
| MsGraph.CrawlVisitsEveryPushedFolder | src/os2datascanner/engine2/model/msgraph/utilities.py:196-208 | a crawl that empties the stack without an error requests the child folders of every folder that was on it |
| MsGraph.CrawlGrowsMap | src/os2datascanner/engine2/model/msgraph/utilities.py:196-208 | crawling never removes a folder from the map |
| MsGraph.BuildMapsTopFolders | src/os2datascanner/engine2/model/msgraph/utilities.py:161-176 | a build without an error ends with an empty stack and every top-level folder in the map |
| MsGraph.BuildSpec | src/os2datascanner/engine2/model/msgraph/utilities.py:161-176 | `build_mail_fs_map` sends at least one request and raises only HTTP errors; a top-level request that fails with anything but 401 raises it and leaves the map and the stack as they were |
| MsGraph.MailFSBuilder.constructor | src/os2datascanner/engine2/model/msgraph/utilities.py:154-158 | the builder starts with an empty map and stack |
| MsGraph.MailFSBuilder.ProcessResult | src/os2datascanner/engine2/model/msgraph/utilities.py:178-194 | the loop and the recursion on the next link leave the map, stack and caller exactly as specified |
| MsGraph.MailFSBuilder.RecordPage | src/os2datascanner/engine2/model/msgraph/utilities.py:179-188 | the loop over a page records every folder by id and pushes those with children, in page order |
| MsGraph.MailFSBuilder.PopAndProcess | src/os2datascanner/engine2/model/msgraph/utilities.py:196-205 | one pop requests the top folder's child folders and processes them as the specified pop |
| MsGraph.MailFSBuilder.RecurseChildFolders | src/os2datascanner/engine2/model/msgraph/utilities.py:196-208 | the LIFO pops leave the map, stack and caller of the specified crawl |
| MsGraph.MailFSBuilder.BuildMailFsMap | src/os2datascanner/engine2/model/msgraph/utilities.py:161-176 | the top-level request and the crawl leave the specified map |
| MsGraph.BuildPathCases | src/os2datascanner/engine2/model/msgraph/utilities.py:210-224 | an unknown id gives ""; a folder whose parent is unknown gives its name; otherwise the parent's path, "/" and its name; the path always ends with the name and does not depend on the depth bound |
| MsGraph.BuildPath | src/os2datascanner/engine2/model/msgraph/utilities.py:210-224 | an unknown id gives ""; a known folder's path ends with its display name, and is longer than the name when its parent is known |
| MsGraph.SelfParentNeverReaches | src/os2datascanner/engine2/model/msgraph/utilities.py:214-222 | a folder that is its own parent never reaches a root, so `build_path` does not terminate on it |
| Smbc.NewSource | src/os2datascanner/engine2/model/smbc.py:21-27 | the constructor keeps its arguments and computes the domain from the UNC only when none is given |
| Smbc.OrElse | src/os2datascanner/engine2/model/smbc.py:40-41 | `x or default` gives the default for both None and "" |
| Smbc.AuthHandler | src/os2datascanner/engine2/model/smbc.py:37-41 | the triple is (domain or "WORKGROUP", user or "GUEST", password or ""), so the workgroup and user are never empty |
| Smbc.Censor | src/os2datascanner/engine2/model/smbc.py:50-51 | censoring keeps the UNC and the drive letter, clears user and password, and recomputes the domain |
| Smbc.JsonRoundTrip | src/os2datascanner/engine2/model/smbc.py:95-109 | reading back the JSON of a constructed source gives the same unc, user, password, domain and drive letter |
| Smbc.JsonFillsDomain | src/os2datascanner/engine2/model/smbc.py:95-109 | a source without a domain whose UNC yields one comes back from JSON with that domain |
| Smbc.ToJson | src/os2datascanner/engine2/model/smbc.py:95-102 | the object carries the type label "smbc" (its properties are those `JsonRoundTrip` reads back) |
| Smbc.FromJson | src/os2datascanner/engine2/model/smbc.py:104-109 | reading goes through the constructor: the source could have been constructed, keeps the UNC, user, password and drive letter, and keeps a stored domain |
| Smbc.Backslashed | src/os2datascanner/engine2/model/smbc.py:261 | `replace("/", "\\")` swaps every slash and keeps every other character |
| Smbc.WithSlash | src/os2datascanner/engine2/model/smbc.py:259-260 | a trailing "/" is added only when missing |
| Smbc.Presentation | src/os2datascanner/engine2/model/smbc.py:253-261 | the presentation fails (`p[-1]` on "") exactly when there is no drive letter and the UNC is empty, and otherwise never contains "/" |
| Smbc.PresentationWithDrive | src/os2datascanner/engine2/model/smbc.py:253-261 | with drive letter D the presentation is D + ":\" + the relative path with every "/" as "\" |
| Smbc.PresentationWithoutDrive | src/os2datascanner/engine2/model/smbc.py:253-261 | without a drive letter it is the UNC with a trailing separator, then the relative path, all "/" as "\"; an empty UNC raises IndexError |
| Smbc.PresentationHasNoSlash | src/os2datascanner/engine2/model/smbc.py:261 | a presentation never contains "/" |
| Smbc.BackslashedAppend | src/os2datascanner/engine2/model/smbc.py:261 | replacing slashes distributes over concatenation |
| Smbc.PresentationUrl | src/os2datascanner/engine2/model/smbc.py:263-281 | the URL is "file:" + the UNC + "/" (only if missing) + the relative path |
| Smbc.PresentationUrlIgnoresDrive | src/os2datascanner/engine2/model/smbc.py:271-276 | the drive letter never changes the URL |
| Smbc.CensorHandle | src/os2datascanner/engine2/model/smbc.py:283-284 | a censored handle keeps its relative path and carries the censored source |
| Smbc.CensorKeepsPresentation | src/os2datascanner/engine2/model/smbc.py:283-284 | censoring a handle changes neither its presentation nor its URL |
| Smbc.RemoteFile.Read | src/os2datascanner/engine2/model/smbc.py:117 | a remote read returns the next bytes from the position, at most n, and advances past them |
| Smbc.RemoteFile.Lseek | src/os2datascanner/engine2/model/smbc.py:126 | a remote seek moves to the computed target, or reports -1 and stays put |
| Smbc.ReadFrom | src/os2datascanner/engine2/model/smbc.py:117 | the bytes read are the content from the position on, at most n, and exactly n when that many remain |
| Smbc.SeekTarget | src/os2datascanner/engine2/model/smbc.py:125-130 | only whence 0, 1 or 2 can succeed; whence 0 goes to the offset and (0, 1) stays at the position |
| Smbc.SmbcFile.ReadInto | src/os2datascanner/engine2/model/smbc.py:116-120 | `count` bytes read are copied into the buffer's prefix, `count` is returned, and the rest of the buffer is unchanged; a closed file raises |
| Smbc.SmbcFile.Write | src/os2datascanner/engine2/model/smbc.py:122-123 | writing always raises |
| Smbc.SmbcFile.Truncate | src/os2datascanner/engine2/model/smbc.py:139-140 | truncating always raises |
| Smbc.SmbcFile.Seek | src/os2datascanner/engine2/model/smbc.py:125-130 | a seek returns the new position, or raises when the remote seek fails |
| Smbc.SmbcFile.Tell | src/os2datascanner/engine2/model/smbc.py:132-137 | `tell` is a seek by 0 from the current position: it returns the position and moves nothing |
| Smbc.SmbcFile.Close | src/os2datascanner/engine2/model/smbc.py:142-155 | after a close the file is gone even when the remote close raised; a second close does nothing |
| Smbc.Capabilities | src/os2datascanner/engine2/model/smbc.py:157-164 | the file is readable and seekable and not writable |

## Left out

- Cpr.FormValidator: `str.isdigit` also accepts non-ASCII digits. A 10-character string of Arabic-Indic digits with a valid date passes the source's form validator, and `cpr_check` then answers "CPR is not a legal value"; superscript digits give "Illegal date". The model answers "CPR can only contain digits" for both.
- Cpr.ParseDecimal: Python's `int` also accepts surrounding whitespace, a sign, underscores and non-ASCII digits. The model accepts ASCII digits only. For the 10-character all-digit strings that reach the enumeration this makes no difference.
- `date.today()` and the clock are a parameter (`today` in `Precheck`, `now` in `StatusCollector`). Python's dates become a `Date` datatype with a Gregorian validity predicate.
- The cache key of `_calc_all_cprs` is `str(birth_date)`. The model keys by the date itself, which is one to one with it.
- The probabilities and the `cpr_bin_check` cut-off are exact reals rather than floats.
- CprBins.CprBinCheck: requires `num_bins >= 1` unless `numbers` or `cprs` is empty, where the source returns `[]` before it divides and the model does too. With both lists non-empty, 0 bins divides by zero and a negative count raises IndexError; neither error is modelled. `Match` objects are reduced to their start and end positions.
- Backoff.Retrier.Run: for a retrier without an attempt limit, the operation must settle at some attempt. Otherwise the source loops for ever, which the model does not express.
- Backoff: exception classes are compared by identity, whereas `isinstance(ex, self._exception_set)` in `_test_exception` also matches subclasses; the model has no class hierarchy.
- Backoff: `sleep` is recorded as a list of delays and not performed. The `fuzz` argument has no effect because `_fuzz` is set to 0. `warn_after` only logs and is left out, as are structlog, `bind` and `requires_k_seconds`, which reads the clock.
- BackgroundJobs: SIGTERM is modelled as the iteration during which it arrives. Prometheus pushes, logging, `select_for_update` locking and the parallel runners are left out. The final `print` of the counts is the pair `Handle` returns.
- BackgroundJobs.Settle: a client's request to cancel is a flag on the job, read where the runner re-reads the job's state. What `job.run()` does is part of the job's description.
- LdapSync: `realm.importjob.first()` is taken to be the newest job, so a realm's jobs are stored newest first. The ordering of the ImportJob model is not part of this model. The ORM calls become a map from organisation key to job states, and `get_object_or_404` becomes a returned key.
- StatusCollector: the snapshot schedule (`math.log`, floats), the completion mail, the JSON decoding of the message and the row lock are left out. `finished` is a parameter, because the ScanStatus model is not part of this model.
- MsGraph: real HTTP, `WebRetrier`, `make_token` and the session headers are left out. A server is given as functions from request to status and from URL to page. The token is an issue number. The `json=False` raw-content variant of `get` is not modelled, and `to_json_object` and `_list_users` are left out.
- MsGraph.GraphCaller.PaginatedGet: the source is a generator. The model returns the items it yielded before an error, if any. It assumes the next-link chain ends, given as a ranking of URLs.
- MsGraph.MailFSBuilder.RecurseChildFolders: the crawl is bounded by a fuel argument. The method requires that the crawl ends within that bound, because termination depends on the server's folder tree. `recursion_stack` is a field of the builder rather than a local passed down the calls.
- MsGraph.MailFSBuilder.RecurseChildFolders and MsGraph.BuildPath: `_recurse_child_folders` and `_reverse_traverse` recurse once per folder, so a deep enough folder tree or parent chain raises Python's RecursionError. The model has no recursion depth limit.
- MsGraph.BuildPath: requires that the parent chain reaches a root within a depth bound. A cyclic parent chain makes the source recurse without end, which `SelfParentNeverReaches` exhibits.
- Smbc: the pysmbc calls are left out, and so are `handles`, `_generate_state`, `from_url`, `to_url`, `SMBCResource` and `compute_domain` (a parameter here). The remote file is a byte sequence with a position. The semantics of its `lseek` (whence 0/1/2 and a non-negative target) are an assumption, because pysmbc is not part of this model.
- The JavaScript front end, Django views, models, migrations and admin files are left out. So are the pipeline and CLI plumbing, the tar/zip/filesystem wrappers and the test files: they are UI, declarative or thin wrappers over code not part of this model.

## Findings

| source | as written | input that shows it | evidently intended | confidence | as-written member | corrected member |
|---|---|---|---|---|---|---|
| src/os2datascanner/engine2/rules/utilities/cpr_probability.py:67-71 | with 7th digit 9, `yy > 37` gives 1900+yy, so yy = 37 gives 2037 | "0101379000" is dated 2037-01-01, a year whose legal 7th digits (5-8) exclude 9; `_legal_7s` and the CPR office's table put digit 9 with yy = 37 in 1937 | `yy > 36`, as for the digit 4 | not executed | Cpr.AsWrittenNineLeavesWindow | Cpr.CenturyRule |
| src/os2datascanner/engine2/rules/utilities/cpr_probability.py:289-310 | `cpr_check` dates the CPR with that `get_birth_date`, then looks it up in the date's list, whose 7th digits come from `_legal_7s` | "0101379000", passing every precheck, from 2037-01-01 on: the list for 2037-01-01 holds 7th digits 5-8 only, so the answer is "CPR is not a legal value"; before that day it is "CPR newer than today" | the CPR is dated 1937-01-01 and gets a ladder probability | not executed | CprCalculator.AsWrittenRejectsNine37 | CprCalculator.PlausibleCprIsListed |

The docstring of `Testing.requires_k_attempts` says the operation raises k−1
times; the code raises k+1 times. `Backoff.KAttemptsRun` proves the behaviour
as written.

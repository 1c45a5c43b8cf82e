# xrfi mask model

A Dafny model of the flag-mask logic of the `xrfi.py` script. The script detects radio-frequency interference in Miriad UV datasets and flags it. For each dataset the script builds a *mask*: a dictionary from integration time to a 0/1 vector over frequency channels. It builds the mask in one of two ways:

- **Detect branch.** It gathers all records. It ORs together the flags of the records at each time and sets the manually listed channels. Then, depending on `--flagmode`:
  - `val` or `both`: it ORs in the outlier bitmaps of the cross-correlation baselines, then escalates busy channels and busy integrations.
  - `int` or `both`: it flags every integration that at least two autocorrelation series mark as anomalous.
- **Load branch.** It loads a mask pickled by an earlier run with `-o`.

It then either pickles the mask under the dataset's epoch, or pipes the dataset through a function that zeroes the flagged samples and replaces their flags with the mask.

What the model uses:

- Times are exact integer ticks.
- A flag vector is a `seq<bool>`, and a mask is a `map<int, seq<bool>>`.
- The thresholds `ch_thresh` and `int_thresh` are exact `real`s.

The two statistical detectors are inputs to the model, not computed by it:

- `Escalation.Outliers` is one series' outlier bitmap, per time of that series.
- `Escalation.Anomalies` is the set of times that the integration test marked for one series.

The modules:

- `Channels`: flag vectors and masks, with OR, counting and the largest count.
- `Crosstalk`: the integer delay window of the crosstalk pre-filter.
- `Records`: what the gathering loop derives from the records, defined on the first *n* records. This covers the distinct times, the initial OR mask, the times of each (polarization, baseline) series and the window.
- `Escalation`: each step of the detect branch, as a function of the mask before that step.
- `Xrfi`: the imperative model. `MaskBuilder` is a class whose fields are the dictionaries and lists that the script updates in place. Its methods are the script's loops, each proved equal to the function of its step. `Detect` runs the whole branch and is proved equal to `DetectedMask`.
- `MaskStore`: the list form written to and read back from the `.xrfi` files, a store of those files keyed by epoch, and the apply function `rfi_mfunc`.

The model follows the code where the script's own documentation says something else:

- **Channel escalation.** The `--ch_thresh` help text speaks of a fraction of the data in a channel. Line 101, however, compares each channel's count with `ch_thresh` times the *largest* count. So a single outlier at one time of four still flags its channel at every time (`Escalation.SingleOutlierEscalatesItsChannel`). The two rules agree when the busiest channel is flagged at every counted time (`Escalation.FractionRuleWhenSaturated`).
- **Voting.** The comment at lines 108-110 says that two antennas must agree. Votes are in fact counted per (polarization, baseline) series, so one antenna seen in two polarizations flags an integration alone (`Escalation.OneAntennaTwoPolarizations`).

Other quirks kept as written:

- The counts of line 100 use `data_times` left over from the *last* cross-correlation series of the loop. With no cross-correlation series, the name is unbound and the run stops. The model returns `None` / `ok == false` in that case.
- Escalation happens only in the `val`/`both` branch.
- In mode `none` the mask is the initial OR plus the manual channels.
- The value branch is not idempotent. Running it again on its own output, with the same bitmaps, recomputes the channel counts and can push integrations that the first pass left short over `size*int_thresh`, so they become fully flagged (`Escalation.SecondValuePassFillsRows`).

## Model

| member | source | states |
|---|---|---|
| Channels.CountOn | scripts/xrfi.py:103 | `v.sum()` of a 0/1 vector is at most its size, and equals its size iff every channel is set |
| Channels.MaxOf | scripts/xrfi.py:101 | `ch_cnt.max()` bounds every count and is attained by one of them |
| Channels.ForceOn | scripts/xrfi.py:78 | `v[chans] = 1` for one vector; `Escalation.ManualFlagsAt` proves a cell is then set iff its channel is listed or it was set before |
| Channels.AddRow | scripts/xrfi.py:100 | one row added to the per-channel sums of `.sum(axis=0)`; `Xrfi.MaskBuilder.CountChannels` proves the sums over the counted times equal `Escalation.ChannelCounts` |
| Crosstalk.Window | scripts/xrfi.py:70 | the window has N entries, each between 0 and N/2, and is zero at delay 0 |
| Crosstalk.WindowShape | scripts/xrfi.py:70 | the window peaks at N/2 with value N/2, rises by one per step up to there, and is symmetric about N/2 |
| Records.InitialMask | scripts/xrfi.py:66 | every vector of the OR-accumulated mask has nchan channels |
| Records.RecordTimes | scripts/xrfi.py:64 | the set of times of the first n records; `Records.RecordTimesAre` proves a time is in it iff some of those records carries it, and `Records.InitialMaskKeys` that it is the mask's key set |
| Records.RecordTimesAre | scripts/xrfi.py:64 | a time is among the first n records' times iff one of them carries it |
| Records.InitialMaskKeys | scripts/xrfi.py:64-66 | the mask has an entry for exactly the times of the records |
| Records.InitialMaskIsOr | scripts/xrfi.py:64-66 | `mask[t]` exists iff some record is at t, and it is their channel-wise OR: cell c is set iff some record at t flags c |
| Records.InitialMaskPrefixIsOr | scripts/xrfi.py:66 | the same OR characterisation after any prefix of the records |
| Records.TimeList | scripts/xrfi.py:65 | `times` after n records; `Records.TimeListNoRepeats`, `Records.TimeListHoldsRecordTimes` and `Records.TimeListIncreasing` prove it has no two equal neighbours, holds exactly the record times, ends with the latest one, and increases on time-ordered records |
| Records.SeriesTimes | scripts/xrfi.py:72-75 | the time keys of every `data[pol][bl]`; `Records.SeriesTimesAre` proves t is a key of a series iff some record of that series is at t, and `Records.SeriesWithinMask` that every such time is a mask key |
| Records.FirstWindow | scripts/xrfi.py:68-70 | `window` after n records; `Records.FirstWindowOfFirstCross` proves it is set iff a cross-correlation was read, from the sample count of the first one |
| Records.SeriesWithinMask | scripts/xrfi.py:66-75 | every time of every `data[pol][bl]` series has an entry in the mask |
| Records.TimeListNoRepeats | scripts/xrfi.py:65 | `times` never holds the same time twice in a row |
| Records.TimeListHoldsRecordTimes | scripts/xrfi.py:65 | `times` holds exactly the record times and ends with the latest record's time |
| Records.TimeListIncreasing | scripts/xrfi.py:65 | on time-ordered records `times` is strictly increasing |
| Records.SeriesTimesAre | scripts/xrfi.py:72-75 | t is a key of `data[pol][bl]` iff some record of that series is at t |
| Records.FirstWindowOfFirstCross | scripts/xrfi.py:68-70 | the window exists iff some record is a cross-correlation, and is then the window for the sample count of the first one |
| Records.FirstWindowHasChannelCount | scripts/xrfi.py:68-70 | on nchan-sample records with a cross-correlation the window is `Window(nchan)` |
| Escalation.WithManualFlags | scripts/xrfi.py:78 | manual flagging keeps every time and every vector length |
| Escalation.ManualFlagsAt | scripts/xrfi.py:78 | after line 78 a cell is set iff its channel is listed or it was already set |
| Escalation.MergeHits | scripts/xrfi.py:96 | OR-ing one bitmap in keeps the times and the channel count |
| Escalation.WithOutliers | scripts/xrfi.py:83-97 | the merged copy keeps the times and the channel count |
| Escalation.LastCrossIndex | scripts/xrfi.py:87-91 | names the last cross-correlation series of the loop, and is None iff every series is an autocorrelation |
| Escalation.LastCrossTimes | scripts/xrfi.py:91-100 | the `data_times` still bound at line 100: the times of the last cross-correlation series, or None without one; `Xrfi.MaskBuilder.MergeOutliers` returns exactly it |
| Escalation.WithOutliersIsOr | scripts/xrfi.py:83-97 | after the merge a cell is set iff it was set before or some cross-correlation bitmap flagged it; autocorrelation bitmaps contribute nothing |
| Escalation.CountInAdd | scripts/xrfi.py:100 | one more time adds its flag to a channel's count |
| Escalation.CountIn | scripts/xrfi.py:100 | the number of counted times at which one channel is flagged; `Escalation.CountInAdd` proves one more time adds exactly its flag, and `Escalation.ChannelCounts` that it never exceeds the number of times |
| Escalation.Exceeds | scripts/xrfi.py:101-103 | the strict `>` of lines 101 and 103 against an exact threshold product; `Escalation.IntegrationFractionRule` and `Escalation.FractionRuleWhenSaturated` prove it is the documented fraction test whenever the product is taken over the number of entries |
| Escalation.ChannelCounts | scripts/xrfi.py:100 | there is one count per channel, none larger than the number of times counted |
| Escalation.ChannelMask | scripts/xrfi.py:101 | channel c is in `ch_msk` iff its count is strictly greater than `ch_thresh` times the largest count; equality does not escalate |
| Escalation.BusiestChannelEscalates | scripts/xrfi.py:101 | with `ch_thresh` below 1 a channel with the largest positive count is always escalated |
| Escalation.NoEscalationAtOrAboveOne | scripts/xrfi.py:101 | with `ch_thresh` at least 1 no channel is escalated |
| Escalation.FractionRuleWhenSaturated | scripts/xrfi.py:101 | when the largest count equals the number of times n, channel c is escalated iff cnt[c]/n > `ch_thresh` |
| Escalation.IntegrationFractionRule | scripts/xrfi.py:103 | for a non-empty vector, more than `size*int_thresh` flags iff the flagged fraction is above `int_thresh`, as the `--int_thresh` help text describes |
| Escalation.EscalateRow | scripts/xrfi.py:103-106 | one time of the escalation loop; `Escalation.EscalateRowKeepsFlags` proves it becomes all-ones above `size*int_thresh`, else its old flags OR `ch_msk`, never clearing a flag, and `Escalation.EscalateRowTwice` when repeating it changes nothing |
| Escalation.WithIntegrationEscalation | scripts/xrfi.py:102-106 | escalation keeps every time and the channel count |
| Escalation.EscalateRowKeepsFlags | scripts/xrfi.py:103-106 | a time with more than `size*int_thresh` flags becomes all-ones, otherwise it becomes its old flags OR `ch_msk`; no flag is cleared |
| Escalation.EscalateRowTwice | scripts/xrfi.py:102-106 | escalating a second time changes nothing iff the first pass filled the row, or OR-ing `ch_msk` in left it full or below the integration threshold |
| Escalation.EscalationTwiceWhenStable | scripts/xrfi.py:102-106 | escalating every time a second time with the same `ch_msk` leaves the mask as it is when the condition of `EscalateRowTwice` holds at every time |
| Escalation.ValueFlagged | scripts/xrfi.py:82-106 | the value branch has a result iff there is a cross-correlation series, and that result keeps the times and the channel count |
| Escalation.ValueFlaggedKeepsFlags | scripts/xrfi.py:83-106 | a cell set before, or raised by a cross-correlation bitmap, is still set after escalation |
| Escalation.ClearCrossSeries | scripts/xrfi.py:83-106 | with a single cross-correlation series whose bitmap is clear at every time, the value branch is the escalation of the mask itself with the counts over all its times |
| Escalation.ScenarioMerge | scripts/xrfi.py:83-97 | one cross-correlation outlier at (time 2, channel 3) merges into a clear four-time mask as that single cell |
| Escalation.ScenarioCounts | scripts/xrfi.py:100 | the counts of that mask are [0, 0, 0, 1] |
| Escalation.ScenarioChannelMask | scripts/xrfi.py:101 | with `ch_thresh` 0.33 those counts escalate channel 3 (1 > 1*0.33) |
| Escalation.ScenarioRows | scripts/xrfi.py:103-106 | with `int_thresh` 0.99 no time is escalated to all-ones, and each gets channel 3 |
| Escalation.ScenarioEscalation | scripts/xrfi.py:100-106 | the scenario's channel mask and escalated mask: channel 3 at every time |
| Escalation.SingleOutlierEscalatesItsChannel | scripts/xrfi.py:82-106 | a single outlier at one time of four ends with its channel flagged at all four times |
| Escalation.SecondValuePassFillsRows | scripts/xrfi.py:82-106 | the value branch is not idempotent: with `ch_thresh` 0.6 and `int_thresh` 0.5, a first pass leaves every channel set at all times or none, and a second pass with the same clear bitmaps fills both integrations |
| Escalation.VoteCount | scripts/xrfi.py:113-123 | a time has at most one vote per series |
| Escalation.SomeVote | scripts/xrfi.py:113-123 | a time has a vote iff some autocorrelation series marked it |
| Escalation.ConfirmedByTwo | scripts/xrfi.py:113-123 | a time has more than one vote iff two different autocorrelation series marked it |
| Escalation.WithVotes | scripts/xrfi.py:124-125 | the vote step keeps every time and vector length |
| Escalation.VotesFlagConfirmed | scripts/xrfi.py:111-125 | a time marked by two different series becomes all-ones; a time with at most one vote keeps its mask |
| Escalation.OneAntennaTwoPolarizations | scripts/xrfi.py:113-123 | one antenna's autocorrelations in two polarizations are enough to flag a time fully |
| Escalation.VotesFor | scripts/xrfi.py:116-123 | a series votes for t iff it is an autocorrelation and the integration test marked t; `Escalation.SomeVote` and `Escalation.ConfirmedByTwo` count these votes |
| Xrfi.CoverFits | scripts/xrfi.py:87-96 | bitmaps with one row per time of their series fit the mask |
| Xrfi.ManualMask | scripts/xrfi.py:64-78 | the mask after line 78 has nchan channels, an entry for exactly the record times, and covers every series' times |
| Xrfi.ManualMaskAt | scripts/xrfi.py:64-78 | after line 78 a cell is set iff its channel is listed or some record at that time flags it |
| Xrfi.UsesValues | scripts/xrfi.py:82 | the value branch runs in modes `val` and `both`; `Xrfi.WithoutValueFlagging` proves the other modes skip it and always finish |
| Xrfi.UsesVotes | scripts/xrfi.py:111 | the vote branch runs in modes `int` and `both`; `Xrfi.ConfirmedFullyFlagged` proves a time two series voted for is then all-ones |
| Xrfi.Voted | scripts/xrfi.py:111-125 | the vote step, when the mode asks for it, keeps every time and vector length |
| Xrfi.DetectedMask | scripts/xrfi.py:62-125 | the branch ends with a mask iff values are not flagged or there is a cross-correlation series, with an entry for exactly the record times and nchan channels each |
| Xrfi.WithoutValueFlagging | scripts/xrfi.py:82-125 | in modes `int` and `none` the branch always finishes, and a cell is set iff it is a manual channel, a record flagged it, or (for `int`) two series voted for its time |
| Xrfi.EarlierFlagsSurvive | scripts/xrfi.py:64-125 | no step clears a flag: record flags, manual channels and (with value flagging) cross-correlation outliers are all in the final mask |
| Xrfi.ConfirmedFullyFlagged | scripts/xrfi.py:111-125 | in modes `int` and `both` a time two series voted for is flagged at every channel |
| Xrfi.MaskBuilder.Gather | scripts/xrfi.py:62-75 | the gathering pass leaves `mask`, `times`, the series times and `window` as the record-wise definitions give them |
| Xrfi.MaskBuilder.FlagChannels | scripts/xrfi.py:78 | the mask becomes its manually flagged version; nothing else changes |
| Xrfi.MaskBuilder.MergeOutliers | scripts/xrfi.py:83-97 | the mask becomes the merge of every cross-correlation bitmap, and the method returns the last such series' times (the `data_times` of line 100) |
| Xrfi.MaskBuilder.CountChannels | scripts/xrfi.py:100 | the counts computed are, per channel, the number of the given times at which it is flagged |
| Xrfi.MaskBuilder.EscalateIntegrations | scripts/xrfi.py:102-106 | every time is escalated to all-ones or OR-ed with `ch_msk`, as `WithIntegrationEscalation` says |
| Xrfi.MaskBuilder.FlagByValue | scripts/xrfi.py:82-106 | `ok` iff there is a cross-correlation series; then the mask is the value-flagged mask, otherwise the merge of line 97 only |
| Xrfi.MaskBuilder.FlagByVotes | scripts/xrfi.py:111-125 | the mask becomes its voted version |
| Xrfi.MaskBuilder.FlagConfirmed | scripts/xrfi.py:124-125 | each time with more than one vote is set at every channel, the others unchanged |
| Xrfi.CountVotes | scripts/xrfi.py:112-123 | `new_mask` has an entry for exactly the times with a vote, holding their vote count |
| Xrfi.GatherRecords | scripts/xrfi.py:63-75 | the loop over the records computes the initial mask, `times`, the series times and the window |
| Xrfi.MergeBitmap | scripts/xrfi.py:95-96 | OR-ing each row of one series' bitmap into the copy gives the merge of that bitmap |
| Xrfi.Detect | scripts/xrfi.py:62-125 | the detect branch finishes iff `DetectedMask` is defined, leaves that mask, and keeps `times` as gathered |
| MaskStore.ToList | scripts/xrfi.py:127 | `list(v)` has v's length, with 1 exactly at set channels and 0 elsewhere |
| MaskStore.FromList | scripts/xrfi.py:59 | a loaded list read as flags has its length, with a flag exactly at nonzero entries |
| MaskStore.ToLists | scripts/xrfi.py:127 | the pickled form has the mask's times |
| MaskStore.FromLists | scripts/xrfi.py:59 | the loaded mask has the pickled form's times |
| MaskStore.RoundTrip | scripts/xrfi.py:59 | storing as lists and loading gives back the same mask, and the lists hold only 0s and 1s |
| MaskStore.ListsRoundTrip | scripts/xrfi.py:59 | loading and storing again reproduces a pickled form iff it holds only 0s and 1s |
| MaskStore.Encode | scripts/xrfi.py:127 | the loop over the times converts every vector to its list |
| MaskStore.Decode | scripts/xrfi.py:59 | the loop over the times converts every list back to flags |
| MaskStore.Store.Write | scripts/xrfi.py:127-131 | the epoch's file holds the mask's list form, replacing any earlier file; other epochs are unchanged |
| MaskStore.Store.Load | scripts/xrfi.py:50-59 | with no file for the epoch the dataset is skipped, otherwise the pickled mask is loaded |
| MaskStore.WriteThenLoad | scripts/xrfi.py:127-131 | loading an epoch just written gives back the mask written |
| MaskStore.ApplyMask | scripts/xrfi.py:134-136 | defined iff the time is in the mask with the data's channel count; flagged samples are zeroed, the others kept, and the flags become `mask[t]` |
| MaskStore.ApplyIdempotent | scripts/xrfi.py:136 | applying the mask to already masked samples changes nothing more |
| MaskStore.ApplyAfterReload | scripts/xrfi.py:136 | applying a stored and reloaded mask is the same as applying the mask itself |

## Left out

- The FFT/IFFT crosstalk filter (line 71) is floating-point numerics in a library call. Only its integer window (line 70) is modelled.
- `a.rfi.gen_rfi_thresh` with the `> hi_thr` comparison (lines 92-95) and `a.rfi.flag_by_int` (lines 119-121) are foreign floating-point statistics. Their outputs are inputs here, and they may depend on anything, including the mask they are given. The inputs must list every gathered series exactly once (`OutliersCover`, `AnomaliesCover`), in any order, because the dictionary iteration order is not modelled. For the same reason, the sort at line 118 does not matter: votes are taken over sets of times.
- Miriad I/O is not modelled: opening, reading, rewinding and piping datasets (lines 33, 47-49, 138-141), including the history line written at 141. The epoch and the records are parameters.
- Pickle I/O is not modelled (lines 56-58, 129-131). The `.xrfi` files are the `files` map of `MaskStore.Store`. The `'%f'` file name is not modelled: the store is keyed by the epoch itself.
- The skips through `os.path.exists` (lines 44-46) are not modelled. Neither are the console messages or the loop over the datasets named on the command line (line 41): the model covers one dataset.
- `optparse` (lines 13-30) and `a.scripting.parse_chans` (line 35) are command-line glue. The manual channels are a parameter. A `--flagmode` other than val, int or both acts as `FlagMode.ManualOnly`.
- `a.miriad.ij2bl`/`bl2ij` (lines 67, 89, 115) are a foreign encoding. A baseline is the pair (i, j).
- In a run over several datasets, `data_times` can leak from an earlier dataset into line 100 of a later one that has no cross-correlation series. This is not modelled: the model stops with `None` as on the first dataset.
- Xrfi.Detect: requires nchan > 0 in every mode. The script needs it only for `ch_cnt.max()` in modes `val` and `both`.
- Xrfi.DetectedMask: the manual channels at or above nchan are ignored, where line 78 would raise an IndexError. The same holds for `Xrfi.ManualMask`, `Xrfi.WithoutValueFlagging`, `Xrfi.EarlierFlagsSurvive` and `Xrfi.ConfirmedFullyFlagged`, which are stated over it. `Xrfi.Detect`, the imperative run, requires the channels to be in range.
- Xrfi.MaskBuilder.FlagChannels: requires every manual channel to be below nchan. The script would raise an IndexError otherwise, which the model does not represent as an error result.
- Line 127 converts the mask's vectors in place. The model's `MaskStore.Encode` returns the list form instead. The script does not use the mask again after writing it.
- The thresholds are exact reals, where the script holds them as binary floating point. A float such as the parsed `0.33` is not exactly 33/100, so the products `ch_cnt.max()*ch_thresh` (line 101) and `size*int_thresh` (line 103) can fall on the other side of the strict `>` than the exact decimal threshold does, when a count lies on the boundary.
- numpy broadcasting is not modelled. A mask vector of another length than the data is an error (`None`) in `MaskStore.ApplyMask`.

# Queue status of the whisper example, in Dafny

This project models `examples/whisper/scripts/queue_status.py`: the script that
lists the audio files waiting in the `queue/` directory. It shows their count,
total size, total duration and a processing-time estimate. The model covers the
values the script computes:

- the size and duration formatters;
- the processing-time estimate;
- the search for queue files, newest first;
- the loop that probes each file's duration;
- the choice between the empty-queue screen and the status screen.

Printing is replaced by a `StatusReport` value, one field per computed figure. The fixed
headings, the rules and the closing hint carry no field.

Modules, one per concern of the script:

- `Wrappers`: `Option`, for Python's `None`.
- `Decimal`: how an f-string prints a non-negative integer, and how to read
  that number back.
- `Size`: `format_size`. A method loop repeatedly divides an exact real by 1024.
  It is proved equal to a function that picks the unit by thresholds.
- `Duration`: `format_duration`. A function computes the figures of the three
  output shapes (`Ns`, `Nm Ss`, `Hh Mm`). There is a renderer for those shapes and
  a parser that reads them back.
- `Estimate`: `estimate_processing_time`, on exact rationals.
- `QueueFiles`: `find_queue_files`, over an abstract directory listing. A loop
  extends the result once per supported extension, then an in-place insertion
  sort on an array puts the newest files first.
- `QueueStatus`: the duration-aggregation loop of `display_queue_status`, the
  quick-files count, the report, and the decision that `main` makes.

## Model

| member | source | states |
|---|---|---|
| `Decimal.NatToString` | examples/whisper/scripts/queue_status.py:18 | the printed integer is a non-empty run of decimal digits with no leading zero except for 0 itself |
| `Decimal.StringToNatInverse` | examples/whisper/scripts/queue_status.py:18 | the decimal text printed for an integer reads back as that integer |
| `Size.FormatSize` | examples/whisper/scripts/queue_status.py:13-21 | the loop over B, KB, MB, GB (then TB) gives exactly the threshold choice: plain bytes below 1024, KB below 1024², MB below 1024³, GB below 1024⁴, TB otherwise; the scaled figure is the count divided by the unit's power of 1024 |
| `Size.ScaledFigureInRange` | examples/whisper/scripts/queue_status.py:15-21 | plain bytes exactly below 1024, with the count itself; a scaled figure times its unit's divisor is the byte count, is at least 1, and is below 1024 unless the unit is TB |
| `Size.BytesText` | examples/whisper/scripts/queue_status.py:17-18 | the bytes case prints the integer followed by " B", contains no decimal point, and its digits are the unpadded decimal that reads back as the count |
| `Size.SizeLabel` | examples/whisper/scripts/queue_status.py:17-21 | only the bytes case has a modelled text: the count's own decimal digits, without padding, then " B", with no decimal point |
| `Size.SmallSizeLabel` | examples/whisper/scripts/queue_status.py:15-18 | a size under 1024 is labelled with its own integer, without padding, followed by " B", without a decimal point |
| `Duration.DurationParts` | examples/whisper/scripts/queue_status.py:61-74 | seconds-only exactly below 60 000 ms, with whole seconds = ms div 1000; `Nm Ss` for 1 to 59 minutes with S in 0..59 and (60M+S) the whole seconds; `Hh Mm` from 60 minutes on, seconds dropped, M in 0..59 and 60H+M the whole minutes |
| `Duration.RenderDuration` | examples/whisper/scripts/queue_status.py:67-74 | prints the three shapes `Ns`, `Nm Ss`, `Hh Mm`; the text is read back whole by `Duration.ParseRenderDuration` |
| `Duration.FormatDuration` | examples/whisper/scripts/queue_status.py:61-74 | the figures of `Duration.DurationParts` printed; the text determines the figures by `Duration.FormatDurationInjective` |
| `Duration.ParseRenderDuration` | examples/whisper/scripts/queue_status.py:67-74 | every one of the three printed shapes reads back as the figures it was printed from |
| `Duration.FormatDurationInjective` | examples/whisper/scripts/queue_status.py:61-74 | two durations print the same text exactly when they have the same figures |
| `Estimate.ShareSeconds` | examples/whisper/scripts/queue_status.py:100-108 | `int(total_seconds * p)` on exact rationals: the largest whole number of seconds not exceeding p percent of the duration |
| `Estimate.MinuteRange` | examples/whisper/scripts/queue_status.py:110-123 | both ends at least 1; a maximum under 60 s gives 1-1; otherwise the maximum is its whole minutes and the minimum is exactly its whole minutes raised to 1; ends in order when the seconds are |
| `Estimate.EstimateProcessingTime` | examples/whisper/scripts/queue_status.py:94-123 | every one of the four figures is at least 1, and each range has its minimum at most its maximum |
| `Estimate.EstimateText` | examples/whisper/scripts/queue_status.py:125 | prints the parallel range then the serial range; the sentence is read back whole by `Estimate.ParseEstimateText` |
| `Estimate.ParseEstimateText` | examples/whisper/scripts/queue_status.py:125 | every estimate sentence reads back as the four figures it was printed from |
| `Estimate.EstimateShape` | examples/whisper/scripts/queue_status.py:103-123 | a range whose maximum share is under 60 s is 1-1; otherwise the maximum is its whole minutes and the minimum is its whole minutes raised to 1 |
| `Estimate.ParallelNoSlowerThanSerial` | examples/whisper/scripts/queue_status.py:103-123 | the parallel range never exceeds the serial range, end by end |
| `Estimate.EstimateMonotone` | examples/whisper/scripts/queue_status.py:100-123 | a longer total duration never gives a smaller figure |
| `QueueFiles.Matching` | examples/whisper/scripts/queue_status.py:86-87 | the entries globbed for the given extensions: no more than listed, each a listed entry with an accepted extension |
| `QueueFiles.MatchingCount` | examples/whisper/scripts/queue_status.py:86-87 | globbing by extension keeps an entry, as often as it is listed, exactly when its extension is accepted |
| `QueueFiles.MatchingEmpty` | examples/whisper/scripts/queue_status.py:85-88 | no file is found exactly when no listed entry has an accepted extension |
| `QueueFiles.InsertNewest` | examples/whisper/scripts/queue_status.py:90 | one insertion step extends the newest-first prefix by one entry, permutes the array, and leaves every later entry where it was |
| `QueueFiles.SortNewestFirst` | examples/whisper/scripts/queue_status.py:89-90 | sorting in place leaves modification times non-increasing and the array a permutation of what it held |
| `QueueFiles.FindQueueFiles` | examples/whisper/scripts/queue_status.py:77-91 | an absent directory gives no files; otherwise the result is, up to order, exactly the entries with a supported extension, newest first |
| `QueueFiles.FoundExactlySupported` | examples/whisper/scripts/queue_status.py:9 | an entry is returned, as often as listed, exactly when its extension is among the seven supported formats |
| `QueueStatus.TotalSize` | examples/whisper/scripts/queue_status.py:144 | the sum of the file sizes is at least each file's size |
| `QueueStatus.AggregateDurations` | examples/whisper/scripts/queue_status.py:151-161 | one probe result per file, in file order; the total is the sum of the known durations; the availability flag is false exactly when some duration is unknown |
| `QueueStatus.SumKnownZero` | examples/whisper/scripts/queue_status.py:163-166 | with every duration known, the total is zero ("0 seconds") exactly when every file lasts 0 ms |
| `QueueStatus.QuickCount` | examples/whisper/scripts/queue_status.py:195 | the count of quick files never exceeds the number of files |
| `QueueStatus.QuickCountAll` | examples/whisper/scripts/queue_status.py:195-196 | the quick count equals the file count exactly when every duration is known and under 60 000 ms |
| `QueueStatus.FileLines` | examples/whisper/scripts/queue_status.py:171-181 | one line per file, numbered from 1 in file order, with the file's name, its size as `Size.SizeTextOf` chooses it, and its duration figures when the duration is known |
| `QueueStatus.DisplayQueueStatus` | examples/whisper/scripts/queue_status.py:138-199 | establishes `QueueStatus.ReportsOn`: count and total size; the total duration is unavailable exactly when some duration is unknown, and is "0 seconds" exactly when all are 0; one line per file in order; an estimate, that of the total, exactly when every duration is known and the total is positive; the large-queue note above 10 files; the quick-files hint exactly when there are files and every one is known to be under a minute |
| `QueueStatus.ShowQueue` | examples/whisper/scripts/queue_status.py:202-218 | an absent directory gives the created-queue screen; a present one with no supported file gives the empty screen; otherwise the status screen is the full `QueueStatus.ReportsOn` report on the supported files, newest first: their count, total size, total duration, one line each in that order, the estimate and when it appears, and the large-queue and quick-files flags |

## Left out

- `get_audio_duration_ms` runs `ffprobe` and falls back to `pydub`. Both are
  foreign calls, so the model takes its result as the parameter
  `probe: QueueFile -> Option<nat>`.
- Printing, the creation of `queue/` by `main`, and the fixed text of
  `display_empty_queue` are left out. The created-queue and empty-queue outcomes
  are `Screen` values, and every other printed figure is a `StatusReport` field.
- The filesystem is an abstract `Directory`: absent, or a listing of entries
  with name, extension, modification time and size. Globbing is modelled as
  matching the extension field exactly. The model does not derive the extension
  from the name. It also does not capture that `glob` matches sub-directories
  too, or that some platforms match names case-insensitively.
- `Size.FormatSize`: the `.1f` rendering of scaled sizes is left out. The figure
  is kept as an exact real. Floating-point division by 1024 is exact for every
  size whose unit choice could change.
- `Duration.DurationParts`: the figures are computed on exact reals. Binary
  rounding of `ms / 1000` is not modelled.
- `Estimate.EstimateShape`: the factors 0.25, 0.35, 0.10 and 0.20 are exact
  percentages. Binary floating point does not represent 0.35, 0.10 or 0.20
  exactly, so a figure can differ by one where the exact product is a whole
  number of seconds.
- `QueueFiles.FindQueueFiles`: Python's sort is stable, but the order in which
  the set of extensions is visited is unspecified. The model therefore states
  no order among files with equal modification times.
- Sizes and durations are `nat`. The script never receives negative values,
  so Python's floor semantics for negative operands is not modelled.
- `src/aura/cli.py` is left out: command plumbing, tool probing, deletion, and a
  float-only `format_size`. So are `examples/whisper/scripts/test_title_generation.py`
  (a manual script around an external call) and `src/aura/config.py` (constants only).
- The voice-memo intake pipeline (recording, correction resolution, intent
  classification, collision-safe filing) is out of scope.
  `.aura/scripts/record_memo.py` and `.aura/scripts/intent_detection.py` are not
  part of this model.

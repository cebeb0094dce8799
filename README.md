# lapse-scripts timing engine, in Dafny

This project models the engine of lapse-scripts that turns an Audacity label
file into an ffmpeg concat-demuxer list. The engine reads timestamped marker
lines and a catalog of image groups, and produces an ordered list of
(file, duration) entries. The model follows both copies of the engine.
`prelapse/parser.py` is the packaged one (`Variant.Packaged`), and
`lapse-parse.py` is the older standalone script (`Variant.Standalone`).
Where the two differ, one definition takes the variant as a parameter.
The differences the model carries:
- The first tempo bucket's file ratio. The packaged copy takes the ceiling when the files that do not hold are odd in number; the standalone copy rounds (`Scaling.FilesRatio`).
- When a mark's count is stored. The standalone copy stores it at once; the packaged copy stores it after the bucket's top-up and trim (`Scaling.Staged`, `Scaling.LastFix`, `ScalingCounts.StoreAfterTopUp`).
- What the trim at a bucket's last mark takes the excess off. The packaged copy trims its local count; the standalone copy trims the stored count (`Scaling.Trim`).
- The frame-rate cap. Only the packaged copy caps a mark's files at its duration times the frame rate (`Allocation.PackagedStep`).
- A slice that comes out short. The standalone copy counts the files it got; the packaged copy keeps the label's count for the slot and for the duration share (`Allocation.StandaloneStep`, `Allocation.PackagedStep`).
- The written list. Only the packaged copy writes the `ffconcat version 1.0` header (`Timeline.Header`), and only it returns the list's duration (`Pipeline.Parsed`, against `Pipeline.AudLines`).
- The group of a `mark` label. The packaged copy records the group on a `mark` label too (prelapse/parser.py:101); the standalone copy records it only on group labels (lapse-parse.py:117). The standalone warning after a top-up or a trim reads it off the bucket's first mark, and fails with `KeyError` when that mark is a `mark` label (`Scaling.WarningFails`, `ScalingProofs.MarkOpenedFails`).
- Frame-grid snapping. The packaged copy also snaps timestamps and durations to the frame grid; the model leaves that out (see "## Left out").

The stages, each a module:

- `Labels`: `process_labels` and `split_label_content`.
  - Each line needs three tab fields, with equal begin and end timestamps.
  - Comments are split off, and a zero distance to the previous label is refused.
  - Each label's first token is resolved: `mark`, `end`, `group`, `group[i]` or `group[a:b]`.
  - Each label is given the time until the next non-comment label.
- `Instructions`: `decode_group_instruction` (`repN`, `rev`, `boom`, `hold`, `tempoX`) and `decode_mark_instruction`.
- `Assembly`: `build_groups_from_labels`.
- `Tempo`: `build_tempos_from_group`.
- `Scaling`, `ScalingProofs`, `ScalingCounts`: `build_scaled_durations` and `skip_to_valid_list_of_files`, with the proof that a successful run gives every mark a count, that a hold gets one file, and that the counts add up to the group's count.
- `Allocation`: `allocate_files_to_groups`, with the packaged frame-rate cap by evenly spaced picks.
- `Timeline`: `build_timings` and the lines written by `parse_labels_and_config` and `aud_to_ff`.
- `Pipeline`: the whole run, including the sanity checks on the label file and the `LapseParser` class, whose passes store `labels` and `timings`.
- `Common` (from `prelapse/common.py`):
  - `parseGroupSliceIndex`, `groupAppend` and `parseGroupArgs`;
  - the line layout of `writeListFile`;
  - the catalog, as an ordered list of key/value pairs.
- `Modifier` (from `prelapse/modifier.py`):
  - the `LapseModifier` class with its `config` and `groups` fields;
  - the `group rename`, `group del` and `group new` edits;
  - the suffix and argument lists of the `mogrify` commands;
  - the merge of generated images back into the catalog.
- Helper modules model the Python built-ins the code relies on:
  - `Text` (`split`, `strip`, `join`);
  - `Numbers` (`int()`, `float()`, `round`, `ceil`, `"{:0.6f}"`);
  - `PyList` (slices, negative indices, `[::-1]`, `n * list`);
  - `Sorting` (`sorted()` on strings).
  - `Base` holds `Result` and one `Error` constructor per exception the code raises.

Floats are exact reals. A timestamp or duration the code stores as
six-decimal text is the real rounded to whole microseconds (`Seconds6`).
Every exception, explicit or implicit, is an `Err` of `Result`. Examples of
implicit ones: an `IndexError`, a `KeyError`, a `ZeroDivisionError`, a failed
`int()`, a failed `assert`.

## Model

| member | source | states |
|---|---|---|
| Text.Split | prelapse/parser.py:174 | `str.split(sep)` always yields at least one piece |
| Text.JoinSplit | prelapse/parser.py:174 | joining the pieces of a split with the separator gives back the string |
| Text.SplitPiecesFree | prelapse/parser.py:106 | no piece of a split on one character contains that character |
| Text.SplitSingle | prelapse/parser.py:106-107 | a split yields one piece exactly when the separator does not occur, and the piece is then the whole string |
| Text.SplitAround | prelapse/parser.py:106 | splitting `a + c + b` on `c`, with neither part containing `c`, gives `[a, b]` |
| Text.LStrip | prelapse/parser.py:192 | `lstrip()` removes exactly the longest whitespace prefix |
| Text.SpaceRun | prelapse/parser.py:192 | the leading whitespace run is maximal |
| Text.RStrip | prelapse/parser.py:183 | `rstrip()` removes exactly the longest whitespace suffix |
| Text.Strip | prelapse/parser.py:183 | `strip()` leaves no whitespace at either end |
| Text.StripSlice | prelapse/parser.py:183 | `strip()` gives `s[i..j]`, where everything before `i` and from `j` on is whitespace and the piece has no whitespace at either end |
| Text.TokenLength | prelapse/parser.py:96 | the leading non-whitespace run is maximal |
| Text.SingleWord | prelapse/parser.py:96-98 | `len(s.split()) == 1` holds exactly when the stripped token is non-empty and has no whitespace |
| Numbers.RoundHalfEven | prelapse/parser.py:374 | `round(x)` is within one half of `x`, and a tie goes to the even neighbour |
| Numbers.Ceil | prelapse/parser.py:372 | `ceil(x)` is the least integer not below `x` |
| Numbers.RoundMonotone | prelapse/parser.py:455 | rounding never reverses the order of two values |
| Numbers.RoundStrict | prelapse/parser.py:455 | values more than one apart round to different integers |
| Numbers.NatToString | prelapse/modifier.py:583 | `str(n)` of a natural number is non-empty decimal digits |
| Numbers.NatToStringValue | prelapse/modifier.py:583 | the digits of `str(n)` have the value `n` |
| Numbers.PadDigits | prelapse/parser.py:185 | the fractional digits of `"{:0.6f}"` have exactly the given width |
| Numbers.PadDigitsValue | prelapse/parser.py:185 | a number below `10^width` is read back from its zero-padded digits |
| Numbers.ParseIntOfString | prelapse/common.py:43 | `int(str(n)) == n` for every integer |
| Numbers.FormatMicrosParses | prelapse/parser.py:163 | `float("{:0.6f}".format(x))` is `x` rounded to whole microseconds |
| Numbers.ParseSignedDecimal | prelapse/parser.py:177 | `float()` reads signed decimal text as its value |
| PyList.Bound | prelapse/parser.py:153 | a normalised slice bound never lies past the end of the list |
| PyList.SliceShape | prelapse/parser.py:153 | `s[start:stop]` is the run between the normalised bounds, empty when they cross |
| PyList.SliceFrom | prelapse/parser.py:447 | `s[idx:end]` from an index inside the list starts there and is cut short only by the end of the list |
| PyList.At | prelapse/parser.py:133 | `s[i]` is defined exactly for `-len <= i < len`, and is then the element at `(i + len) mod len`: a negative index names the same element as its non-negative counterpart |
| PyList.Reversed | prelapse/parser.py:217 | `s[::-1]` has the same length, with elements in reverse order |
| PyList.ReversedTwice | prelapse/parser.py:217 | reversing twice gives back the list |
| PyList.ReversedAppend | prelapse/parser.py:220 | reversal turns a concatenation around |
| PyList.Repeat | prelapse/parser.py:212 | `n * s` has `n * len(s)` elements, none when `n <= 0` |
| PyList.RepeatAt | prelapse/parser.py:212 | every element of `n * s` is the element at the same offset in `s` |
| PyList.RepeatPeriodic | prelapse/parser.py:212 | `n * s` repeats with period `len(s)` |
| Common.Keys | prelapse/common.py:68 | `list(config.keys())` lists the keys in config order |
| Common.KeyIndex | prelapse/common.py:68 | `.index(group)` is the first position holding the key |
| Common.HasRefCharMeaning | prelapse/common.py:29 | the reference test holds exactly when some character is `:`, `[` or `]` |
| Common.PlainReference | prelapse/common.py:29-63 | a reference is returned unchanged with no index or slice exactly when it has none of `:`, `[`, `]` |
| Common.IntTextHasNoRefChar | prelapse/common.py:43 | the text of an int holds no `:`, `[`, `]` or `.` |
| Common.ParseIntOfBound | prelapse/common.py:48-55 | a written slice bound reads back as the bound, and an empty bound as None |
| Common.IndexReferenceRoundTrip | prelapse/common.py:42-44 | `name[i]` with `i >= 0` parses back to the name and the index |
| Common.SliceReferencePieces | prelapse/common.py:30-34 | the pieces seen in `name[a:b]` are the name, then the two bound texts |
| Common.SliceReferenceRoundTrip | prelapse/common.py:45-59 | `name[a:b]` with a non-zero bound parses back to the name and the `(start, stop)` pair |
| Common.ZeroSliceRejected | prelapse/common.py:56-58 | `name[a:b]` with neither bound a non-zero int (`[0:]`, `[:0]`, `[:]`) is refused |
| Common.BracketErrors | prelapse/common.py:34-44 | more than one `:` is refused exactly with that error; an index that is not an int fails `int()`; a negative index fails the assertion |
| Common.GroupAppendResolves | prelapse/common.py:66-97 | the record has the key's first position in config order and `numfiles == len(files)`; it has a path exactly for a pure group, whose files are `(offset, name)` pairs of its catalog list: all of them with no index or slice, one for an index in range, none for an index out of range; the pairs are `Common.Enumerate` |
| Common.ParseGroupArgs | prelapse/common.py:100-113 | `--allgroups` resolves every key in config order; otherwise the result is the listed branch |
| Common.AppendAll | prelapse/common.py:102-104 | the `--allgroups` branch resolves every key, in config order |
| Common.AppendListedMeaning | prelapse/common.py:105-113 | the listed branch succeeds exactly when the list is non-empty and every reference resolves, and then yields their groups in order; otherwise it fails with the first failure or "no groups found"; each reference is resolved on its own by `Common.ResolveRef` over `Common.ResolveEach` |
| Common.AppendListed | prelapse/common.py:106-113 | the loop that resolves each reference and stops at the first failure computes the listed branch |
| Common.ListFileLines | prelapse/common.py:116-124 | `writeListFile` writes the header, a blank line, a `file`/`duration` pair per file in order, and a closing `file` line with the last name (empty when there are no files) |
| Labels.ZeroWindow | prelapse/parser.py:194 | a difference reads as zero exactly when it lies within half a microsecond of zero |
| Labels.Read | prelapse/parser.py:174-193 | a line is accepted exactly when it has three fields with equal numeric timestamps; the label is the stripped third field, and it has a comment exactly when it holds `#` |
| Labels.Step | prelapse/parser.py:184-198 | a `#` label is comment-only, gets no diff and leaves `last` alone; any other gets its distance from `last` and becomes `last`; a zero distance is refused at a timestamp above 0 |
| Labels.ProcessReadings | prelapse/parser.py:171-198 | the loop over the read lines computes the label pass |
| Labels.ProcessLabels | prelapse/parser.py:167-198 | `process_labels` is the label pass over the lines read one by one (`Labels.Readings`) |
| Labels.ProcessFromLines | prelapse/parser.py:173-198 | the pass succeeds exactly when every line passes its checks at the `last` in force there, and then yields one label per line |
| Labels.ProcessedDiffs | prelapse/parser.py:187-198 | each accepted label's diff is its distance from the latest earlier non-comment label, or from 0.0 |
| Labels.ResolveHead | prelapse/parser.py:105-160 | a name without `[` is accepted exactly when it is a catalog key; an accepted index lies inside the group's files; an accepted slice is the non-empty `files[a:b]` |
| Labels.ResolveBracket | prelapse/parser.py:116-158 | an accepted bracket names the group, with an in-range index or a non-empty slice of its files |
| Labels.ResolveIndex | prelapse/parser.py:125-136 | an accepted index can be used on the group's files |
| Labels.ResolveSlice | prelapse/parser.py:137-156 | an accepted slice keeps its two bound texts and selects a non-empty run of the group's files |
| Labels.BracketedHead | prelapse/parser.py:111-119 | in `name[...`, an unknown name is refused, and a missing closing bracket is refused |
| Labels.ClosedBracket | prelapse/parser.py:119-158 | `name[inner]` is refused on more than one `:`, a non-int index, an out-of-range index, a slice with neither bound a non-zero int, or an empty slice, and is accepted otherwise |
| Labels.Decode | prelapse/parser.py:92-160 | the instructions are the stripped pieces between delimiters; the first must be one word; it is `mark`, `end`, or a resolved group reference |
| Labels.AnnotateLabel | prelapse/parser.py:88-164 | comments pass through untouched; any other label gets its head and instructions, and, unless it is the last label, its duration to the next non-comment label |
| Labels.SplitFromFails | prelapse/parser.py:88 | a failure in a later part of the label list is the failure of the whole backward walk |
| Labels.SplitWalk | prelapse/parser.py:88-165 | the backward walk computes `split_label_content` |
| Labels.SplitLabelContent | prelapse/parser.py:83-165 | `split_label_content` is the backward walk over the labels decoded one by one (`Labels.Decodings`) |
| Labels.SplitDurations | prelapse/parser.py:162-164 | one label out per label in, and each non-comment label's duration is the six-decimal distance to the next non-comment label |
| Instructions.Rep | prelapse/parser.py:208-212 | `repN` keeps the list as a prefix and appends `N - 1` copies of the repeated unit |
| Instructions.Boom | prelapse/parser.py:218-220 | `boom` keeps the list as a prefix and gives `2n - 1` files |
| Instructions.KeywordHeads | prelapse/parser.py:207-226 | the keywords differ in their first letter, except `rep` and `rev` |
| Instructions.GroupStep | prelapse/parser.py:207-226 | an instruction is taken exactly when `Instructions.Refusal` gives no error, and otherwise fails with that error: `ValueError` for a non-integer `repN`, `InvalidRepeat` for `N <= 1`, `IndexError` for `repN` on an empty list, `ValueError` for a non-numeric `tempoX`, `InvalidInstruction` for any other word; no instruction empties or fills the list; an instruction other than `tempo` keeps the tempo, and `hold` is set once any `hold` is seen |
| Instructions.GroupAccepts | prelapse/parser.py:207-226 | a group label's instructions are taken exactly when none is refused, given whether the starting list is empty; otherwise the error is that of the first refused instruction |
| Instructions.DecodeGroupInstruction | prelapse/parser.py:201-227 | the loop starts from tempo 1.0 and no hold, and applies the instructions left to right |
| Instructions.HoldPresent | prelapse/parser.py:221-222 | the result holds exactly when some instruction starts with `hold` |
| Instructions.TempoKept | prelapse/parser.py:206 | without a `tempo` instruction the tempo stays 1.0 |
| Instructions.RepLoops | prelapse/parser.py:212 | `repN` repeats the list with period `n`, or `n - 1` when its first and last files are equal |
| Instructions.BoomPalindrome | prelapse/parser.py:220 | `boom` yields a palindrome |
| Instructions.StepLength | prelapse/parser.py:207-226 | `repN` gives `N*n`, or `n + (N-1)(n-1)` when the ends are equal; `rev` keeps `n`; `boom` gives `2n - 1` |
| Instructions.RepLength | prelapse/parser.py:212 | the exact length after `repN` |
| Instructions.MarkStep | prelapse/parser.py:235-241 | a mark accepts only `hold` and `tempoX` with a number, and keeps the inherited tempo otherwise |
| Instructions.DecodeMarkInstruction | prelapse/parser.py:229-248 | the loop starts from the inherited tempo and no hold |
| Instructions.MarkAccepts | prelapse/parser.py:233-241 | a mark is accepted exactly when every instruction is a `hold` or a numeric `tempo`, and it keeps the inherited tempo when none is a `tempo` |
| Assembly.StartFiles | prelapse/parser.py:267-274 | a group label starts from one indexed file, the sliced files, or a copy of the catalog list; a meta group has no list to take the whole or an index from, and an index out of range is refused |
| Assembly.KeptMeaning | prelapse/parser.py:258-260 | the loop passes over exactly the comments and `end` |
| Assembly.AppendMarkKeeps | prelapse/parser.py:263-265 | a mark keeps the groups well formed, inherits the tempo unless it sets one, and adds its position; the append itself is `Assembly.AppendMark` |
| Assembly.BuildStepKeeps | prelapse/parser.py:257-296 | one iteration keeps the groups well formed and adds every label it does not pass over |
| Assembly.MarkLabelKeeps | prelapse/parser.py:263-265 | a `mark` label keeps the groups well formed |
| Assembly.GroupLabelKeeps | prelapse/parser.py:266-293 | a group label keeps the groups well formed and adds its position as the first mark of the new group |
| Assembly.BuildFromKeeps | prelapse/parser.py:257-296 | the loop from any label on keeps the groups well formed and turns exactly the labels it does not skip into marks, in order |
| Assembly.BuildMeaning | prelapse/parser.py:250-297 | the accepted groups are well formed, and their marks are exactly the labels other than comments and `end`, in order |
| Assembly.BuildGroups | prelapse/parser.py:250-297 | `build_groups_from_labels` succeeds as the label loop does, and its groups are well formed with the kept labels as marks; a label's modifiers are its tokens after the first (`Assembly.Modifiers`) |
| Tempo.FindTempo | prelapse/parser.py:309 | a found bucket has the tempo |
| Tempo.FindTempoFirst | prelapse/parser.py:309 | a tempo is missing exactly when no bucket has it, and otherwise is found at its first bucket |
| Tempo.FindTempoAppend | prelapse/parser.py:310 | appending a bucket leaves the existing tempos where they were |
| Tempo.BuildTempos | prelapse/parser.py:299-327 | the loop computes the tempo buckets and the play duration |
| Tempo.BucketOkOther | prelapse/parser.py:307-326 | a bucket of another tempo is not affected by the next mark |
| Tempo.BucketOkOpen | prelapse/parser.py:309-318 | a new tempo opens a bucket with the mark's duration, play and hold count |
| Tempo.BucketOkJoin | prelapse/parser.py:319-326 | a known tempo's bucket gains the mark and its sums |
| Tempo.SumsAppend | prelapse/parser.py:320-326 | the sums over a bucket's marks grow by the new mark |
| Tempo.AddMarkOpens | prelapse/parser.py:309-318 | a mark with a new tempo opens a bucket at the end |
| Tempo.AddMarkKeeps | prelapse/parser.py:307-326 | one iteration keeps the buckets partitioning the marks seen so far |
| Tempo.AddMarkJoins | prelapse/parser.py:319-326 | a mark with a known tempo joins that bucket |
| Tempo.AddMarkPlay | prelapse/parser.py:318 | adding a mark adds its play duration to the buckets' sum |
| Tempo.TemposPlay | prelapse/parser.py:318-326 | the returned play duration is the sum of the durations of the non-hold marks |
| Tempo.BucketsPlay | prelapse/parser.py:313-326 | the buckets' play durations add up to the returned play duration |
| Tempo.TemposCorrect | prelapse/parser.py:307-326 | the loop sorts all marks into buckets |
| Tempo.AddMarkOrder | prelapse/parser.py:309-318 | a new tempo opens its bucket last, and a join keeps every bucket's first mark |
| Tempo.TemposOrdered | prelapse/parser.py:307-326 | the loop keeps the buckets in the order their tempos first appear |
| Tempo.TemposMeaning | prelapse/parser.py:299-327 | one bucket per distinct tempo, in the order the tempos first appear (each bucket's first mark precedes the next bucket's), each listing exactly the marks at that tempo, in order, with their total, play and hold count; the play duration is the non-hold sum and also the buckets' sum |
| Scaling.SkipFrom | prelapse/parser.py:329-338 | the first slot that does not hold, has at least 2 files and is not index/slice addressed; a run off the end is an `IndexError` |
| Scaling.SkipToValid | prelapse/parser.py:329-338 | `skip_to_valid_list_of_files` is the scan from slot 0 |
| Scaling.Share | prelapse/parser.py:386-396 | a hold gets 1; otherwise the rounded share by duration, cut so the running `tempo_file_count` never passes the ratio; a zero play duration divides by zero |
| Scaling.Staged | prelapse/parser.py:401-404 | a count of 0 is refused; a non-zero count is added to `calc_files`; the standalone copy stores it at once |
| Scaling.LastFix | prelapse/parser.py:406-426 | the end-of-bucket corrections keep one count per mark; in the standalone copy a top-up or trim in a bucket opened by a `mark` label fails with `KeyError` when its warning is formatted (lapse-parse.py:395-397, 406-408; `Scaling.WarningFails`) |
| Scaling.MarkPass | prelapse/parser.py:385-426 | one mark iteration keeps one count per mark; the last one applies `Scaling.LastFix` (in the standalone copy, a bucket opened by a `mark` label fails with `KeyError` once a correction is due: `Scaling.WarningFails`) |
| Scaling.PassFrom | prelapse/parser.py:385-426 | the mark loop keeps one count per mark (in the standalone copy, a bucket opened by a `mark` label fails with `KeyError` once a correction is due: `Scaling.WarningFails`) |
| Scaling.Capped | prelapse/parser.py:375-377 | the capped ratio never exceeds the raw one, keeps the running total within `count_without_holds`, and is the raw one when it fits |
| Scaling.BucketStep | prelapse/parser.py:365-429 | one bucket iteration keeps one count per mark (in the standalone copy, a bucket opened by a `mark` label fails with `KeyError` once a correction is due: `Scaling.WarningFails`) |
| Scaling.WalkFrom | prelapse/parser.py:365-429 | the bucket loop keeps one count per mark (in the standalone copy, a bucket opened by a `mark` label fails with `KeyError` once a correction is due: `Scaling.WarningFails`) |
| Scaling.PassMarks | prelapse/parser.py:385-426 | the inner loop computes the mark pass (in the standalone copy, a bucket opened by a `mark` label fails with `KeyError` once a correction is due: `Scaling.WarningFails`) |
| Scaling.SumBuckets | prelapse/parser.py:352-355 | the first loop yields `count` minus the holds and the sum of play durations times tempos |
| Scaling.BucketPass | prelapse/parser.py:365-429 | one outer iteration computes the bucket step (in the standalone copy, a bucket opened by a `mark` label fails with `KeyError` once a correction is due: `Scaling.WarningFails`) |
| Scaling.ScaledDurations | prelapse/parser.py:340-434 | `build_scaled_durations` computes the scaling of the group (in the standalone copy, a bucket opened by a `mark` label fails with `KeyError` once a correction is due: `Scaling.WarningFails`) |
| ScalingProofs.HoldCountBound | prelapse/parser.py:386-388 | a bucket has at most as many holds as marks, and exactly as many when every mark holds |
| ScalingProofs.HoldsPlayNothing | prelapse/parser.py:312-313 | marks that all hold play for no time |
| ScalingProofs.TopUpKeeps | prelapse/parser.py:407-415 | the top-up keeps every count non-zero and each hold at one, raises the bucket's `nfilestotal` to its ratio, adds the same to the files used, and is needed only in a bucket with a mark that plays |
| ScalingProofs.TrimIdle | prelapse/parser.py:416-425 | the over-allocation trim changes nothing when the files are not over-used |
| ScalingProofs.MarkOpenedFails | lapse-parse.py:390-409 | in the standalone copy, for a bucket opened by a `mark` label: a due top-up, or a due trim, with a mark found to absorb it fails with `KeyError`; the last slot succeeds only when neither is due, and then leaves the staged state as it is |
| ScalingProofs.MarkPassKeeps | prelapse/parser.py:385-404 | a slot before the bucket's last keeps the pass invariant |
| ScalingProofs.MarkPassLast | prelapse/parser.py:406-426 | the bucket's last slot ends the bucket with exactly its ratio used, and the trim is idle |
| ScalingProofs.PassFromDone | prelapse/parser.py:385-426 | a successful pass over a bucket ends as the pass invariant says |
| ScalingProofs.NothingToShare | prelapse/parser.py:367-374 | a bucket that plays for no time gets no files |
| ScalingProofs.BucketFits | prelapse/parser.py:365-377 | a bucket that plays fits within the group after the cap |
| ScalingProofs.BucketStepKeeps | prelapse/parser.py:365-429 | one bucket keeps the walk invariant |
| ScalingProofs.WalkFromKeeps | prelapse/parser.py:365-429 | the walk leaves every count non-zero, and one for each hold |
| ScalingProofs.ScaledSane | prelapse/parser.py:340-434 | `build_scaled_durations` never gives a mark zero files, and gives each hold exactly one |
| ScalingCounts.BucketedHomed | prelapse/parser.py:305-327 | every mark of the buckets `build_tempos_from_group` builds lives in the bucket of its tempo |
| ScalingCounts.FindTempoDistinct | prelapse/parser.py:309 | with distinct tempos, a bucket's tempo finds that bucket |
| ScalingCounts.Home | prelapse/parser.py:309 | a mark is in bucket `g` exactly when its tempo finds `g` |
| ScalingCounts.BucketedSummed | prelapse/parser.py:305-327 | the built buckets index the marks and carry their sums |
| ScalingCounts.TopUpCounts | prelapse/parser.py:407-415 | the top-up adds to a stored count, and adds the same to `calc_files` |
| ScalingCounts.Reach | prelapse/parser.py:385 | each slot reaches a mark that has no count yet |
| ScalingCounts.Store | prelapse/parser.py:404-426 | storing a reached mark's count and adding it to `calc_files` moves the state on by one slot |
| ScalingCounts.StoreAfterTopUp | prelapse/parser.py:409-426 | the packaged copy stores the last count after the top-up, which cannot have touched it |
| ScalingCounts.LastCounts | prelapse/parser.py:406-426 | at a bucket's last slot, what is stored and summed stays in step |
| ScalingCounts.LastStorePackaged | prelapse/parser.py:426 | storing after the top-up leaves the counts where storing first would |
| ScalingCounts.MidCounts | prelapse/parser.py:404-426 | a slot before the last stores the count and adds it to `calc_files` |
| ScalingCounts.MidShape | prelapse/parser.py:404-426 | the same, in both copies |
| ScalingCounts.MarkPassCounts | prelapse/parser.py:385-426 | every slot reaches an uncounted mark and stores its count |
| ScalingCounts.PassFromStep | prelapse/parser.py:385 | the pass from a slot is that slot's outcome, then the pass from the next slot |
| ScalingCounts.PassFromCounts | prelapse/parser.py:385-426 | a pass over a bucket counts every mark of it |
| ScalingCounts.BucketEnd | prelapse/parser.py:365 | finishing bucket `h` is reaching the start of bucket `h + 1` |
| ScalingCounts.BucketShape | prelapse/parser.py:365-429 | a successful bucket is a pass with the capped share of `count_without_holds` |
| ScalingCounts.BucketStepCounts | prelapse/parser.py:365-429 | one bucket keeps counts and `calc_files` in step |
| ScalingCounts.WalkFromCounts | prelapse/parser.py:365-429 | the walk keeps counts and `calc_files` in step |
| ScalingCounts.ScaledShape | prelapse/parser.py:432-434 | a successful scaling used exactly `count` files |
| ScalingCounts.ScaledCounts | prelapse/parser.py:340-434 | on success every mark has a count, none is zero, each hold has 1, and the counts sum to `count` |
| ScalingCounts.SeenAll | prelapse/parser.py:365-385 | past the last bucket every mark was reached |
| ScalingCounts.HomedCounts | prelapse/parser.py:365-432 | a walk from no counts reaches every mark, and `calc_files` is the sum of the counts |
| ScalingCounts.CountedAll | prelapse/parser.py:432 | with every mark reached, every mark has a count |
| ScalingCounts.StartCounted | prelapse/parser.py:363-364 | before the first bucket there are no counts and nothing is used (`Scaling.Unset`) |
| ScalingCounts.GroupScaledCounts | prelapse/parser.py:485-487 | what a successful tempo bucketing plus scaling of a group promises: a non-zero count per mark, one per hold, summing to `count` |
| ScalingCounts.ScaledTotalZero | prelapse/parser.py:352-355 | buckets that all play for no time scale to zero |
| ScalingCounts.AllHoldsFail | prelapse/parser.py:359 | a group whose marks all hold fails with `ZeroDivisionError` |
| ScalingCounts.HoldBucketsIdle | prelapse/parser.py:312-317 | buckets of holds play for no time |
| Allocation.Step | prelapse/parser.py:455 | the `linspace` spacing is `(len - 1) / (n - 1)`, at least 1 when the list is at least as long as the picks |
| Allocation.PicksInRange | prelapse/parser.py:455 | every evenly spaced pick is a position of the list |
| Allocation.Spaced | prelapse/parser.py:454-456 | the picks succeed exactly for `n == 0` or a non-empty list, and are `n` long; a negative count is a `ValueError` |
| Allocation.SpacedMeaning | prelapse/parser.py:453-456 | the picks keep the first file, keep the last when `n >= 2`, never go back, and pick no file twice when the list is long enough |
| Allocation.PickOrder | prelapse/parser.py:455 | the picks are ordered, and strictly ordered when the list is long enough |
| Allocation.RoundOrder | prelapse/parser.py:455 | `np.round` of the positions keeps their order |
| Allocation.ScaleGap | prelapse/parser.py:455 | the positions are at least one spacing apart |
| Allocation.AllocateFrom | prelapse/parser.py:443-478 | the mark loop gives every mark a slot |
| Allocation.Allocated | prelapse/parser.py:440-478 | a group's allocation has one slot per mark |
| Allocation.AllocateGroup | prelapse/parser.py:441-478 | the loop over one group's marks computes its allocation |
| Allocation.StandaloneStepShape | lapse-parse.py:302-311 | one standalone step takes the next run of files after `idx` |
| Allocation.StandaloneStepKeeps | lapse-parse.py:301-311 | one step extends the consecutive tiling of the list |
| Allocation.StandaloneFromTiles | lapse-parse.py:301-314 | the standalone loop cuts the list into consecutive runs up to `count` |
| Allocation.StandaloneTiles | lapse-parse.py:294-314 | the slots cut the whole list into consecutive non-empty runs, in order; each is no longer than its count, records its length, and splits the mark's duration evenly; a slot exists only for a pure group and records its directory |
| Allocation.OffsetMono | prelapse/parser.py:475 | slice start indices never go back |
| Allocation.PackagedStepShape | prelapse/parser.py:444-475 | one packaged step over an in-range slice keeps it, or replaces it by `goal_files` evenly spaced picks when the count exceeds the goal |
| Allocation.PackagedStepKeeps | prelapse/parser.py:443-475 | one step keeps the tiling invariant |
| Allocation.PackagedFromTiles | prelapse/parser.py:443-478 | the packaged loop tiles the list with capped slices |
| Allocation.PackagedTiles | prelapse/parser.py:436-478 | mark `k` gets the `k`-th consecutive slice, capped at duration times frame rate by evenly spaced picks, and each file shows for an equal share of the mark's duration; a slot exists only for a pure group and records its directory (`Allocation.GroupPath`) |
| Timeline.AppendFiles | prelapse/parser.py:502-508 | the file loop appends one entry per counted file, and fails when the slot is short |
| Timeline.AppendLabel | prelapse/parser.py:491-508 | one iteration appends the label's line, then its files |
| Timeline.BuildTimings | prelapse/parser.py:490-510 | the loop computes the timings |
| Timeline.BlockCounts | prelapse/parser.py:492-508 | a block holds the label's line, then its counted files (none for a comment or `end`) |
| Timeline.ConcatCounts | prelapse/parser.py:490-508 | the blocks together carry every label line once and the counted files |
| Timeline.TimingsMeaning | prelapse/parser.py:480-510 | the timings succeed exactly when every kept label has a slot with at least `num_files` files; they then carry every label line once, in order, and as many file entries as the counts add up to |
| Timeline.TimingsBlock | prelapse/parser.py:491-508 | each label's block follows those of the labels before it; the blocks are `Timeline.Blocks` |
| Timeline.WriteTimings | prelapse/parser.py:534-565 | the writing loop produces the list lines |
| Timeline.LastFileMeaning | prelapse/parser.py:560-565 | the closing line names the last file entry's file |
| Timeline.NoFiles | prelapse/parser.py:530 | with no file entries, the closing line names the empty path |
| Timeline.ListLinesShape | prelapse/parser.py:537-560 | each entry's lines sit between those of the entries before and after it: one `# ` line for a label, and a `file` line then a `duration` line for a file |
| Timeline.EndTimeOfLast | prelapse/parser.py:531 | when the last label is `end`, the returned duration is its timestamp to the microsecond |
| Timeline.LastEntry | prelapse/parser.py:494-496 | the last entry is then the `end` label's line |
| Timeline.LineEndTime | prelapse/parser.py:531 | the time read back from a label line is its timestamp to the microsecond |
| Timeline.FixedParses | prelapse/parser.py:531 | six-decimal text reads back as its value to the microsecond |
| Pipeline.Sanity | prelapse/parser.py:519-525 | the file is accepted exactly when it has at least 2 lines, the first timestamp is 0.0, and the last label strips to `end`; fewer than 2 lines is the first error |
| Pipeline.OffsetTotal | prelapse/parser.py:475 | slices laid end to end reach the sum of the counts |
| Pipeline.GroupCounts | prelapse/parser.py:485-487 | a group's counts exist exactly when its scaling succeeds: one per mark, none zero, 1 for a hold, summing to `count`; the stored counts are read back by `Pipeline.Values` |
| Pipeline.ScaleAll | prelapse/parser.py:485-487 | every group's counts, in order |
| Pipeline.AllocateAll | prelapse/parser.py:488 | every group's slots, in order |
| Pipeline.Planned | prelapse/parser.py:484-488 | a plan's counts and slots fit its groups |
| Pipeline.PlanShows | prelapse/parser.py:490-508 | when every slot holds its count of files, every built label finds its slot and the timings succeed |
| Pipeline.PlanParts | prelapse/parser.py:484-488 | the plan's groups are those built from the labels, with each group's counts and slots |
| Pipeline.StandaloneLaysOut | lapse-parse.py:429-443 | in the standalone copy a planned run always lays out its entries, because each slot holds exactly its count |
| Pipeline.PackagedLaysOut | prelapse/parser.py:443-508 | in the packaged copy a planned run with positive counts always lays out its entries |
| Pipeline.PackagedSlotFits | prelapse/parser.py:450-471 | a packaged slot holds at least its recorded count of files |
| Labels.EndReading | prelapse/parser.py:524 | a last line whose third field strips to `end` reads as the label `end` with no comment |
| Labels.EndStep | prelapse/parser.py:187-198 | the `end` reading becomes a non-comment label |
| Labels.LastLineRead | prelapse/parser.py:520-526 | after the sanity checks and the label pass, the last label is a plain `end` at the last line's timestamp |
| Labels.EndDecodes | prelapse/parser.py:94-103 | with a one-character delimiter not in `end`, the `end` label decodes as `end` |
| Pipeline.SplitEnd | prelapse/parser.py:88-165 | `split_label_content` keeps the `end` label last |
| Pipeline.ProcessedEnd | prelapse/parser.py:512-526 | the labels end on `end` at the last line's timestamp |
| Pipeline.RunEndTime | prelapse/parser.py:529-531 | the returned duration is the last line's timestamp to the microsecond |
| Pipeline.RunParts | prelapse/parser.py:526-527 | a successful run read the labels, planned every group, and laid out their timings |
| Pipeline.ScaleAllStops | prelapse/parser.py:485-487 | the first failing group fails the whole scaling |
| Pipeline.AllocateAllStops | prelapse/parser.py:440-478 | the first failing group fails the whole allocation |
| Pipeline.ScaleAllStep | prelapse/parser.py:485-487 | scaling one more group appends its counts, or fails with its error |
| Pipeline.AllocateAllStep | prelapse/parser.py:440-478 | allocating one more group appends its slots, or fails with its error |
| Pipeline.ScaleGroup | prelapse/parser.py:486-487 | one group's bucketing and scaling, read back as counts |
| Pipeline.ScaleGroups | prelapse/parser.py:485-487 | the loop over the groups computes every group's counts |
| Pipeline.AllocateGroups | prelapse/parser.py:436-478 | `allocate_files_to_groups` computes every group's slots |
| Pipeline.ScheduleTimings | prelapse/parser.py:480-510 | `build_timings` computes the schedule of the labels |
| Pipeline.ParsedEndTime | prelapse/parser.py:512-567 | `parse_labels_and_config` fails exactly when the run does, and otherwise returns the list lines and the last line's timestamp |
| Pipeline.LapseParser.constructor | prelapse/parser.py:569-600 | a parser starts with its settings, and with no labels or timings |
| Pipeline.LapseParser.ProcessLabels | prelapse/parser.py:167-199 | `process_labels` stores the annotated labels on success, and leaves them otherwise |
| Pipeline.LapseParser.BuildTimings | prelapse/parser.py:480-510 | `build_timings` stores the schedule of the stored labels on success |
| Pipeline.LapseParser.ParseLabelsAndConfig | prelapse/parser.py:512-567 | the sanity checks, both passes, the returned duration and the written lines, in order; `labels` holds the processed labels once the checks and `process_labels` succeed and is untouched otherwise (prelapse/parser.py:199); `timings` holds the schedule of those labels once `build_timings` succeeds and is untouched otherwise (prelapse/parser.py:510) |
| Pipeline.AudToFf | lapse-parse.py:446-494 | the sanity checks, the label pass, `build_timings` and the list lines without header |
| Sorting.StrLeTotal | prelapse/modifier.py:677 | Python string order is total |
| Sorting.StrLeTrans | prelapse/modifier.py:677 | Python string order is transitive |
| Sorting.StrLeAntisymmetric | prelapse/modifier.py:677 | Python string order is antisymmetric |
| Sorting.Insert | prelapse/modifier.py:677 | inserting adds exactly one element |
| Sorting.InsertSorted | prelapse/modifier.py:677 | inserting into a sorted list keeps it sorted |
| Sorting.Sort | prelapse/modifier.py:677 | `sorted()` returns a sorted permutation |
| Sorting.SortedUnique | prelapse/modifier.py:677 | a sorted permutation is unique |
| Sorting.MinimumFirst | prelapse/modifier.py:677 | the head of a sorted list precedes every element |
| Modifier.LookupEntry | prelapse/modifier.py:673 | in a catalog with unique keys, `config[name]` is the value paired with `name`; `Common.Lookup` is that lookup |
| Modifier.AddedEntry | prelapse/modifier.py:679-681 | `config[name] = entry` for a new name keeps keys unique, maps the name to the entry, and changes no other lookup |
| Modifier.Renamed | prelapse/modifier.py:512-518 | the rebuilt catalog has the same values in the same order, with `from` replaced by `to` |
| Modifier.RenameKeyed | prelapse/modifier.py:512-518 | renaming to a fresh name keeps keys unique and leaves nothing under the old name |
| Modifier.RenameKeeps | prelapse/modifier.py:512-518 | the new key takes the old key's position and value, and no other lookup changes |
| Modifier.RenameOther | prelapse/modifier.py:513-515 | any other key keeps its value |
| Modifier.WithoutEntries | prelapse/modifier.py:533-536 | what is left is exactly the entries whose keys are not listed |
| Modifier.WithoutKeys | prelapse/modifier.py:533-536 | the remaining keys are those not listed, and they stay unique |
| Modifier.WithoutNothing | prelapse/modifier.py:533 | deleting nothing changes nothing |
| Modifier.WithoutThenRest | prelapse/modifier.py:533-536 | deleting one name and then the rest deletes them all |
| Modifier.DeletedMeaning | prelapse/modifier.py:530-536 | `group del` succeeds exactly when every listed name is a key and none is listed twice, and then removes exactly the listed keys; otherwise the group is not in config |
| Modifier.MetaMembersResolve | prelapse/modifier.py:552-556 | the new meta group has one member per reference, in order, naming the reference's catalog group with its type |
| Modifier.SizeSuffixDecodes | prelapse/modifier.py:577-587 | with `--outmod`, a size suffix is accepted exactly when a size option is given, and it is the instruction plus a tag that decodes back to the chosen option (geometry, then max, then percent) |
| Modifier.SizeTagDecodes | prelapse/modifier.py:580-585 | each size tag decodes back to its option |
| Modifier.GeometryTagDecodes | prelapse/modifier.py:581 | `-G<geometry>` decodes back to the geometry |
| Modifier.MaxTagDecodes | prelapse/modifier.py:583 | `-m<max>` decodes back to the max side |
| Modifier.PercentTagDecodes | prelapse/modifier.py:585 | `-p<percent>` decodes back to the percent |
| Modifier.SuffixMatchesArgs | prelapse/modifier.py:577-655 | the suffix and the arguments agree: with `--outmod` an accepted suffix means accepted arguments; without it the suffix is empty, and the arguments are refused exactly for a size or rotate instruction with no option |
| Modifier.SizeArguments | prelapse/modifier.py:626-637 | the size argument is the geometry, `{max}x{max}` or `{percent}%`, and `scale` adds `-background black -extent <size>` |
| Modifier.CommandHead | prelapse/modifier.py:616-622 | a command opens with `mogrify -verbose`, then with `--outmod` `-path <group path>/mod-<suffix>` |
| Modifier.CommandOfHead | prelapse/modifier.py:616-622 | the same, for the assembled list |
| Modifier.CommandFiles | prelapse/modifier.py:656-658 | a command closes with `-gravity <g>` and one path per group file, in order |
| Modifier.CommandOfFiles | prelapse/modifier.py:656-658 | the same, for the assembled list |
| Modifier.CommandRefused | prelapse/modifier.py:617-658 | a command is refused exactly for a meta group whose directory is needed, or an instruction missing its option |
| Modifier.Commands | prelapse/modifier.py:611-685 | one command per group |
| Modifier.CommandsMeaning | prelapse/modifier.py:611-685 | the commands succeed exactly when each group's does, and are those commands in group order |
| Modifier.CommandsStop | prelapse/modifier.py:611 | once a group is refused, every later prefix is too |
| Modifier.AddNewMeaning | prelapse/modifier.py:674-676 | the merge keeps the old list as a prefix, appends only names not already present that come from the generated list, and lists every old and generated name |
| Modifier.AddNewDistinct | prelapse/modifier.py:674-676 | a list without repeats keeps none |
| Modifier.MergeMeaning | prelapse/modifier.py:672-681 | the merge succeeds exactly for a new group or a pure group with the same path; other groups are unchanged; a new group is appended; an existing one keeps its position and gets the sorted union of old and generated names, without repeats when there were none |
| Modifier.LapseModifier.constructor | prelapse/modifier.py:508 | the modifier starts from a catalog with unique keys |
| Modifier.LapseModifier.Rename | prelapse/modifier.py:505-518 | refused when `from` is missing or `to` is present, and succeeds exactly otherwise with the renamed catalog; a refusal leaves the catalog |
| Modifier.LapseModifier.Delete | prelapse/modifier.py:529-536 | no list is refused; otherwise it succeeds as the sequential deletion does and stores its result |
| Modifier.LapseModifier.NewMeta | prelapse/modifier.py:546-556 | refused when the name is taken or no groups are given, or as the reference resolution fails; otherwise it appends the meta group listing the resolved groups |
| Modifier.LapseModifier.Mogrify | prelapse/modifier.py:571-685 | resolves the groups into `self.groups`, then yields the suffix and one command per group, and leaves the catalog alone |
| Modifier.LapseModifier.MergeGenerated | prelapse/modifier.py:664-681 | the catalog after the merge of one group's generated images |
| Modifier.SuffixOf | prelapse/modifier.py:574-609 | the step-by-step suffix construction computes the suffix |
| Modifier.GroupCommands | prelapse/modifier.py:610-685 | the group loop computes the commands |
| Modifier.GroupCommand | prelapse/modifier.py:616-658 | the argument-by-argument construction computes one group's command |

## Left out

- The packaged copy moves each timestamp down to a multiple of one frame (prelapse/parser.py:182) before the zero-distance check. The model reads timestamps as given, as the standalone copy does, so packaged timestamps and durations are not snapped to the frame grid. Python's float `%` on a non-integral period is left out with the other float arithmetic.
- Floating point is modelled by exact reals. Rounding errors of binary floats are not captured, and neither are `inf`/`nan` text read by `float()`.
- The `inpoint`/`outpoint` values of the packaged timings are computed but never written (prelapse/parser.py:505-506), so the model leaves them out.
- Relative paths, `os.path.normpath`, POSIX separator conversion and the "unsafe" path warning (prelapse/parser.py:541-555) are left out. File paths are opaque strings, joined by `PathJoin`.
- File and console I/O, logging, the JSON load and dump of the catalog, `os.makedirs`, the dry-run messages and running `mogrify` (`callShellCmd`) are left out. The label file is a parameter (its lines). So is the list of generated images that `os.listdir` and the mimetype test would find, already sorted.
- On an error the source aborts the command. The model returns the error and leaves `config` and `groups` as they were. `group del` in the source may have deleted earlier names in memory before failing, but nothing is written.
- `group["modpath"]` is recorded on the group dict (prelapse/modifier.py:623). The model recomputes it (`ModPath`) where the merge needs it.
- The `fixunsafe` sub-command only prints (prelapse/modifier.py:566-567). The image-stabilisation and other ffmpeg commands of `prelapse/modifier.py` are outside the core.
- Numbers.ParseInt: reads only ASCII decimal digits. Python's `int()` also accepts underscores between digits (`1_000`) and non-ASCII decimal digits; the model refuses both.
- Numbers.ParseDecimal: reads only plain decimal text. Python's `float()` also accepts an exponent (`1e3`), underscores, non-ASCII digits, `inf` and `nan`; the model refuses them.
- Allocation.StandaloneTiles: for a negative count the bound "no longer than the count" is not stated, since the slice is then empty or runs from the end.
- Pipeline.PackagedLaysOut: proved only when every count is positive. A successful scaling promises only non-zero counts that sum to the group's file count (`ScalingCounts.GroupScaledCounts`). When label timestamps go backwards, a mark's duration is negative and so can be its count: durations 2.0 and -1.0 over three files scale to 6 and -3. The packaged run then reads past the end of a slice and raises `IndexError` (prelapse/parser.py:502-508), and the standalone copy divides by the length of an empty slice (lapse-parse.py:309).
- Pipeline.RunEndTime: assumes a one-character delimiter that is not a letter of `end`. Another delimiter (for example `n`) can turn the `end` label into a group reference.
- Pipeline.ProcessedEnd: the same delimiter condition as `Pipeline.RunEndTime`.
- Pipeline.ParsedEndTime: the same delimiter condition as `Pipeline.RunEndTime`.
- Pipeline.AudToFf: the standalone allocation has no frame rate, and the model passes 0.0, which it never reads.
- The label dicts that the source annotates in place (`num_files`, `files`, `files_duration`, `path`) are modelled as the labels plus a map from a label's position to its slot (`Pipeline.SlotMap`).
- A group whose marks all hold (or that has no marks) raises `ZeroDivisionError`: its play duration and its scaled duration are both zero (prelapse/parser.py:359, lapse-parse.py:348). The model follows the code: `ScalingCounts.AllHoldsFail`.
- The end-of-bucket trim computes `j` and then takes the excess off the current mark (prelapse/parser.py:420-421). The model keeps this, and proves that the trim never fires on a successful run (`ScalingProofs.TrimIdle`).
- `skip_to_valid_list_of_files` indexes `marks[j]` before its bounds check. Running off the end is therefore an `IndexError`, as modelled. Its own error message would fail with a `NameError`, which is never reached.

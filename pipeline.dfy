/** The whole run from the lines of a label file to the timings: the sanity
    checks on the file, `process_labels` with `split_label_content`, and
    `build_timings`, which builds the groups, scales every group's marks to
    file counts, slices the files among the marks and lays out the
    entries. The label dicts that `allocate_files_to_groups` annotates in
    place are the labels together with a map from a label's position to
    the slot its mark was given. */
module Pipeline {
  import opened Base
  import opened Text
  import opened Numbers
  import opened Common
  import opened Labels
  import opened Assembly
  import opened Tempo
  import opened Scaling
  import opened ScalingCounts
  import opened Allocation
  import opened Timeline

  // ---------------------------------------------------------------------
  // The checks on the whole file

  /** The sanity checks before `process_labels`, in their order: at least
      two lines; the first field of the first line reads as a number, and
      that number is zero; the last line has a third field; and that field,
      stripped, is `end`. */
  function Sanity(content: seq<string>): (r: Result<()>)
    ensures r.Ok? <==>
              && |content| >= 2
              && ParseDecimal(Fields(content[0])[0]) == Some(0.0)
              && |Fields(content[|content| - 1])| >= 3
              && Strip(Fields(content[|content| - 1])[2]) == "end"
    ensures |content| < 2 ==> r == Err(TooFewLines)
  {
    if |content| < 2 then Err(TooFewLines)
    else
      match ParseDecimal(Fields(content[0])[0])
      case None => Err(ValueError)
      case Some(first) =>
        if first != 0.0 then Err(FirstNotAtZero)
        else
          var last := Fields(content[|content| - 1]);
          if |last| < 3 then Err(IndexError)
          else if Strip(last[2]) != "end" then Err(LastNotEnd)
          else Ok(())
  }

  /** The labels `process_labels` leaves once `split_label_content` has
      annotated them. */
  function LabelsOf(c: Config, delimiter: string, content: seq<string>): Result<seq<Label>> {
    var raw :- ProcessFrom(Readings(content), 0.0);
    var split :- SplitFrom(raw, Decodings(c, delimiter, raw));
    Ok(split.0)
  }

  /** The sanity checks and then `process_labels`. */
  function Processed(c: Config, delimiter: string, content: seq<string>): Result<seq<Label>> {
    var _ :- Sanity(content);
    LabelsOf(c, delimiter, content)
  }

  // ---------------------------------------------------------------------
  // build_timings

  /** The stored count of every mark, each set once scaling succeeds. */
  function Values(nfs: seq<Option<int>>): (r: seq<int>)
  {
    seq(|nfs|, k requires 0 <= k < |nfs| => Val(nfs[k]))
  }

  /** Slices laid end to end run as far as the stored counts add up to. */
  lemma {:induction false} OffsetTotal(nfs: seq<Option<int>>, k: nat)
    requires k <= |nfs|
    ensures Offset(Values(nfs), k) == Total(nfs[..k])
  {
    if k > 0 {
      OffsetTotal(nfs, k - 1);
      assert nfs[..k][..k - 1] == nfs[..k - 1];
    }
  }

  /** `build_tempos_from_group` and `build_scaled_durations` for group `g`,
      read back as the marks' `num_files`: one count per mark, none zero, one
      for a hold, and together the group's count. */
  function GroupCounts(v: Variant, g: Group): (r: Result<seq<int>>)
    ensures r.Ok? <==> GroupScaled(v, g.count, g.marks).Ok?
    ensures r.Ok? ==>
              && |r.value| == |g.marks|
              && Offset(r.value, |g.marks|) == g.count
              && forall k :: 0 <= k < |g.marks| ==> r.value[k] != 0 && (g.marks[k].hold ==> r.value[k] == 1)
  {
    var scaled :- GroupScaled(v, g.count, g.marks);
    GroupScaledCounts(v, g.count, g.marks, scaled);
    OffsetTotal(scaled, |scaled|);
    assert scaled[..|scaled|] == scaled;
    Ok(Values(scaled))
  }

  /** The counts of every group, or the first failure. */
  function ScaleAll(v: Variant, groups: seq<Group>): (r: Result<seq<seq<int>>>)
    ensures r.Ok? ==> |r.value| == |groups| && forall j :: 0 <= j < |groups| ==> GroupCounts(v, groups[j]) == Ok(r.value[j])
    decreases |groups|
  {
    if groups == [] then Ok([])
    else
      var init :- ScaleAll(v, groups[..|groups| - 1]);
      var last :- GroupCounts(v, groups[|groups| - 1]);
      Ok(init + [last])
  }

  /** Every group has one count per mark. */
  predicate CountsFit(groups: seq<Group>, counts: seq<seq<int>>) {
    |counts| == |groups| && forall j :: 0 <= j < |groups| ==> |counts[j]| == |groups[j].marks|
  }

  /** `allocate_files_to_groups`: the slots of every group, or the first
      failure. */
  function AllocateAll(v: Variant, framerate: real, groups: seq<Group>, counts: seq<seq<int>>): (r: Result<seq<seq<Slot>>>)
    requires CountsFit(groups, counts)
    ensures r.Ok? ==>
              && |r.value| == |groups|
              && forall j :: 0 <= j < |groups| ==> Allocated(v, framerate, groups[j], counts[j]) == Ok(r.value[j])
    decreases |groups|
  {
    if groups == [] then Ok([])
    else
      var n := |groups| - 1;
      var init :- AllocateAll(v, framerate, groups[..n], counts[..n]);
      var last :- Allocated(v, framerate, groups[n], counts[n]);
      Ok(init + [last])
  }

  /** The groups, their counts and their slots, as `build_timings` leaves
      them before it lays out the entries. */
  datatype Plan = Plan(groups: seq<Group>, counts: seq<seq<int>>, allocs: seq<seq<Slot>>)

  /** Every group has one count and one slot per mark. */
  predicate PlanFits(p: Plan) {
    && CountsFit(p.groups, p.counts) && |p.allocs| == |p.groups|
    && forall j :: 0 <= j < |p.groups| ==> |p.allocs[j]| == |p.groups[j].marks|
  }

  function Planned(v: Variant, framerate: real, c: Config, labels: seq<Label>): (r: Result<Plan>)
    ensures r.Ok? ==> PlanFits(r.value)
  {
    var b :- BuildFrom(c, labels, 0, Building(1.0, []));
    var counts :- ScaleAll(v, b.groups);
    var allocs :- AllocateAll(v, framerate, b.groups, counts);
    Ok(Plan(b.groups, counts, allocs))
  }

  /** The slots of all groups, one after the other. */
  function SlotsOf(allocs: seq<seq<Slot>>): seq<Slot> {
    if allocs == [] then [] else SlotsOf(allocs[..|allocs| - 1]) + allocs[|allocs| - 1]
  }

  /** Each position given its slot. */
  function Assign(positions: seq<nat>, slots: seq<Slot>): map<nat, Slot>
    requires |positions| == |slots|
  {
    if positions == [] then map[]
    else
      var n := |positions| - 1;
      Assign(positions[..n], slots[..n])[positions[n] := slots[n]]
  }

  /** The slots of a plan lie side by side with the positions of its marks. */
  lemma {:induction false} SlotsAlongMarks(groups: seq<Group>, allocs: seq<seq<Slot>>)
    requires |allocs| == |groups| && forall j :: 0 <= j < |groups| ==> |allocs[j]| == |groups[j].marks|
    ensures |SlotsOf(allocs)| == |Flat(groups)|
    decreases |groups|
  {
    if groups != [] {
      SlotsAlongMarks(groups[..|groups| - 1], allocs[..|allocs| - 1]);
    }
  }

  /** What the loop of `allocate_files_to_groups` leaves in the label
      dicts: the label of each mark holds the slot of that mark. */
  function SlotMap(p: Plan): map<nat, Slot>
    requires PlanFits(p)
  {
    SlotsAlongMarks(p.groups, p.allocs);
    Assign(Flat(p.groups), SlotsOf(p.allocs))
  }

  /** `build_timings()` on the annotated labels. */
  function Schedule(v: Variant, framerate: real, c: Config, labels: seq<Label>): Result<seq<Entry>> {
    var p :- Planned(v, framerate, c, labels);
    Timings(labels, SlotMap(p))
  }

  /** The sanity checks, `process_labels` and `build_timings`. */
  function Run(v: Variant, framerate: real, c: Config, delimiter: string, content: seq<string>): Result<seq<Entry>> {
    var labels :- Processed(c, delimiter, content);
    Schedule(v, framerate, c, labels)
  }

  // ---------------------------------------------------------------------
  // Where the slots land

  lemma {:induction false} AssignKeys(positions: seq<nat>, slots: seq<Slot>, k: nat)
    requires |positions| == |slots|
    ensures k in Assign(positions, slots) <==> k in positions
    ensures k in Assign(positions, slots) ==> Assign(positions, slots)[k] in slots
    decreases |positions|
  {
    if positions != [] {
      var n := |positions| - 1;
      AssignKeys(positions[..n], slots[..n], k);
      assert positions == positions[..n] + [positions[n]];
      assert slots == slots[..n] + [slots[n]];
    }
  }

  /** A slot of the plan is a slot of one of its groups. */
  lemma {:induction false} SlotOfGroup(allocs: seq<seq<Slot>>, s: Slot) returns (j: nat, i: nat)
    requires s in SlotsOf(allocs)
    ensures j < |allocs| && i < |allocs[j]| && allocs[j][i] == s
    decreases |allocs|
  {
    var n := |allocs| - 1;
    if s in SlotsOf(allocs[..n]) {
      j, i := SlotOfGroup(allocs[..n], s);
      assert allocs[..n][j] == allocs[j];
    } else {
      j := n;
      i :| 0 <= i < |allocs[n]| && allocs[n][i] == s;
    }
  }

  /** When every slot of every group has at least as many files as its
      count, the entries can be laid out: every label the groups were built
      from finds its slot. */
  lemma {:induction false} PlanShows(labels: seq<Label>, c: Config, p: Plan)
    requires PlanFits(p) && BuildFrom(c, labels, 0, Building(1.0, [])).Ok?
    requires p.groups == BuildFrom(c, labels, 0, Building(1.0, [])).value.groups
    requires forall j, i :: 0 <= j < |p.allocs| && 0 <= i < |p.allocs[j]| ==> p.allocs[j][i].numFiles <= |p.allocs[j][i].files|
    ensures Timings(labels, SlotMap(p)).Ok?
  {
    BuildMeaning(c, labels);
    var m := SlotMap(p);
    SlotsAlongMarks(p.groups, p.allocs);
    forall k | 0 <= k < |labels| && !Skipped(labels[k])
      ensures k in m && m[k].numFiles <= |m[k].files|
    {
      KeptMeaning(labels, 0, k);
      AssignKeys(Flat(p.groups), SlotsOf(p.allocs), k);
      var j, i := SlotOfGroup(p.allocs, m[k]);
    }
    TimingsMeaning(labels, m);
  }

  /** The plan's groups are the ones `build_groups_from_labels` built, and
      its counts and slots those of each group. */
  lemma {:induction false} PlanParts(v: Variant, framerate: real, c: Config, labels: seq<Label>)
    requires Planned(v, framerate, c, labels).Ok?
    ensures var p := Planned(v, framerate, c, labels).value;
            && BuildFrom(c, labels, 0, Building(1.0, [])).Ok?
            && p.groups == BuildFrom(c, labels, 0, Building(1.0, [])).value.groups
            && GroupsOk(labels, p.groups)
            && forall j :: 0 <= j < |p.groups| ==>
                 && GroupCounts(v, p.groups[j]) == Ok(p.counts[j])
                 && Allocated(v, framerate, p.groups[j], p.counts[j]) == Ok(p.allocs[j])
  {
    var b := BuildFrom(c, labels, 0, Building(1.0, [])).value;
    var counts := ScaleAll(v, b.groups).value;
    var allocs := AllocateAll(v, framerate, b.groups, counts).value;
    assert Planned(v, framerate, c, labels).value == Plan(b.groups, counts, allocs);
    BuildMeaning(c, labels);
  }

  /** In `lapse-parse.py`, once every group has its slots the entries can
      always be laid out: a slot holds exactly as many files as its label's
      count, so `x["files"][f]` never runs past the slice. */
  lemma {:induction false} StandaloneLaysOut(framerate: real, c: Config, labels: seq<Label>)
    requires Planned(Standalone, framerate, c, labels).Ok?
    ensures Schedule(Standalone, framerate, c, labels).Ok?
  {
    var p := Planned(Standalone, framerate, c, labels).value;
    PlanParts(Standalone, framerate, c, labels);
    forall j, i | 0 <= j < |p.allocs| && 0 <= i < |p.allocs[j]|
      ensures p.allocs[j][i].numFiles <= |p.allocs[j][i].files|
    {
      assert GroupOk(labels, p.groups[j]);
      StandaloneTiles(framerate, p.groups[j], p.counts[j], p.allocs[j]);
    }
    PlanShows(labels, c, p);
  }

  /** In `prelapse/parser.py`, when every count came out positive the
      slices lie inside the list and the entries can be laid out: a capped
      slot holds its `goal_files` picks, any other its whole slice. */
  lemma {:induction false} PackagedLaysOut(framerate: real, c: Config, labels: seq<Label>)
    requires Planned(Packaged, framerate, c, labels).Ok?
    requires var p := Planned(Packaged, framerate, c, labels).value;
             forall j, k :: 0 <= j < |p.counts| && 0 <= k < |p.counts[j]| ==> p.counts[j][k] >= 1
    ensures Schedule(Packaged, framerate, c, labels).Ok?
  {
    var p := Planned(Packaged, framerate, c, labels).value;
    PlanParts(Packaged, framerate, c, labels);
    forall j, i | 0 <= j < |p.allocs| && 0 <= i < |p.allocs[j]|
      ensures p.allocs[j][i].numFiles <= |p.allocs[j][i].files|
    {
      PackagedSlotFits(framerate, labels, p.groups[j], p.counts[j], p.allocs[j], i);
    }
    PlanShows(labels, c, p);
  }

  lemma {:induction false} PackagedSlotFits(framerate: real, labels: seq<Label>, g: Group, nfs: seq<int>,
                                            slots: seq<Slot>, i: nat)
    requires GroupOk(labels, g) && GroupCounts(Packaged, g) == Ok(nfs)
    requires forall k :: 0 <= k < |nfs| ==> nfs[k] >= 1
    requires Allocated(Packaged, framerate, g, nfs) == Ok(slots) && i < |slots|
    ensures slots[i].numFiles <= |slots[i].files|
  {
    PackagedTiles(framerate, g, nfs, slots);
    assert TileOk(framerate, g, nfs, i, slots[i]);
    var goal := RoundHalfEven(g.marks[i].duration * framerate);
    if nfs[i] <= goal {
      assert |g.files[Offset(nfs, i)..Offset(nfs, i + 1)]| == nfs[i];
    }
  }

  // ---------------------------------------------------------------------
  // The end label and the returned duration

  /** The labels end on a label passed over as `end`, at time `t`. */
  predicate EndsOnEnd(labels: seq<Label>, t: real) {
    labels != [] && Skipped(labels[|labels| - 1]) && labels[|labels| - 1].begin == t
  }

  /** `split_label_content` keeps the plain `end` label last and marks it
      as `end`. */
  lemma {:induction false} SplitEnd(c: Config, delimiter: string, raw: seq<Label>)
    requires |delimiter| == 1 && delimiter[0] !in "end"
    requires raw != [] && raw[|raw| - 1].text == "end" && raw[|raw| - 1].comment == None
    requires !raw[|raw| - 1].commentOnly
    requires SplitFrom(raw, Decodings(c, delimiter, raw)).Ok?
    ensures EndsOnEnd(SplitFrom(raw, Decodings(c, delimiter, raw)).value.0, raw[|raw| - 1].begin)
  {
    SplitKeepsEnd(c, delimiter, raw);
  }

  /** With such a delimiter the labels end on the `end` label, at the last
      line's timestamp. */
  lemma {:induction false} ProcessedEnd(c: Config, delimiter: string, content: seq<string>)
    requires |delimiter| == 1 && delimiter[0] !in "end"
    requires Processed(c, delimiter, content).Ok?
    ensures ParseDecimal(Fields(content[|content| - 1])[0]).Some?
    ensures EndsOnEnd(Processed(c, delimiter, content).value, ParseDecimal(Fields(content[|content| - 1])[0]).value)
  {
    var raw := ProcessFrom(Readings(content), 0.0).value;
    assert Sanity(content).Ok?;
    assert Processed(c, delimiter, content) == LabelsOf(c, delimiter, content);
    assert LabelsOf(c, delimiter, content).value == SplitFrom(raw, Decodings(c, delimiter, raw)).value.0;
    LastLineRead(content, raw);
    SplitEnd(c, delimiter, raw);
    assert EndsOnEnd(SplitFrom(raw, Decodings(c, delimiter, raw)).value.0, raw[|raw| - 1].begin);
  }

  /** A run that succeeds ends on the `end` label, so the duration the
      packaged parser returns, read back from the last entry, is the last
      line's timestamp to the microsecond. */
  lemma {:induction false} RunEndTime(v: Variant, framerate: real, c: Config, delimiter: string, content: seq<string>)
    requires |delimiter| == 1 && delimiter[0] !in "end"
    requires Run(v, framerate, c, delimiter, content).Ok?
    ensures ParseDecimal(Fields(content[|content| - 1])[0]).Some?
    ensures EndTime(Run(v, framerate, c, delimiter, content).value)
         == Ok(Seconds6(ParseDecimal(Fields(content[|content| - 1])[0]).value))
  {
    RunParts(v, framerate, c, delimiter, content);
    var labels := Processed(c, delimiter, content).value;
    ProcessedEnd(c, delimiter, content);
    assert EndsOnEnd(labels, ParseDecimal(Fields(content[|content| - 1])[0]).value);
    EndTimeOfLast(labels, SlotMap(Planned(v, framerate, c, labels).value));
  }

  /** A run that succeeds has read the labels and planned every group, and
      its entries are the labels' timings under that plan. */
  lemma {:induction false} RunParts(v: Variant, framerate: real, c: Config, delimiter: string, content: seq<string>)
    requires Run(v, framerate, c, delimiter, content).Ok?
    ensures Processed(c, delimiter, content).Ok?
    ensures var labels := Processed(c, delimiter, content).value;
            && Planned(v, framerate, c, labels).Ok?
            && Run(v, framerate, c, delimiter, content) == Timings(labels, SlotMap(Planned(v, framerate, c, labels).value))
  {
  }

  // ---------------------------------------------------------------------
  // The loops of build_timings

  /** A failure among the first `k` groups is the failure of them all. */
  lemma {:induction false} ScaleAllStops(v: Variant, groups: seq<Group>, k: nat)
    requires k <= |groups| && ScaleAll(v, groups[..k]).Err?
    ensures ScaleAll(v, groups) == ScaleAll(v, groups[..k])
    decreases |groups| - k
  {
    if k < |groups| {
      ScaleAllErrAt(v, groups, k);
      ScaleAllStops(v, groups, k + 1);
    } else {
      assert groups[..k] == groups;
    }
  }

  /** A failure among the first `k` groups is the failure of the first
      `k + 1`. */
  lemma {:induction false} ScaleAllErrAt(v: Variant, groups: seq<Group>, k: nat)
    requires k < |groups| && ScaleAll(v, groups[..k]).Err?
    ensures ScaleAll(v, groups[..k + 1]) == ScaleAll(v, groups[..k])
  {
    assert groups[..k + 1][..k] == groups[..k];
    ScaleAllErr(v, groups[..k + 1]);
  }

  /** A failure before the last group is the failure of them all. */
  lemma {:induction false} ScaleAllErr(v: Variant, groups: seq<Group>)
    requires groups != [] && ScaleAll(v, groups[..|groups| - 1]).Err?
    ensures ScaleAll(v, groups) == ScaleAll(v, groups[..|groups| - 1])
  {
  }

  lemma {:induction false} AllocateAllStops(v: Variant, framerate: real, groups: seq<Group>, counts: seq<seq<int>>, k: nat)
    requires CountsFit(groups, counts) && k <= |groups|
    requires AllocateAll(v, framerate, groups[..k], counts[..k]).Err?
    ensures AllocateAll(v, framerate, groups, counts) == AllocateAll(v, framerate, groups[..k], counts[..k])
    decreases |groups| - k
  {
    if k < |groups| {
      assert groups[..k + 1][..k] == groups[..k];
      assert counts[..k + 1][..k] == counts[..k];
      AllocateAllStops(v, framerate, groups, counts, k + 1);
    } else {
      assert groups[..k] == groups && counts[..k] == counts;
    }
  }

  /** One more group scaled. */
  lemma {:induction false} ScaleAllStep(v: Variant, groups: seq<Group>, j: nat, counts: seq<seq<int>>)
    requires j < |groups| && ScaleAll(v, groups[..j]) == Ok(counts)
    ensures GroupCounts(v, groups[j]).Ok? ==> ScaleAll(v, groups[..j + 1]) == Ok(counts + [GroupCounts(v, groups[j]).value])
    ensures GroupCounts(v, groups[j]).Err? ==> ScaleAll(v, groups) == Err(GroupCounts(v, groups[j]).error)
  {
    assert groups[..j + 1][..j] == groups[..j];
    if GroupCounts(v, groups[j]).Err? {
      ScaleAllStops(v, groups, j + 1);
    }
  }

  /** One more group allocated. */
  lemma {:induction false} AllocateAllStep(v: Variant, framerate: real, groups: seq<Group>, counts: seq<seq<int>>,
                                           j: nat, allocs: seq<seq<Slot>>)
    requires CountsFit(groups, counts) && j < |groups|
    requires AllocateAll(v, framerate, groups[..j], counts[..j]) == Ok(allocs)
    ensures var a := Allocated(v, framerate, groups[j], counts[j]);
            && (a.Ok? ==> AllocateAll(v, framerate, groups[..j + 1], counts[..j + 1]) == Ok(allocs + [a.value]))
            && (a.Err? ==> AllocateAll(v, framerate, groups, counts) == Err(a.error))
  {
    assert groups[..j + 1][..j] == groups[..j];
    assert counts[..j + 1][..j] == counts[..j];
    if Allocated(v, framerate, groups[j], counts[j]).Err? {
      AllocateAllStops(v, framerate, groups, counts, j + 1);
    }
  }

  /** One group's `build_tempos_from_group` and `build_scaled_durations`,
      with the counts read back. */
  method ScaleGroup(v: Variant, g: Group) returns (r: Result<seq<int>>)
    ensures r == GroupCounts(v, g)
  {
    var buckets, play := BuildTempos(g.marks);
    TemposMeaning(g.marks);
    BucketedSummed(g.marks, buckets);
    var scaled := ScaledDurations(v, g, buckets, play);
    if scaled.Err? {
      return Err(scaled.error);
    }
    r := Ok(Values(scaled.value));
  }

  /** `for g in groups:` scaling each group in turn. */
  method ScaleGroups(v: Variant, groups: seq<Group>) returns (r: Result<seq<seq<int>>>)
    ensures r == ScaleAll(v, groups)
  {
    var counts: seq<seq<int>> := [];
    for j := 0 to |groups|
      invariant ScaleAll(v, groups[..j]) == Ok(counts)
    {
      var next := ScaleGroup(v, groups[j]);
      ScaleAllStep(v, groups, j, counts);
      if next.Err? {
        return Err(next.error);
      }
      counts := counts + [next.value];
    }
    assert groups[..|groups|] == groups;
    return Ok(counts);
  }

  /** `allocate_files_to_groups()`: the slots of each group in turn. */
  method AllocateGroups(v: Variant, framerate: real, groups: seq<Group>, counts: seq<seq<int>>)
    returns (r: Result<seq<seq<Slot>>>)
    requires CountsFit(groups, counts)
    ensures r == AllocateAll(v, framerate, groups, counts)
  {
    var allocs: seq<seq<Slot>> := [];
    for j := 0 to |groups|
      invariant AllocateAll(v, framerate, groups[..j], counts[..j]) == Ok(allocs)
    {
      var next := AllocateGroup(v, framerate, groups[j], counts[j]);
      AllocateAllStep(v, framerate, groups, counts, j, allocs);
      if next.Err? {
        return Err(next.error);
      }
      allocs := allocs + [next.value];
    }
    assert groups[..|groups|] == groups && counts[..|groups|] == counts;
    return Ok(allocs);
  }

  /** `build_timings()`: the groups, their counts, their slots, and then
      the entries. */
  method ScheduleTimings(v: Variant, framerate: real, c: Config, labels: seq<Label>) returns (r: Result<seq<Entry>>)
    ensures r == Schedule(v, framerate, c, labels)
  {
    var groups :- BuildGroups(c, labels);
    var counts :- ScaleGroups(v, groups);
    var allocs :- AllocateGroups(v, framerate, groups, counts);
    r := BuildTimings(labels, SlotMap(Plan(groups, counts, allocs)));
  }

  // ---------------------------------------------------------------------
  // The two front ends

  /** What `parse_labels_and_config()` produces: the lines of the concat
      list and the duration it returns, read off the last entry before the
      list is written. */
  function Parsed(framerate: real, c: Config, delimiter: string, content: seq<string>): Result<(seq<string>, real)> {
    var labels :- Processed(c, delimiter, content);
    var es :- Schedule(Packaged, framerate, c, labels);
    var end :- EndTime(es);
    Ok((ListLines(Packaged, es), end))
  }

  /** `parse_labels_and_config()` fails only where the run does: reading
      the duration back off the last entry never fails, and it is the last
      line's timestamp to the microsecond. */
  lemma {:induction false} ParsedEndTime(framerate: real, c: Config, delimiter: string, content: seq<string>)
    requires |delimiter| == 1 && delimiter[0] !in "end"
    ensures Parsed(framerate, c, delimiter, content).Ok? <==> Run(Packaged, framerate, c, delimiter, content).Ok?
    ensures Parsed(framerate, c, delimiter, content).Ok? ==>
              && ParseDecimal(Fields(content[|content| - 1])[0]).Some?
              && Parsed(framerate, c, delimiter, content).value
                 == (ListLines(Packaged, Run(Packaged, framerate, c, delimiter, content).value),
                     Seconds6(ParseDecimal(Fields(content[|content| - 1])[0]).value))
  {
    if Run(Packaged, framerate, c, delimiter, content).Ok? {
      RunEndTime(Packaged, framerate, c, delimiter, content);
    }
  }

  /** What `aud_to_ff` writes. The standalone allocation has no frame rate,
      so any value serves. */
  function AudLines(c: Config, delimiter: string, content: seq<string>): Result<seq<string>> {
    var labels :- Processed(c, delimiter, content);
    var es :- Schedule(Standalone, 0.0, c, labels);
    Ok(ListLines(Standalone, es))
  }

  /** The parser object of `prelapse/parser.py`: its settings, and the
      labels and timings its passes store on it. */
  class LapseParser {
    const config: Config
    const delimiter: string
    const framerate: real
    var labels: seq<Label>
    var timings: seq<Entry>

    constructor (config: Config, delimiter: string, framerate: real)
      ensures this.config == config && this.delimiter == delimiter && this.framerate == framerate
      ensures labels == [] && timings == []
    {
      this.config := config;
      this.delimiter := delimiter;
      this.framerate := framerate;
      labels := [];
      timings := [];
    }

    /** `process_labels(content)`: the labels read, checked and annotated
        by `split_label_content`. */
    method ProcessLabels(content: seq<string>) returns (r: Result<()>)
      modifies this
      ensures r.Ok? <==> LabelsOf(config, delimiter, content).Ok?
      ensures r.Ok? ==> labels == LabelsOf(config, delimiter, content).value
      ensures r.Err? ==> r.error == LabelsOf(config, delimiter, content).error && labels == old(labels)
      ensures timings == old(timings)
    {
      var raw := Labels.ProcessLabels(content);
      if raw.Err? {
        return Err(raw.error);
      }
      var split := SplitLabelContent(config, delimiter, raw.value);
      if split.Err? {
        return Err(split.error);
      }
      labels := split.value;
      return Ok(());
    }

    /** `build_timings()` on the stored labels. */
    method BuildTimings() returns (r: Result<()>)
      modifies this
      ensures labels == old(labels)
      ensures r.Ok? <==> Schedule(Packaged, framerate, config, labels).Ok?
      ensures r.Ok? ==> timings == Schedule(Packaged, framerate, config, labels).value
      ensures r.Err? ==> r.error == Schedule(Packaged, framerate, config, labels).error && timings == old(timings)
    {
      var es := ScheduleTimings(Packaged, framerate, config, labels);
      if es.Err? {
        return Err(es.error);
      }
      timings := es.value;
      return Ok(());
    }

    /** `parse_labels_and_config()` on the lines of the label file: the
        sanity checks, both passes, the returned duration and the lines of
        the list. */
    method ParseLabelsAndConfig(content: seq<string>) returns (r: Result<(seq<string>, real)>)
      modifies this
      ensures r == Parsed(framerate, config, delimiter, content)
      ensures Processed(config, delimiter, content).Err? ==> labels == old(labels) && timings == old(timings)
      ensures Processed(config, delimiter, content).Ok? ==> labels == Processed(config, delimiter, content).value
      ensures Processed(config, delimiter, content).Ok? ==>
                timings == if Schedule(Packaged, framerate, config, labels).Ok?
                           then Schedule(Packaged, framerate, config, labels).value else old(timings)
    {
      var ok := Sanity(content);
      if ok.Err? {
        return Err(ok.error);
      }
      var processed := ProcessLabels(content);
      if processed.Err? {
        return Err(processed.error);
      }
      var built := BuildTimings();
      if built.Err? {
        return Err(built.error);
      }
      var end := EndTime(timings);
      if end.Err? {
        return Err(end.error);
      }
      var lines := WriteTimings(Packaged, timings);
      return Ok((lines, end.value));
    }
  }

  /** `aud_to_ff`: the sanity checks, `process_labels`, `build_timings` and
      the lines written. */
  method AudToFf(content: seq<string>, c: Config, delimiter: string) returns (r: Result<seq<string>>)
    ensures r == AudLines(c, delimiter, content)
  {
    var ok := Sanity(content);
    if ok.Err? {
      return Err(ok.error);
    }
    var raw := Labels.ProcessLabels(content);
    if raw.Err? {
      return Err(raw.error);
    }
    var labels := SplitLabelContent(c, delimiter, raw.value);
    if labels.Err? {
      return Err(labels.error);
    }
    var es := ScheduleTimings(Standalone, 0.0, c, labels.value);
    if es.Err? {
      return Err(es.error);
    }
    var lines := WriteTimings(Standalone, es.value);
    return Ok(lines);
  }
}

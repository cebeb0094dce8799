/** `build_timings`: every label becomes one entry holding its line, and a
    label that is not a comment or `end` is followed by one entry per file
    of its mark. The entries are then written as an ffmpeg concat list:
    `# label` for a label, `file '...'` and `duration d` for a file, and a
    closing `file` line repeating the last file. */
module Timeline {
  import opened Base
  import opened Text
  import opened Numbers
  import opened Common
  import opened Labels
  import opened Assembly
  import opened Allocation

  /** One entry of `timings`: a label's line, or a file with the time it
      shows as six-decimal text. */
  datatype Entry = LabelEntry(text: string) | FileEntry(file: string, duration: string)

  /** `"{}\t{}\t{}".format(timestamp_begin, timestamp_end, label)`: the two
      timestamps are the same six-decimal text. */
  function LabelLine(x: Label): string {
    FormatFixed6(x.begin) + "\t" + FormatFixed6(x.begin) + "\t" + x.text
  }

  /** How many times `range(num_files)` runs. */
  function Shown(s: Slot): nat {
    if s.numFiles < 0 then 0 else s.numFiles
  }

  /** The entries of the first `f` files of a slot. */
  function FilesPrefix(s: Slot, f: nat): seq<Entry>
    requires f <= |s.files|
  {
    seq(f, i requires 0 <= i < f => FileEntry(PathJoin(s.path, s.files[i]), FormatFixed6(s.duration)))
  }

  /** The file entries of a label: `num_files` of them, and an IndexError
      when the label holds fewer files than that. */
  function FileEntries(s: Slot): Result<seq<Entry>> {
    if s.numFiles > |s.files| then Err(IndexError) else Ok(FilesPrefix(s, Shown(s)))
  }

  /** The entries of one label, given the slot its mark was allocated. A
      label the allocation never reached has no `num_files`. */
  function Block(x: Label, slot: Option<Slot>): Result<seq<Entry>> {
    if Skipped(x) then Ok([LabelEntry(LabelLine(x))])
    else if slot.None? then Err(KeyError)
    else
      var files :- FileEntries(slot.value);
      Ok([LabelEntry(LabelLine(x))] + files)
  }

  /** The slot stored in label `k`, if any. */
  function SlotAt(slots: map<nat, Slot>, k: nat): Option<Slot> {
    if k in slots then Some(slots[k]) else None
  }

  function Blocks(labels: seq<Label>, slots: map<nat, Slot>): (r: seq<Result<seq<Entry>>>)
  {
    seq(|labels|, k requires 0 <= k < |labels| => Block(labels[k], SlotAt(slots, k)))
  }

  function Concat(bs: seq<seq<Entry>>): seq<Entry> {
    if bs == [] then [] else Concat(bs[..|bs| - 1]) + bs[|bs| - 1]
  }

  /** The whole of `timings`, the labels' blocks one after the other, or
      the first failure. */
  function Timings(labels: seq<Label>, slots: map<nat, Slot>): Result<seq<Entry>> {
    var bs :- Collect(Blocks(labels, slots));
    Ok(Concat(bs))
  }

  /** `for f in range(num_files): timings.append(...)`. */
  method AppendFiles(timings: seq<Entry>, s: Slot) returns (r: Result<seq<Entry>>)
    ensures FileEntries(s).Ok? ==> r == Ok(timings + FileEntries(s).value)
    ensures FileEntries(s).Err? ==> r == Err(IndexError)
  {
    var out := timings;
    for f := 0 to Shown(s)
      invariant f <= |s.files|
      invariant out == timings + FilesPrefix(s, f)
    {
      if f == |s.files| {
        return Err(IndexError);
      }
      assert FilesPrefix(s, f + 1) == FilesPrefix(s, f) + [FileEntry(PathJoin(s.path, s.files[f]), FormatFixed6(s.duration))];
      out := out + [FileEntry(PathJoin(s.path, s.files[f]), FormatFixed6(s.duration))];
    }
    return Ok(out);
  }

  /** One iteration of the loop of `build_timings`: the label's line,
      then its files. */
  method AppendLabel(timings: seq<Entry>, x: Label, slot: Option<Slot>) returns (r: Result<seq<Entry>>)
    ensures Block(x, slot).Ok? ==> r == Ok(timings + Block(x, slot).value)
    ensures Block(x, slot).Err? ==> r == Err(Block(x, slot).error)
  {
    var line := LabelEntry(LabelLine(x));
    if Skipped(x) {
      return Ok(timings + [line]);
    }
    if slot.None? {
      return Err(KeyError);
    }
    r := AppendFiles(timings + [line], slot.value);
    if r.Ok? {
      assert timings + [line] + FileEntries(slot.value).value == timings + ([line] + FileEntries(slot.value).value);
    }
  }

  /** The loop of `build_timings` over the labels, once the marks have
      their slots. */
  method BuildTimings(labels: seq<Label>, slots: map<nat, Slot>) returns (r: Result<seq<Entry>>)
    ensures r == Timings(labels, slots)
  {
    var blocks := Blocks(labels, slots);
    var timings: seq<Entry> := [];
    ghost var done: seq<seq<Entry>> := [];
    for k := 0 to |labels|
      invariant Collect(blocks[..k]) == Ok(done)
      invariant timings == Concat(done)
    {
      assert blocks[..k + 1][..k] == blocks[..k];
      var next := AppendLabel(timings, labels[k], SlotAt(slots, k));
      if next.Err? {
        CollectStops(blocks, k + 1);
        return Err(next.error);
      }
      assert (done + [blocks[k].value])[..|done|] == done;
      done := done + [blocks[k].value];
      timings := next.value;
    }
    assert blocks[..|labels|] == blocks;
    return Ok(timings);
  }

  // ---------------------------------------------------------------------
  // What the entries are

  /** The lines of the label entries, in order. */
  function LabelTexts(es: seq<Entry>): seq<string> {
    if es == [] then []
    else LabelTexts(es[..|es| - 1]) + (if es[|es| - 1].LabelEntry? then [es[|es| - 1].text] else [])
  }

  /** The number of file entries. */
  function FileCount(es: seq<Entry>): nat {
    if es == [] then 0 else FileCount(es[..|es| - 1]) + (if es[|es| - 1].FileEntry? then 1 else 0)
  }

  /** The number of file entries the labels call for. */
  function FilesTotal(labels: seq<Label>, slots: map<nat, Slot>): nat {
    if labels == [] then 0
    else
      var k := |labels| - 1;
      FilesTotal(labels[..k], slots) + (if Skipped(labels[k]) || k !in slots then 0 else Shown(slots[k]))
  }

  /** The lines of the labels, in order. */
  function LabelLines(labels: seq<Label>): seq<string> {
    if labels == [] then [] else LabelLines(labels[..|labels| - 1]) + [LabelLine(labels[|labels| - 1])]
  }

  lemma {:induction false} CountsAppend(a: seq<Entry>, b: seq<Entry>)
    ensures LabelTexts(a + b) == LabelTexts(a) + LabelTexts(b)
    ensures FileCount(a + b) == FileCount(a) + FileCount(b)
    decreases |b|
  {
    if b == [] {
      assert a + b == a;
    } else {
      var n := |b| - 1;
      assert (a + b)[..|a + b| - 1] == a + b[..n];
      CountsAppend(a, b[..n]);
    }
  }

  /** One label's block: its line, then `Shown` file entries. */
  lemma {:induction false} BlockCounts(x: Label, slot: Option<Slot>)
    requires Block(x, slot).Ok?
    ensures LabelTexts(Block(x, slot).value) == [LabelLine(x)]
    ensures FileCount(Block(x, slot).value) == if Skipped(x) then 0 else Shown(slot.value)
  {
    var head := [LabelEntry(LabelLine(x))];
    assert LabelTexts(head) == [LabelLine(x)] && FileCount(head) == 0 by {
      assert head[..0] == [];
    }
    if !Skipped(x) {
      FilesOnly(FilesPrefix(slot.value, Shown(slot.value)));
      CountsAppend(head, FilesPrefix(slot.value, Shown(slot.value)));
    }
  }

  lemma {:induction false} FilesOnly(es: seq<Entry>)
    requires forall i :: 0 <= i < |es| ==> es[i].FileEntry?
    ensures LabelTexts(es) == [] && FileCount(es) == |es|
    decreases |es|
  {
    if es != [] {
      FilesOnly(es[..|es| - 1]);
    }
  }

  lemma {:induction false} ConcatCounts(labels: seq<Label>, slots: map<nat, Slot>, bs: seq<seq<Entry>>)
    requires |bs| == |labels|
    requires forall k :: 0 <= k < |labels| ==> Block(labels[k], SlotAt(slots, k)) == Ok(bs[k])
    ensures LabelTexts(Concat(bs)) == LabelLines(labels)
    ensures FileCount(Concat(bs)) == FilesTotal(labels, slots)
    decreases |bs|
  {
    if bs != [] {
      var n := |bs| - 1;
      ConcatCounts(labels[..n], slots, bs[..n]);
      BlockCounts(labels[n], SlotAt(slots, n));
      CountsAppend(Concat(bs[..n]), bs[n]);
    }
  }

  /** `build_timings` succeeds exactly when every label that is not a
      comment or `end` has a slot holding at least `num_files` files; the
      entries then carry every label's line once, in order, and as many
      file entries as the labels' counts add up to. */
  lemma {:induction false} TimingsMeaning(labels: seq<Label>, slots: map<nat, Slot>)
    ensures Timings(labels, slots).Ok? <==>
              forall k :: 0 <= k < |labels| && !Skipped(labels[k]) ==>
                k in slots && slots[k].numFiles <= |slots[k].files|
    ensures Timings(labels, slots).Ok? ==>
              && LabelTexts(Timings(labels, slots).value) == LabelLines(labels)
              && FileCount(Timings(labels, slots).value) == FilesTotal(labels, slots)
  {
    var blocks := Blocks(labels, slots);
    CollectMeaning(blocks);
    if Collect(blocks).Ok? {
      ConcatCounts(labels, slots, Collect(blocks).value);
    }
  }

  /** Each label's block sits in the entries right after the blocks of the
      labels before it. */
  lemma {:induction false} TimingsBlock(labels: seq<Label>, slots: map<nat, Slot>, k: nat)
    requires k < |labels| && Timings(labels, slots).Ok?
    ensures Block(labels[k], SlotAt(slots, k)).Ok?
    ensures var bs := Collect(Blocks(labels, slots)).value;
            && |bs| == |labels| && Timings(labels, slots).value == Concat(bs)
            && bs[k] == Block(labels[k], SlotAt(slots, k)).value
            && Concat(bs[..k + 1]) == Concat(bs[..k]) + bs[k]
  {
    var blocks := Blocks(labels, slots);
    assert |blocks| == |labels| && blocks[k] == Block(labels[k], SlotAt(slots, k));
    CollectMeaning(blocks);
    var bs := Collect(blocks).value;
    assert bs[..k + 1][..k] == bs[..k];
  }

  // ---------------------------------------------------------------------
  // The written list

  /** The packaged copy opens the list with the concat header and a blank
      line; the standalone one writes none. */
  function Header(v: Variant): seq<string> {
    match v
    case Packaged => ["ffconcat version 1.0", ""]
    case Standalone => []
  }

  function EntryLines(e: Entry): seq<string> {
    match e
    case LabelEntry(t) => ["# " + t]
    case FileEntry(f, d) => [FileLine(f), "duration " + d]
  }

  function AllLines(es: seq<Entry>): seq<string> {
    if es == [] then [] else AllLines(es[..|es| - 1]) + EntryLines(es[|es| - 1])
  }

  /** The file of the last file entry, or "" when there is none. */
  function LastFile(es: seq<Entry>): string {
    if es == [] then ""
    else if es[|es| - 1].FileEntry? then es[|es| - 1].file
    else LastFile(es[..|es| - 1])
  }

  /** The lines written for the entries. */
  function ListLines(v: Variant, es: seq<Entry>): seq<string> {
    Header(v) + AllLines(es) + [FileLine(LastFile(es))]
  }

  /** The writing loop, which keeps the last file written in `last_file`. */
  method WriteTimings(v: Variant, es: seq<Entry>) returns (lines: seq<string>)
    ensures lines == ListLines(v, es)
  {
    var lastFile := "";
    var body := [];
    for k := 0 to |es|
      invariant body == AllLines(es[..k])
      invariant lastFile == LastFile(es[..k])
    {
      WriteStep(es, k);
      body := body + EntryLines(es[k]);
      if es[k].FileEntry? {
        lastFile := es[k].file;
      }
    }
    assert es[..|es|] == es;
    lines := Header(v) + body + [FileLine(lastFile)];
  }

  /** One more entry adds its lines, and becomes the last file when it is
      a file entry. */
  lemma {:induction false} WriteStep(es: seq<Entry>, k: nat)
    requires k < |es|
    ensures AllLines(es[..k + 1]) == AllLines(es[..k]) + EntryLines(es[k])
    ensures LastFile(es[..k + 1]) == if es[k].FileEntry? then es[k].file else LastFile(es[..k])
  {
    assert es[..k + 1][..k] == es[..k];
  }

  /** The closing line names the last file entry's file: the file after
      which only label entries follow; with no file entries at all it names
      the empty path. */
  lemma {:induction false} LastFileMeaning(es: seq<Entry>, k: nat)
    requires k < |es| && es[k].FileEntry?
    requires forall j :: k < j < |es| ==> es[j].LabelEntry?
    ensures LastFile(es) == es[k].file
    decreases |es|
  {
    if k < |es| - 1 {
      LastFileMeaning(es[..|es| - 1], k);
    }
  }

  lemma {:induction false} NoFiles(es: seq<Entry>)
    requires forall j :: 0 <= j < |es| ==> es[j].LabelEntry?
    ensures LastFile(es) == ""
    decreases |es|
  {
    if es != [] {
      NoFiles(es[..|es| - 1]);
    }
  }

  lemma {:induction false} AllLinesAppend(a: seq<Entry>, b: seq<Entry>)
    ensures AllLines(a + b) == AllLines(a) + AllLines(b)
    decreases |b|
  {
    if b == [] {
      assert a + b == a;
    } else {
      var n := |b| - 1;
      assert (a + b)[..|a + b| - 1] == a + b[..n];
      AllLinesAppend(a, b[..n]);
    }
  }

  /** Between the header and the closing `file` line of the last file,
      every entry's lines follow those of the entries before it and precede
      those of the entries after it: a label entry is one `# ` line, a file
      entry a `file` and a `duration` line. */
  lemma {:induction false} ListLinesShape(es: seq<Entry>, k: nat)
    requires k < |es|
    ensures AllLines(es) == AllLines(es[..k]) + EntryLines(es[k]) + AllLines(es[k + 1..])
  {
    var pre, e, post := es[..k], es[k], es[k + 1..];
    assert es == pre + [e] + post;
    AllLinesAppend(pre + [e], post);
    AllLinesAppend(pre, [e]);
    assert AllLines([e]) == EntryLines(e) by {
      assert [e][..0] == [];
    }
  }

  // ---------------------------------------------------------------------
  // The returned end time

  /** `float(timings[-1]["label"].split('\t')[0])`. */
  function EndTime(es: seq<Entry>): Result<real> {
    if es == [] then Err(IndexError)
    else
      match es[|es| - 1]
      case FileEntry(_, _) => Err(KeyError)
      case LabelEntry(t) =>
        match ParseDecimal(Split(t, "\t")[0])
        case None => Err(ValueError)
        case Some(x) => Ok(x)
  }

  /** When the last label is `end` (or a comment), the packaged parser
      returns its timestamp to the microsecond. */
  lemma {:induction false} EndTimeOfLast(labels: seq<Label>, slots: map<nat, Slot>)
    requires labels != [] && Skipped(labels[|labels| - 1]) && Timings(labels, slots).Ok?
    ensures EndTime(Timings(labels, slots).value) == Ok(Seconds6(labels[|labels| - 1].begin))
  {
    LastEntry(labels, slots);
    LineEndTime(Timings(labels, slots).value, labels[|labels| - 1]);
  }

  lemma {:induction false} LastEntry(labels: seq<Label>, slots: map<nat, Slot>)
    requires labels != [] && Skipped(labels[|labels| - 1]) && Timings(labels, slots).Ok?
    ensures var es := Timings(labels, slots).value;
            es != [] && es[|es| - 1] == LabelEntry(LabelLine(labels[|labels| - 1]))
  {
    var n := |labels| - 1;
    TimingsBlock(labels, slots, n);
    var bs := Collect(Blocks(labels, slots)).value;
    assert bs[..n + 1] == bs;
  }

  /** The time read back from a label's line is its timestamp to the
      microsecond. */
  lemma {:induction false} LineEndTime(es: seq<Entry>, x: Label)
    requires es != [] && es[|es| - 1] == LabelEntry(LabelLine(x))
    ensures EndTime(es) == Ok(Seconds6(x.begin))
  {
    var t := FormatFixed6(x.begin);
    NoTab(x.begin);
    SplitFirst(t, t + "\t" + x.text, '\t');
    assert LabelLine(x) == t + ['\t'] + (t + "\t" + x.text);
    assert Split(LabelLine(x), "\t")[0] == t;
    FixedParses(x.begin);
  }

  /** Six-decimal text reads back as the value to the microsecond. */
  lemma {:induction false} FixedParses(x: real)
    ensures ParseDecimal(FormatFixed6(x)) == Some(Seconds6(x))
  {
    var q := MicrosMagnitude(x);
    var v := q as real / 1000000.0;
    var neg := x < 0.0;
    FormatMicrosParses(neg, q, v);
    assert FormatFixed6(x) == FormatMicros(neg, q);
    assert Seconds6(x) == Signed(neg, v);
  }

  /** Six-decimal text holds no tab. */
  lemma {:induction false} NoTab(x: real)
    ensures '\t' !in FormatFixed6(x)
  {
    var q := MicrosMagnitude(x);
    var w := NatToString(q / 1000000);
    var f := PadDigits(q % 1000000, 6);
    var s := w + "." + f;
    assert forall i :: 0 <= i < |s| ==> s[i] == '.' || IsDigit(s[i]);
    assert FormatFixed6(x) == (if x < 0.0 then "-" else "") + s;
  }

  /** The first piece of a split on `c` is the text before the first `c`. */
  lemma {:induction false} SplitFirst(a: string, b: string, c: char)
    requires c !in a
    ensures Split(a + [c] + b, [c])[0] == a
    decreases |a|
  {
    if a == [] {
      assert a + [c] + b == [c] + b;
    } else {
      SplitFirst(a[1..], b, c);
      assert (a + [c] + b)[1..] == a[1..] + [c] + b;
      assert a == [a[0]] + a[1..];
    }
  }
}

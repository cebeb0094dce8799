/** Reading the label file. `process_labels` checks and timestamps every
    line; `split_label_content` then walks the labels from the last one back,
    decodes each label's leading token (`mark`, `end`, `group`,
    `group[i]`, `group[a:b]`) and gives it the time until the next label. */
module Labels {
  import opened Base
  import opened Text
  import opened Numbers
  import opened PyList
  import opened Common

  /** How a group label addresses its catalog group: the whole list, one
      index, or a slice (the two bound texts and the files they select). */
  datatype Ref = Whole | Index(index: int) | Sliced(bounds: seq<string>, files: seq<string>)

  /** What a label's leading token names. */
  datatype Head = MarkHead | EndHead | GroupHead(name: string, ref: Ref)

  /** A label dict as the two passes leave it. `begin` is the timestamp read
      from the line; `diff` and `duration` are the values the dict holds as
      six-decimal text, read back as numbers. */
  datatype Label = Label(
    text: string,
    begin: real,
    commentOnly: bool,
    diff: Option<real>,
    comment: Option<string>,
    head: Option<Head>,
    instructions: seq<string>,
    duration: Option<real>)

  /** `float("{:0.6f}".format(x))`: `x` rounded to whole microseconds, as
      `Numbers.FormatMicrosParses` shows the text reads back. */
  function Seconds6(x: real): real {
    Signed(x < 0.0, MicrosMagnitude(x) as real / 1000000.0)
  }

  /** A difference reads back as zero exactly when it is within half a
      microsecond of zero (the half rounds to the even 0). */
  lemma {:induction false} ZeroWindow(x: real)
    ensures Seconds6(x) == 0.0 <==> -0.0000005 <= x <= 0.0000005
  {
    var y := (if x < 0.0 then -x else x) * 1000000.0;
    if y <= 0.5 {
      assert y.Floor == 0;
    }
  }

  function LStripAll(parts: seq<string>): (r: seq<string>)
    ensures |r| == |parts| && forall k :: 0 <= k < |parts| ==> r[k] == LStrip(parts[k])
  {
    seq(|parts|, k requires 0 <= k < |parts| => LStrip(parts[k]))
  }

  function StripAll(parts: seq<string>): (r: seq<string>)
    ensures |r| == |parts| && forall k :: 0 <= k < |parts| ==> r[k] == Strip(parts[k])
  {
    seq(|parts|, k requires 0 <= k < |parts| => Strip(parts[k]))
  }

  // ---------------------------------------------------------------------
  // process_labels

  /** The three tab-separated fields of a line, when there are three. */
  function Fields(line: string): seq<string> {
    Split(line, "\t")
  }

  /** What `process_labels` reads off one line before it looks at earlier
      lines: the timestamp, the stripped label, and the text after its '#'
      marks (pieces left-stripped and joined with " #"), if it has any. */
  datatype Reading = Reading(begin: real, text: string, comment: Option<string>)

  /** The checks on one line by itself: three fields, both timestamps
      numbers, and equal. */
  function Read(line: string): (r: Result<Reading>)
    ensures r.Ok? <==>
              && |Fields(line)| == 3
              && ParseDecimal(Fields(line)[0]).Some?
              && ParseDecimal(Fields(line)[1]) == ParseDecimal(Fields(line)[0])
    ensures r.Ok? ==>
              && r.value.begin == ParseDecimal(Fields(line)[0]).value
              && r.value.text == Strip(Fields(line)[2])
              && (r.value.comment.Some? <==> '#' in r.value.text)
    ensures r.Err? ==> r.error in {InvalidEntry, ValueError, MismatchedTimestamps}
  {
    var entry := Fields(line);
    if |entry| != 3 then Err(InvalidEntry)
    else
      match (ParseDecimal(entry[0]), ParseDecimal(entry[1]))
      case (Some(begin), Some(end)) =>
        if begin != end then Err(MismatchedTimestamps)
        else
          var text := Strip(entry[2]);
          var comment := if '#' in text then Some(Join(LStripAll(Split(text, "#")[1..]), " #")) else None;
          Ok(Reading(begin, text, comment))
      case _ => Err(ValueError)
  }

  /** The rest of one iteration of `process_labels`: the label made from a
      reading and the new value of `last`, the timestamp of the latest
      non-comment label. A label starting with '#' is a comment; any other
      gets its distance from `last`, which must not read as zero unless the
      label sits at a timestamp <= 0. */
  function Step(rd: Reading, last: real): (r: Result<(Label, real)>)
    ensures r.Ok? <==> StartsWith(rd.text, "#") || !(rd.begin > 0.0 && Seconds6(rd.begin - last) == 0.0)
    ensures r.Ok? ==>
              var x := r.value.0;
              && x.begin == rd.begin && x.text == rd.text
              && (x.commentOnly <==> StartsWith(x.text, "#"))
              && (x.commentOnly ==> x.diff == None && x.comment == None && r.value.1 == last)
              && (!x.commentOnly ==> x.diff == Some(Seconds6(x.begin - last)) && x.comment == rd.comment && r.value.1 == x.begin)
              && x.head == None && x.duration == None
  {
    if StartsWith(rd.text, "#") then Ok((Label(rd.text, rd.begin, true, None, None, None, [], None), last))
    else
      var diff := Seconds6(rd.begin - last);
      if rd.begin > 0.0 && diff == 0.0 then Err(ZeroDifference)
      else Ok((Label(rd.text, rd.begin, false, Some(diff), rd.comment, None, [], None), rd.begin))
  }

  /** Every line read on its own. */
  function Readings(content: seq<string>): (r: seq<Result<Reading>>)
  {
    seq(|content|, k requires 0 <= k < |content| => Read(content[k]))
  }

  /** The reading of line `k`. */
  lemma {:induction false} ReadingAt(content: seq<string>, k: nat)
    requires k < |content|
    ensures |Readings(content)| == |content| && Readings(content)[k] == Read(content[k])
  {
  }

  /** `process_labels` over the remaining readings, `last` being the
      timestamp of the latest non-comment label before them. A line's own
      failure surfaces only when the loop reaches it. */
  function ProcessFrom(readings: seq<Result<Reading>>, last: real): Result<seq<Label>>
    decreases |readings|
  {
    if readings == [] then Ok([])
    else
      var rd :- readings[0];
      var e :- Step(rd, last);
      var rest :- ProcessFrom(readings[1..], e.1);
      Ok([e.0] + rest)
  }

  /** The value of `last` when reading `k` is reached. */
  function LastAt(readings: seq<Result<Reading>>, k: nat, last: real): real
    requires k <= |readings|
    decreases k
  {
    if k == 0 then last
    else
      var before := LastAt(readings, k - 1, last);
      if readings[k - 1].Ok? && Step(readings[k - 1].value, before).Ok? then Step(readings[k - 1].value, before).value.1
      else before
  }

  function Prepend(done: seq<Label>, r: Result<seq<Label>>): Result<seq<Label>> {
    if r.Ok? then Ok(done + r.value) else r
  }

  /** The loop of `process_labels` over the lines, each already read. */
  method ProcessReadings(readings: seq<Result<Reading>>) returns (r: Result<seq<Label>>)
    ensures r == ProcessFrom(readings, 0.0)
  {
    var labels: seq<Label> := [];
    var last := 0.0;
    var k := 0;
    assert readings[0..] == readings;
    var whole := ProcessFrom(readings, 0.0);
    if whole.Ok? {
      assert [] + whole.value == whole.value;
    }
    while k < |readings|
      invariant 0 <= k <= |readings|
      invariant ProcessFrom(readings, 0.0) == Prepend(labels, ProcessFrom(readings[k..], last))
    {
      assert readings[k..][1..] == readings[k + 1..];
      var rd := readings[k];
      if rd.Err? {
        return Err(rd.error);
      }
      var e := Step(rd.value, last);
      if e.Err? {
        return Err(e.error);
      }
      var rest := ProcessFrom(readings[k + 1..], e.value.1);
      if rest.Ok? {
        assert labels + ([e.value.0] + rest.value) == (labels + [e.value.0]) + rest.value;
      }
      labels := labels + [e.value.0];
      last := e.value.1;
      k := k + 1;
    }
    assert readings[k..] == [];
    assert labels + [] == labels;
    return Ok(labels);
  }

  /** `process_labels(content)`: the labels it builds, before
      `split_label_content` runs. Reading a line looks at no other line, so
      reading each line up front and raising its failure when the loop
      reaches it is the same as reading it there. */
  method ProcessLabels(content: seq<string>) returns (r: Result<seq<Label>>)
    ensures r == ProcessFrom(Readings(content), 0.0)
  {
    r := ProcessReadings(Readings(content));
  }

  /** Line `k` passes its own checks and then the checks against the latest
      non-comment timestamp before it. */
  predicate LineOk(readings: seq<Result<Reading>>, k: nat, last: real)
    requires k < |readings|
  {
    readings[k].Ok? && Step(readings[k].value, LastAt(readings, k, last)).Ok?
  }

  /** The pass succeeds exactly when every line is `LineOk`; each label is
      then the one its line yields. */
  lemma {:induction false} ProcessFromLines(readings: seq<Result<Reading>>, last: real)
    ensures ProcessFrom(readings, last).Ok? <==> forall k :: 0 <= k < |readings| ==> LineOk(readings, k, last)
    ensures ProcessFrom(readings, last).Ok? ==>
              |ProcessFrom(readings, last).value| == |readings| &&
              forall k :: 0 <= k < |readings| ==>
                LineOk(readings, k, last) &&
                ProcessFrom(readings, last).value[k] == Step(readings[k].value, LastAt(readings, k, last)).value.0
    decreases |readings|
  {
    if readings != [] {
      var tail := readings[1..];
      assert LastAt(readings, 0, last) == last;
      if readings[0].Ok? && Step(readings[0].value, last).Ok? {
        var e := Step(readings[0].value, last).value;
        var next := e.1;
        ProcessFromLines(tail, next);
        forall k | 0 <= k < |tail|
          ensures LastAt(readings, k + 1, last) == LastAt(tail, k, next) && readings[k + 1] == tail[k]
          ensures LineOk(readings, k + 1, last) == LineOk(tail, k, next)
        {
          LastAtShift(readings, k, last);
        }
        if forall k :: 0 <= k < |readings| ==> LineOk(readings, k, last) {
          assert forall k :: 0 <= k < |tail| ==> LineOk(tail, k, next) by {
            forall k | 0 <= k < |tail|
              ensures LineOk(tail, k, next)
            {
              assert LineOk(readings, k + 1, last);
            }
          }
          var rest := ProcessFrom(tail, next).value;
          var labels := ProcessFrom(readings, last).value;
          assert labels == [e.0] + rest;
          forall k | 0 <= k < |readings|
            ensures LineOk(readings, k, last) && labels[k] == Step(readings[k].value, LastAt(readings, k, last)).value.0
          {
            if k > 0 {
              assert labels[k] == rest[k - 1];
            }
          }
        } else {
          var k :| 0 <= k < |readings| && !LineOk(readings, k, last);
          assert k > 0;
          assert !LineOk(tail, k - 1, next);
        }
      } else {
        assert !LineOk(readings, 0, last);
      }
    }
  }

  /** A successful pass gives line `k` the label its reading makes at the
      `last` in force there. */
  lemma {:induction false} LabelOfLine(readings: seq<Result<Reading>>, last: real, raw: seq<Label>, k: nat)
    requires ProcessFrom(readings, last) == Ok(raw) && k < |readings|
    ensures |raw| == |readings| && readings[k].Ok?
    ensures Step(readings[k].value, LastAt(readings, k, last)).Ok?
    ensures raw[k] == Step(readings[k].value, LastAt(readings, k, last)).value.0
  {
    ProcessFromLines(readings, last);
    assert LineOk(readings, k, last);
  }

  lemma {:induction false} LastAtShift(readings: seq<Result<Reading>>, k: nat, last: real)
    requires readings != [] && readings[0].Ok? && Step(readings[0].value, last).Ok? && k < |readings|
    ensures LastAt(readings, k + 1, last) == LastAt(readings[1..], k, Step(readings[0].value, last).value.1)
    decreases k
  {
    if k > 0 {
      LastAtShift(readings, k - 1, last);
      assert readings[k] == readings[1..][k - 1];
    }
  }

  /** The timestamp of the latest non-comment label before position `k`,
      or `last` when there is none. */
  function LatestBefore(labels: seq<Label>, k: nat, last: real): real
    requires k <= |labels|
    decreases k
  {
    if k == 0 then last
    else if labels[k - 1].commentOnly then LatestBefore(labels, k - 1, last)
    else labels[k - 1].begin
  }

  /** Label `k` as `process_labels` builds it from its line: the line's
      timestamp and stripped text; a comment label (leading '#') has no
      diff; any other label's diff is its distance, in whole microseconds,
      from the latest non-comment label before it (from `last` for the
      first), and is non-zero unless the label sits at a timestamp <= 0. */
  predicate DiffAt(readings: seq<Result<Reading>>, labels: seq<Label>, last: real, k: nat)
    requires |labels| == |readings| && k < |labels|
  {
    && readings[k].Ok?
    && labels[k].begin == readings[k].value.begin && labels[k].text == readings[k].value.text
    && (labels[k].commentOnly <==> StartsWith(labels[k].text, "#"))
    && (labels[k].commentOnly ==> labels[k].diff == None)
    && (!labels[k].commentOnly ==>
          && labels[k].diff == Some(Seconds6(labels[k].begin - LatestBefore(labels, k, last)))
          && !(labels[k].begin > 0.0 && labels[k].diff.value == 0.0))
  }

  /** What `process_labels` promises about the labels it accepts: one label
      per line, each as `DiffAt` describes. */
  lemma {:induction false} ProcessedDiffs(readings: seq<Result<Reading>>, last: real)
    requires ProcessFrom(readings, last).Ok?
    ensures var labels := ProcessFrom(readings, last).value;
            && |labels| == |readings|
            && forall k :: 0 <= k < |labels| ==> DiffAt(readings, labels, last, k)
    decreases |readings|
  {
    var labels := ProcessFrom(readings, last).value;
    if readings != [] {
      var tail := readings[1..];
      var e := Step(readings[0].value, last).value;
      var rest := ProcessFrom(tail, e.1).value;
      ProcessedDiffs(tail, e.1);
      assert labels == [e.0] + rest;
      forall k | 0 <= k < |labels|
        ensures DiffAt(readings, labels, last, k)
      {
        if k > 0 {
          assert DiffAt(tail, rest, e.1, k - 1);
          LatestShift(labels, rest, k, last, e.1);
          assert readings[k] == tail[k - 1] && labels[k] == rest[k - 1];
        }
      }
    }
  }

  lemma {:induction false} LatestShift(labels: seq<Label>, rest: seq<Label>, k: nat, last: real, next: real)
    requires 1 <= k <= |labels| && labels[1..] == rest
    requires next == (if labels[0].commentOnly then last else labels[0].begin)
    ensures LatestBefore(labels, k, last) == LatestBefore(rest, k - 1, next)
    decreases k
  {
    if k > 1 && labels[k - 1].commentOnly {
      LatestShift(labels, rest, k - 1, last, next);
    }
  }

  // ---------------------------------------------------------------------
  // split_label_content

  /** What the leading token `first` of a group label names, with the
      checks of `split_label_content` on `name`, `name[i]` and `name[a:b]`. */
  function ResolveHead(c: Config, first: string): (r: Result<Head>)
    ensures r.Ok? ==> r.value.GroupHead? && Has(c, r.value.name)
    ensures r.Ok? && r.value.ref.Index? ==>
              GroupFiles(c, r.value.name).Some? && At(GroupFiles(c, r.value.name).value, r.value.ref.index).Some?
    ensures r.Ok? && r.value.ref.Sliced? ==>
              |r.value.ref.bounds| == 2 && r.value.ref.files != [] &&
              GroupFiles(c, r.value.name).Some? &&
              r.value.ref.files == Slice(GroupFiles(c, r.value.name).value,
                                         ParseInt(r.value.ref.bounds[0]), ParseInt(r.value.ref.bounds[1]))
    ensures '[' !in first ==> (r.Ok? <==> Has(c, first)) && (r.Ok? ==> r.value == GroupHead(first, Whole))
  {
    var indexed := Split(first, "[");
    if |indexed| == 1 then
      assert '[' !in first ==> indexed == [first] by {
        if '[' !in first { SplitSingle(first, '['); }
      }
      if !Has(c, first) then Err(InvalidFirstLabel) else Ok(GroupHead(first, Whole))
    else
      assert '[' in first by { SplitSingle(first, '['); }
      if |indexed| > 2 then Err(InvalidIndexSlice)
      else if !Has(c, indexed[0]) then Err(InvalidFirstLabel)
      else ResolveBracket(c, indexed[0], indexed[1])
  }

  /** The text after '[' in `name[i]` or `name[a:b]`: a closing bracket,
      then one index, or two bounds of which one is a non-zero int. */
  function ResolveBracket(c: Config, name: string, bracketed: string): (r: Result<Head>)
    ensures r.Ok? ==> r.value.GroupHead? && r.value.name == name
    ensures r.Ok? && r.value.ref.Index? ==>
              GroupFiles(c, name).Some? && At(GroupFiles(c, name).value, r.value.ref.index).Some?
    ensures r.Ok? && r.value.ref.Sliced? ==>
              |r.value.ref.bounds| == 2 && r.value.ref.files != [] &&
              GroupFiles(c, name).Some? &&
              r.value.ref.files == Slice(GroupFiles(c, name).value,
                                         ParseInt(r.value.ref.bounds[0]), ParseInt(r.value.ref.bounds[1]))
  {
    if bracketed == [] then Err(IndexError)
    else if bracketed[|bracketed| - 1] != ']' then Err(MissingBracket)
    else
      var index := bracketed[..|bracketed| - 1];
      var sliced := Split(index, ":");
      if |sliced| > 2 then Err(TooManyColons)
      else if |sliced| == 1 then ResolveIndex(c, name, index)
      else ResolveSlice(c, name, sliced)
  }

  function ResolveIndex(c: Config, name: string, index: string): (r: Result<Head>)
    ensures r.Ok? ==> r.value.GroupHead? && r.value.name == name && r.value.ref.Index?
    ensures r.Ok? ==> GroupFiles(c, name).Some? && At(GroupFiles(c, name).value, r.value.ref.index).Some?
  {
    match ParseInt(index)
    case None => Err(InvalidIndex)
    case Some(i) =>
      match GroupFiles(c, name)
      case None => Err(KeyError)
      case Some(files) => if At(files, i).None? then Err(IndexOutOfRange) else Ok(GroupHead(name, Index(i)))
  }

  function ResolveSlice(c: Config, name: string, sliced: seq<string>): (r: Result<Head>)
    requires |sliced| == 2
    ensures r.Ok? ==> r.value.GroupHead? && r.value.name == name && r.value.ref.Sliced?
    ensures r.Ok? ==>
              r.value.ref.bounds == sliced && r.value.ref.files != [] &&
              GroupFiles(c, name).Some? &&
              r.value.ref.files == Slice(GroupFiles(c, name).value, ParseInt(sliced[0]), ParseInt(sliced[1]))
  {
    var start, stop := ParseInt(sliced[0]), ParseInt(sliced[1]);
    if !(Truthy(start) || Truthy(stop)) then Err(InvalidSlice)
    else
      match GroupFiles(c, name)
      case None => Err(KeyError)
      case Some(files) =>
        var picked := Slice(files, start, stop);
        if picked == [] then Err(EmptySlice) else Ok(GroupHead(name, Sliced(sliced, picked)))
  }

  /** `name[` followed by text with no further '[': an unknown name is
      refused, then a missing closing bracket; a closed bracket is left to
      `ResolveBracket` (see `ClosedBracket`). */
  lemma {:induction false} BracketedHead(c: Config, name: string, bracketed: string)
    requires '[' !in name && '[' !in bracketed
    ensures var r := ResolveHead(c, name + "[" + bracketed);
            && (!Has(c, name) ==> r == Err(InvalidFirstLabel))
            && (Has(c, name) && bracketed != [] && bracketed[|bracketed| - 1] != ']' ==> r == Err(MissingBracket))
            && (Has(c, name) && bracketed != [] && bracketed[|bracketed| - 1] == ']' ==>
                  r == ResolveBracket(c, name, bracketed))
  {
    var first := name + "[" + bracketed;
    assert first == name + ['['] + bracketed;
    SplitAround(name, bracketed, '[');
    assert Split(first, "[") == [name, bracketed];
  }

  /** The checks on `name[inner]` for a known `name`, in the order
      `split_label_content` makes them. */
  lemma {:induction false} ClosedBracket(c: Config, name: string, inner: string)
    ensures var r := ResolveBracket(c, name, inner + "]"); var pieces := Split(inner, ":");
            && (|pieces| > 2 ==> r == Err(TooManyColons))
            && (|pieces| == 1 ==>
                  && (ParseInt(inner).None? ==> r == Err(InvalidIndex))
                  && (ParseInt(inner).Some? && GroupFiles(c, name).None? ==> r == Err(KeyError))
                  && (r.Ok? <==> ParseInt(inner).Some? && GroupFiles(c, name).Some?
                                 && At(GroupFiles(c, name).value, ParseInt(inner).value).Some?)
                  && (r.Ok? ==> r == Ok(GroupHead(name, Index(ParseInt(inner).value))))
                  && (r.Err? && ParseInt(inner).Some? && GroupFiles(c, name).Some? ==> r == Err(IndexOutOfRange)))
            && (|pieces| == 2 ==>
                  var start, stop := ParseInt(pieces[0]), ParseInt(pieces[1]);
                  && (!(Truthy(start) || Truthy(stop)) ==> r == Err(InvalidSlice))
                  && (r.Ok? <==> (Truthy(start) || Truthy(stop)) && GroupFiles(c, name).Some?
                                 && Slice(GroupFiles(c, name).value, start, stop) != [])
                  && (r.Ok? ==> r == Ok(GroupHead(name, Sliced(pieces, Slice(GroupFiles(c, name).value, start, stop)))))
                  && (r.Err? && (Truthy(start) || Truthy(stop)) && GroupFiles(c, name).Some? ==> r == Err(EmptySlice)))
  {
    assert (inner + "]")[..|inner|] == inner;
  }

  /** The label with its trailing comment cut off. */
  function Body(x: Label): string {
    if x.comment.Some? then Split(x.text, "#")[0] else x.text
  }

  /** The part of one iteration of `split_label_content` that looks at the
      label alone: its instructions (the pieces between delimiters,
      stripped) and what its first instruction names. */
  function Decode(c: Config, delimiter: string, x: Label): (r: Result<(Head, seq<string>)>)
    ensures r.Ok? ==>
              var (head, instructions) := r.value;
              && |instructions| >= 1
              && |Words(instructions[0])| == 1
              && (head.MarkHead? <==> instructions[0] == "mark")
              && (head.EndHead? <==> instructions[0] == "end")
              && (head.GroupHead? ==> ResolveHead(c, instructions[0]) == Ok(head))
    ensures delimiter == [] ==> r == Err(ValueError)
  {
    if delimiter == [] then Err(ValueError)
    else
      var instructions := StripAll(Split(Body(x), delimiter));
      var first := instructions[0];
      if |Words(first)| != 1 then Err(InvalidFirstLabel)
      else if first == "mark" then Ok((MarkHead, instructions))
      else if first == "end" then Ok((EndHead, instructions))
      else
        var head :- ResolveHead(c, first);
        Ok((head, instructions))
  }

  /** Every label decoded on its own. */
  function Decodings(c: Config, delimiter: string, labels: seq<Label>): (r: seq<Result<(Head, seq<string>)>>)
  {
    seq(|labels|, k requires 0 <= k < |labels| => Decode(c, delimiter, labels[k]))
  }

  /** The decoding of label `k`. */
  lemma {:induction false} DecodingAt(c: Config, delimiter: string, labels: seq<Label>, k: nat)
    requires k < |labels|
    ensures |Decodings(c, delimiter, labels)| == |labels| && Decodings(c, delimiter, labels)[k] == Decode(c, delimiter, labels[k])
  {
  }

  /** One iteration of `split_label_content` for label `x`, given its
      decoding: `later` is the timestamp of the next non-comment label
      (unbound when there is none), and `final` says that `x` is the very
      last label, which gets no duration. */
  function AnnotateLabel(x: Label, decoded: Result<(Head, seq<string>)>, later: Option<real>, final: bool): (r: Result<Label>)
    ensures x.commentOnly ==> r == Ok(x)
    ensures !x.commentOnly ==> (r.Ok? <==> decoded.Ok? && (final || later.Some?))
    ensures r.Ok? ==> r.value.text == x.text && r.value.begin == x.begin && r.value.commentOnly == x.commentOnly
    ensures r.Ok? && !x.commentOnly ==>
              && r.value.head == Some(decoded.value.0) && r.value.instructions == decoded.value.1
              && (final ==> r.value.duration == None)
              && (!final ==> r.value.duration == Some(Seconds6(Seconds6(later.value) - Seconds6(x.begin))))
  {
    if x.commentOnly then Ok(x)
    else
      var (head, instructions) :- decoded;
      if final then Ok(x.(head := Some(head), instructions := instructions, duration := None))
      else
        match later
        case None => Err(NameError)
        case Some(l) =>
          Ok(x.(head := Some(head), instructions := instructions, duration := Some(Seconds6(Seconds6(l) - Seconds6(x.begin)))))
  }

  /** `split_label_content` on a suffix of the labels (the walk goes from the
      end), each label with its decoding: the annotated suffix and the
      timestamp of its first non-comment label, which is what `last` holds
      once the suffix is done. */
  function SplitFrom(labels: seq<Label>, decoded: seq<Result<(Head, seq<string>)>>): Result<(seq<Label>, Option<real>)>
    requires |decoded| == |labels|
    decreases |labels|
  {
    if labels == [] then Ok(([], None))
    else
      var done :- SplitFrom(labels[1..], decoded[1..]);
      var x :- AnnotateLabel(labels[0], decoded[0], done.1, |labels| == 1);
      Ok(([x] + done.0, if labels[0].commentOnly then done.1 else Some(labels[0].begin)))
  }

  /** A failure anywhere in a suffix is the failure of the whole walk, since
      the walk reaches that suffix first. */
  lemma {:induction false} SplitFromFails(labels: seq<Label>, decoded: seq<Result<(Head, seq<string>)>>, k: nat)
    requires |decoded| == |labels| && k <= |labels| && SplitFrom(labels[k..], decoded[k..]).Err?
    ensures SplitFrom(labels, decoded) == SplitFrom(labels[k..], decoded[k..])
    decreases k
  {
    if k > 0 {
      assert labels[k - 1..][1..] == labels[k..];
      assert decoded[k - 1..][1..] == decoded[k..];
      SplitFromFails(labels, decoded, k - 1);
    } else {
      assert labels[0..] == labels && decoded[0..] == decoded;
    }
  }

  /** The walk of `split_label_content` from the last label to the first,
      each non-comment one annotated in place. */
  method SplitWalk(labels: seq<Label>, decoded: seq<Result<(Head, seq<string>)>>) returns (r: Result<seq<Label>>)
    requires |decoded| == |labels|
    ensures r.Ok? <==> SplitFrom(labels, decoded).Ok?
    ensures r.Ok? ==> r.value == SplitFrom(labels, decoded).value.0
    ensures r.Err? ==> r.error == SplitFrom(labels, decoded).error
  {
    var out := labels;
    var last: Option<real> := None;
    var k := |labels|;
    while k > 0
      invariant 0 <= k <= |labels| && |out| == |labels|
      invariant out[..k] == labels[..k]
      invariant SplitFrom(labels[k..], decoded[k..]) == Ok((out[k..], last))
    {
      k := k - 1;
      var x := labels[k];
      assert labels[k..][1..] == labels[k + 1..];
      assert decoded[k..][1..] == decoded[k + 1..];
      var annotated := AnnotateLabel(x, decoded[k], last, k == |labels| - 1);
      if annotated.Err? {
        SplitFromFails(labels, decoded, k);
        return Err(annotated.error);
      }
      assert out[k + 1..] == out[k := annotated.value][k + 1..];
      out := out[k := annotated.value];
      assert out[k..] == [annotated.value] + out[k + 1..];
      if !x.commentOnly {
        last := Some(x.begin);
      }
    }
    assert labels[0..] == labels && decoded[0..] == decoded;
    assert out[0..] == out;
    return Ok(out);
  }

  /** `split_label_content(labels)`. Decoding a label looks at no other
      label, so decoding each up front and raising its failure when the walk
      reaches it is the same as decoding it there. */
  method SplitLabelContent(c: Config, delimiter: string, labels: seq<Label>) returns (r: Result<seq<Label>>)
    ensures r.Ok? <==> SplitFrom(labels, Decodings(c, delimiter, labels)).Ok?
    ensures r.Ok? ==> r.value == SplitFrom(labels, Decodings(c, delimiter, labels)).value.0
    ensures r.Err? ==> r.error == SplitFrom(labels, Decodings(c, delimiter, labels)).error
  {
    r := SplitWalk(labels, Decodings(c, delimiter, labels));
  }

  /** The timestamp of the first non-comment label at or after `k`. */
  function NextBegin(labels: seq<Label>, k: nat): Option<real>
    requires k <= |labels|
    decreases |labels| - k
  {
    if k == |labels| then None
    else if labels[k].commentOnly then NextBegin(labels, k + 1)
    else Some(labels[k].begin)
  }

  /** Label `k` as `split_label_content` leaves it: text, timestamp and
      kind kept; a comment label untouched; any other label carrying its
      decoding, and as duration the distance, in whole microseconds, to the
      next non-comment label, except for the very last label, which has
      none. */
  predicate AnnotatedAt(labels: seq<Label>, decoded: seq<Result<(Head, seq<string>)>>, out: seq<Label>, k: nat)
    requires |decoded| == |labels| == |out| && k < |labels|
  {
    && out[k].text == labels[k].text && out[k].begin == labels[k].begin
    && out[k].commentOnly == labels[k].commentOnly
    && (labels[k].commentOnly ==> out[k] == labels[k])
    && (!labels[k].commentOnly ==>
          && decoded[k].Ok?
          && out[k].head == Some(decoded[k].value.0) && out[k].instructions == decoded[k].value.1
          && (k == |labels| - 1 ==> out[k].duration == None)
          && (k < |labels| - 1 ==>
                NextBegin(labels, k + 1).Some? &&
                out[k].duration == Some(Seconds6(Seconds6(NextBegin(labels, k + 1).value) - Seconds6(labels[k].begin)))))
  }

  /** The last label, unless it is a comment, comes out at its own time
      with the head it decodes to. */
  lemma {:induction false} LastAnnotated(labels: seq<Label>, decoded: seq<Result<(Head, seq<string>)>>)
    requires |decoded| == |labels| && labels != [] && !labels[|labels| - 1].commentOnly
    requires SplitFrom(labels, decoded).Ok?
    ensures var out := SplitFrom(labels, decoded).value.0;
            && |out| == |labels| && decoded[|labels| - 1].Ok?
            && out[|out| - 1].head == Some(decoded[|labels| - 1].value.0)
            && out[|out| - 1].begin == labels[|labels| - 1].begin
  {
    SplitDurations(labels, decoded);
    assert AnnotatedAt(labels, decoded, SplitFrom(labels, decoded).value.0, |labels| - 1);
  }

  /** What `split_label_content` promises about the labels it accepts: one
      label out per label in, each as `AnnotatedAt` describes. */
  lemma {:induction false} SplitDurations(labels: seq<Label>, decoded: seq<Result<(Head, seq<string>)>>)
    requires |decoded| == |labels| && SplitFrom(labels, decoded).Ok?
    ensures var (out, later) := SplitFrom(labels, decoded).value;
            && |out| == |labels|
            && later == NextBegin(labels, 0)
            && forall k :: 0 <= k < |labels| ==> AnnotatedAt(labels, decoded, out, k)
    decreases |labels|
  {
    if labels != [] {
      var tail, dtail := labels[1..], decoded[1..];
      SplitDurations(tail, dtail);
      var done := SplitFrom(tail, dtail).value;
      var x := AnnotateLabel(labels[0], decoded[0], done.1, |labels| == 1).value;
      var out := SplitFrom(labels, decoded).value.0;
      assert out == [x] + done.0;
      NextBeginShift(labels, 0);
      forall k | 0 <= k < |labels|
        ensures AnnotatedAt(labels, decoded, out, k)
      {
        if k > 0 {
          assert AnnotatedAt(tail, dtail, done.0, k - 1);
          NextBeginShift(labels, k);
          assert labels[k] == tail[k - 1] && decoded[k] == dtail[k - 1] && out[k] == done.0[k - 1];
        }
      }
    }
  }

  lemma {:induction false} NextBeginShift(labels: seq<Label>, k: nat)
    requires labels != [] && k <= |labels| - 1
    ensures NextBegin(labels, k + 1) == NextBegin(labels[1..], k)
    decreases |labels| - k
  {
    if k < |labels| - 1 {
      NextBeginShift(labels, k + 1);
      assert labels[k + 1] == labels[1..][k];
    }
  }

  // ---------------------------------------------------------------------
  // The end label

  /** A line whose third field strips to `end` reads as the text `end`
      with no comment. */
  lemma {:induction false} EndReading(line: string)
    requires Read(line).Ok? && Strip(Fields(line)[2]) == "end"
    ensures Read(line).value.text == "end" && Read(line).value.comment == None
  {
    var end := Read(line).value.text;
    assert end == "end";
    assert '#' !in end by {
      assert end == ['e', 'n', 'd'];
    }
  }

  /** The reading `end` becomes a label that is neither a comment nor
      commented. */
  lemma {:induction false} EndStep(rd: Reading, last: real)
    requires rd.text == "end" && rd.comment == None && Step(rd, last).Ok?
    ensures var x := Step(rd, last).value.0;
            x.text == "end" && !x.commentOnly && x.comment == None && x.begin == rd.begin
  {
    assert !StartsWith(rd.text, "#") by {
      assert rd.text[..1] == "e";
    }
  }

  /** The last line, once read and checked, is a plain `end` label: not a
      comment and with no trailing comment. */
  lemma {:induction false} LastLineRead(content: seq<string>, raw: seq<Label>)
    requires content != [] && |Fields(content[|content| - 1])| >= 3 && Strip(Fields(content[|content| - 1])[2]) == "end"
    requires ProcessFrom(Readings(content), 0.0) == Ok(raw)
    ensures |raw| == |content| && ParseDecimal(Fields(content[|content| - 1])[0]).Some?
    ensures var x := raw[|raw| - 1];
            && x.text == "end" && !x.commentOnly && x.comment == None
            && x.begin == ParseDecimal(Fields(content[|content| - 1])[0]).value
  {
    var n := |content| - 1;
    ReadingAt(content, n);
    LastLineOfPass(Readings(content), n, content[n], raw);
  }

  /** `LastLineRead` for any pass whose last reading is that of `line`. */
  lemma {:induction false} LastLineOfPass(rs: seq<Result<Reading>>, n: nat, line: string, raw: seq<Label>)
    requires |rs| == n + 1 && rs[n] == Read(line)
    requires |Fields(line)| >= 3 && Strip(Fields(line)[2]) == "end"
    requires ProcessFrom(rs, 0.0) == Ok(raw)
    ensures |raw| == |rs| && ParseDecimal(Fields(line)[0]).Some?
    ensures var x := raw[|raw| - 1];
            && x.text == "end" && !x.commentOnly && x.comment == None
            && x.begin == ParseDecimal(Fields(line)[0]).value
  {
    LabelOfLine(rs, 0.0, raw, n);
    EndReading(line);
    EndLabelOfPass(rs, raw);
  }

  /** A pass whose last reading is a plain `end` ends on a plain `end`
      label at that reading's timestamp. */
  lemma {:induction false} EndLabelOfPass(rs: seq<Result<Reading>>, raw: seq<Label>)
    requires rs != [] && rs[|rs| - 1].Ok?
    requires rs[|rs| - 1].value.text == "end" && rs[|rs| - 1].value.comment == None
    requires ProcessFrom(rs, 0.0) == Ok(raw)
    ensures |raw| == |rs|
    ensures var x := raw[|raw| - 1];
            && x.text == "end" && !x.commentOnly && x.comment == None
            && x.begin == rs[|rs| - 1].value.begin
  {
    var n := |rs| - 1;
    LabelOfLine(rs, 0.0, raw, n);
    EndStep(rs[n].value, LastAt(rs, n, 0.0));
  }

  /** With a one-character delimiter that is not a letter of `end`, the
      `end` label decodes as `end`. */
  lemma {:induction false} EndDecodes(c: Config, delimiter: string, x: Label)
    requires |delimiter| == 1 && delimiter[0] !in "end"
    requires x.text == "end" && x.comment == None
    ensures Decode(c, delimiter, x).Ok? && Decode(c, delimiter, x).value.0 == EndHead
  {
    EndBody(delimiter, x);
  }

  /** The `end` label's body is `end`, a single word and, split and
      stripped, its only instruction. */
  lemma {:induction false} EndBody(delimiter: string, x: Label)
    requires |delimiter| == 1 && delimiter[0] !in "end"
    requires x.text == "end" && x.comment == None
    ensures var body := Body(x);
            && body == "end" && |Words(body)| == 1 && StripAll(Split(body, delimiter)) == [body]
  {
    var body := Body(x);
    EndWord(body);
    assert delimiter[0] !in body;
    SingleInstruction(body, delimiter);
  }

  /** A stripped body without the one-character delimiter is a single
      instruction, itself. */
  lemma {:induction false} SingleInstruction(body: string, delimiter: string)
    requires |delimiter| == 1 && delimiter[0] !in body && Strip(body) == body
    ensures StripAll(Split(body, delimiter)) == [body]
  {
    SplitUnsplit(body, delimiter);
    var instructions := StripAll(Split(body, delimiter));
    assert |instructions| == 1 && instructions[0] == body;
  }

  /** Text without the one-character separator splits into itself. */
  lemma {:induction false} SplitUnsplit(s: string, sep: string)
    requires |sep| == 1 && sep[0] !in s
    ensures Split(s, sep) == [s]
  {
    assert sep == [sep[0]];
    SplitSingle(s, sep[0]);
  }

  /** `end` is its own stripped form, and a single word. */
  lemma {:induction false} EndWord(w: string)
    requires w == "end"
    ensures Strip(w) == w && |Words(w)| == 1
  {
    assert !IsSpace(w[0]) && !IsSpace(w[1]) && !IsSpace(w[2]);
    StripOfStripped(w);
    SingleWord(w);
  }

  /** With such a delimiter, `split_label_content` keeps the plain `end`
      label last, with the head `end` and its own timestamp. */
  lemma {:induction false} SplitKeepsEnd(c: Config, delimiter: string, raw: seq<Label>)
    requires |delimiter| == 1 && delimiter[0] !in "end"
    requires raw != [] && raw[|raw| - 1].text == "end" && raw[|raw| - 1].comment == None
    requires !raw[|raw| - 1].commentOnly
    requires SplitFrom(raw, Decodings(c, delimiter, raw)).Ok?
    ensures var out := SplitFrom(raw, Decodings(c, delimiter, raw)).value.0;
            && out != [] && out[|out| - 1].head == Some(EndHead) && out[|out| - 1].begin == raw[|raw| - 1].begin
  {
    LastDecoding(c, delimiter, raw);
    LastAnnotated(raw, Decodings(c, delimiter, raw));
  }

  /** The plain `end` label, last, decodes as `end`. */
  lemma {:induction false} LastDecoding(c: Config, delimiter: string, raw: seq<Label>)
    requires |delimiter| == 1 && delimiter[0] !in "end"
    requires raw != [] && raw[|raw| - 1].text == "end" && raw[|raw| - 1].comment == None
    ensures var d := Decodings(c, delimiter, raw);
            |d| == |raw| && d[|raw| - 1].Ok? && d[|raw| - 1].value.0 == EndHead
  {
    DecodingAt(c, delimiter, raw, |raw| - 1);
    EndDecodes(c, delimiter, raw[|raw| - 1]);
  }
}

/** The group catalog (the JSON config) and the helpers shared by the
    commands: parsing `name`, `name[i]` and `name[a:b]` group references,
    resolving them against the catalog, and laying out an ffmpeg
    concat-demuxer list file. */
module Common {
  import opened Base
  import opened Text
  import opened Numbers
  import opened PyList

  /** One member of a meta group's collection: `{"group": ..., "type": ...}`. */
  datatype Member = Member(group: string, kind: string)

  /** A catalog entry: a pure group (`{"path": ..., "files": [...]}`) or a
      meta group (`{"meta": true, "collection": [...]}`). */
  datatype GroupEntry =
    | Pure(path: string, files: seq<string>)
    | Meta(collection: seq<Member>)

  /** The catalog: a JSON object, its keys in insertion order. */
  type Config = seq<(string, GroupEntry)>

  /** A JSON object never repeats a key. */
  predicate Keyed(c: Config) {
    forall i, j :: 0 <= i < j < |c| ==> c[i].0 != c[j].0
  }

  function Keys(c: Config): (r: seq<string>)
    ensures |r| == |c| && forall k :: 0 <= k < |c| ==> r[k] == c[k].0
  {
    if c == [] then [] else [c[0].0] + Keys(c[1..])
  }

  /** `name in config`. */
  predicate Has(c: Config, name: string) {
    exists k :: 0 <= k < |c| && c[k].0 == name
  }

  /** Position of a key (`list(config.keys()).index(name)`). */
  function KeyIndex(c: Config, name: string): (k: nat)
    requires Has(c, name)
    ensures k < |c| && c[k].0 == name
    ensures forall j :: 0 <= j < k ==> c[j].0 != name
  {
    if c[0].0 == name then 0
    else
      assert Has(c[1..], name) by {
        var k :| 0 <= k < |c| && c[k].0 == name;
        assert c[1..][k - 1].0 == name;
      }
      1 + KeyIndex(c[1..], name)
  }

  /** `config[name]`: a missing key raises `KeyError` (None). */
  function Lookup(c: Config, name: string): (r: Option<GroupEntry>)
  {
    if Has(c, name) then Some(c[KeyIndex(c, name)].1) else None
  }

  /** `config[name]["files"]`: `KeyError` for a missing group and for a meta
      group, which has no file list. */
  function GroupFiles(c: Config, name: string): Option<seq<string>> {
    match Lookup(c, name)
    case Some(Pure(_, files)) => Some(files)
    case _ => None
  }

  /** `os.path.join(a, b)` with POSIX separators. */
  function PathJoin(a: string, b: string): string {
    if |b| > 0 && b[0] == '/' then b
    else if a == [] || a[|a| - 1] == '/' then a + b
    else a + "/" + b
  }

  // ---------------------------------------------------------------------
  // Group references

  /** Python truthiness of an optional int: `None` and `0` are false. */
  predicate Truthy(v: Option<int>) {
    v.Some? && v.value != 0
  }

  predicate IsRefChar(c: char) {
    c == ':' || c == '[' || c == ']'
  }

  /** Whether any of ':', '[' and ']' occurs in the reference. */
  predicate HasRefChar(s: string) {
    s != [] && (IsRefChar(s[0]) || HasRefChar(s[1..]))
  }

  lemma {:induction false} HasRefCharMeaning(s: string)
    ensures HasRefChar(s) <==> exists i :: 0 <= i < |s| && IsRefChar(s[i])
  {
    if s != [] {
      HasRefCharMeaning(s[1..]);
      if exists i :: 0 <= i < |s| && IsRefChar(s[i]) {
        var i :| 0 <= i < |s| && IsRefChar(s[i]);
        if i > 0 {
          assert IsRefChar(s[1..][i - 1]);
        }
      }
      if exists i :: 0 <= i < |s[1..]| && IsRefChar(s[1..][i]) {
        var i :| 0 <= i < |s[1..]| && IsRefChar(s[1..][i]);
        assert IsRefChar(s[i + 1]);
      }
    }
  }

  /** The parsed form of a group argument: its name, and the index or the
      (start, stop) pair it carries, if any. */
  datatype GroupRef = GroupRef(name: string, index: Option<int>, slice: Option<(Option<int>, Option<int>)>)

  /** `parseGroupSliceIndex(group)`. */
  function ParseGroupSliceIndex(group: string): Result<GroupRef> {
    if !HasRefChar(group) then Ok(GroupRef(group, None, None))
    else
      var tmp := Split(group, "[");
      if |tmp| != 2 then Err(AssertionError)
      else if tmp[1] == [] then Err(IndexError)
      else if tmp[1][|tmp[1]| - 1] != ']' then Err(AssertionError)
      else
        var pieces := Split(tmp[1][..|tmp[1]| - 1], ":");
        if |pieces| > 2 then Err(TooManyColons)
        else if |pieces| == 1 then
          match ParseInt(pieces[0])
          case None => Err(ValueError)
          case Some(index) => if index >= 0 then Ok(GroupRef(tmp[0], Some(index), None)) else Err(AssertionError)
        else
          var start, stop := ParseInt(pieces[0]), ParseInt(pieces[1]);
          if !(Truthy(start) || Truthy(stop)) then Err(InvalidSlice)
          else Ok(GroupRef(tmp[0], None, Some((start, stop))))
  }

  /** A reference with none of ':', '[' and ']' is returned unchanged, and
      only such a reference is. */
  lemma {:induction false} PlainReference(group: string)
    ensures ParseGroupSliceIndex(group) == Ok(GroupRef(group, None, None))
            <==> forall i :: 0 <= i < |group| ==> !IsRefChar(group[i])
  {
    HasRefCharMeaning(group);
    if HasRefChar(group) {
      var tmp := Split(group, "[");
      if |tmp| == 2 && tmp[1] != [] {
        assert |tmp[0]| < |group| by {
          JoinSplit(group, "[");
          assert group == tmp[0] + "[" + tmp[1];
        }
      }
    }
  }

  /** Text written for an optional bound of a slice reference. */
  function BoundText(v: Option<int>): string {
    match v
    case None => ""
    case Some(k) => IntToString(k)
  }

  predicate NameOk(name: string) {
    forall i :: 0 <= i < |name| ==> !IsRefChar(name[i])
  }

  lemma {:induction false} IntTextHasNoRefChar(n: int)
    ensures forall i :: 0 <= i < |IntToString(n)| ==> !IsRefChar(IntToString(n)[i]) && IntToString(n)[i] != '.'
  {
    var d := NatToString(if n < 0 then -n else n);
    assert AllDigits(d);
    if n < 0 {
      assert forall i :: 1 <= i < |IntToString(n)| ==> IntToString(n)[i] == d[i - 1];
    }
  }

  lemma {:induction false} ParseIntOfBound(v: Option<int>)
    ensures ParseInt(BoundText(v)) == v
  {
    if v.Some? {
      ParseIntOfString(v.value);
    } else {
      assert SignOf(Strip("")) == (false, "");
    }
  }

  /** `name[i]` for a non-negative `i` parses back to the name and the index. */
  lemma {:induction false} IndexReferenceRoundTrip(name: string, index: nat)
    requires NameOk(name)
    ensures ParseGroupSliceIndex(name + "[" + IntToString(index) + "]") == Ok(GroupRef(name, Some(index), None))
  {
    var digits := IntToString(index);
    var group := name + "[" + digits + "]";
    IntTextHasNoRefChar(index);
    assert group[|name|] == '[';
    HasRefCharMeaning(group);
    var inner := digits + "]";
    assert group == name + ['['] + inner;
    assert '[' !in name by { assert forall i :: 0 <= i < |name| ==> name[i] != '['; }
    assert '[' !in inner by { assert forall i :: 0 <= i < |inner| ==> inner[i] != '['; }
    SplitAround(name, inner, '[');
    assert inner[..|inner| - 1] == digits;
    assert ':' !in digits by { assert forall i :: 0 <= i < |digits| ==> digits[i] != ':'; }
    SplitSingle(digits, ':');
    ParseIntOfString(index);
  }

  /** The pieces `parseGroupSliceIndex` sees in `name[a:b]`. */
  lemma {:induction false} SliceReferencePieces(name: string, start: Option<int>, stop: Option<int>)
    requires NameOk(name)
    ensures var a, b := BoundText(start), BoundText(stop);
            var group := name + "[" + a + ":" + b + "]";
            && HasRefChar(group)
            && Split(group, "[") == [name, a + ":" + b + "]"]
            && Split(a + ":" + b, ":") == [a, b]
            && ParseInt(a) == start && ParseInt(b) == stop
  {
    var a, b := BoundText(start), BoundText(stop);
    if start.Some? { IntTextHasNoRefChar(start.value); }
    if stop.Some? { IntTextHasNoRefChar(stop.value); }
    assert forall i :: 0 <= i < |a| ==> !IsRefChar(a[i]);
    assert forall i :: 0 <= i < |b| ==> !IsRefChar(b[i]);
    var group := name + "[" + a + ":" + b + "]";
    var inner := a + ":" + b + "]";
    assert group == name + ['['] + inner;
    assert group[|name|] == '[';
    HasRefCharMeaning(group);
    assert '[' !in name by { assert forall i :: 0 <= i < |name| ==> name[i] != '['; }
    assert '[' !in inner by { assert forall i :: 0 <= i < |inner| ==> inner[i] != '['; }
    SplitAround(name, inner, '[');
    assert ':' !in a by { assert forall i :: 0 <= i < |a| ==> a[i] != ':'; }
    assert ':' !in b by { assert forall i :: 0 <= i < |b| ==> b[i] != ':'; }
    SplitAround(a, b, ':');
    ParseIntOfBound(start);
    ParseIntOfBound(stop);
  }

  /** `name[a:b]` with at least one non-zero bound parses back to the name and
      the pair of bounds; a missing bound reads as None. */
  lemma {:induction false} SliceReferenceRoundTrip(name: string, start: Option<int>, stop: Option<int>)
    requires NameOk(name)
    requires Truthy(start) || Truthy(stop)
    ensures ParseGroupSliceIndex(name + "[" + BoundText(start) + ":" + BoundText(stop) + "]")
            == Ok(GroupRef(name, None, Some((start, stop))))
  {
    var inner := BoundText(start) + ":" + BoundText(stop) + "]";
    SliceReferencePieces(name, start, stop);
    assert inner[..|inner| - 1] == BoundText(start) + ":" + BoundText(stop);
  }

  /** A slice reference with neither bound a non-zero int (`[0:]`, `[:0]`,
      `[:]`, `[x:y]`) is rejected. */
  lemma {:induction false} ZeroSliceRejected(name: string, start: Option<int>, stop: Option<int>)
    requires NameOk(name)
    requires !(Truthy(start) || Truthy(stop))
    ensures ParseGroupSliceIndex(name + "[" + BoundText(start) + ":" + BoundText(stop) + "]") == Err(InvalidSlice)
  {
    var inner := BoundText(start) + ":" + BoundText(stop) + "]";
    SliceReferencePieces(name, start, stop);
    assert inner[..|inner| - 1] == BoundText(start) + ":" + BoundText(stop);
  }

  /** `name[body]` with no bracket inside `body`: more than one ':' is
      refused, and without a ':' the body must read as an int that is not
      negative. */
  lemma {:induction false} BracketErrors(name: string, body: string)
    requires NameOk(name) && '[' !in body && ']' !in body
    ensures var r := ParseGroupSliceIndex(name + "[" + body + "]");
            && (|Split(body, ":")| > 2 <==> r == Err(TooManyColons))
            && (':' !in body ==> ParseInt(body).None? ==> r == Err(ValueError))
            && (':' !in body ==> ParseInt(body).Some? ==>
                  (r.Ok? <==> ParseInt(body).value >= 0) && (r.Err? ==> r.error == AssertionError))
  {
    var group := name + "[" + body + "]";
    var inner := body + "]";
    assert group == name + ['['] + inner;
    assert group[|name|] == '[';
    HasRefCharMeaning(group);
    assert '[' !in name by { assert forall i :: 0 <= i < |name| ==> name[i] != '['; }
    SplitAround(name, inner, '[');
    assert inner[..|inner| - 1] == body;
    if ':' !in body {
      SplitSingle(body, ':');
    }
  }

  // ---------------------------------------------------------------------
  // Resolved groups

  /** An entry of a resolved group's file list: an `(offset, name)` pair from
      `enumerate`, or the `"tbd"` placeholder of a meta group. */
  datatype FileRef = Numbered(offset: nat, name: string) | Placeholder

  /** The dict built by `groupAppend`. */
  datatype GroupRecord = GroupRecord(
    name: string,
    groupIndex: nat,
    kind: string,
    files: seq<FileRef>,
    numFiles: nat,
    path: Option<string>)

  /** `list(enumerate(files))`: each file paired with its offset. */
  function Enumerate(files: seq<string>): (r: seq<FileRef>)
  {
    seq(|files|, k requires 0 <= k < |files| => Numbered(k, files[k]))
  }

  /** `"{}".format(v)` of an optional int: `None` prints as "None". */
  function OptionText(v: Option<int>): string {
    match v
    case None => "None"
    case Some(k) => IntToString(k)
  }

  /** `groupAppend(self, group, index, sliceIndex)`: the record appended to
      `self.groups`. */
  function GroupAppend(c: Config, name: string, index: Option<int>, slice: Option<(Option<int>, Option<int>)>): GroupRecord
    requires Has(c, name)
  {
    var entry := c[KeyIndex(c, name)].1;
    var all := if entry.Meta? then [Placeholder] else Enumerate(entry.files);
    var path := if entry.Meta? then None else Some(entry.path);
    var base := if entry.Meta? then "meta" else "pure";
    if index.Some? then
      var picked := match At(all, index.value) case Some(f) => [f] case None => [];
      GroupRecord(name, KeyIndex(c, name), "index_" + IntToString(index.value), picked, |picked|, path)
    else if slice.Some? then
      var sliced := Slice(all, slice.value.0, slice.value.1);
      GroupRecord(name, KeyIndex(c, name), "slice_" + OptionText(slice.value.0) + "_" + OptionText(slice.value.1),
                  sliced, |sliced|, path)
    else GroupRecord(name, KeyIndex(c, name), base, all, |all|, path)
  }

  /** What `groupAppend` resolves: the key's position in config order, a
      file count equal to the list length, and, for a pure group, files that
      are `(offset, name)` pairs of the catalog list (the whole list, the one
      indexed file, or nothing for an index out of range). */
  lemma {:induction false} GroupAppendResolves(c: Config, name: string, index: Option<int>, slice: Option<(Option<int>, Option<int>)>)
    requires Has(c, name)
    ensures var r := GroupAppend(c, name, index, slice);
            && r.name == name && c[r.groupIndex].0 == name
            && (forall j :: 0 <= j < r.groupIndex ==> c[j].0 != name)
            && r.numFiles == |r.files|
            && (r.path.Some? <==> Lookup(c, name).value.Pure?)
            && (Lookup(c, name).value.Pure? ==>
                  var files := Lookup(c, name).value.files;
                  && (forall k :: 0 <= k < |r.files| ==>
                        r.files[k].Numbered? && r.files[k].offset < |files| && files[r.files[k].offset] == r.files[k].name)
                  && (index.None? && slice.None? ==> r.files == Enumerate(files))
                  && (index.Some? ==> |r.files| == (if -|files| <= index.value < |files| then 1 else 0)))
  {
    var r := GroupAppend(c, name, index, slice);
    var entry := c[KeyIndex(c, name)].1;
    if entry.Pure? && slice.Some? && index.None? {
      SliceShape(Enumerate(entry.files), slice.value.0, slice.value.1);
    }
  }

  /** The group arguments of a command: `--allgroups` or a list of
      references. */
  datatype GroupArgs = GroupArgs(allGroups: bool, groups: seq<string>)

  /** A reference that parses and names a group of the catalog. */
  predicate Resolvable(c: Config, group: string) {
    ParseGroupSliceIndex(group).Ok? && Has(c, ParseGroupSliceIndex(group).value.name)
  }

  function Resolve(c: Config, group: string): GroupRecord
    requires Resolvable(c, group)
  {
    var g := ParseGroupSliceIndex(group).value;
    GroupAppend(c, g.name, g.index, g.slice)
  }

  /** `parseGroupArgs(self, args)`: the list assigned to `self.groups`. */
  method ParseGroupArgs(c: Config, args: GroupArgs) returns (r: Result<seq<GroupRecord>>)
    ensures args.allGroups ==> r.Ok? && |r.value| == |c|
    ensures args.allGroups ==> forall k :: 0 <= k < |c| ==> r.value[k] == GroupAppend(c, c[k].0, None, None)
    ensures !args.allGroups ==> r == AppendListedSpec(c, args.groups)
  {
    if args.allGroups {
      var groups := AppendAll(c);
      return Ok(groups);
    }
    r := AppendListed(c, args.groups);
  }

  /** The `--allgroups` branch: every catalog key, in config order. */
  method AppendAll(c: Config) returns (groups: seq<GroupRecord>)
    ensures |groups| == |c|
    ensures forall k :: 0 <= k < |c| ==> groups[k] == GroupAppend(c, c[k].0, None, None)
  {
    groups := [];
    var k := 0;
    while k < |c|
      invariant 0 <= k <= |c| && |groups| == k
      invariant forall j :: 0 <= j < k ==> groups[j] == GroupAppend(c, c[j].0, None, None)
    {
      assert Has(c, c[k].0);
      groups := groups + [GroupAppend(c, c[k].0, None, None)];
      k := k + 1;
    }
  }

  /** One listed reference: parsed, then looked up in the catalog. */
  function ResolveRef(c: Config, group: string): (r: Result<GroupRecord>)
  {
    var g :- ParseGroupSliceIndex(group);
    if !Has(c, g.name) then Err(GroupNotInConfig)
    else Ok(Resolve(c, group))
  }

  /** The branch over listed references: every reference resolved in
      order, the first that does not parse or does not name a group
      stopping the command, and an empty list refused. */
  function AppendListedSpec(c: Config, refs: seq<string>): Result<seq<GroupRecord>> {
    if refs == [] then Err(NoGroupsFound) else Collect(ResolveEach(c, refs))
  }

  /** Each listed reference resolved on its own. */
  function ResolveEach(c: Config, refs: seq<string>): (rs: seq<Result<GroupRecord>>)
  {
    seq(|refs|, k requires 0 <= k < |refs| => ResolveRef(c, refs[k]))
  }

  /** What the listed branch resolves: it succeeds exactly when the list is
      not empty and every reference resolves, and then yields each
      reference's group in order; otherwise it reports the error of the
      first reference that fails, or `NoGroupsFound`. */
  lemma {:induction false} AppendListedMeaning(c: Config, refs: seq<string>)
    ensures var r := AppendListedSpec(c, refs);
            && (r.Ok? <==> |refs| > 0 && forall k :: 0 <= k < |refs| ==> Resolvable(c, refs[k]))
            && (r.Ok? ==> |r.value| == |refs| && forall k :: 0 <= k < |refs| ==> r.value[k] == Resolve(c, refs[k]))
            && (r.Err? ==>
                  || r.error == NoGroupsFound
                  || exists k :: 0 <= k < |refs| && ResolveRef(c, refs[k]) == Err(r.error)
                                 && forall j :: 0 <= j < k ==> Resolvable(c, refs[j]))
  {
    if refs != [] {
      var rs := ResolveEach(c, refs);
      assert |rs| == |refs|;
      forall k | 0 <= k < |refs|
        ensures rs[k] == ResolveRef(c, refs[k])
        ensures rs[k].Ok? <==> Resolvable(c, refs[k])
        ensures rs[k].Ok? ==> rs[k].value == Resolve(c, refs[k])
      {
      }
      CollectMeaning(rs);
      var r := Collect(rs);
      if r.Err? {
        var k :| 0 <= k < |rs| && rs[k] == Err(r.error) && forall j :: 0 <= j < k ==> rs[j].Ok?;
        assert ResolveRef(c, refs[k]) == Err(r.error);
      }
    }
  }

  /** The listed branch: the references resolved in order, stopping at the
      first failure, then the check for an empty result. */
  method AppendListed(c: Config, refs: seq<string>) returns (r: Result<seq<GroupRecord>>)
    ensures r == AppendListedSpec(c, refs)
  {
    var rs := ResolveEach(c, refs);
    r := CollectLoop(rs);
    CollectMeaning(rs);
    if r.Ok? && |r.value| == 0 {
      r := Err(NoGroupsFound);
    }
  }

  // ---------------------------------------------------------------------
  // Concat list file

  function FileLine(name: string): string {
    "file '" + name + "'"
  }

  /** `writeListFile(outpath, files, duration)`: the lines written, in order. */
  method ListFileLines(files: seq<string>, duration: string) returns (lines: seq<string>)
    ensures |lines| == 3 + 2 * |files|
    ensures lines[0] == "ffconcat version 1.0" && lines[1] == ""
    ensures forall k :: 0 <= k < |files| ==>
              lines[2 + 2 * k] == FileLine(files[k]) && lines[3 + 2 * k] == "duration " + duration
    ensures lines[|lines| - 1] == FileLine(if files == [] then "" else files[|files| - 1])
  {
    var lastFile := "";
    lines := ["ffconcat version 1.0", ""];
    var k := 0;
    while k < |files|
      invariant 0 <= k <= |files| && |lines| == 2 + 2 * k
      invariant lines[0] == "ffconcat version 1.0" && lines[1] == ""
      invariant forall j :: 0 <= j < k ==>
                  lines[2 + 2 * j] == FileLine(files[j]) && lines[3 + 2 * j] == "duration " + duration
      invariant lastFile == if k == 0 then "" else files[k - 1]
    {
      lines := lines + [FileLine(files[k]), "duration " + duration];
      lastFile := files[k];
      k := k + 1;
    }
    lines := lines + [FileLine(lastFile)];
  }
}

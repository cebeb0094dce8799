/** The catalog editor (`lapse-mod`): the `group rename`, `group del` and
    `group new` edits of the catalog, the suffix and argument lists of the
    ImageMagick `mogrify` commands, and the merge of the generated images
    back into the catalog. */
module Modifier {
  import opened Base
  import opened Text
  import opened Numbers
  import opened Common
  import opened Sorting

  // ---------------------------------------------------------------------
  // Catalog lookups

  /** The first position holding a key is the one `KeyIndex` finds. */
  lemma {:induction false} FirstIndex(c: Config, name: string, k: nat)
    requires k < |c| && c[k].0 == name
    requires forall j :: 0 <= j < k ==> c[j].0 != name
    ensures Has(c, name) && KeyIndex(c, name) == k
  {
  }

  /** In a catalog without repeated keys, `config[name]` is the value
      paired with `name`. */
  lemma {:induction false} LookupEntry(c: Config, name: string, e: GroupEntry)
    requires Keyed(c)
    ensures Lookup(c, name) == Some(e) <==> (name, e) in c
  {
    if (name, e) in c {
      var k :| 0 <= k < |c| && c[k] == (name, e);
      FirstIndex(c, name, k);
    }
  }

  /** A new key appended at the end (`config[name] = entry` for a name the
      catalog lacks) keeps keys unique, maps `name` to the entry and leaves
      every other lookup as it was. */
  lemma {:induction false} AddedEntry(c: Config, name: string, e: GroupEntry)
    requires Keyed(c) && !Has(c, name)
    ensures var r := c + [(name, e)];
            && Keyed(r)
            && Lookup(r, name) == Some(e)
            && forall x :: x != name ==> Lookup(r, x) == Lookup(c, x)
  {
    var r := c + [(name, e)];
    FirstIndex(r, name, |c|);
    forall x | x != name
      ensures Lookup(r, x) == Lookup(c, x)
    {
      if Has(c, x) {
        var k := KeyIndex(c, x);
        FirstIndex(r, x, k);
      } else {
        assert !Has(r, x);
      }
    }
  }

  // ---------------------------------------------------------------------
  // group rename

  /** The catalog rebuilt key by key with `from` replaced by `to`. */
  function Renamed(c: Config, from: string, to: string): (r: Config)
    ensures |r| == |c|
    ensures forall k :: 0 <= k < |c| ==>
              r[k].1 == c[k].1 && r[k].0 == (if c[k].0 == from then to else c[k].0)
  {
    if c == [] then []
    else [(if c[0].0 == from then to else c[0].0, c[0].1)] + Renamed(c[1..], from, to)
  }

  /** Renaming an existing group to a fresh name keeps keys unique and
      leaves no entry under the old name. */
  lemma {:induction false} RenameKeyed(c: Config, from: string, to: string)
    requires Keyed(c) && !Has(c, to)
    ensures Keyed(Renamed(c, from, to)) && (from != to ==> !Has(Renamed(c, from, to), from))
  {
    var r := Renamed(c, from, to);
    forall i, j | 0 <= i < j < |r|
      ensures r[i].0 != r[j].0
    {
      assert c[i].0 != to && c[j].0 != to;
    }
    if from != to {
      forall j | 0 <= j < |r|
        ensures r[j].0 != from
      {
      }
    }
  }

  /** Renaming an existing group to a fresh name puts the new key at the
      old key's position with the old value, and changes no other lookup. */
  lemma {:induction false} RenameKeeps(c: Config, from: string, to: string)
    requires Keyed(c) && Has(c, from) && !Has(c, to)
    ensures var r := Renamed(c, from, to);
            && Keyed(r)
            && !Has(r, from)
            && Has(r, to) && KeyIndex(r, to) == KeyIndex(c, from)
            && Lookup(r, to) == Lookup(c, from)
            && forall x :: x != from && x != to ==> Lookup(r, x) == Lookup(c, x)
  {
    var r := Renamed(c, from, to);
    RenameKeyed(c, from, to);
    var k := KeyIndex(c, from);
    FirstIndex(r, to, k);
    forall x | x != from && x != to
      ensures Lookup(r, x) == Lookup(c, x)
    {
      RenameOther(c, from, to, x);
    }
  }

  /** A key other than the two names keeps its position and value. */
  lemma {:induction false} RenameOther(c: Config, from: string, to: string, x: string)
    requires x != from && x != to
    ensures Lookup(Renamed(c, from, to), x) == Lookup(c, x)
  {
    var r := Renamed(c, from, to);
    if Has(c, x) {
      FirstIndex(r, x, KeyIndex(c, x));
    } else {
      forall j | 0 <= j < |r|
        ensures r[j].0 != x
      {
      }
    }
  }

  // ---------------------------------------------------------------------
  // group del

  /** The entries whose keys are not listed, in catalog order. */
  function Without(c: Config, names: seq<string>): Config {
    if c == [] then [] else (if c[0].0 in names then [] else [c[0]]) + Without(c[1..], names)
  }

  /** What is left: exactly the entries whose keys are not listed. */
  lemma {:induction false} WithoutEntries(c: Config, names: seq<string>)
    ensures forall e :: e in Without(c, names) <==> e in c && e.0 !in names
  {
    if c != [] {
      WithoutEntries(c[1..], names);
      assert c == [c[0]] + c[1..];
    }
  }

  lemma {:induction false} WithoutKeys(c: Config, names: seq<string>)
    ensures forall x :: Has(Without(c, names), x) <==> Has(c, x) && x !in names
    ensures Keyed(c) ==> Keyed(Without(c, names))
  {
    WithoutEntries(c, names);
    var w := Without(c, names);
    forall x
      ensures Has(w, x) <==> Has(c, x) && x !in names
    {
      if Has(w, x) {
        var k :| 0 <= k < |w| && w[k].0 == x;
        assert w[k] in w;
      }
      if Has(c, x) && x !in names {
        var k :| 0 <= k < |c| && c[k].0 == x;
        assert c[k] in c;
      }
    }
    if c != [] && Keyed(c) {
      WithoutKeys(c[1..], names);
      assert Keyed(c[1..]);
      forall k | 0 <= k < |c[1..]|
        ensures c[1..][k].0 != c[0].0
      {
        assert c[1..][k] == c[k + 1];
      }
    }
  }

  /** Nothing listed, nothing removed. */
  lemma {:induction false} WithoutNothing(c: Config)
    ensures Without(c, []) == c
  {
    if c != [] {
      WithoutNothing(c[1..]);
    }
  }

  /** Removing one name, then the rest, removes them all. */
  lemma {:induction false} WithoutThenRest(c: Config, n: string, rest: seq<string>)
    ensures Without(Without(c, [n]), rest) == Without(c, [n] + rest)
  {
    if c != [] {
      WithoutThenRest(c[1..], n, rest);
      assert c[0].0 in [n] + rest <==> c[0].0 == n || c[0].0 in rest;
      var x := Without(c[1..], [n]);
      if c[0].0 != n {
        assert Without(c, [n]) == [c[0]] + x;
        assert ([c[0]] + x)[0] == c[0] && ([c[0]] + x)[1..] == x;
        assert Without([c[0]] + x, rest)
            == (if c[0].0 in rest then [] else [c[0]]) + Without(x, rest);
      } else {
        assert Without(c, [n]) == [] + x == x;
      }
    }
  }

  /** `del config[name]` for each listed name in turn; a name that is not
      (or no longer) a key stops the command. */
  function Deleted(c: Config, names: seq<string>): Result<Config>
    decreases |names|
  {
    if names == [] then Ok(c)
    else if !Has(c, names[0]) then Err(GroupNotInConfig)
    else Deleted(Without(c, [names[0]]), names[1..])
  }

  /** `group del` succeeds exactly when every listed name is a key and no
      name is listed twice, and then removes exactly the listed keys. */
  lemma {:induction false} DeletedMeaning(c: Config, names: seq<string>)
    requires Keyed(c)
    ensures var r := Deleted(c, names);
            && (r.Ok? <==> (forall i :: 0 <= i < |names| ==> Has(c, names[i]))
                           && (forall i, j :: 0 <= i < j < |names| ==> names[i] != names[j]))
            && (r.Ok? ==> r.value == Without(c, names))
            && (r.Err? ==> r.error == GroupNotInConfig)
    decreases |names|
  {
    if names == [] {
      WithoutNothing(c);
    } else if Has(c, names[0]) {
      var n := names[0];
      var rest := names[1..];
      var w := Without(c, [n]);
      WithoutKeys(c, [n]);
      DeletedMeaning(w, rest);
      WithoutThenRest(c, n, rest);
      assert names == [n] + rest;
      if (forall i :: 0 <= i < |names| ==> Has(c, names[i]))
         && (forall i, j :: 0 <= i < j < |names| ==> names[i] != names[j]) {
        forall i | 0 <= i < |rest|
          ensures Has(w, rest[i])
        {
          assert rest[i] == names[i + 1] && names[0] != names[i + 1];
        }
      }
      if Deleted(c, names).Ok? {
        forall i, j | 0 <= i < j < |names|
          ensures names[i] != names[j]
        {
          if i == 0 {
            assert Has(w, rest[j - 1]);
          } else {
            assert names[i] == rest[i - 1] && names[j] == rest[j - 1];
          }
        }
        forall i | 0 <= i < |names|
          ensures Has(c, names[i])
        {
          if i > 0 {
            assert names[i] == rest[i - 1];
          }
        }
      }
    }
  }

  // ---------------------------------------------------------------------
  // group new

  /** The collection of a new meta group: one `{group, type}` member per
      resolved reference, in order. */
  function MetaMembers(gs: seq<GroupRecord>): seq<Member> {
    seq(|gs|, k requires 0 <= k < |gs| => Member(gs[k].name, gs[k].kind))
  }

  /** Every member of a new meta group names a group of the catalog, the
      one its reference names, with the reference's type
      (`pure`, `meta`, `index_<i>` or `slice_<a>_<b>`). */
  lemma {:induction false} MetaMembersResolve(c: Config, refs: seq<string>)
    requires AppendListedSpec(c, refs).Ok?
    ensures var ms := MetaMembers(AppendListedSpec(c, refs).value);
            && |ms| == |refs| > 0
            && forall k :: 0 <= k < |refs| ==>
                 && ParseGroupSliceIndex(refs[k]).Ok?
                 && ms[k].group == ParseGroupSliceIndex(refs[k]).value.name
                 && Has(c, ms[k].group)
                 && ms[k].kind == Resolve(c, refs[k]).kind
  {
    AppendListedMeaning(c, refs);
    var gs := AppendListedSpec(c, refs).value;
    forall k | 0 <= k < |refs|
      ensures ParseGroupSliceIndex(refs[k]).Ok?
      ensures gs[k].name == ParseGroupSliceIndex(refs[k]).value.name
    {
      assert Resolvable(c, refs[k]);
      var g := ParseGroupSliceIndex(refs[k]).value;
      GroupAppendResolves(c, g.name, g.index, g.slice);
    }
  }

  // ---------------------------------------------------------------------
  // mogrify: suffix and arguments

  /** The options of `lapse-mod img <instruction>`. */
  datatype MogrifyArgs = MogrifyArgs(
    instruction: string,
    outmod: bool,
    geometry: Option<string>,
    maxSide: Option<int>,
    percent: Option<int>,
    normalize: bool,
    autolevel: bool,
    autogamma: bool,
    autoorient: bool,
    clockwise: bool,
    anticlockwise: bool,
    degrees: Option<string>,
    gravity: string)

  /** `sub in s` on strings. */
  predicate Contains(s: string, sub: string)
    decreases |s|
  {
    StartsWith(s, sub) || (s != [] && Contains(s[1..], sub))
  }

  /** The instructions that take a size: any containing `resize`, `scale`
      or `crop`. */
  predicate SizeFamily(instruction: string) {
    Contains(instruction, "resize") || Contains(instruction, "scale") || Contains(instruction, "crop")
  }

  predicate AnyColor(a: MogrifyArgs) {
    a.normalize || a.autolevel || a.autogamma
  }

  /** `args.degrees` is truthy: given and not empty. */
  predicate DegreesGiven(a: MogrifyArgs) {
    a.degrees.Some? && a.degrees.value != ""
  }

  /** The size option in force. */
  datatype SizeOption = Geometry(geom: string) | MaxSide(side: int) | Percent(pct: int)

  /** `--geometry` wins over `--max`, which wins over `--percent`. */
  function ChosenSize(a: MogrifyArgs): Option<SizeOption> {
    if a.geometry.Some? then Some(Geometry(a.geometry.value))
    else if a.maxSide.Some? then Some(MaxSide(a.maxSide.value))
    else if a.percent.Some? then Some(Percent(a.percent.value))
    else None
  }

  /** The part of the suffix that names the size option. */
  function SizeTag(o: SizeOption): string {
    match o
    case Geometry(g) => "-G" + g
    case MaxSide(m) => "-m" + IntToString(m)
    case Percent(p) => "-p" + IntToString(p)
  }

  /** The size argument given to mogrify. */
  function SizeText(o: SizeOption): string {
    match o
    case Geometry(g) => g
    case MaxSide(m) => IntToString(m) + "x" + IntToString(m)
    case Percent(p) => IntToString(p) + "%"
  }

  /** The suffix of the output directory and of the generated group's
      name, after the check that `color` asks for some action. */
  function Suffix(a: MogrifyArgs): Result<string> {
    var instr := a.instruction;
    if instr == "color" && !AnyColor(a) then Err(NoColorAction)
    else if SizeFamily(instr) then
      if !a.outmod then Ok("")
      else match ChosenSize(a)
        case None => Err(UnknownOption)
        case Some(o) => Ok(instr + SizeTag(o))
    else if instr == "color" then
      Ok(if !a.outmod then ""
         else instr + (if a.normalize then "-normalize" else "")
                    + (if a.autolevel then "-autolevel" else "")
                    + (if a.autogamma then "-autogamma" else ""))
    else if instr == "rotate" then
      if !a.outmod then Ok("")
      else if a.autoorient then Ok(instr + "-autoorient")
      else if a.clockwise then Ok(instr + "-clockwise")
      else if a.anticlockwise then Ok(instr + "-anticlockwise")
      else if DegreesGiven(a) then Ok(instr + "-degrees")
      else Err(UnknownOption)
    else Err(UnknownInstruction)
  }

  /** Reads the size option back from the tail of a suffix. */
  function DecodeSizeTag(t: string): Option<SizeOption> {
    if |t| < 2 || t[0] != '-' then None
    else if t[1] == 'G' then Some(Geometry(t[2..]))
    else if t[1] != 'm' && t[1] != 'p' then None
    else match ParseInt(t[2..])
      case None => None
      case Some(n) => Some(if t[1] == 'm' then MaxSide(n) else Percent(n))
  }

  /** With `--outmod`, a resize/scale/crop suffix is the instruction
      followed by a tag that names the size option in force, so the output
      directory tells which option and value produced it; without any size
      option the command is refused. */
  lemma {:induction false} SizeSuffixDecodes(a: MogrifyArgs)
    requires SizeFamily(a.instruction) && a.outmod
    requires !(a.instruction == "color" && !AnyColor(a))
    ensures Suffix(a).Ok? <==> ChosenSize(a).Some?
    ensures Suffix(a).Err? ==> Suffix(a).error == UnknownOption
    ensures Suffix(a).Ok? ==>
              var s := Suffix(a).value;
              && |a.instruction| <= |s| && s[..|a.instruction|] == a.instruction
              && DecodeSizeTag(s[|a.instruction|..]) == ChosenSize(a)
  {
    if ChosenSize(a).Some? {
      var o := ChosenSize(a).value;
      var s := a.instruction + SizeTag(o);
      assert Suffix(a) == Ok(s);
      assert s[|a.instruction|..] == SizeTag(o);
      SizeTagDecodes(o);
    }
  }

  /** The tag of a size option reads back as that option. */
  lemma {:induction false} SizeTagDecodes(o: SizeOption)
    ensures DecodeSizeTag(SizeTag(o)) == Some(o)
  {
    match o
    case Geometry(g) => GeometryTagDecodes(g);
    case MaxSide(m) => MaxTagDecodes(m);
    case Percent(p) => PercentTagDecodes(p);
  }

  lemma {:induction false} GeometryTagDecodes(g: string)
    ensures DecodeSizeTag(SizeTag(Geometry(g))) == Some(Geometry(g))
  {
    var t := "-G" + g;
    assert t[0] == '-' && t[1] == 'G' && t[2..] == g;
  }

  lemma {:induction false} MaxTagDecodes(m: int)
    ensures DecodeSizeTag(SizeTag(MaxSide(m))) == Some(MaxSide(m))
  {
    var t := "-m" + IntToString(m);
    assert t[0] == '-' && t[1] == 'm' && t[2..] == IntToString(m);
    ParseIntOfString(m);
    assert ParseInt(t[2..]) == Some(m);
  }

  lemma {:induction false} PercentTagDecodes(p: int)
    ensures DecodeSizeTag(SizeTag(Percent(p))) == Some(Percent(p))
  {
    var t := "-p" + IntToString(p);
    assert t[0] == '-' && t[1] == 'p' && t[2..] == IntToString(p);
    ParseIntOfString(p);
    assert ParseInt(t[2..]) == Some(p);
  }

  /** The arguments after the instruction flag: the size (and the black
      extent for `scale`), the color actions, or the rotation. */
  function ActionArgs(a: MogrifyArgs): Result<seq<string>> {
    var instr := a.instruction;
    if SizeFamily(instr) then
      match ChosenSize(a)
      case None => Err(UnknownOption)
      case Some(o) =>
        var size := SizeText(o);
        Ok([size] + (if instr == "scale" then ["-background", "black", "-extent", size] else []))
    else if instr == "color" then
      Ok((if a.normalize then ["-normalize"] else [])
         + (if a.autolevel then ["-auto-level"] else [])
         + (if a.autogamma then ["-auto-gamma"] else []))
    else if instr == "rotate" then
      if a.autoorient then Ok(["-auto-orient"])
      else if a.clockwise then Ok(["-rotate", "90"])
      else if a.anticlockwise then Ok(["-rotate", "-90"])
      else if DegreesGiven(a) then Ok(["-degrees", a.degrees.value])
      else Err(UnknownOption)
    else Ok([])
  }

  /** The suffix and the per-group arguments agree: once the suffix is
      accepted with `--outmod`, no group's arguments are refused, and a
      sized suffix names the option whose value is the size argument.
      Without `--outmod` the suffix is empty, and a sized or rotating
      instruction without its option is refused at the first group. */
  lemma {:induction false} SuffixMatchesArgs(a: MogrifyArgs)
    requires Suffix(a).Ok?
    ensures a.outmod ==> ActionArgs(a).Ok?
    ensures !a.outmod ==> Suffix(a).value == ""
    ensures SizeFamily(a.instruction) && ActionArgs(a).Ok? ==>
              && ChosenSize(a).Some?
              && ActionArgs(a).value[0] == SizeText(ChosenSize(a).value)
              && (a.outmod ==> Suffix(a).value == a.instruction + SizeTag(ChosenSize(a).value))
    ensures ActionArgs(a).Err? <==>
              && ActionArgs(a) == Err(UnknownOption) && !a.outmod
              && ((SizeFamily(a.instruction) && ChosenSize(a).None?)
                  || (!SizeFamily(a.instruction) && a.instruction == "rotate"
                      && !a.autoorient && !a.clockwise && !a.anticlockwise && !DegreesGiven(a)))
  {
  }

  /** The size argument of each option, and the extent that `scale` adds. */
  lemma {:induction false} SizeArguments(a: MogrifyArgs)
    requires SizeFamily(a.instruction) && ChosenSize(a).Some?
    ensures var size := ActionArgs(a).value[0];
            && ActionArgs(a).Ok?
            && (a.geometry.Some? ==> size == a.geometry.value)
            && (a.geometry.None? && a.maxSide.Some? ==>
                  size == IntToString(a.maxSide.value) + "x" + IntToString(a.maxSide.value))
            && (a.geometry.None? && a.maxSide.None? ==> size == IntToString(a.percent.value) + "%")
            && (a.instruction == "scale" <==> ActionArgs(a).value == [size, "-background", "black", "-extent", size])
            && (a.instruction != "scale" ==> ActionArgs(a).value == [size])
  {
  }

  /** The text of one file argument: `f[1]` of an `(offset, name)` pair; for
      the `"tbd"` placeholder of a meta group, its second character. */
  function FileText(f: FileRef): string {
    match f
    case Numbered(_, name) => name
    case Placeholder => "b"
  }

  /** The group's files joined to its directory. */
  function FileArgs(path: string, files: seq<FileRef>): (r: seq<string>) {
    seq(|files|, k requires 0 <= k < |files| => PathJoin(path, FileText(files[k])))
  }

  /** `os.path.join(group["path"], "mod-" + suffix)`. */
  function ModPath(path: string, suffix: string): string {
    PathJoin(path, "mod-" + suffix)
  }

  /** The name the generated group gets in the catalog. */
  function OutputName(name: string, suffix: string): string {
    if suffix == "" then name else name + "-" + suffix
  }

  /** One group's mogrify command. A meta group has no `path`, so it fails
      with `KeyError` as soon as the path is needed. */
  function CommandSpec(a: MogrifyArgs, suffix: string, g: GroupRecord): Result<seq<string>> {
    if a.outmod && g.path.None? then Err(KeyError)
    else
      var action :- ActionArgs(a);
      if g.files != [] && g.path.None? then Err(KeyError)
      else
        var path := if g.path.Some? then g.path.value else "";
        Ok(CommandOf(a, suffix, path, action, g.files))
  }

  /** The arguments of a command, in order. */
  function CommandOf(a: MogrifyArgs, suffix: string, path: string, action: seq<string>, files: seq<FileRef>): seq<string> {
    ["mogrify", "-verbose"]
    + (if a.outmod then ["-path", ModPath(path, suffix)] else [])
    + (if a.instruction != "color" then ["-" + a.instruction] else [])
    + action
    + ["-gravity", a.gravity]
    + FileArgs(path, files)
  }

  /** A command opens with `mogrify -verbose`, followed with `--outmod` by
      the output directory under the group's directory. */
  lemma {:induction false} CommandHead(a: MogrifyArgs, suffix: string, g: GroupRecord)
    requires CommandSpec(a, suffix, g).Ok?
    ensures var cmd := CommandSpec(a, suffix, g).value;
            && |cmd| >= 4
            && cmd[..2] == ["mogrify", "-verbose"]
            && (a.outmod ==> g.path.Some? && cmd[2..4] == ["-path", ModPath(g.path.value, suffix)])
  {
    var path := if g.path.Some? then g.path.value else "";
    CommandOfHead(a, suffix, path, ActionArgs(a).value, g.files);
  }

  lemma {:induction false} CommandOfHead(a: MogrifyArgs, suffix: string, path: string, action: seq<string>, files: seq<FileRef>)
    ensures var cmd := CommandOf(a, suffix, path, action, files);
            && |cmd| >= 4
            && cmd[..2] == ["mogrify", "-verbose"]
            && (a.outmod ==> cmd[2..4] == ["-path", ModPath(path, suffix)])
  {
    var p: seq<string> := if a.outmod then ["-path", ModPath(path, suffix)] else [];
    var f: seq<string> := if a.instruction != "color" then ["-" + a.instruction] else [];
    var front := ["mogrify", "-verbose"] + p;
    var rest := f + action + ["-gravity", a.gravity] + FileArgs(path, files);
    var cmd := CommandOf(a, suffix, path, action, files);
    assert cmd == front + rest;
    assert cmd[..2] == front[..2];
    assert a.outmod ==> cmd[2..4] == front[2..4];
  }

  /** A command closes with the gravity, then one argument per file of the
      group, in order: the catalog file name joined to the group's
      directory. */
  lemma {:induction false} CommandFiles(a: MogrifyArgs, suffix: string, g: GroupRecord)
    requires CommandSpec(a, suffix, g).Ok?
    ensures var cmd := CommandSpec(a, suffix, g).value;
            var n := |g.files|;
            && |cmd| >= n + 2
            && cmd[|cmd| - n - 2..|cmd| - n] == ["-gravity", a.gravity]
            && (n > 0 ==> g.path.Some?)
            && forall k :: 0 <= k < n ==> cmd[|cmd| - n + k] == PathJoin(g.path.value, FileText(g.files[k]))
  {
    var path := if g.path.Some? then g.path.value else "";
    CommandOfFiles(a, suffix, path, ActionArgs(a).value, g.files);
  }

  lemma {:induction false} CommandOfFiles(a: MogrifyArgs, suffix: string, path: string, action: seq<string>, files: seq<FileRef>)
    ensures var cmd := CommandOf(a, suffix, path, action, files);
            var n := |files|;
            && |cmd| >= n + 2
            && cmd[|cmd| - n - 2..|cmd| - n] == ["-gravity", a.gravity]
            && forall k :: 0 <= k < n ==> cmd[|cmd| - n + k] == PathJoin(path, FileText(files[k]))
  {
    var p: seq<string> := if a.outmod then ["-path", ModPath(path, suffix)] else [];
    var f: seq<string> := if a.instruction != "color" then ["-" + a.instruction] else [];
    var front := ["mogrify", "-verbose"] + p + f + action + ["-gravity", a.gravity];
    var fa := FileArgs(path, files);
    assert CommandOf(a, suffix, path, action, files) == front + fa;
    EndsWith(front, fa);
  }

  /** The tail of a concatenation, element by element. */
  lemma {:induction false} EndsWith(front: seq<string>, fa: seq<string>)
    requires |front| >= 2
    ensures var cmd := front + fa;
            && cmd[|cmd| - |fa| - 2..|cmd| - |fa|] == front[|front| - 2..]
            && forall k :: 0 <= k < |fa| ==> cmd[|cmd| - |fa| + k] == fa[k]
  {
  }

  /** Why a command is refused: a meta group (no directory) whose directory
      or files are needed, or an instruction missing its option. */
  lemma {:induction false} CommandRefused(a: MogrifyArgs, suffix: string, g: GroupRecord)
    ensures CommandSpec(a, suffix, g).Err? <==>
              || (g.path.None? && (a.outmod || g.files != []))
              || ActionArgs(a).Err?
    ensures CommandSpec(a, suffix, g).Err? ==>
              CommandSpec(a, suffix, g).error in {KeyError, UnknownOption}
  {
  }

  /** The commands of the groups in order, stopping at the first refusal. */
  function Commands(a: MogrifyArgs, suffix: string, gs: seq<GroupRecord>): (r: Result<seq<seq<string>>>)
    ensures r.Ok? ==> |r.value| == |gs|
  {
    if gs == [] then Ok([])
    else
      var init :- Commands(a, suffix, gs[..|gs| - 1]);
      var last :- CommandSpec(a, suffix, gs[|gs| - 1]);
      Ok(init + [last])
  }

  /** The commands succeed exactly when each group's does, and are those
      commands in group order. */
  lemma {:induction false} CommandsMeaning(a: MogrifyArgs, suffix: string, gs: seq<GroupRecord>)
    ensures Commands(a, suffix, gs).Ok? <==> forall k :: 0 <= k < |gs| ==> CommandSpec(a, suffix, gs[k]).Ok?
    ensures Commands(a, suffix, gs).Ok? ==>
              forall k :: 0 <= k < |gs| ==> Commands(a, suffix, gs).value[k] == CommandSpec(a, suffix, gs[k]).value
    decreases |gs|
  {
    if gs != [] {
      var init := gs[..|gs| - 1];
      CommandsMeaning(a, suffix, init);
      assert forall k :: 0 <= k < |init| ==> init[k] == gs[k];
    }
  }

  /** Once a prefix of the groups is refused, so is every longer one. */
  lemma {:induction false} CommandsStop(a: MogrifyArgs, suffix: string, gs: seq<GroupRecord>, j: nat)
    requires j <= |gs| && Commands(a, suffix, gs[..j]).Err?
    ensures Commands(a, suffix, gs) == Commands(a, suffix, gs[..j])
    decreases |gs| - j
  {
    if j < |gs| {
      assert gs[..j + 1][..j] == gs[..j];
      CommandsStop(a, suffix, gs, j + 1);
    } else {
      assert gs[..j] == gs;
    }
  }

  /** `self.groups` as `parseGroupArgs` with `--allgroups` builds it: every
      catalog key in order. */
  function AllGroups(c: Config): seq<GroupRecord> {
    seq(|c|, k requires 0 <= k < |c| => KeyGroup(c, k))
  }

  function KeyGroup(c: Config, k: nat): GroupRecord
    requires k < |c|
  {
    assert Has(c, c[k].0);
    GroupAppend(c, c[k].0, None, None)
  }

  /** `parseGroupArgs(self, args)`. */
  function GroupsOf(c: Config, ga: GroupArgs): Result<seq<GroupRecord>> {
    if ga.allGroups then Ok(AllGroups(c)) else AppendListedSpec(c, ga.groups)
  }

  /** A dry run of `runMogrifyCmd`: the groups, the suffix, then the
      commands. */
  function MogrifySpec(c: Config, ga: GroupArgs, a: MogrifyArgs): Result<seq<seq<string>>> {
    var gs :- GroupsOf(c, ga);
    var suffix :- Suffix(a);
    Commands(a, suffix, gs)
  }

  // ---------------------------------------------------------------------
  // Merging generated images into the catalog

  /** Each generated name not already listed is appended, in order. */
  function AddNew(files: seq<string>, gen: seq<string>): seq<string>
    decreases |gen|
  {
    if gen == [] then files
    else AddNew(if gen[0] in files then files else files + [gen[0]], gen[1..])
  }

  /** The merge keeps the existing list as a prefix, appends only names not
      listed before, lists every old and generated name, and never lists a
      name twice that was listed once. */
  lemma {:induction false} AddNewMeaning(files: seq<string>, gen: seq<string>)
    ensures var r := AddNew(files, gen);
            && |files| <= |r| && r[..|files|] == files
            && (forall k :: |files| <= k < |r| ==> r[k] !in files && r[k] in gen)
            && (forall x :: x in r <==> x in files || x in gen)
    decreases |gen|
  {
    if gen != [] {
      var next := if gen[0] in files then files else files + [gen[0]];
      AddNewMeaning(next, gen[1..]);
      var r := AddNew(files, gen);
      assert next[..|files|] == files;
      assert r[..|files|] == files by {
        assert r[..|files|] == r[..|next|][..|files|];
      }
      assert gen == [gen[0]] + gen[1..];
      forall k | |files| <= k < |r|
        ensures r[k] !in files && r[k] in gen
      {
        if k < |next| {
          assert r[k] == next[k] == gen[0];
        }
      }
    }
  }

  /** A list without repeated names keeps none after the merge. */
  lemma {:induction false} AddNewDistinct(files: seq<string>, gen: seq<string>)
    requires Distinct(files)
    ensures Distinct(AddNew(files, gen))
    decreases |gen|
  {
    if gen != [] {
      var next := if gen[0] in files then files else files + [gen[0]];
      if gen[0] !in files {
        assert multiset(next) == multiset(files) + multiset{gen[0]};
        assert multiset(files)[gen[0]] == 0;
      }
      AddNewDistinct(next, gen[1..]);
    }
  }

  /** The catalog after one group's generated images are merged. An
      existing group keeps its place and directory and gets the sorted
      merged list; a meta group (no `path`) raises `KeyError` and a group
      in another directory fails the `assert`. A new group is appended. */
  function MergeInto(c: Config, name: string, modpath: string, gen: seq<string>): Result<Config> {
    if !Has(c, name) then Ok(c + [(name, Pure(modpath, gen))])
    else
      var k := KeyIndex(c, name);
      match c[k].1
      case Meta(_) => Err(KeyError)
      case Pure(path, files) =>
        if path != modpath then Err(AssertionError)
        else Ok(c[k := (name, Pure(path, Sort(AddNew(files, gen))))])
  }

  /** The merge keeps keys unique and every other group as it was; the
      merged group's list is sorted, holds exactly the old and generated
      names, and has no name twice when the old list had none. */
  lemma {:induction false} MergeMeaning(c: Config, name: string, modpath: string, gen: seq<string>)
    requires Keyed(c)
    ensures var r := MergeInto(c, name, modpath, gen);
            && (r.Ok? <==> !Has(c, name) || (Lookup(c, name).value.Pure? && Lookup(c, name).value.path == modpath))
            && (r.Ok? ==> Keyed(r.value) && forall x :: x != name ==> Lookup(r.value, x) == Lookup(c, x))
            && (!Has(c, name) ==> r == Ok(c + [(name, Pure(modpath, gen))]))
            && (r.Ok? && Has(c, name) ==>
                  var old_files := Lookup(c, name).value.files;
                  && Lookup(r.value, name).Some?
                  && var e := Lookup(r.value, name).value;
                  && |r.value| == |c| && KeyIndex(r.value, name) == KeyIndex(c, name)
                  && e.Pure? && e.path == modpath
                  && SortedStrings(e.files)
                  && (forall x :: x in e.files <==> x in old_files || x in gen)
                  && (Distinct(old_files) ==> Distinct(e.files)))
  {
    if !Has(c, name) {
      AddedEntry(c, name, Pure(modpath, gen));
    } else {
      var k := KeyIndex(c, name);
      var r := MergeInto(c, name, modpath, gen);
      if r.Ok? {
        var files := c[k].1.files;
        var merged := AddNew(files, gen);
        AddNewMeaning(files, gen);
        if Distinct(files) {
          AddNewDistinct(files, gen);
        }
        var fs := Sort(merged);
        var rc := r.value;
        assert rc[k] == (name, Pure(modpath, fs));
        assert Keyed(rc) by {
          forall i, j | 0 <= i < j < |rc|
            ensures rc[i].0 != rc[j].0
          {
            assert rc[i].0 == c[i].0 && rc[j].0 == c[j].0;
          }
        }
        FirstIndex(rc, name, k);
        forall x | x != name
          ensures Lookup(rc, x) == Lookup(c, x)
        {
          if Has(c, x) {
            FirstIndex(rc, x, KeyIndex(c, x));
          } else {
            assert !Has(rc, x);
          }
        }
        forall x
          ensures x in fs <==> x in merged
        {
          assert x in fs <==> x in multiset(fs);
          assert x in merged <==> x in multiset(merged);
        }
      }
    }
  }

  // ---------------------------------------------------------------------
  // The modifier

  /** The state of `lapse-mod`: the catalog being edited and the groups
      the last command resolved. */
  class LapseModifier {
    var config: Config
    var groups: seq<GroupRecord>

    /** A JSON object never repeats a key. */
    predicate Valid()
      reads this
    {
      Keyed(config)
    }

    constructor (c: Config)
      requires Keyed(c)
      ensures Valid() && config == c && groups == []
    {
      config := c;
      groups := [];
    }

    /** `group rename`: refused when `from` is not a key or `to` already
        is; otherwise the catalog is rebuilt key by key. */
    method Rename(from: string, to: string) returns (r: Result<()>)
      requires Valid()
      modifies this
      ensures Valid() && groups == old(groups)
      ensures !Has(old(config), from) ==> r == Err(GroupNotInConfig)
      ensures Has(old(config), from) && Has(old(config), to) ==> r == Err(GroupAlreadyInConfig)
      ensures r.Ok? <==> Has(old(config), from) && !Has(old(config), to)
      ensures r.Ok? ==> config == Renamed(old(config), from, to)
      ensures r.Err? ==> config == old(config)
    {
      if !Has(config, from) {
        return Err(GroupNotInConfig);
      }
      if Has(config, to) {
        return Err(GroupAlreadyInConfig);
      }
      var c := config;
      var renamed: Config := [];
      for i := 0 to |c|
        invariant |renamed| == i
        invariant forall k :: 0 <= k < i ==>
                    renamed[k] == (if c[k].0 == from then to else c[k].0, c[k].1)
      {
        if c[i].0 != from {
          renamed := renamed + [c[i]];
        } else {
          renamed := renamed + [(to, c[i].1)];
        }
      }
      RenameKeyed(c, from, to);
      config := renamed;
      return Ok(());
    }

    /** `group del`: each listed key deleted in turn; a missing list, or a
        name that is not a key, refuses the command. */
    method Delete(names: Option<seq<string>>) returns (r: Result<()>)
      requires Valid()
      modifies this
      ensures Valid() && groups == old(groups)
      ensures names.None? ==> r == Err(NoGroupsGiven)
      ensures names.Some? ==> (r.Ok? <==> Deleted(old(config), names.value).Ok?)
      ensures r.Ok? ==> names.Some? && config == Deleted(old(config), names.value).value
      ensures r.Err? ==> config == old(config)
      ensures r.Err? && names.Some? ==> r.error == GroupNotInConfig
    {
      if names.None? {
        return Err(NoGroupsGiven);
      }
      var ns := names.value;
      var c := config;
      DeletedMeaning(config, ns);
      for i := 0 to |ns|
        invariant config == old(config) && groups == old(groups)
        invariant Keyed(c)
        invariant Deleted(config, ns) == Deleted(c, ns[i..])
      {
        assert ns[i..][0] == ns[i] && ns[i..][1..] == ns[i + 1..];
        if !Has(c, ns[i]) {
          return Err(GroupNotInConfig);
        }
        WithoutKeys(c, [ns[i]]);
        c := Without(c, [ns[i]]);
      }
      assert ns[|ns|..] == [];
      config := c;
      return Ok(());
    }

    /** `group new`: refused when the name is taken or no references are
        given; otherwise the references are resolved and a meta group
        listing them is added at the end of the catalog. */
    method NewMeta(name: string, refs: Option<seq<string>>) returns (r: Result<()>)
      requires Valid()
      modifies this
      ensures Valid()
      ensures Has(old(config), name) ==> r == Err(GroupAlreadyInConfig)
      ensures !Has(old(config), name) && refs.None? ==> r == Err(NoGroupsGiven)
      ensures !Has(old(config), name) && refs.Some? ==>
                (r.Ok? <==> AppendListedSpec(old(config), refs.value).Ok?)
                && (r.Err? ==> r == Err(AppendListedSpec(old(config), refs.value).error))
      ensures r.Ok? ==> refs.Some? && groups == AppendListedSpec(old(config), refs.value).value
      ensures r.Ok? ==> config == old(config) + [(name, Meta(MetaMembers(groups)))]
      ensures r.Err? ==> config == old(config) && groups == old(groups)
    {
      if Has(config, name) {
        return Err(GroupAlreadyInConfig);
      }
      if refs.None? {
        return Err(NoGroupsGiven);
      }
      var parsed := ParseGroupArgs(config, GroupArgs(false, refs.value));
      if parsed.Err? {
        return Err(parsed.error);
      }
      groups := parsed.value;
      var members: seq<Member> := [];
      for i := 0 to |groups|
        invariant |members| == i
        invariant forall k :: 0 <= k < i ==> members[k] == Member(groups[k].name, groups[k].kind)
      {
        members := members + [Member(groups[i].name, groups[i].kind)];
      }
      assert members == MetaMembers(groups);
      AddedEntry(config, name, Meta(members));
      config := config + [(name, Meta(members))];
      return Ok(());
    }

    /** `img <instruction>` as a dry run: the groups are resolved into
        `self.groups`, then one mogrify command per group. */
    method Mogrify(ga: GroupArgs, a: MogrifyArgs) returns (r: Result<seq<seq<string>>>)
      requires Valid()
      modifies this
      ensures Valid() && config == old(config)
      ensures r == MogrifySpec(old(config), ga, a)
      ensures GroupsOf(old(config), ga).Ok? ==> groups == GroupsOf(old(config), ga).value
      ensures GroupsOf(old(config), ga).Err? ==> groups == old(groups)
    {
      var parsed := ParseGroupArgs(config, ga);
      if parsed.Err? {
        return Err(parsed.error);
      }
      if ga.allGroups {
        assert parsed.value == AllGroups(config);
      }
      var gs := parsed.value;
      groups := gs;
      var suffix :- SuffixOf(a);
      r := GroupCommands(a, suffix, gs);
    }

    /** Merges one group's generated images (the image files found in its
        output directory, in directory order) into the catalog. */
    method MergeGenerated(name: string, modpath: string, gen: seq<string>) returns (r: Result<()>)
      requires Valid()
      modifies this
      ensures Valid() && groups == old(groups)
      ensures r.Ok? <==> MergeInto(old(config), name, modpath, gen).Ok?
      ensures r.Ok? ==> config == MergeInto(old(config), name, modpath, gen).value
      ensures r.Err? ==> config == old(config) && r.error == MergeInto(old(config), name, modpath, gen).error
    {
      MergeMeaning(config, name, modpath, gen);
      if !Has(config, name) {
        config := config + [(name, Pure(modpath, gen))];
        return Ok(());
      }
      var k := KeyIndex(config, name);
      match config[k].1
      case Meta(_) =>
        return Err(KeyError);
      case Pure(path, files) =>
        if path != modpath {
          return Err(AssertionError);
        }
        var fs := files;
        for i := 0 to |gen|
          invariant config == old(config) && groups == old(groups)
          invariant AddNew(files, gen) == AddNew(fs, gen[i..])
        {
          assert gen[i..][0] == gen[i] && gen[i..][1..] == gen[i + 1..];
          if gen[i] !in fs {
            fs := fs + [gen[i]];
          }
        }
        assert gen[|gen|..] == [];
        config := config[k := (name, Pure(path, Sort(fs)))];
        return Ok(());
    }
  }

  /** The suffix, built step by step as `runMogrifyCmd` does. */
  method SuffixOf(a: MogrifyArgs) returns (r: Result<string>)
    ensures r == Suffix(a)
  {
    var instr := a.instruction;
    if instr == "color" && !AnyColor(a) {
      return Err(NoColorAction);
    }
    var suffix := if a.outmod then instr else "";
    if SizeFamily(instr) {
      if a.outmod {
        if a.geometry.Some? {
          suffix := suffix + "-G" + a.geometry.value;
          assert suffix == instr + SizeTag(Geometry(a.geometry.value));
        } else if a.maxSide.Some? {
          suffix := suffix + "-m" + IntToString(a.maxSide.value);
          assert suffix == instr + SizeTag(MaxSide(a.maxSide.value));
        } else if a.percent.Some? {
          suffix := suffix + "-p" + IntToString(a.percent.value);
          assert suffix == instr + SizeTag(Percent(a.percent.value));
        } else {
          return Err(UnknownOption);
        }
      }
    } else if instr == "color" {
      if a.outmod {
        if a.normalize {
          suffix := suffix + "-normalize";
        }
        assert suffix == instr + (if a.normalize then "-normalize" else "");
        ghost var before := suffix;
        if a.autolevel {
          suffix := suffix + "-autolevel";
        }
        assert suffix == before + (if a.autolevel then "-autolevel" else "");
        before := suffix;
        if a.autogamma {
          suffix := suffix + "-autogamma";
        }
        assert suffix == before + (if a.autogamma then "-autogamma" else "");
      }
    } else if instr == "rotate" {
      if a.outmod {
        if a.autoorient {
          suffix := suffix + "-autoorient";
        } else if a.clockwise {
          suffix := suffix + "-clockwise";
        } else if a.anticlockwise {
          suffix := suffix + "-anticlockwise";
        } else if DegreesGiven(a) {
          suffix := suffix + "-degrees";
        } else {
          return Err(UnknownOption);
        }
      }
    } else {
      return Err(UnknownInstruction);
    }
    return Ok(suffix);
  }

  /** The loop over the groups: each group's command in turn, the first
      refusal stopping it. */
  method GroupCommands(a: MogrifyArgs, suffix: string, gs: seq<GroupRecord>) returns (r: Result<seq<seq<string>>>)
    ensures r == Commands(a, suffix, gs)
  {
    var cmds: seq<seq<string>> := [];
    for j := 0 to |gs|
      invariant Commands(a, suffix, gs[..j]) == Ok(cmds)
    {
      assert gs[..j + 1][..j] == gs[..j];
      var cmd := GroupCommand(a, suffix, gs[j]);
      if cmd.Err? {
        CommandsStop(a, suffix, gs, j + 1);
        return Err(cmd.error);
      }
      cmds := cmds + [cmd.value];
    }
    assert gs[..|gs|] == gs;
    return Ok(cmds);
  }

  /** One group's command, built argument by argument. */
  method GroupCommand(a: MogrifyArgs, suffix: string, g: GroupRecord) returns (r: Result<seq<string>>)
    ensures r == CommandSpec(a, suffix, g)
  {
    var path := if g.path.Some? then g.path.value else "";
    var cmd := ["mogrify", "-verbose"];
    if a.outmod {
      if g.path.None? {
        return Err(KeyError);
      }
      cmd := cmd + ["-path", ModPath(g.path.value, suffix)];
    }
    assert cmd == ["mogrify", "-verbose"] + (if a.outmod then ["-path", ModPath(path, suffix)] else []);
    ghost var before := cmd;
    if a.instruction != "color" {
      cmd := cmd + ["-" + a.instruction];
    }
    assert cmd == before + (if a.instruction != "color" then ["-" + a.instruction] else []);
    var action :- ActionArgs(a);
    cmd := cmd + action + ["-gravity", a.gravity];
    ghost var head := cmd;
    for i := 0 to |g.files|
      invariant cmd == head + FileArgs(path, g.files[..i])
      invariant i > 0 ==> g.path.Some?
    {
      if g.path.None? {
        return Err(KeyError);
      }
      cmd := cmd + [PathJoin(g.path.value, FileText(g.files[i]))];
    }
    assert g.files[..|g.files|] == g.files;
    return Ok(cmd);
  }
}

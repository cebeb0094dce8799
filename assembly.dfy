/** `build_groups_from_labels`: the annotated labels become a list of
    groups, each opened by a group label and followed by the `mark` labels
    up to the next group label. A mark inherits the tempo in force; a group
    label resets it to 1.0 unless it sets its own. */
module Assembly {
  import opened Base
  import opened Text
  import opened PyList
  import opened Common
  import opened Labels
  import opened Instructions

  /** One mark of a group: the label it comes from (its position in the
      label list), the label's duration, whether it holds one frame, its
      tempo, and whether the label addresses its group by index or slice. */
  datatype Mark = Mark(position: nat, duration: real, hold: bool, tempo: real, addressed: bool)

  /** One group: the catalog name and entry, its file list after the list
      modifiers and that list's length, its marks, and how its label
      addressed the catalog group. */
  datatype Group = Group(name: string, entry: GroupEntry, count: nat, files: seq<string>, marks: seq<Mark>, ref: Ref)

  /** `x["instructions"][1:]`. */
  function Modifiers(x: Label): (r: seq<string>)
  {
    if x.instructions == [] then [] else x.instructions[1..]
  }

  /** A label the loop passes over: a pure comment or the `end` label. */
  predicate Skipped(x: Label) {
    x.commentOnly || x.head == Some(EndHead)
  }

  /** The file list a group label starts from: one file for `name[i]`, the
      selected files for `name[a:b]`, a copy of the whole list otherwise. */
  function StartFiles(entry: GroupEntry, ref: Ref): (r: Result<seq<string>>)
    ensures ref.Sliced? ==> r == Ok(ref.files)
    ensures ref.Whole? ==> (r.Ok? <==> entry.Pure?) && (r.Ok? ==> r.value == entry.files)
    ensures ref.Index? ==> (r.Ok? <==> entry.Pure? && At(entry.files, ref.index).Some?)
    ensures ref.Index? && r.Ok? ==> r.value == [At(entry.files, ref.index).value]
  {
    match ref
    case Sliced(_, files) => Ok(files)
    case Whole => if entry.Meta? then Err(KeyError) else Ok(entry.files)
    case Index(i) =>
      if entry.Meta? then Err(KeyError)
      else match At(entry.files, i)
        case None => Err(IndexError)
        case Some(f) => Ok([f])
  }

  /** The state of the loop: the tempo in force and the groups so far. */
  datatype Building = Building(tempo: real, groups: seq<Group>)

  /** One iteration of the loop, for the label at position `k`. */
  function BuildStep(c: Config, labels: seq<Label>, k: nat, b: Building): Result<Building>
    requires k < |labels|
  {
    var x := labels[k];
    if Skipped(x) then Ok(b)
    else
      match x.head
      case None => Err(NoInstructions)
      case Some(MarkHead) => MarkLabelStep(x, k, b)
      case Some(GroupHead(name, ref)) => GroupLabelStep(c, x, k, b, name, ref)
  }

  /** A `mark` label: a mark at the tempo in force, unless the label sets
      another, is appended to the last group. */
  function MarkLabelStep(x: Label, k: nat, b: Building): Result<Building> {
    var (tempo, hold) :- MarkFrom((b.tempo, false), Modifiers(x));
    if x.duration.None? then Err(KeyError)
    else if b.groups == [] then Err(IndexError)
    else
      Ok(Building(tempo, AppendMark(b.groups, Mark(k, x.duration.value, hold, tempo, false))))
  }

  /** A group label: a new group opened by its own mark. */
  function GroupLabelStep(c: Config, x: Label, k: nat, b: Building, name: string, ref: Ref): Result<Building> {
    match Lookup(c, name)
    case None => Err(KeyError)
    case Some(entry) =>
      var files :- StartFiles(entry, ref);
      var d :- GroupFrom(Decoded(1.0, false, files), Modifiers(x));
      if x.duration.None? then Err(KeyError)
      else
        var m := Mark(k, x.duration.value, d.hold, d.tempo, !ref.Whole?);
        Ok(Building(d.tempo, b.groups + [Group(name, entry, |d.files|, d.files, [m], ref)]))
  }

  /** `groups[-1]["marks"].append(mark)`. */
  function AppendMark(groups: seq<Group>, m: Mark): (r: seq<Group>)
    requires groups != []
  {
    var g := groups[|groups| - 1];
    groups[..|groups| - 1] + [g.(marks := g.marks + [m])]
  }

  /** The loop from label `k` to the end. */
  function BuildFrom(c: Config, labels: seq<Label>, k: nat, b: Building): Result<Building>
    requires k <= |labels|
    decreases |labels| - k
  {
    if k == |labels| then Ok(b)
    else
      var next :- BuildStep(c, labels, k, b);
      BuildFrom(c, labels, k + 1, next)
  }

  // ---------------------------------------------------------------------
  // What the loop promises

  /** The positions of the labels the loop turns into marks, from `k` on. */
  function Kept(labels: seq<Label>, k: nat): seq<nat>
    requires k <= |labels|
    decreases |labels| - k
  {
    if k == |labels| then []
    else if Skipped(labels[k]) then Kept(labels, k + 1)
    else [k] + Kept(labels, k + 1)
  }

  /** The loop passes over exactly the comments and `end`. */
  lemma {:induction false} KeptMeaning(labels: seq<Label>, s: nat, k: nat)
    requires s <= |labels|
    ensures k in Kept(labels, s) <==> s <= k < |labels| && !Skipped(labels[k])
    decreases |labels| - s
  {
    if s < |labels| {
      KeptMeaning(labels, s + 1, k);
    }
  }

  function MarkLabels(marks: seq<Mark>): (r: seq<nat>)
    ensures |r| == |marks| && forall i :: 0 <= i < |marks| ==> r[i] == marks[i].position
  {
    seq(|marks|, i requires 0 <= i < |marks| => marks[i].position)
  }

  /** The label positions of all marks of all groups, in order. */
  function Flat(groups: seq<Group>): seq<nat> {
    if groups == [] then [] else Flat(groups[..|groups| - 1]) + MarkLabels(groups[|groups| - 1].marks)
  }

  /** Does a label carry a `tempo` instruction after its first token? */
  predicate SetsTempo(x: Label) {
    exists i :: 0 <= i < |Modifiers(x)| && StartsWith(Modifiers(x)[i], "tempo")
  }

  /** What every group the loop builds satisfies: its count is the length
      of its list; it is opened by a mark for the group label that names
      it, and every later mark comes from a `mark` label that inherits the
      tempo of the mark before it unless it sets its own. */
  predicate GroupOk(labels: seq<Label>, g: Group) {
    && g.count == |g.files|
    && |g.marks| >= 1
    && (forall i :: 0 <= i < |g.marks| ==> g.marks[i].position < |labels|)
    && labels[g.marks[0].position].head == Some(GroupHead(g.name, g.ref))
    && g.marks[0].addressed == !g.ref.Whole?
    && (forall i :: 1 <= i < |g.marks| ==>
          && labels[g.marks[i].position].head == Some(MarkHead)
          && !g.marks[i].addressed
          && (!SetsTempo(labels[g.marks[i].position]) ==> g.marks[i].tempo == g.marks[i - 1].tempo))
  }

  predicate GroupsOk(labels: seq<Label>, groups: seq<Group>) {
    forall j :: 0 <= j < |groups| ==> GroupOk(labels, groups[j])
  }

  /** The loop state carries the tempo of the last mark it made. */
  predicate TempoOfLast(b: Building) {
    b.groups != [] ==>
      var g := b.groups[|b.groups| - 1];
      g.marks != [] && b.tempo == g.marks[|g.marks| - 1].tempo
  }

  /** Appending a mark for a `mark` label keeps the groups well formed when
      the mark inherits the tempo in force unless its label sets one. */
  lemma {:induction false} AppendMarkKeeps(labels: seq<Label>, groups: seq<Group>, tempo: real, m: Mark)
    requires groups != [] && GroupsOk(labels, groups) && TempoOfLast(Building(tempo, groups))
    requires m.position < |labels| && labels[m.position].head == Some(MarkHead) && !m.addressed
    requires !SetsTempo(labels[m.position]) ==> m.tempo == tempo
    ensures var r := AppendMark(groups, m);
            && GroupsOk(labels, r) && TempoOfLast(Building(m.tempo, r))
            && Flat(r) == Flat(groups) + [m.position]
  {
    var r := AppendMark(groups, m);
    var pre := groups[..|groups| - 1];
    var g := groups[|groups| - 1];
    var g' := r[|r| - 1];
    assert |r| == |groups| && r[..|r| - 1] == pre && g' == g.(marks := g.marks + [m]);
    assert MarkLabels(g'.marks) == MarkLabels(g.marks) + [m.position];
    assert GroupOk(labels, g') by {
      assert g'.marks[|g.marks|] == m;
      forall i | 1 <= i < |g'.marks|
        ensures && labels[g'.marks[i].position].head == Some(MarkHead)
                && !g'.marks[i].addressed
                && (!SetsTempo(labels[g'.marks[i].position]) ==> g'.marks[i].tempo == g'.marks[i - 1].tempo)
      {
        if i < |g.marks| {
          assert g'.marks[i] == g.marks[i] && g'.marks[i - 1] == g.marks[i - 1];
        }
      }
    }
    forall j | 0 <= j < |r|
      ensures GroupOk(labels, r[j])
    {
      if j < |pre| {
        assert r[j] == r[..|r| - 1][j] == groups[j];
      }
    }
  }

  /** One iteration keeps the groups well formed and adds the label's
      position, when it is not passed over, to the marks. */
  lemma {:induction false} BuildStepKeeps(c: Config, labels: seq<Label>, k: nat, b: Building, n: Building)
    requires k < |labels| && BuildStep(c, labels, k, b) == Ok(n)
    requires GroupsOk(labels, b.groups) && TempoOfLast(b)
    ensures && GroupsOk(labels, n.groups) && TempoOfLast(n)
            && Flat(n.groups) == Flat(b.groups) + (if Skipped(labels[k]) then [] else [k])
  {
    var x := labels[k];
    if !Skipped(x) {
      match x.head
      case Some(MarkHead) =>
        MarkLabelKeeps(labels, k, b, n);
      case Some(GroupHead(name, ref)) =>
        GroupLabelKeeps(c, labels, k, b, name, ref, n);
    }
  }

  /** A `mark` label keeps the groups well formed and adds its position. */
  lemma {:induction false} MarkLabelKeeps(labels: seq<Label>, k: nat, b: Building, n: Building)
    requires k < |labels| && labels[k].head == Some(MarkHead)
    requires MarkLabelStep(labels[k], k, b) == Ok(n)
    requires GroupsOk(labels, b.groups) && TempoOfLast(b)
    ensures GroupsOk(labels, n.groups) && TempoOfLast(n) && Flat(n.groups) == Flat(b.groups) + [k]
  {
    var x := labels[k];
    var (tempo, hold) := MarkFrom((b.tempo, false), Modifiers(x)).value;
    if !SetsTempo(x) {
      MarkAccepts((b.tempo, false), Modifiers(x));
    }
    AppendMarkKeeps(labels, b.groups, b.tempo, Mark(k, x.duration.value, hold, tempo, false));
  }

  /** A group label keeps the groups well formed and adds its position. */
  lemma {:induction false} GroupLabelKeeps(c: Config, labels: seq<Label>, k: nat, b: Building, name: string, ref: Ref,
                                           n: Building)
    requires k < |labels| && labels[k].head == Some(GroupHead(name, ref))
    requires GroupLabelStep(c, labels[k], k, b, name, ref) == Ok(n)
    requires GroupsOk(labels, b.groups)
    ensures GroupsOk(labels, n.groups) && TempoOfLast(n) && Flat(n.groups) == Flat(b.groups) + [k]
  {
    assert n.groups[..|n.groups| - 1] == b.groups;
    assert MarkLabels(n.groups[|n.groups| - 1].marks) == [k];
  }

  lemma {:induction false} KeptStep(labels: seq<Label>, k: nat)
    requires k < |labels|
    ensures Kept(labels, k) == (if Skipped(labels[k]) then [] else [k]) + Kept(labels, k + 1)
  {
  }

  lemma AppendAssoc<T>(a: seq<T>, b: seq<T>, c: seq<T>)
    ensures a + b + c == a + (b + c)
  {
  }

  /** The loop from label `k` on, started from well-formed groups, keeps
      them well formed and turns exactly the labels it does not pass over
      into marks, in order. */
  lemma {:induction false} BuildFromKeeps(c: Config, labels: seq<Label>, k: nat, b: Building, r: Building)
    requires k <= |labels| && BuildFrom(c, labels, k, b) == Ok(r)
    requires GroupsOk(labels, b.groups) && TempoOfLast(b)
    ensures GroupsOk(labels, r.groups) && Flat(r.groups) == Flat(b.groups) + Kept(labels, k)
    decreases |labels| - k
  {
    if k == |labels| {
      assert Flat(b.groups) + [] == Flat(b.groups);
    } else {
      var n := BuildStep(c, labels, k, b).value;
      BuildStepKeeps(c, labels, k, b, n);
      BuildFromKeeps(c, labels, k + 1, n, r);
      KeptChain(labels, k, Flat(b.groups), Flat(n.groups), Flat(r.groups));
    }
  }

  /** The marks before label `k`, then label `k`'s own, then those after:
      the marks before `k` followed by those from `k` on. */
  lemma {:induction false} KeptChain(labels: seq<Label>, k: nat, before: seq<nat>, after: seq<nat>, all: seq<nat>)
    requires k < |labels|
    requires after == before + (if Skipped(labels[k]) then [] else [k])
    requires all == after + Kept(labels, k + 1)
    ensures all == before + Kept(labels, k)
  {
    KeptStep(labels, k);
    AppendAssoc(before, if Skipped(labels[k]) then [] else [k], Kept(labels, k + 1));
  }

  /** What `build_groups_from_labels` promises when it accepts the labels:
      well-formed groups whose marks are, in order, exactly the labels other
      than comments and `end`. */
  lemma {:induction false} BuildMeaning(c: Config, labels: seq<Label>)
    requires BuildFrom(c, labels, 0, Building(1.0, [])).Ok?
    ensures var groups := BuildFrom(c, labels, 0, Building(1.0, [])).value.groups;
            GroupsOk(labels, groups) && Flat(groups) == Kept(labels, 0)
  {
    BuildFromKeeps(c, labels, 0, Building(1.0, []), BuildFrom(c, labels, 0, Building(1.0, [])).value);
  }

  /** `build_groups_from_labels()`: it accepts the labels only when every
      mark follows some group label, and then every label other than a
      comment or `end` becomes exactly one mark, in order, of well-formed
      groups. */
  method BuildGroups(c: Config, labels: seq<Label>) returns (r: Result<seq<Group>>)
    ensures r.Ok? <==> BuildFrom(c, labels, 0, Building(1.0, [])).Ok?
    ensures r.Ok? ==> r.value == BuildFrom(c, labels, 0, Building(1.0, [])).value.groups
    ensures r.Err? ==> r.error == BuildFrom(c, labels, 0, Building(1.0, [])).error
    ensures r.Ok? ==> GroupsOk(labels, r.value) && Flat(r.value) == Kept(labels, 0)
  {
    var b := Building(1.0, []);
    var k := 0;
    while k < |labels|
      invariant 0 <= k <= |labels|
      invariant BuildFrom(c, labels, 0, Building(1.0, [])) == BuildFrom(c, labels, k, b)
    {
      var next := BuildStep(c, labels, k, b);
      if next.Err? {
        return Err(next.error);
      }
      b := next.value;
      k := k + 1;
    }
    BuildMeaning(c, labels);
    return Ok(b.groups);
  }
}

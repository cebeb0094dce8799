/** The modifiers a label carries after its first token:
    `decode_group_instruction` (`repN`, `rev`, `boom`, `hold`, `tempoX`) for
    a group-opening label and `decode_mark_instruction` (`hold`, `tempoX`)
    for a `mark`. */
module Instructions {
  import opened Base
  import opened Text
  import opened Numbers
  import opened PyList

  /** The state `decode_group_instruction` threads through its loop. */
  datatype Decoded = Decoded(tempo: real, hold: bool, files: seq<string>)

  /** The list `repN` appends to: the whole list, or the list without its
      first file when it already ends where it starts. */
  function RepeatUnit(files: seq<string>): seq<string>
    requires files != []
  {
    if files[0] != files[|files| - 1] then files else files[1..]
  }

  /** `files += (rep - 1) * unit`, for `rep > 1`. */
  function Rep(files: seq<string>, rep: int): (r: seq<string>)
    requires files != [] && rep > 1
    ensures |r| == |files| + (rep - 1) * |RepeatUnit(files)|
    ensures r[..|files|] == files
  {
    files + Repeat(rep - 1, RepeatUnit(files))
  }

  /** `files += list(files[:-1])[::-1]`. */
  function Boom(files: seq<string>): (r: seq<string>)
    ensures files != [] ==> |r| == 2 * |files| - 1
    ensures files == [] ==> r == []
    ensures r[..|files|] == files
  {
    files + Reversed(if files == [] then [] else files[..|files| - 1])
  }

  /** The instruction keywords differ in their first letter, except `rep`
      and `rev`, so at most one of the others matches. */
  lemma {:induction false} KeywordHeads(ins: string)
    ensures StartsWith(ins, "rep") ==> ins[0] == 'r'
    ensures StartsWith(ins, "rev") ==> ins[0] == 'r'
    ensures StartsWith(ins, "boom") ==> ins[0] == 'b'
    ensures StartsWith(ins, "hold") ==> ins[0] == 'h'
    ensures StartsWith(ins, "tempo") ==> ins[0] == 't'
  {
    if |ins| > 0 {
      assert forall p: string :: p != [] && StartsWith(ins, p) ==> ins[0] == ins[..|p|][0] == p[0];
    }
  }

  /** The error `decode_group_instruction` raises on one instruction, or
      `None` when it takes it; `empty` says whether the list is empty when
      the instruction is reached. A `repN` needs an integer `N` above 1 and
      a non-empty list, a `tempoX` needs a number, `rev`, `boom` and `hold`
      are always taken, and any other word is refused. */
  function Refusal(ins: string, empty: bool): Option<Error> {
    if StartsWith(ins, "rep") then
      if ParseInt(ins[3..]).None? then Some(ValueError)
      else if ParseInt(ins[3..]).value <= 1 then Some(InvalidRepeat)
      else if empty then Some(IndexError)
      else None
    else if StartsWith(ins, "rev") || StartsWith(ins, "boom") || StartsWith(ins, "hold") then None
    else if StartsWith(ins, "tempo") then
      if ParseDecimal(ins[5..]).None? then Some(ValueError) else None
    else Some(InvalidInstruction)
  }

  /** One instruction of a group-opening label. */
  function GroupStep(d: Decoded, ins: string): (r: Result<Decoded>)
    ensures r.Ok? <==> Refusal(ins, d.files == []).None?
    ensures r.Err? ==> Refusal(ins, d.files == []) == Some(r.error)
    ensures r.Ok? ==> (r.value.files == []) == (d.files == [])
    ensures r.Ok? && !StartsWith(ins, "tempo") ==> r.value.tempo == d.tempo
    ensures r.Ok? ==> r.value.hold == (d.hold || StartsWith(ins, "hold"))
  {
    KeywordHeads(ins);
    if StartsWith(ins, "rep") then
      match ParseInt(ins[3..])
      case None => Err(ValueError)
      case Some(rep) =>
        if rep <= 1 then Err(InvalidRepeat)
        else if d.files == [] then Err(IndexError)
        else Ok(d.(files := Rep(d.files, rep)))
    else if StartsWith(ins, "rev") then Ok(d.(files := Reversed(d.files)))
    else if StartsWith(ins, "boom") then Ok(d.(files := Boom(d.files)))
    else if StartsWith(ins, "hold") then Ok(d.(hold := true))
    else if StartsWith(ins, "tempo") then
      match ParseDecimal(ins[5..])
      case None => Err(ValueError)
      case Some(t) => Ok(d.(tempo := t))
    else Err(InvalidInstruction)
  }

  /** The loop of `decode_group_instruction` from a given state. */
  function GroupFrom(d: Decoded, instructions: seq<string>): Result<Decoded>
    decreases |instructions|
  {
    if instructions == [] then Ok(d)
    else
      var next :- GroupStep(d, instructions[0]);
      GroupFrom(next, instructions[1..])
  }

  /** `decode_group_instruction(files, instructions)`: the tempo (1.0 unless
      a `tempo` instruction sets it), whether `hold` was present, and the
      list after the list modifiers, applied left to right. */
  method DecodeGroupInstruction(files: seq<string>, instructions: seq<string>) returns (r: Result<Decoded>)
    ensures r == GroupFrom(Decoded(1.0, false, files), instructions)
  {
    var d := Decoded(1.0, false, files);
    var k := 0;
    assert instructions[0..] == instructions;
    while k < |instructions|
      invariant 0 <= k <= |instructions|
      invariant GroupFrom(Decoded(1.0, false, files), instructions) == GroupFrom(d, instructions[k..])
    {
      assert instructions[k..][1..] == instructions[k + 1..];
      var next := GroupStep(d, instructions[k]);
      if next.Err? {
        return Err(next.error);
      }
      d := next.value;
      k := k + 1;
    }
    return Ok(d);
  }

  /** A group label's instructions are taken exactly when none of them is
      refused, given whether the starting list is empty (no instruction
      empties a list or fills an empty one); otherwise the error is the one
      of the first refused instruction. */
  lemma {:induction false} GroupAccepts(d: Decoded, instructions: seq<string>)
    ensures GroupFrom(d, instructions).Ok? <==>
              forall k :: 0 <= k < |instructions| ==> Refusal(instructions[k], d.files == []).None?
    ensures GroupFrom(d, instructions).Ok? ==> (GroupFrom(d, instructions).value.files == []) == (d.files == [])
    ensures GroupFrom(d, instructions).Err? ==>
              exists k :: 0 <= k < |instructions| && FirstRefused(instructions, d.files == [], k) &&
                          Refusal(instructions[k], d.files == []) == Some(GroupFrom(d, instructions).error)
    decreases |instructions|
  {
    if instructions != [] {
      var empty := d.files == [];
      var step := GroupStep(d, instructions[0]);
      var rest := instructions[1..];
      assert forall k :: 0 <= k < |rest| ==> rest[k] == instructions[k + 1];
      if step.Err? {
        assert FirstRefused(instructions, empty, 0);
      } else {
        GroupAccepts(step.value, rest);
        if GroupFrom(d, instructions).Err? {
          var k :| 0 <= k < |rest| && FirstRefused(rest, empty, k) &&
                   Refusal(rest[k], empty) == Some(GroupFrom(step.value, rest).error);
          assert FirstRefused(instructions, empty, k + 1);
        }
      }
    }
  }

  /** Instruction `k` is refused, and none before it is. */
  predicate FirstRefused(instructions: seq<string>, empty: bool, k: nat)
    requires k < |instructions|
  {
    && Refusal(instructions[k], empty).Some?
    && forall j :: 0 <= j < k ==> Refusal(instructions[j], empty).None?
  }

  /** `hold` is present after the loop exactly when some instruction starts
      with "hold"; the loop only fails on a bad instruction, so a label whose
      instructions all start with "hold" always decodes. */
  lemma {:induction false} HoldPresent(d: Decoded, instructions: seq<string>)
    requires GroupFrom(d, instructions).Ok?
    ensures GroupFrom(d, instructions).value.hold <==>
              d.hold || exists k :: 0 <= k < |instructions| && StartsWith(instructions[k], "hold")
    decreases |instructions|
  {
    if instructions != [] {
      var next := GroupStep(d, instructions[0]).value;
      HoldPresent(next, instructions[1..]);
      if exists k :: 0 <= k < |instructions[1..]| && StartsWith(instructions[1..][k], "hold") {
        var k :| 0 <= k < |instructions[1..]| && StartsWith(instructions[1..][k], "hold");
        assert StartsWith(instructions[k + 1], "hold");
      }
      if exists k :: 0 <= k < |instructions| && StartsWith(instructions[k], "hold") {
        var k :| 0 <= k < |instructions| && StartsWith(instructions[k], "hold");
        if k > 0 {
          assert StartsWith(instructions[1..][k - 1], "hold");
        }
      }
    }
  }

  /** Without a `tempo` instruction the tempo stays what it was. */
  lemma {:induction false} TempoKept(d: Decoded, instructions: seq<string>)
    requires GroupFrom(d, instructions).Ok?
    requires forall k :: 0 <= k < |instructions| ==> !StartsWith(instructions[k], "tempo")
    ensures GroupFrom(d, instructions).value.tempo == d.tempo
    decreases |instructions|
  {
    if instructions != [] {
      var next := GroupStep(d, instructions[0]).value;
      assert forall k :: 0 <= k < |instructions[1..]| ==> instructions[1..][k] == instructions[k + 1];
      TempoKept(next, instructions[1..]);
    }
  }

  /** `repN` makes the list loop N times without showing its seam twice:
      the result starts with the list and repeats with a period of the list
      length, or of one less when the list already ends where it starts (so
      that file is shown once between two loops). */
  lemma {:induction false} RepLoops(files: seq<string>, rep: int, k: nat)
    requires |files| >= 2 && rep > 1
    requires k + |RepeatUnit(files)| < |Rep(files, rep)|
    ensures Rep(files, rep)[k + |RepeatUnit(files)|] == Rep(files, rep)[k]
  {
    var unit := RepeatUnit(files);
    var p := |unit|;
    var n := |files|;
    var tail := Repeat(rep - 1, unit);
    var r := Rep(files, rep);
    assert r == files + tail;
    if k >= n {
      RepeatPeriodic(rep - 1, unit, k - n);
      assert r[k] == tail[k - n] && r[k + p] == tail[k - n + p];
    } else if k + p >= n {
      RepeatAt(rep - 1, unit, 0, k + p - n);
      assert r[k + p] == tail[k + p - n] == unit[k + p - n];
    }
  }

  /** `boom` makes a palindrome: the list played forward then back. */
  lemma {:induction false} BoomPalindrome(files: seq<string>)
    ensures Reversed(Boom(files)) == Boom(files)
  {
    if files != [] {
      var init := files[..|files| - 1];
      assert files == init + [files[|files| - 1]];
      ReversedAppend(files, Reversed(init));
      ReversedTwice(init);
      ReversedAppend(init, [files[|files| - 1]]);
      assert Reversed([files[|files| - 1]]) == [files[|files| - 1]];
    }
  }

  /** The list a decoded group label ends with has the length the list
      modifiers give it: `repN` multiplies (minus the shared seam), `rev`
      keeps, `boom` doubles less one. */
  lemma {:induction false} StepLength(d: Decoded, ins: string)
    requires GroupStep(d, ins).Ok?
    ensures var n, m := |d.files|, |GroupStep(d, ins).value.files|;
            && (StartsWith(ins, "rep") ==>
                  var rep := ParseInt(ins[3..]).value;
                  m == (if d.files[0] != d.files[n - 1] then rep * n else n + (rep - 1) * (n - 1)))
            && (!StartsWith(ins, "rep") && StartsWith(ins, "rev") ==>
                  GroupStep(d, ins).value.files == Reversed(d.files))
            && (!StartsWith(ins, "rep") && !StartsWith(ins, "rev") && StartsWith(ins, "boom") ==>
                  m == (if n == 0 then 0 else 2 * n - 1))
            && (!StartsWith(ins, "rep") && !StartsWith(ins, "rev") && !StartsWith(ins, "boom") ==> m == n)
  {
    KeywordHeads(ins);
    if StartsWith(ins, "rep") {
      RepLength(d.files, ParseInt(ins[3..]).value);
    }
  }

  lemma {:induction false} RepLength(files: seq<string>, rep: int)
    requires files != [] && rep > 1
    ensures var n := |files|;
            |Rep(files, rep)| == (if files[0] != files[n - 1] then rep * n else n + (rep - 1) * (n - 1))
  {
    var n := |files|;
    if files[0] != files[n - 1] {
      assert n + (rep - 1) * n == rep * n;
    } else {
      assert |RepeatUnit(files)| == n - 1;
    }
  }

  /** `decode_mark_instruction`: a `mark` only accepts `hold` and `tempoX`,
      and keeps the tempo it inherits otherwise. */
  function MarkStep(d: (real, bool), ins: string): (r: Result<(real, bool)>)
    ensures r.Ok? <==> StartsWith(ins, "hold") || (StartsWith(ins, "tempo") && ParseDecimal(ins[5..]).Some?)
    ensures r.Ok? ==> r.value.1 == (d.1 || StartsWith(ins, "hold"))
    ensures r.Ok? && !StartsWith(ins, "tempo") ==> r.value.0 == d.0
  {
    KeywordHeads(ins);
    if StartsWith(ins, "hold") then Ok((d.0, true))
    else if StartsWith(ins, "tempo") then
      match ParseDecimal(ins[5..])
      case None => Err(ValueError)
      case Some(t) => Ok((t, d.1))
    else Err(InvalidInstruction)
  }

  function MarkFrom(d: (real, bool), instructions: seq<string>): Result<(real, bool)>
    decreases |instructions|
  {
    if instructions == [] then Ok(d)
    else
      var next :- MarkStep(d, instructions[0]);
      MarkFrom(next, instructions[1..])
  }

  /** The loop of `decode_mark_instruction(mark_entry, tempo)`: the tempo
      (the inherited one unless a `tempo` instruction sets it) and whether
      `hold` was present. */
  method DecodeMarkInstruction(tempo: real, instructions: seq<string>) returns (r: Result<(real, bool)>)
    ensures r == MarkFrom((tempo, false), instructions)
  {
    var d := (tempo, false);
    var k := 0;
    assert instructions[0..] == instructions;
    while k < |instructions|
      invariant 0 <= k <= |instructions|
      invariant MarkFrom((tempo, false), instructions) == MarkFrom(d, instructions[k..])
    {
      assert instructions[k..][1..] == instructions[k + 1..];
      var next := MarkStep(d, instructions[k]);
      if next.Err? {
        return Err(next.error);
      }
      d := next.value;
      k := k + 1;
    }
    return Ok(d);
  }

  /** A mark accepts a list of instructions exactly when each is a `hold` or
      a `tempo` with a number, and keeps the inherited tempo when none is a
      `tempo`. */
  lemma {:induction false} MarkAccepts(d: (real, bool), instructions: seq<string>)
    ensures MarkFrom(d, instructions).Ok? <==>
              forall k :: 0 <= k < |instructions| ==>
                StartsWith(instructions[k], "hold") ||
                (StartsWith(instructions[k], "tempo") && ParseDecimal(instructions[k][5..]).Some?)
    ensures MarkFrom(d, instructions).Ok? &&
            (forall k :: 0 <= k < |instructions| ==> !StartsWith(instructions[k], "tempo")) ==>
              MarkFrom(d, instructions).value.0 == d.0
    decreases |instructions|
  {
    if instructions != [] {
      var step := MarkStep(d, instructions[0]);
      if step.Ok? {
        MarkAccepts(step.value, instructions[1..]);
        assert forall k :: 0 <= k < |instructions[1..]| ==> instructions[1..][k] == instructions[k + 1];
      }
    }
  }
}

/** The tree section of a resolution, src/manifest.c: its name lines, its parser and its writer, and
    the skeleton a manifest's marks make.  The document is the manifest's with choices for actions, so
    each line is also a manifest's line with a number for its mark, and what is proved of those holds. */
module Answers {
  import opened Trees
  import opened Paths
  import D = Document
  import W = Writer
  import R = RoundTrip
  import Reader

  /** `enum zr_choice`. */
  datatype Choice = Unanswered | Keep | OntoSide | FromSide

  /** What a line says of its name: the group of its conflict, or none for drift, and the choice. */
  datatype Mark = Mark(group: Option<nat>, choice: Choice)

  /** `struct zr_rline`. */
  datatype Answer = Answer(path: Path, dir: bool, mark: Mark)

  datatype Line = Root(mark: Option<Mark>) | Name(name: Leaf, dir: bool, mark: Option<Mark>) | Close

  /** `zr_name_line`: a conflict has a group number, and none is 0. */
  predicate MarkOk(mark: Mark) { mark.group != Some(0) }

  // ----- the parser

  /** What `zp_tree` carries when it reads a resolution. */
  datatype State = State(stack: seq<Path>, seen: seq<D.Seen>, answers: seq<Answer>) {

    predicate Accepts(l: Line)
      requires l.Name?
    {
      D.NameOk(l.name) && (if l.mark.None? then l.dir else MarkOk(l.mark.value))
    }

    /** `zr_name_line`. */
    function AfterName(l: Line): State
      requires l.Name? && stack != []
    {
      var path := stack[|stack| - 1] + [l.name];
      State(if l.dir then stack + [path] else stack,
            seen + [D.Seen(path, false)],
            if l.mark.Some? then answers + [Answer(path, l.dir, l.mark.value)] else answers)
    }

    function After(l: Line): Option<State> {
      match l
      case Root(_) => None
      case Name(_, _, _) => if stack != [] && Accepts(l) then Some(AfterName(l)) else None
      case Close => if stack != [] then Some(State(stack[..|stack| - 1], seen, answers)) else None
    }
  }

  function Start(): State { State([[]], [], []) }

  function Read(lines: seq<Line>): Option<State> {
    if lines == [] then Some(Start()) else
    var before := Read(lines[..|lines| - 1]);
    if before.None? || before.value.stack == [] then None else before.value.After(lines[|lines| - 1])
  }

  ghost function Parse(lines: seq<Line>): Option<seq<Answer>> {
    if lines == [] || lines[0] != Root(None) then None else
    var end := Read(lines[1..]);
    if end.None? || end.value.stack != [] || D.Repeats(end.value.seen) then None else Some(end.value.answers)
  }

  /** `struct zp`, reading a resolution. */
  class AnswerReader {
    var stack: seq<Path>
    var seen: seq<D.Seen>
    var answers: seq<Answer>

    ghost function Now(): State
      reads this
    {
      State(stack, seen, answers)
    }

    constructor ()
      ensures Now() == Start()
    {
      stack, seen, answers := [[]], [], [];
    }

    /** `zr_name_line`. */
    method NameLine(l: Line) returns (ok: bool)
      requires l.Name? && stack != []
      modifies this
      ensures ok <==> old(Now()).Accepts(l)
      ensures ok ==> Now() == old(Now()).AfterName(l)
    {
      var path := stack[|stack| - 1] + [l.name];
      if !D.NameOk(l.name) { return false; }
      if l.mark.None? {
        if !l.dir { return false; }
      } else {
        if l.mark.value.group == Some(0) { return false; }
      }
      seen := seen + [D.Seen(path, false)];
      if l.mark.Some? { answers := answers + [Answer(path, l.dir, l.mark.value)]; }
      if l.dir { stack := stack + [path]; }
      ok := true;
    }

    /** `zp_tree` and `zp_repeats`, and `zr_tail`: nothing follows the section. */
    method Section(lines: seq<Line>) returns (list: Option<seq<Answer>>)
      requires Now() == Start()
      modifies this
      ensures list == Parse(lines)
    {
      hide D.NameOk, D.Repeats;
      if lines == [] || lines[0] != Root(None) { return None; }
      ghost var body := lines[1..];
      for i: nat := 1 to |lines|
        invariant Read(body[..i - 1]) == Some(Now()) && stack != []
      {
        assert body[..i][..i - 1] == body[..i - 1] && body[i - 1] == lines[i];
        match lines[i]
        case Root(_) =>
          ReadStops(body, i);
          return None;
        case Close =>
          stack := stack[..|stack| - 1];
          if stack == [] {
            if i + 1 < |lines| {
              ReadEnded(body, i);
              return None;
            }
            assert body[..i] == body;
            var bad := Reader.FindRepeats(seen);
            return if bad.Some? then None else Some(answers);
          }
        case Name(_, _, _) =>
          var ok := NameLine(lines[i]);
          if !ok {
            ReadStops(body, i);
            return None;
          }
      }
      assert body[..|lines| - 1] == body;
      list := None;
    }
  }

  /** A refused line refuses the section. */
  lemma {:induction false} ReadStops(lines: seq<Line>, i: nat)
    requires i <= |lines| && Read(lines[..i]).None?
    ensures Read(lines).None?
    decreases |lines| - i
  {
    if i == |lines| {
      assert lines[..i] == lines;
    } else {
      assert lines[..i + 1][..i] == lines[..i];
      ReadStops(lines, i + 1);
    }
  }

  lemma ReadEnded(lines: seq<Line>, i: nat)
    requires i < |lines| && Read(lines[..i]).Some? && Read(lines[..i]).value.stack == []
    ensures Read(lines).None?
  {
    hide State.After;
    var next := lines[..i + 1];
    assert next[..|next| - 1] == lines[..i];
    assert Read(next).None?;
    ReadStops(lines, i + 1);
  }

  // ----- a mark as a number

  function ChoiceCode(c: Choice): (n: nat)
    ensures n < 4
  {
    match c case Unanswered => 0 case Keep => 1 case OntoSide => 2 case FromSide => 3
  }

  function Code(mark: Mark): (n: nat)
    ensures n > 0
  {
    1 + ChoiceCode(mark.choice) + 4 * (if mark.group.Some? then mark.group.value + 1 else 0)
  }

  lemma CodeTells(a: Mark, b: Mark)
    requires Code(a) == Code(b)
    ensures a == b
  {
    assert (Code(a) - 1) % 4 == ChoiceCode(a.choice) && (Code(b) - 1) % 4 == ChoiceCode(b.choice);
  }

  function CodedMark(mark: Option<Mark>): Option<D.Word> {
    if mark.Some? then Some(D.Conflict(Code(mark.value))) else None
  }

  function CodedLine(l: Line): D.Line {
    match l
    case Root(mark) => D.Root(CodedMark(mark))
    case Name(name, dir, mark) => D.Name(name, dir, CodedMark(mark))
    case Close => D.Close
  }

  function CodedLines(lines: seq<Line>): (r: seq<D.Line>)
    ensures |r| == |lines|
  {
    seq(|lines|, i requires 0 <= i < |lines| => CodedLine(lines[i]))
  }

  function CodedAnswer(a: Answer): D.Deed { D.Deed(a.path, a.dir, D.Conflict(Code(a.mark))) }

  function Coded(answers: seq<Answer>): (r: seq<D.Deed>)
    ensures |r| == |answers|
  {
    seq(|answers|, i requires 0 <= i < |answers| => CodedAnswer(answers[i]))
  }

  lemma CodedTells(a: seq<Answer>, b: seq<Answer>)
    requires Coded(a) == Coded(b)
    ensures a == b
  {
    forall i | 0 <= i < |a| ensures |a| == |b| && a[i] == b[i] {
      assert |Coded(a)| == |Coded(b)| && Coded(a)[i] == Coded(b)[i];
      CodeTells(a[i].mark, b[i].mark);
    }
  }

  // ----- the two parsers together

  ghost predicate MarksOk(lines: seq<Line>) {
    forall i :: 0 <= i < |lines| ==> LineMarkOk(lines[i])
  }

  predicate LineMarkOk(l: Line) { l.Name? && l.mark.Some? ==> MarkOk(l.mark.value) }

  /** The manifest's parser stands where the resolution's does. */
  ghost predicate Alike(st: State, dt: D.State) {
    && |dt.stack| == |st.stack| && (forall k :: 0 <= k < |st.stack| ==> dt.stack[k] == D.Scope(st.stack[k], false))
    && (dt.closed.Some? ==> !dt.closed.value.rm) && dt.seen == st.seen && dt.deeds == Coded(st.answers)
  }

  lemma AlikeAfter(st: State, dt: D.State, l: Line)
    requires Alike(st, dt) && st.stack != [] && LineMarkOk(l)
    ensures st.After(l).Some? <==> dt.After(CodedLine(l)).Some?
    ensures st.After(l).Some? ==> Alike(st.After(l).value, dt.After(CodedLine(l)).value)
  {
    hide D.NameOk;
    if l.Name? && l.mark.Some? {
      var path := st.stack[|st.stack| - 1] + [l.name];
      var a := Answer(path, l.dir, l.mark.value);
      assert Coded(st.answers + [a]) == Coded(st.answers) + [CodedAnswer(a)];
    }
  }

  lemma {:induction false} ReadAlike(lines: seq<Line>)
    requires MarksOk(lines)
    ensures Read(lines).Some? <==> D.Read(CodedLines(lines)).Some?
    ensures Read(lines).Some? ==> Alike(Read(lines).value, D.Read(CodedLines(lines)).value)
  {
    hide State.After, D.State.After, CodedLine;
    if lines != [] {
      var n := |lines| - 1;
      ReadAlike(lines[..n]);
      assert CodedLines(lines)[..n] == CodedLines(lines[..n]);
      var before := Read(lines[..n]);
      if before.Some? && before.value.stack != [] {
        AlikeAfter(before.value, D.Read(CodedLines(lines[..n])).value, lines[n]);
      }
    } else {
      assert Coded([]) == [];
    }
  }

  /** A resolution whose coded lines parse parses, to the answers they code. */
  lemma ParseAlike(lines: seq<Line>, answers: seq<Answer>)
    requires MarksOk(lines) && D.Parse(CodedLines(lines)) == Some(Coded(answers))
    ensures Parse(lines) == Some(answers)
  {
    hide D.Read, Read, D.Repeats;
    var body := lines[1..];
    assert CodedLines(lines)[1..] == CodedLines(body);
    ReadAlike(body);
    CodedTells(Read(body).value.answers, answers);
  }

  // ----- the writer

  /** Answers the format can carry: one to a name, in manifest order, with the slash on every path
      that has others under it. */
  ghost predicate Canonical(answers: seq<Answer>) {
    && (forall i :: 0 <= i < |answers| ==> D.ArgOk(answers[i].path) && MarkOk(answers[i].mark))
    && (forall i, j :: 0 <= i < j < |answers| ==> InTurn(answers[i], answers[j]))
  }

  predicate InTurn(a: Answer, b: Answer) { Before(a.path, b.path) && (Under(a.path, b.path) ==> a.dir) }

  lemma CodedCanonical(answers: seq<Answer>)
    requires Canonical(answers)
    ensures W.Canonical(Coded(answers))
  {
    hide Before, Under, D.ArgOk;
    var deeds := Coded(answers);
    forall i, j | 0 <= i < j < |deeds| ensures W.Turn(deeds[i], deeds[j]) && !Under(deeds[j].path, deeds[i].path) {
      assert InTurn(answers[i], answers[j]);
      BeforeAsymmetric(answers[i].path, answers[j].path);
      if Under(deeds[j].path, deeds[i].path) { UnderIsAfter(deeds[j].path, deeds[i].path); }
    }
  }

  /** No two entries share a name: a mark is no removal. */
  lemma NoSecond(answers: seq<Answer>, E: seq<W.Ent>, b: nat)
    requires W.EntriesFor(Coded(answers), E) && b < |E|
    ensures !E[b].dup
  {
    hide Before, W.Ascends, W.Leads, W.HasAct, W.ParentIn, W.PairRight;
    NoPair(answers, E, b);
  }

  lemma NoPair(answers: seq<Answer>, E: seq<W.Ent>, b: nat)
    requires b < |E|
    ensures !W.PairRight(Coded(answers), E, b)
  {
  }

  /** `zs_line`. */
  function LineOf(answers: seq<Answer>, e: W.Ent): Line
    requires e.act < |answers|
  {
    var mark := if e.act >= 0 then Some(answers[e.act].mark) else None;
    if e.path == [] then Root(mark) else Name(e.path[|e.path| - 1], e.dir, mark)
  }

  lemma LineIsCoded(answers: seq<Answer>, e: W.Ent)
    requires e.act < |answers|
    ensures CodedLine(LineOf(answers, e)) == R.LineOf(Coded(answers), e)
  {
  }

  /** What is written so far, read as the manifest's parser reads its code. */
  ghost predicate ReadsBack(answers: seq<Answer>, E: seq<W.Ent>, i: nat, stack: seq<nat>, body: seq<Line>)
    requires R.InRange(Coded(answers), E)
  {
    Canonical(answers) ==> MarksOk(body) && W.Canonical(Coded(answers)) && R.ReadsBack(Coded(answers), E, i, stack, CodedLines(body))
  }

  lemma CodedOne(body: seq<Line>, l: Line)
    ensures CodedLines(body + [l]) == CodedLines(body) + [CodedLine(l)]
  {
  }

  lemma StartReads(answers: seq<Answer>, E: seq<W.Ent>)
    requires R.InRange(Coded(answers), E) && E != [] && (W.Canonical(Coded(answers)) ==> W.EntriesFor(Coded(answers), E))
    ensures ReadsBack(answers, E, 1, [0], [])
  {
    hide W.EntriesFor, W.Canonical, R.ReadsBack;
    if Canonical(answers) {
      CodedCanonical(answers);
      R.StartReads(Coded(answers), E);
      assert CodedLines([]) == [];
    }
  }

  lemma LineReads(answers: seq<Answer>, E: seq<W.Ent>, i: nat, stack: seq<nat>, body: seq<Line>)
    requires R.InRange(Coded(answers), E) && 0 < i < |E| && ReadsBack(answers, E, i, stack, body)
    requires stack == [] || (stack[|stack| - 1] < |E| && Under(E[stack[|stack| - 1]].path, E[i].path))
    ensures ReadsBack(answers, E, i + 1, R.Pushed(E, i, stack), body + [LineOf(answers, E[i])])
  {
    hide W.EntriesFor, W.Canonical, R.Written, R.Pushed, R.LineOf;
    if Canonical(answers) {
      NoSecond(answers, E, i);
      if stack != [] { R.LineReads(Coded(answers), E, i, stack, CodedLines(body)); } else { R.RootHoldsAll(Coded(answers), E, i, CodedLines(body)); }
      LineIsCoded(answers, E[i]);
      CodedOne(body, LineOf(answers, E[i]));
    }
  }

  lemma CloseReads(answers: seq<Answer>, E: seq<W.Ent>, i: nat, stack: seq<nat>, body: seq<Line>)
    requires R.InRange(Coded(answers), E) && stack != [] && i <= |E| && ReadsBack(answers, E, i, stack, body)
    requires stack[|stack| - 1] < |E| && (i < |E| ==> !Under(E[stack[|stack| - 1]].path, E[i].path))
    ensures ReadsBack(answers, E, i, R.Popped(stack), body + [Close])
  {
    hide W.EntriesFor, W.Canonical, R.Written, R.LineOf;
    if Canonical(answers) {
      if i < |E| { NoSecond(answers, E, i); }
      var t := stack[|stack| - 1];
      if t + 1 < |E| { NoSecond(answers, E, t + 1); }
      R.CloseReads(Coded(answers), E, i, stack, CodedLines(body));
      CodedOne(body, Close);
    }
  }

  lemma AllRead(answers: seq<Answer>, E: seq<W.Ent>, body: seq<Line>)
    requires R.InRange(Coded(answers), E) && E != [] && ReadsBack(answers, E, |E|, [], body) && Canonical(answers)
    ensures Parse([LineOf(answers, E[0])] + body) == Some(answers)
  {
    hide W.EntriesFor, W.Canonical, R.Written, R.LineOf;
    R.RootPlain(Coded(answers), E);
    LineIsCoded(answers, E[0]);
    R.AllRead(Coded(answers), E, CodedLines(body));
    var lines := [LineOf(answers, E[0])] + body;
    assert CodedLines(lines) == [D.Root(None)] + CodedLines(body);
    ParseAlike(lines, answers);
  }

  /** `zr_resolution_write`: its entries are `zw_entries`' of lines that never pair.  What the format
      can carry, the parser gives back. */
  method WriteAnswers(answers: seq<Answer>) returns (lines: seq<Line>)
    ensures Canonical(answers) ==> Parse(lines) == Some(answers)
  {
    hide Canonical, ReadsBack, LineOf, Under, Parse, W.Canonical, W.EntriesFor, Coded;
    var E := W.Entries(Coded(answers));
    var stack: seq<nat> := [0];
    var body: seq<Line> := [];
    StartReads(answers, E);
    for i: nat := 1 to |E|
      invariant ReadsBack(answers, E, i, stack, body) && forall k :: 0 <= k < |stack| ==> stack[k] < i
    {
      while stack != [] && !Under(E[stack[|stack| - 1]].path, E[i].path)
        invariant ReadsBack(answers, E, i, stack, body) && forall k :: 0 <= k < |stack| ==> stack[k] < i
      {
        CloseReads(answers, E, i, stack, body);
        body := body + [Close];
        stack := R.Popped(stack);
      }
      LineReads(answers, E, i, stack, body);
      body := body + [LineOf(answers, E[i])];
      stack := R.Pushed(E, i, stack);
    }
    while stack != []
      invariant ReadsBack(answers, E, |E|, stack, body) && forall k :: 0 <= k < |stack| ==> stack[k] < |E|
    {
      CloseReads(answers, E, |E|, stack, body);
      body := body + [Close];
      stack := R.Popped(stack);
    }
    lines := [LineOf(answers, E[0])] + body;
    if Canonical(answers) { AllRead(answers, E, body); }
  }

  // ----- the skeleton

  /** One line to a mark, with the choice all of them begin with. */
  function SkeletonOf(deeds: seq<D.Deed>, choice: Choice): (r: seq<Answer>)
  {
    if deeds == [] then [] else
    var a := deeds[|deeds| - 1];
    SkeletonOf(deeds[..|deeds| - 1], choice) +
      (if a.word.Conflict? then [Answer(a.path, a.dir, Mark(Some(a.word.number), choice))] else [])
  }

  /** `zr_resolution_skeleton`. */
  method Skeleton(deeds: seq<D.Deed>, choice: Choice) returns (answers: seq<Answer>)
    ensures answers == SkeletonOf(deeds, choice)
  {
    answers := [];
    for i: nat := 0 to |deeds|
      invariant answers == SkeletonOf(deeds[..i], choice)
    {
      assert deeds[..i + 1][..i] == deeds[..i];
      if deeds[i].word.Conflict? {
        answers := answers + [Answer(deeds[i].path, deeds[i].dir, Mark(Some(deeds[i].word.number), choice))];
      }
    }
    assert deeds[..|deeds|] == deeds;
  }

  predicate MarksName(a: D.Deed, choice: Choice, r: Answer) {
    a.word.Conflict? && r == Answer(a.path, a.dir, Mark(Some(a.word.number), choice))
  }

  /** The skeleton has just the marked names. */
  lemma {:induction false} SkeletonIs(deeds: seq<D.Deed>, choice: Choice)
    ensures forall r :: r in SkeletonOf(deeds, choice) <==> exists i :: 0 <= i < |deeds| && MarksName(deeds[i], choice, r)
  {
    if deeds != [] {
      var n := |deeds| - 1;
      SkeletonIs(deeds[..n], choice);
      forall r | r in SkeletonOf(deeds[..n], choice) ensures exists i :: 0 <= i < |deeds| && MarksName(deeds[i], choice, r) {
        var i :| 0 <= i < n && MarksName(deeds[..n][i], choice, r);
        assert MarksName(deeds[i], choice, r);
      }
      forall r | exists i :: 0 <= i < |deeds| && MarksName(deeds[i], choice, r) ensures r in SkeletonOf(deeds, choice) {
        var i :| 0 <= i < |deeds| && MarksName(deeds[i], choice, r);
        if i < n { assert MarksName(deeds[..n][i], choice, r); }
      }
    }
  }

  /** A marked name stands alone in a list the format can carry. */
  lemma MarksApart(deeds: seq<D.Deed>, i: nat, j: nat)
    requires W.Canonical(deeds) && i < j < |deeds| && deeds[i].word.Conflict? && deeds[j].word.Conflict?
    ensures Before(deeds[i].path, deeds[j].path) && (Under(deeds[i].path, deeds[j].path) ==> deeds[i].dir)
  {
    hide Before, Under, W.DeedOk;
    assert W.Turn(deeds[i], deeds[j]);
    if Under(deeds[j].path, deeds[i].path) {
      assert W.HasRemoval(deeds, deeds[j].path);
      var k :| 0 <= k < |deeds| && W.Removes(deeds[k]) && deeds[k].path == deeds[j].path;
      W.SamePath(deeds, k, j);
    }
  }

  lemma {:induction false} SkeletonCanonical(deeds: seq<D.Deed>, choice: Choice, n: nat)
    requires W.Canonical(deeds) && n <= |deeds|
    ensures Canonical(SkeletonOf(deeds[..n], choice))
  {
    hide Before, Under, W.Canonical, D.ArgOk;
    if n > 0 {
      assert deeds[..n][..n - 1] == deeds[..n - 1];
      SkeletonCanonical(deeds, choice, n - 1);
      var before := SkeletonOf(deeds[..n - 1], choice);
      SkeletonIs(deeds[..n - 1], choice);
      MarkIsOk(deeds, n - 1);
      if deeds[n - 1].word.Conflict? {
        var r := Answer(deeds[n - 1].path, deeds[n - 1].dir, Mark(Some(deeds[n - 1].word.number), choice));
        forall i | 0 <= i < |before| ensures InTurn(before[i], r) {
          assert before[i] in before;
          var k :| 0 <= k < n - 1 && MarksName(deeds[..n - 1][k], choice, before[i]);
          MarksApart(deeds, k, n - 1);
        }
      }
    }
  }

  lemma MarkIsOk(deeds: seq<D.Deed>, i: nat)
    requires W.Canonical(deeds) && i < |deeds|
    ensures D.ArgOk(deeds[i].path) && (deeds[i].word.Conflict? ==> deeds[i].word.number != 0)
  {
    assert W.DeedOk(deeds[i]);
  }

  /** A manifest's skeleton, written: it reads back as one line to each mark, with its choice. */
  method WriteSkeleton(deeds: seq<D.Deed>, choice: Choice) returns (lines: seq<Line>)
    ensures W.Canonical(deeds) ==> Parse(lines) == Some(SkeletonOf(deeds, choice))
  {
    hide W.Canonical, Canonical, Parse;
    var answers := Skeleton(deeds, choice);
    lines := WriteAnswers(answers);
    if W.Canonical(deeds) {
      SkeletonCanonical(deeds, choice, |deeds|);
      assert deeds[..|deeds|] == deeds;
    }
  }
}

/** One rebase from start to end as src/run.c moves it: the run directory and its manifest, the
    record, the holds, the phase and the gate snapshot, one step at a time, with a crash allowed
    between any two.

    One world is one tag's rebase: a start begins it once, and another start is another world.  The
    manifest is in the run directory.  A call that fails stops the verb where it stands, except a
    release, which the code only warns about at done, in a teardown and over leavings.  What else the
    code only warns about is taken to succeed: clearing the record, writing the phase, destroying the
    clone in a teardown, and taking away the documents and their directory. */
module Lifecycle {

  datatype Form = CloneForm | DatasetForm

  /** The document in the run directory.  Both name the tag the holds are filed under. */
  datatype Doc = NoDoc | Birth | Decision(conflicts: bool)

  datatype Phase = NoPhase | Decided | Applying1 | Conflicts | Applying2

  /** `inputs` are the snapshots there are to hold, of base 0, from 1 and onto 2; `slipped` are those
      whose release failed with a warning; `clone` is a clone not yet handed over. */
  datatype World = World(form: Form, inputs: set<nat>, dir: bool, doc: Doc, record: bool, clone: bool,
                         phase: Phase, holds: set<nat>, slipped: set<nat>, gate: bool) {

    /** The record comes and goes with the clone that carries it. */
    function PutRecord(): World {
      this.(record := true, clone := form.CloneForm?, phase := NoPhase)
    }

    function DropRecord(): World {
      this.(record := false, clone := false, phase := NoPhase)
    }

    function Hold(i: nat): World { if i in inputs then this.(holds := holds + {i}) else this }

    function Release(i: nat): World { this.(holds := holds - {i}) }

    /** A release that warns and goes on. */
    function TryRelease(i: nat, slip: bool): World {
      if slip && i in holds then this.(slipped := slipped + {i}) else Release(i)
    }

    /** Nothing is left that a verb would have to take away. */
    ghost predicate Gone() { holds <= slipped && !record && !clone && doc.NoDoc? && !dir && phase.NoPhase? }
  }

  /** Where a verb stands: each names the step it makes next. */
  datatype Pc =
    | Idle
    // a start: zr_run
    | MakeDir | WriteBirth | WriteRecord | HoldNext(i: nat) | WriteDecision | PhaseDecided | StartApply
    // the stages, of a start, a continue or a restart
    | PhaseApplying1 | EndStage1 | AtConflicts | DropGate | TakeGate | PhaseApplying2 | EndStage2
    // done_gate
    | DoneRelease(i: nat) | DoneRecord | DoneGate | DoneDoc | DoneDir
    // teardown of a start that wrote nothing
    | TearRelease(i: nat) | TearRecord | TearDoc | TearDir
    // zr_restart
    | RestartPhase | RestartGate | RestartBack | RestartClone | RestartDecided
    // zr_abort
    | AbortReturn | AbortGate | AbortBack | AbortRelease(i: nat) | AbortRecord | AbortDoc | AbortDir
    // abort_leftover
    | LeftRelease(i: nat) | LeftDoc | LeftDir

  datatype State = State(pc: Pc, w: World, begun: bool)

  /** What a step leaves open: whether the verb stops here, whether the decision has conflicts,
      whether the answers are complete, whether a release warns, whether drift keeps the gate. */
  datatype Chance = Chance(stop: bool, conflicts: bool, complete: bool, slip: bool, drift: bool)

  datatype Verb = Start | Continue | Restart | Abort

  // ----- the verbs

  /** `make_rundir` refuses a directory that is there; the other verbs read what they find. */
  function Begin(v: Verb, s: State): Pc {
    match v
    case Start => if !s.begun then MakeDir else Idle
    case Continue => if s.w.record && s.w.doc.Decision? then Resume(s.w.phase) else Idle
    case Restart =>
      if !s.w.record || !s.w.doc.Decision? || s.w.phase.NoPhase? then Idle
      else if s.w.form.DatasetForm? then RestartPhase else RestartGate
    case Abort =>
      if s.w.record then (if s.w.phase.Applying2? && s.w.gate then AbortReturn else AbortGate)
      else if !s.w.dir then Idle
      else if s.w.doc.NoDoc? then LeftDir else LeftRelease(0)
  }

  /** `continue_from`. */
  function Resume(p: Phase): Pc {
    match p
    case NoPhase => Idle
    case Decided => PhaseApplying1
    case Applying1 => PhaseApplying1
    case Conflicts => AtConflicts
    case Applying2 => DropGate
  }

  /** The one step a verb makes, and where it stands then. */
  function Advance(s: State, c: Chance): State {
    var w := s.w;
    match s.pc
    case Idle => s
    // start
    case MakeDir => s.(pc := WriteBirth, w := w.(dir := true), begun := true)
    case WriteBirth => if c.stop then s.(pc := TearRelease(3)) else s.(pc := WriteRecord, w := w.(doc := Birth))
    case WriteRecord => if c.stop then s.(pc := TearRelease(3)) else s.(pc := HoldNext(0), w := w.PutRecord())
    case HoldNext(i) =>
      if c.stop then s.(pc := TearRelease(3))
      else if i < 3 then s.(pc := HoldNext(i + 1), w := w.Hold(i)) else s.(pc := WriteDecision)
    case WriteDecision =>
      if c.stop then s.(pc := TearRelease(3)) else s.(pc := PhaseDecided, w := w.(doc := Decision(c.conflicts)))
    case PhaseDecided =>
      if c.stop then s.(pc := TearRelease(3)) else s.(pc := StartApply, w := w.(phase := Decided))
    case StartApply => if c.stop then s.(pc := TearRelease(3)) else s.(pc := PhaseApplying1)
    // stages
    case PhaseApplying1 => s.(pc := EndStage1, w := w.(phase := Applying1))
    case EndStage1 =>
      if c.stop then s.(pc := Idle)
      else if w.doc == Decision(false) then s.(pc := DoneRelease(0))
      else s.(pc := AtConflicts, w := w.(phase := Conflicts))
    case AtConflicts => if c.complete then s.(pc := DropGate) else s.(pc := Idle)
    case DropGate => s.(pc := TakeGate, w := w.(gate := false))
    case TakeGate => s.(pc := PhaseApplying2, w := w.(gate := true))
    case PhaseApplying2 => s.(pc := EndStage2, w := w.(phase := Applying2))
    case EndStage2 => if c.stop then s.(pc := Idle) else s.(pc := DoneRelease(0))
    // done
    case DoneRelease(i) =>
      if i < 3 then s.(pc := DoneRelease(i + 1), w := w.TryRelease(i, c.slip)) else s.(pc := DoneRecord)
    case DoneRecord => s.(pc := DoneGate, w := w.DropRecord())
    case DoneGate => s.(pc := DoneDoc, w := if c.drift then w else w.(gate := false))
    case DoneDoc => s.(pc := DoneDir, w := w.(doc := NoDoc))
    case DoneDir => s.(pc := Idle, w := w.(dir := false))
    // teardown
    case TearRelease(i) =>
      if i > 0 then s.(pc := TearRelease(i - 1), w := w.TryRelease(i - 1, c.slip)) else s.(pc := TearRecord)
    case TearRecord => s.(pc := TearDoc, w := w.DropRecord())
    case TearDoc => s.(pc := TearDir, w := w.(doc := NoDoc))
    case TearDir => s.(pc := Idle, w := w.(dir := false))
    // restart
    case RestartPhase => s.(pc := RestartGate, w := w.(phase := Decided))
    case RestartGate => s.(pc := RestartBack, w := w.(gate := false))
    case RestartBack =>
      if w.form.DatasetForm? then s.(pc := PhaseApplying1) else s.(pc := RestartClone, w := w.DropRecord())
    case RestartClone => s.(pc := RestartDecided, w := w.PutRecord())
    case RestartDecided => s.(pc := PhaseApplying1, w := w.(phase := Decided))
    // abort
    case AbortReturn => s.(pc := Idle, w := w.(phase := Conflicts))
    case AbortGate => s.(pc := AbortBack, w := w.(gate := false))
    case AbortBack =>
      if w.form.DatasetForm? then s.(pc := AbortRelease(0)) else s.(pc := AbortRelease(0), w := w.DropRecord())
    case AbortRelease(i) =>
      if i < 3 then s.(pc := AbortRelease(i + 1), w := w.Release(i)) else s.(pc := AbortRecord)
    case AbortRecord => s.(pc := AbortDoc, w := w.DropRecord())
    case AbortDoc => s.(pc := AbortDir, w := w.(doc := NoDoc))
    case AbortDir => s.(pc := Idle, w := w.(dir := false))
    // leavings
    case LeftRelease(i) =>
      if i < 3 then s.(pc := LeftRelease(i + 1), w := w.TryRelease(i, c.slip)) else s.(pc := LeftDoc)
    case LeftDoc => s.(pc := LeftDir, w := w.(doc := NoDoc))
    case LeftDir => s.(pc := Idle, w := w.(dir := false))
  }

  /** A verb begins, makes its next step, or the machine goes down. */
  ghost predicate Step(s: State, s': State) {
    || (s.pc == Idle && exists v :: s' == s.(pc := Begin(v, s)))
    || (exists c :: s' == Advance(s, c))
    || s' == s.(pc := Idle)
  }

  ghost predicate Init(s: State) {
    && s.pc == Idle && !s.begun && s.w.inputs <= {0, 1, 2}
    && !s.w.dir && s.w.doc.NoDoc? && !s.w.record && !s.w.clone && s.w.phase.NoPhase?
    && s.w.holds == {} && s.w.slipped == {} && !s.w.gate
  }

  ghost predicate Run(t: seq<State>) {
    t != [] && Init(t[0]) && forall i :: 0 <= i < |t| - 1 ==> Step(t[i], t[i + 1])
  }

  // ----- what every state of every run keeps

  /** A hold is named by the record or by the manifest; a phase says the manifest is the decision; a
      clone is recorded. */
  ghost predicate Safe(w: World) {
    && (!(w.holds <= w.slipped) ==> w.record || !w.doc.NoDoc?)
    && (!w.phase.NoPhase? ==> w.record && w.doc.Decision?)
    && (w.clone <==> w.record && w.form.CloneForm?)
    && (w.record ==> !w.doc.NoDoc?) && (!w.doc.NoDoc? ==> w.dir)
    && w.holds <= w.inputs <= {0, 1, 2}
  }

  /** What a verb has made sure of where it stands. */
  ghost predicate At(pc: Pc, w: World) {
    match pc
    case Idle => true
    case MakeDir => !w.dir && !w.record && w.doc.NoDoc? && w.holds == {} && !w.gate
    case WriteBirth => w.dir && !w.record && w.doc.NoDoc? && w.holds == {} && !w.gate
    case WriteRecord => w.doc.Birth? && !w.record && w.holds == {} && !w.gate
    case HoldNext(i) => i <= 3 && w.record && w.phase.NoPhase? && !w.gate
    case WriteDecision => w.record && w.phase.NoPhase? && !w.gate
    case PhaseDecided => w.record && w.doc.Decision? && !w.gate
    case StartApply => w.record && w.doc.Decision? && !w.gate
    case PhaseApplying1 => w.record && w.doc.Decision?
    case EndStage1 => w.record && w.doc.Decision?
    case AtConflicts => w.record && w.doc.Decision?
    case DropGate => w.record && w.doc.Decision?
    case TakeGate => w.record && w.doc.Decision? && !w.gate
    case PhaseApplying2 => w.record && w.doc.Decision? && w.gate
    case EndStage2 => w.record && w.doc.Decision?
    case DoneRelease(i) => i <= 3 && w.record && forall j :: j in w.holds && j < i ==> j in w.slipped
    case DoneRecord => w.record && w.holds <= w.slipped
    case DoneGate => !w.record && w.holds <= w.slipped
    case DoneDoc => !w.record && w.holds <= w.slipped
    case DoneDir => !w.record && w.holds <= w.slipped && w.doc.NoDoc?
    case TearRelease(i) => i <= 3 && !w.gate && forall j :: j in w.holds && j >= i ==> j in w.slipped
    case TearRecord => w.holds <= w.slipped && !w.gate
    case TearDoc => !w.record && w.holds <= w.slipped
    case TearDir => !w.record && w.holds <= w.slipped && w.doc.NoDoc?
    case RestartPhase => w.record && w.doc.Decision?
    case RestartGate => w.record && w.doc.Decision?
    case RestartBack => w.record && w.doc.Decision? && !w.gate
    case RestartClone => w.form.CloneForm? && !w.record && w.doc.Decision? && !w.gate
    case RestartDecided => w.record && w.doc.Decision?
    case AbortReturn => w.record && w.doc.Decision?
    case AbortGate => w.record
    case AbortBack => w.record && !w.gate
    case AbortRelease(i) => i <= 3 && !w.doc.NoDoc? && (w.form.CloneForm? ==> !w.record) && forall j :: j in w.holds ==> j >= i
    case AbortRecord => !w.doc.NoDoc? && w.holds == {}
    case AbortDoc => !w.record && w.holds == {}
    case AbortDir => !w.record && w.holds == {} && w.doc.NoDoc?
    case LeftRelease(i) => i <= 3 && !w.record && forall j :: j in w.holds && j < i ==> j in w.slipped
    case LeftDoc => !w.record && w.holds <= w.slipped
    case LeftDir => !w.record && w.holds <= w.slipped && w.doc.NoDoc?
  }

  ghost predicate Inv(s: State) {
    && Safe(s.w) && At(s.pc, s.w)
    && (!s.begun ==> !s.w.dir && !s.w.record && s.w.doc.NoDoc? && s.w.holds == {} && !s.w.gate)
  }

  lemma InitInv(s: State)
    requires Init(s)
    ensures Inv(s)
  {
  }

  lemma BeginInv(v: Verb, s: State)
    requires Inv(s) && s.pc == Idle
    ensures Inv(s.(pc := Begin(v, s)))
  {
  }

  predicate Starting(pc: Pc) {
    pc.MakeDir? || pc.WriteBirth? || pc.WriteRecord? || pc.HoldNext? || pc.WriteDecision? || pc.PhaseDecided? || pc.StartApply?
  }

  lemma StartingInv(s: State, c: Chance)
    requires Inv(s) && Starting(s.pc)
    ensures Inv(Advance(s, c))
  {
  }

  predicate InStage(pc: Pc) {
    pc.PhaseApplying1? || pc.EndStage1? || pc.AtConflicts? || pc.DropGate? || pc.TakeGate? || pc.PhaseApplying2? || pc.EndStage2?
  }

  lemma InStageInv(s: State, c: Chance)
    requires Inv(s) && InStage(s.pc)
    ensures Inv(Advance(s, c))
  {
  }

  predicate Settling(pc: Pc) {
    pc.DoneRelease? || pc.DoneRecord? || pc.DoneGate? || pc.DoneDoc? || pc.DoneDir?
  }

  lemma SettlingInv(s: State, c: Chance)
    requires Inv(s) && Settling(s.pc)
    ensures Inv(Advance(s, c))
  {
  }

  predicate Tearing(pc: Pc) {
    pc.TearRelease? || pc.TearRecord? || pc.TearDoc? || pc.TearDir?
  }

  lemma TearingInv(s: State, c: Chance)
    requires Inv(s) && Tearing(s.pc)
    ensures Inv(Advance(s, c))
  {
  }

  predicate Restarting(pc: Pc) {
    pc.RestartPhase? || pc.RestartGate? || pc.RestartBack? || pc.RestartClone? || pc.RestartDecided?
  }

  lemma RestartingInv(s: State, c: Chance)
    requires Inv(s) && Restarting(s.pc)
    ensures Inv(Advance(s, c))
  {
  }

  predicate Undoing(pc: Pc) { pc.AbortReturn? || pc.AbortGate? || pc.AbortBack? || pc.AbortRelease? }

  lemma UndoingInv(s: State, c: Chance)
    requires Inv(s) && Undoing(s.pc)
    ensures Inv(Advance(s, c))
  {
  }

  predicate Ending(pc: Pc) { pc.AbortRecord? || pc.AbortDoc? || pc.AbortDir? }

  lemma EndingInv(s: State, c: Chance)
    requires Inv(s) && Ending(s.pc)
    ensures Inv(Advance(s, c))
  {
  }

  predicate Clearing(pc: Pc) {
    pc.LeftRelease? || pc.LeftDoc? || pc.LeftDir?
  }

  lemma ClearingInv(s: State, c: Chance)
    requires Inv(s) && Clearing(s.pc)
    ensures Inv(Advance(s, c))
  {
  }

  lemma AdvanceInv(s: State, c: Chance)
    requires Inv(s)
    ensures Inv(Advance(s, c))
  {
    hide Inv, Advance;
    if s.pc == Idle { IdleStays(s, c); }
    if Starting(s.pc) { StartingInv(s, c); }
    if InStage(s.pc) { InStageInv(s, c); }
    if Settling(s.pc) { SettlingInv(s, c); }
    if Tearing(s.pc) { TearingInv(s, c); }
    if Restarting(s.pc) { RestartingInv(s, c); }
    if Undoing(s.pc) { UndoingInv(s, c); }
    if Ending(s.pc) { EndingInv(s, c); }
    if Clearing(s.pc) { ClearingInv(s, c); }
  }

  lemma IdleStays(s: State, c: Chance)
    requires s.pc == Idle
    ensures Advance(s, c) == s
  {
  }

  lemma StepInv(s: State, s': State)
    requires Inv(s) && Step(s, s')
    ensures Inv(s')
  {
    hide Advance, Begin, Safe, At;
    if s.pc == Idle && exists v :: s' == s.(pc := Begin(v, s)) {
      var v :| s' == s.(pc := Begin(v, s));
      BeginInv(v, s);
    } else if c :| s' == Advance(s, c) {
      AdvanceInv(s, c);
    } else {
      CrashInv(s);
    }
  }

  lemma CrashInv(s: State)
    requires Inv(s)
    ensures Inv(s.(pc := Idle))
  {
  }

  /** Hold safety, over every run with a crash between any two steps. */
  lemma {:induction false} HoldsAreNamed(t: seq<State>, i: nat)
    requires Run(t) && i < |t|
    ensures Inv(t[i])
  {
    hide Inv, Step, Init;
    if i == 0 {
      InitInv(t[0]);
    } else {
      HoldsAreNamed(t, i - 1);
      StepInv(t[i - 1], t[i]);
    }
  }

  // ----- an abort takes it all away

  /** How many steps an abort still has to make. */
  function Left(pc: Pc): nat {
    match pc
    case AbortGate => 9
    case AbortBack => 8
    case AbortRelease(i) => if i < 3 then 7 - i else 4
    case AbortRecord => 3
    case AbortDoc => 2
    case AbortDir => 1
    case LeftRelease(i) => if i < 3 then 7 - i else 4
    case LeftDoc => 2
    case LeftDir => 1
    case _ => 0
  }

  predicate Aborting(pc: Pc) {
    pc.AbortGate? || pc.AbortBack? || pc.AbortRelease? || pc.AbortRecord? || pc.AbortDoc? || pc.AbortDir? ||
    pc.LeftRelease? || pc.LeftDoc? || pc.LeftDir?
  }

  /** The verb run to its end without a crash. */
  function Finish(s: State, c: Chance): (e: State)
    ensures Aborting(s.pc) ==> e.pc == Idle
    decreases Left(s.pc)
  {
    if !Aborting(s.pc) then s else Finish(Advance(s, c), c)
  }

  lemma {:induction false} FinishGone(s: State, c: Chance)
    requires Inv(s) && Aborting(s.pc)
    ensures Finish(s, c).w.Gone()
    decreases Left(s.pc)
  {
    hide Safe, At;
    var s' := Advance(s, c);
    AdvanceInv(s, c);
    if Aborting(s'.pc) {
      FinishGone(s', c);
    } else {
      LastStepGone(s, c);
    }
  }

  lemma LastStepGone(s: State, c: Chance)
    requires Inv(s) && Aborting(s.pc) && !Aborting(Advance(s, c).pc)
    ensures Advance(s, c).w.Gone()
  {
  }

  /** From any state of any run, whatever was killed in it, one completed abort of the whole rebase
      leaves no hold but one whose release failed, no record, no clone and no document. */
  lemma AbortTakesAll(t: seq<State>, i: nat, c: Chance)
    requires Run(t) && i < |t| && t[i].pc == Idle && (t[i].w.record || t[i].w.dir)
    requires !(t[i].w.record && t[i].w.phase.Applying2? && t[i].w.gate)
    ensures Aborting(Begin(Abort, t[i])) && Finish(t[i].(pc := Begin(Abort, t[i])), c).w.Gone()
  {
    hide Safe, At, Advance;
    HoldsAreNamed(t, i);
    BeginInv(Abort, t[i]);
    FinishGone(t[i].(pc := Begin(Abort, t[i])), c);
  }

  /** From applying2 the first abort goes back to the conflicts gate, and the second takes it all. */
  lemma AbortTwice(t: seq<State>, i: nat, c: Chance)
    requires Run(t) && i < |t| && t[i].pc == Idle && t[i].w.record && t[i].w.phase.Applying2? && t[i].w.gate
    ensures Begin(Abort, t[i]) == AbortReturn
    ensures var back := Advance(t[i].(pc := AbortReturn), c);
      && back.pc == Idle && back.w == t[i].w.(phase := Conflicts)
      && Aborting(Begin(Abort, back)) && Finish(back.(pc := Begin(Abort, back)), c).w.Gone()
  {
    HoldsAreNamed(t, i);
    BeginInv(Abort, t[i]);
    AdvanceInv(t[i].(pc := AbortReturn), c);
    var back := Advance(t[i].(pc := AbortReturn), c);
    BeginInv(Abort, back);
    FinishGone(back.(pc := Begin(Abort, back)), c);
  }

  /** The code destroys a clone, or rolls a dataset back, only with the gate snapshot gone. */
  lemma NothingInTheWay(t: seq<State>, i: nat)
    requires Run(t) && i < |t| && (t[i].pc.AbortBack? || t[i].pc.RestartBack? || t[i].pc.TearRecord?)
    ensures !t[i].w.gate
  {
    HoldsAreNamed(t, i);
  }

  // ----- when a release only warns

  /** A verb under way, one chance to a step. */
  function By(s: State, cs: seq<Chance>): (e: State)
    decreases |cs|
  {
    if cs == [] then s else By(Advance(s, cs[0]), cs[1..])
  }

  /** Every hold there is has a record or a document to find it by. */
  ghost predicate Named(w: World) { w.holds == {} || w.record || !w.doc.NoDoc? }

  /** The verb is over, the record, the document and the directory gone. */
  ghost predicate Over(e: State) { e.pc == Idle && !e.w.record && e.w.doc.NoDoc? && !e.w.dir }

  /** Of the holds it found the verb leaves those whose release warned, so that every hold is still
      named if and only if none did. */
  ghost predicate LeavesWarned(s: State, e: State, warned: nat -> bool) {
    && Over(e) && (forall i: nat :: i in e.w.holds <==> i in s.w.holds && warned(i))
    && (Named(e.w) <==> forall i: nat :: i in s.w.holds ==> !warned(i))
  }

  lemma AreLeft(s: State, e: State, warned: nat -> bool)
    requires Over(e) && forall i: nat :: i in e.w.holds <==> i in s.w.holds && warned(i)
    ensures LeavesWarned(s, e, warned)
  {
    if i: nat :| i in s.w.holds && warned(i) { assert i in e.w.holds; }
  }

  lemma DoneClears(s: State, cs: seq<Chance>)
    requires s.pc == DoneRelease(3) && |cs| == 5
    ensures Over(By(s, cs)) && By(s, cs).w.holds == s.w.holds
  {
    var s1, c1 := Advance(s, cs[0]), cs[1..];
    var s2, c2 := Advance(s1, c1[0]), c1[1..];
    var s3, c3 := Advance(s2, c2[0]), c2[1..];
    var s4, c4 := Advance(s3, c3[0]), c3[1..];
    var s5, c5 := Advance(s4, c4[0]), c4[1..];
    assert By(s, cs) == By(s1, c1) == By(s2, c2) == By(s3, c3) == By(s4, c4) == By(s5, c5);
  }

  lemma {:induction false} DoneReleases(s: State, cs: seq<Chance>)
    requires s.w.holds <= {0, 1, 2} && s.pc.DoneRelease? && s.pc.i <= 3 && |cs| == 8 - s.pc.i
    ensures Over(By(s, cs))
    ensures forall i: nat :: i in By(s, cs).w.holds <==> i in s.w.holds && (i < s.pc.i || (i < 3 && cs[i - s.pc.i].slip))
    decreases 3 - s.pc.i
  {
    if s.pc.i < 3 {
      assert By(s, cs) == By(Advance(s, cs[0]), cs[1..]);
      DoneReleases(Advance(s, cs[0]), cs[1..]);
    } else {
      DoneClears(s, cs);
    }
  }

  /** `done_gate`. */
  lemma DoneLeavesWarned(s: State, cs: seq<Chance>)
    requires Inv(s) && s.pc == DoneRelease(0) && |cs| == 8
    ensures LeavesWarned(s, By(s, cs), (i: nat) => i < 3 && i < |cs| && cs[i].slip)
  {
    DoneReleases(s, cs);
    AreLeft(s, By(s, cs), (i: nat) => i < 3 && i < |cs| && cs[i].slip);
  }

  lemma TearClears(s: State, cs: seq<Chance>)
    requires s.pc == TearRelease(0) && |cs| == 4
    ensures Over(By(s, cs)) && By(s, cs).w.holds == s.w.holds
  {
    var s1, c1 := Advance(s, cs[0]), cs[1..];
    var s2, c2 := Advance(s1, c1[0]), c1[1..];
    var s3, c3 := Advance(s2, c2[0]), c2[1..];
    var s4, c4 := Advance(s3, c3[0]), c3[1..];
    assert By(s, cs) == By(s1, c1) == By(s2, c2) == By(s3, c3) == By(s4, c4);
  }

  lemma {:induction false} TearReleases(s: State, cs: seq<Chance>)
    requires s.w.holds <= {0, 1, 2} && s.pc.TearRelease? && s.pc.i <= 3 && |cs| == 4 + s.pc.i
    ensures Over(By(s, cs))
    ensures forall i: nat :: i in By(s, cs).w.holds <==> i in s.w.holds && (i < s.pc.i ==> cs[s.pc.i - 1 - i].slip)
    decreases s.pc.i
  {
    if s.pc.i > 0 {
      assert By(s, cs) == By(Advance(s, cs[0]), cs[1..]);
      TearReleases(Advance(s, cs[0]), cs[1..]);
    } else {
      TearClears(s, cs);
    }
  }

  /** `teardown`, which releases the newest hold first. */
  lemma TeardownLeavesWarned(s: State, cs: seq<Chance>)
    requires Inv(s) && s.pc == TearRelease(3) && |cs| == 7
    ensures LeavesWarned(s, By(s, cs), (i: nat) => i < 3 <= |cs| && cs[2 - i].slip)
  {
    TearReleases(s, cs);
    AreLeft(s, By(s, cs), (i: nat) => i < 3 <= |cs| && cs[2 - i].slip);
  }

  lemma LeavingsClear(s: State, cs: seq<Chance>)
    requires s.pc == LeftRelease(3) && |cs| == 3 && !s.w.record
    ensures Over(By(s, cs)) && By(s, cs).w.holds == s.w.holds
  {
    var s1, c1 := Advance(s, cs[0]), cs[1..];
    var s2, c2 := Advance(s1, c1[0]), c1[1..];
    var s3, c3 := Advance(s2, c2[0]), c2[1..];
    assert By(s, cs) == By(s1, c1) == By(s2, c2) == By(s3, c3);
  }

  lemma {:induction false} LeftReleases(s: State, cs: seq<Chance>)
    requires s.w.holds <= {0, 1, 2} && !s.w.record && s.pc.LeftRelease? && s.pc.i <= 3 && |cs| == 6 - s.pc.i
    ensures Over(By(s, cs))
    ensures forall i: nat :: i in By(s, cs).w.holds <==> i in s.w.holds && (i < s.pc.i || (i < 3 && cs[i - s.pc.i].slip))
    decreases 3 - s.pc.i
  {
    if s.pc.i < 3 {
      assert By(s, cs) == By(Advance(s, cs[0]), cs[1..]);
      LeftReleases(Advance(s, cs[0]), cs[1..]);
    } else {
      LeavingsClear(s, cs);
    }
  }

  /** `abort_leftover`. */
  lemma LeavingsLeaveWarned(s: State, cs: seq<Chance>)
    requires Inv(s) && s.pc == LeftRelease(0) && |cs| == 6
    ensures LeavesWarned(s, By(s, cs), (i: nat) => i < 3 && i < |cs| && cs[i].slip)
  {
    LeftReleases(s, cs);
    AreLeft(s, By(s, cs), (i: nat) => i < 3 && i < |cs| && cs[i].slip);
  }

  // ----- and that each of the three happens

  lemma Extend(t: seq<State>, s: State)
    requires Run(t) && Step(t[|t| - 1], s)
    ensures Run(t + [s])
  {
    hide Step, Init;
  }

  lemma Once(t: seq<State>, c: Chance) returns (r: seq<State>)
    requires Run(t)
    ensures Run(r) && r[|r| - 1] == Advance(t[|t| - 1], c)
  {
    hide Init;
    Extend(t, Advance(t[|t| - 1], c));
    r := t + [Advance(t[|t| - 1], c)];
  }

  const GO := Chance(false, false, false, false, false)
  const STOP := Chance(true, false, false, false, false)

  /** A start of a clone over three inputs, before it has made anything. */
  const FRESH := World(CloneForm, {0, 1, 2}, false, NoDoc, false, false, NoPhase, {}, {}, false)

  lemma FirstSteps() returns (t: seq<State>)
    ensures Run(t) && t[|t| - 1] == State(HoldNext(0), FRESH.(dir := true, doc := Birth, record := true, clone := true), true)
  {
    t := [State(Idle, FRESH, false)];
    assert Begin(Start, t[0]) == MakeDir;
    Extend(t, State(MakeDir, FRESH, false));
    t := Once(t + [State(MakeDir, FRESH, false)], GO);
    t := Once(t, GO);
    t := Once(t, GO);
  }

  const HELD := FRESH.(dir := true, doc := Birth, record := true, clone := true, holds := {0, 1, 2})

  lemma HoldsTaken() returns (t: seq<State>)
    ensures Run(t) && t[|t| - 1] == State(HoldNext(3), HELD, true)
  {
    t := FirstSteps();
    t := Once(t, GO);
    t := Once(t, GO);
    t := Once(t, GO);
  }

  /** A start stopped once its holds are taken tears itself down. */
  lemma TeardownHappens() returns (t: seq<State>)
    ensures Run(t) && t[|t| - 1].pc == TearRelease(3) && t[|t| - 1].w.holds == {0, 1, 2}
  {
    t := HoldsTaken();
    t := Once(t, STOP);
  }

  lemma Applied() returns (t: seq<State>)
    ensures Run(t) && t[|t| - 1] == State(EndStage1, HELD.(doc := Decision(false), phase := Applying1), true)
  {
    t := HoldsTaken();
    t := Once(t, GO);
    t := Once(t, GO);
    t := Once(t, GO);
    t := Once(t, GO);
    t := Once(t, GO);
  }

  /** A rebase without a conflict reaches its end with its holds. */
  lemma DoneHappens() returns (t: seq<State>)
    ensures Run(t) && t[|t| - 1].pc == DoneRelease(0) && t[|t| - 1].w.holds == {0, 1, 2}
  {
    t := Applied();
    t := Once(t, GO);
  }

  /** A restart killed between the clone it destroyed and the one it makes leaves the holds to the
      manifest, and the next abort to the leavings. */
  lemma LeavingsHappen() returns (t: seq<State>)
    ensures Run(t) && t[|t| - 1].pc == LeftRelease(0) && t[|t| - 1].w.holds == {0, 1, 2}
  {
    t := Applied();
    t := Killed(t);
    var s := t[|t| - 1];
    assert Begin(Restart, s) == RestartGate;
    Extend(t, s.(pc := RestartGate));
    t := Once(t + [s.(pc := RestartGate)], GO);
    t := Once(t, GO);
    t := Killed(t);
    s := t[|t| - 1];
    assert Begin(Abort, s) == LeftRelease(0);
    Extend(t, s.(pc := LeftRelease(0)));
    t := t + [s.(pc := LeftRelease(0))];
  }

  lemma Killed(t: seq<State>) returns (r: seq<State>)
    requires Run(t)
    ensures Run(r) && r[|r| - 1] == t[|t| - 1].(pc := Idle)
  {
    Extend(t, t[|t| - 1].(pc := Idle));
    r := t + [t[|t| - 1].(pc := Idle)];
  }
}

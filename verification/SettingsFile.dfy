/** Saving the settings file step by step: any number of saves, any system call failing,
    processes dying and the power going out in between. */
module SettingsFile {

  import opened Wrappers

  /** A file: its text, and whether all of it has reached the disk. */
  datatype File = File(text: string, synced: bool)

  datatype Pc = Opening | Writing(done: nat) | Syncing | Replacing | Unlinking | Ended(saved: bool)

  /** A save: the process that runs it, the encoded document, the number of the file its
      stream is open on, and how far it has come. */
  datatype Saver = Saver(process: nat, goal: string, file: nat, pc: Pc)

  /** Files by number, the names for them, and the saves. The temporary name is one for each
      process. */
  datatype Disk = Disk(files: seq<File>, settings: Option<nat>, temporary: map<nat, nat>, savers: seq<Saver>)

  /** A system call of one save, which may fail, and writes at most `chunk` characters; the
      death of a process; a power loss, which leaves anything of what was not synced. */
  datatype Step = Go(saver: nat, ok: bool, chunk: nat) | Dies(process: nat) | PowerLoss(left: seq<string>)

  // ---------------------------------------------------------------- the steps

  function Put(files: seq<File>, n: nat, f: File): seq<File> { if n < |files| then files[n := f] else files }

  function Text(files: seq<File>, n: nat): string { if n < |files| then files[n].text else "" }

  /** Writing at a position: what was there before is overwritten, a gap is filled. */
  function Overwrite(text: string, at: nat, piece: string): string {
    (if at <= |text| then text[..at] else text + seq(at - |text|, _ => '\0')) + piece
    + (if at + |piece| < |text| then text[at + |piece|..] else "")
  }

  function Moved(d: Disk, i: nat, pc: Pc): Disk
    requires i < |d.savers|
  {
    d.(savers := d.savers[i := d.savers[i].(pc := pc)])
  }

  /** `open("wb")`: the file of the temporary name emptied, or a new one. */
  function Open(d: Disk, i: nat): Disk
    requires i < |d.savers|
  {
    var s := d.savers[i];
    var n := if s.process in d.temporary then d.temporary[s.process] else |d.files|;
    Disk(if s.process in d.temporary then Put(d.files, n, File("", false)) else d.files + [File("", false)], d.settings,
         d.temporary[s.process := n], d.savers[i := s.(file := n, pc := Writing(0))])
  }

  function Write(d: Disk, i: nat, chunk: nat): Disk
    requires i < |d.savers| && d.savers[i].pc.Writing? && d.savers[i].pc.done <= |d.savers[i].goal|
  {
    var s := d.savers[i];
    var done := s.pc.done;
    var next := if done + chunk <= |s.goal| then done + chunk else |s.goal|;
    Moved(d, i, Writing(next)).(files := Put(d.files, s.file, File(Overwrite(Text(d.files, s.file), done, s.goal[done..next]), false)))
  }

  function Sync(d: Disk, i: nat): Disk
    requires i < |d.savers|
  {
    Moved(d, i, Replacing).(files := Put(d.files, d.savers[i].file, File(Text(d.files, d.savers[i].file), true)))
  }

  /** `os.replace`: the settings name now means what the temporary name meant. */
  function Replace(d: Disk, i: nat): Disk
    requires i < |d.savers| && d.savers[i].process in d.temporary
  {
    var p := d.savers[i].process;
    Moved(d, i, Ended(true)).(settings := Some(d.temporary[p]), temporary := d.temporary - {p})
  }

  function Advance(d: Disk, i: nat, ok: bool, chunk: nat): Disk
    requires i < |d.savers|
  {
    var s := d.savers[i];
    match s.pc
    case Opening => if ok then Open(d, i) else Moved(d, i, Unlinking)
    case Writing(done) =>
      if !ok then Moved(d, i, Unlinking) else if done < |s.goal| then Write(d, i, chunk) else Moved(d, i, Syncing)
    case Syncing => if ok then Sync(d, i) else Moved(d, i, Unlinking)
    case Replacing => if ok && s.process in d.temporary then Replace(d, i) else Moved(d, i, Unlinking)
    case Unlinking => Moved(d, i, Ended(false)).(temporary := if ok then d.temporary - {s.process} else d.temporary)
    case Ended(_) => d
  }

  function Stop(s: Saver): Saver { if s.pc.Ended? then s else s.(pc := Ended(false)) }

  function Stopped(savers: seq<Saver>, all: bool, process: nat): seq<Saver> {
    seq(|savers|, i requires 0 <= i < |savers| => if all || savers[i].process == process then Stop(savers[i]) else savers[i])
  }

  function Left(files: seq<File>, left: seq<string>): seq<File> {
    seq(|files|, n requires 0 <= n < |files| =>
      if files[n].synced then files[n] else File(if n < |left| then left[n] else "", true))
  }

  function Apply(d: Disk, step: Step): Disk {
    match step
    case Go(i, ok, chunk) => if i < |d.savers| then Advance(d, i, ok, chunk) else d
    case Dies(process) => d.(savers := Stopped(d.savers, false, process))
    case PowerLoss(left) => d.(files := Left(d.files, left), savers := Stopped(d.savers, true, 0))
  }

  function Run(d: Disk, steps: seq<Step>): Disk {
    if steps == [] then d else Apply(Run(d, steps[..|steps| - 1]), steps[|steps| - 1])
  }

  /** Every name leads to a file of its own, the settings name to one that is on the disk. */
  ghost predicate Names(d: Disk) {
    && (d.settings.Some? ==> d.settings.value < |d.files| && d.files[d.settings.value].synced)
    && (forall p :: p in d.temporary ==> d.temporary[p] < |d.files| && d.settings != Some(d.temporary[p]))
    && (forall p, q :: p in d.temporary && q in d.temporary && p != q ==> d.temporary[p] != d.temporary[q])
  }

  /** What the calls and mishaps do besides what the settings name sees: a file is not on the disk
      until it is synced, a write gets out at most what it is given, a failed call leads to the
      removal of the temporary name, which may fail too; a dying process ends its own unfinished
      saves and nothing else; a power loss ends all of them and spares only what was synced. */
  lemma MishapsExactly(d: Disk, i: nat, ok: bool, chunk: nat, process: nat, left: seq<string>)
    requires Names(d) && i < |d.savers| && d.savers[i].file < |d.files|
    ensures var pc := d.savers[i].pc;
            var d' := Apply(d, Go(i, ok, chunk));
            && |d'.savers| == |d.savers|
            && (pc.Opening? && ok ==> d'.savers[i].file < |d'.files| && d'.files[d'.savers[i].file] == File("", false))
            && (pc.Writing? && ok && pc.done < |d.savers[i].goal| ==>
                  && d'.savers[i].pc.Writing? && !d'.files[d.savers[i].file].synced
                  && d'.savers[i].pc.done == (if pc.done + chunk < |d.savers[i].goal| then pc.done + chunk else |d.savers[i].goal|))
            && ((pc.Opening? || pc.Writing? || pc.Syncing? || pc.Replacing?) && !ok ==>
                  d'.savers[i].pc.Unlinking? && d'.files == d.files && d'.temporary == d.temporary && d'.settings == d.settings)
            && (pc.Unlinking? ==>
                  && d'.savers[i].pc == Ended(false) && d'.files == d.files && d'.settings == d.settings
                  && (d.savers[i].process in d'.temporary <==> d.savers[i].process in d.temporary && !ok))
    ensures var d' := Apply(d, Dies(process));
            && d'.files == d.files && d'.settings == d.settings && d'.temporary == d.temporary && |d'.savers| == |d.savers|
            && forall j :: 0 <= j < |d.savers| ==>
                 d'.savers[j] == if d.savers[j].process == process && !d.savers[j].pc.Ended?
                                 then d.savers[j].(pc := Ended(false)) else d.savers[j]
    ensures var d' := Apply(d, PowerLoss(left));
            && d'.settings == d.settings && d'.temporary == d.temporary
            && |d'.savers| == |d.savers| && |d'.files| == |d.files|
            && (forall j :: 0 <= j < |d.savers| ==> d'.savers[j].pc.Ended?)
            && (forall n :: 0 <= n < |d.files| ==>
                  d'.files[n].synced && (d.files[n].synced ==> d'.files[n] == d.files[n])
                  && (!d.files[n].synced && n < |left| ==> d'.files[n].text == left[n]))
  {
  }

  // ---------------------------------------------------------------- what is promised

  /** The text that the settings name leads to. */
  function Contents(d: Disk): Option<string> {
    if d.settings.None? then None else Some(Text(d.files, d.settings.value))
  }

  /** Saves about to begin over a settings file that is on the disk, or over none; temporary
      files of dead processes may lie about. */
  ghost predicate Fresh(d: Disk) {
    Names(d) && forall i :: 0 <= i < |d.savers| ==> d.savers[i].pc == Opening
  }

  /** The old settings, or the text of one of the saves, in full. */
  ghost predicate Whole(d: Disk, start: Disk) {
    Contents(d) == Contents(start) || exists i :: 0 <= i < |start.savers| && Contents(d) == Some(start.savers[i].goal)
  }

  /** No process runs two of the saves. */
  predicate Apart(savers: seq<Saver>) {
    forall i, j :: 0 <= i < j < |savers| ==> savers[i].process != savers[j].process
  }

  // ---------------------------------------------------------------- one save in each process

  /** What the file holds that a save is writing. */
  ghost predicate Holds(d: Disk, s: Saver) {
    s.pc.Writing? || s.pc.Syncing? || s.pc.Replacing? ==>
      && s.process in d.temporary && d.temporary[s.process] == s.file && s.file < |d.files|
      && match s.pc
         case Writing(done) => done <= |s.goal| && d.files[s.file].text == s.goal[..done]
         case Syncing => d.files[s.file].text == s.goal
         case _ => d.files[s.file] == File(s.goal, true)
  }

  ghost predicate Alike(savers: seq<Saver>, start: seq<Saver>) {
    |savers| == |start| && forall i :: 0 <= i < |savers| ==> savers[i].goal == start[i].goal && savers[i].process == start[i].process
  }

  ghost predicate Inv(d: Disk, start: Disk) {
    Names(d) && Alike(d.savers, start.savers) && (forall i :: 0 <= i < |d.savers| ==> Holds(d, d.savers[i])) && Whole(d, start)
  }

  /** One save moves: its own temporary name and the file of that name are all it touches. */
  ghost predicate OnlyOwn(d: Disk, d': Disk, i: nat)
    requires i < |d.savers|
  {
    var p := d.savers[i].process;
    && |d'.savers| == |d.savers| && d'.savers[i].goal == d.savers[i].goal && d'.savers[i].process == p
    && (forall j :: 0 <= j < |d.savers| && j != i ==> d'.savers[j] == d.savers[j])
    && (forall q :: q != p ==> (q in d'.temporary <==> q in d.temporary) && (q in d.temporary ==> d'.temporary[q] == d.temporary[q]))
    && |d.files| <= |d'.files|
    && forall n :: 0 <= n < |d.files| && !(p in d.temporary && d.temporary[p] == n) ==> d'.files[n] == d.files[n]
  }

  lemma OwnHolds(d: Disk, d': Disk, i: nat, j: nat)
    requires Names(d) && i < |d.savers| && OnlyOwn(d, d', i) && j < |d.savers| && j != i
    requires d.savers[i].process != d.savers[j].process && Holds(d, d.savers[j])
    ensures Holds(d', d'.savers[j])
  {
  }

  lemma WriteHolds(d: Disk, i: nat, chunk: nat)
    requires Names(d) && i < |d.savers| && Holds(d, d.savers[i]) && d.savers[i].pc.Writing? && d.savers[i].pc.done < |d.savers[i].goal|
    ensures var d' := Write(d, i, chunk); OnlyOwn(d, d', i) && Names(d') && Holds(d', d'.savers[i]) && Contents(d') == Contents(d)
  {
    var s := d.savers[i];
    var done := s.pc.done;
    var next := if done + chunk <= |s.goal| then done + chunk else |s.goal|;
    assert s.goal[..done] + s.goal[done..next] == s.goal[..next];
  }

  lemma OpenHolds(d: Disk, i: nat)
    requires Names(d) && i < |d.savers|
    ensures var d' := Open(d, i); OnlyOwn(d, d', i) && Names(d') && Holds(d', d'.savers[i]) && Contents(d') == Contents(d)
  {
  }

  lemma SyncHolds(d: Disk, i: nat)
    requires Names(d) && i < |d.savers| && Holds(d, d.savers[i]) && d.savers[i].pc.Syncing?
    ensures var d' := Sync(d, i); OnlyOwn(d, d', i) && Names(d') && Holds(d', d'.savers[i]) && Contents(d') == Contents(d)
  {
  }

  lemma ReplaceHolds(d: Disk, i: nat)
    requires Names(d) && i < |d.savers| && Holds(d, d.savers[i]) && d.savers[i].pc.Replacing?
    ensures var d' := Replace(d, i); OnlyOwn(d, d', i) && Names(d') && Holds(d', d'.savers[i]) && Contents(d') == Some(d.savers[i].goal)
  {
  }

  lemma AdvanceHolds(d: Disk, i: nat, ok: bool, chunk: nat)
    requires Names(d) && i < |d.savers| && Holds(d, d.savers[i])
    ensures var d' := Advance(d, i, ok, chunk);
            && OnlyOwn(d, d', i) && Names(d') && Holds(d', d'.savers[i])
            && Contents(d') == if d.savers[i].pc.Replacing? && ok then Some(d.savers[i].goal) else Contents(d)
  {
    hide Write;
    hide Open;
    hide Sync;
    hide Replace;
    var s := d.savers[i];
    match s.pc
    case Opening => OpenHolds(d, i);
    case Writing(done) =>
      if ok && done < |s.goal| { WriteHolds(d, i, chunk); }
      assert s.goal[..|s.goal|] == s.goal;
    case Syncing => if ok { SyncHolds(d, i); }
    case Replacing => if ok { ReplaceHolds(d, i); }
    case _ =>
  }

  lemma GoInv(d: Disk, i: nat, ok: bool, chunk: nat, start: Disk)
    requires Inv(d, start) && Apart(start.savers) && i < |d.savers|
    ensures Inv(Advance(d, i, ok, chunk), start)
  {
    AdvanceHolds(d, i, ok, chunk);
    var d' := Advance(d, i, ok, chunk);
    hide Advance;
    forall j | 0 <= j < |d.savers| && j != i
      ensures Holds(d', d'.savers[j])
    {
      OwnHolds(d, d', i, j);
    }
    hide Holds;
    hide Names;
    hide Contents;
    if d.savers[i].pc.Replacing? && ok { assert Contents(d') == Some(start.savers[i].goal); }
  }

  lemma StepInv(d: Disk, step: Step, start: Disk)
    requires Inv(d, start) && Apart(start.savers)
    ensures Inv(Apply(d, step), start)
  {
    match step
    case Go(i, ok, chunk) => if i < |d.savers| { GoInv(d, i, ok, chunk, start); }
    case Dies(process) => assert forall i :: 0 <= i < |d.savers| ==> Holds(d, d.savers[i]);
    case PowerLoss(left) =>
  }

  lemma {:induction false} RunInv(start: Disk, steps: seq<Step>)
    requires Fresh(start) && Apart(start.savers)
    ensures Inv(Run(start, steps), start)
  {
    hide Apply;
    if steps != [] {
      hide Inv;
      RunInv(start, steps[..|steps| - 1]);
      StepInv(Run(start, steps[..|steps| - 1]), steps[|steps| - 1], start);
    }
  }

  lemma OneStep(d: Disk, step: Step, start: Disk)
    requires Inv(d, start) && |start.savers| == 1
    ensures var d' := Apply(d, step);
            |d'.savers| == 1
            && (d.savers[0].pc == Ended(true) ==> d'.savers[0].pc == Ended(true) && Contents(d') == Contents(d))
            && (d.savers[0].pc != Ended(true) ==>
                  Contents(d') == if d'.savers[0].pc == Ended(true) then Some(start.savers[0].goal) else Contents(d))
  {
    match step
    case Go(i, ok, chunk) => if i == 0 { AdvanceHolds(d, 0, ok, chunk); }
    case Dies(process) =>
    case PowerLoss(left) =>
  }

  /** One save alone: whatever fails, dies or loses power, the settings are the new ones when
      the save has ended well and the old ones until then. */
  lemma {:induction false} OneSave(start: Disk, steps: seq<Step>)
    requires Fresh(start) && |start.savers| == 1
    ensures var d := Run(start, steps);
            |d.savers| == 1
            && Contents(d) == if d.savers[0].pc == Ended(true) then Some(start.savers[0].goal) else Contents(start)
  {
    hide Apply;
    if steps != [] {
      var init, step := steps[..|steps| - 1], steps[|steps| - 1];
      OneSave(start, init);
      RunInv(start, init);
      OneStep(Run(start, init), step, start);
    }
  }

  // ---------------------------------------------------------------- two saves in one process

  lemma RunMore(d: Disk, steps: seq<Step>, step: Step)
    ensures Run(d, steps + [step]) == Apply(Run(d, steps), step)
  {
    var all := steps + [step];
    assert all[..|all| - 1] == steps && all[|all| - 1] == step;
  }

  /** A save writes its temporary file in full. */
  lemma Written(start: Disk, i: nat) returns (steps: seq<Step>)
    requires Fresh(start) && i < |start.savers| && start.savers[i].goal != ""
    ensures var d := Run(start, steps);
            && |d.savers| == |start.savers| && d.savers == start.savers[i := d.savers[i]] && d.savers[i].pc.Replacing?
            && d.savers[i].process == start.savers[i].process && d.savers[i].process in d.temporary
            && d.temporary[d.savers[i].process] < |d.files|
  {
    var go := Go(i, true, |start.savers[i].goal|);
    RunMore(start, [], go);
    RunMore(start, [go], go);
    RunMore(start, [go] + [go], go);
    RunMore(start, [go] + [go] + [go], go);
    steps := [go] + [go] + [go] + [go];
    var d1 := Open(start, i);
    var d2 := Write(d1, i, |start.savers[i].goal|);
    var d3 := Moved(d2, i, Syncing);
    var d4 := Sync(d3, i);
    assert Run(start, []) == start;
    assert Run(start, [go]) == d1;
    assert Run(start, [go] + [go]) == d2;
    assert Run(start, [go] + [go] + [go]) == d3;
    assert Run(start, steps) == d4;
    assert d4.savers == start.savers[i := d4.savers[i]];
  }

  /** The second save empties the file of the first just before it takes the settings name. */
  lemma Emptied(start: Disk, i: nat, j: nat) returns (steps: seq<Step>)
    requires Fresh(start) && i < j < |start.savers| && start.savers[i].process == start.savers[j].process
    requires start.savers[i].goal != ""
    ensures Contents(Run(start, steps)) == Some("")
  {
    var full := Written(start, i);
    var d := Run(start, full);
    var second, first := Go(j, true, 0), Go(i, true, 0);
    RunMore(start, full, second);
    RunMore(start, full + [second], first);
    steps := full + [second] + [first];
    var e := Open(d, j);
    assert d.savers[j] == start.savers[j];
    assert Run(start, full + [second]) == e;
    assert e.savers[i] == d.savers[i];
    assert Run(start, steps) == Replace(e, i);
  }

  /** The settings are always the old ones or those of one save, in full, whatever fails, dies
      or loses power and in whatever order: if and only if no process runs two of the saves,
      because the temporary name is one for each process. */
  lemma WholeExactly(start: Disk)
    requires Fresh(start) && Contents(start) != Some("") && forall i :: 0 <= i < |start.savers| ==> start.savers[i].goal != ""
    ensures (forall steps :: Whole(Run(start, steps), start)) <==> Apart(start.savers)
  {
    if Apart(start.savers) {
      forall steps
        ensures Whole(Run(start, steps), start)
      {
        RunInv(start, steps);
      }
    } else {
      var i, j :| 0 <= i < j < |start.savers| && start.savers[i].process == start.savers[j].process;
      var steps := Emptied(start, i, j);
      assert !Whole(Run(start, steps), start);
    }
  }
}

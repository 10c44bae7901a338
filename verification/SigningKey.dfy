/** The permit-signing key under racing processes: each call runs in atomic steps, any of
    which may be the last, and every file-system call may be refused. */
module SigningKey {

  import opened Wrappers

  type Bytes = seq<int>

  const MIN_LENGTH: nat := 32

  /** How far a call of `_load_or_create_signing_key` has come. */
  datatype Pc =
    | Begin                               // before the key file is looked for
    | Looked(existing: bool)              // before the identity check
    | Opening                             // before the exclusive open
    | Writing(token: Bytes, done: nat)    // holding the descriptor, `done` bytes written
    | Hardening                           // written, before the first hardening
    | Reading(created: bool)              // before the read
    | Repairing                           // read refused, before the permission repair
    | Rereading                           // repaired, before the second read
    | Checking(key: Bytes, created: bool) // read, before the length check
    | Reasserting(key: Bytes)             // before an existing key is hardened again
    | Parent(key: Bytes)                  // before the parent directory is hardened
    | Returned(key: Bytes)
    | Raised

  /** A call: whether the path is the canonical one, and whether the executing identity is
      the installation's. */
  datatype Call = Call(canonical: bool, rightful: bool, pc: Pc)

  datatype Effect = MadeParent | Created | Wrote(bytes: Bytes) | Hardened | HardenedParent

  datatype Touch = Touch(call: nat, effect: Effect)

  /** The key file, the calls, and everything ever done to the file system. */
  datatype World = World(file: Option<Bytes>, calls: seq<Call>, log: seq<Touch>)

  /** One step of one call: whether the system call it makes succeeds, whether the file is
      seen as a repairable target (for the parent directory: whether a failure is a mere denial
      of permission), the random token, and how many bytes a write gets out. `dies` ends the
      call here. */
  datatype Step = Step(call: nat, dies: bool, ok: bool, repairable: bool, token: Bytes, chunk: nat)

  predicate Legal(s: Step) { |s.token| == MIN_LENGTH }

  /** Where the step leaves the call and the file, and what it did. */
  datatype Outcome = Outcome(pc: Pc, file: Option<Bytes>, effect: Option<Effect>)

  function Advance(call: Call, file: Option<Bytes>, s: Step): Outcome {
    if s.dies then Outcome(if call.pc.Returned? then call.pc else Raised, file, None)
    else
      match call.pc
      case Begin => Outcome(Looked(file.Some? || !s.ok), file, None)
      case Looked(existing) =>
        if call.canonical && !call.rightful then Outcome(Raised, file, None)
        else if existing then Outcome(Reading(false), file, None)
        else if !s.ok then Outcome(Raised, file, None)
        else Outcome(Opening, file, Some(MadeParent))
      case Opening =>
        if file.Some? then Outcome(Reading(false), file, None)
        else if !s.ok then Outcome(Raised, file, None)
        else Outcome(Writing(s.token, 0), Some([]), Some(Created))
      case Writing(token, done) =>
        if !s.ok || file.None? then Outcome(Raised, file, None)
        else if done >= |token| then Outcome(Hardening, file, None)
        else
          var next := if done + s.chunk <= |token| then done + s.chunk else |token|;
          Outcome(Writing(token, next), Some(file.value + token[done..next]), Some(Wrote(token[done..next])))
      case Hardening => if s.ok then Outcome(Reading(true), file, Some(Hardened)) else Outcome(Raised, file, None)
      case Reading(created) =>
        if file.None? then Outcome(Raised, file, None)
        else if s.ok then Outcome(Checking(file.value, created), file, None)
        else if created || !call.canonical || !s.repairable then Outcome(Raised, file, None)
        else Outcome(Repairing, file, None)
      case Repairing => if s.ok then Outcome(Rereading, file, Some(Hardened)) else Outcome(Raised, file, None)
      case Rereading =>
        if file.Some? && s.ok then Outcome(Checking(file.value, false), file, None) else Outcome(Raised, file, None)
      case Checking(key, created) =>
        if |key| < MIN_LENGTH then Outcome(Raised, file, None)
        else if created then Outcome(Parent(key), file, None)
        else if call.canonical && !s.repairable then Outcome(Raised, file, None)
        else Outcome(Reasserting(key), file, None)
      case Reasserting(key) => if s.ok then Outcome(Parent(key), file, Some(Hardened)) else Outcome(Raised, file, None)
      case Parent(key) =>
        if s.ok then Outcome(Returned(key), file, Some(HardenedParent))
        else if s.repairable then Outcome(Returned(key), file, None) else Outcome(Raised, file, None)
      case Returned(_) => Outcome(call.pc, file, None)
      case Raised => Outcome(call.pc, file, None)
  }

  function Apply(w: World, s: Step): World {
    if s.call >= |w.calls| then w
    else
      var o := Advance(w.calls[s.call], w.file, s);
      World(o.file, w.calls[s.call := w.calls[s.call].(pc := o.pc)],
            w.log + if o.effect.Some? then [Touch(s.call, o.effect.value)] else [])
  }

  function Run(w: World, steps: seq<Step>): World {
    if steps == [] then w else Apply(Run(w, steps[..|steps| - 1]), steps[|steps| - 1])
  }

  /** Any number of calls about to begin, with or without a key file. */
  predicate Fresh(w: World) {
    w.log == [] && forall c :: 0 <= c < |w.calls| ==> w.calls[c].pc == Begin
  }

  // ---------------------------------------------------------------- what every step keeps

  /** All bytes ever written, in order. */
  function Written(log: seq<Touch>): Bytes {
    if log == [] then []
    else Written(log[..|log| - 1]) + match log[|log| - 1].effect case Wrote(b) => b case _ => []
  }

  function Creations(log: seq<Touch>): nat {
    if log == [] then 0 else Creations(log[..|log| - 1]) + if log[|log| - 1].effect.Created? then 1 else 0
  }

  /** Only the creator creates and writes. */
  predicate OnlyBy(log: seq<Touch>, creator: nat) {
    forall i :: 0 <= i < |log| && (log[i].effect.Created? || log[i].effect.Wrote?) ==> log[i].call == creator
  }

  predicate Untouched(log: seq<Touch>) {
    forall i :: 0 <= i < |log| ==> !log[i].effect.Created? && !log[i].effect.Wrote?
  }

  /** What a call may hold, given the file: keys read are prefixes of it, and one that passed
      the length check is all of it. */
  predicate Holds(pc: Pc, file: Option<Bytes>) {
    match pc
    case Checking(key, _) => file.Some? && key <= file.value
    case Reasserting(key) => file == Some(key) && |key| >= MIN_LENGTH
    case Parent(key) => file == Some(key) && |key| >= MIN_LENGTH
    case Returned(key) => file == Some(key) && |key| >= MIN_LENGTH
    case _ => true
  }

  predicate Creating(pc: Pc) {
    pc.Writing? || pc.Hardening? || (pc.Reading? && pc.created) || (pc.Checking? && pc.created)
  }

  /** A key file that was there before: nobody creates or writes. */
  predicate KeptPc(pc: Pc, key: Bytes) {
    !Creating(pc) && Holds(pc, Some(key)) && (pc.Checking? ==> pc.key == key)
  }

  predicate KeptInv(w: World, key: Bytes) {
    w.file == Some(key) && Untouched(w.log) && forall c :: 0 <= c < |w.calls| ==> KeptPc(w.calls[c].pc, key)
  }

  /** No key file yet: nobody has got past the exclusive open. */
  predicate AbsentPc(pc: Pc) { !Creating(pc) && Holds(pc, None) }

  predicate AbsentInv(w: World) {
    w.file == None && Untouched(w.log) && forall c :: 0 <= c < |w.calls| ==> AbsentPc(w.calls[c].pc)
  }

  /** A file made here: one creator, its token, and the part of it written so far. */
  predicate MadePc(pc: Pc, file: Bytes, token: Bytes, creates: bool) {
    Holds(pc, Some(file)) && (Creating(pc) ==> creates)
    && (pc.Writing? ==> pc.token == token && pc.done == |file|)
  }

  predicate MadeInv(w: World, creator: nat, token: Bytes) {
    |token| == MIN_LENGTH && w.file.Some? && w.file.value <= token
    && Creations(w.log) == 1 && OnlyBy(w.log, creator) && Written(w.log) == w.file.value
    && forall c :: 0 <= c < |w.calls| ==> MadePc(w.calls[c].pc, w.file.value, token, c == creator)
  }

  ghost predicate Inv(w: World, start: Option<Bytes>) {
    if start.Some? then KeptInv(w, start.value)
    else AbsentInv(w) || exists creator, token :: MadeInv(w, creator, token)
  }

  lemma LogOnly(log: seq<Touch>, t: Touch)
    ensures Untouched(log + [t]) <==> Untouched(log) && !t.effect.Created? && !t.effect.Wrote?
    ensures forall c :: OnlyBy(log + [t], c) <==> OnlyBy(log, c) && (t.effect.Created? || t.effect.Wrote? ==> t.call == c)
    ensures Creations(log + [t]) == Creations(log) + if t.effect.Created? then 1 else 0
    ensures Written(log + [t]) == Written(log) + match t.effect case Wrote(b) => b case _ => []
  {
    var l := log + [t];
    assert l[..|log|] == log && l[|log|] == t;
    assert forall i :: 0 <= i < |log| ==> l[i] == log[i];
  }

  lemma {:induction false} NothingWritten(log: seq<Touch>)
    requires Untouched(log)
    ensures Written(log) == [] && Creations(log) == 0 && forall c :: OnlyBy(log, c)
  {
    if log != [] { NothingWritten(log[..|log| - 1]); }
  }

  lemma KeptStep(w: World, key: Bytes, s: Step)
    requires KeptInv(w, key)
    ensures KeptInv(Apply(w, s), key)
  {
    if s.call < |w.calls| {
      var o := Advance(w.calls[s.call], w.file, s);
      assert KeptPc(w.calls[s.call].pc, key);
      assert o.file == w.file && KeptPc(o.pc, key);
      assert o.effect.Some? ==> !o.effect.value.Created? && !o.effect.value.Wrote?;
      if o.effect.Some? { LogOnly(w.log, Touch(s.call, o.effect.value)); }
      hide Advance;
      hide KeptPc;
      hide Untouched;
      assert w.log + [] == w.log;
    }
  }

  lemma AbsentStep(w: World, s: Step)
    requires AbsentInv(w) && Legal(s)
    ensures AbsentInv(Apply(w, s)) || MadeInv(Apply(w, s), s.call, s.token)
  {
    if s.call < |w.calls| {
      var o := Advance(w.calls[s.call], w.file, s);
      assert AbsentPc(w.calls[s.call].pc);
      assert o.file.None? ==> AbsentPc(o.pc) && (o.effect.Some? ==> !o.effect.value.Created? && !o.effect.value.Wrote?);
      assert o.file.Some? ==> o.file == Some([]) && o.effect == Some(Created) && o.pc == Writing(s.token, 0);
      NothingWritten(w.log);
      if o.effect.Some? { LogOnly(w.log, Touch(s.call, o.effect.value)); }
      hide Advance;
      hide Untouched;
      hide OnlyBy;
      hide Written;
      hide Creations;
      assert w.log + [] == w.log;
    }
  }

  /** A call whose read is long enough has read the whole token. */
  lemma WholeToken(key: Bytes, file: Bytes, token: Bytes)
    requires key <= file <= token && |key| >= |token|
    ensures key == file == token
  {
    assert |key| == |file| == |token|;
    assert key == file[..|key|] && file == token[..|file|];
  }

  /** What the other calls have read stays a prefix while the file grows towards its token. */
  lemma StillHolds(pc: Pc, file: Bytes, grown: Bytes, token: Bytes)
    requires MadePc(pc, file, token, false) && file <= grown <= token && |token| == MIN_LENGTH
    ensures MadePc(pc, grown, token, false)
  {
    if pc.Checking? {
      assert pc.key == file[..|pc.key|] == grown[..|pc.key|];
    }
    if pc.Reasserting? || pc.Parent? || pc.Returned? { WholeToken(file, grown, token); }
  }

  lemma MadeAdvance(call: Call, file: Bytes, token: Bytes, creates: bool, s: Step)
    requires MadePc(call.pc, file, token, creates) && file <= token && |token| == MIN_LENGTH
    ensures var o := Advance(call, Some(file), s);
            o.file.Some? && file <= o.file.value <= token && MadePc(o.pc, o.file.value, token, creates)
            && o.effect != Some(Created) && (o.effect.Some? && o.effect.value.Wrote? ==> creates)
            && o.file.value == file + (if o.effect.Some? && o.effect.value.Wrote? then o.effect.value.bytes else [])
            && (!creates ==> o.file.value == file)
  {
    var o := Advance(call, Some(file), s);
    var pc := call.pc;
    if pc.Checking? && |pc.key| >= MIN_LENGTH { WholeToken(pc.key, file, token); }
    assert file + [] == file;
    if pc.Writing? && !s.dies && s.ok && pc.done < |token| {
      assert file == token[..pc.done];
      var next := o.pc.done;
      assert file + token[pc.done..next] == token[..next];
    }
  }

  lemma MadeStep(w: World, creator: nat, token: Bytes, s: Step)
    requires MadeInv(w, creator, token) && Legal(s)
    ensures MadeInv(Apply(w, s), creator, token)
  {
    if s.call < |w.calls| {
      var file, w' := w.file.value, Apply(w, s);
      var o := Advance(w.calls[s.call], w.file, s);
      MadeAdvance(w.calls[s.call], file, token, s.call == creator, s);
      if o.effect.Some? { LogOnly(w.log, Touch(s.call, o.effect.value)); }
      hide Advance;
      hide OnlyBy;
      hide Written;
      hide Creations;
      hide Holds;
      assert w.log + [] == w.log && file + [] == file;
      forall c | 0 <= c < |w.calls|
        ensures MadePc(w'.calls[c].pc, w'.file.value, token, c == creator)
      {
        assert MadePc(w.calls[c].pc, file, token, c == creator);
        if c != creator && c != s.call { StillHolds(w.calls[c].pc, file, w'.file.value, token); }
      }
    }
  }

  lemma {:induction false} RunInv(w: World, steps: seq<Step>)
    requires Fresh(w) && forall i :: 0 <= i < |steps| ==> Legal(steps[i])
    ensures Inv(Run(w, steps), w.file)
  {
    if steps == [] {
      assert if w.file.Some? then KeptInv(w, w.file.value) else AbsentInv(w);
    } else {
      var init, s := steps[..|steps| - 1], steps[|steps| - 1];
      RunInv(w, init);
      var v := Run(w, init);
      if w.file.Some? {
        KeptStep(v, w.file.value, s);
      } else if AbsentInv(v) {
        AbsentStep(v, s);
      } else {
        var creator, token :| MadeInv(v, creator, token);
        MadeStep(v, creator, token, s);
      }
    }
  }

  // ---------------------------------------------------------------- the promises

  /** Every call that returns gives the bytes of the file, at least 32 of them, so all calls
      agree; a key that was there before is never rewritten. */
  lemma OneKey(w: World, steps: seq<Step>)
    requires Fresh(w) && forall i :: 0 <= i < |steps| ==> Legal(steps[i])
    ensures var v := Run(w, steps);
            (forall c :: 0 <= c < |v.calls| && v.calls[c].pc.Returned? ==>
               v.file == Some(v.calls[c].pc.key) && |v.calls[c].pc.key| >= MIN_LENGTH)
            && (w.file.Some? ==> v.file == w.file && Written(v.log) == [])
  {
    RunInv(w, steps);
    var v := Run(w, steps);
    if w.file.Some? { NothingWritten(v.log); }
    forall c | 0 <= c < |v.calls| && v.calls[c].pc.Returned?
      ensures v.file == Some(v.calls[c].pc.key) && |v.calls[c].pc.key| >= MIN_LENGTH
    {
      assert Holds(v.calls[c].pc, v.file);
    }
  }

  /** The file is created at most once, and every byte of it was written once, by the call
      that created it. */
  lemma WrittenOnce(w: World, steps: seq<Step>)
    requires Fresh(w) && w.file.None? && forall i :: 0 <= i < |steps| ==> Legal(steps[i])
    ensures var v := Run(w, steps);
            Creations(v.log) <= 1 && (Creations(v.log) == 1 <==> v.file.Some?)
            && (v.file.Some? ==> Written(v.log) == v.file.value && |v.file.value| <= MIN_LENGTH)
            && exists creator :: OnlyBy(v.log, creator)
  {
    RunInv(w, steps);
    var v := Run(w, steps);
    if AbsentInv(v) {
      NothingWritten(v.log);
      assert OnlyBy(v.log, 0);
    } else {
      var creator, token :| MadeInv(v, creator, token);
      assert OnlyBy(v.log, creator);
    }
  }

  predicate NoTouchBy(log: seq<Touch>, c: nat) { forall i :: 0 <= i < |log| ==> log[i].call != c }

  /** A call on the canonical path under the wrong identity changes nothing and never returns. */
  lemma {:induction false} WrongIdentityChangesNothing(w: World, steps: seq<Step>, c: nat)
    requires Fresh(w) && c < |w.calls| && w.calls[c].canonical && !w.calls[c].rightful
    ensures var v := Run(w, steps);
            |v.calls| == |w.calls| && v.calls[c].canonical && !v.calls[c].rightful && NoTouchBy(v.log, c)
            && (v.calls[c].pc.Begin? || v.calls[c].pc.Looked? || v.calls[c].pc.Raised?)
  {
    if steps != [] {
      WrongIdentityChangesNothing(w, steps[..|steps| - 1], c);
    }
  }

  /** A creator that dies in the middle of its write leaves a file every later call refuses. */
  lemma ShortFileIsFinal(w: World, steps: seq<Step>)
    requires Fresh(w) && w.file.Some? && |w.file.value| < MIN_LENGTH
    requires forall i :: 0 <= i < |steps| ==> Legal(steps[i])
    ensures Run(w, steps).file == w.file
    ensures forall c :: 0 <= c < |Run(w, steps).calls| ==> !Run(w, steps).calls[c].pc.Returned?
  {
    OneKey(w, steps);
  }

  // ---------------------------------------------------------------- hardening and failures

  predicate Did(log: seq<Touch>, c: nat, e: Effect) { exists i :: 0 <= i < |log| && log[i] == Touch(c, e) }

  /** What a call has done to the permissions by the time it gets somewhere. */
  predicate Protected(log: seq<Touch>, c: nat, pc: Pc) {
    && (pc.Parent? || pc.Returned? || (pc.Reading? && pc.created) || (pc.Checking? && pc.created) || pc.Rereading? ==>
          Did(log, c, Hardened))
    && (pc.Opening? || pc.Writing? || pc.Hardening? ==> Did(log, c, MadeParent))
  }

  lemma DidMore(log: seq<Touch>, more: seq<Touch>, c: nat, e: Effect)
    ensures Did(log, c, e) ==> Did(log + more, c, e)
    ensures more == [Touch(c, e)] ==> Did(log + more, c, e)
  {
    var all := log + more;
    if i :| 0 <= i < |log| && log[i] == Touch(c, e) { assert all[i] == Touch(c, e); }
    if more == [Touch(c, e)] { assert all[|log|] == Touch(c, e); }
  }

  lemma ProtectedStep(w: World, s: Step)
    requires forall c :: 0 <= c < |w.calls| ==> Protected(w.log, c, w.calls[c].pc)
    ensures var v := Apply(w, s); |v.calls| == |w.calls| && forall c :: 0 <= c < |v.calls| ==> Protected(v.log, c, v.calls[c].pc)
  {
    hide Did;
    var v := Apply(w, s);
    if s.call < |w.calls| {
      var o := Advance(w.calls[s.call], w.file, s);
      var more := if o.effect.Some? then [Touch(s.call, o.effect.value)] else [];
      assert v.log == w.log + more;
      forall c | 0 <= c < |w.calls|
        ensures Protected(v.log, c, v.calls[c].pc)
      {
        assert Protected(w.log, c, w.calls[c].pc);
        DidMore(w.log, more, c, Hardened);
        DidMore(w.log, more, c, MadeParent);
      }
    }
  }

  /** Over every run, a call returns a key only after it has hardened the key file itself, and a
      call that made the file hardened it before it read it back. */
  lemma {:induction false} HardenedFirst(w: World, steps: seq<Step>)
    requires Fresh(w)
    ensures var v := Run(w, steps);
            |v.calls| == |w.calls| && forall c :: 0 <= c < |v.calls| ==> Protected(v.log, c, v.calls[c].pc)
    ensures var v := Run(w, steps);
            forall c :: 0 <= c < |v.calls| ==>
              && (v.calls[c].pc.Returned? ==> Did(v.log, c, Hardened))
              && (v.calls[c].pc.Reading? && v.calls[c].pc.created ==> Did(v.log, c, Hardened))
  {
    hide Did;
    if steps != [] {
      HardenedFirst(w, steps[..|steps| - 1]);
      ProtectedStep(Run(w, steps[..|steps| - 1]), steps[|steps| - 1]);
      hide Apply;
    }
  }

  /** Which failures end a call: making the directory, opening, writing, hardening, repairing and
      reading again all do, with the file and everybody else's traces as they were. A file that
      cannot be looked for counts as there; a refused first read of an existing canonical key
      that may be repaired is followed by a repair, any other ends the call; a parent directory
      whose permissions may not be changed is passed over. Death ends a call unless it has
      returned. */
  lemma FailuresExactly(w: World, s: Step)
    requires s.call < |w.calls| && (s.dies || !s.ok)
    ensures var v := Apply(w, s);
            var call := w.calls[s.call];
            var pc := v.calls[s.call].pc;
            && |v.calls| == |w.calls| && v.file == w.file
            && (s.dies ==> v.log == w.log && if call.pc.Returned? then pc == call.pc else pc.Raised?)
            && (!s.dies ==>
                  match call.pc
                  case Begin => pc == Looked(true)
                  case Looked(existing) =>
                    if call.canonical && !call.rightful then pc.Raised?
                    else if existing then pc == Reading(false) else pc.Raised?
                  case Opening => if w.file.Some? then pc == Reading(false) else pc.Raised?
                  case Reading(created) =>
                    if w.file.Some? && !created && call.canonical && s.repairable then pc.Repairing? else pc.Raised?
                  case Parent(key) => if s.repairable then pc == Returned(key) && v.log == w.log else pc.Raised?
                  case Returned(_) => pc == call.pc
                  case Checking(_, _) => true
                  case _ => pc.Raised? && v.log == w.log)
  {
  }

  /** What follows a repair: the file hardened, read once more, and then treated like any
      existing key; an existing canonical key that may not be repaired is refused even when it
      could be read, and any other is hardened again before it is returned. */
  lemma RepairThenRecheck(w: World, s: Step)
    requires s.call < |w.calls| && !s.dies && s.ok && w.file.Some?
    ensures var v := Apply(w, s);
            var call := w.calls[s.call];
            var pc := v.calls[s.call].pc;
            && |v.calls| == |w.calls| && v.file.Some?
            && (call.pc.Repairing? ==> pc.Rereading? && v.log == w.log + [Touch(s.call, Hardened)])
            && (call.pc.Rereading? ==> pc == Checking(w.file.value, false) && v.log == w.log)
            && (call.pc.Reading? ==> pc == Checking(w.file.value, call.pc.created) && v.log == w.log)
            && (call.pc.Checking? ==>
                  v.log == w.log &&
                  if |call.pc.key| < 32 || (!call.pc.created && call.canonical && !s.repairable) then pc.Raised?
                  else if call.pc.created then pc == Parent(call.pc.key) else pc == Reasserting(call.pc.key))
            && (call.pc.Reasserting? ==> pc == Parent(call.pc.key) && v.log == w.log + [Touch(s.call, Hardened)])
            && (call.pc.Parent? ==> pc == Returned(call.pc.key) && v.log == w.log + [Touch(s.call, HardenedParent)])
  {
  }

  // ---------------------------------------------------------------- a call alone

  /** A step of the only call there is, whose system calls succeed and get somewhere. */
  predicate Undisturbed(s: Step) { s.call == 0 && !s.dies && s.ok && s.repairable && s.chunk > 0 && Legal(s) }

  /** How many undisturbed steps are left at most. */
  function Left(pc: Pc): nat {
    match pc
    case Begin => 41
    case Looked(existing) => 40
    case Opening => 39
    case Writing(token, done) => 6 + (if done <= MIN_LENGTH then MIN_LENGTH - done else 0)
    case Hardening => 5
    case Reading(_) => 4
    case Repairing => 6
    case Rereading => 5
    case Checking(_, _) => 3
    case Reasserting(_) => 2
    case Parent(_) => 1
    case Returned(_) => 0
    case Raised => 0
  }

  /** Where an undisturbed call can be, given the key file there was before it. */
  predicate OnItsWay(pc: Pc, file: Option<Bytes>, there: Option<Bytes>) {
    match pc
    case Begin => file == there
    case Looked(existing) => file == there && existing == there.Some?
    case Opening => file == there == None
    case Writing(token, done) => there.None? && |token| == MIN_LENGTH && done <= |token| && file == Some(token[..done])
    case Hardening => there.None? && file.Some? && |file.value| == MIN_LENGTH
    case Reading(created) => file.Some? && |file.value| >= MIN_LENGTH && created == there.None? && (there.Some? ==> file == there)
    case Checking(key, created) =>
      file == Some(key) && |key| >= MIN_LENGTH && created == there.None? && (there.Some? ==> file == there)
    case Reasserting(key) => file == Some(key) == there && |key| >= MIN_LENGTH
    case Parent(key) => file == Some(key) && |key| >= MIN_LENGTH && (there.Some? ==> file == there)
    case Returned(key) => file == Some(key) && |key| >= MIN_LENGTH && (there.Some? ==> file == there)
    case _ => false
  }

  lemma LoneAdvance(call: Call, file: Option<Bytes>, there: Option<Bytes>, s: Step)
    requires Undisturbed(s) && (call.canonical ==> call.rightful)
    requires there.Some? ==> |there.value| >= MIN_LENGTH
    requires OnItsWay(call.pc, file, there)
    ensures var o := Advance(call, file, s);
            OnItsWay(o.pc, o.file, there) && (Left(o.pc) < Left(call.pc) || call.pc.Returned?)
            && (call.pc.Returned? ==> o.pc == call.pc)
  {
    if call.pc.Writing? {
      var token, done := call.pc.token, call.pc.done;
      if done < |token| {
        var next := if done + s.chunk <= |token| then done + s.chunk else |token|;
        assert token[..done] + token[done..next] == token[..next];
      } else {
        assert token[..done] == token;
      }
    } else if call.pc.Opening? {
      assert s.token[..0] == [];
    }
  }

  lemma {:induction false} LoneRun(w: World, steps: seq<Step>)
    requires Fresh(w) && |w.calls| == 1 && (w.calls[0].canonical ==> w.calls[0].rightful)
    requires w.file.Some? ==> |w.file.value| >= MIN_LENGTH
    requires forall i :: 0 <= i < |steps| ==> Undisturbed(steps[i])
    ensures var v := Run(w, steps);
            |v.calls| == 1 && v.calls[0] == w.calls[0].(pc := v.calls[0].pc)
            && OnItsWay(v.calls[0].pc, v.file, w.file)
            && (v.calls[0].pc.Returned? || Left(v.calls[0].pc) + |steps| <= 41)
  {
    hide OnItsWay;
    hide Left;
    hide Advance;
    if steps == [] {
      LoneStart(w);
    } else {
      var init, s := steps[..|steps| - 1], steps[|steps| - 1];
      LoneRun(w, init);
      var u := Run(w, init);
      assert Undisturbed(s);
      LoneAdvance(u.calls[0], u.file, w.file, s);
    }
  }

  lemma LoneStart(w: World)
    requires Fresh(w) && |w.calls| == 1
    ensures OnItsWay(w.calls[0].pc, w.file, w.file) && Left(w.calls[0].pc) == 41
  {
  }

  /** From its beginning, in every schedule that is long enough and whose system calls
      succeed, a call on the rightful identity's behalf returns a key: the one that is there,
      or a new one. */
  lemma LoneCallReturns(w: World, steps: seq<Step>)
    requires Fresh(w) && |w.calls| == 1 && (w.calls[0].canonical ==> w.calls[0].rightful)
    requires w.file.Some? ==> |w.file.value| >= MIN_LENGTH
    requires |steps| > 41 && forall i :: 0 <= i < |steps| ==> Undisturbed(steps[i])
    ensures var v := Run(w, steps);
            |v.calls| == 1 && v.calls[0].pc.Returned? && v.file == Some(v.calls[0].pc.key)
            && |v.calls[0].pc.key| >= MIN_LENGTH && (w.file.Some? ==> v.file == w.file)
  {
    LoneRun(w, steps);
    hide Run;
  }
}

/** Where thirdparty/forkfd/forkfd.c falls short: over whole runs, when exactly a thread goes on
    with a null array, and when exactly an entry is left taken with nobody to free it. */
module ForkfdFailures {
  import opened Wrappers
  import opened ForkfdTable

  // ----- the null array ------------------------------------------------------------------

  /** The weak compare-and-swap on `nextArray` fails while the pointer is still null. */
  predicate FailsOnNull(w: World, step: Step) {
    && step.action.Go? && step.action.luck.spurious && step.actor < |w.actors|
    && w.actors[step.actor].AllocInstall? && w.actors[step.actor].s + 1 >= |w.sections|
  }

  ghost predicate SomebodyCrashed(w: World) {
    exists a :: 0 <= a < |w.actors| && w.actors[a] == Crashed
  }

  lemma CrashStep(w: World, step: Step, v: World, a: nat)
    requires StepTaken(w, step, v) && a < |w.actors|
    ensures |v.actors| == |w.actors|
    ensures v.actors[a] == Crashed <==> w.actors[a] == Crashed || (a == step.actor && FailsOnNull(w, step))
  {
    if step.action.Go? && step.actor < |w.actors| && Allocate(w, step.actor, step.action.luck).None? {
      OthersDoNotCrash(w, step.actor, step.action.luck, a);
    }
    hide PidFree, Dead, Entry, Populate, Handle, Release;
  }

  lemma OthersDoNotCrash(w: World, b: nat, luck: Luck, a: nat)
    requires a < |w.actors| && b < |w.actors|
    ensures forall o | o in {Populate(w, b, luck), Handle(w, b, luck), Release(w, b)} && o.Some? ::
      |o.value.actors| == |w.actors| && (o.value.actors[a] == Crashed <==> w.actors[a] == Crashed) && !w.actors[b].AllocInstall?
  {
    hide PidFree, Dead, Entry;
  }

  /** A thread has gone on with a null array if and only if that compare-and-swap has failed so. */
  lemma {:induction false} CrashIff(worlds: seq<World>, steps: seq<Step>)
    requires Run(worlds, steps) && AtRest(worlds[0])
    ensures SomebodyCrashed(worlds[|steps|]) <==> exists i :: 0 <= i < |steps| && FailsOnNull(worlds[i], steps[i])
  {
    if steps != [] {
      var n := |steps| - 1;
      var w, v := worlds[n], worlds[n + 1];
      CrashIff(worlds[..n + 1], steps[..n]);
      assert StepTaken(w, steps[n], v);
      forall a | 0 <= a < |w.actors|
        ensures |v.actors| == |w.actors|
        ensures v.actors[a] == Crashed <==> w.actors[a] == Crashed || (a == steps[n].actor && FailsOnNull(w, steps[n]))
      {
        CrashStep(w, steps[n], v, a);
      }
      assert FailsOnNull(w, steps[n]) ==> SomebodyCrashed(v);
      assert forall i :: 0 <= i < n ==> worlds[..n + 1][i] == worlds[i] && steps[..n][i] == steps[i];
    }
  }

  function Empty(): seq<ProcessInfo> {
    seq(CHILDREN_IN_SMALL_ARRAY, _ => ProcessInfo(0, 0))
  }

  /** One thread forks, and every compare-and-swap fails for no reason. */
  function CrashStage(i: nat): World {
    var pc :=
      if i == 0 then Idle else if i == 1 then AllocAdd(0) else if i <= 18 then AllocScan(0, i - 2)
      else if i == 19 then AllocUndo(0) else if i == 20 then AllocNext(0) else if i == 21 then AllocInstall(0) else Crashed;
    World([Section(if 2 <= i <= 19 then 1 else 0, Empty())], [], [pc], [])
  }

  function CrashAction(i: nat): Step {
    Step(0, if i == 0 then Fork else Go(Luck(true, true, 1, 0)))
  }

  lemma CrashGoes(i: nat)
    requires i < 22
    ensures StepTaken(CrashStage(i), CrashAction(i), CrashStage(i + 1))
  {
    var w, v := CrashStage(i), CrashStage(i + 1);
    assert [w.sections[0]][0 := v.sections[0]] == v.sections && [w.actors[0]][0 := v.actors[0]] == v.actors;
  }

  /** So it happens. */
  lemma CrashHappens() returns (worlds: seq<World>, steps: seq<Step>)
    ensures Run(worlds, steps) && AtRest(worlds[0]) && SomebodyCrashed(worlds[|steps|])
  {
    worlds := seq(23, (i: nat) => CrashStage(i));
    steps := seq(22, (i: nat) => CrashAction(i));
    forall i | 0 <= i < 22
      ensures StepTaken(worlds[i], steps[i], worlds[i + 1])
    {
      CrashGoes(i);
    }
    assert worlds[22].actors[0] == Crashed;
  }

  // ----- the entry nobody frees ----------------------------------------------------------

  /** Taken, and no thread has it. */
  ghost predicate Abandoned(w: World, s: nat, i: nat) {
    && HasEntry(w, s, i) && Entry(w, s, i).pid == -1
    && forall a :: 0 <= a < |w.actors| ==> !Owns(w.actors[a], s, i)
  }

  /** `tryReaping` is called for entry `(s, i)`, whose child is still running. */
  predicate ReapsRunning(w: World, step: Step, s: nat, i: nat) {
    && step.action.Go? && step.actor < |w.actors| && w.actors[step.actor].Reaping?
    && w.actors[step.actor].s == s && w.actors[step.actor].i == i && HasEntry(w, s, i)
    && var d := Entry(w, s, i).deathPipe - 1; 0 <= d < |w.children| && w.children[d].life == Running
  }

  /** `tryReaping` fails exactly when it meets the running child. */
  lemma ReapFails(w: World, a: nat, s: nat, i: nat, p: int, then_: Then)
    requires Inv(w) && a < |w.actors| && w.actors[a] == Reaping(s, i, p, then_)
    ensures HasEntry(w, s, i) && Waits(w.children, Entry(w, s, i).deathPipe - 1, s, i)
    ensures w.children[Entry(w, s, i).deathPipe - 1].pid == p
    ensures Dead(w.children, p) == None <==> w.children[Entry(w, s, i).deathPipe - 1].life == Running
  {
    assert Linked(w, w.actors[a]);
    var d := Entry(w, s, i).deathPipe - 1;
    if Dead(w.children, p).Some? {
      OwnChild(w, a, s, i, p, then_);
    }
  }

  /** What a step may do to an entry and to who has it: the owner may change the entry or let go
      of it, and an entry nobody has may be taken unless it is at -1. */
  ghost predicate Handled(w: World, v: World, a: nat, s: nat, i: nat) {
    && |v.actors| == |w.actors|
    && (forall b :: 0 <= b < |w.actors| && b != a ==> v.actors[b] == w.actors[b])
    && (HasEntry(w, s, i) ==> HasEntry(v, s, i))
    && (HasEntry(v, s, i) && !HasEntry(w, s, i) ==> Entry(v, s, i).pid == 0)
    && (HasEntry(w, s, i) && Entry(v, s, i).pid != Entry(w, s, i).pid ==>
          a < |w.actors| && (Owns(w.actors[a], s, i) || (Entry(w, s, i).pid != -1 && Owns(v.actors[a], s, i))))
    && (a < |w.actors| && Owns(v.actors[a], s, i) && !Owns(w.actors[a], s, i) ==> HasEntry(w, s, i) && Entry(w, s, i).pid != -1)
  }

  /** The thread gives the entry up, and the entry stays taken. */
  ghost predicate LetsGo(w: World, v: World, a: nat, s: nat, i: nat) {
    && a < |w.actors| && a < |v.actors| && Owns(w.actors[a], s, i) && !Owns(v.actors[a], s, i)
    && HasEntry(v, s, i) && Entry(v, s, i).pid == -1
  }

  lemma AllocateHandles(w: World, a: nat, luck: Luck, s: nat, i: nat)
    requires Inv(w) && a < |w.actors| && Allocate(w, a, luck).Some?
    ensures Handled(w, Allocate(w, a, luck).value, a, s, i)
    ensures !Owns(w.actors[a], s, i)
  {
    hide Inv;
  }

  lemma PopulateHandles(w: World, a: nat, luck: Luck, s: nat, i: nat)
    requires Inv(w) && a < |w.actors| && Populate(w, a, luck).Some?
    ensures Handled(w, Populate(w, a, luck).value, a, s, i) && !LetsGo(w, Populate(w, a, luck).value, a, s, i)
  {
    hide PidFree, Balanced, Noticed, EntriesOk, Owned;
    assert Linked(w, w.actors[a]);
  }

  lemma HandleHandles(w: World, a: nat, luck: Luck, s: nat, i: nat)
    requires Inv(w) && a < |w.actors| && Handle(w, a, luck).Some?
    ensures Handled(w, Handle(w, a, luck).value, a, s, i)
    ensures !Owns(w.actors[a], s, i)
  {
    hide Dead, Balanced, Noticed, EntriesOk, Owned, PidsUnique, Sized;
    assert Linked(w, w.actors[a]);
  }

  lemma ReleaseHandles(w: World, a: nat, luck: Luck, s: nat, i: nat)
    requires Inv(w) && a < |w.actors| && Release(w, a).Some?
    ensures Handled(w, Release(w, a).value, a, s, i)
    ensures LetsGo(w, Release(w, a).value, a, s, i) <==> ReapsRunning(w, Step(a, Go(luck)), s, i)
  {
    hide Dead, Balanced, Noticed, EntriesOk, PidsUnique, Sized;
    assert Linked(w, w.actors[a]);
    assert Owns(w.actors[a], s, i) ==> HasEntry(w, s, i) && Entry(w, s, i).pid == -1;
    if w.actors[a].Reaping? {
      ReapFails(w, a, w.actors[a].s, w.actors[a].i, w.actors[a].p, w.actors[a].then_);
    }
  }

  lemma StepHandles(w: World, step: Step, v: World, s: nat, i: nat)
    requires Inv(w) && StepTaken(w, step, v)
    ensures Handled(w, v, step.actor, s, i)
    ensures LetsGo(w, v, step.actor, s, i) <==> ReapsRunning(w, step, s, i)
  {
    hide Inv, Allocate, Populate, Handle, Release, PidFree;
    var a := step.actor;
    if step.action.Go? {
      var luck := step.action.luck;
      if Allocate(w, a, luck).Some? {
        AllocateHandles(w, a, luck, s, i);
        NotReaping(w, a, luck);
      } else if Populate(w, a, luck).Some? {
        PopulateHandles(w, a, luck, s, i);
        NotReaping(w, a, luck);
      } else if Handle(w, a, luck).Some? {
        HandleHandles(w, a, luck, s, i);
        NotReaping(w, a, luck);
      } else {
        ReleaseHandles(w, a, luck, s, i);
      }
    }
  }

  lemma NotReaping(w: World, a: nat, luck: Luck)
    requires a < |w.actors| && (Allocate(w, a, luck).Some? || Populate(w, a, luck).Some? || Handle(w, a, luck).Some?)
    ensures !w.actors[a].Reaping?
  {
  }

  lemma AbandonedStep(w: World, step: Step, v: World, s: nat, i: nat)
    requires Inv(w) && StepTaken(w, step, v)
    ensures Abandoned(v, s, i) <==> Abandoned(w, s, i) || ReapsRunning(w, step, s, i)
  {
    hide Next, Balanced, Noticed, EntriesOk, PidsUnique, Sized;
    StepHandles(w, step, v, s, i);
  }

  /** After any run an entry is taken with nobody to free it if and only if `tryReaping` has been
      called for it while its child was running. */
  lemma {:induction false} AbandonedIff(worlds: seq<World>, steps: seq<Step>, s: nat, i: nat)
    requires Run(worlds, steps) && AtRest(worlds[0])
    ensures Abandoned(worlds[|steps|], s, i) <==> exists k :: 0 <= k < |steps| && ReapsRunning(worlds[k], steps[k], s, i)
  {
    hide Inv, Next, ReapsRunning;
    if steps != [] {
      var n := |steps| - 1;
      AbandonedIff(worlds[..n + 1], steps[..n], s, i);
      RunKeeps(worlds[..n + 1], steps[..n]);
      assert StepTaken(worlds[n], steps[n], worlds[n + 1]);
      AbandonedStep(worlds[n], steps[n], worlds[n + 1], s, i);
      assert forall k :: 0 <= k < n ==> worlds[..n + 1][k] == worlds[k] && steps[..n][k] == steps[k];
    } else {
      assert HasEntry(worlds[0], s, i) ==> Entry(worlds[0], s, i).pid == 0;
    }
  }

  // ----- how that comes about ------------------------------------------------------------

  /** A child with that pid has exited. */
  ghost predicate Exited(children: seq<Child>, p: int) {
    exists c :: 0 <= c < |children| && children[c].pid == p && children[c].life != Running
  }

  /** The pid of the dead child a thread has found. */
  function Found(pc: Pc): Option<int> {
    match pc
    case Search(p, _, _) => Some(p)
    case TakeReady(_, _, p) => Some(p)
    case Reaping(_, _, p, _) => Some(p)
    case _ => None
  }

  ghost predicate AllExited(w: World) {
    forall a :: 0 <= a < |w.actors| && Found(w.actors[a]).Some? ==> Exited(w.children, Found(w.actors[a]).value)
  }

  /** Children come last, keep their pids and homes, and do not come back to life. */
  ghost predicate Aged(children: seq<Child>, after: seq<Child>) {
    && |children| <= |after|
    && forall c :: 0 <= c < |children| ==>
      after[c].pid == children[c].pid && after[c].home == children[c].home && (children[c].life != Running ==> after[c].life != Running)
  }

  lemma ChildrenAge(w: World, step: Step, v: World)
    requires StepTaken(w, step, v)
    ensures Aged(w.children, v.children)
  {
    hide PidFree, HasEntry;
  }

  lemma StillExited(children: seq<Child>, after: seq<Child>, p: int)
    requires Aged(children, after) && Exited(children, p)
    ensures Exited(after, p)
  {
    var c :| 0 <= c < |children| && children[c].pid == p && children[c].life != Running;
    assert after[c].pid == p;
  }

  lemma FoundExited(w: World, step: Step, v: World)
    requires StepTaken(w, step, v) && AllExited(w)
    ensures AllExited(v)
  {
    ChildrenAge(w, step, v);
    forall a | 0 <= a < |v.actors| && Found(v.actors[a]).Some?
      ensures Exited(v.children, Found(v.actors[a]).value)
    {
      FoundWhere(w, step, v, a);
      StillExited(w.children, v.children, Found(v.actors[a]).value);
    }
  }

  lemma FoundWhere(w: World, step: Step, v: World, a: nat)
    requires StepTaken(w, step, v) && AllExited(w) && a < |v.actors| && Found(v.actors[a]).Some?
    ensures Exited(w.children, Found(v.actors[a]).value)
  {
    if step.action.Go? && step.actor < |w.actors| {
      if Handle(w, step.actor, step.action.luck).Some? {
        FoundInHandler(w, step.actor, step.action.luck, a);
      }
      NothingFound(w, step.actor, step.action.luck, a);
    }
    hide Allocate, Populate, Handle, Release, PidFree, Exited;
  }

  /** Nothing but the handler finds dead children. */
  lemma NothingFound(w: World, b: nat, luck: Luck, a: nat)
    requires a < |w.actors| && b < |w.actors|
    ensures forall o | o in {Allocate(w, b, luck), Populate(w, b, luck), Release(w, b)} && o.Some? ::
      |o.value.actors| == |w.actors| && (Found(o.value.actors[a]) == Found(w.actors[a]) || Found(o.value.actors[a]).None?)
  {
    hide PidFree, Dead, Entry;
  }

  lemma FoundInHandler(w: World, b: nat, luck: Luck, a: nat)
    requires a < |w.actors| && b < |w.actors| && AllExited(w) && Handle(w, b, luck).Some?
    ensures var v := Handle(w, b, luck).value;
      |v.actors| == |w.actors| && (Found(v.actors[a]).Some? ==> Exited(w.children, Found(v.actors[a]).value))
  {
    match w.actors[b] {
      case WaitAny =>
        assert luck.pick < |w.children| && w.children[luck.pick].life == Zombie ==> Exited(w.children, w.children[luck.pick].pid);
      case CheckReady(_, _, p) => assert Dead(w.children, p).Some? ==> w.children[Dead(w.children, p).value].life == Zombie;
      case _ =>
    }
  }

  lemma {:induction false} RunExited(worlds: seq<World>, steps: seq<Step>)
    requires Run(worlds, steps) && AtRest(worlds[0])
    ensures AllExited(worlds[|steps|])
  {
    hide Next;
    if steps != [] {
      var n := |steps| - 1;
      RunExited(worlds[..n + 1], steps[..n]);
      assert StepTaken(worlds[n], steps[n], worlds[n + 1]);
      FoundExited(worlds[n], steps[n], worlds[n + 1]);
    }
  }

  lemma {:induction false} RunAges(worlds: seq<World>, steps: seq<Step>, k: nat)
    requires Run(worlds, steps) && k <= |steps|
    ensures Aged(worlds[k].children, worlds[|steps|].children)
    decreases |steps|
  {
    hide Next;
    if k < |steps| {
      var n := |steps| - 1;
      RunAges(worlds[..n + 1], steps[..n], k);
      assert StepTaken(worlds[n], steps[n], worlds[n + 1]);
      ChildrenAge(worlds[n], steps[n], worlds[n + 1]);
    }
  }

  /** It takes a pid that the kernel has given out again: the child of the entry has the pid of
      another one that had exited. */
  lemma AbandonedNeedsReuse(worlds: seq<World>, steps: seq<Step>, s: nat, i: nat) returns (c: nat, d: nat)
    requires Run(worlds, steps) && AtRest(worlds[0]) && Abandoned(worlds[|steps|], s, i)
    ensures var children := worlds[|steps|].children;
      c < |children| && d < |children| && c != d && children[c].pid == children[d].pid
      && children[c].life != Running && children[d].home == Some((s, i))
  {
    AbandonedIff(worlds, steps, s, i);
    var k :| 0 <= k < |steps| && ReapsRunning(worlds[k], steps[k], s, i);
    RunKeeps(worlds[..k + 1], steps[..k]);
    RunExited(worlds[..k + 1], steps[..k]);
    RunAges(worlds, steps, k);
    c, d := ReusedPid(worlds[k], steps[k], s, i);
  }

  lemma ReusedPid(w: World, step: Step, s: nat, i: nat) returns (c: nat, d: nat)
    requires Inv(w) && AllExited(w) && ReapsRunning(w, step, s, i)
    ensures c < |w.children| && d < |w.children| && c != d && w.children[c].pid == w.children[d].pid
    ensures w.children[c].life != Running && w.children[d].home == Some((s, i))
  {
    var pc := w.actors[step.actor];
    ReapFails(w, step.actor, s, i, pc.p, pc.then_);
    d := Entry(w, s, i).deathPipe - 1;
    assert Found(pc) == Some(pc.p) && Exited(w.children, pc.p);
    c :| 0 <= c < |w.children| && w.children[c].pid == pc.p && w.children[c].life != Running;
  }

  // ----- and that it does ----------------------------------------------------------------

  function Scene(busy: int, entry: ProcessInfo, children: seq<Child>, pc0: Pc, pc1: Pc): World {
    World([Section(busy, Empty()[0 := entry])], children, [pc0, pc1], [])
  }

  const OTHERS := Child(7, Running, None)
  const OURS := Child(7, Running, Some((0, 0)))
  const LUCK := Luck(false, true, 7, 0)

  /** The handler finds a dead child that is not ours; it is reaped elsewhere, and `forkfd` gets
      its pid for a new child, whose entry the handler then takes. */
  function ReuseStage(i: nat): World {
    var free, taken, none := ProcessInfo(0, 0), ProcessInfo(-1, 0), [];
    var zombie, reaped := OTHERS.(life := Zombie), OTHERS.(life := Reaped);
    if i == 0 then Scene(0, free, none, Idle, Idle)
    else if i == 1 then Scene(0, free, [OTHERS], Idle, Idle)
    else if i == 2 then Scene(0, free, [zombie], Idle, Idle)
    else if i == 3 then Scene(0, free, [zombie], WaitAny, Idle)
    else if i == 4 then Scene(0, free, [zombie], Search(7, 0, 0), Idle)
    else if i == 5 then Scene(0, free, [reaped], Search(7, 0, 0), Idle)
    else if i == 6 then Scene(0, free, [reaped], Search(7, 0, 0), AllocAdd(0))
    else if i == 7 then Scene(1, free, [reaped], Search(7, 0, 0), AllocScan(0, 0))
    else if i == 8 then Scene(1, taken, [reaped], Search(7, 0, 0), Owning(0, 0))
    else if i == 9 then Scene(1, taken, [reaped, OURS], Search(7, 0, 0), Forked(0, 0, 1))
    else if i == 10 then Scene(1, ProcessInfo(-1, 2), [reaped, OURS], Search(7, 0, 0), Piped(0, 0, 1))
    else if i == 11 then Scene(1, ProcessInfo(7, 2), [reaped, OURS], Search(7, 0, 0), Idle)
    else if i == 12 then Scene(1, ProcessInfo(-1, 2), [reaped, OURS], Reaping(0, 0, 7, SearchAgain), Idle)
    else Scene(1, ProcessInfo(-1, 2), [reaped, OURS], WaitAny, Idle)
  }

  function ReuseStep(i: nat): Step {
    if i == 0 then Step(0, Foreign(7))
    else if i == 1 then Step(0, Exit(0))
    else if i == 2 then Step(0, Signal)
    else if i == 3 then Step(0, Go(LUCK))
    else if i == 4 then Step(0, ForeignReap(0))
    else if i == 5 then Step(1, Fork)
    else if i <= 10 then Step(1, Go(LUCK))
    else Step(0, Go(LUCK))
  }

  lemma SameScene(v: World, w: World)
    requires |v.sections| == 1 == |w.sections| && v.sections[0].busyCount == w.sections[0].busyCount
    requires v.sections[0].entries == w.sections[0].entries
    requires v.children == w.children && v.notices == w.notices
    requires |v.actors| == 2 == |w.actors| && v.actors[0] == w.actors[0] && v.actors[1] == w.actors[1]
    ensures v == w
  {
    assert v.sections == w.sections && v.actors == w.actors;
  }

  lemma PidFreed(i: nat)
    requires 0 <= i < 6
    ensures StepTaken(ReuseStage(i), ReuseStep(i), ReuseStage(i + 1))
  {
    var w := ReuseStage(i);
    assert Next(w, ReuseStep(i).actor, ReuseStep(i).action).Some?;
    SameScene(Next(w, ReuseStep(i).actor, ReuseStep(i).action).value, ReuseStage(i + 1));
  }

  lemma EntryTaken(i: nat)
    requires 6 <= i < 10
    ensures StepTaken(ReuseStage(i), ReuseStep(i), ReuseStage(i + 1))
  {
    var w := ReuseStage(i);
    assert Next(w, ReuseStep(i).actor, ReuseStep(i).action).Some?;
    SameScene(Next(w, ReuseStep(i).actor, ReuseStep(i).action).value, ReuseStage(i + 1));
  }

  lemma PidReused(i: nat)
    requires 10 <= i < 12
    ensures StepTaken(ReuseStage(i), ReuseStep(i), ReuseStage(i + 1))
  {
    var w := ReuseStage(i);
    assert Next(w, ReuseStep(i).actor, ReuseStep(i).action).Some?;
    SameScene(Next(w, ReuseStep(i).actor, ReuseStep(i).action).value, ReuseStage(i + 1));
  }

  lemma ReapingFails()
    ensures StepTaken(ReuseStage(12), ReuseStep(12), ReuseStage(13))
  {
    var w := ReuseStage(12);
    assert Next(w, ReuseStep(12).actor, ReuseStep(12).action).Some?;
    SameScene(Next(w, ReuseStep(12).actor, ReuseStep(12).action).value, ReuseStage(13));
  }

  lemma AbandonedHappens() returns (worlds: seq<World>, steps: seq<Step>)
    ensures Run(worlds, steps) && AtRest(worlds[0]) && Abandoned(worlds[|steps|], 0, 0)
  {
    worlds := seq(14, (i: nat) => ReuseStage(i));
    steps := seq(13, (i: nat) => ReuseStep(i));
    forall i | 0 <= i < 13
      ensures StepTaken(worlds[i], steps[i], worlds[i + 1])
    {
      if i < 6 {
        PidFreed(i);
      } else if i < 10 {
        EntryTaken(i);
      } else if i == 12 {
        ReapingFails();
      } else {
        PidReused(i);
      }
    }
    assert worlds[0].sections[0].entries == Empty();
  }
}

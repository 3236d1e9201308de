/** What `forkfd` and the SIGCHLD handler of thirdparty/forkfd/forkfd.c achieve when nothing gets in
    their way: no other thread steps in between, calls succeed, and no weak compare-and-swap fails
    for no reason.  Other threads may have been stopped anywhere. */
module ForkfdAlone {
  import opened Wrappers
  import opened ForkfdTable

  ghost predicate Alone(worlds: seq<World>, steps: seq<Step>, a: nat) {
    Run(worlds, steps) && forall k :: 0 <= k < |steps| ==> Smooth(steps[k], a)
  }

  predicate Smooth(step: Step, a: nat) {
    step.actor == a && step.action.Go? && step.action.luck.success && !step.action.luck.spurious
  }

  // ----- the handler ---------------------------------------------------------------------

  ghost predicate NoZombie(children: seq<Child>, pid: int) {
    forall c :: 0 <= c < |children| && children[c].life == Zombie ==> children[c].pid != pid
  }

  /** No entry before `(s, i)` has a dead child. */
  ghost predicate Clear(w: World, s: nat, i: nat) {
    forall t: nat, j: nat :: HasEntry(w, t, j) && (t < s || (t == s && j < i)) && Entry(w, t, j).pid > 0 ==>
      NoZombie(w.children, Entry(w, t, j).pid)
  }

  ghost predicate ClearTo(w: World, then_: Then) {
    match then_
    case Return => false
    case SearchAgain => true
    case ScanOn(s, i) => Clear(w, s, i)
  }

  /** How far a handler has got. */
  ghost predicate Sweeping(w: World, pc: Pc) {
    match pc
    case WaitAny => true
    case Search(_, _, _) => true
    case Scan(s, i) => Clear(w, s, i)
    case CheckReady(s, i, p) => Clear(w, s, i) && HasEntry(w, s, i) && Entry(w, s, i).pid == p
    case TakeReady(s, i, p) => Clear(w, s, i) && HasEntry(w, s, i) && Entry(w, s, i).pid == p
    case Reaping(_, _, _, then_) => ClearTo(w, then_)
    case Notifying(_, _, _, then_) => ClearTo(w, then_)
    case Freeing(_, _, then_) => ClearTo(w, then_)
    case Clearing(_, _, then_) => ClearTo(w, then_)
    case Releasing(_, then_) => ClearTo(w, then_)
    case Idle => Clear(w, |w.sections|, 0)
    case _ => false
  }

  /** From `w` to `v` no child died and no entry got a pid. */
  ghost predicate Calmer(w: World, v: World) {
    && |v.children| == |w.children|
    && (forall c :: 0 <= c < |v.children| && v.children[c].life == Zombie ==> w.children[c] == v.children[c])
    && |v.sections| == |w.sections|
    && (forall t: nat, j: nat :: HasEntry(v, t, j) ==> HasEntry(w, t, j) && (Entry(v, t, j).pid == Entry(w, t, j).pid || Entry(v, t, j).pid <= 0))
  }

  lemma ClearStays(w: World, v: World, s: nat, i: nat)
    requires Calmer(w, v) && Clear(w, s, i)
    ensures Clear(v, s, i)
  {
    forall t: nat, j: nat | HasEntry(v, t, j) && (t < s || (t == s && j < i)) && Entry(v, t, j).pid > 0
      ensures NoZombie(v.children, Entry(v, t, j).pid)
    {
      assert NoZombie(w.children, Entry(w, t, j).pid);
    }
  }

  lemma HandlerCalms(w: World, a: nat, luck: Luck)
    requires a < |w.actors| && Sweeping(w, w.actors[a]) && Next(w, a, Go(luck)).Some?
    ensures Calmer(w, Next(w, a, Go(luck)).value)
  {
    hide Clear, ClearTo, PidFree;
  }

  lemma SweepStep(w: World, a: nat, luck: Luck)
    requires a < |w.actors| && Sweeping(w, w.actors[a]) && Next(w, a, Go(luck)).Some? && !luck.spurious
    ensures Sweeping(Next(w, a, Go(luck)).value, Next(w, a, Go(luck)).value.actors[a])
  {
    hide Clear, Calmer, PidFree;
    HandlerCalms(w, a, luck);
    var v := Next(w, a, Go(luck)).value;
    match w.actors[a]
    case WaitAny => AllClear(v, |v.sections|, 0);
    case Search(_, _, _) => NothingBefore(v);
    case Scan(s, i) => ScanStep(w, a, luck);
    case CheckReady(s, i, p) => ScanStep(w, a, luck);
    case TakeReady(s, i, p) => ScanStep(w, a, luck);
    case Reaping(_, _, _, ScanOn(s, i)) => ClearStays(w, v, s, i);
    case Notifying(_, _, _, ScanOn(s, i)) => ClearStays(w, v, s, i);
    case Freeing(_, _, ScanOn(s, i)) => ClearStays(w, v, s, i);
    case Clearing(_, _, ScanOn(s, i)) => ClearStays(w, v, s, i);
    case Releasing(_, ScanOn(s, i)) => ClearStays(w, v, s, i);
    case _ =>
  }

  lemma AllClear(w: World, s: nat, i: nat)
    ensures (forall c :: 0 <= c < |w.children| ==> w.children[c].life != Zombie) ==> Clear(w, s, i)
  {
  }

  lemma NothingBefore(w: World)
    ensures Clear(w, 0, 0)
  {
  }

  lemma ScanStep(w: World, a: nat, luck: Luck)
    requires a < |w.actors| && Sweeping(w, w.actors[a]) && Next(w, a, Go(luck)).Some? && !luck.spurious
    requires w.actors[a].Scan? || w.actors[a].CheckReady? || w.actors[a].TakeReady?
    ensures Sweeping(Next(w, a, Go(luck)).value, Next(w, a, Go(luck)).value.actors[a])
  {
    HandlerCalms(w, a, luck);
    ClearStays(w, Next(w, a, Go(luck)).value, w.actors[a].s, w.actors[a].i);
  }

  /** Child `c` is dead and in the table, or the handler has it in hand, or it has been told of. */
  ghost predicate InHand(w: World, a: nat, c: nat) {
    && a < |w.actors| && c < |w.children| && w.children[c].home.Some?
    && var (s, i) := w.children[c].home.value;
    || (w.children[c].life == Zombie && HasEntry(w, s, i) && Entry(w, s, i).pid == w.children[c].pid)
    || (w.children[c].life == Zombie && w.actors[a].Reaping? && w.actors[a].p == w.children[c].pid)
    || (w.children[c].life == Reaped && (IsTold(w.notices, c) || (w.actors[a].Notifying? && w.actors[a].c == c)))
  }

  lemma HandReaps(w: World, a: nat, luck: Luck, c: nat)
    requires Inv(w) && InHand(w, a, c) && w.actors[a].Reaping? && w.actors[a].then_ != Return
    ensures Next(w, a, Go(luck)).Some? && InHand(Next(w, a, Go(luck)).value, a, c)
  {
    hide Balanced, Sized, AllTold, Noticed, EntriesOk, Linked;
    var pc, v := w.actors[a], Next(w, a, Go(luck)).value;
    assert Owns(pc, pc.s, pc.i);
    if Dead(w.children, pc.p).Some? {
      OwnChild(w, a, pc.s, pc.i, pc.p, pc.then_);
      var d := Dead(w.children, pc.p).value;
      assert w.children[c].life == Zombie && w.children[c].pid == pc.p ==> c == d;
      assert c == d ==> v.children[c].life == Reaped && v.actors[a].c == c;
    }
    if IsTold(w.notices, c) {
      assert IsTold(v.notices, c);
    }
  }

  lemma HandTells(w: World, a: nat, luck: Luck, c: nat)
    requires Inv(w) && InHand(w, a, c) && w.actors[a].Notifying?
    ensures Next(w, a, Go(luck)).Some? && InHand(Next(w, a, Go(luck)).value, a, c)
  {
    hide Balanced, Sized, AllTold, Noticed, EntriesOk, PidsUnique, Owned;
    assert Linked(w, w.actors[a]);
    var v := Next(w, a, Go(luck)).value;
    if IsTold(w.notices, c) {
      var n :| 0 <= n < |w.notices| && w.notices[n].child == c;
      assert v.notices[n].child == c;
    }
    assert v.notices[|w.notices|].child == w.actors[a].c;
  }

  /** Other steps of a handler leave the children and the notices alone, and an entry changes its pid
      only if the handler takes it for that pid, or has had it. */
  lemma HandlerLeaves(w: World, a: nat, luck: Luck, s: nat, i: nat)
    requires Inv(w) && a < |w.actors| && Sweeping(w, w.actors[a]) && !w.actors[a].Reaping? && !w.actors[a].Notifying?
    requires Next(w, a, Go(luck)).Some? && !luck.spurious
    requires HasEntry(w, s, i) && Entry(w, s, i).pid > 0
    ensures var v := Next(w, a, Go(luck)).value;
      && v.children == w.children && v.notices == w.notices && a < |v.actors| && HasEntry(v, s, i)
      && (Entry(v, s, i).pid == Entry(w, s, i).pid || (v.actors[a].Reaping? && v.actors[a].p == Entry(w, s, i).pid))
  {
    hide Clear, Balanced, Sized, AllTold, Noticed, EntriesOk, PidFree, Dead;
    assert Linked(w, w.actors[a]);
    match w.actors[a]
    case Freeing(t, j, _) => assert Owns(w.actors[a], t, j);
    case Clearing(t, j, _) => assert Owns(w.actors[a], t, j);
    case _ =>
  }

  lemma HandlerKeeps(w: World, a: nat, luck: Luck)
    requires a < |w.actors| && Sweeping(w, w.actors[a]) && !w.actors[a].Reaping? && !w.actors[a].Notifying?
    requires Next(w, a, Go(luck)).Some?
    ensures var v := Next(w, a, Go(luck)).value; v.children == w.children && v.notices == w.notices && |v.actors| == |w.actors|
  {
    hide Clear, PidFree, Dead;
  }

  /** A step of the handler does not let go of a child it has in hand. */
  lemma HandStep(w: World, a: nat, luck: Luck, c: nat)
    requires Inv(w) && InHand(w, a, c) && Sweeping(w, w.actors[a]) && Next(w, a, Go(luck)).Some? && !luck.spurious
    ensures InHand(Next(w, a, Go(luck)).value, a, c)
  {
    if w.actors[a].Reaping? {
      HandReaps(w, a, luck, c);
    } else if w.actors[a].Notifying? {
      HandTells(w, a, luck, c);
    } else {
      var (s, i) := w.children[c].home.value;
      assert w.children[c].pid > 0;
      HandlerKeeps(w, a, luck);
      if HasEntry(w, s, i) && Entry(w, s, i).pid > 0 {
        HandlerLeaves(w, a, luck, s, i);
      }
      hide Inv, Sweeping, Next;
    }
  }

  lemma {:induction false} SweepRun(worlds: seq<World>, steps: seq<Step>, a: nat, c: nat)
    requires Alone(worlds, steps, a) && Inv(worlds[0]) && a < |worlds[0].actors|
    requires Sweeping(worlds[0], worlds[0].actors[a]) && InHand(worlds[0], a, c)
    ensures var w := worlds[|steps|];
      Inv(w) && a < |w.actors| && Sweeping(w, w.actors[a]) && InHand(w, a, c)
      && c < |worlds[0].children| && c < |w.children| && w.children[c].home == worlds[0].children[c].home
  {
    hide Inv, Sweeping, Next;
    if steps != [] {
      var n := |steps| - 1;
      assert forall k :: 0 <= k < n ==> StepTaken(worlds[k], steps[k], worlds[k + 1]) && Smooth(steps[k], a);
      SweepRun(worlds[..n + 1], steps[..n], a, c);
      var w := worlds[n];
      assert StepTaken(w, steps[n], worlds[n + 1]) && Smooth(steps[n], a);
      NextKeeps(w, a, steps[n].action);
      SweepStep(w, a, steps[n].action.luck);
      HandStep(w, a, steps[n].action.luck, c);
      StepFrame(w, a, steps[n].action.luck, c);
    }
  }

  lemma StepFrame(w: World, a: nat, luck: Luck, c: nat)
    requires a < |w.actors| && c < |w.children| && Next(w, a, Go(luck)).Some?
    ensures var v := Next(w, a, Go(luck)).value;
      |v.actors| == |w.actors| && c < |v.children| && v.children[c].home == w.children[c].home
  {
  }

  /** A handler that is not disturbed tells the death of every child that `forkfd` has put into the
      table and that is dead when the handler begins: it is reaped, and its own pipe is told once.
      And it leaves no entry with a dead child. */
  lemma HandlerTells(worlds: seq<World>, steps: seq<Step>, a: nat, c: nat, s: nat, i: nat)
    requires Alone(worlds, steps, a) && Inv(worlds[0]) && a < |worlds[0].actors|
    requires worlds[0].actors[a] == WaitAny && a < |worlds[|steps|].actors| && worlds[|steps|].actors[a] == Idle
    requires HasEntry(worlds[0], s, i) && c < |worlds[0].children| && worlds[0].children[c].home == Some((s, i))
    requires worlds[0].children[c].life == Zombie && Entry(worlds[0], s, i).pid == worlds[0].children[c].pid
    ensures var w := worlds[|steps|];
      && c < |w.children| && w.children[c].life == Reaped && ToldOnce(w.notices, c)
      && forall t: nat, j: nat :: HasEntry(w, t, j) && Entry(w, t, j).pid > 0 ==> NoZombie(w.children, Entry(w, t, j).pid)
  {
    SweepRun(worlds, steps, a, c);
    hide Balanced, Owned, EntriesOk, AllTold, Linked, Next;
    var w := worlds[|steps|];
    assert Clear(w, |w.sections|, 0);
    assert w.children[c].life != Zombie;
    var n :| 0 <= n < |w.notices| && w.notices[n].child == c;
    assert w.notices[n] == Notice(PipeOf(c), c);
  }

  // ----- forkfd --------------------------------------------------------------------------

  ghost predicate FreeFrom(w: World, s: nat, i: nat) {
    exists j :: i <= j && HasEntry(w, s, j) && Entry(w, s, j).pid == 0
  }

  /** One child was added, for entry `(s, i)`. */
  ghost predicate Made(before: seq<Child>, after: seq<Child>, s: nat, i: nat) {
    && |after| == |before| + 1 && after[..|before|] == before
    && after[|before|].pid > 0 && after[|before|].life == Running && after[|before|].home == Some((s, i))
  }

  /** The table knows the new child: its pid, and the write end of its pipe. */
  ghost predicate Entered(before: seq<Child>, w: World, s: nat, i: nat) {
    Made(before, w.children, s, i) && HasEntry(w, s, i)
    && Entry(w, s, i) == ProcessInfo(w.children[|before|].pid, PipeOf(|before|))
  }

  ghost predicate Forking(before: seq<Child>, w: World, pc: Pc) {
    match pc
    case AllocAdd(_) => w.children == before
    case AllocScan(s, i) => w.children == before && FreeFrom(w, s, i)
    case AllocUndo(_) => w.children == before
    case AllocNext(_) => w.children == before
    case AllocInstall(_) => w.children == before
    case Owning(_, _) => w.children == before
    case Forked(s, i, c) => c == |before| && Made(before, w.children, s, i)
    case Piped(s, i, c) => c == |before| && Made(before, w.children, s, i)
    case Idle => exists s, i :: Entered(before, w, s, i)
    case _ => false
  }

  lemma ForkStep(before: seq<Child>, w: World, a: nat, luck: Luck)
    requires Inv(w) && a < |w.actors| && Forking(before, w, w.actors[a])
    requires Next(w, a, Go(luck)).Some? && luck.success && !luck.spurious
    ensures Forking(before, Next(w, a, Go(luck)).value, Next(w, a, Go(luck)).value.actors[a])
  {
    hide Balanced, Owned, PidsUnique, EntriesOk, Noticed, AllTold;
    assert Linked(w, w.actors[a]);
    var v := Next(w, a, Go(luck)).value;
    match w.actors[a]
    case AllocAdd(s) =>
      if v.actors[a].AllocScan? {
        GuardMeansFree(w, s);
        var j :| 0 <= j < |w.sections[s].entries| && w.sections[s].entries[j].pid == 0;
        assert HasEntry(v, s, j) && Entry(v, s, j).pid == 0;
      }
    case AllocScan(s, i) =>
      var j :| i <= j && HasEntry(w, s, j) && Entry(w, s, j).pid == 0;
      if v.actors[a].AllocScan? {
        assert j != i && Entry(v, s, j).pid == 0;
      }
    case Owning(s, i) => assert Made(before, v.children, s, i);
    case Piped(s, i, c) => assert Entered(before, v, s, i);
    case _ =>
  }

  lemma {:induction false} ForkRun(worlds: seq<World>, steps: seq<Step>, a: nat)
    requires Alone(worlds, steps, a) && Inv(worlds[0]) && a < |worlds[0].actors|
    requires worlds[0].actors[a] == AllocAdd(0)
    ensures var w := worlds[|steps|]; Inv(w) && a < |w.actors| && Forking(worlds[0].children, w, w.actors[a])
  {
    hide Inv, Next;
    if steps != [] {
      var n := |steps| - 1;
      assert forall k :: 0 <= k < n ==> StepTaken(worlds[k], steps[k], worlds[k + 1]) && Smooth(steps[k], a);
      ForkRun(worlds[..n + 1], steps[..n], a);
      var w := worlds[n];
      assert StepTaken(w, steps[n], worlds[n + 1]) && Smooth(steps[n], a);
      NextKeeps(w, a, steps[n].action);
      ForkStep(worlds[0].children, w, a, steps[n].action.luck);
      ActorsStay(w, a, steps[n].action.luck);
    }
  }

  lemma ActorsStay(w: World, a: nat, luck: Luck)
    requires a < |w.actors| && Next(w, a, Go(luck)).Some?
    ensures |Next(w, a, Go(luck)).value.actors| == |w.actors|
  {
  }

  /** An undisturbed `forkfd` that returns has made one child and entered it: the entry it reserved
      holds the child's pid and the write end of its pipe, so that the handler finds both. */
  lemma ForkEnters(worlds: seq<World>, steps: seq<Step>, a: nat)
    requires Alone(worlds, steps, a) && Inv(worlds[0]) && a < |worlds[0].actors|
    requires worlds[0].actors[a] == AllocAdd(0) && a < |worlds[|steps|].actors| && worlds[|steps|].actors[a] == Idle
    ensures var w, c := worlds[|steps|], |worlds[0].children|;
      && |w.children| == c + 1 && w.children[..c] == worlds[0].children
      && w.children[c].life == Running && w.children[c].home.Some?
      && var (s, i) := w.children[c].home.value;
      && HasEntry(w, s, i) && Entry(w, s, i) == ProcessInfo(w.children[c].pid, PipeOf(c))
  {
    hide Inv, Next;
    ForkRun(worlds, steps, a);
    var s, i :| Entered(worlds[0].children, worlds[|steps|], s, i);
  }
}

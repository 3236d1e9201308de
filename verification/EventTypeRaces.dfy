/** What concurrent registrations of event types (src/kernel/CoreEvent.cpp) do not keep: a free
    id can be passed over.  When exactly that happens, and that it does. */
module EventTypeRaces {
  import opened Wrappers
  import opened EventTypeRegistry

  /** A thread has looked at every id below this one and will not look again. */
  function Passed(pc: Pc): nat {
    match pc
    case Load(which, true) => which
    case Cas(which, _, true) => which
    case LoadOldNext(i) => i
    case CasNext(i, _) => i
    case Answered(id) => if id == -1 then NUM_BITS else 0
    case _ => 0
  }

  ghost predicate PassedBy(w: World, k: nat) {
    k < w.next || exists a :: 0 <= a < |w.actors| && k < Passed(w.actors[a])
  }

  /** A free id is below `next`, or behind a thread that looks for one or has found none. */
  ghost predicate Behind(w: World) {
    exists k: nat :: k < NUM_BITS && !Taken(w.data, k) && PassedBy(w, k)
  }

  /** A thread looking for a free id is refused one that is free: its word has changed, though
      not by that id. */
  predicate Skips(w: World, step: Step) {
    && step.action.Go? && step.actor < |w.actors| && w.actors[step.actor].Cas? && w.actors[step.actor].scan
    && var pc := w.actors[step.actor];
      pc.which < NUM_BITS && |w.data| == NUM_INTS && w.data[pc.which / BITS_PER_INT] != pc.seen && !Taken(w.data, pc.which)
  }

  lemma TakenStays(w: World, step: Step, v: World, k: nat)
    requires Inv(w) && StepTaken(w, step, v) && Taken(w.data, k)
    ensures Taken(v.data, k)
  {
    var pc := w.actors[step.actor];
    assert PcOk(w, pc);
    if step.action.Go? && pc.Cas? {
      TakeTakes(w.data, pc.which, k);
    }
  }

  /** What a step newly passes by was passed already or is taken, unless it skips. */
  lemma PassesTaken(w: World, step: Step, v: World, k: nat)
    requires Inv(w) && StepTaken(w, step, v) && !Skips(w, step) && k < NUM_BITS && PassedBy(v, k)
    ensures PassedBy(w, k) || Taken(w.data, k) || Taken(v.data, k)
  {
    var pc := w.actors[step.actor];
    assert PcOk(w, pc);
    if !PassedBy(w, k) {
      assert forall b :: 0 <= b < |w.actors| ==> k >= Passed(w.actors[b]);
      if k >= v.next {
        assert k < Passed(v.actors[step.actor]);
      }
    }
  }

  lemma SkipPasses(w: World, step: Step, v: World)
    requires Inv(w) && StepTaken(w, step, v) && Skips(w, step)
    ensures Behind(v)
  {
    var k := w.actors[step.actor].which;
    assert !Taken(v.data, k) && k < Passed(v.actors[step.actor]);
    assert PassedBy(v, k);
  }

  lemma BehindStep(w: World, step: Step, v: World)
    requires Inv(w) && StepTaken(w, step, v) && !Behind(w) && Behind(v)
    ensures Skips(w, step)
  {
    var k: nat :| k < NUM_BITS && !Taken(v.data, k) && PassedBy(v, k);
    if !Skips(w, step) {
      PassesTaken(w, step, v, k);
      if Taken(w.data, k) {
        TakenStays(w, step, v, k);
      }
    }
  }

  lemma NotBehind(w: World)
    requires AtRest(w)
    ensures !Behind(w)
  {
    forall k: nat
      ensures !PassedBy(w, k)
    {
    }
  }

  /** Over any run a free id is passed over if and only if some thread is refused a free one. */
  lemma {:induction false} BehindIff(worlds: seq<World>, steps: seq<Step>)
    requires Run(worlds, steps) && AtRest(worlds[0])
    ensures (exists j :: 0 <= j <= |steps| && Behind(worlds[j])) <==> (exists j :: 0 <= j < |steps| && Skips(worlds[j], steps[j]))
  {
    hide Behind, Skips, Inv, Next;
    if steps == [] {
      NotBehind(worlds[0]);
    } else {
      var n := |steps| - 1;
      BehindIff(worlds[..n + 1], steps[..n]);
      RunKeeps(worlds[..n + 1], steps[..n]);
      assert StepTaken(worlds[n], steps[n], worlds[n + 1]);
      assert forall j :: 0 <= j <= n ==> worlds[..n + 1][j] == worlds[j];
      assert forall j :: 0 <= j < n ==> steps[..n][j] == steps[j];
      if Skips(worlds[n], steps[n]) {
        SkipPasses(worlds[n], steps[n], worlds[n + 1]);
      } else if Behind(worlds[n + 1]) && !Behind(worlds[n]) {
        BehindStep(worlds[n], steps[n], worlds[n + 1]);
      }
    }
  }

  /** So while nobody is refused a free id, all ids below `next` are taken, and -1 is answered
      only when every id is. */
  lemma RightRefusals(worlds: seq<World>, steps: seq<Step>, a: nat, k: nat)
    requires Run(worlds, steps) && AtRest(worlds[0]) && forall j :: 0 <= j < |steps| ==> !Skips(worlds[j], steps[j])
    requires k < NUM_BITS
    ensures var w := worlds[|steps|];
      && (k < w.next ==> Taken(w.data, k))
      && (a < |w.actors| && w.actors[a] == Answered(-1) ==> Taken(w.data, k))
  {
    BehindIff(worlds, steps);
    var w := worlds[|steps|];
    assert !Behind(w);
    assert PassedBy(w, k) ==> Taken(w.data, k);
    assert a < |w.actors| && w.actors[a] == Answered(-1) ==> k < Passed(w.actors[a]);
  }

  // ----- one thread's search -------------------------------------------------------------

  predicate Searching(pc: Pc) {
    match pc
    case Load(_, scan) => scan
    case Cas(_, _, scan) => scan
    case _ => false
  }

  /** Thread `a` reads `next` at step `i` and has been looking for a free id up to world `j`. */
  ghost predicate Searches(worlds: seq<World>, steps: seq<Step>, a: nat, i: nat, j: nat) {
    && Run(worlds, steps) && AtRest(worlds[0]) && i < j <= |steps| && steps[i] == Step(a, Go)
    && a < |worlds[i].actors| && worlds[i].actors[a] == LoadNext
    && forall n :: i < n < j ==> a < |worlds[n].actors| && Searching(worlds[n].actors[a])
  }

  /** Thread `a` is refused id `k`, which is free. */
  ghost predicate RefusedFree(w: World, step: Step, a: nat, k: nat) {
    Skips(w, step) && step.actor == a && w.actors[a].which == k
  }

  /** Id `k` was not taken by the search: it lay below `next`, or the thread was refused it. */
  ghost predicate Missed(worlds: seq<World>, steps: seq<Step>, a: nat, i: nat, j: nat, k: nat)
    requires i < j <= |steps| < |worlds|
  {
    k < worlds[i].next || exists n :: i < n < j && RefusedFree(worlds[n], steps[n], a, k)
  }

  lemma SearchStep(w: World, step: Step, v: World, a: nat, k: nat)
    requires Inv(w) && StepTaken(w, step, v) && a < |w.actors| && Searching(w.actors[a])
    requires Searching(v.actors[a]) || v.actors[a] == Answered(-1)
    requires k < Passed(v.actors[a]) && k < NUM_BITS && !Taken(v.data, k)
    ensures k < Passed(w.actors[a]) || RefusedFree(w, step, a, k)
    ensures !Taken(w.data, k)
  {
    if Taken(w.data, k) {
      TakenStays(w, step, v, k);
    }
    assert PcOk(w, w.actors[a]);
  }

  /** An id that is still free and that the search has passed by was missed. */
  lemma {:induction false} SearchMisses(worlds: seq<World>, steps: seq<Step>, a: nat, i: nat, j: nat, k: nat)
    requires Searches(worlds, steps, a, i, j) && a < |worlds[j].actors|
    requires Searching(worlds[j].actors[a]) || worlds[j].actors[a] == Answered(-1)
    requires k < Passed(worlds[j].actors[a]) && k < NUM_BITS && !Taken(worlds[j].data, k)
    ensures Missed(worlds, steps, a, i, j, k)
  {
    hide Inv, Skips, Taken;
    var m := j - 1;
    RunKeeps(worlds[..m + 1], steps[..m]);
    assert StepTaken(worlds[m], steps[m], worlds[j]);
    if m > i {
      hide Next;
      SearchStep(worlds[m], steps[m], worlds[j], a, k);
      if k < Passed(worlds[m].actors[a]) {
        SearchMisses(worlds, steps, a, i, m, k);
      }
    }
  }

  /** A thread is answered -1 while an id is free if and only if some id it missed is still free. */
  lemma WrongRefusalIff(worlds: seq<World>, steps: seq<Step>, a: nat, i: nat, j: nat)
    requires Searches(worlds, steps, a, i, j) && a < |worlds[j].actors| && worlds[j].actors[a] == Answered(-1)
    ensures (exists k: nat :: k < NUM_BITS && !Taken(worlds[j].data, k))
       <==> (exists k: nat :: k < NUM_BITS && !Taken(worlds[j].data, k) && Missed(worlds, steps, a, i, j, k))
  {
    forall k: nat | k < NUM_BITS && !Taken(worlds[j].data, k)
      ensures Missed(worlds, steps, a, i, j, k)
    {
      SearchMisses(worlds, steps, a, i, j, k);
    }
  }

  // ----- registrations that do not overlap -----------------------------------------------

  predicate Busy(pc: Pc) {
    !pc.Idle? && !pc.Answered?
  }

  ghost predicate Alone(w: World) {
    forall a, b :: 0 <= a < b < |w.actors| ==> !Busy(w.actors[a]) || !Busy(w.actors[b])
  }

  /** What a thread saw of a word is what is there. */
  ghost predicate UpToDate(w: World) {
    |w.data| == NUM_INTS && forall a :: 0 <= a < |w.actors| && w.actors[a].Cas? && w.actors[a].which < NUM_BITS ==>
      w.data[w.actors[a].which / BITS_PER_INT] == w.actors[a].seen
  }

  lemma AloneStep(w: World, step: Step, v: World)
    requires StepTaken(w, step, v) && Alone(w) && UpToDate(w)
    ensures UpToDate(v) && !Skips(w, step)
  {
    forall a | 0 <= a < |v.actors| && v.actors[a].Cas? && v.actors[a].which < NUM_BITS
      ensures v.data[v.actors[a].which / BITS_PER_INT] == v.actors[a].seen
    {
      if a != step.actor && step.action.Go? && w.actors[step.actor].Cas? {
        assert Busy(w.actors[a]) && Busy(w.actors[step.actor]);
        assert false;
      }
    }
  }

  /** If at any time one registration at most is under way, nobody is refused a free id. */
  lemma {:induction false} AloneNoSkip(worlds: seq<World>, steps: seq<Step>)
    requires Run(worlds, steps) && AtRest(worlds[0]) && forall j :: 0 <= j <= |steps| ==> Alone(worlds[j])
    ensures UpToDate(worlds[|steps|]) && forall j :: 0 <= j < |steps| ==> !Skips(worlds[j], steps[j])
  {
    hide Skips, Next;
    if steps != [] {
      var n := |steps| - 1;
      AloneNoSkip(worlds[..n + 1], steps[..n]);
      assert StepTaken(worlds[n], steps[n], worlds[n + 1]);
      AloneStep(worlds[n], steps[n], worlds[n + 1]);
      assert forall j :: 0 <= j < n ==> worlds[..n + 1][j] == worlds[j] && steps[..n][j] == steps[j];
    }
  }

  // ----- an id lost ----------------------------------------------------------------------

  lemma TwoActors(v: World, w: World)
    requires |v.actors| == 2 == |w.actors| && v.actors[0] == w.actors[0] && v.actors[1] == w.actors[1]
    requires v.next == w.next && v.data == w.data && v.granted == w.granted
    ensures v == w
  {
    assert v.actors == w.actors;
  }

  /** One run after another. */
  lemma RunsOn(worlds: seq<World>, steps: seq<Step>, more: seq<World>, after: seq<Step>)
    requires Run(worlds, steps) && Run(more, after) && worlds[|steps|] == more[0]
    ensures Run(worlds + more[1..], steps + after) && (worlds + more[1..])[|steps + after|] == more[|after|]
  {
    hide Next;
    var all, both := worlds + more[1..], steps + after;
    forall i | 0 <= i < |both|
      ensures StepTaken(all[i], both[i], all[i + 1])
    {
      if i >= |steps| {
        assert all[i] == more[i - |steps|] && all[i + 1] == more[i - |steps| + 1];
        assert StepTaken(more[i - |steps|], after[i - |steps|], more[i - |steps| + 1]);
      } else {
        assert StepTaken(worlds[i], steps[i], worlds[i + 1]);
      }
    }
  }

  /** The first `n` ids are taken. */
  function Filled(n: nat): (data: seq<Word>)
    requires n <= NUM_BITS
    ensures |data| == NUM_INTS
  {
    if n == 0 then seq(NUM_INTS, _ => {}) else Take(Filled(n - 1), n - 1)
  }

  lemma {:induction false} FilledTaken(n: nat, k: int)
    requires n <= NUM_BITS
    ensures Taken(Filled(n), k) <==> 0 <= k < n
  {
    if n > 0 {
      FilledTaken(n - 1, k);
      TakeTakes(Filled(n - 1), n - 1, k);
    }
  }

  function Sequential(n: nat): World
    requires n <= NUM_BITS
  {
    World(n, Filled(n), [Idle, Idle], seq(n, (i: nat) => i))
  }

  lemma Grows(n: nat)
    requires n < NUM_BITS
    ensures Take(Filled(n), n) == Filled(n + 1)
    ensures seq(n, (i: nat) => i) + [n] == seq(n + 1, (i: nat) => i)
  {
  }

  /** One registration without a hint takes the next id. */
  lemma OneMore(n: nat) returns (worlds: seq<World>, steps: seq<Step>)
    requires n < NUM_BITS
    ensures Run(worlds, steps) && worlds[0] == Sequential(n) && worlds[|steps|] == Sequential(n + 1)
  {
    FilledTaken(n, n);
    Grows(n);
    hide Filled;
    var data, after, g := Filled(n), Filled(n + 1), seq(n, (i: nat) => i);
    var seen := data[n / BITS_PER_INT];
    worlds := [
      World(n, data, [Idle, Idle], g),
      World(n, data, [LoadNext, Idle], g),
      World(n, data, [Load(n, true), Idle], g),
      World(n, data, [Cas(n, seen, true), Idle], g),
      World(n, after, [LoadOldNext(n), Idle], g + [n]),
      World(n, after, [CasNext(n, n), Idle], g + [n]),
      World(n + 1, after, [Answered(n), Idle], g + [n]),
      World(n + 1, after, [Idle, Idle], g + [n])];
    steps := [Step(0, Register(-1)), Step(0, Go), Step(0, Go), Step(0, Go), Step(0, Go), Step(0, Go), Step(0, Done)];
    TwoActors(Next(worlds[0], 0, Register(-1)).value, worlds[1]);
    TwoActors(Next(worlds[1], 0, Go).value, worlds[2]);
    TwoActors(Next(worlds[2], 0, Go).value, worlds[3]);
    TwoActors(Next(worlds[3], 0, Go).value, worlds[4]);
    TwoActors(Next(worlds[4], 0, Go).value, worlds[5]);
    TwoActors(Next(worlds[5], 0, Go).value, worlds[6]);
    TwoActors(Next(worlds[6], 0, Done).value, worlds[7]);
    assert StepTaken(worlds[0], steps[0], worlds[1]) && StepTaken(worlds[1], steps[1], worlds[2])
        && StepTaken(worlds[2], steps[2], worlds[3]) && StepTaken(worlds[3], steps[3], worlds[4])
        && StepTaken(worlds[4], steps[4], worlds[5]) && StepTaken(worlds[5], steps[5], worlds[6])
        && StepTaken(worlds[6], steps[6], worlds[7]);
  }

  /** Any number of ids can be taken one after another. */
  lemma {:induction false} OneByOne(n: nat) returns (worlds: seq<World>, steps: seq<Step>)
    requires n <= NUM_BITS
    ensures Run(worlds, steps) && AtRest(worlds[0]) && worlds[|steps|] == Sequential(n)
  {
    if n == 0 {
      worlds, steps := [Sequential(0)], [];
    } else {
      worlds, steps := OneByOne(n - 1);
      var more, after := OneMore(n - 1);
      RunsOn(worlds, steps, more, after);
      worlds, steps := worlds + more[1..], steps + after;
    }
  }

  /** With two ids left, a thread looking for one is overtaken by another that takes the second. */
  lemma Overtaken(n: nat) returns (worlds: seq<World>, steps: seq<Step>)
    requires n == NUM_BITS - 2
    ensures Run(worlds, steps) && worlds[0] == Sequential(n) && |worlds[|steps|].actors| == 2
    ensures worlds[|steps|].actors[0] == Answered(-1) && !Taken(worlds[|steps|].data, n)
  {
    var y := n + 1;
    FilledTaken(n, n);
    FilledTaken(n, y);
    hide Filled;
    var data, after, g := Filled(n), Take(Filled(n), y), seq(n, (i: nat) => i);
    var seen := data[n / BITS_PER_INT];
    TakeTakes(data, y, n);
    TakeTakes(data, y, y);
    worlds := [
      World(n, data, [Idle, Idle], g),
      World(n, data, [LoadNext, Idle], g),
      World(n, data, [Load(n, true), Idle], g),
      World(n, data, [Cas(n, seen, true), Idle], g),
      World(n, data, [Cas(n, seen, true), Load(y, false)], g),
      World(n, data, [Cas(n, seen, true), Cas(y, seen, false)], g),
      World(n, after, [Cas(n, seen, true), Answered(y)], g + [y]),
      World(n, after, [Load(y, true), Answered(y)], g + [y]),
      World(n, after, [Answered(-1), Answered(y)], g + [y])];
    steps := [Step(0, Register(-1)), Step(0, Go), Step(0, Go), Step(1, Register(y)), Step(1, Go), Step(1, Go), Step(0, Go), Step(0, Go)];
    assert after[n / BITS_PER_INT] != seen;
    TwoActors(Next(worlds[0], 0, Register(-1)).value, worlds[1]);
    TwoActors(Next(worlds[1], 0, Go).value, worlds[2]);
    TwoActors(Next(worlds[2], 0, Go).value, worlds[3]);
    TwoActors(Next(worlds[3], 1, Register(y)).value, worlds[4]);
    TwoActors(Next(worlds[4], 1, Go).value, worlds[5]);
    TwoActors(Next(worlds[5], 1, Go).value, worlds[6]);
    TwoActors(Next(worlds[6], 0, Go).value, worlds[7]);
    TwoActors(Next(worlds[7], 0, Go).value, worlds[8]);
    assert StepTaken(worlds[0], steps[0], worlds[1]) && StepTaken(worlds[1], steps[1], worlds[2])
        && StepTaken(worlds[2], steps[2], worlds[3]) && StepTaken(worlds[3], steps[3], worlds[4])
        && StepTaken(worlds[4], steps[4], worlds[5]) && StepTaken(worlds[5], steps[5], worlds[6])
        && StepTaken(worlds[6], steps[6], worlds[7]) && StepTaken(worlds[7], steps[7], worlds[8]);
  }

  /** So from an empty field two threads can get to where one is told that no id is left, though
      one is free. */
  lemma FreeIdLost() returns (worlds: seq<World>, steps: seq<Step>)
    ensures Run(worlds, steps) && AtRest(worlds[0]) && |worlds[|steps|].actors| == 2
    ensures worlds[|steps|].actors[0] == Answered(-1) && !Taken(worlds[|steps|].data, NUM_BITS - 2)
  {
    worlds, steps := OneByOne(NUM_BITS - 2);
    var more, after := Overtaken(NUM_BITS - 2);
    RunsOn(worlds, steps, more, after);
    worlds, steps := worlds + more[1..], steps + after;
  }
}

/** `removePostedEvents` (src/kernel/CoreApplication.cpp) reads the receiver's thread data, locks its
    queue and, unlike `postEvent`, does not look again: when its closing assert holds, and that it
    need not. */
module ThreadRemovals {
  import opened Wrappers
  import opened PostEventLists
  import opened ThreadAffinity
  import opened ThreadPulls

  /** Thread `a` has locked queue `d` to remove all events of `r`. */
  predicate RemovesAll(w: World, a: nat, r: nat, d: nat) {
    && a < |w.actors| && r < |w.objs| && d < |w.datas|
    && w.actors[a].pc.Removing? && w.actors[a].pc.target == Some(r) && w.actors[a].pc.kind == NO_TYPE && w.actors[a].pc.data == d
  }

  /** In no other queue is there an event of an object that lives in a queue locked by a thread
      that moves nothing. */
  lemma ElsewhereNone(w: World, a: nat, r: nat, d: nat, e: nat)
    requires Inv(w) && a < |w.actors| && r < |w.objs| && d < |w.datas| && e < |w.datas| && e != d
    requires Holds(w.actors[a].pc, d) && !w.actors[a].pc.Moving? && w.objs[r].data == d
    ensures CountFor(w.datas[e].list, r) == 0
  {
    CountPositive(w.datas[e].list, r);
    if Shifted(w, r, e) {
      var b := w.datas[e].holder.value;
      assert OnTheWay(w, w.actors[b].pc);
      assert Holds(w.actors[b].pc, d);
      OneHolder(w, a, b, d);
    }
  }

  /** Removing what is in the queue of its own thread leaves nothing. */
  lemma HereCleared(w: World, a: nat, r: nat, d: nat)
    requires Inv(w) && RemovesAll(w, a, r, d) && Removes(w, Some(r)) && w.objs[r].data == d
    ensures Proceed(w, a).value.objs[r].posted == 0
  {
    var v := Proceed(w, a).value;
    RemoveKeeps(w, a);
    forall e: nat | e < |v.datas|
      ensures CountFor(v.datas[e].list, r) == 0
    {
      if e == d {
        RemovalClears(w.datas[d].list, r);
        RemovalCounts(w.datas[d].list, Some(r), NO_TYPE, r);
      } else {
        ElsewhereNone(w, a, r, d, e);
      }
    }
    TotalNone(v.datas, r);
    NeverNegative(v, r);
  }

  /** The scan of a queue the receiver has left finds nothing of it. */
  lemma ElsewhereUntouched(w: World, a: nat, r: nat, d: nat)
    requires Inv(w) && RemovesAll(w, a, r, d) && w.objs[r].data != d
    ensures Proceed(w, a).Some? && Proceed(w, a).value.objs[r].posted == w.objs[r].posted
  {
    AllOwn(w, a, d);
    CountPositive(w.datas[d].list, r);
    RemovalCounts(w.datas[d].list, Some(r), NO_TYPE, r);
  }

  /** The counter is zero afterwards, as asserted at src/kernel/CoreApplication.cpp:1406, if and
      only if the receiver is still in the thread that was read, or had no events. */
  lemma RemovalIff(w: World, a: nat, r: nat, d: nat)
    requires Inv(w) && RemovesAll(w, a, r, d)
    ensures Proceed(w, a).Some?
    ensures Proceed(w, a).value.objs[r].posted == 0 <==> w.objs[r].data == d || w.objs[r].posted == 0
  {
    if w.objs[r].data != d {
      ElsewhereUntouched(w, a, r, d);
    } else if Removes(w, Some(r)) {
      HereCleared(w, a, r, d);
    }
  }

  /** So it is for every object of the removing thread itself. */
  lemma OwnRemovalClears(w: World, a: nat, r: nat, d: nat)
    requires Inv(w) && RemovesAll(w, a, r, d) && d == w.actors[a].current
    ensures Proceed(w, a).Some? && Proceed(w, a).value.objs[r].posted == 0
  {
    assert Checked(w, w.actors[a]);
    RemovalIff(w, a, r, d);
  }

  // ----- an object that moves away -------------------------------------------------------

  /** The second thread wants to remove the events of an object; its owner moves it there between
      the read and the lock. */
  function Stage(i: nat): World
    requires i <= 11
  {
    var all, none, gone := [EVENT], [], [Nulled(EVENT)];
    var o1, o2 := Object(1, None, [], false, 1), Object(2, None, [], false, 1);
    var target := Some(0);
    match i
    case 0 => Scene(none, None, all, None, none, None, o1, Idle, Idle)
    case 1 => Scene(none, None, all, None, none, None, o1, Idle, RemoveReading(target, NO_TYPE, false))
    case 2 => Scene(none, None, all, None, none, None, o1, Idle, RemoveLocking(target, NO_TYPE, false, 1))
    case 3 => Scene(none, None, all, None, none, None, o1, MoveLockingFirst(0, 1, 2), RemoveLocking(target, NO_TYPE, false, 1))
    case 4 => Scene(none, None, all, Some(0), none, None, o1, MoveLockingSecond(0, 1, 2), RemoveLocking(target, NO_TYPE, false, 1))
    case 5 => Scene(none, None, all, Some(0), none, Some(0), o1, Moving(0, 1, 2, [0], false), RemoveLocking(target, NO_TYPE, false, 1))
    case 6 => Scene(none, None, gone, Some(0), all, Some(0), o1, Moving(0, 1, 2, [0], true), RemoveLocking(target, NO_TYPE, false, 1))
    case 7 => Scene(none, None, gone, Some(0), all, Some(0), o2, Moving(0, 1, 2, [], false), RemoveLocking(target, NO_TYPE, false, 1))
    case 8 => Scene(none, None, gone, None, all, None, o2, Idle, RemoveLocking(target, NO_TYPE, false, 1))
    case 9 => Scene(none, None, gone, Some(1), all, None, o2, Idle, Removing(target, NO_TYPE, false, 1))
    case 10 => Scene(none, None, gone, Some(1), all, None, o2, Idle, Unlocking(1))
    case 11 => Scene(none, None, gone, None, all, None, o2, Idle, Idle)
  }

  function StageStep(i: nat): Step {
    if i == 0 then Step(1, Remove(Some(0), NO_TYPE, false))
    else if i == 2 then Step(0, MoveTo(0, Some(2)))
    else if 3 <= i <= 7 then Step(0, Go)
    else Step(1, Go)
  }

  lemma ReadThenMove(i: nat)
    requires i < 3
    ensures StepTaken(Stage(i), StageStep(i), Stage(i + 1)) && Calm(Stage(i), StageStep(i))
  {
    var w := Stage(i);
    SceneTyped(w);
    hide Shift, RemoveFrom, Construct, Reparent, TakeEntry, SweepEntries, AddTo;
    SameWorld(Next(w, StageStep(i).actor, StageStep(i).action).value, Stage(i + 1));
  }

  lemma Locks(i: nat)
    requires 3 <= i < 5
    ensures StepTaken(Stage(i), StageStep(i), Stage(i + 1)) && Calm(Stage(i), StageStep(i))
  {
    var w := Stage(i);
    SceneTyped(w);
    hide Shift, RemoveFrom, Construct, Reparent, TakeEntry, SweepEntries, AddTo;
    SameWorld(Next(w, StageStep(i).actor, StageStep(i).action).value, Stage(i + 1));
  }

  lemma Moved(i: nat)
    requires 5 <= i < 7
    ensures StepTaken(Stage(i), StageStep(i), Stage(i + 1)) && Calm(Stage(i), StageStep(i))
  {
    var w := Stage(i);
    SceneTyped(w);
    if i == 5 {
      ShiftsTo(w, 1, 2);
    }
    assert [] + [0][1..] == [];
    hide Shift, RemoveFrom, Construct, Reparent, TakeEntry, SweepEntries, AddTo;
    SameWorld(Next(w, StageStep(i).actor, StageStep(i).action).value, Stage(i + 1));
  }

  lemma NothingFound(i: nat)
    requires 7 <= i < 11
    ensures StepTaken(Stage(i), StageStep(i), Stage(i + 1)) && Calm(Stage(i), StageStep(i))
  {
    hide PcTyped;
    var w := Stage(i);
    SceneTyped(w);
    if i == 9 {
      RemovesNothing(w);
    }
    hide Shift, RemoveFrom, Construct, Reparent, TakeEntry, SweepEntries, AddTo;
    SameWorld(Next(w, StageStep(i).actor, StageStep(i).action).value, Stage(i + 1));
  }

  /** A cleared slot does not match, so it stays, and no counter changes. */
  lemma RemovesNothing(w: World)
    requires |w.datas| == 3 && |w.objs| == 1 && w.datas[1].list == [Nulled(EVENT)]
    ensures RemoveFrom(w, 1, Some(0), NO_TYPE, false) == w
  {
    KeepAll(w.datas[1].list, Some(0), NO_TYPE);
    var v := RemoveFrom(w, 1, Some(0), NO_TYPE, false);
    assert v.datas == w.datas && v.objs == w.objs;
  }

  /** With every step calm, the scan leaves an event behind and the counter at one. */
  lemma RemovalMissed() returns (worlds: seq<World>, steps: seq<Step>)
    ensures Run(worlds, steps) && CalmRun(worlds, steps) && Inv(worlds[0]) && AllIdle(worlds[0])
    ensures |steps| == 11 && RemovesAll(worlds[9], 1, 0, 1) && steps[9] == Step(1, Go)
    ensures |worlds[10].objs| == 1 && worlds[10].objs[0].posted == 1
  {
    MovedSceneStarts();
    worlds, steps := seq(12, (i: nat) requires i <= 11 => Stage(i)), seq(11, (i: nat) => StageStep(i));
    forall i: nat | i < 11
      ensures StepTaken(worlds[i], steps[i], worlds[i + 1]) && Calm(worlds[i], steps[i])
    {
      if i < 3 {
        ReadThenMove(i);
      } else if i < 5 {
        Locks(i);
      } else if i < 7 {
        Moved(i);
      } else {
        NothingFound(i);
      }
    }
  }

  lemma MovedSceneStarts()
    ensures Inv(Stage(0))
  {
    var w := Stage(0);
    SceneTyped(w);
    assert Counted(w) by {
      assert w.datas[..2][..1][..0] == [] && w.actors[..1][..0] == [];
      assert CountFor([EVENT], 0) == 1 && CountFor([], 0) == 0 by {
        assert [] + [EVENT] == [EVENT];
        CountSnoc([], EVENT, 0);
      }
      assert TotalFor(w.datas[..1], 0) == 0;
      assert TotalFor(w.datas[..2], 0) == 1;
      assert Counting(w.actors[..1], 0) == 0;
    }
    hide Counted, Typed, CountFor;
  }
}

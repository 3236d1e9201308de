/** `moveToThread` (src/kernel/Object.cpp) lets any thread pull an object that has no thread, and
    does not look again once it has its locks: what that costs when two threads do it. */
module ThreadPulls {
  import opened Wrappers
  import opened PostEventLists
  import opened ThreadAffinity

  /** The steps after a mover's last lock, up to the object's new thread data. */
  ghost predicate MovesAlone(w: World, a: nat, w1: World, w2: World, w3: World) {
    && Typed(w) && a < |w.actors| && w.actors[a].pc.MoveLockingSecond? && Proceed(w, a) == Some(w1)
    && Typed(w1) && Proceed(w1, a) == Some(w2)
    && Typed(w2) && Proceed(w2, a) == Some(w3)
  }

  /** Where such a move leads. */
  ghost predicate Landed(w: World, a: nat, o: nat, src: nat, dst: nat, v: World) {
    && o < |w.objs| && src < |w.datas| && dst < |w.datas| && src != dst && a < |w.actors|
    && v.objs == w.objs[o := w.objs[o].(data := dst)]
    && |v.datas| == |w.datas|
    && (forall d :: 0 <= d < |w.datas| && d != src && d != dst ==> v.datas[d] == w.datas[d])
    && v.datas[src].list == NullMatching(w.datas[src].list, Some(o), NO_TYPE)
    && v.datas[dst].list == AddAll(w.datas[dst].list, w.datas[dst].insertionOffset, Matching(w.datas[src].list, Some(o), NO_TYPE))
    && |v.actors| == |w.actors| && v.actors == w.actors[a := v.actors[a]]
    && v.datas[src].holder == Some(a) && v.datas[dst].holder == Some(a)
    && v.actors[a].pc.Moving? && !v.actors[a].pc.shifted
  }

  lemma MoveLands(w: World, a: nat, w1: World, w2: World, w3: World)
    requires MovesAlone(w, a, w1, w2, w3)
    requires w.datas[Min(w.actors[a].pc.src, w.actors[a].pc.dst)].holder == Some(a)
    ensures Landed(w, a, w.actors[a].pc.o, w.actors[a].pc.src, w.actors[a].pc.dst, w3)
  {
  }

  /** The move is right if and only if the object was still in one of the two locked threads,
      or had no events. */
  lemma PullRightIff(w: World, a: nat, w1: World, w2: World, w3: World)
    requires Inv(w) && MovesAlone(w, a, w1, w2, w3)
    ensures var pc := w.actors[a].pc; var d := w.objs[pc.o].data;
      Placed(w3) <==> d == pc.src || d == pc.dst || CountFor(w.datas[d].list, pc.o) == 0
  {
    var pc := w.actors[a].pc;
    assert w.datas[Min(pc.src, pc.dst)].holder == Some(a);
    MoveLands(w, a, w1, w2, w3);
    var d := w.objs[pc.o].data;
    if d == pc.src || d == pc.dst || CountFor(w.datas[d].list, pc.o) == 0 {
      LandedPlaced(w, a, pc.o, pc.src, pc.dst, w3);
    } else {
      LandedLost(w, a, pc.o, pc.src, pc.dst, w3);
    }
  }

  /** If it was in neither, its children are left where it was. */
  lemma ChildLeft(w: World, a: nat, w1: World, w2: World, w3: World, c: nat)
    requires Inv(w) && MovesAlone(w, a, w1, w2, w3)
    requires var pc := w.actors[a].pc; var d := w.objs[pc.o].data;
      d != pc.src && d != pc.dst && c in w.objs[pc.o].children && c != pc.o && c < |w.objs| && w.objs[c].data == d
    ensures !Together(w3)
  {
    var pc := w.actors[a].pc;
    assert w.datas[Min(pc.src, pc.dst)].holder == Some(a);
    MoveLands(w, a, w1, w2, w3);
    assert w.objs[c].parent == Some(pc.o);
    LandedHolders(w, a, pc.o, pc.src, pc.dst, w3, w.objs[pc.o].data);
    NotItsTurn(w, c, pc.o);
    hide Proceed, Inv, HolderPc;
    assert !Pending(w3, c);
    assert w3.objs[c].parent == Some(pc.o) && w3.objs[c].data != w3.objs[pc.o].data;
  }

  /** A mover that still has a child to move has moved its parent already. */
  lemma NotItsTurn(w: World, c: nat, o: nat)
    requires Inv(w) && c < |w.objs| && o < |w.objs| && w.objs[c].parent == Some(o) && w.objs[c].data == w.objs[o].data
    ensures !Pending(w, c)
  {
  }

  /** Only `a` could be shifting events into the queues it has locked, and it is not. */
  lemma LandedHolders(w: World, a: nat, o: nat, src: nat, dst: nat, v: World, d: nat)
    requires Inv(w) && Landed(w, a, o, src, dst, v) && d < |w.datas|
    requires w.actors[a].pc.MoveLockingSecond? && Free(w, Max(src, dst)) && w.datas[Min(src, dst)].holder == Some(a)
    ensures d == src || d == dst ==> !HolderPc(w, d).Moving?
    ensures d != src && d != dst ==> HolderPc(v, d) == HolderPc(w, d)
  {
    assert Holds(w.actors[a].pc, d) <==> w.datas[d].holder == Some(a);
    assert d != src && d != dst ==> !Holds(w.actors[a].pc, d);
  }

  lemma LandedPlaced(w: World, a: nat, o: nat, src: nat, dst: nat, v: World)
    requires Inv(w) && Landed(w, a, o, src, dst, v)
    requires w.actors[a].pc == MoveLockingSecond(o, src, dst) && Free(w, Max(src, dst)) && w.datas[Min(src, dst)].holder == Some(a)
    requires w.objs[o].data == src || w.objs[o].data == dst || CountFor(w.datas[w.objs[o].data].list, o) == 0
    ensures Placed(v)
  {
    hide Family, Together;
    MatchingAre(w.datas[src].list, o);
    forall d, k | 0 <= d < |v.datas| && 0 <= k < |v.datas[d].list| && Live(v.datas[d].list[k])
      ensures var r := v.datas[d].list[k].receiver;
        r < |v.objs| && (v.objs[r].data == d || Shifted(v, r, d))
    {
      LandedHolders(w, a, o, src, dst, v, d);
      if d == dst {
        AddAllFrom(w.datas[dst].list, w.datas[dst].insertionOffset, Matching(w.datas[src].list, Some(o), NO_TYPE), k);
      } else if d == src {
        assert v.datas[d].list[k] == w.datas[d].list[k];
      } else {
        CountPositive(w.datas[d].list, o);
      }
    }
  }

  lemma LandedLost(w: World, a: nat, o: nat, src: nat, dst: nat, v: World)
    requires Inv(w) && Landed(w, a, o, src, dst, v)
    requires w.actors[a].pc == MoveLockingSecond(o, src, dst) && Free(w, Max(src, dst)) && w.datas[Min(src, dst)].holder == Some(a)
    requires w.objs[o].data != src && w.objs[o].data != dst && CountFor(w.datas[w.objs[o].data].list, o) > 0
    ensures !Placed(v)
  {
    var d := w.objs[o].data;
    CountPositive(w.datas[d].list, o);
    var k :| 0 <= k < |w.datas[d].list| && Live(w.datas[d].list[k]) && w.datas[d].list[k].receiver == o;
    LandedHolders(w, a, o, src, dst, v, d);
    if Shifted(v, o, d) {
      assert false;
    }
    assert v.datas[d].list[k] == w.datas[d].list[k];
  }

  /** Three thread datas, the first without a thread, one object, two threads. */
  function Scene(list0: seq<PostEvent>, holder0: Option<nat>, list1: seq<PostEvent>, holder1: Option<nat>,
                 list2: seq<PostEvent>, holder2: Option<nat>, obj: Object, pc0: Pc, pc1: Pc): World {
    World([ThreadData(false, list0, 0, holder0), ThreadData(true, list1, 0, holder1), ThreadData(true, list2, 0, holder2)],
          [obj], [Actor(1, pc0), Actor(2, pc1)], 1)
  }

  const EVENT := PostEvent(0, Some(Event(7, 100, 0)), 0, 0)

  /** Two threads pull one object that has no thread, one after the other; `Stage(i)` follows
      `Stage(i - 1)` by step `i - 1`. */
  function Stage(i: nat): World
    requires i <= 12
  {
    var all, none, gone := [EVENT], [], [Nulled(EVENT)];
    var o0, o1, o2 := Object(0, None, [], false, 1), Object(1, None, [], false, 1), Object(2, None, [], false, 1);
    match i
    case 0 => Scene(all, None, none, None, none, None, o0, Idle, Idle)
    case 1 => Scene(all, None, none, None, none, None, o0, MoveLockingFirst(0, 0, 1), Idle)
    case 2 => Scene(all, None, none, None, none, None, o0, MoveLockingFirst(0, 0, 1), MoveLockingFirst(0, 0, 2))
    case 3 => Scene(all, Some(0), none, None, none, None, o0, MoveLockingSecond(0, 0, 1), MoveLockingFirst(0, 0, 2))
    case 4 => Scene(all, Some(0), none, Some(0), none, None, o0, Moving(0, 0, 1, [0], false), MoveLockingFirst(0, 0, 2))
    case 5 => Scene(gone, Some(0), all, Some(0), none, None, o0, Moving(0, 0, 1, [0], true), MoveLockingFirst(0, 0, 2))
    case 6 => Scene(gone, Some(0), all, Some(0), none, None, o1, Moving(0, 0, 1, [], false), MoveLockingFirst(0, 0, 2))
    case 7 => Scene(gone, None, all, None, none, None, o1, Idle, MoveLockingFirst(0, 0, 2))
    case 8 => Scene(gone, Some(1), all, None, none, None, o1, Idle, MoveLockingSecond(0, 0, 2))
    case 9 => Scene(gone, Some(1), all, None, none, Some(1), o1, Idle, Moving(0, 0, 2, [0], false))
    case 10 => Scene(gone, Some(1), all, None, none, Some(1), o1, Idle, Moving(0, 0, 2, [0], true))
    case 11 => Scene(gone, Some(1), all, None, none, Some(1), o2, Idle, Moving(0, 0, 2, [], false))
    case 12 => Scene(gone, None, all, None, none, None, o2, Idle, Idle)
  }

  function StageStep(i: nat): Step {
    if i == 0 then Step(0, MoveTo(0, Some(1)))
    else if i == 1 then Step(1, MoveTo(0, Some(2)))
    else if i < 7 then Step(0, Go)
    else Step(1, Go)
  }

  ghost predicate StageGoes(i: nat)
    requires i < 12
  {
    StepTaken(Stage(i), StageStep(i), Stage(i + 1))
  }

  lemma SameWorld(v: World, w: World)
    requires |v.datas| == 3 == |w.datas| && |v.objs| == 1 == |w.objs| && |v.actors| == 2 == |w.actors| && v.clock == w.clock
    requires v.datas[0] == w.datas[0] && v.datas[1] == w.datas[1] && v.datas[2] == w.datas[2]
    requires v.objs[0] == w.objs[0] && v.actors[0] == w.actors[0] && v.actors[1] == w.actors[1]
    ensures v == w
  {
    assert v.datas == w.datas && v.objs == w.objs && v.actors == w.actors;
  }

  lemma SceneTyped(w: World)
    requires |w.datas| == 3 && |w.objs| == 1 && |w.actors| == 2 && w.datas[1].hasThread && w.datas[2].hasThread
    requires w.actors[0].current == 1 && w.actors[1].current == 2
    requires PcTyped(w.actors[0].pc, 3, 1) && PcTyped(w.actors[1].pc, 3, 1) && ObjectTyped(w.objs[0], 3, 1)
    ensures Typed(w)
  {
  }

  lemma ShiftIs(w: World, o: nat, src: nat, dst: nat, left: seq<PostEvent>, right: seq<PostEvent>)
    requires src < |w.datas| && dst < |w.datas| && src != dst
    requires NullMatching(w.datas[src].list, Some(o), NO_TYPE) == left
    requires AddAll(w.datas[dst].list, w.datas[dst].insertionOffset, Matching(w.datas[src].list, Some(o), NO_TYPE)) == right
    ensures Shift(w, o, src, dst)
         == w.(datas := w.datas[src := w.datas[src].(list := left)][dst := w.datas[dst].(list := right)])
  {
    hide NullMatching, Matching, AddAll;
  }

  /** The queues of the scene after the event has been looked for in queue `src`. */
  lemma ShiftsTo(w: World, src: nat, dst: nat)
    requires |w.datas| == 3 && src < 3 && dst < 3 && src != dst
    requires w.datas[dst].list == [] && w.datas[dst].insertionOffset == 0
    requires w.datas[src].list == [EVENT] || w.datas[src].list == [Nulled(EVENT)]
    ensures var right := if w.datas[src].list == [EVENT] then [EVENT] else [];
      Shift(w, 0, src, dst)
      == w.(datas := w.datas[src := w.datas[src].(list := [Nulled(EVENT)])][dst := w.datas[dst].(list := right)])
  {
    OneShift(EVENT);
    ShiftIs(w, 0, src, dst, [Nulled(EVENT)], if w.datas[src].list == [EVENT] then [EVENT] else []);
  }

  /** Both threads check. */
  lemma BothCheck(i: nat)
    requires i < 2
    ensures StageGoes(i)
  {
    var w := Stage(i);
    SceneTyped(w);
    hide Shift, RemoveFrom, Construct, Reparent, TakeEntry, SweepEntries, AddTo;
    SameWorld(Next(w, StageStep(i).actor, StageStep(i).action).value, Stage(i + 1));
  }

  /** The first one locks. */
  lemma FirstLocks(i: nat)
    requires 2 <= i < 4
    ensures StageGoes(i)
  {
    var w := Stage(i);
    SceneTyped(w);
    hide Shift, RemoveFrom, Construct, Reparent, TakeEntry, SweepEntries, AddTo;
    SameWorld(Next(w, StageStep(i).actor, StageStep(i).action).value, Stage(i + 1));
  }

  /** One step of a mover, whatever the world. */
  lemma ShiftStep(w: World, a: nat, src: nat, dst: nat)
    requires Typed(w) && a < |w.actors| && w.actors[a].pc == Moving(0, src, dst, [0], false)
    ensures src < |w.datas| && dst < |w.datas|
    ensures Next(w, a, Go) == Some(Goto(Shift(w, 0, src, dst), a, Moving(0, src, dst, [0], true)))
  {
    hide Shift;
  }

  /** The first pull takes the event along. */
  lemma FirstShift()
    ensures StageGoes(4)
  {
    hide Next, Shift, Typed;
    var w := Stage(4);
    SceneTyped(w);
    ShiftsTo(w, 0, 1);
    ShiftStep(w, 0, 0, 1);
    SameWorld(Goto(Shift(w, 0, 0, 1), 0, Moving(0, 0, 1, [0], true)), Stage(5));
  }

  /** The object has its new thread. */
  lemma FirstSet()
    ensures StageGoes(5)
  {
    var w := Stage(5);
    SceneTyped(w);
    assert [] + [0][1..] == [];
    hide Shift, RemoveFrom, Construct, Reparent, TakeEntry, SweepEntries, AddTo;
    SameWorld(Next(w, StageStep(5).actor, StageStep(5).action).value, Stage(6));
  }

  /** It gives its locks back. */
  lemma FirstEnds()
    ensures StageGoes(6)
  {
    var w := Stage(6);
    SceneTyped(w);
    hide Shift, RemoveFrom, Construct, Reparent, TakeEntry, SweepEntries, AddTo;
    SameWorld(Next(w, StageStep(6).actor, StageStep(6).action).value, Stage(7));
  }

  /** The second pull gets its locks. */
  lemma SecondLocks(i: nat)
    requires 7 <= i < 9
    ensures StageGoes(i)
  {
    var w := Stage(i);
    SceneTyped(w);
    hide Shift, RemoveFrom, Construct, Reparent, TakeEntry, SweepEntries, AddTo;
    SameWorld(Next(w, StageStep(i).actor, StageStep(i).action).value, Stage(i + 1));
  }

  /** It takes what is left in the queue where the object was. */
  lemma SecondShift()
    ensures StageGoes(9)
  {
    var w := Stage(9);
    SceneTyped(w);
    ShiftsTo(w, 0, 2);
    ShiftStep(w, 1, 0, 2);
    hide Next, Shift, Typed;
    SameWorld(Goto(Shift(w, 0, 0, 2), 1, Moving(0, 0, 2, [0], true)), Stage(10));
  }

  /** The object has another new thread. */
  lemma SecondSet()
    ensures StageGoes(10)
  {
    var w := Stage(10);
    SceneTyped(w);
    assert [] + [0][1..] == [];
    hide Shift, RemoveFrom, Construct, Reparent, TakeEntry, SweepEntries, AddTo;
    SameWorld(Next(w, StageStep(10).actor, StageStep(10).action).value, Stage(11));
  }

  /** So does the second one. */
  lemma SecondEnds()
    ensures StageGoes(11)
  {
    var w := Stage(11);
    SceneTyped(w);
    hide Shift, RemoveFrom, Construct, Reparent, TakeEntry, SweepEntries, AddTo;
    SameWorld(Next(w, StageStep(11).actor, StageStep(11).action).value, Stage(12));
  }

  lemma Misplaced(w: World)
    requires |w.datas| == 3 && |w.objs| == 1 && |w.datas[1].list| == 1 && Live(w.datas[1].list[0])
    requires w.datas[1].list[0].receiver == 0 && w.objs[0].data == 2 && w.datas[1].holder == None
    ensures !Placed(w)
  {
    assert !Shifted(w, 0, 1);
  }

  lemma OneNotCalm(i: nat)
    requires i < 12 && Typed(Stage(i))
    ensures Calm(Stage(i), StageStep(i)) <==> i != 1
  {
    hide Typed;
    if i == 0 {
      assert Stage(0).actors[1].pc == Idle;
    } else if i == 1 {
      assert Moves(Stage(1).actors[0].pc, 0);
    }
  }

  /** The second pull leaves the event of the object in the queue of the first thread; the one
      step that was not calm is where it began. */
  lemma TwoPulls() returns (worlds: seq<World>, steps: seq<Step>)
    ensures Run(worlds, steps) && Inv(worlds[0]) && AllIdle(worlds[0])
    ensures forall i :: 0 <= i < |steps| ==> StepTaken(worlds[i], steps[i], worlds[i + 1]) && (Calm(worlds[i], steps[i]) <==> i != 1)
    ensures AllIdle(worlds[|steps|]) && !Placed(worlds[|steps|])
  {
    SceneStarts(EVENT);
    worlds, steps := seq(13, (i: nat) requires i <= 12 => Stage(i)), seq(12, (i: nat) => StageStep(i));
    forall i: nat | i < 12
      ensures StepTaken(worlds[i], steps[i], worlds[i + 1]) && (Calm(worlds[i], steps[i]) <==> i != 1)
    {
      if i < 2 {
        BothCheck(i);
      } else if i < 4 {
        FirstLocks(i);
      } else if i == 4 {
        FirstShift();
      } else if i == 5 {
        FirstSet();
      } else if i == 6 {
        FirstEnds();
      } else if i < 9 {
        SecondLocks(i);
      } else if i == 9 {
        SecondShift();
      } else if i == 10 {
        SecondSet();
      } else {
        SecondEnds();
      }
      OneNotCalm(i);
    }
    Misplaced(Stage(12));
  }

  lemma SceneStarts(pe: PostEvent)
    requires pe.receiver == 0 && Live(pe)
    ensures Inv(Scene([pe], None, [], None, [], None, Object(0, None, [], false, 1), Idle, Idle))
  {
    var w := Scene([pe], None, [], None, [], None, Object(0, None, [], false, 1), Idle, Idle);
    SceneTyped(w);
    assert Counted(w) by {
      assert w.datas[..2][..1][..0] == [] && w.actors[..1][..0] == [];
      assert CountFor([pe], 0) == 1 && CountFor([], 0) == 0;
      assert TotalFor(w.datas[..1], 0) == 1;
      assert TotalFor(w.datas[..2], 0) == 1;
      assert Counting(w.actors[..1], 0) == 0;
    }
    hide Counted, Typed, CountFor;
  }

  lemma OneShift(pe: PostEvent)
    requires pe.receiver == 0 && Live(pe)
    ensures NullMatching([pe], Some(0), NO_TYPE) == [Nulled(pe)] && AddAll([], 0, Matching([pe], Some(0), NO_TYPE)) == [pe]
    ensures NullMatching([Nulled(pe)], Some(0), NO_TYPE) == [Nulled(pe)]
    ensures AddAll([], 0, Matching([Nulled(pe)], Some(0), NO_TYPE)) == []
  {
    assert [pe][..0] == [] && [Nulled(pe)][..0] == [];
    assert AddAll([], 0, [pe][..0]) == [];
  }
}

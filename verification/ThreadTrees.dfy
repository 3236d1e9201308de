/** What single calls of other threads come to in `ThreadAffinity`: setting a parent, building an
    object, beginning a move, and what a move has done when it ends (src/kernel/Object.cpp). */
module ThreadTrees {
  import opened Wrappers
  import opened PostEventLists
  import opened ThreadAffinity

  /** `setParent` by the thread the object lives in. */
  lemma SetParentDoes(w: World, a: nat, o: nat, parent: Option<nat>)
    requires Inv(w) && Next(w, a, SetParent(o, parent)).Some?
    ensures var v := Next(w, a, SetParent(o, parent)).value;
      && v == w.(objs := v.objs) && OnlyTree(w.objs, v.objs, o)
      && if parent == w.objs[o].parent then v == w
         else if parent.Some? && w.objs[o].data == w.objs[parent.value].data
         then v.objs[o].parent == parent && ChildrenSet(w.objs, v.objs, o, parent)
         else v.objs[o].parent == None && ChildrenSet(w.objs, v.objs, o, None)
  {
    hide Counted, Placed, Together, Locked, Typed, OnTheWay, Checked, Family, ChildrenSet, OnlyTree, Reparent;
    ReparentFamily(w.objs, o, parent);
  }

  lemma NobodysChild(w: World, data: nat, isWidget: bool)
    requires Inv(w) && data < |w.datas|
    ensures Family(WithObject(w, data, isWidget).objs)
    ensures ChildOfOnly(WithObject(w, data, isWidget).objs, |w.objs|, None)
  {
    WithObjectKeeps(w, data, isWidget);
    hide Inv, NoRepeats;
  }

  /** A new object lives in its parent's thread data if that has no thread, else in the thread that
      builds it.  It gets the parent, and becomes its last child, exactly if it lives where the
      parent does. */
  lemma NewObjectDoes(w: World, a: nat, parent: Option<nat>, isWidget: bool)
    requires Inv(w) && Next(w, a, NewObject(parent, isWidget)).Some?
    ensures var v, n := Next(w, a, NewObject(parent, isWidget)).value, |w.objs|;
      && v == w.(objs := v.objs) && |v.objs| == n + 1
      && v.objs[n].data == (if parent.Some? && !w.datas[w.objs[parent.value].data].hasThread
                            then w.objs[parent.value].data else w.actors[a].current)
      && v.objs[n].parent == (if parent.Some? && w.objs[parent.value].data == v.objs[n].data then parent else None)
      && ChildOfOnly(v.objs, n, v.objs[n].parent)
      && v.objs[n].children == [] && v.objs[n].posted == 0 && v.objs[n].isWidget == isWidget
      && forall q :: 0 <= q < n ==>
           v.objs[q] == w.objs[q].(children := if v.objs[n].parent == Some(q) then w.objs[q].children + [n] else w.objs[q].children)
  {
    hide Counted, Placed, Together, Locked, OnTheWay, Checked, Family, ChildOfOnly;
    var n := |w.objs|;
    var data := if parent.Some? && !w.datas[w.objs[parent.value].data].hasThread then w.objs[parent.value].data else w.actors[a].current;
    NobodysChild(w, data, isWidget);
    var objs := WithObject(w, data, isWidget).objs;
    if parent.Some? && w.objs[parent.value].data == data {
      ReparentFamily(objs, n, parent);
    }
  }

  /** `moveToThread` gets as far as its locks exactly if the object is not there already, has no
      parent, is no widget, and lives in the calling thread or is pulled into it out of none. */
  lemma MoveStartsIff(w: World, a: nat, o: nat, target: Option<nat>)
    requires Inv(w) && Next(w, a, MoveTo(o, target)).Some?
    ensures var v, data, current := Next(w, a, MoveTo(o, target)).value, w.objs[o].data, w.actors[a].current;
      if && (if target.Some? then data != target.value else w.datas[data].hasThread)
         && w.objs[o].parent == None && !w.objs[o].isWidget
         && (data == current || (!w.datas[data].hasThread && target == Some(current)))
      then
        && v.actors == w.actors[a := w.actors[a].(pc := MoveLockingFirst(o, data, if target.Some? then target.value else |w.datas|))]
        && v.objs == w.objs && v.clock == w.clock
        && v.datas == if target.Some? then w.datas else w.datas + [ThreadData(false, [], 0, None)]
      else v == w
  {
    hide Counted, Placed, Together, Locked, OnTheWay, Checked, Family;
  }

  /** `x` is `n` generations below `o`. */
  predicate Below(objs: seq<Object>, x: nat, o: nat, n: nat)
    decreases n
  {
    x < |objs| && if n == 0 then x == o else objs[x].parent.Some? && Below(objs, objs[x].parent.value, o, n - 1)
  }

  /** A mover with nothing left to do is not in the middle of anything. */
  lemma NothingPending(w: World, a: nat, x: nat)
    requires Inv(w) && a < |w.actors| && w.actors[a].pc.Moving? && w.actors[a].pc.todo == []
    requires x < |w.objs|
    ensures w.objs[x].data == w.actors[a].pc.dst ==> forall d :: 0 <= d < |w.datas| ==> !Shifted(w, x, d)
    ensures w.objs[x].parent.Some? && w.objs[x].parent.value < |w.objs| && w.objs[w.objs[x].parent.value].data == w.actors[a].pc.dst ==>
      w.objs[x].data == w.actors[a].pc.dst
  {
    hide Counted, Placed, Family;
    var dst := w.actors[a].pc.dst;
    assert Holds(w.actors[a].pc, dst);
    forall b | 0 <= b < |w.actors| && w.actors[b].pc.Moving? && x in w.actors[b].pc.todo
      ensures w.objs[x].data != dst
      ensures w.objs[x].parent.Some? ==> w.objs[w.objs[x].parent.value].data != dst
    {
      assert OnTheWay(w, w.actors[b].pc);
      assert b != a;
      if w.objs[x].data == dst || (w.objs[x].parent.Some? && w.objs[w.objs[x].parent.value].data == dst) {
        OneHolder(w, a, b, dst);
        assert false;
      }
    }
  }

  lemma {:induction false} TreeArrived(w: World, a: nat, x: nat, n: nat)
    requires Inv(w) && a < |w.actors| && w.actors[a].pc.Moving? && w.actors[a].pc.todo == []
    requires Below(w.objs, x, w.actors[a].pc.o, n)
    ensures w.objs[x].data == w.actors[a].pc.dst
    decreases n
  {
    hide Counted, Placed, Together, Family, Locked, Checked, NoRepeats, ObjectTyped, PcTyped;
    if n == 0 {
      assert OnTheWay(w, w.actors[a].pc);
    } else {
      TreeArrived(w, a, w.objs[x].parent.value, n - 1);
      NothingPending(w, a, x);
    }
  }

  /** When a move ends, the object and everything below it live in the target thread, and so do
      all their events: each live entry for one of them is in the target's queue. */
  lemma MoveArrives(w: World, a: nat, x: nat, n: nat)
    requires Inv(w) && a < |w.actors| && w.actors[a].pc.Moving? && Next(w, a, Go).Some?
    requires !Next(w, a, Go).value.actors[a].pc.Moving?
    requires Below(w.objs, x, w.actors[a].pc.o, n)
    ensures var v, dst := Next(w, a, Go).value, w.actors[a].pc.dst;
      && v.objs == w.objs && v.objs[x].data == dst
      && forall d, k :: 0 <= d < |v.datas| && 0 <= k < |v.datas[d].list| && Live(v.datas[d].list[k]) && v.datas[d].list[k].receiver == x ==>
           d == dst
  {
    TreeArrived(w, a, x, n);
    NothingPending(w, a, x);
    hide Counted, Together, Family, OnTheWay, Checked, Locked;
    var v := Next(w, a, Go).value;
    assert forall d :: 0 <= d < |v.datas| ==> v.datas[d].list == w.datas[d].list;
  }

  /** A thread that goes from adding an event to counting it has put it, with its priority, into
      the queue of the thread the receiver lives in, and has done nothing else. */
  lemma PostArrives(w: World, a: nat)
    requires Inv(w) && a < |w.actors| && w.actors[a].pc.PostAdding? && Next(w, a, Go).Some?
    ensures var v, pc := Next(w, a, Go).value, w.actors[a].pc;
      var d := w.objs[pc.r].data;
      && v.objs == w.objs && v.actors == w.actors[a := w.actors[a].(pc := PostCounting(pc.r, d))]
      && |v.datas| == |w.datas|
      && (forall q :: 0 <= q < |w.datas| && q != d ==> v.datas[q] == w.datas[q])
      && v.datas[d] == w.datas[d].(list := v.datas[d].list)
      && exists k :: 0 <= k <= |w.datas[d].list|
           && v.datas[d].list == w.datas[d].list[..k] + [PostEvent(pc.r, Some(pc.e), pc.priority, w.clock)] + w.datas[d].list[k..]
  {
    hide Counted, Placed, Together, Locked, Family;
    assert Checked(w, w.actors[a]);
    var d := w.objs[w.actors[a].pc.r].data;
    var k := AddPosition(w.datas[d].list, w.datas[d].insertionOffset, w.actors[a].pc.priority);
  }

  /** And counting it counts it once, for its receiver. */
  lemma PostCounts(w: World, a: nat)
    requires Inv(w) && a < |w.actors| && w.actors[a].pc.PostCounting? && Next(w, a, Go).Some?
    ensures var v, r := Next(w, a, Go).value, w.actors[a].pc.r;
      && v.datas == w.datas && |v.objs| == |w.objs| && v.objs[r] == w.objs[r].(posted := w.objs[r].posted + 1)
      && forall x :: 0 <= x < |w.objs| && x != r ==> v.objs[x] == w.objs[x]
  {
    hide Counted, Placed, Together, Locked, Family, OnTheWay, Checked;
  }

  /** An event is delivered by the thread that its receiver lives in, out of that thread's queue,
      and uncounted. */
  lemma DeliveredAtHome(w: World, a: nat, k: nat)
    requires Inv(w) && Next(w, a, Take(k)).Some?
    ensures var v, d := Next(w, a, Take(k)).value, w.actors[a].current;
      && k < |w.datas[d].list| && Live(w.datas[d].list[k])
      && var r := w.datas[d].list[k].receiver;
      && r < |w.objs| && w.objs[r].data == d
      && v.datas == w.datas[d := w.datas[d].(list := w.datas[d].list[k := w.datas[d].list[k].(event := None)])]
      && v.objs == w.objs[r := w.objs[r].(posted := w.objs[r].posted - 1)]
      && v.actors == w.actors
  {
    hide Counted, Together, Family, OnTheWay;
    assert Checked(w, w.actors[a]);
    var d := w.actors[a].pc.data;
    assert Holds(w.actors[a].pc, d);
    assert w.datas[d].holder == Some(a);
    assert !Shifted(w, w.datas[d].list[k].receiver, d);
  }
}

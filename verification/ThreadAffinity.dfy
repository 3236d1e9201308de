/** Thread affinity: `postEvent`'s lock-and-recheck loop (src/kernel/CoreApplication.cpp)
    against `moveToThread`, `setParent` and object construction (src/kernel/Object.cpp), as an
    interleaving of the steps other threads can see. */
module ThreadAffinity {
  import opened Wrappers
  import opened PostEventLists

  // ----- state ---------------------------------------------------------------------------

  /** `hasThread` is `m_thread != nullptr`; `holder` is the thread that holds `m_mutex`. */
  datatype ThreadData = ThreadData(hasThread: bool, list: seq<PostEvent>, insertionOffset: nat, holder: Option<nat>)

  /** An object; `data` is the index of its `m_threadData`. */
  datatype Object = Object(data: nat, parent: Option<nat>, children: seq<nat>, isWidget: bool, posted: int)

  /** Where a running thread is. */
  datatype Pc =
    | Idle
    | PostReading(r: nat, e: Event, priority: int)
    | PostLocking(r: nat, e: Event, priority: int, data: nat)
    | PostChecking(r: nat, e: Event, priority: int, data: nat)
    | PostRetrying(r: nat, e: Event, priority: int, data: nat)
    | PostAdding(r: nat, e: Event, priority: int, data: nat)
    | PostCounting(r: nat, data: nat)
    | Unlocking(data: nat)
    | RemoveReading(target: Option<nat>, kind: int, inPlace: bool)
    | RemoveLocking(target: Option<nat>, kind: int, inPlace: bool, data: nat)
    | Removing(target: Option<nat>, kind: int, inPlace: bool, data: nat)
    | MoveLockingFirst(o: nat, src: nat, dst: nat)
    | MoveLockingSecond(o: nat, src: nat, dst: nat)
    | Moving(o: nat, src: nat, dst: nat, todo: seq<nat>, shifted: bool)
    | DispatchLocking(data: nat)
    | Dispatching(data: nat)

  /** `current` is the index of `ThreadData::current()`. */
  datatype Actor = Actor(current: nat, pc: Pc)

  datatype World = World(datas: seq<ThreadData>, objs: seq<Object>, actors: seq<Actor>, clock: nat)

  datatype Action =
    | Post(r: nat, e: Event, priority: int)
    | MoveTo(o: nat, target: Option<nat>)
    | SetParent(o: nat, parent: Option<nat>)
    | NewObject(parent: Option<nat>, isWidget: bool)
    | Dispatch
    | Go
    | Compress
    | Take(k: nat)
    | Sweep(n: nat)
    | Remove(target: Option<nat>, kind: int, inPlace: bool)

  function Min(a: nat, b: nat): nat { if a < b then a else b }

  function Max(a: nat, b: nat): nat { if a < b then b else a }

  /** The mutexes a thread holds at each point of its code. */
  predicate Holds(pc: Pc, d: nat) {
    match pc
    case PostChecking(_, _, _, data) => d == data
    case PostRetrying(_, _, _, data) => d == data
    case PostAdding(_, _, _, data) => d == data
    case PostCounting(_, data) => d == data
    case Unlocking(data) => d == data
    case Removing(_, _, _, data) => d == data
    case Dispatching(data) => d == data
    case MoveLockingSecond(_, src, dst) => d == Min(src, dst)
    case Moving(_, src, dst, _, _) => d == src || d == dst
    case _ => false
  }

  /** The mutex it is about to lock. */
  function Wants(pc: Pc): Option<nat> {
    match pc
    case PostLocking(_, _, _, data) => Some(data)
    case DispatchLocking(data) => Some(data)
    case RemoveLocking(_, _, _, data) => Some(data)
    case MoveLockingFirst(_, src, dst) => Some(Min(src, dst))
    case MoveLockingSecond(_, src, dst) => Some(Max(src, dst))
    case _ => None
  }

  // ----- updates -------------------------------------------------------------------------

  function Goto(w: World, a: nat, pc: Pc): World
    requires a < |w.actors|
  {
    w.(actors := w.actors[a := w.actors[a].(pc := pc)])
  }

  function Lock(w: World, a: nat, d: nat, pc: Pc): World
    requires a < |w.actors| && d < |w.datas|
  {
    Goto(w.(datas := w.datas[d := w.datas[d].(holder := Some(a))]), a, pc)
  }

  function Unlock(w: World, a: nat, d: nat, pc: Pc): World
    requires a < |w.actors| && d < |w.datas|
  {
    Goto(w.(datas := w.datas[d := w.datas[d].(holder := None)]), a, pc)
  }

  /** `addEvent` of every entry of `entries`, in order. */
  function AddAll(list: seq<PostEvent>, insertionOffset: nat, entries: seq<PostEvent>): seq<PostEvent> {
    if entries == [] then list
    else AddEvent(AddAll(list, insertionOffset, entries[..|entries| - 1]), insertionOffset, entries[|entries| - 1])
  }

  /** The first half of `setThreadDataHelper`: the live entries of `o` change queues. */
  function Shift(w: World, o: nat, src: nat, dst: nat): World
    requires src < |w.datas| && dst < |w.datas|
  {
    var moved := Matching(w.datas[src].list, Some(o), NO_TYPE);
    var source := w.datas[src].(list := NullMatching(w.datas[src].list, Some(o), NO_TYPE));
    var target := w.datas[dst].(list := AddAll(w.datas[dst].list, w.datas[dst].insertionOffset, moved));
    w.(datas := w.datas[src := source][dst := target])
  }

  function Without(list: seq<nat>, o: nat): seq<nat> {
    if list == [] then []
    else if list[0] == o then list[1..]
    else [list[0]] + Without(list[1..], o)
  }

  /** `o` leaves its parent. */
  function Detach(objs: seq<Object>, o: nat): (after: seq<Object>)
    requires o < |objs| && (objs[o].parent.Some? ==> objs[o].parent.value < |objs|)
    ensures |after| == |objs|
  {
    match objs[o].parent
    case None => objs
    case Some(p) =>
      var left := objs[p := objs[p].(children := Without(objs[p].children, o))];
      left[o := left[o].(parent := None)]
  }

  function Attach(objs: seq<Object>, o: nat, p: nat): (after: seq<Object>)
    requires o < |objs| && p < |objs|
    ensures |after| == |objs|
  {
    var child := objs[o := objs[o].(parent := Some(p))];
    child[p := child[p].(children := child[p].children + [o])]
  }

  /** `setParentHelper`: a parent in another thread is refused, and the old one is left. */
  function Reparent(objs: seq<Object>, o: nat, parent: Option<nat>): (after: seq<Object>)
    requires o < |objs| && (parent.Some? ==> parent.value < |objs|)
    requires objs[o].parent.Some? ==> objs[o].parent.value < |objs|
    ensures |after| == |objs|
  {
    if parent == objs[o].parent then objs
    else
      var left := Detach(objs, o);
      if parent.Some? && objs[o].data == objs[parent.value].data then Attach(left, o, parent.value) else left
  }

  /** The constructors' choice of thread data, and `check_parent_thread`. */
  function Construct(w: World, a: nat, parent: Option<nat>, isWidget: bool): World
    requires a < |w.actors|
    requires parent.Some? ==> parent.value < |w.objs| && w.objs[parent.value].data < |w.datas|
  {
    var current := w.actors[a].current;
    var data := if parent.Some? && !w.datas[w.objs[parent.value].data].hasThread then w.objs[parent.value].data else current;
    var objs := w.objs + [Object(data, None, [], isWidget, 0)];
    if parent.Some? && w.objs[parent.value].data == data
    then w.(objs := Reparent(objs, |w.objs|, parent))
    else w.(objs := objs)
  }

  // ----- one step ------------------------------------------------------------------------

  /** `moveToThread` up to the point where it wants the locks. */
  function StartMove(w: World, a: nat, o: nat, target: Option<nat>): World
    requires a < |w.actors| && o < |w.objs| && w.objs[o].data < |w.datas|
  {
    var data, current := w.objs[o].data, w.actors[a].current;
    var here := if target.Some? then w.datas[data].hasThread && data == target.value else !w.datas[data].hasThread;
    if here || w.objs[o].parent.Some? || w.objs[o].isWidget then w
    else
      var pull := !w.datas[data].hasThread && target == Some(current);
      if !pull && data != current then w
      else if target.Some? then Goto(w, a, MoveLockingFirst(o, data, target.value))
      else Goto(w.(datas := w.datas + [ThreadData(false, [], 0, None)]), a, MoveLockingFirst(o, data, |w.datas|))
  }

  predicate Free(w: World, d: nat) {
    d < |w.datas| && w.datas[d].holder == None
  }

  /** The next step of the code a thread is in; `None` while it must wait for a mutex. */
  function Proceed(w: World, a: nat): Option<World>
    requires a < |w.actors| && Typed(w)
  {
    match w.actors[a].pc
    case PostReading(r, e, priority) => Some(Goto(w, a, PostLocking(r, e, priority, w.objs[r].data)))
    case PostLocking(r, e, priority, data) =>
      if Free(w, data) then Some(Lock(w, a, data, PostChecking(r, e, priority, data))) else None
    case PostChecking(r, e, priority, data) =>
      if w.objs[r].data == data then Some(Goto(w, a, PostAdding(r, e, priority, data)))
      else Some(Goto(w, a, PostRetrying(r, e, priority, data)))
    case PostRetrying(r, e, priority, data) => Some(Unlock(w, a, data, PostReading(r, e, priority)))
    case PostAdding(r, e, priority, data) => Some(Goto(AddTo(w, data, PostEvent(r, Some(e), priority, w.clock)), a, PostCounting(r, data)))
    case PostCounting(r, data) =>
      Some(Goto(w.(objs := w.objs[r := w.objs[r].(posted := w.objs[r].posted + 1)]), a, Unlocking(data)))
    case Unlocking(data) => Some(Unlock(w, a, data, Idle))
    case RemoveReading(target, kind, inPlace) =>
      var data := if target.Some? then w.objs[target.value].data else w.actors[a].current;
      Some(Goto(w, a, RemoveLocking(target, kind, inPlace, data)))
    case RemoveLocking(target, kind, inPlace, data) =>
      if Free(w, data) then Some(Lock(w, a, data, Removing(target, kind, inPlace, data))) else None
    case Removing(target, kind, inPlace, data) =>
      Some(Goto(if Removes(w, target) then RemoveFrom(w, data, target, kind, inPlace) else w, a, Unlocking(data)))
    case MoveLockingFirst(o, src, dst) =>
      if Free(w, Min(src, dst)) then Some(Lock(w, a, Min(src, dst), MoveLockingSecond(o, src, dst))) else None
    case MoveLockingSecond(o, src, dst) =>
      if Free(w, Max(src, dst)) then Some(Lock(w, a, Max(src, dst), Moving(o, src, dst, [o], false))) else None
    case Moving(o, src, dst, todo, shifted) =>
      if todo == [] then Some(Unlock(Unlock(w, a, src, Idle), a, dst, Idle))
      else if !shifted then Some(Goto(Shift(w, todo[0], src, dst), a, Moving(o, src, dst, todo, true)))
      else assert todo[0] in todo; Some(Goto(SetThreadData(w, todo[0], dst), a, Moving(o, src, dst, w.objs[todo[0]].children + todo[1..], false)))
    case DispatchLocking(data) => if Free(w, data) then Some(Lock(w, a, data, Dispatching(data))) else None
    case Dispatching(data) => Some(Unlock(w, a, data, Idle))
    case Idle => None
  }

  function AddTo(w: World, d: nat, pe: PostEvent): World
    requires d < |w.datas|
  {
    w.(datas := w.datas[d := w.datas[d].(list := AddEvent(w.datas[d].list, w.datas[d].insertionOffset, pe))],
       clock := w.clock + 1)
  }

  function SetThreadData(w: World, o: nat, dst: nat): World
    requires o < |w.objs|
  {
    w.(objs := w.objs[o := w.objs[o].(data := dst)])
  }

  /** Delivery or removal of one entry by the thread that owns the queue. */
  function TakeEntry(w: World, d: nat, k: nat): World
    requires d < |w.datas| && k < |w.datas[d].list| && w.datas[d].list[k].receiver < |w.objs|
  {
    var r := w.datas[d].list[k].receiver;
    w.(datas := w.datas[d := w.datas[d].(list := w.datas[d].list[k := Nulled(w.datas[d].list[k])])],
       objs := w.objs[r := w.objs[r].(posted := w.objs[r].posted - 1)])
  }

  /** `removePostedEvents` goes on to look at the queue unless the receiver has no posted events. */
  predicate Removes(w: World, target: Option<nat>) {
    target.Some? && target.value < |w.objs| ==> w.objs[target.value].posted != 0
  }

  /** Removal of the matching entries of queue `d`, whosever they are. */
  function RemoveFrom(w: World, d: nat, target: Option<nat>, kind: int, inPlace: bool): World
    requires d < |w.datas|
  {
    var list := w.datas[d].list;
    var gone := Matching(list, target, kind);
    w.(datas := w.datas[d := w.datas[d].(list := if inPlace then NullMatching(list, target, kind) else Keep(list, target, kind))],
       objs := seq(|w.objs|, r requires 0 <= r < |w.objs| => w.objs[r].(posted := w.objs[r].posted - CountFor(gone, r))))
  }

  /** Erasing delivered entries at the front, as the clean-up of a send does. */
  function SweepEntries(w: World, d: nat, n: nat): World
    requires d < |w.datas| && n <= |w.datas[d].list|
  {
    var data := w.datas[d];
    w.(datas := w.datas[d := data.(list := data.list[n..],
                                   insertionOffset := if data.insertionOffset < n then 0 else data.insertionOffset - n)])
  }

  /** The thread runs user code: it is between two calls, or in the ThreadChange handlers that
      `moveToThread` runs before its first lock. */
  predicate InUserCode(pc: Pc) {
    pc.Idle? || pc.MoveLockingFirst?
  }

  /** One step of thread `a`; `None` if it cannot make this one now.  Only a thread the object
      lives in may change its parent, as the class documentation demands. */
  function Next(w: World, a: nat, action: Action): Option<World>
    requires Typed(w)
  {
    if a >= |w.actors| then None
    else
      var pc, current := w.actors[a].pc, w.actors[a].current;
      match action
      case Post(r, e, priority) =>
        if pc == Idle && r < |w.objs| then Some(Goto(w, a, PostReading(r, e, priority))) else None
      case MoveTo(o, target) =>
        if pc == Idle && o < |w.objs| && (target.Some? ==> target.value < |w.datas| && w.datas[target.value].hasThread)
        then Some(StartMove(w, a, o, target)) else None
      case SetParent(o, parent) =>
        if InUserCode(pc) && o < |w.objs| && w.objs[o].data == current && (parent.Some? ==> parent.value < |w.objs|)
        then Some(w.(objs := Reparent(w.objs, o, parent))) else None
      case NewObject(parent, isWidget) =>
        if InUserCode(pc) && (parent.Some? ==> parent.value < |w.objs|) then Some(Construct(w, a, parent, isWidget)) else None
      case Dispatch => if pc == Idle then Some(Goto(w, a, DispatchLocking(current))) else None
      case Remove(target, kind, inPlace) =>
        if pc == Idle && (target.Some? ==> target.value < |w.objs|) then Some(Goto(w, a, RemoveReading(target, kind, inPlace))) else None
      case Go => Proceed(w, a)
      case Compress => if pc.PostAdding? then Some(Goto(w, a, Unlocking(pc.data))) else None
      case Take(k) =>
        if pc.Dispatching? && k < |w.datas[pc.data].list| && Live(w.datas[pc.data].list[k])
           && w.datas[pc.data].list[k].receiver < |w.objs|
        then Some(TakeEntry(w, pc.data, k)) else None
      case Sweep(n) =>
        if pc.Dispatching? && n <= |w.datas[pc.data].list| && (forall k :: 0 <= k < n ==> !Live(w.datas[pc.data].list[k]))
        then Some(SweepEntries(w, pc.data, n)) else None
  }

  // ----- invariants ----------------------------------------------------------------------

  predicate PcTyped(pc: Pc, datas: nat, objs: nat) {
    match pc
    case Idle => true
    case PostReading(r, _, _) => r < objs
    case PostLocking(r, _, _, data) => r < objs && data < datas
    case PostChecking(r, _, _, data) => r < objs && data < datas
    case PostRetrying(r, _, _, data) => r < objs && data < datas
    case PostAdding(r, _, _, data) => r < objs && data < datas
    case PostCounting(r, data) => r < objs && data < datas
    case Unlocking(data) => data < datas
    case RemoveReading(target, _, _) => target.Some? ==> target.value < objs
    case RemoveLocking(target, _, _, data) => data < datas && (target.Some? ==> target.value < objs)
    case Removing(target, _, _, data) => data < datas && (target.Some? ==> target.value < objs)
    case MoveLockingFirst(o, src, dst) => o < objs && src < datas && dst < datas && src != dst
    case MoveLockingSecond(o, src, dst) => o < objs && src < datas && dst < datas && src != dst
    case Moving(o, src, dst, todo, _) => o < objs && src < datas && dst < datas && src != dst && forall x :: x in todo ==> x < objs
    case DispatchLocking(data) => data < datas
    case Dispatching(data) => data < datas
  }

  predicate ObjectTyped(obj: Object, datas: nat, objs: nat) {
    obj.data < datas && (obj.parent.Some? ==> obj.parent.value < objs) && forall c :: c in obj.children ==> c < objs
  }

  /** Indices are in range; every running thread has thread data of its own. */
  predicate Typed(w: World) {
    && (forall a :: 0 <= a < |w.actors| ==> PcTyped(w.actors[a].pc, |w.datas|, |w.objs|))
    && (forall a :: 0 <= a < |w.actors| ==> w.actors[a].current < |w.datas| && w.datas[w.actors[a].current].hasThread)
    && (forall a, b :: 0 <= a < b < |w.actors| ==> w.actors[a].current != w.actors[b].current)
    && (forall o :: 0 <= o < |w.objs| ==> ObjectTyped(w.objs[o], |w.datas|, |w.objs|))
  }

  /** `holder` says who holds each mutex, and nobody else believes to. */
  ghost predicate Locked(w: World) {
    && (forall d :: 0 <= d < |w.datas| && w.datas[d].holder.Some? ==> w.datas[d].holder.value < |w.actors|)
    && (forall d, a :: 0 <= d < |w.datas| && 0 <= a < |w.actors| ==>
        (Holds(w.actors[a].pc, d) <==> w.datas[d].holder == Some(a)))
  }

  ghost predicate NoRepeats(list: seq<nat>) {
    forall i, j :: 0 <= i < j < |list| ==> list[i] != list[j]
  }

  /** Children and parents agree. */
  ghost predicate Family(objs: seq<Object>) {
    && (forall o :: 0 <= o < |objs| ==> NoRepeats(objs[o].children))
    && (forall o :: 0 <= o < |objs| && objs[o].parent.Some? ==>
        objs[o].parent.value < |objs| && o in objs[objs[o].parent.value].children)
    && (forall p, c {:trigger c in objs[p].children} :: 0 <= p < |objs| && c in objs[p].children ==> c < |objs| && objs[c].parent == Some(p))
  }

  /** What the thread that holds the mutex of `d` is doing. */
  function HolderPc(w: World, d: nat): Pc {
    if d < |w.datas| && w.datas[d].holder.Some? && w.datas[d].holder.value < |w.actors|
    then w.actors[w.datas[d].holder.value].pc
    else Idle
  }

  /** `o` is part of a tree on the move and its turn is still to come. */
  predicate Pending(w: World, o: nat)
    requires o < |w.objs|
  {
    var pc := HolderPc(w, w.objs[o].data);
    pc.Moving? && pc.src == w.objs[o].data && o in pc.todo
  }

  /** The events of `r` have reached queue `d`, `r` itself has not. */
  predicate Shifted(w: World, r: nat, d: nat) {
    var pc := HolderPc(w, d);
    pc.Moving? && pc.shifted && pc.dst == d && pc.todo != [] && pc.todo[0] == r
  }

  /** Every object lives in its parent's thread, unless its tree is on the move. */
  ghost predicate Together(w: World) {
    forall o :: 0 <= o < |w.objs| && w.objs[o].parent.Some? && w.objs[o].parent.value < |w.objs| ==>
      w.objs[o].data == w.objs[w.objs[o].parent.value].data || Pending(w, o)
  }

  /** What is still to move has not moved; its parents have, and so has the object that was moved. */
  ghost predicate OnTheWay(w: World, pc: Pc) {
    pc.Moving? ==>
      && NoRepeats(pc.todo)
      && pc.o < |w.objs| && (pc.o in pc.todo || w.objs[pc.o].data == pc.dst)
      && (forall o :: o in pc.todo ==> o < |w.objs| && w.objs[o].data == pc.src)
      && (forall o :: o in pc.todo && w.objs[o].parent.Some? ==>
          w.objs[o].parent.value < |w.objs| && w.objs[w.objs[o].parent.value].data == pc.dst)
      && (pc.shifted ==> pc.todo != [] && pc.src < |w.datas| && CountFor(w.datas[pc.src].list, pc.todo[0]) == 0)
  }

  /** What a thread has checked before it holds the locks it needs. */
  ghost predicate Checked(w: World, a: Actor) {
    match a.pc
    case PostAdding(r, _, _, data) => r < |w.objs| && w.objs[r].data == data
    case PostCounting(r, data) =>
      r < |w.objs| && data < |w.datas| && w.objs[r].data == data && CountFor(w.datas[data].list, r) > 0
    case RemoveLocking(target, _, _, data) => OwnTarget(w, a.current, target, data)
    case Removing(target, _, _, data) => OwnTarget(w, a.current, target, data)
    case MoveLockingFirst(o, src, dst) => Rooted(w, a.current, o, src)
    case MoveLockingSecond(o, src, dst) => Rooted(w, a.current, o, src)
    case Moving(_, src, _, _, _) => src < |w.datas| && (src == a.current || !w.datas[src].hasThread)
    case DispatchLocking(data) => data == a.current
    case Dispatching(data) => data == a.current
    case _ => true
  }

  /** A receiver that a thread found to be its own still is. */
  ghost predicate OwnTarget(w: World, current: nat, target: Option<nat>, data: nat) {
    data == current && target.Some? ==> target.value < |w.objs| && w.objs[target.value].data == data
  }

  /** A thread moves the roots of its own trees, or pulls an object that has no thread. */
  ghost predicate Rooted(w: World, current: nat, o: nat, src: nat) {
    && o < |w.objs| && src < |w.datas|
    && (src == current ==> w.objs[o].data == src && w.objs[o].parent == None)
    && (src != current ==> !w.datas[src].hasThread)
  }

  /** Every live entry is in the queue of its receiver's thread. */
  ghost predicate Placed(w: World) {
    forall d, k :: 0 <= d < |w.datas| && 0 <= k < |w.datas[d].list| && Live(w.datas[d].list[k]) ==>
      var r := w.datas[d].list[k].receiver;
      r < |w.objs| && (w.objs[r].data == d || Shifted(w, r, d))
  }

  /** Live entries addressed to `r` over all queues. */
  function TotalFor(datas: seq<ThreadData>, r: nat): nat {
    if datas == [] then 0 else TotalFor(datas[..|datas| - 1], r) + CountFor(datas[|datas| - 1].list, r)
  }

  /** Threads between `addEvent` and `++m_postedEvents`. */
  function Counting(actors: seq<Actor>, r: nat): nat {
    if actors == [] then 0
    else
      var pc := actors[|actors| - 1].pc;
      Counting(actors[..|actors| - 1], r) + if pc.PostCounting? && pc.r == r then 1 else 0
  }

  ghost predicate Counted(w: World) {
    forall r :: 0 <= r < |w.objs| ==> TotalFor(w.datas, r) == w.objs[r].posted + Counting(w.actors, r)
  }

  ghost predicate Inv(w: World) {
    && Typed(w) && Locked(w) && Family(w.objs) && Together(w) && Placed(w) && Counted(w)
    && (forall a :: 0 <= a < |w.actors| ==> OnTheWay(w, w.actors[a].pc) && Checked(w, w.actors[a]))
  }

  /** The events in all queues. */
  ghost function TotalEvents(datas: seq<ThreadData>): multiset<Event> {
    if datas == [] then multiset{}
    else TotalEvents(datas[..|datas| - 1]) + LiveEvents(datas[|datas| - 1].list)
  }

  // ----- sums ----------------------------------------------------------------------------

  lemma {:induction false} TotalUpdate(datas: seq<ThreadData>, d: nat, data: ThreadData, r: nat)
    requires d < |datas|
    ensures TotalFor(datas[d := data], r) == TotalFor(datas, r) - CountFor(datas[d].list, r) + CountFor(data.list, r)
  {
    var init := datas[..|datas| - 1];
    if d == |datas| - 1 {
      assert datas[d := data][..|datas| - 1] == init;
    } else {
      TotalUpdate(init, d, data, r);
      assert datas[d := data][..|datas| - 1] == init[d := data];
    }
  }

  lemma {:induction false} EventsUpdate(datas: seq<ThreadData>, d: nat, data: ThreadData)
    requires d < |datas|
    ensures TotalEvents(datas[d := data]) + LiveEvents(datas[d].list) == TotalEvents(datas) + LiveEvents(data.list)
  {
    var init, last := datas[..|datas| - 1], LiveEvents(datas[|datas| - 1].list);
    if d == |datas| - 1 {
      assert datas[d := data][..|datas| - 1] == init;
    } else {
      EventsUpdate(init, d, data);
      assert datas[d := data][..|datas| - 1] == init[d := data];
      Regroup(TotalEvents(init[d := data]), LiveEvents(datas[d].list), TotalEvents(init), LiveEvents(data.list), last);
    }
  }

  lemma Regroup(a: multiset<Event>, x: multiset<Event>, b: multiset<Event>, y: multiset<Event>, last: multiset<Event>)
    requires a + x == b + y
    ensures a + last + x == b + last + y
  {
    assert a + last + x == (a + x) + last;
    assert b + last + y == (b + y) + last;
  }

  /** Only the lists matter. */
  lemma {:induction false} TotalSame(datas: seq<ThreadData>, other: seq<ThreadData>, r: nat)
    requires |datas| == |other| && forall d :: 0 <= d < |datas| ==> datas[d].list == other[d].list
    ensures TotalFor(datas, r) == TotalFor(other, r)
    ensures TotalEvents(datas) == TotalEvents(other)
  {
    if datas != [] {
      TotalSame(datas[..|datas| - 1], other[..|other| - 1], r);
    }
  }

  lemma {:induction false} TotalNone(datas: seq<ThreadData>, r: nat)
    requires forall d :: 0 <= d < |datas| ==> CountFor(datas[d].list, r) == 0
    ensures TotalFor(datas, r) == 0
  {
    if datas != [] {
      TotalNone(datas[..|datas| - 1], r);
    }
  }

  function IsCounting(pc: Pc, r: nat): nat {
    if pc.PostCounting? && pc.r == r then 1 else 0
  }

  lemma {:induction false} CountingUpdate(actors: seq<Actor>, a: nat, actor: Actor, r: nat)
    requires a < |actors|
    ensures Counting(actors[a := actor], r) == Counting(actors, r) - IsCounting(actors[a].pc, r) + IsCounting(actor.pc, r)
  {
    var init := actors[..|actors| - 1];
    if a == |actors| - 1 {
      assert actors[a := actor][..|actors| - 1] == init;
    } else {
      CountingUpdate(init, a, actor, r);
      assert actors[a := actor][..|actors| - 1] == init[a := actor];
    }
  }

  // ----- steps that only lock, unlock and look -------------------------------------------

  /** `v` is `w` but for where thread `a` is and for mutexes that `a` took or gave back. */
  ghost predicate OnlyMoved(w: World, v: World, a: nat) {
    && a < |w.actors| == |v.actors| && v.objs == w.objs && |v.datas| == |w.datas|
    && v.actors == w.actors[a := w.actors[a].(pc := v.actors[a].pc)]
    && (forall d :: 0 <= d < |w.datas| ==>
        && v.datas[d] == w.datas[d].(holder := v.datas[d].holder)
        && (v.datas[d].holder == w.datas[d].holder || (v.datas[d].holder == None && w.datas[d].holder == Some(a))
            || (v.datas[d].holder == Some(a) && w.datas[d].holder == None)))
  }

  predicate Done(pc: Pc) {
    pc.Moving? ==> pc.todo == []
  }

  /** Other movers stay where they are. */
  lemma MoversStay(w: World, v: World, a: nat, d: nat)
    requires Locked(w) && OnlyMoved(w, v, a) && Done(w.actors[a].pc) && d < |w.datas|
    ensures HolderPc(w, d).Moving? && HolderPc(w, d).todo != [] ==> HolderPc(v, d) == HolderPc(w, d)
  {
  }

  lemma OnlyMovedKeeps(w: World, v: World, a: nat)
    requires Inv(w) && OnlyMoved(w, v, a) && Locked(v)
    requires Done(w.actors[a].pc) && !w.actors[a].pc.PostCounting? && !v.actors[a].pc.PostCounting?
    requires PcTyped(v.actors[a].pc, |w.datas|, |w.objs|)
    requires OnTheWay(w, v.actors[a].pc) && Checked(w, v.actors[a])
    ensures Inv(v)
  {
    assert Typed(v);
    assert Together(v) by {
      forall o | 0 <= o < |w.objs| && w.objs[o].parent.Some? && w.objs[o].parent.value < |w.objs|
        ensures v.objs[o].data == v.objs[v.objs[o].parent.value].data || Pending(v, o)
      {
        MoversStay(w, v, a, w.objs[o].data);
      }
    }
    assert Placed(v) by {
      forall d, k | 0 <= d < |v.datas| && 0 <= k < |v.datas[d].list| && Live(v.datas[d].list[k])
        ensures var r := v.datas[d].list[k].receiver;
          r < |v.objs| && (v.objs[r].data == d || Shifted(v, r, d))
      {
        MoversStay(w, v, a, d);
      }
    }
    assert Counted(v) by {
      forall r | 0 <= r < |w.objs|
        ensures TotalFor(v.datas, r) == v.objs[r].posted + Counting(v.actors, r)
      {
        TotalSame(w.datas, v.datas, r);
        CountingUpdate(w.actors, a, v.actors[a], r);
      }
    }
    forall b | 0 <= b < |v.actors|
      ensures OnTheWay(v, v.actors[b].pc) && Checked(v, v.actors[b])
    {
      assert b != a ==> OnTheWay(w, w.actors[b].pc) && Checked(w, w.actors[b]);
    }
  }

  lemma GotoLocked(w: World, a: nat, pc: Pc)
    requires Locked(w) && a < |w.actors|
    requires forall d :: 0 <= d < |w.datas| ==> (Holds(pc, d) <==> Holds(w.actors[a].pc, d))
    ensures Locked(Goto(w, a, pc)) && OnlyMoved(w, Goto(w, a, pc), a)
  {
  }

  lemma LockLocked(w: World, a: nat, d: nat, pc: Pc)
    requires Locked(w) && a < |w.actors| && Free(w, d)
    requires forall e :: 0 <= e < |w.datas| ==> (Holds(pc, e) <==> Holds(w.actors[a].pc, e) || e == d)
    ensures Locked(Lock(w, a, d, pc)) && OnlyMoved(w, Lock(w, a, d, pc), a)
  {
    var v := Lock(w, a, d, pc);
    forall e, b | 0 <= e < |v.datas| && 0 <= b < |v.actors|
      ensures Holds(v.actors[b].pc, e) <==> v.datas[e].holder == Some(b)
    {
      assert Holds(w.actors[b].pc, e) <==> w.datas[e].holder == Some(b);
    }
  }

  lemma UnlockLocked(w: World, a: nat, d: nat, pc: Pc)
    requires Locked(w) && a < |w.actors| && d < |w.datas| && Holds(w.actors[a].pc, d)
    requires forall e :: 0 <= e < |w.datas| ==> (Holds(pc, e) <==> Holds(w.actors[a].pc, e) && e != d)
    ensures Locked(Unlock(w, a, d, pc)) && OnlyMoved(w, Unlock(w, a, d, pc), a)
  {
    var v := Unlock(w, a, d, pc);
    assert w.datas[d].holder == Some(a);
    forall e, b | 0 <= e < |v.datas| && 0 <= b < |v.actors|
      ensures Holds(v.actors[b].pc, e) <==> v.datas[e].holder == Some(b)
    {
      assert Holds(w.actors[b].pc, e) <==> w.datas[e].holder == Some(b);
    }
  }

  // ----- steps on one locked queue -------------------------------------------------------

  /** `v` is `w` but for the queue `d`, whose mutex `a` holds, and for counts. */
  ghost predicate OnlyQueue(w: World, v: World, a: nat, d: nat) {
    && a < |w.actors| == |v.actors| && d < |w.datas|
    && |v.objs| == |w.objs| && |v.datas| == |w.datas|
    && v.datas == w.datas[d := v.datas[d]]
    && v.datas[d].holder == w.datas[d].holder && v.datas[d].hasThread == w.datas[d].hasThread
    && v.actors == w.actors[a := w.actors[a].(pc := v.actors[a].pc)]
    && (forall o :: 0 <= o < |w.objs| ==> v.objs[o] == w.objs[o].(posted := v.objs[o].posted))
  }

  /** `a` holds only `d`, before and after. */
  ghost predicate Keeps(w: World, v: World, a: nat, d: nat) {
    && OnlyQueue(w, v, a, d)
    && Holds(w.actors[a].pc, d) && !w.actors[a].pc.Moving? && !w.actors[a].pc.MoveLockingSecond?
    && (v.actors[a].pc.Dispatching? || v.actors[a].pc.PostCounting? || v.actors[a].pc.Unlocking?)
    && v.actors[a].pc.data == d
  }

  lemma OnlyQueueLocked(w: World, v: World, a: nat, d: nat)
    requires Locked(w) && Keeps(w, v, a, d)
    ensures Locked(v)
  {
    forall e, b | 0 <= e < |v.datas| && 0 <= b < |v.actors|
      ensures Holds(v.actors[b].pc, e) <==> v.datas[e].holder == Some(b)
    {
      assert Holds(w.actors[b].pc, e) <==> w.datas[e].holder == Some(b);
    }
  }

  lemma OnlyQueueHolder(w: World, v: World, a: nat, d: nat, e: nat)
    requires Locked(w) && Keeps(w, v, a, d) && e < |w.datas|
    ensures e != d ==> HolderPc(v, e) == HolderPc(w, e)
    ensures !HolderPc(w, d).Moving?
  {
    assert w.datas[d].holder == Some(a);
    assert Holds(w.actors[a].pc, e) <==> w.datas[e].holder == Some(a);
  }

  lemma OnlyQueueTogether(w: World, v: World, a: nat, d: nat)
    requires Locked(w) && Together(w) && Keeps(w, v, a, d)
    requires forall o :: 0 <= o < |w.objs| ==> w.objs[o].data < |w.datas|
    ensures Together(v)
  {
    forall o | 0 <= o < |v.objs| && v.objs[o].parent.Some? && v.objs[o].parent.value < |v.objs|
      ensures v.objs[o].data == v.objs[v.objs[o].parent.value].data || Pending(v, o)
    {
      OnlyQueueHolder(w, v, a, d, w.objs[o].data);
    }
  }

  lemma OnlyQueuePlaced(w: World, v: World, a: nat, d: nat)
    requires Locked(w) && Placed(w) && Keeps(w, v, a, d)
    requires AllIn(w.objs, v.datas[d].list, d)
    ensures Placed(v)
  {
    forall e, k | 0 <= e < |v.datas| && 0 <= k < |v.datas[e].list| && Live(v.datas[e].list[k])
      ensures var r := v.datas[e].list[k].receiver;
        r < |v.objs| && (v.objs[r].data == e || Shifted(v, r, e))
    {
      OnlyQueueHolder(w, v, a, d, e);
      if e != d {
        assert v.datas[e] == w.datas[e];
        var r := w.datas[e].list[k].receiver;
        assert r < |w.objs| && (w.objs[r].data == e || Shifted(w, r, e));
      }
    }
  }

  lemma OnlyQueueActors(w: World, v: World, a: nat, d: nat, b: nat)
    requires Locked(w) && Keeps(w, v, a, d) && b < |w.actors| && Checked(v, v.actors[a])
    requires OnTheWay(w, w.actors[b].pc) && Checked(w, w.actors[b])
    ensures OnTheWay(v, v.actors[b].pc) && Checked(v, v.actors[b])
  {
    if b != a {
      assert w.datas[d].holder == Some(a);
      assert !Holds(w.actors[b].pc, d);
    }
  }

  /** What `d` gained or lost is what the counts and the counting threads say. */
  ghost predicate Balanced(w: World, v: World, a: nat, d: nat, r: nat)
    requires OnlyQueue(w, v, a, d) && r < |w.objs|
  {
    CountFor(v.datas[d].list, r) - CountFor(w.datas[d].list, r)
      == v.objs[r].posted - w.objs[r].posted + IsCounting(v.actors[a].pc, r) - IsCounting(w.actors[a].pc, r)
  }

  lemma CountedAfter(w: World, v: World, a: nat, d: nat)
    requires Counted(w) && OnlyQueue(w, v, a, d)
    requires forall r :: 0 <= r < |w.objs| ==> Balanced(w, v, a, d, r)
    ensures Counted(v)
  {
    forall r | 0 <= r < |v.objs|
      ensures TotalFor(v.datas, r) == v.objs[r].posted + Counting(v.actors, r)
    {
      assert Balanced(w, v, a, d, r);
      TotalUpdate(w.datas, d, v.datas[d], r);
      CountingUpdate(w.actors, a, v.actors[a], r);
    }
  }

  /** Every live entry of a list is addressed to an object in thread `d`. */
  ghost predicate AllIn(objs: seq<Object>, list: seq<PostEvent>, d: nat) {
    forall k :: 0 <= k < |list| && Live(list[k]) ==> list[k].receiver < |objs| && objs[list[k].receiver].data == d
  }

  lemma OnlyQueueShape(w: World, v: World, a: nat, d: nat)
    requires Typed(w) && Family(w.objs) && OnlyQueue(w, v, a, d) && PcTyped(v.actors[a].pc, |w.datas|, |w.objs|)
    ensures Typed(v) && Family(v.objs)
  {
  }

  lemma OnlyQueueKeeps(w: World, v: World, a: nat, d: nat)
    requires Inv(w) && Keeps(w, v, a, d)
    requires PcTyped(v.actors[a].pc, |w.datas|, |w.objs|)
    requires AllIn(w.objs, v.datas[d].list, d) && Counted(v) && Checked(v, v.actors[a])
    ensures Inv(v)
  {
    OnlyQueueLocked(w, v, a, d);
    OnlyQueueTogether(w, v, a, d);
    OnlyQueuePlaced(w, v, a, d);
    forall b: nat | b < |v.actors|
      ensures OnTheWay(v, v.actors[b].pc) && Checked(v, v.actors[b])
    {
      OnlyQueueActors(w, v, a, d, b);
    }
    OnlyQueueShape(w, v, a, d);
  }

  lemma AllOwn(w: World, a: nat, d: nat)
    requires Inv(w) && a < |w.actors| && d < |w.datas| && Holds(w.actors[a].pc, d) && !w.actors[a].pc.Moving?
    ensures AllIn(w.objs, w.datas[d].list, d)
  {
    assert w.datas[d].holder == Some(a);
  }

  lemma AddEntries(objs: seq<Object>, list: seq<PostEvent>, insertionOffset: nat, pe: PostEvent, d: nat)
    requires AllIn(objs, list, d) && pe.receiver < |objs| && objs[pe.receiver].data == d
    ensures AllIn(objs, AddEvent(list, insertionOffset, pe), d)
  {
  }

  lemma AddKeeps(w: World, a: nat)
    requires Inv(w) && a < |w.actors| && w.actors[a].pc.PostAdding?
    ensures Inv(Proceed(w, a).value)
  {
    var v, d, r := Proceed(w, a).value, w.actors[a].pc.data, w.actors[a].pc.r;
    var pe := PostEvent(r, Some(w.actors[a].pc.e), w.actors[a].pc.priority, w.clock);
    assert Checked(w, w.actors[a]);
    AllOwn(w, a, d);
    AddEntries(w.objs, w.datas[d].list, w.datas[d].insertionOffset, pe, d);
    forall x: nat | x < |w.objs|
      ensures Balanced(w, v, a, d, x)
    {
      AddEventCounts(w.datas[d].list, w.datas[d].insertionOffset, pe, x);
    }
    AddEventCounts(w.datas[d].list, w.datas[d].insertionOffset, pe, r);
    CountedAfter(w, v, a, d);
    OnlyQueueKeeps(w, v, a, d);
  }

  lemma CountKeeps(w: World, a: nat)
    requires Inv(w) && a < |w.actors| && w.actors[a].pc.PostCounting?
    ensures Inv(Proceed(w, a).value)
  {
    var v, d := Proceed(w, a).value, w.actors[a].pc.data;
    AllOwn(w, a, d);
    assert forall x :: 0 <= x < |w.objs| ==> Balanced(w, v, a, d, x);
    CountedAfter(w, v, a, d);
    OnlyQueueKeeps(w, v, a, d);
  }

  lemma TakeKeeps(w: World, a: nat, k: nat)
    requires Inv(w) && a < |w.actors| && w.actors[a].pc.Dispatching?
    requires k < |w.datas[w.actors[a].pc.data].list| && Live(w.datas[w.actors[a].pc.data].list[k])
    ensures w.datas[w.actors[a].pc.data].list[k].receiver < |w.objs|
    ensures Inv(TakeEntry(w, w.actors[a].pc.data, k))
  {
    var d := w.actors[a].pc.data;
    AllOwn(w, a, d);
    var v, list := TakeEntry(w, d, k), w.datas[d].list;
    forall x: nat | x < |w.objs|
      ensures Balanced(w, v, a, d, x)
    {
      CountNull(list, k, x);
    }
    CountedAfter(w, v, a, d);
    OnlyQueueKeeps(w, v, a, d);
  }

  /** Removal takes as many events from each counter as from the queue. */
  lemma RemoveKeeps(w: World, a: nat)
    requires Inv(w) && a < |w.actors| && w.actors[a].pc.Removing? && Removes(w, w.actors[a].pc.target)
    ensures Inv(Proceed(w, a).value)
  {
    var pc, v := w.actors[a].pc, Proceed(w, a).value;
    var d := pc.data;
    var list := w.datas[d].list;
    AllOwn(w, a, d);
    KeptIn(w.objs, list, d, pc.target, pc.kind);
    forall x: nat | x < |w.objs|
      ensures Balanced(w, v, a, d, x)
    {
      RemovalCounts(list, pc.target, pc.kind, x);
    }
    hide Inv;
    CountedAfter(w, v, a, d);
    OnlyQueueKeeps(w, v, a, d);
  }

  lemma KeptIn(objs: seq<Object>, list: seq<PostEvent>, d: nat, target: Option<nat>, kind: int)
    requires AllIn(objs, list, d)
    ensures AllIn(objs, Keep(list, target, kind), d) && AllIn(objs, NullMatching(list, target, kind), d)
  {
    var kept := Keep(list, target, kind);
    forall p | 0 <= p < |kept| && Live(kept[p])
      ensures kept[p].receiver < |objs| && objs[kept[p].receiver].data == d
    {
      assert list[Origin(list, target, kind, p)] == kept[p];
    }
  }

  lemma SweepKeeps(w: World, a: nat, n: nat)
    requires Inv(w) && a < |w.actors| && w.actors[a].pc.Dispatching?
    requires n <= |w.datas[w.actors[a].pc.data].list|
    requires forall k :: 0 <= k < n ==> !Live(w.datas[w.actors[a].pc.data].list[k])
    ensures Inv(SweepEntries(w, w.actors[a].pc.data, n))
  {
    var d := w.actors[a].pc.data;
    AllOwn(w, a, d);
    var v, list := SweepEntries(w, d, n), w.datas[d].list;
    assert AllIn(w.objs, v.datas[d].list, d) by {
      assert forall k :: 0 <= k < |list| - n ==> list[n..][k] == list[k + n];
    }
    forall x: nat | x < |w.objs|
      ensures Balanced(w, v, a, d, x)
    {
      CountErase(list, n, x);
    }
    CountedAfter(w, v, a, d);
    OnlyQueueKeeps(w, v, a, d);
  }

  // ----- the two halves of setThreadDataHelper -------------------------------------------

  lemma {:induction false} AddAllCounts(list: seq<PostEvent>, insertionOffset: nat, entries: seq<PostEvent>, r: nat)
    requires forall k :: 0 <= k < |entries| ==> Live(entries[k])
    ensures CountFor(AddAll(list, insertionOffset, entries), r) == CountFor(list, r) + CountFor(entries, r)
    ensures LiveEvents(AddAll(list, insertionOffset, entries)) == LiveEvents(list) + LiveEvents(entries)
  {
    if entries != [] {
      var init, last := entries[..|entries| - 1], entries[|entries| - 1];
      AddAllCounts(list, insertionOffset, init, r);
      AddEventCounts(AddAll(list, insertionOffset, init), insertionOffset, last, r);
      assert entries == init + [last];
      CountSnoc(init, last, r);
    }
  }

  lemma {:induction false} AddAllFrom(list: seq<PostEvent>, insertionOffset: nat, entries: seq<PostEvent>, k: nat)
    requires k < |AddAll(list, insertionOffset, entries)|
    ensures AddAll(list, insertionOffset, entries)[k] in list || AddAll(list, insertionOffset, entries)[k] in entries
  {
    if entries != [] {
      var init, last := entries[..|entries| - 1], entries[|entries| - 1];
      var before := AddAll(list, insertionOffset, init);
      var at := AddPosition(before, insertionOffset, last.priority);
      if k != at {
        AddAllFrom(list, insertionOffset, init, if k < at then k else k - 1);
      }
    }
  }

  lemma {:induction false} MatchingAre(list: seq<PostEvent>, o: nat)
    ensures forall k :: 0 <= k < |Matching(list, Some(o), NO_TYPE)| ==>
      Live(Matching(list, Some(o), NO_TYPE)[k]) && Matching(list, Some(o), NO_TYPE)[k].receiver == o
  {
    if list != [] {
      MatchingAre(list[..|list| - 1], o);
    }
  }

  /** Moving the entries of `o` from one list to another: nothing lost, nothing twice. */
  lemma ShiftCounts(source: seq<PostEvent>, target: seq<PostEvent>, insertionOffset: nat, o: nat, r: nat)
    ensures CountFor(NullMatching(source, Some(o), NO_TYPE), r)
          + CountFor(AddAll(target, insertionOffset, Matching(source, Some(o), NO_TYPE)), r)
         == CountFor(source, r) + CountFor(target, r)
    ensures CountFor(NullMatching(source, Some(o), NO_TYPE), o) == 0
  {
    MatchingAre(source, o);
    AddAllCounts(target, insertionOffset, Matching(source, Some(o), NO_TYPE), r);
    RemovalCounts(source, Some(o), NO_TYPE, r);
    RemovalCounts(source, Some(o), NO_TYPE, o);
    RemovalClears(source, o);
  }

  lemma ShiftEvents(source: seq<PostEvent>, target: seq<PostEvent>, insertionOffset: nat, o: nat)
    ensures LiveEvents(NullMatching(source, Some(o), NO_TYPE))
          + LiveEvents(AddAll(target, insertionOffset, Matching(source, Some(o), NO_TYPE)))
         == LiveEvents(source) + LiveEvents(target)
  {
    MatchingAre(source, o);
    AddAllCounts(target, insertionOffset, Matching(source, Some(o), NO_TYPE), 0);
    RemovalEvents(source, Some(o), NO_TYPE);
  }

  lemma TwoQueuesTotal(w: World, v: World, src: nat, dst: nat, r: nat)
    requires src < |w.datas| && dst < |w.datas| && src != dst && |v.datas| == |w.datas|
    requires v.datas == w.datas[src := v.datas[src]][dst := v.datas[dst]]
    ensures TotalFor(v.datas, r) - CountFor(v.datas[src].list, r) - CountFor(v.datas[dst].list, r)
         == TotalFor(w.datas, r) - CountFor(w.datas[src].list, r) - CountFor(w.datas[dst].list, r)
  {
    TotalUpdate(w.datas, src, v.datas[src], r);
    TotalUpdate(w.datas[src := v.datas[src]], dst, v.datas[dst], r);
  }

  /** The pc of a thread that is about to move the events of `o`. */
  ghost predicate Shifting(w: World, a: nat, o: nat, src: nat, dst: nat) {
    && a < |w.actors| && w.actors[a].pc.Moving? && w.actors[a].pc.todo != [] && !w.actors[a].pc.shifted
    && o == w.actors[a].pc.todo[0] && src == w.actors[a].pc.src && dst == w.actors[a].pc.dst
    && src < |w.datas| && dst < |w.datas| && src != dst
  }

  lemma ShiftPlaced(w: World, a: nat, o: nat, src: nat, dst: nat)
    requires Inv(w) && Shifting(w, a, o, src, dst)
    ensures Placed(Proceed(w, a).value)
  {
    hide Counted, Family, Together, Checked, CountFor, TotalFor;
    var v := Proceed(w, a).value;
    assert w.datas[src].holder == Some(a) && w.datas[dst].holder == Some(a);
    assert o in w.actors[a].pc.todo && o < |w.objs|;
    MatchingAre(w.datas[src].list, o);
    forall d, k | 0 <= d < |v.datas| && 0 <= k < |v.datas[d].list| && Live(v.datas[d].list[k])
      ensures var r := v.datas[d].list[k].receiver;
        r < |v.objs| && (v.objs[r].data == d || Shifted(v, r, d))
    {
      if d == dst {
        AddAllFrom(w.datas[dst].list, w.datas[dst].insertionOffset, Matching(w.datas[src].list, Some(o), NO_TYPE), k);
      } else if d == src {
        assert v.datas[d].list[k] == w.datas[d].list[k];
      } else {
        assert v.datas[d] == w.datas[d];
        assert HolderPc(v, d) == HolderPc(w, d) by {
          assert Holds(w.actors[a].pc, d) <==> w.datas[d].holder == Some(a);
        }
      }
    }
  }

  lemma ShiftCounted(w: World, a: nat, o: nat, src: nat, dst: nat)
    requires Inv(w) && Shifting(w, a, o, src, dst)
    ensures Counted(Proceed(w, a).value)
    ensures CountFor(Proceed(w, a).value.datas[src].list, o) == 0
  {
    var v := Proceed(w, a).value;
    ShiftCounts(w.datas[src].list, w.datas[dst].list, w.datas[dst].insertionOffset, o, 0);
    forall r | 0 <= r < |v.objs|
      ensures TotalFor(v.datas, r) == v.objs[r].posted + Counting(v.actors, r)
    {
      ShiftCounts(w.datas[src].list, w.datas[dst].list, w.datas[dst].insertionOffset, o, r);
      TwoQueuesTotal(w, v, src, dst, r);
      CountingUpdate(w.actors, a, v.actors[a], r);
    }
  }

  /** The step, spelt out. */
  lemma ShiftIs(w: World, a: nat, o: nat, src: nat, dst: nat)
    requires Typed(w) && Shifting(w, a, o, src, dst)
    ensures Proceed(w, a) == Some(Goto(Shift(w, o, src, dst), a, w.actors[a].pc.(shifted := true)))
  {
  }

  lemma ShiftActors(w: World, a: nat, o: nat, src: nat, dst: nat, b: nat)
    requires Inv(w) && Shifting(w, a, o, src, dst) && b < |w.actors|
    requires CountFor(Proceed(w, a).value.datas[src].list, o) == 0
    ensures OnTheWay(Proceed(w, a).value, Proceed(w, a).value.actors[b].pc)
    ensures Checked(Proceed(w, a).value, Proceed(w, a).value.actors[b])
  {
    hide Counted, Placed, Together, Family, AddAll, Matching, NullMatching, CountFor;
    ShiftIs(w, a, o, src, dst);
    assert OnTheWay(w, w.actors[b].pc) && Checked(w, w.actors[b]);
    if b != a {
      assert w.datas[src].holder == Some(a) && w.datas[dst].holder == Some(a);
      assert !Holds(w.actors[b].pc, src) && !Holds(w.actors[b].pc, dst);
    }
    hide Proceed;
  }

  lemma ShiftFrame(w: World, a: nat, o: nat, src: nat, dst: nat)
    requires Inv(w) && Shifting(w, a, o, src, dst)
    ensures Typed(Proceed(w, a).value) && Locked(Proceed(w, a).value)
  {
    hide Counted, Placed, Family;
    var v := Proceed(w, a).value;
    forall d, b | 0 <= d < |v.datas| && 0 <= b < |v.actors|
      ensures Holds(v.actors[b].pc, d) <==> v.datas[d].holder == Some(b)
    {
      assert Holds(w.actors[b].pc, d) <==> w.datas[d].holder == Some(b);
    }
  }

  lemma ShiftTogether(w: World, a: nat, o: nat, src: nat, dst: nat)
    requires Inv(w) && Shifting(w, a, o, src, dst)
    ensures Together(Proceed(w, a).value)
  {
    var v := Proceed(w, a).value;
    forall x | 0 <= x < |v.objs| && v.objs[x].parent.Some? && v.objs[x].parent.value < |v.objs|
      ensures v.objs[x].data == v.objs[v.objs[x].parent.value].data || Pending(v, x)
    {
      assert Pending(w, x) ==> Pending(v, x);
    }
  }

  lemma ShiftKeeps(w: World, a: nat, o: nat, src: nat, dst: nat)
    requires Inv(w) && Shifting(w, a, o, src, dst)
    ensures Inv(Proceed(w, a).value)
  {
    var v := Proceed(w, a).value;
    ShiftPlaced(w, a, o, src, dst);
    ShiftCounted(w, a, o, src, dst);
    forall b: nat | b < |v.actors|
      ensures OnTheWay(v, v.actors[b].pc) && Checked(v, v.actors[b])
    {
      ShiftActors(w, a, o, src, dst, b);
    }
    ShiftFrame(w, a, o, src, dst);
    ShiftTogether(w, a, o, src, dst);
  }

  /** The pc of a thread that is about to give `o` its new thread data. */
  ghost predicate Setting(w: World, a: nat, o: nat, src: nat, dst: nat) {
    && a < |w.actors| && w.actors[a].pc.Moving? && w.actors[a].pc.todo != [] && w.actors[a].pc.shifted
    && o == w.actors[a].pc.todo[0] && src == w.actors[a].pc.src && dst == w.actors[a].pc.dst
    && src < |w.datas| && dst < |w.datas| && src != dst
  }

  /** What a mover knows of the object at hand and of other movers. */
  lemma Mover(w: World, a: nat, o: nat, src: nat, dst: nat)
    requires Inv(w) && Setting(w, a, o, src, dst)
    ensures w.datas[src].holder == Some(a) && w.datas[dst].holder == Some(a)
    ensures o in w.actors[a].pc.todo && o < |w.objs| && w.objs[o].data == src
    ensures OnTheWay(w, w.actors[a].pc)
    ensures forall b :: 0 <= b < |w.actors| && b != a ==> !Holds(w.actors[b].pc, src) && !Holds(w.actors[b].pc, dst)
  {
    assert OnTheWay(w, w.actors[a].pc);
    assert o in w.actors[a].pc.todo;
  }

  lemma OneHolder(w: World, a: nat, b: nat, d: nat)
    requires Locked(w) && a < |w.actors| && b < |w.actors| && d < |w.datas|
    requires Holds(w.actors[a].pc, d) && Holds(w.actors[b].pc, d)
    ensures a == b
  {
    assert w.datas[d].holder == Some(a) && w.datas[d].holder == Some(b);
  }

  /** No object is part of two moves. */
  lemma OneMover(w: World, a: nat, b: nat, o: nat)
    requires Inv(w) && a < |w.actors| && b < |w.actors|
    requires w.actors[a].pc.Moving? && o in w.actors[a].pc.todo
    requires w.actors[b].pc.Moving? && o in w.actors[b].pc.todo
    ensures a == b
  {
    assert OnTheWay(w, w.actors[a].pc) && OnTheWay(w, w.actors[b].pc);
    OneHolder(w, a, b, w.objs[o].data);
  }

  /** No child of the object at hand has moved, and none is on the list yet. */
  lemma ChildrenWait(w: World, a: nat, o: nat, src: nat, dst: nat, c: nat)
    requires Inv(w) && Setting(w, a, o, src, dst) && o < |w.objs| && c in w.objs[o].children
    ensures c < |w.objs| && c != o && c !in w.actors[a].pc.todo
    ensures w.objs[c].data == src && w.objs[c].parent == Some(o)
  {
    Mover(w, a, o, src, dst);
    assert w.objs[c].parent == Some(o);
    if w.objs[c].data != src {
      ParentMoved(w, o, c);
      assert false;
    }
  }

  predicate MovedBy(pc: Pc, c: nat, d: nat) {
    pc.Moving? && pc.dst == d && Holds(pc, d) && c in pc.todo
  }

  /** An object that is still to move while its parent is elsewhere: the parent has moved, and
      its mover holds the mutex of the thread it has moved to. */
  lemma ParentMoved(w: World, o: nat, c: nat)
    requires Inv(w) && o < |w.objs| && c < |w.objs| && w.objs[c].parent == Some(o) && w.objs[c].data != w.objs[o].data
    ensures exists b :: 0 <= b < |w.actors| && MovedBy(w.actors[b].pc, c, w.objs[o].data)
  {
    assert Pending(w, c);
    var b := w.datas[w.objs[c].data].holder.value;
    assert OnTheWay(w, w.actors[b].pc);
  }

  lemma SetPlaced(w: World, a: nat, o: nat, src: nat, dst: nat)
    requires Inv(w) && Setting(w, a, o, src, dst)
    ensures Placed(Proceed(w, a).value)
  {
    var v := Proceed(w, a).value;
    Mover(w, a, o, src, dst);
    forall d, k | 0 <= d < |v.datas| && 0 <= k < |v.datas[d].list| && Live(v.datas[d].list[k])
      ensures var r := v.datas[d].list[k].receiver;
        r < |v.objs| && (v.objs[r].data == d || Shifted(v, r, d))
    {
      var r := w.datas[d].list[k].receiver;
      assert r < |w.objs| && (w.objs[r].data == d || Shifted(w, r, d));
      if r != o {
        assert w.datas[d].holder != Some(a) ==> HolderPc(v, d) == HolderPc(w, d);
      } else if w.objs[o].data == d {
        CountPositive(w.datas[src].list, o);
        assert false;
      } else {
        ShiftedHere(w, a, o, src, dst, d);
      }
    }
  }

  lemma ShiftedHere(w: World, a: nat, o: nat, src: nat, dst: nat, d: nat)
    requires Inv(w) && Setting(w, a, o, src, dst) && Shifted(w, o, d)
    ensures d == dst
  {
    Mover(w, a, o, src, dst);
    OneMover(w, a, w.datas[d].holder.value, o);
  }

  lemma SetTogether(w: World, a: nat, o: nat, src: nat, dst: nat)
    requires Inv(w) && Setting(w, a, o, src, dst)
    ensures Together(Proceed(w, a).value)
  {
    var v := Proceed(w, a).value;
    Mover(w, a, o, src, dst);
    var todo := v.actors[a].pc.todo;
    forall x | 0 <= x < |v.objs| && v.objs[x].parent.Some? && v.objs[x].parent.value < |v.objs|
      ensures v.objs[x].data == v.objs[v.objs[x].parent.value].data || Pending(v, x)
    {
      var p := w.objs[x].parent.value;
      if x == o {
        assert w.objs[p].data == dst;
      } else if p == o {
        ChildrenWait(w, a, o, src, dst, x);
        assert x in todo && HolderPc(v, src) == v.actors[a].pc;
      } else if Pending(w, x) {
        if w.datas[w.objs[x].data].holder == Some(a) {
          TailHas(w.actors[a].pc.todo, x);
          assert x in todo;
        }
        assert Pending(v, x);
      }
    }
  }

  lemma TailHas(list: seq<nat>, x: nat)
    requires x in list && x != list[0]
    ensures x in list[1..]
  {
    var i :| 0 <= i < |list| && list[i] == x;
    assert list[1..][i - 1] == x;
  }

  lemma SetOnTheWay(w: World, a: nat, o: nat, src: nat, dst: nat)
    requires Inv(w) && Setting(w, a, o, src, dst)
    ensures OnTheWay(Proceed(w, a).value, Proceed(w, a).value.actors[a].pc)
  {
    var v := Proceed(w, a).value;
    Mover(w, a, o, src, dst);
    var old_, children := w.actors[a].pc.todo, w.objs[o].children;
    var todo := children + old_[1..];
    forall c | c in children
      ensures c < |w.objs| && c != o && c !in old_ && w.objs[c].data == src && w.objs[c].parent == Some(o)
    {
      ChildrenWait(w, a, o, src, dst, c);
    }
    assert NoRepeats(todo) by {
      forall i, j | 0 <= i < j < |todo|
        ensures todo[i] != todo[j]
      {
        assert i < |children| || old_[i - |children| + 1] in old_;
        assert j < |children| || old_[j - |children| + 1] in old_;
      }
    }
    forall x | x in todo
      ensures x < |v.objs| && v.objs[x].data == src && (v.objs[x].parent.Some? ==>
        v.objs[x].parent.value < |v.objs| && v.objs[v.objs[x].parent.value].data == dst)
    {
      if x !in children {
        var i :| 0 <= i < |old_[1..]| && old_[1..][i] == x;
        assert old_[i + 1] == x && x in old_ && old_[0] != old_[i + 1];
      }
    }
  }

  /** The step, spelt out. */
  lemma SetIs(w: World, a: nat, o: nat, src: nat, dst: nat)
    requires Typed(w) && Setting(w, a, o, src, dst)
    ensures o < |w.objs|
    ensures Proceed(w, a) == Some(Goto(SetThreadData(w, o, dst), a, Moving(w.actors[a].pc.o, src, dst, w.objs[o].children + w.actors[a].pc.todo[1..], false)))
  {
    assert o in w.actors[a].pc.todo;
  }

  lemma SetOthers(w: World, a: nat, o: nat, src: nat, dst: nat, b: nat)
    requires Inv(w) && Setting(w, a, o, src, dst) && b < |w.actors| && b != a
    ensures OnTheWay(Proceed(w, a).value, Proceed(w, a).value.actors[b].pc)
  {
    hide Counted, Placed, Family, Together, Shift, TotalFor, CountFor, Checked;
    Mover(w, a, o, src, dst);
    assert OnTheWay(w, w.actors[b].pc);
    assert Holds(w.actors[a].pc, src) && Holds(w.actors[a].pc, dst);
  }

  lemma SetActors(w: World, a: nat, o: nat, src: nat, dst: nat, b: nat)
    requires Inv(w) && Setting(w, a, o, src, dst) && b < |w.actors| && b != a
    ensures OnTheWay(Proceed(w, a).value, Proceed(w, a).value.actors[b].pc)
    ensures Checked(Proceed(w, a).value, Proceed(w, a).value.actors[b])
  {
    SetOthers(w, a, o, src, dst, b);
    SetIs(w, a, o, src, dst);
    Mover(w, a, o, src, dst);
    assert Checked(w, w.actors[b]) && Checked(w, w.actors[a]);
    assert w.actors[b].current != w.actors[a].current;
    hide Proceed, Counted, Placed, Family, Together, TotalFor, CountFor, OnTheWay, PcTyped, ObjectTyped;
  }

  lemma SetKeeps(w: World, a: nat, o: nat, src: nat, dst: nat)
    requires Inv(w) && Setting(w, a, o, src, dst)
    ensures Inv(Proceed(w, a).value)
  {
    var v := Proceed(w, a).value;
    SetPlaced(w, a, o, src, dst);
    SetTogether(w, a, o, src, dst);
    SetOnTheWay(w, a, o, src, dst);
    SetFrame(w, a, o, src, dst);
    forall b: nat | b < |v.actors|
      ensures OnTheWay(v, v.actors[b].pc) && Checked(v, v.actors[b])
    {
      if b != a {
        SetActors(w, a, o, src, dst, b);
      } else {
        assert Checked(w, w.actors[a]);
      }
    }
  }

  lemma SetTyped(w: World, a: nat, o: nat, src: nat, dst: nat)
    requires Inv(w) && Setting(w, a, o, src, dst)
    ensures Typed(Proceed(w, a).value)
  {
    hide Counted, Placed, Together, Locked;
    var v := Proceed(w, a).value;
    Mover(w, a, o, src, dst);
    assert ObjectTyped(w.objs[o], |w.datas|, |w.objs|);
    NextTodo(w.objs[o].children, w.actors[a].pc.todo);
  }

  lemma NextTodo(children: seq<nat>, todo: seq<nat>)
    requires todo != []
    ensures forall x :: x in children + todo[1..] ==> x in children || x in todo
  {
    forall x | x in children + todo[1..]
      ensures x in children || x in todo
    {
      var i :| 0 <= i < |children + todo[1..]| && (children + todo[1..])[i] == x;
      assert i < |children| || todo[i - |children| + 1] == x;
    }
  }

  lemma SetCounted(w: World, a: nat, o: nat, src: nat, dst: nat)
    requires Inv(w) && Setting(w, a, o, src, dst)
    ensures Counted(Proceed(w, a).value)
  {
    Mover(w, a, o, src, dst);
    hide Placed, Together, Locked, Family, OnTheWay, Checked, CountFor;
    var v := Proceed(w, a).value;
    forall r | 0 <= r < |v.objs|
      ensures TotalFor(v.datas, r) == v.objs[r].posted + Counting(v.actors, r)
    {
      CountingUpdate(w.actors, a, v.actors[a], r);
    }
  }

  lemma SetLocked(w: World, a: nat, o: nat, src: nat, dst: nat)
    requires Inv(w) && Setting(w, a, o, src, dst)
    ensures Locked(Proceed(w, a).value)
  {
    Mover(w, a, o, src, dst);
    hide Counted, Placed, Together, Family, OnTheWay, Checked;
    GotoLocked(w, a, Proceed(w, a).value.actors[a].pc);
  }

  lemma SetFrame(w: World, a: nat, o: nat, src: nat, dst: nat)
    requires Inv(w) && Setting(w, a, o, src, dst)
    ensures Typed(Proceed(w, a).value) && Locked(Proceed(w, a).value) && Family(Proceed(w, a).value.objs)
    ensures Counted(Proceed(w, a).value)
  {
    SetTyped(w, a, o, src, dst);
    SetCounted(w, a, o, src, dst);
    SetLocked(w, a, o, src, dst);
    SetIs(w, a, o, src, dst);
    hide Proceed, Typed, Counted, Placed, Together, OnTheWay, Checked, Locked;
  }

  // ----- changing the tree ---------------------------------------------------------------

  lemma {:induction false} WithoutMembers(list: seq<nat>, o: nat)
    requires NoRepeats(list)
    ensures NoRepeats(Without(list, o))
    ensures forall x :: x in Without(list, o) <==> x in list && x != o
  {
    if list != [] && list[0] != o {
      WithoutMembers(list[1..], o);
      assert list == [list[0]] + list[1..];
      var rest := Without(list[1..], o);
      assert list[0] !in list[1..];
    } else if list != [] {
      assert list == [list[0]] + list[1..];
    }
  }

  /** `after` has the same objects in the same threads; only `o` may have changed parents. */
  ghost predicate OnlyTree(objs: seq<Object>, after: seq<Object>, o: nat) {
    && |after| == |objs|
    && (forall x :: 0 <= x < |objs| ==> after[x].data == objs[x].data && after[x].posted == objs[x].posted)
    && (forall x :: 0 <= x < |objs| && x != o ==> after[x].parent == objs[x].parent)
  }

  lemma DetachFamily(objs: seq<Object>, o: nat)
    requires Family(objs) && o < |objs|
    ensures Family(Detach(objs, o)) && OnlyTree(objs, Detach(objs, o), o) && Detach(objs, o)[o].parent == None
  {
    hide Without, NoRepeats;
    var after := Detach(objs, o);
    if objs[o].parent.Some? {
      var p := objs[o].parent.value;
      WithoutMembers(objs[p].children, o);
      forall q, c | 0 <= q < |after| && c in after[q].children
        ensures c < |after| && after[c].parent == Some(q)
      {
        assert c in objs[q].children;
      }
    }
  }

  lemma OneMore(children: seq<nat>, o: nat)
    requires NoRepeats(children) && o !in children
    ensures NoRepeats(children + [o])
  {
  }

  lemma AttachFamily(objs: seq<Object>, o: nat, p: nat)
    requires Family(objs) && o < |objs| && p < |objs| && objs[o].parent == None
    ensures Family(Attach(objs, o, p)) && OnlyTree(objs, Attach(objs, o, p), o) && Attach(objs, o, p)[o].parent == Some(p)
  {
    hide NoRepeats;
    OneMore(objs[p].children, o);
    var after := Attach(objs, o, p);
    assert o !in objs[p].children;
    forall q, c | 0 <= q < |after| && c in after[q].children
      ensures c < |after| && after[c].parent == Some(q)
    {
      assert c == o || c in objs[q].children;
    }
  }

  /** `o` is in no child list but that of `p`, if any. */
  ghost predicate ChildOfOnly(objs: seq<Object>, o: nat, p: Option<nat>) {
    forall q :: 0 <= q < |objs| && Some(q) != p ==> o !in objs[q].children
  }

  predicate TakenOut(before: seq<nat>, after: seq<nat>, o: nat) {
    exists i :: 0 <= i < |before| && before[i] == o && after == before[..i] + before[i + 1..]
  }

  lemma {:induction false} WithoutTakesOut(list: seq<nat>, o: nat)
    requires o in list
    ensures TakenOut(list, Without(list, o), o)
  {
    if list[0] == o {
      assert Without(list, o) == list[..0] + list[1..];
    } else {
      assert list == [list[0]] + list[1..];
      WithoutTakesOut(list[1..], o);
      var i :| 0 <= i < |list[1..]| && list[1..][i] == o && Without(list[1..], o) == list[1..][..i] + list[1..][i + 1..];
      assert list[i + 1] == o && Without(list, o) == list[..i + 1] + list[i + 2..];
    }
  }

  /** What `setParent` does to the child lists. */
  ghost predicate ChildrenSet(objs: seq<Object>, after: seq<Object>, o: nat, parent: Option<nat>)
    requires o < |objs| == |after|
  {
    var leaves := objs[o].parent;
    && (leaves.Some? ==> leaves.value < |objs| && TakenOut(objs[leaves.value].children, after[leaves.value].children, o))
    && (parent.Some? ==> parent.value < |objs| && after[parent.value].children == objs[parent.value].children + [o])
    && (forall q :: 0 <= q < |objs| && Some(q) != leaves && Some(q) != parent ==> after[q].children == objs[q].children)
    && ChildOfOnly(after, o, parent)
  }

  lemma DetachChildren(objs: seq<Object>, o: nat)
    requires Family(objs) && o < |objs|
    ensures ChildrenSet(objs, Detach(objs, o), o, None)
  {
    hide Without, NoRepeats;
    if objs[o].parent.Some? {
      WithoutMembers(objs[objs[o].parent.value].children, o);
      WithoutTakesOut(objs[objs[o].parent.value].children, o);
    }
  }

  lemma AttachChildren(objs: seq<Object>, left: seq<Object>, o: nat, p: nat)
    requires o < |objs| == |left| && p < |objs| && objs[o].parent != Some(p)
    requires ChildrenSet(objs, left, o, None)
    ensures ChildrenSet(objs, Attach(left, o, p), o, Some(p))
  {
    hide TakenOut;
  }

  /** `setParent` sets the parent if it lives in the object's thread: the object becomes its last
      child and nobody else's.  Without a parent, or with one in another thread, the object is left
      without; setting the parent it has changes nothing. */
  lemma ReparentFamily(objs: seq<Object>, o: nat, parent: Option<nat>)
    requires Family(objs) && o < |objs| && (parent.Some? ==> parent.value < |objs|)
    ensures var after := Reparent(objs, o, parent);
      && Family(after) && OnlyTree(objs, after, o)
      && if parent == objs[o].parent then after == objs
         else if parent.Some? && objs[o].data == objs[parent.value].data
         then after[o].parent == parent && ChildrenSet(objs, after, o, parent)
         else after[o].parent == None && ChildrenSet(objs, after, o, None)
  {
    hide NoRepeats, Detach, Attach, ChildrenSet;
    DetachFamily(objs, o);
    DetachChildren(objs, o);
    if parent.Some? && parent != objs[o].parent {
      AttachFamily(Detach(objs, o), o, parent.value);
      AttachChildren(objs, Detach(objs, o), o, parent.value);
    }
  }

  /** No thread is moving `o`, and none is about to move it as its own. */
  ghost predicate LeftAlone(w: World, o: nat) {
    forall b :: 0 <= b < |w.actors| ==>
      match w.actors[b].pc
      case Moving(_, _, _, todo, _) => o !in todo
      case MoveLockingFirst(x, src, _) => x != o || src != w.actors[b].current
      case MoveLockingSecond(x, src, _) => x != o || src != w.actors[b].current
      case _ => true
  }

  /** The thread an object lives in is the only one that moves it, and it is not doing so. */
  lemma OwnObject(w: World, a: nat, o: nat)
    requires Inv(w) && a < |w.actors| && InUserCode(w.actors[a].pc) && o < |w.objs| && w.objs[o].data == w.actors[a].current
    requires w.actors[a].pc.MoveLockingFirst? ==> w.actors[a].pc.o != o
    ensures LeftAlone(w, o)
  {
    forall b | 0 <= b < |w.actors|
      ensures w.actors[b].pc.Moving? ==> o !in w.actors[b].pc.todo
      ensures w.actors[b].pc.MoveLockingFirst? ==> w.actors[b].pc.o != o || w.actors[b].pc.src != w.actors[b].current
      ensures w.actors[b].pc.MoveLockingSecond? ==> w.actors[b].pc.o != o || w.actors[b].pc.src != w.actors[b].current
    {
      assert OnTheWay(w, w.actors[b].pc) && Checked(w, w.actors[b]);
      assert b != a ==> w.actors[b].current != w.actors[a].current;
    }
  }

  lemma TreeTyped(w: World, v: World, o: nat)
    requires Typed(w) && o < |w.objs|
    requires v == w.(objs := v.objs) && Family(v.objs) && OnlyTree(w.objs, v.objs, o)
    ensures Typed(v)
  {
    forall x | 0 <= x < |v.objs|
      ensures ObjectTyped(v.objs[x], |v.datas|, |v.objs|)
    {
      assert ObjectTyped(w.objs[x], |w.datas|, |w.objs|);
    }
  }

  lemma TreeTogether(w: World, v: World, o: nat)
    requires Together(w) && o < |w.objs|
    requires v == w.(objs := v.objs) && OnlyTree(w.objs, v.objs, o)
    requires v.objs[o].parent.Some? ==>
      && v.objs[o].parent.value < |w.objs|
      && (v.objs[o].parent == w.objs[o].parent || w.objs[v.objs[o].parent.value].data == w.objs[o].data)
    ensures Together(v)
  {
    forall x | 0 <= x < |v.objs| && v.objs[x].parent.Some? && v.objs[x].parent.value < |v.objs|
      ensures v.objs[x].data == v.objs[v.objs[x].parent.value].data || Pending(v, x)
    {
      assert Pending(w, x) ==> Pending(v, x);
    }
  }

  lemma TreePlaced(w: World, v: World, o: nat)
    requires Placed(w) && v == w.(objs := v.objs) && OnlyTree(w.objs, v.objs, o)
    ensures Placed(v)
  {
    forall d, k | 0 <= d < |v.datas| && 0 <= k < |v.datas[d].list| && Live(v.datas[d].list[k])
      ensures var r := v.datas[d].list[k].receiver;
        r < |v.objs| && (v.objs[r].data == d || Shifted(v, r, d))
    {
      assert Live(w.datas[d].list[k]);
      assert Shifted(w, w.datas[d].list[k].receiver, d) ==> Shifted(v, w.datas[d].list[k].receiver, d);
    }
  }

  /** Any change of the tree of `o` that leaves families intact and keeps `o` in its thread. */
  lemma TreeKeeps(w: World, v: World, o: nat)
    requires Inv(w) && o < |w.objs| && LeftAlone(w, o)
    requires v == w.(objs := v.objs) && Family(v.objs) && OnlyTree(w.objs, v.objs, o)
    requires v.objs[o].parent.Some? ==>
      && v.objs[o].parent.value < |w.objs|
      && (v.objs[o].parent == w.objs[o].parent || w.objs[v.objs[o].parent.value].data == w.objs[o].data)
    ensures Inv(v)
  {
    TreeTyped(w, v, o);
    TreeTogether(w, v, o);
    TreePlaced(w, v, o);
    forall b: nat | b < |v.actors|
      ensures OnTheWay(v, v.actors[b].pc) && Checked(v, v.actors[b])
    {
      TreeActors(w, v, o, b);
    }
    hide Typed, Together, Placed, LeftAlone, OnTheWay, Checked;
  }

  lemma TreeActors(w: World, v: World, o: nat, b: nat)
    requires o < |w.objs| && LeftAlone(w, o)
    requires v == w.(objs := v.objs) && OnlyTree(w.objs, v.objs, o)
    requires b < |w.actors| && OnTheWay(w, w.actors[b].pc) && Checked(w, w.actors[b])
    ensures OnTheWay(v, v.actors[b].pc) && Checked(v, v.actors[b])
  {
  }

  lemma ReparentKeeps(w: World, o: nat, parent: Option<nat>)
    requires Inv(w) && o < |w.objs| && LeftAlone(w, o) && (parent.Some? ==> parent.value < |w.objs|)
    ensures Inv(w.(objs := Reparent(w.objs, o, parent)))
  {
    ReparentFamily(w.objs, o, parent);
    TreeKeeps(w, w.(objs := Reparent(w.objs, o, parent)), o);
  }

  // ----- new objects and new thread data -------------------------------------------------

  lemma NoEntriesYet(w: World)
    requires Typed(w) && Placed(w)
    ensures TotalFor(w.datas, |w.objs|) == 0 && Counting(w.actors, |w.objs|) == 0
  {
    forall d | 0 <= d < |w.datas|
      ensures CountFor(w.datas[d].list, |w.objs|) == 0
    {
      CountPositive(w.datas[d].list, |w.objs|);
    }
    TotalNone(w.datas, |w.objs|);
    NobodyCounts(w.actors, |w.objs|);
  }

  lemma {:induction false} NobodyCounts(actors: seq<Actor>, r: nat)
    requires forall a :: 0 <= a < |actors| ==> IsCounting(actors[a].pc, r) == 0
    ensures Counting(actors, r) == 0
  {
    if actors != [] {
      assert IsCounting(actors[|actors| - 1].pc, r) == 0;
      NobodyCounts(actors[..|actors| - 1], r);
    }
  }

  function WithObject(w: World, data: nat, isWidget: bool): World {
    w.(objs := w.objs + [Object(data, None, [], isWidget, 0)])
  }

  lemma WithObjectKeeps(w: World, data: nat, isWidget: bool)
    requires Inv(w) && data < |w.datas|
    ensures Inv(WithObject(w, data, isWidget)) && LeftAlone(WithObject(w, data, isWidget), |w.objs|)
  {
    hide Placed, Together;
    var v := WithObject(w, data, isWidget);
    NoEntriesYet(w);
    WithObjectTyped(w, data, isWidget);
    WithObjectPlaced(w, data, isWidget);
    forall b | 0 <= b < |v.actors|
      ensures OnTheWay(v, v.actors[b].pc) && Checked(v, v.actors[b])
    {
      assert OnTheWay(w, w.actors[b].pc) && Checked(w, w.actors[b]);
    }
  }

  lemma WithObjectTyped(w: World, data: nat, isWidget: bool)
    requires Typed(w) && Family(w.objs) && data < |w.datas|
    ensures Typed(WithObject(w, data, isWidget)) && Family(WithObject(w, data, isWidget).objs)
    ensures LeftAlone(WithObject(w, data, isWidget), |w.objs|)
  {
    var v := WithObject(w, data, isWidget);
    forall x | 0 <= x < |v.objs|
      ensures ObjectTyped(v.objs[x], |v.datas|, |v.objs|)
    {
      assert x < |w.objs| ==> ObjectTyped(w.objs[x], |w.datas|, |w.objs|);
    }
  }

  lemma WithObjectPlaced(w: World, data: nat, isWidget: bool)
    requires Typed(w) && Together(w) && Placed(w)
    ensures Together(WithObject(w, data, isWidget)) && Placed(WithObject(w, data, isWidget))
  {
    var v := WithObject(w, data, isWidget);
    forall x | 0 <= x < |v.objs| && v.objs[x].parent.Some? && v.objs[x].parent.value < |v.objs|
      ensures v.objs[x].data == v.objs[v.objs[x].parent.value].data || Pending(v, x)
    {
      assert ObjectTyped(w.objs[x], |w.datas|, |w.objs|);
      assert Pending(w, x) ==> Pending(v, x);
    }
    forall d, k | 0 <= d < |v.datas| && 0 <= k < |v.datas[d].list| && Live(v.datas[d].list[k])
      ensures var r := v.datas[d].list[k].receiver;
        r < |v.objs| && (v.objs[r].data == d || Shifted(v, r, d))
    {
      assert Shifted(w, w.datas[d].list[k].receiver, d) ==> Shifted(v, w.datas[d].list[k].receiver, d);
    }
  }

  lemma ConstructKeeps(w: World, a: nat, parent: Option<nat>, isWidget: bool)
    requires Inv(w) && a < |w.actors| && (parent.Some? ==> parent.value < |w.objs|)
    ensures Inv(Construct(w, a, parent, isWidget))
  {
    var data := if parent.Some? && !w.datas[w.objs[parent.value].data].hasThread then w.objs[parent.value].data else w.actors[a].current;
    WithObjectKeeps(w, data, isWidget);
    if parent.Some? && w.objs[parent.value].data == data {
      ReparentKeeps(WithObject(w, data, isWidget), |w.objs|, parent);
    }
  }

  function WithData(w: World): World {
    w.(datas := w.datas + [ThreadData(false, [], 0, None)])
  }

  lemma WithDataTyped(w: World)
    requires Typed(w)
    ensures Typed(WithData(w))
  {
    var v := WithData(w);
    forall x | 0 <= x < |v.objs|
      ensures ObjectTyped(v.objs[x], |v.datas|, |v.objs|)
    {
      assert ObjectTyped(w.objs[x], |w.datas|, |w.objs|);
    }
    forall b | 0 <= b < |v.actors|
      ensures PcTyped(v.actors[b].pc, |v.datas|, |v.objs|)
    {
      assert PcTyped(w.actors[b].pc, |w.datas|, |w.objs|);
    }
  }

  lemma WithDataPlaced(w: World)
    requires Inv(w)
    ensures Together(WithData(w)) && Placed(WithData(w))
  {
    hide Counted, Family, OnTheWay, Checked, Locked;
    var v := WithData(w);
    forall x | 0 <= x < |v.objs| && v.objs[x].parent.Some? && v.objs[x].parent.value < |v.objs|
      ensures v.objs[x].data == v.objs[v.objs[x].parent.value].data || Pending(v, x)
    {
      assert Pending(w, x) ==> Pending(v, x);
    }
    forall d, k | 0 <= d < |v.datas| && 0 <= k < |v.datas[d].list| && Live(v.datas[d].list[k])
      ensures var r := v.datas[d].list[k].receiver;
        r < |v.objs| && (v.objs[r].data == d || Shifted(v, r, d))
    {
      assert Shifted(w, w.datas[d].list[k].receiver, d) ==> Shifted(v, w.datas[d].list[k].receiver, d);
    }
  }

  lemma WithDataKeeps(w: World)
    requires Inv(w)
    ensures Inv(WithData(w)) && TotalEvents(WithData(w).datas) == TotalEvents(w.datas)
  {
    var v := WithData(w);
    assert v.datas[..|v.datas| - 1] == w.datas;
    WithDataTyped(w);
    WithDataHolders(w);
    WithDataPlaced(w);
    hide Typed, Locked, Together, Placed;
    forall b | 0 <= b < |v.actors|
      ensures OnTheWay(v, v.actors[b].pc) && Checked(v, v.actors[b])
    {
      assert OnTheWay(w, w.actors[b].pc) && Checked(w, w.actors[b]);
    }
  }

  lemma WithDataHolders(w: World)
    requires Typed(w) && Locked(w)
    ensures Locked(WithData(w))
  {
    var v := WithData(w);
    forall d, b | 0 <= d < |v.datas| && 0 <= b < |v.actors|
      ensures Holds(v.actors[b].pc, d) <==> v.datas[d].holder == Some(b)
    {
      assert PcTyped(w.actors[b].pc, |w.datas|, |w.objs|);
      assert d < |w.datas| ==> (Holds(w.actors[b].pc, d) <==> w.datas[d].holder == Some(b));
    }
  }

  // ----- every step ----------------------------------------------------------------------

  /** With both locks held the object still has the thread data and the parentlessness that
      `moveToThread` saw before it had them.  The code does not look again. */
  predicate StillThere(w: World, a: nat)
    requires a < |w.actors| && Typed(w)
  {
    var pc := w.actors[a].pc;
    pc.MoveLockingSecond? ==> w.objs[pc.o].data == pc.src && w.objs[pc.o].parent == None
  }

  lemma LookKeeps(w: World, a: nat)
    requires Inv(w) && a < |w.actors| && Proceed(w, a).Some?
    requires w.actors[a].pc.PostReading? || w.actors[a].pc.PostChecking? || w.actors[a].pc.RemoveReading?
    ensures Inv(Proceed(w, a).value) && Proceed(w, a).value.datas == w.datas
  {
    var v := Proceed(w, a).value;
    GotoLocked(w, a, v.actors[a].pc);
    OnlyMovedKeeps(w, v, a);
  }

  lemma LockKeeps(w: World, a: nat)
    requires Inv(w) && a < |w.actors| && Proceed(w, a).Some? && Wants(w.actors[a].pc).Some? && StillThere(w, a)
    ensures Inv(Proceed(w, a).value) && TotalEvents(Proceed(w, a).value.datas) == TotalEvents(w.datas)
  {
    hide Counted, Family, Together, Locked, OnTheWay, Matching;
    var v := Proceed(w, a).value;
    LockLocked(w, a, Wants(w.actors[a].pc).value, v.actors[a].pc);
    assert Checked(w, w.actors[a]);
    OnlyMovedKeeps(w, v, a);
    TotalSame(w.datas, v.datas, 0);
  }

  lemma UnlockKeeps(w: World, a: nat)
    requires Inv(w) && a < |w.actors|
    requires w.actors[a].pc.PostRetrying? || w.actors[a].pc.Unlocking? || w.actors[a].pc.Dispatching?
    ensures Proceed(w, a).Some? && Inv(Proceed(w, a).value)
    ensures TotalEvents(Proceed(w, a).value.datas) == TotalEvents(w.datas)
  {
    var v := Proceed(w, a).value;
    UnlockLocked(w, a, w.actors[a].pc.data, v.actors[a].pc);
    OnlyMovedKeeps(w, v, a);
    TotalSame(w.datas, v.datas, 0);
  }

  lemma FinishKeeps(w: World, a: nat)
    requires Inv(w) && a < |w.actors| && w.actors[a].pc.Moving? && w.actors[a].pc.todo == []
    ensures Proceed(w, a).Some? && Inv(Proceed(w, a).value)
    ensures TotalEvents(Proceed(w, a).value.datas) == TotalEvents(w.datas)
  {
    hide Counted, Placed, Together, Family, OnTheWay;
    var v, src, dst := Proceed(w, a).value, w.actors[a].pc.src, w.actors[a].pc.dst;
    assert w.datas[src].holder == Some(a) && w.datas[dst].holder == Some(a);
    forall e, b | 0 <= e < |v.datas| && 0 <= b < |v.actors|
      ensures Holds(v.actors[b].pc, e) <==> v.datas[e].holder == Some(b)
    {
      assert Holds(w.actors[b].pc, e) <==> w.datas[e].holder == Some(b);
    }
    OnlyMovedKeeps(w, v, a);
    TotalSame(w.datas, v.datas, 0);
  }

  lemma AddConserves(w: World, a: nat)
    requires Typed(w) && a < |w.actors| && w.actors[a].pc.PostAdding?
    ensures TotalEvents(Proceed(w, a).value.datas) == TotalEvents(w.datas) + multiset{w.actors[a].pc.e}
  {
    var v, d := Proceed(w, a).value, w.actors[a].pc.data;
    var pe := PostEvent(w.actors[a].pc.r, Some(w.actors[a].pc.e), w.actors[a].pc.priority, w.clock);
    AddEventCounts(w.datas[d].list, w.datas[d].insertionOffset, pe, 0);
    EventsUpdate(w.datas, d, v.datas[d]);
    Cancel(TotalEvents(v.datas), LiveEvents(w.datas[d].list), TotalEvents(w.datas), multiset{w.actors[a].pc.e});
  }

  lemma Cancel(x: multiset<Event>, l: multiset<Event>, y: multiset<Event>, e: multiset<Event>)
    requires x + l == y + (l + e)
    ensures x == y + e
  {
    forall z
      ensures x[z] == (y + e)[z]
    {
      assert (x + l)[z] == (y + (l + e))[z];
    }
  }

  lemma ShiftConserves(w: World, a: nat, o: nat, src: nat, dst: nat)
    requires Typed(w) && Shifting(w, a, o, src, dst)
    ensures TotalEvents(Proceed(w, a).value.datas) == TotalEvents(w.datas)
  {
    var v := Proceed(w, a).value;
    ShiftEvents(w.datas[src].list, w.datas[dst].list, w.datas[dst].insertionOffset, o);
    EventsUpdate(w.datas, src, v.datas[src]);
    EventsUpdate(w.datas[src := v.datas[src]], dst, v.datas[dst]);
    CancelTwo(TotalEvents(w.datas), TotalEvents(w.datas[src := v.datas[src]]), TotalEvents(v.datas),
              LiveEvents(w.datas[src].list), LiveEvents(v.datas[src].list),
              LiveEvents(w.datas[dst].list), LiveEvents(v.datas[dst].list));
  }

  lemma CancelTwo(t0: multiset<Event>, t1: multiset<Event>, t2: multiset<Event>,
                  a0: multiset<Event>, a1: multiset<Event>, b0: multiset<Event>, b1: multiset<Event>)
    requires t1 + a0 == t0 + a1 && t2 + b0 == t1 + b1 && a1 + b1 == a0 + b0
    ensures t2 == t0
  {
    forall z
      ensures t2[z] == t0[z]
    {
      assert (t1 + a0)[z] == (t0 + a1)[z] && (t2 + b0)[z] == (t1 + b1)[z] && (a1 + b1)[z] == (a0 + b0)[z];
    }
  }

  lemma TakeConserves(w: World, d: nat, k: nat)
    requires d < |w.datas| && k < |w.datas[d].list| && Live(w.datas[d].list[k]) && w.datas[d].list[k].receiver < |w.objs|
    ensures TotalEvents(TakeEntry(w, d, k).datas) + multiset{w.datas[d].list[k].event.value} == TotalEvents(w.datas)
  {
    var v, e := TakeEntry(w, d, k), w.datas[d].list[k].event.value;
    CountNull(w.datas[d].list, k, 0);
    EventsUpdate(w.datas, d, v.datas[d]);
    assert LiveEvents(w.datas[d].list) == LiveEvents(v.datas[d].list) + multiset{e};
    Cancel(TotalEvents(w.datas), LiveEvents(v.datas[d].list), TotalEvents(v.datas), multiset{e});
  }

  lemma SweepConserves(w: World, d: nat, n: nat)
    requires d < |w.datas| && n <= |w.datas[d].list| && forall k :: 0 <= k < n ==> !Live(w.datas[d].list[k])
    ensures TotalEvents(SweepEntries(w, d, n).datas) == TotalEvents(w.datas)
  {
    var v := SweepEntries(w, d, n);
    CountErase(w.datas[d].list, n, 0);
    EventsUpdate(w.datas, d, v.datas[d]);
    Cancel(TotalEvents(v.datas), LiveEvents(w.datas[d].list), TotalEvents(w.datas), multiset{});
  }

  lemma RemoveConserves(w: World, d: nat, target: Option<nat>, kind: int, inPlace: bool)
    requires d < |w.datas|
    ensures TotalEvents(RemoveFrom(w, d, target, kind, inPlace).datas) + LiveEvents(Matching(w.datas[d].list, target, kind))
         == TotalEvents(w.datas)
  {
    var v := RemoveFrom(w, d, target, kind, inPlace);
    RemovalEvents(w.datas[d].list, target, kind);
    EventsUpdate(w.datas, d, v.datas[d]);
    CancelGone(TotalEvents(w.datas), LiveEvents(v.datas[d].list), TotalEvents(v.datas), LiveEvents(Matching(w.datas[d].list, target, kind)));
  }

  lemma CancelGone(x: multiset<Event>, l: multiset<Event>, y: multiset<Event>, gone: multiset<Event>)
    requires y + (l + gone) == x + l
    ensures y + gone == x
  {
    forall z
      ensures (y + gone)[z] == x[z]
    {
      assert (y + (l + gone))[z] == (x + l)[z];
    }
  }

  /** Events that enter and leave the queues with one step. */
  ghost function Posted(w: World, a: nat, action: Action): multiset<Event> {
    if a < |w.actors| && action.Go? && w.actors[a].pc.PostAdding? then multiset{w.actors[a].pc.e} else multiset{}
  }

  ghost function Taken(w: World, a: nat, action: Action): multiset<Event> {
    if a < |w.actors| && action.Take? && w.actors[a].pc.Dispatching? && w.actors[a].pc.data < |w.datas|
       && action.k < |w.datas[w.actors[a].pc.data].list| && Live(w.datas[w.actors[a].pc.data].list[action.k])
    then multiset{w.datas[w.actors[a].pc.data].list[action.k].event.value}
    else if a < |w.actors| && action.Go? && w.actors[a].pc.Removing? && w.actors[a].pc.data < |w.datas| && Removes(w, w.actors[a].pc.target)
    then LiveEvents(Matching(w.datas[w.actors[a].pc.data].list, w.actors[a].pc.target, w.actors[a].pc.kind))
    else multiset{}
  }

  lemma ProceedKeeps(w: World, a: nat)
    requires Inv(w) && a < |w.actors| && Proceed(w, a).Some? && StillThere(w, a)
    ensures Inv(Proceed(w, a).value)
    ensures TotalEvents(Proceed(w, a).value.datas) + Taken(w, a, Go) == TotalEvents(w.datas) + Posted(w, a, Go)
  {
    var pc := w.actors[a].pc;
    if pc.PostReading? || pc.PostChecking? || pc.RemoveReading? {
      LookKeeps(w, a);
    } else if Wants(pc).Some? {
      LockKeeps(w, a);
    } else if pc.PostRetrying? || pc.Unlocking? || pc.Dispatching? {
      UnlockKeeps(w, a);
    } else if pc.PostAdding? {
      AddKeeps(w, a);
      AddConserves(w, a);
    } else if pc.PostCounting? {
      CountKeeps(w, a);
    } else if pc.Removing? {
      if Removes(w, pc.target) {
        RemoveKeeps(w, a);
        RemoveConserves(w, pc.data, pc.target, pc.kind, pc.inPlace);
      } else {
        SkipKeeps(w, a);
      }
    } else if pc.todo == [] {
      FinishKeeps(w, a);
    } else if !pc.shifted {
      ShiftKeeps(w, a, pc.todo[0], pc.src, pc.dst);
      ShiftConserves(w, a, pc.todo[0], pc.src, pc.dst);
    } else {
      SetKeeps(w, a, pc.todo[0], pc.src, pc.dst);
    }
  }

  lemma StartMoveKeeps(w: World, a: nat, o: nat, target: Option<nat>)
    requires Inv(w) && a < |w.actors| && w.actors[a].pc == Idle && o < |w.objs|
    requires target.Some? ==> target.value < |w.datas| && w.datas[target.value].hasThread
    ensures Inv(StartMove(w, a, o, target))
    ensures TotalEvents(StartMove(w, a, o, target).datas) == TotalEvents(w.datas)
  {
    hide Family;
    var v := StartMove(w, a, o, target);
    if v != w {
      WithDataKeeps(w);
      var u := if target.Some? then w else WithData(w);
      GotoLocked(u, a, v.actors[a].pc);
      OnlyMovedKeeps(u, v, a);
    }
  }

  lemma SkipKeeps(w: World, a: nat)
    requires Inv(w) && a < |w.actors| && w.actors[a].pc.Removing?
    ensures Inv(Goto(w, a, Unlocking(w.actors[a].pc.data)))
  {
    GotoLocked(w, a, Unlocking(w.actors[a].pc.data));
    OnlyMovedKeeps(w, Goto(w, a, Unlocking(w.actors[a].pc.data)), a);
  }

  lemma IdleKeeps(w: World, a: nat, pc: Pc)
    requires Inv(w) && a < |w.actors| && w.actors[a].pc == Idle
    requires pc.PostReading? || pc.RemoveReading? || (pc.DispatchLocking? && pc.data == w.actors[a].current)
    requires PcTyped(pc, |w.datas|, |w.objs|)
    ensures Inv(Goto(w, a, pc))
  {
    GotoLocked(w, a, pc);
    OnlyMovedKeeps(w, Goto(w, a, pc), a);
  }

  lemma CompressKeeps(w: World, a: nat)
    requires Inv(w) && a < |w.actors| && w.actors[a].pc.PostAdding?
    ensures Inv(Goto(w, a, Unlocking(w.actors[a].pc.data)))
  {
    GotoLocked(w, a, Unlocking(w.actors[a].pc.data));
    OnlyMovedKeeps(w, Goto(w, a, Unlocking(w.actors[a].pc.data)), a);
  }

  datatype Step = Step(actor: nat, action: Action)

  /** The thread is in `moveToThread` for `o`. */
  predicate Moves(pc: Pc, o: nat) {
    match pc
    case MoveLockingFirst(x, _, _) => x == o
    case MoveLockingSecond(x, _, _) => x == o
    case Moving(_, _, _, todo, _) => o in todo
    case _ => false
  }

  /** What callers must see to: nobody moves an object that has no thread while another thread is
      moving it, and the ThreadChange handlers leave the parent of the moved object alone. */
  predicate Calm(w: World, step: Step)
    requires Typed(w)
  {
    match step.action
    case MoveTo(o, _) =>
      o < |w.objs| && !w.datas[w.objs[o].data].hasThread ==>
        forall b :: 0 <= b < |w.actors| && b != step.actor ==> !Moves(w.actors[b].pc, o)
    case SetParent(o, _) => step.actor < |w.actors| ==> !Moves(w.actors[step.actor].pc, o)
    case _ => true
  }

  /** Whatever one thread does next, every live entry stays with its receiver, trees stay
      together, counts stay exact, and no event is lost or doubled. */
  lemma NextKeeps(w: World, a: nat, action: Action)
    requires Inv(w) && Next(w, a, action).Some? && Calm(w, Step(a, action))
    requires action.Go? ==> StillThere(w, a)
    ensures Inv(Next(w, a, action).value)
    ensures TotalEvents(Next(w, a, action).value.datas) + Taken(w, a, action) == TotalEvents(w.datas) + Posted(w, a, action)
  {
    hide Counted, Placed, Together, Family, Locked, OnTheWay, TotalEvents, Proceed, AddTo;
    var pc := w.actors[a].pc;
    match action
    case Post(r, e, priority) => IdleKeeps(w, a, PostReading(r, e, priority));
    case MoveTo(o, target) => StartMoveKeeps(w, a, o, target);
    case SetParent(o, parent) =>
      OwnObject(w, a, o);
      ReparentKeeps(w, o, parent);
    case NewObject(parent, isWidget) => ConstructKeeps(w, a, parent, isWidget);
    case Dispatch => IdleKeeps(w, a, DispatchLocking(w.actors[a].current));
    case Remove(target, kind, inPlace) => IdleKeeps(w, a, RemoveReading(target, kind, inPlace));
    case Go => ProceedKeeps(w, a);
    case Compress => CompressKeeps(w, a);
    case Take(k) =>
      TakeKeeps(w, a, k);
      TakeConserves(w, pc.data, k);
    case Sweep(n) =>
      SweepKeeps(w, a, n);
      SweepConserves(w, pc.data, n);
  }

  // ----- no counter below zero -----------------------------------------------------------

  predicate Counts(w: World, a: nat, r: nat) {
    a < |w.actors| && w.actors[a].pc.PostCounting? && w.actors[a].pc.r == r
  }

  /** Both would hold the mutex of the queue their object lives in. */
  lemma OneCounter(w: World, a: nat, b: nat, r: nat)
    requires Inv(w) && Counts(w, a, r) && Counts(w, b, r)
    ensures a == b
  {
    assert Checked(w, w.actors[a]) && Checked(w, w.actors[b]);
    OneHolder(w, a, b, w.actors[a].pc.data);
  }

  /** One thread at most is counting an event for an object. */
  lemma {:induction false} CountingOnce(w: World, n: nat, r: nat) returns (a: nat)
    requires Inv(w) && n <= |w.actors|
    ensures Counting(w.actors[..n], r) <= 1
    ensures Counting(w.actors[..n], r) == 1 ==> a < n && Counts(w, a, r)
  {
    hide Inv;
    a := 0;
    if n > 0 {
      assert w.actors[..n][..n - 1] == w.actors[..n - 1];
      a := CountingOnce(w, n - 1, r);
      if Counts(w, n - 1, r) {
        if Counting(w.actors[..n - 1], r) == 1 {
          OneCounter(w, a, n - 1, r);
        }
        a := n - 1;
      }
    }
  }

  /** So `m_postedEvents` is never negative: not after a delivery (the assert at
      src/kernel/CoreApplication.cpp:1277), and not at any other time. */
  lemma NeverNegative(w: World, r: nat)
    requires Inv(w) && r < |w.objs|
    ensures w.objs[r].posted >= 0
  {
    assert w.actors[..|w.actors|] == w.actors;
    var a := CountingOnce(w, |w.actors|, r);
    if Counting(w.actors, r) == 1 {
      var d := w.actors[a].pc.data;
      assert Checked(w, w.actors[a]);
      InTotal(w.datas, d, r);
    }
  }

  lemma {:induction false} InTotal(datas: seq<ThreadData>, d: nat, r: nat)
    requires d < |datas|
    ensures TotalFor(datas, r) >= CountFor(datas[d].list, r)
  {
    if d < |datas| - 1 {
      InTotal(datas[..|datas| - 1], d, r);
    }
  }

  // ----- one mover at a time -------------------------------------------------------------

  predicate WaitsToMove(pc: Pc) {
    pc.MoveLockingFirst? || pc.MoveLockingSecond?
  }

  /** A mover waiting for its locks would still find what it has checked, and nobody else is
      moving its object. */
  ghost predicate Undisputed(w: World, a: nat)
    requires a < |w.actors|
  {
    var pc := w.actors[a].pc;
    WaitsToMove(pc) ==>
      && pc.o < |w.objs| && w.objs[pc.o].data == pc.src && w.objs[pc.o].parent == None
      && forall b :: 0 <= b < |w.actors| && b != a ==> !Moves(w.actors[b].pc, pc.o)
  }

  ghost predicate AllUndisputed(w: World) {
    forall a :: 0 <= a < |w.actors| ==> Undisputed(w, a)
  }

  /** Steps that start no move, and leave the thread data and the parents of objects alone. */
  lemma QuietStep(w: World, v: World, a: nat)
    requires AllUndisputed(w) && a < |w.actors| == |v.actors|
    requires forall b :: 0 <= b < |w.actors| && b != a ==> v.actors[b] == w.actors[b]
    requires |w.objs| <= |v.objs|
    requires forall o :: 0 <= o < |w.objs| ==> v.objs[o].data == w.objs[o].data && v.objs[o].parent == w.objs[o].parent
    requires forall o :: Moves(v.actors[a].pc, o) ==> Moves(w.actors[a].pc, o)
    requires WaitsToMove(v.actors[a].pc) ==>
      WaitsToMove(w.actors[a].pc) && v.actors[a].pc.o == w.actors[a].pc.o && v.actors[a].pc.src == w.actors[a].pc.src
    ensures AllUndisputed(v)
  {
    forall b | 0 <= b < |v.actors|
      ensures Undisputed(v, b)
    {
      assert Undisputed(w, b);
    }
  }

  /** A new parent for an object that nobody moves. */
  lemma TreeStep(w: World, v: World, a: nat, o: nat)
    requires Inv(w) && AllUndisputed(w) && a < |w.actors| && o < |w.objs| && w.objs[o].data == w.actors[a].current
    requires !Moves(w.actors[a].pc, o)
    requires v == w.(objs := v.objs) && OnlyTree(w.objs, v.objs, o)
    ensures AllUndisputed(v)
  {
    forall b | 0 <= b < |v.actors|
      ensures Undisputed(v, b)
    {
      assert Undisputed(w, b) && Checked(w, w.actors[b]);
      assert b != a ==> w.actors[b].current != w.actors[a].current;
    }
  }

  /** `moveToThread` begins for an object that nobody else moves. */
  lemma StartStep(w: World, a: nat, o: nat, target: Option<nat>)
    requires Inv(w) && AllUndisputed(w) && a < |w.actors| && w.actors[a].pc == Idle && o < |w.objs|
    requires Calm(w, Step(a, MoveTo(o, target)))
    ensures AllUndisputed(StartMove(w, a, o, target))
  {
    var v := StartMove(w, a, o, target);
    if v != w {
      forall b | 0 <= b < |w.actors| && b != a
        ensures !Moves(w.actors[b].pc, o)
      {
        assert Undisputed(w, b) && Checked(w, w.actors[b]) && OnTheWay(w, w.actors[b].pc);
        assert w.actors[b].current != w.actors[a].current;
      }
      forall b | 0 <= b < |v.actors|
        ensures Undisputed(v, b)
      {
        assert Undisputed(w, b);
      }
    }
  }

  /** A mover gives an object its new thread data; no waiting mover wants this one, nor its
      children, which have a parent. */
  lemma SetStep(w: World, a: nat)
    requires Inv(w) && AllUndisputed(w) && a < |w.actors| && w.actors[a].pc.Moving?
    requires w.actors[a].pc.todo != [] && w.actors[a].pc.shifted
    ensures AllUndisputed(Proceed(w, a).value)
  {
    var pc, v := w.actors[a].pc, Proceed(w, a).value;
    assert pc.todo[0] in pc.todo;
    forall b | 0 <= b < |v.actors|
      ensures Undisputed(v, b)
    {
      assert Undisputed(w, b);
      if b != a && WaitsToMove(w.actors[b].pc) {
        var o := w.actors[b].pc.o;
        assert !Moves(w.actors[a].pc, o) && o !in w.objs[pc.todo[0]].children;
      }
    }
  }

  lemma UndisputedKeeps(w: World, a: nat, action: Action)
    requires Inv(w) && AllUndisputed(w) && Next(w, a, action).Some? && Calm(w, Step(a, action))
    ensures AllUndisputed(Next(w, a, action).value)
  {
    hide Inv, AllUndisputed, Proceed, Construct, Reparent, StartMove, TakeEntry, SweepEntries, Typed;
    match action
    case MoveTo(o, target) => StartStep(w, a, o, target);
    case SetParent(o, parent) => ParentStep(w, a, o, parent);
    case NewObject(parent, isWidget) => NewStep(w, a, parent, isWidget);
    case Go => GoStep(w, a);
    case _ => CallStep(w, a, action);
  }

  /** Calls that begin, and what the owner of a queue does with it. */
  lemma CallStep(w: World, a: nat, action: Action)
    requires Inv(w) && AllUndisputed(w) && Next(w, a, action).Some?
    requires action.Post? || action.Dispatch? || action.Compress? || action.Take? || action.Sweep? || action.Remove?
    ensures AllUndisputed(Next(w, a, action).value)
  {
    hide AllUndisputed, Counted, Placed, Together, Family, Locked;
    QuietStep(w, Next(w, a, action).value, a);
  }

  lemma GoStep(w: World, a: nat)
    requires Inv(w) && AllUndisputed(w) && a < |w.actors| && Proceed(w, a).Some?
    ensures AllUndisputed(Proceed(w, a).value)
  {
    hide AllUndisputed, Counted, Placed, Together, Family, Locked;
    if w.actors[a].pc.Moving? && w.actors[a].pc.todo != [] && w.actors[a].pc.shifted {
      SetStep(w, a);
    } else {
      QuietStep(w, Proceed(w, a).value, a);
    }
  }

  lemma ParentStep(w: World, a: nat, o: nat, parent: Option<nat>)
    requires Inv(w) && AllUndisputed(w) && Next(w, a, SetParent(o, parent)).Some? && Calm(w, Step(a, SetParent(o, parent)))
    ensures AllUndisputed(Next(w, a, SetParent(o, parent)).value)
  {
    hide AllUndisputed, Counted, Placed, Together, Locked;
    ReparentFamily(w.objs, o, parent);
    TreeStep(w, Next(w, a, SetParent(o, parent)).value, a, o);
  }

  lemma NewStep(w: World, a: nat, parent: Option<nat>, isWidget: bool)
    requires Inv(w) && AllUndisputed(w) && a < |w.actors| && (parent.Some? ==> parent.value < |w.objs|)
    ensures AllUndisputed(Construct(w, a, parent, isWidget))
  {
    QuietStep(w, Construct(w, a, parent, isWidget), a);
  }

  /** So a mover need not look again once it has its locks. */
  lemma UndisputedStillThere(w: World, a: nat)
    requires Typed(w) && AllUndisputed(w) && a < |w.actors|
    ensures StillThere(w, a)
  {
    assert Undisputed(w, a);
  }

  // ----- whole runs ----------------------------------------------------------------------

  /** Any threads take any steps in any order. */
  ghost predicate Run(worlds: seq<World>, steps: seq<Step>) {
    && |worlds| == |steps| + 1
    && forall i :: 0 <= i < |steps| ==> StepTaken(worlds[i], steps[i], worlds[i + 1])
  }

  ghost predicate StepTaken(w: World, step: Step, v: World) {
    Typed(w) && Next(w, step.actor, step.action) == Some(v)
  }

  ghost predicate CalmRun(worlds: seq<World>, steps: seq<Step>)
    requires Run(worlds, steps)
  {
    forall i :: 0 <= i < |steps| ==> StepTaken(worlds[i], steps[i], worlds[i + 1]) && Calm(worlds[i], steps[i])
  }

  predicate AllIdle(w: World) {
    forall a :: 0 <= a < |w.actors| ==> w.actors[a].pc == Idle
  }

  ghost function AllPosted(worlds: seq<World>, steps: seq<Step>): multiset<Event>
    requires |worlds| == |steps| + 1
  {
    if steps == [] then multiset{}
    else
      var n := |steps| - 1;
      AllPosted(worlds[..n + 1], steps[..n]) + Posted(worlds[n], steps[n].actor, steps[n].action)
  }

  ghost function AllTaken(worlds: seq<World>, steps: seq<Step>): multiset<Event>
    requires |worlds| == |steps| + 1
  {
    if steps == [] then multiset{}
    else
      var n := |steps| - 1;
      AllTaken(worlds[..n + 1], steps[..n]) + Taken(worlds[n], steps[n].actor, steps[n].action)
  }

  /** If the callers keep calm, then after any run every live entry is in the queue of its
      receiver's thread, trees are together, counts are exact, and no event is lost or doubled. */
  lemma {:induction false} RunKeeps(worlds: seq<World>, steps: seq<Step>)
    requires Run(worlds, steps) && CalmRun(worlds, steps) && Inv(worlds[0]) && AllIdle(worlds[0])
    ensures Inv(worlds[|steps|]) && AllUndisputed(worlds[|steps|])
    ensures TotalEvents(worlds[|steps|].datas) + AllTaken(worlds, steps) == TotalEvents(worlds[0].datas) + AllPosted(worlds, steps)
  {
    hide Inv, Next, Calm, AllUndisputed, TotalEvents, Posted, Taken;
    IdleUndisputed(worlds[0]);
    if steps != [] {
      var n := |steps| - 1;
      var before, after := worlds[..n + 1], steps[..n];
      assert forall i :: 0 <= i < n ==> StepTaken(worlds[i], steps[i], worlds[i + 1]) && Calm(worlds[i], steps[i]);
      RunKeeps(before, after);
      assert StepTaken(worlds[n], steps[n], worlds[n + 1]);
      LastStep(worlds[n], steps[n], worlds[n + 1]);
      Chain(TotalEvents(worlds[0].datas), TotalEvents(worlds[n].datas), TotalEvents(worlds[n + 1].datas),
            AllTaken(before, after), AllPosted(before, after),
            Taken(worlds[n], steps[n].actor, steps[n].action), Posted(worlds[n], steps[n].actor, steps[n].action));
    }
  }

  lemma IdleUndisputed(w: World)
    requires AllIdle(w)
    ensures AllUndisputed(w)
  {
  }

  /** No counter is ever negative, whatever the calm interleaving. */
  lemma RunNeverNegative(worlds: seq<World>, steps: seq<Step>, r: nat)
    requires Run(worlds, steps) && CalmRun(worlds, steps) && Inv(worlds[0]) && AllIdle(worlds[0])
    requires r < |worlds[|steps|].objs|
    ensures worlds[|steps|].objs[r].posted >= 0
  {
    RunKeeps(worlds, steps);
    NeverNegative(worlds[|steps|], r);
  }

  lemma LastStep(w: World, step: Step, v: World)
    requires Inv(w) && AllUndisputed(w) && StepTaken(w, step, v) && Calm(w, step)
    ensures Inv(v) && AllUndisputed(v)
    ensures TotalEvents(v.datas) + Taken(w, step.actor, step.action) == TotalEvents(w.datas) + Posted(w, step.actor, step.action)
  {
    UndisputedStillThere(w, step.actor);
    UndisputedKeeps(w, step.actor, step.action);
    NextKeeps(w, step.actor, step.action);
  }

  lemma Chain(t0: multiset<Event>, t1: multiset<Event>, t2: multiset<Event>,
              out0: multiset<Event>, in0: multiset<Event>, out1: multiset<Event>, in1: multiset<Event>)
    requires t1 + out0 == t0 + in0 && t2 + out1 == t1 + in1
    ensures t2 + (out0 + out1) == t0 + (in0 + in1)
  {
    forall z
      ensures (t2 + (out0 + out1))[z] == (t0 + (in0 + in1))[z]
    {
      assert (t1 + out0)[z] == (t0 + in0)[z] && (t2 + out1)[z] == (t1 + in1)[z];
    }
  }

  /** When every thread is between two calls, nothing is on the way anywhere. */
  lemma AtRest(w: World)
    requires Inv(w) && AllIdle(w)
    ensures forall d, k :: 0 <= d < |w.datas| && 0 <= k < |w.datas[d].list| && Live(w.datas[d].list[k]) ==>
      w.datas[d].list[k].receiver < |w.objs| && w.objs[w.datas[d].list[k].receiver].data == d
    ensures forall o :: 0 <= o < |w.objs| && w.objs[o].parent.Some? ==>
      w.objs[o].parent.value < |w.objs| && w.objs[w.objs[o].parent.value].data == w.objs[o].data
    ensures forall r :: 0 <= r < |w.objs| ==> w.objs[r].posted == TotalFor(w.datas, r)
  {
    forall r: nat | r < |w.objs|
      ensures Counting(w.actors, r) == 0
    {
      NobodyCounts(w.actors, r);
    }
    forall o | 0 <= o < |w.objs| && w.objs[o].parent.Some?
      ensures w.objs[o].parent.value < |w.objs| && w.objs[w.objs[o].parent.value].data == w.objs[o].data
    {
      assert o in w.objs[w.objs[o].parent.value].children;
      assert !Pending(w, o);
    }
  }

  /** Locks are taken in one order, so somebody can always go on. */
  lemma {:induction false} NoDeadlock(w: World, a: nat) returns (b: nat)
    requires Typed(w) && Locked(w) && a < |w.actors| && w.actors[a].pc != Idle
    ensures b < |w.actors| && w.actors[b].pc != Idle && Proceed(w, b).Some?
    decreases |w.datas| - match Wants(w.actors[a].pc) case Some(d) => d case None => 0
  {
    if Proceed(w, a).Some? {
      return a;
    }
    var d := Wants(w.actors[a].pc).value;
    var c := w.datas[d].holder.value;
    assert Holds(w.actors[c].pc, d);
    if Proceed(w, c).Some? {
      return c;
    }
    b := NoDeadlock(w, c);
  }
}

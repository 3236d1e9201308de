/** `postEvent`, `compressEvent`, `sendPostedEvents` with its clean-up, `removePostedEvent` and
    `removePostedEvents` of src/kernel/CoreApplication.cpp, and the loop nesting of
    `EventLoop::exec` (src/kernel/EventLoop.cpp), as methods of one thread's data.

    Event handlers are arbitrary user code.  They are played by a finite `script` of queue
    operations: every handler and every nested event loop consumes operations from it until
    its `Return`.  Nothing is assumed about the script, so what is proved holds in every
    reachable state, at any depth of nesting. */
module EventDispatch {
  import opened Wrappers
  import opened PostEventLists
  import opened PostedEvents

  /** The application object, whose Quit events `EventLoop::exec` discards on entry. */
  const APPLICATION: nat := 0

  ghost predicate HoldsId(pe: PostEvent, id: nat) {
    Live(pe) && pe.event.value.id == id
  }

  /** How far the loop of `removePostedEvents` has got: the entries before `i` are dealt with,
      and the kept ones are the first `j` unless slots are only cleared. */
  ghost predicate Compacting(before: seq<PostEvent>, list: seq<PostEvent>, i: nat, j: nat,
                             target: Option<nat>, kind: int, inPlace: bool)
    requires j <= i <= |list| == |before|
  {
    && list[i..] == before[i..]
    && (inPlace ==> list[..i] == NullMatching(before[..i], target, kind))
    && (!inPlace ==> list[..j] == Keep(before[..i], target, kind))
  }

  lemma MatchingStep(before: seq<PostEvent>, known: map<nat, ObjectPrivate>, i: nat, target: Option<nat>, kind: int)
    requires i < |before|
    ensures DecrementAll(known, Matching(before[..i + 1], target, kind))
         == if Matches(before[i], target, kind)
            then Add(DecrementAll(known, Matching(before[..i], target, kind)), before[i].receiver, -1)
            else DecrementAll(known, Matching(before[..i], target, kind))
    ensures LiveEvents(Matching(before[..i + 1], target, kind))
         == if Matches(before[i], target, kind)
            then LiveEvents(Matching(before[..i], target, kind)) + multiset{before[i].event.value}
            else LiveEvents(Matching(before[..i], target, kind))
  {
    var m := Matching(before[..i], target, kind);
    assert before[..i + 1] == before[..i] + [before[i]];
    RemovalSnoc(before[..i], before[i], target, kind);
    CountSnoc(m, before[i], 0);
    assert (m + [before[i]])[..|m|] == m;
  }

  lemma CompactingStep(before: seq<PostEvent>, list: seq<PostEvent>, i: nat, j: nat,
                       target: Option<nat>, kind: int, inPlace: bool)
    requires j <= i < |list| == |before| && Compacting(before, list, i, j, target, kind, inPlace)
    ensures list[i] == before[i]
    ensures Matches(list[i], target, kind) ==>
      Compacting(before, list[i := Nulled(list[i])], i + 1, j, target, kind, inPlace)
    ensures !Matches(list[i], target, kind) && inPlace ==> Compacting(before, list, i + 1, j, target, kind, inPlace)
    ensures !Matches(list[i], target, kind) && !inPlace ==>
      Compacting(before, if i != j then list[i := list[j]][j := list[i]] else list, i + 1, j + 1, target, kind, inPlace)
  {
    hide Keep, NullMatching, Matching;
    assert list[i] == list[i..][0] == before[i];
    assert list[i + 1..] == list[i..][1..] == before[i..][1..] == before[i + 1..];
    assert before[..i + 1] == before[..i] + [before[i]];
    RemovalSnoc(before[..i], before[i], target, kind);
    if Matches(list[i], target, kind) {
      var nulled := list[i := Nulled(list[i])];
      assert nulled[i + 1..] == list[i + 1..];
      if inPlace {
        assert nulled[..i + 1] == list[..i] + [nulled[i]];
      } else {
        assert nulled[..j] == list[..j];
      }
    } else if inPlace {
      assert list[..i + 1] == list[..i] + [list[i]];
    } else {
      var swapped := if i != j then list[i := list[j]][j := list[i]] else list;
      assert swapped[..j + 1] == list[..j] + [list[i]];
      assert swapped[i + 1..] == list[i + 1..];
    }
  }

  /** Where the loop starts. */
  lemma NothingRemoved(before: seq<PostEvent>, known: map<nat, ObjectPrivate>, target: Option<nat>, kind: int, inPlace: bool)
    ensures Compacting(before, before, 0, 0, target, kind, inPlace)
    ensures Matching(before[..0], target, kind) == [] && DecrementAll(known, []) == known && LiveEvents([]) == multiset{}
  {
  }

  /** What compaction leaves behind once it has seen everything. */
  lemma Compacted(before: seq<PostEvent>, list: seq<PostEvent>, j: nat, target: Option<nat>, kind: int, inPlace: bool)
    requires j <= |list| == |before| && Compacting(before, list, |before|, j, target, kind, inPlace)
    ensures if inPlace then list == NullMatching(before, target, kind) else list[..j] == Keep(before, target, kind)
  {
    assert before[..|before|] == before && list[..|list|] == list;
  }

  /** The part of `removePostedEvents` that runs under the lock: matching events are collected
      and uncounted; their slots are cleared if a pass is running, else squeezed out by swapping. */
  method RemoveMatching(before: seq<PostEvent>, known: map<nat, ObjectPrivate>, target: Option<nat>, kind: int, inPlace: bool)
    returns (list: seq<PostEvent>, objects: map<nat, ObjectPrivate>, events: multiset<Event>)
    ensures list == if inPlace then NullMatching(before, target, kind) else Keep(before, target, kind)
    ensures objects == DecrementAll(known, Matching(before, target, kind))
    ensures events == LiveEvents(Matching(before, target, kind))
  {
    hide Matching, Keep, NullMatching, LiveEvents, DecrementAll, Compacting;
    list, objects, events := before, known, multiset{};
    var n, i, j := |before|, 0, 0;
    NothingRemoved(before, known, target, kind, inPlace);
    while i < n
      invariant 0 <= j <= i <= n == |list|
      invariant Compacting(before, list, i, j, target, kind, inPlace)
      invariant objects == DecrementAll(known, Matching(before[..i], target, kind))
      invariant events == LiveEvents(Matching(before[..i], target, kind))
    {
      MatchingStep(before, known, i, target, kind);
      CompactingStep(before, list, i, j, target, kind, inPlace);
      var pe := list[i];
      if Matches(pe, target, kind) {
        objects := Add(objects, pe.receiver, -1);
        events := events + multiset{pe.event.value};
        list := list[i := Nulled(pe)];
      } else if !inPlace {
        if i != j {
          list := list[i := list[j]][j := list[i]];
        }
        j := j + 1;
      }
      i := i + 1;
    }
    assert before[..n] == before;
    Compacted(before, list, j, target, kind, inPlace);
    if !inPlace {
      list := list[..j];
    }
  }

  class ThreadData {
    var list: seq<PostEvent>
    var recursion: nat
    var startOffset: nat
    var insertionOffset: nat
    var loopLevel: int
    var scopeLevel: int
    var eventLoops: seq<nat>
    var objects: map<nat, ObjectPrivate>
    var script: seq<Action>
    var clock: nat
    ghost var past: History

    ghost function View(): State
      reads this
    {
      State(list, recursion, startOffset, insertionOffset, loopLevel, scopeLevel, eventLoops, objects, script, clock, past)
    }

    constructor (script: seq<Action>)
      ensures Inv(View()) && list == [] && recursion == 0 && this.script == script
      ensures loopLevel == 0 && scopeLevel == 0 && past == History(multiset{}, [], multiset{}, map[], map[])
    {
      list, recursion, startOffset, insertionOffset := [], 0, 0, 0;
      loopLevel, scopeLevel, eventLoops := 0, 0, [];
      objects, clock := map[], 0;
      this.script := script;
      past := History(multiset{}, [], multiset{}, map[], map[]);
    }

    /** `compressEvent`, called when the receiver has posted events. */
    method CompressEvent(receiver: nat, kind: int) returns (dropped: bool)
      requires Get(objects, receiver).postedEvents > 0
      ensures dropped == Drops(View(), receiver, kind)
    {
      if kind == DEFERRED_DELETE {
        return Get(objects, receiver).deleteLaterCalled;
      }
      if kind == QUIT && Get(objects, receiver).postedEvents > 0 {
        var i := 0;
        while i < |list|
          invariant i <= |list|
          invariant forall k :: 0 <= k < i ==> !Matches(list[k], Some(receiver), QUIT)
        {
          var cur := list[i];
          if !(cur.receiver != receiver || cur.event.None? || cur.event.value.kind != kind) {
            assert Matches(list[i], Some(receiver), QUIT);
            return true;
          }
          i := i + 1;
        }
      }
      return false;
    }

    /** `postEvent` for a receiver living in this thread. */
    method PostEvent(receiver: nat, kind: int, priority: int, fromOwnThread: bool)
      requires CountedBy(list, objects)
      modifies this`list, this`objects, this`clock, this`past
      ensures View() == PostStep(old(View()), receiver, kind, priority, fromOwnThread)
    {
      ghost var s := View();
      assert Get(objects, receiver).postedEvents == CountFor(list, receiver);
      if Get(objects, receiver).postedEvents != 0 {
        var dropped := CompressEvent(receiver, kind);
        if dropped {
          return;
        }
      }
      assert !Drops(s, receiver, kind);
      var level := 0;
      if kind == DEFERRED_DELETE && fromOwnThread {
        var scope := scopeLevel;
        if scope == 0 && loopLevel != 0 {
          scope := 1;
        }
        level := loopLevel + scope;
      }
      assert level == PostLevel(s, kind, fromOwnThread);
      Accept(receiver, priority, Event(clock, kind, level));
    }

    /** The event is queued and counted. */
    method Accept(receiver: nat, priority: int, e: Event)
      modifies this`list, this`objects, this`clock, this`past
      ensures View() == AcceptStep(old(View()), receiver, priority, e)
    {
      var pe := PostEventLists.PostEvent(receiver, Some(e), priority, clock);
      list := AddEvent(list, insertionOffset, pe);
      objects := Add(Flag(objects, receiver, e.kind), receiver, 1);
      past := past.(accepted := past.accepted + multiset{e}, posted := past.posted[clock := pe]);
      clock := clock + 1;
    }

    /** A queued event is unposted: its slot is cleared and its receiver counts one less. */
    method TakeOut(i: nat)
      requires i < |list| && Live(list[i])
      modifies this`list, this`objects, this`past
      ensures list == old(list)[i := Nulled(old(list)[i])]
      ensures objects == Add(old(objects), old(list)[i].receiver, -1)
      ensures past == Removed(old(past), multiset{old(list)[i].event.value})
    {
      var pe := list[i];
      objects := Add(objects, pe.receiver, -1);
      list := list[i := Nulled(pe)];
      past := Removed(past, multiset{pe.event.value});
    }

    /** `removePostedEvent`, run when a posted event object is destroyed. */
    method RemovePostedEvent(id: nat)
      modifies this`list, this`objects, this`past
      ensures (forall k :: 0 <= k < |old(list)| ==> !HoldsId(old(list)[k], id)) ==> View() == old(View())
      ensures (exists k :: 0 <= k < |old(list)| && HoldsId(old(list)[k], id)) ==>
        exists i :: 0 <= i < |old(list)| && HoldsId(old(list)[i], id) && View() == RemoveStep(old(View()), i)
    {
      var i := 0;
      while i < |list|
        invariant i <= |list| && list == old(list) && objects == old(objects) && past == old(past)
        invariant forall j :: 0 <= j < i ==> !HoldsId(list[j], id)
      {
        var pe := list[i];
        if pe.event.Some? && pe.event.value.id == id {
          assert HoldsId(old(list)[i], id);
          TakeOut(i);
          assert View() == RemoveStep(old(View()), i);
          return;
        }
        i := i + 1;
      }
    }

    /** `removePostedEvents`. */
    method RemovePostedEvents(target: Option<nat>, kind: int)
      requires CountedBy(list, objects)
      modifies this`list, this`objects, this`past
      ensures View() == RemoveEventsStep(old(View()), target, kind)
    {
      if target.Some? && Get(objects, target.value).postedEvents == 0 {
        assert CountFor(list, target.value) == 0;
        CountPositive(list, target.value);
        KeepAll(list, target, kind);
        assert past == Removed(past, LiveEvents([]));
        return;
      }
      var events;
      list, objects, events := RemoveMatching(list, objects, target, kind, recursion > 0);
      past := Removed(past, events);
    }

    /** A deferred delete is put back into the queue; its old slot is cleared first. */
    method Repost(i: nat)
      requires i < |list|
      modifies this`list, this`clock, this`past
      ensures View() == RepostStep(old(View()), i)
    {
      var copy := list[i];
      list := list[i := Nulled(copy)];
      list := AddEvent(list, insertionOffset, copy.(stamp := clock));
      past := past.(refused := past.refused[clock := loopLevel + scopeLevel]);
      clock := clock + 1;
    }

    /** An event leaves the queue to be delivered. */
    method Unqueue(i: nat, target: Option<nat>, kind: int)
      requires i < |list| && Live(list[i])
      modifies this`list, this`objects, this`past
      ensures View() == DeliverStep(old(View()), i, target, kind)
    {
      var pe := list[i];
      objects := Add(objects, pe.receiver, -1);
      past := past.(log := past.log + [Delivery(pe, loopLevel + scopeLevel, target, kind)]);
      list := list[i := Nulled(pe)];
    }

    /** The entry at `i` is delivered: its handler runs one scope level further in. */
    method Deliver(i: nat, target: Option<nat>, kind: int, ghost a: State, ghost since: nat)
      requires AtEntry(a, i, target, kind, since) && View() == Advanced(a, i, target, kind)
      requires Deliverable(a.list[i], target, kind, a.loopLevel + a.scopeLevel)
      modifies this
      ensures Handled(a, View(), i, target, kind, since)
      decreases |script|, 1
    {
      hide Tidy, Conserved, AllTimely, AllAsPosted, DeliveredAsPosted, AllLawful;
      NotifyKeeps(a, i, target, kind, since);
      ghost var notified := Notify(a, i, target, kind);
      assert i < |list| && notified.insertionOffset == a.insertionOffset && notified.clock == a.clock;
      assert Live(list[i]);
      Unqueue(i, target, kind);
      scopeLevel := scopeLevel + 1;
      assert View() == notified;
      RunUserCode(since);
      ghost var done := View();
      NotifyHandled(a, i, target, kind, since, done);
      scopeLevel := scopeLevel - 1;
      assert View() == done.(scopeLevel := done.scopeLevel - 1);
    }

    /** One iteration of the loop in `sendPostedEvents`, at entry `i`. */
    method HandleEntry(i: nat, target: Option<nat>, kind: int, ghost since: nat)
      requires AtEntry(View(), i, target, kind, since)
      modifies this
      ensures Handled(old(View()), View(), i, target, kind, since)
      decreases |script|, 2
    {
      hide Tidy, AllTimely, LiveEvents, AddEvent;
      ghost var a := View();
      if IsGlobal(target, kind) {
        startOffset := i + 1;
      }
      assert View() == Advanced(a, i, target, kind);
      var pe := list[i];
      if pe.event.None? {
        SkipHandled(a, i, target, kind, since);
        return;
      }
      if (target.Some? && target.value != pe.receiver) || (kind != NO_TYPE && kind != pe.event.value.kind) {
        SkipHandled(a, i, target, kind, since);
        return;
      }
      if pe.event.value.kind == DEFERRED_DELETE
         && !AllowDeferredDelete(pe.event.value.level, loopLevel + scopeLevel, kind)
      {
        if kind == NO_TYPE && target == None {
          RepostHandled(a, i, since);
          Repost(i);
          assert View() == Advanced(RepostStep(a, i), i, None, NO_TYPE);
        } else {
          SkipHandled(a, i, target, kind, since);
        }
        return;
      }
      Deliver(i, target, kind, a, since);
    }

    /** The loop of `sendPostedEvents`; `i` is the shared offset in a pass over everything and
        a copy of it otherwise. */
    method DeliverAll(target: Option<nat>, kind: int) returns (i: nat, ghost order: seq<nat>)
      requires Inv(View()) && recursion > 0 && insertionOffset == |list|
      modifies this
      ensures Passing(old(View()), View(), i, target, kind, order) && i >= insertionOffset
      decreases |script|, 3
    {
      ghost var begun := View();
      i, order := startOffset, [];
      PassingBegins(begun, target, kind);
      while i < |list| && i < insertionOffset
        invariant Passing(begun, View(), i, target, kind, order)
        decreases |script|, insertionOffset - i
      {
        ghost var v := View();
        HandleEntry(i, target, kind, begun.clock);
        PassingStep(begun, v, View(), i, target, kind, order);
        order := OrderStep(v, i, target, kind, order);
        i := if IsGlobal(target, kind) then startOffset else i + 1;
      }
    }

    /** The destructor of `CleanUp`: a pass over everything erases what it has been through. */
    method CleanUp(target: Option<nat>, kind: int)
      requires recursion > 0 && startOffset <= insertionOffset <= |list|
      modifies this`recursion, this`list, this`insertionOffset, this`startOffset
      ensures View() == EndStep(old(View()), target, kind)
    {
      recursion := recursion - 1;
      if kind == NO_TYPE && target == None {
        list := list[startOffset..];
        insertionOffset := insertionOffset - startOffset;
        startOffset := 0;
      }
    }

    /** `sendPostedEvents` for this thread.  `order` lists the positions, in the queue as it was
        at the call, of the entries delivered by a pass whose handlers do not send. */
    method SendPostedEvents(target: Option<nat>, kind: int, ghost since: nat) returns (ghost order: seq<nat>)
      requires Inv(View()) && since <= clock && AddedSince(list, insertionOffset, since)
      modifies this
      ensures Passed(old(View()), View(), target, kind, since, order)
      decreases |script|, 4
    {
      ghost var a := View();
      order := [];
      recursion := recursion + 1;
      if |list| == 0 || (target.Some? && Get(objects, target.value).postedEvents == 0) {
        recursion := recursion - 1;
        NothingDue(a, target, kind, since);
        return;
      }
      insertionOffset := |list|;
      BeginKeeps(a, a.clock);
      assert View() == BeginStep(a);
      var i;
      i, order := DeliverAll(target, kind);
      PassEnds(a, View(), i, target, kind, since, order);
      CleanUp(target, kind);
    }

    /** Arbitrary code of the application, up to its `Return`. */
    method RunUserCode(ghost since: nat)
      requires Inv(View()) && since <= clock && AddedSince(list, insertionOffset, since)
      modifies this
      ensures UserCodeRan(old(View()), View(), since)
      decreases |script|, 0
    {
      hide Inv, Resumes, UserCodeRan, Undisturbed;
      ghost var a := View();
      UserCodeStarts(a, since);
      while script != []
        invariant UserCodeRan(a, View(), since)
        decreases |script|
      {
        ghost var v := View();
        var action := script[0];
        script := script[1..];
        assert View() == Popped(v);
        UserCodeGoesOn(a, v, since);
        if action.Return? {
          UserCodeStep(a, v, View(), since);
          return;
        }
        Perform(action, since);
        UserCodeStep(a, v, View(), since);
      }
    }

    /** One operation of the application. */
    method Perform(action: Action, ghost since: nat)
      requires Inv(View()) && since <= clock && AddedSince(list, insertionOffset, since)
      modifies this
      ensures Resumes(old(View()), View(), since)
      ensures old(recursion) > 0 && NoSends(old(script)) && !action.Send? && !action.Exec? ==>
        Undisturbed(old(View()), View())
      ensures NoGlobals(old(script)) && !(action.Send? && IsGlobal(action.target, action.kind)) ==> Unrefused(old(View()), View())
      decreases |script|, 5
    {
      ghost var a := View();
      match action {
        case Post(receiver, kind, priority, fromOwnThread) =>
          PostKeeps(a, receiver, kind, priority, fromOwnThread, since);
          PostEvent(receiver, kind, priority, fromOwnThread);
        case RemoveEvent(id) =>
          forall i | 0 <= i < |list| && HoldsId(list[i], id) {
            RemoveKeeps(a, i, since);
          }
          RemovePostedEvent(id);
        case RemoveEvents(target, kind) =>
          RemoveEventsKeeps(a, target, kind, since);
          RemovePostedEvents(target, kind);
        case Send(target, kind) =>
          ghost var order := SendPostedEvents(target, kind, since);
        case Exec(eventLoop) =>
          ExecLoop(eventLoop, since);
        case Return =>
      }
    }

    /** `EventLoop::exec`: the loop runs whatever its events trigger until it is told to exit.  A
        loop that is running already is left alone. */
    method ExecLoop(eventLoop: nat, ghost since: nat)
      requires Inv(View()) && since <= clock && AddedSince(list, insertionOffset, since)
      modifies this
      ensures Resumes(old(View()), View(), since)
      ensures NoGlobals(old(script)) ==> Unrefused(old(View()), View())
      ensures LoggedFurtherIn(past.log, |old(past.log)|, old(loopLevel + scopeLevel) + 1)
      decreases |script|, 2
    {
      hide Inv, CountedBy;
      ghost var a := View();
      if eventLoop in eventLoops {
        NothingChanges(a, since);
        return;
      }
      loopLevel := loopLevel + 1;
      eventLoops := eventLoops + [eventLoop];
      assert View() == EnterLoop(a, eventLoop);
      EnterKeeps(a, eventLoop);
      RemoveEventsKeeps(EnterLoop(a, eventLoop), Some(APPLICATION), QUIT, since);
      RemovePostedEvents(Some(APPLICATION), QUIT);
      RunUserCode(since);
      ExecKeeps(a, eventLoop, Some(APPLICATION), View(), since);
      var last := eventLoops[|eventLoops| - 1];
      eventLoops := eventLoops[..|eventLoops| - 1];
      assert last == eventLoop;
      loopLevel := loopLevel - 1;
    }
  }
}

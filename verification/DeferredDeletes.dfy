/** When a deferred delete runs (`postEvent` and `sendPostedEvents` of
    src/kernel/CoreApplication.cpp): from the nesting at the post to the pass that delivers it,
    over whatever happens to the queue in between. */
module DeferredDeletes {
  import opened Wrappers
  import opened PostEventLists
  import opened PostedEvents

  // ----- members of queues and logs -----------------------------------------------------

  lemma {:induction false} DueMembers(list: seq<PostEvent>, target: Option<nat>, kind: int, level: int, pe: PostEvent)
    ensures pe in Due(list, target, kind, level) <==> pe in list && Deliverable(pe, target, kind, level)
  {
    if list != [] {
      DueMembers(list[..|list| - 1], target, kind, level, pe);
      assert list == list[..|list| - 1] + [list[|list| - 1]];
    }
  }

  lemma {:induction false} LiveMembers(list: seq<PostEvent>, e: Event)
    ensures e in LiveEvents(list) <==> exists pe :: pe in list && pe.event == Some(e)
  {
    if list != [] {
      LiveMembers(list[1..], e);
      assert list == [list[0]] + list[1..];
    }
  }

  lemma {:induction false} SentConcat(log: seq<Delivery>, more: seq<Delivery>)
    ensures Sent(log + more) == Sent(log) + Sent(more)
  {
    if more == [] {
      assert log + more == log;
    } else {
      assert (log + more)[..|log + more| - 1] == log + more[..|more| - 1];
      SentConcat(log, more[..|more| - 1]);
    }
  }

  lemma {:induction false} SentMembers(log: seq<Delivery>, e: Event)
    ensures e in Sent(log) <==> exists d :: d in log && d.entry.event == Some(e)
  {
    if log != [] {
      SentMembers(log[..|log| - 1], e);
      assert log == log[..|log| - 1] + [log[|log| - 1]];
    }
  }

  // ----- what a post does ---------------------------------------------------------------

  /** A DeferredDelete is dropped if one was called for and the receiver has events queued. */
  predicate DeleteDropped(s: State, receiver: nat) {
    Get(s.objects, receiver).deleteLaterCalled && Get(s.objects, receiver).postedEvents != 0
  }

  predicate QuitQueued(s: State, receiver: nat) {
    exists k :: 0 <= k < |s.list| && s.list[k].receiver == receiver && s.list[k].event.Some? && s.list[k].event.value.kind == QUIT
  }

  /** `pe` stands at `k` behind all of its priority and above, and before all below it; the
      other entries are where they were. */
  ghost predicate PlacedAt(before: seq<PostEvent>, after: seq<PostEvent>, from: nat, k: nat, pe: PostEvent) {
    && k <= |before| && after == before[..k] + [pe] + before[k..]
    && (from <= k || k == |before|)
    && (forall j :: from <= j < k ==> before[j].priority >= pe.priority)
    && (forall j :: k <= j < |before| ==> before[j].priority < pe.priority)
  }

  lemma AddPlaces(list: seq<PostEvent>, from: nat, pe: PostEvent)
    requires SortedFrom(list, from)
    ensures PlacedAt(list, AddEvent(list, from, pe), from, AddPosition(list, from, pe.priority), pe)
  {
    var k := AddPosition(list, from, pe.priority);
    forall j | from <= j < k
      ensures list[j].priority >= pe.priority
    {
      assert k == |list| && j < |list| - 1 ==> Precedes(list[j], list[|list| - 1]);
    }
    assert forall j :: k < j < |list| ==> Precedes(list[k], list[j]);
  }

  lemma DropsWhen(s: State, receiver: nat, kind: int)
    requires Inv(s)
    ensures Drops(s, receiver, kind) <==> (kind == DEFERRED_DELETE && DeleteDropped(s, receiver)) || (kind == QUIT && QuitQueued(s, receiver))
  {
    CountPositive(s.list, receiver);
    assert Get(s.objects, receiver).postedEvents == CountFor(s.list, receiver);
    if QuitQueued(s, receiver) {
      var k :| 0 <= k < |s.list| && s.list[k].receiver == receiver && s.list[k].event.Some? && s.list[k].event.value.kind == QUIT;
      assert Matches(s.list[k], Some(receiver), QUIT);
    }
    hide Tidy, Conserved, CountFor;
  }

  /** Only a DeferredDelete for a receiver waiting to be deleted and a Quit for one that has a Quit
      queued are dropped.  Any other event is queued by its priority, counted for its receiver,
      and the receiver of a DeferredDelete is marked.  A DeferredDelete posted in its own thread
      remembers the nesting; directly in an event loop it counts as one scope further in. */
  lemma PostOutcome(s: State, receiver: nat, kind: int, priority: int, fromOwnThread: bool)
    requires Inv(s)
    ensures var t := PostStep(s, receiver, kind, priority, fromOwnThread);
      if (kind == DEFERRED_DELETE && DeleteDropped(s, receiver)) || (kind == QUIT && QuitQueued(s, receiver)) then t == s
      else
        var level :=
          if kind != DEFERRED_DELETE || !fromOwnThread then 0
          else if s.loopLevel > 0 && s.scopeLevel == 0 then s.loopLevel + 1
          else s.loopLevel + s.scopeLevel;
        var pe := PostEvent(receiver, Some(Event(s.clock, kind, level)), priority, s.clock);
        && (exists k :: PlacedAt(s.list, t.list, s.insertionOffset, k, pe))
        && t == s.(list := t.list, objects := t.objects, clock := s.clock + 1,
                   past := s.past.(accepted := s.past.accepted + multiset{pe.event.value}, posted := s.past.posted[s.clock := pe]))
        && Get(t.objects, receiver) == ObjectPrivate(Get(s.objects, receiver).postedEvents + 1,
                                                     kind == DEFERRED_DELETE || Get(s.objects, receiver).deleteLaterCalled)
        && forall r: nat :: r != receiver ==> Get(t.objects, r) == Get(s.objects, r)
  {
    DropsWhen(s, receiver, kind);
    if !Drops(s, receiver, kind) {
      var e := Event(s.clock, kind, PostLevel(s, kind, fromOwnThread));
      AddPlaces(s.list, s.insertionOffset, PostEvent(receiver, Some(e), priority, s.clock));
    }
    hide Tidy, Conserved, AddEvent, PlacedAt, Drops;
  }

  // ----- from the post to the delivery --------------------------------------------------

  ghost predicate InQueue(s: State, id: nat) {
    exists k :: 0 <= k < |s.list| && Live(s.list[k]) && s.list[k].event.value.id == id
  }

  /** Between `p` and `c` the event was delivered to `receiver`. */
  ghost predicate DeliveredBetween(p: State, c: State, id: nat, receiver: nat) {
    exists j :: |p.past.log| <= j < |c.past.log| && IsDelivery(c.past.log[j], id, receiver)
  }

  predicate IsDelivery(d: Delivery, id: nat, receiver: nat) {
    d.entry.event.Some? && d.entry.event.value.id == id && d.entry.receiver == receiver
  }

  /** The entries that a pass whose handlers do nothing delivers. */
  lemma DeliveredEntries(p: State, c: State, target: Option<nat>, kind: int, since: nat, order: seq<nat>, pe: PostEvent)
    requires Inv(p) && p.script == [] && Passed(p, c, target, kind, since, order)
    ensures (exists j :: |p.past.log| <= j < |c.past.log| && c.past.log[j].entry == pe)
       <==> pe in p.list && Deliverable(pe, target, kind, p.loopLevel + p.scopeLevel)
  {
    hide Tidy, Conserved, AllTimely, AllAsPosted, DeliveredAsPosted, AllLawful, Resumes, PassLeaves, AllowDeferredDelete, Due;
    var list, n, level := p.list[p.startOffset..], |p.past.log|, p.loopLevel + p.scopeLevel;
    var due := Due(list, target, kind, level);
    assert EntriesOf(c.past.log[n..]) == due;
    DueMembers(list, target, kind, level, pe);
    if pe in due {
      var j :| 0 <= j < |due| && due[j] == pe;
      assert c.past.log[n + j].entry == pe;
    }
    if exists j :: n <= j < |c.past.log| && c.past.log[j].entry == pe {
      var j :| n <= j < |c.past.log| && c.past.log[j].entry == pe;
      assert due[j - n] == pe;
    }
    if pe in p.list && Live(pe) {
      var k :| 0 <= k < |p.list| && p.list[k] == pe;
      assert list[k - p.startOffset] == pe;
    }
  }

  /** A pass whose handlers do nothing delivers an entry in the queue if and only if it is for
      the receiver and the type asked for and is no deferred delete that has to wait. */
  lemma DeliveredIff(p: State, c: State, target: Option<nat>, kind: int, since: nat, order: seq<nat>, k: nat)
    requires Inv(p) && p.script == [] && Passed(p, c, target, kind, since, order)
    requires k < |p.list| && p.list[k].event.Some?
    ensures var pe, now := p.list[k], p.loopLevel + p.scopeLevel;
      DeliveredBetween(p, c, pe.event.value.id, pe.receiver) <==>
        && (target == None || target == Some(pe.receiver))
        && (kind == NO_TYPE || kind == pe.event.value.kind)
        && (pe.event.value.kind == DEFERRED_DELETE ==>
              || pe.event.value.level > now
              || (pe.event.value.level == 0 && now > 0)
              || (kind == DEFERRED_DELETE && pe.event.value.level == now))
  {
    hide Inv, Passed, Due;
    var pe, level := p.list[k], p.loopLevel + p.scopeLevel;
    DeliveredEntries(p, c, target, kind, since, order, pe);
    if Deliverable(pe, target, kind, level) {
      var j :| |p.past.log| <= j < |c.past.log| && c.past.log[j].entry == pe;
      assert IsDelivery(c.past.log[j], pe.event.value.id, pe.receiver);
    }
    if DeliveredBetween(p, c, pe.event.value.id, pe.receiver) {
      var j :| |p.past.log| <= j < |c.past.log| && IsDelivery(c.past.log[j], pe.event.value.id, pe.receiver);
      DeliveredEntries(p, c, target, kind, since, order, c.past.log[j].entry);
      SameEvent(p, c.past.log[j].entry, pe);
    }
  }

  /** Entries in the queue with one id hold one event. */
  lemma SameEvent(s: State, a: PostEvent, b: PostEvent)
    requires Inv(s) && a in s.list && b in s.list && Live(a) && Live(b) && a.event.value.id == b.event.value.id
    ensures a.event == b.event && a.receiver == b.receiver && a.priority == b.priority
  {
    assert AsPosted(a, s.past.posted) && AsPosted(b, s.past.posted);
  }

  /** Such a pass moves events from the queue to the log and does nothing else with them. */
  lemma EventsMove(p: State, c: State, target: Option<nat>, kind: int, since: nat, order: seq<nat>, e: Event)
    requires Inv(p) && p.script == [] && Passed(p, c, target, kind, since, order)
    requires e in LiveEvents(p.list)
    ensures p.past.log <= c.past.log
    ensures e in LiveEvents(c.list) <==> e !in Sent(c.past.log[|p.past.log|..])
  {
    hide Tidy, AllTimely, AllAsPosted, DeliveredAsPosted, AllLawful, PassLeaves, LiveEvents, Sent, Due, EntriesOf;
    var more := c.past.log[|p.past.log|..];
    assert c.past.log == p.past.log + more;
    SentConcat(p.past.log, more);
    assert Conserved(c) && c.past.accepted == p.past.accepted && c.past.removed == p.past.removed;
    assert LiveEvents(c.list)[e] + Sent(more)[e] == LiveEvents(p.list)[e];
    assert e in p.past.accepted;
  }

  lemma QueuedAsPosted(s: State, posted: map<nat, PostEvent>, pe: PostEvent, id: nat)
    requires AllAsPosted(s.list, s.past.posted, s.clock) && Remembers(posted, s.past.posted)
    requires id in posted && pe in s.list && Live(pe) && pe.event.value.id == id
    ensures pe.(stamp := id) == posted[id]
  {
  }

  lemma SentAsPosted(s: State, posted: map<nat, PostEvent>, d: Delivery, id: nat)
    requires DeliveredAsPosted(s.past.log, s.past.posted) && Remembers(posted, s.past.posted)
    requires id in posted && d in s.past.log && Live(d.entry) && d.entry.event.value.id == id
    ensures d.entry.(stamp := id) == posted[id]
  {
  }

  /** An event posted as `posted` tells is in the queue if and only if its id is. */
  lemma QueuedIff(c: State, posted: map<nat, PostEvent>, pe: PostEvent)
    requires AllAsPosted(c.list, c.past.posted, c.clock) && Remembers(posted, c.past.posted)
    requires Live(pe) && AsPosted(pe, posted)
    ensures pe.event.value in LiveEvents(c.list) <==> InQueue(c, pe.event.value.id)
  {
    hide AllAsPosted, Remembers;
    var e := pe.event.value;
    LiveMembers(c.list, e);
    if InQueue(c, e.id) {
      var j :| 0 <= j < |c.list| && Live(c.list[j]) && c.list[j].event.value.id == e.id;
      QueuedAsPosted(c, posted, c.list[j], e.id);
      assert c.list[j] in c.list;
    }
    if e in LiveEvents(c.list) {
      var q :| q in c.list && q.event == Some(e);
      var j :| 0 <= j < |c.list| && c.list[j] == q;
    }
  }

  /** And it has been delivered to the receiver it was posted for if and only if it is in the log. */
  lemma SentIff(p: State, c: State, posted: map<nat, PostEvent>, pe: PostEvent)
    requires DeliveredAsPosted(c.past.log, c.past.posted) && Remembers(posted, c.past.posted)
    requires Live(pe) && AsPosted(pe, posted) && |p.past.log| <= |c.past.log|
    ensures pe.event.value in Sent(c.past.log[|p.past.log|..]) <==> DeliveredBetween(p, c, pe.event.value.id, pe.receiver)
  {
    hide DeliveredAsPosted, Remembers;
    var e, more := pe.event.value, c.past.log[|p.past.log|..];
    SentMembers(more, e);
    if DeliveredBetween(p, c, e.id, pe.receiver) {
      var j :| |p.past.log| <= j < |c.past.log| && IsDelivery(c.past.log[j], e.id, pe.receiver);
      SentAsPosted(c, posted, c.past.log[j], e.id);
      assert c.past.log[j] == more[j - |p.past.log|];
    }
    if e in Sent(more) {
      var d :| d in more && d.entry.event == Some(e);
      var j :| 0 <= j < |more| && more[j] == d;
      SentAsPosted(c, posted, c.past.log[|p.past.log| + j], e.id);
      assert IsDelivery(c.past.log[|p.past.log| + j], e.id, pe.receiver);
    }
  }

  /** What such a pass does not deliver it leaves in the queue. */
  lemma DeliveredOrLeft(p: State, c: State, target: Option<nat>, kind: int, since: nat, order: seq<nat>, k: nat)
    requires Inv(p) && p.script == [] && Passed(p, c, target, kind, since, order)
    requires k < |p.list| && Live(p.list[k])
    ensures DeliveredBetween(p, c, p.list[k].event.value.id, p.list[k].receiver) <==> !InQueue(c, p.list[k].event.value.id)
  {
    hide Tidy, Conserved, AllTimely, AllAsPosted, DeliveredAsPosted, AllLawful, PassLeaves, PassSends, LiveEvents, Sent;
    var pe, posted := p.list[k], p.past.posted;
    assert AsPosted(pe, posted) by { assert AllAsPosted(p.list, posted, p.clock); QueuedHolds(p, k); }
    LiveMembers(p.list, pe.event.value);
    assert pe in p.list;
    EventsMove(p, c, target, kind, since, order, pe.event.value);
    QueuedIff(c, posted, pe);
    SentIff(p, c, posted, pe);
  }

  lemma QueuedHolds(s: State, k: nat)
    requires AllAsPosted(s.list, s.past.posted, s.clock) && k < |s.list|
    ensures AsPosted(s.list[k], s.past.posted)
  {
  }

  /** What a pass over everything whose handlers post and remove, but do not send, leaves of the
      events posted before it are deferred deletes that have to wait at its level. */
  lemma LeftWaits(p: State, c: State, since: nat, order: seq<nat>, k: nat)
    requires Inv(p) && NoSends(p.script) && Passed(p, c, None, NO_TYPE, since, order)
    requires k < |c.list| && c.list[k].event.Some? && c.list[k].event.value.id < p.clock
    ensures var e, now := c.list[k].event.value, p.loopLevel + p.scopeLevel;
      e.kind == DEFERRED_DELETE && if e.level == 0 then now <= 0 else e.level <= now
  {
    hide Inv, Resumes, PassSends;
    assert WasRefused(p, c.past.refused, c.list[k]);
  }

  /** A DeferredDelete is posted for `receiver` at `a`.  Whatever happens until `p`, if it is still
      queued there, a pass at `p` whose handlers do nothing delivers it, to `receiver`,
      - if it was posted in its own thread while a loop was running: when the pass is at a lower
        level than the post, where directly in a loop counts as scope 1;
      - if it was posted outside every loop and handler, or in another thread: when the pass is at
        a positive level;
      - if it was posted outside every loop but in a handler: when the pass is at a lower level;
      and a pass for deferred deletes also at the very level.  Otherwise it stays queued. */
  lemma DeleteWaits(a: State, receiver: nat, priority: int, fromOwnThread: bool,
                    p: State, c: State, target: Option<nat>, kind: int, since: nat, order: seq<nat>)
    requires Inv(a) && !DeleteDropped(a, receiver)
    requires Inv(p) && Remembers(PostStep(a, receiver, DEFERRED_DELETE, priority, fromOwnThread).past.posted, p.past.posted)
    requires InQueue(p, a.clock) && p.script == [] && Passed(p, c, target, kind, since, order)
    requires (target == None || target == Some(receiver)) && (kind == NO_TYPE || kind == DEFERRED_DELETE)
    ensures var now, delivered := p.loopLevel + p.scopeLevel, DeliveredBetween(p, c, a.clock, receiver);
      && (delivered <==> !InQueue(c, a.clock))
      && (fromOwnThread && a.loopLevel > 0 && a.scopeLevel > 0 ==>
            (delivered <==> if kind == DEFERRED_DELETE then now <= a.loopLevel + a.scopeLevel else now < a.loopLevel + a.scopeLevel))
      && (fromOwnThread && a.loopLevel > 0 && a.scopeLevel == 0 ==>
            (delivered <==> if kind == DEFERRED_DELETE then now <= a.loopLevel + 1 else now < a.loopLevel + 1))
      && (!fromOwnThread || a.loopLevel + a.scopeLevel == 0 ==>
            (delivered <==> kind == DEFERRED_DELETE || now > 0))
      && (fromOwnThread && a.loopLevel == 0 && a.scopeLevel > 0 ==>
            (delivered <==> if kind == DEFERRED_DELETE then now <= a.scopeLevel else now < a.scopeLevel))
  {
    var posted := PostStep(a, receiver, DEFERRED_DELETE, priority, fromOwnThread).past.posted;
    PostOutcome(a, receiver, DEFERRED_DELETE, priority, fromOwnThread);
    var k :| 0 <= k < |p.list| && Live(p.list[k]) && p.list[k].event.value.id == a.clock;
    QueuedAsPosted(p, posted, p.list[k], a.clock);
    DeliveredIff(p, c, target, kind, since, order, k);
    DeliveredOrLeft(p, c, target, kind, since, order, k);
    assert p.loopLevel + p.scopeLevel >= 0 && a.loopLevel >= 0 && a.scopeLevel >= 0;
    hide Inv, Passed, PostStep, Remembers;
  }

  /** The state of a stretch of code changes its nesting only. */
  lemma RenestKeeps(b: State, scopeLevel: nat)
    requires Inv(b)
    ensures Inv(b.(scopeLevel := scopeLevel, script := []))
  {
    var p := b.(scopeLevel := scopeLevel, script := []);
    assert Conserved(p) && OffsetsValid(p);
    hide Tidy, Conserved, OffsetsValid, AllTimely, AllAsPosted, DeliveredAsPosted, AllLawful;
  }

  lemma PostQueues(a: State, receiver: nat, kind: int, priority: int, fromOwnThread: bool)
    requires Inv(a) && !Drops(a, receiver, kind)
    ensures Inv(PostStep(a, receiver, kind, priority, fromOwnThread))
    ensures InQueue(PostStep(a, receiver, kind, priority, fromOwnThread), a.clock)
  {
    hide Inv, Drops;
    PostKeepsInv(a, receiver, kind, priority, fromOwnThread);
    var t := PostStep(a, receiver, kind, priority, fromOwnThread);
    var k := AddPosition(a.list, a.insertionOffset, priority);
    assert t.list[k].event == Some(Event(a.clock, kind, PostLevel(a, kind, fromOwnThread)));
  }

  lemma PostKeepsInv(a: State, receiver: nat, kind: int, priority: int, fromOwnThread: bool)
    requires Inv(a)
    ensures Inv(PostStep(a, receiver, kind, priority, fromOwnThread))
  {
    hide Inv, PostStep;
    PostKeeps(a, receiver, kind, priority, fromOwnThread, 0);
  }

  /** Posted in a loop, a DeferredDelete waits through a pass at the scope it was posted in, and
      the next pass one scope further out delivers it. */
  lemma NextPassDeletes(a: State, receiver: nat, priority: int, scopeLevel: nat, p: State, c: State, since: nat, order: seq<nat>)
    requires Inv(a) && !DeleteDropped(a, receiver) && a.loopLevel > 0
    requires p == PostStep(a, receiver, DEFERRED_DELETE, priority, true).(scopeLevel := scopeLevel, script := [])
    requires Passed(p, c, None, NO_TYPE, since, order)
    ensures scopeLevel + 1 == (if a.scopeLevel > 0 then a.scopeLevel else 1) ==>
      DeliveredBetween(p, c, a.clock, receiver) && !InQueue(c, a.clock)
    ensures scopeLevel == (if a.scopeLevel > 0 then a.scopeLevel else 1) ==>
      !DeliveredBetween(p, c, a.clock, receiver) && InQueue(c, a.clock)
  {
    DropsWhen(a, receiver, DEFERRED_DELETE);
    PostQueues(a, receiver, DEFERRED_DELETE, priority, true);
    var b := PostStep(a, receiver, DEFERRED_DELETE, priority, true);
    assert b.loopLevel == a.loopLevel && a.scopeLevel >= 0;
    RenestKeeps(b, scopeLevel);
    assert p.list == b.list && p.past == b.past;
    hide Inv, Passed, PostStep;
    DeleteWaits(a, receiver, priority, true, p, c, None, NO_TYPE, since, order);
  }
}

/** The posted-event queue of one thread as a value, and the effect of each operation of
    src/kernel/CoreApplication.cpp on it between two deliveries.  The class in
    `EventDispatch` is proved against these functions; the invariant they keep is here. */
module PostedEvents {
  import opened Wrappers
  import opened PostEventLists

  datatype Action =
    | Post(receiver: nat, kind: int, priority: int, fromOwnThread: bool)
    | RemoveEvent(id: nat)
    | RemoveEvents(target: Option<nat>, kind: int)
    | Send(target: Option<nat>, kind: int)
    | Exec(eventLoop: nat)
    | Return

  /** No operation of `script` delivers events. */
  predicate NoSends(script: seq<Action>) {
    forall k :: 0 <= k < |script| ==> !script[k].Send? && !script[k].Exec?
  }

  /** A pass over everything: it advances the shared offset and cleans up behind itself. */
  predicate IsGlobal(target: Option<nat>, kind: int) {
    target == None && kind == NO_TYPE
  }

  /** No operation of `script` is a pass over everything. */
  predicate NoGlobals(script: seq<Action>) {
    forall k :: 0 <= k < |script| && script[k].Send? ==> !IsGlobal(script[k].target, script[k].kind)
  }

  /** One delivery: the entry, the loop+scope level it happened at, and the pass it belongs to. */
  datatype Delivery = Delivery(entry: PostEvent, level: int, target: Option<nat>, kind: int)

  /** What every delivery obeys.  A pass of no particular type delivers a DeferredDelete only
      below the level it was posted at, or at a positive level if it was posted at level 0. */
  predicate Lawful(d: Delivery) {
    Live(d.entry)
    && (d.target.Some? ==> d.entry.receiver == d.target.value)
    && (d.kind != NO_TYPE ==> d.entry.event.value.kind == d.kind)
    && (d.entry.event.value.kind == DEFERRED_DELETE && d.kind == NO_TYPE ==>
          d.level < d.entry.event.value.level || (d.entry.event.value.level == 0 && d.level > 0))
  }

  datatype State = State(
    // m_postEventList
    list: seq<PostEvent>, recursion: nat, startOffset: nat, insertionOffset: nat,
    // the nesting of event loops and of notify calls
    loopLevel: int, scopeLevel: int, eventLoops: seq<nat>,
    // the objects living in this thread
    objects: map<nat, ObjectPrivate>,
    // user code still to run; number of addEvent calls so far
    script: seq<Action>, clock: nat,
    // what happened so far
    past: History)

  /** Events taken into the queue, the log of deliveries, and the events removed; by its stamp, the
      level at which a re-posted deferred delete had been refused; and, by the id of its event,
      each entry as it was posted. */
  datatype History = History(accepted: multiset<Event>, log: seq<Delivery>, removed: multiset<Event>,
                             refused: map<nat, int>, posted: map<nat, PostEvent>)

  /** The events of a log. */
  ghost function Sent(log: seq<Delivery>): multiset<Event> {
    if log == [] then multiset{}
    else
      var last := log[|log| - 1].entry;
      Sent(log[..|log| - 1]) + (if Live(last) then multiset{last.event.value} else multiset{})
  }

  lemma SentSnoc(log: seq<Delivery>, d: Delivery)
    requires Live(d.entry)
    ensures Sent(log + [d]) == Sent(log) + multiset{d.entry.event.value}
  {
    assert (log + [d])[..|log|] == log;
  }

  ghost function Removed(past: History, events: multiset<Event>): History {
    past.(removed := past.removed + events)
  }

  ghost predicate OffsetsValid(s: State) {
    && s.startOffset <= |s.list|
    && (s.recursion == 0 ==> s.startOffset == 0)
    && (s.recursion > 0 ==> s.startOffset <= s.insertionOffset <= |s.list|)
    && (forall k :: 0 <= k < s.startOffset ==> !Live(s.list[k]))
  }

  /** Every accepted event is, exactly once, pending, delivered or removed. */
  ghost predicate Conserved(s: State) {
    && s.past.accepted == LiveEvents(s.list) + Sent(s.past.log) + s.past.removed
    && (forall e :: e in s.past.accepted ==> e.id < s.clock && s.past.accepted[e] == 1)
  }

  ghost predicate AllLawful(log: seq<Delivery>) {
    forall k :: 0 <= k < |log| ==> Lawful(log[k])
  }

  /** An event has the stamp of its posting, unless it is a deferred delete that was refused. */
  predicate Timely(pe: PostEvent, refused: map<nat, int>) {
    Live(pe) ==>
      && pe.event.value.id <= pe.stamp
      && (pe.event.value.id < pe.stamp ==>
            && pe.event.value.kind == DEFERRED_DELETE && pe.stamp in refused
            && !AllowDeferredDelete(pe.event.value.level, refused[pe.stamp], NO_TYPE))
  }

  ghost predicate AllTimely(list: seq<PostEvent>, refused: map<nat, int>, clock: nat) {
    && (forall k :: 0 <= k < |list| ==> Timely(list[k], refused))
    && (forall t :: t in refused ==> t < clock)
  }

  /** The entry has the receiver, the event and the priority it was posted with. */
  predicate AsPosted(pe: PostEvent, posted: map<nat, PostEvent>) {
    Live(pe) ==> pe.event.value.id in posted && posted[pe.event.value.id] == pe.(stamp := pe.event.value.id)
  }

  ghost predicate AllAsPosted(list: seq<PostEvent>, posted: map<nat, PostEvent>, clock: nat) {
    && (forall k :: 0 <= k < |list| ==> AsPosted(list[k], posted))
    && (forall id :: id in posted ==> id < clock)
  }

  ghost predicate DeliveredAsPosted(log: seq<Delivery>, posted: map<nat, PostEvent>) {
    forall k :: 0 <= k < |log| ==> AsPosted(log[k].entry, posted)
  }

  ghost predicate Remembers(before: map<nat, PostEvent>, after: map<nat, PostEvent>) {
    forall id :: id in before ==> id in after && after[id] == before[id]
  }

  /** Since `a` only refusals at its level or further in were added. */
  ghost predicate RefusedFurtherIn(a: State, b: State) {
    forall t :: t in b.past.refused ==>
      || (t in a.past.refused && b.past.refused[t] == a.past.refused[t])
      || (t >= a.clock && b.past.refused[t] >= a.loopLevel + a.scopeLevel)
  }

  /** The deliveries from the `n`th on were made at `level` or further in. */
  ghost predicate LoggedFurtherIn(log: seq<Delivery>, n: nat, level: int) {
    forall j :: n <= j < |log| ==> log[j].level >= level
  }

  ghost predicate RefusedHere(a: State, b: State) {
    forall t :: t in b.past.refused ==>
      || (t in a.past.refused && b.past.refused[t] == a.past.refused[t])
      || (t >= a.clock && b.past.refused[t] == a.loopLevel + a.scopeLevel)
  }

  /** Nothing was refused, and nothing is to come that refuses. */
  ghost predicate Unrefused(a: State, b: State) {
    NoGlobals(b.script) && b.past.refused == a.past.refused
  }

  /** No event loop is on the stack twice: its `m_inExec` is set while it is. */
  ghost predicate AllRunningOnce(eventLoops: seq<nat>) {
    forall i, j :: 0 <= i < j < |eventLoops| ==> eventLoops[i] != eventLoops[j]
  }

  ghost predicate Inv(s: State) {
    && Tidy(s.list, s.insertionOffset, s.clock, s.objects)
    && OffsetsValid(s)
    && Conserved(s)
    && s.loopLevel == |s.eventLoops| && AllRunningOnce(s.eventLoops)
    && s.scopeLevel >= 0
    && AllLawful(s.past.log)
    && AllTimely(s.list, s.past.refused, s.clock)
    && AllAsPosted(s.list, s.past.posted, s.clock) && DeliveredAsPosted(s.past.log, s.past.posted)
  }

  /** From `before` to `after`, a live entry older than `since` is where it was or gone: none
      slips behind the offset of a pass that has not reached it yet. */
  ghost predicate Stays(before: seq<PostEvent>, after: seq<PostEvent>, since: nat) {
    forall k :: 0 <= k < |after| && Live(after[k]) && after[k].stamp < since ==>
      k < |before| && after[k] == before[k]
  }

  /** What one step of a pass guarantees to the passes around it: the nesting is what it was,
      the log only grows, nothing older than `since` is at or behind the insertion point, and
      during a pass no such entry moves. */
  ghost predicate Continues(a: State, b: State, since: nat) {
    && Inv(b)
    && b.recursion == a.recursion
    && b.loopLevel == a.loopLevel && b.scopeLevel == a.scopeLevel && b.eventLoops == a.eventLoops
    && |b.script| <= |a.script|
    && a.clock <= b.clock
    && a.past.log <= b.past.log
    && AddedSince(b.list, b.insertionOffset, since)
    && (a.recursion > 0 ==> Stays(a.list, b.list, since))
    && RefusedFurtherIn(a, b) && Remembers(a.past.posted, b.past.posted)
    && LoggedFurtherIn(b.past.log, |a.past.log|, a.loopLevel + a.scopeLevel)
  }

  /** What any stretch of user code, and any whole pass, guarantees. */
  ghost predicate Resumes(a: State, b: State, since: nat) {
    && Continues(a, b, since)
    && (b.startOffset == a.startOffset || b.startOffset == 0)
  }

  ghost predicate SameSlot(before: PostEvent, after: PostEvent) {
    after == before || after == Nulled(before)
  }

  /** Code without sends leaves the part being delivered alone, up to cleared slots. */
  ghost predicate Undisturbed(a: State, b: State) {
    && NoSends(b.script)
    && b.startOffset == a.startOffset
    && b.insertionOffset == a.insertionOffset
    && b.past.log == a.past.log && b.past.refused == a.past.refused
    && a.insertionOffset <= |a.list| <= |b.list|
    && (forall k :: 0 <= k < a.insertionOffset ==> SameSlot(a.list[k], b.list[k]))
  }

  // ----- postEvent --------------------------------------------------------------------

  /** The level a DeferredDelete remembers. */
  function PostLevel(s: State, kind: int, fromOwnThread: bool): int {
    if kind == DEFERRED_DELETE && fromOwnThread
    then s.loopLevel + (if s.scopeLevel == 0 && s.loopLevel != 0 then 1 else s.scopeLevel)
    else 0
  }

  /** Whether `compressEvent` drops a new event of `kind` for `receiver`. */
  ghost predicate Drops(s: State, receiver: nat, kind: int) {
    && Get(s.objects, receiver).postedEvents != 0
    && ((kind == DEFERRED_DELETE && Get(s.objects, receiver).deleteLaterCalled)
        || (kind == QUIT && exists k :: 0 <= k < |s.list| && Matches(s.list[k], Some(receiver), QUIT)))
  }

  function Flag(objects: map<nat, ObjectPrivate>, receiver: nat, kind: int): map<nat, ObjectPrivate> {
    if kind == DEFERRED_DELETE then objects[receiver := Get(objects, receiver).(deleteLaterCalled := true)] else objects
  }

  /** The event is queued. */
  ghost function AcceptStep(s: State, receiver: nat, priority: int, e: Event): State {
    s.(list := AddEvent(s.list, s.insertionOffset, PostEvent(receiver, Some(e), priority, s.clock)),
       objects := Add(Flag(s.objects, receiver, e.kind), receiver, 1),
       clock := s.clock + 1,
       past := s.past.(accepted := s.past.accepted + multiset{e},
                       posted := s.past.posted[s.clock := PostEvent(receiver, Some(e), priority, s.clock)]))
  }

  ghost function PostStep(s: State, receiver: nat, kind: int, priority: int, fromOwnThread: bool): State {
    if Drops(s, receiver, kind) then s
    else AcceptStep(s, receiver, priority, Event(s.clock, kind, PostLevel(s, kind, fromOwnThread)))
  }

  lemma PostNoClash(s: State, receiver: nat, kind: int, pe: PostEvent)
    requires Inv(s) && !Drops(s, receiver, kind)
    requires Live(pe) && pe.receiver == receiver && pe.event.value.kind == kind
    ensures forall k :: 0 <= k < |s.list| ==> !Clash(s.list[k], pe)
  {
    assert Get(s.objects, receiver).postedEvents == CountFor(s.list, receiver);
    CountPositive(s.list, receiver);
  }

  lemma FlagTidy(s: State, receiver: nat, kind: int)
    requires Inv(s)
    ensures Tidy(s.list, s.insertionOffset, s.clock, Flag(s.objects, receiver, kind))
  {
    forall r: nat
      ensures Get(Flag(s.objects, receiver, kind), r).postedEvents == CountFor(s.list, r)
    {
      assert Get(s.objects, r).postedEvents == CountFor(s.list, r);
    }
  }

  lemma AcceptKeeps(s: State, receiver: nat, priority: int, e: Event, since: nat)
    requires Inv(s) && since <= s.clock && AddedSince(s.list, s.insertionOffset, since)
    requires !Drops(s, receiver, e.kind) && e.id == s.clock
    ensures var t := AcceptStep(s, receiver, priority, e);
      && Tidy(t.list, t.insertionOffset, t.clock, t.objects) && Conserved(t)
      && AddedSince(t.list, t.insertionOffset, since)
      && |t.list| == |s.list| + 1
      && (s.insertionOffset <= |s.list| ==> t.list[..s.insertionOffset] == s.list[..s.insertionOffset])
  {
    var pe := PostEvent(receiver, Some(e), priority, s.clock);
    PostNoClash(s, receiver, e.kind, pe);
    FlagTidy(s, receiver, e.kind);
    AddTidy(s.list, s.insertionOffset, s.clock, Flag(s.objects, receiver, e.kind), pe);
    AddEventKeepsPrefix(s.list, s.insertionOffset, pe, since);
  }

  lemma AcceptTimely(s: State, receiver: nat, priority: int, e: Event)
    requires AllTimely(s.list, s.past.refused, s.clock) && e.id == s.clock
    ensures var t := AcceptStep(s, receiver, priority, e); AllTimely(t.list, t.past.refused, t.clock)
  {
  }

  lemma AcceptPosted(s: State, receiver: nat, priority: int, e: Event)
    requires AllAsPosted(s.list, s.past.posted, s.clock) && DeliveredAsPosted(s.past.log, s.past.posted) && e.id == s.clock
    ensures var t := AcceptStep(s, receiver, priority, e);
      && AllAsPosted(t.list, t.past.posted, t.clock) && DeliveredAsPosted(t.past.log, t.past.posted)
      && Remembers(s.past.posted, t.past.posted)
  {
  }

  /** What `AcceptStep` does to the part before the insertion point: nothing. */
  lemma AcceptStays(s: State, receiver: nat, priority: int, e: Event, since: nat)
    requires AddedSince(s.list, s.insertionOffset, since) && since <= s.clock && s.insertionOffset <= |s.list|
    ensures var t := AcceptStep(s, receiver, priority, e);
      Stays(s.list, t.list, since) && forall k :: 0 <= k < s.insertionOffset ==> t.list[k] == s.list[k]
  {
    var pe := PostEvent(receiver, Some(e), priority, s.clock);
    AddStays(s.list, s.insertionOffset, pe, since);
    AddEventKeepsPrefix(s.list, s.insertionOffset, pe, since);
    var t := AcceptStep(s, receiver, priority, e);
    assert forall k :: 0 <= k < s.insertionOffset ==> t.list[k] == t.list[..s.insertionOffset][k];
  }

  lemma AcceptOffsets(s: State, receiver: nat, priority: int, e: Event, since: nat)
    requires OffsetsValid(s) && AddedSince(s.list, s.insertionOffset, since) && since <= s.clock
    ensures OffsetsValid(AcceptStep(s, receiver, priority, e))
  {
    AddEventKeepsPrefix(s.list, s.insertionOffset, PostEvent(receiver, Some(e), priority, s.clock), since);
    if s.insertionOffset <= |s.list| {
      AcceptStays(s, receiver, priority, e, since);
    }
    hide AddEvent, Stays, AddedSince;
  }

  lemma AcceptResumes(s: State, receiver: nat, priority: int, e: Event, since: nat)
    requires Inv(s) && since <= s.clock && AddedSince(s.list, s.insertionOffset, since)
    requires !Drops(s, receiver, e.kind) && e.id == s.clock
    ensures var t := AcceptStep(s, receiver, priority, e);
      Resumes(s, t, since) && (s.insertionOffset <= |s.list| && NoSends(s.script) ==> Undisturbed(s, t))
  {
    AcceptKeeps(s, receiver, priority, e, since);
    AcceptTimely(s, receiver, priority, e);
    AcceptPosted(s, receiver, priority, e);
    AcceptOffsets(s, receiver, priority, e, since);
    if s.insertionOffset <= |s.list| {
      AcceptStays(s, receiver, priority, e, since);
    }
    hide Tidy, Conserved, AllTimely, AllAsPosted, DeliveredAsPosted, Remembers, LiveEvents, AddEvent, Flag, Drops, Stays, AddedSince;
  }

  lemma PostKeeps(s: State, receiver: nat, kind: int, priority: int, fromOwnThread: bool, since: nat)
    requires Inv(s) && since <= s.clock && AddedSince(s.list, s.insertionOffset, since)
    ensures Resumes(s, PostStep(s, receiver, kind, priority, fromOwnThread), since)
    ensures s.insertionOffset <= |s.list| && NoSends(s.script) ==>
      Undisturbed(s, PostStep(s, receiver, kind, priority, fromOwnThread))
  {
    if !Drops(s, receiver, kind) {
      AcceptResumes(s, receiver, priority, Event(s.clock, kind, PostLevel(s, kind, fromOwnThread)), since);
      hide Inv, Resumes, Undisturbed, AcceptStep, Drops;
    }
  }

  // ----- clearing one slot: delivery, removePostedEvent, deferred re-post ---------------

  /** The slot at `i` is cleared and its event handed over. */
  ghost function TakeStep(s: State, i: nat): State
    requires i < |s.list| && Live(s.list[i])
  {
    var pe := s.list[i];
    s.(list := s.list[i := Nulled(pe)], objects := Add(s.objects, pe.receiver, -1))
  }

  ghost function DeliverStep(s: State, i: nat, target: Option<nat>, kind: int): State
    requires i < |s.list| && Live(s.list[i])
  {
    TakeStep(s, i).(past := s.past.(log := s.past.log + [Delivery(s.list[i], s.loopLevel + s.scopeLevel, target, kind)]))
  }

  ghost function RemoveStep(s: State, i: nat): State
    requires i < |s.list| && Live(s.list[i])
  {
    TakeStep(s, i).(past := Removed(s.past, multiset{s.list[i].event.value}))
  }

  /** A DeferredDelete that may not be delivered yet goes to the back of its priority. */
  ghost function RepostStep(s: State, i: nat): State
    requires i < |s.list|
  {
    s.(list := AddEvent(s.list[i := Nulled(s.list[i])], s.insertionOffset, s.list[i].(stamp := s.clock)),
       clock := s.clock + 1,
       past := s.past.(refused := s.past.refused[s.clock := s.loopLevel + s.scopeLevel]))
  }

  lemma TakeKeeps(s: State, i: nat)
    requires Inv(s) && i < |s.list| && Live(s.list[i])
    ensures Get(s.objects, s.list[i].receiver).postedEvents > 0
    ensures Tidy(TakeStep(s, i).list, s.insertionOffset, s.clock, TakeStep(s, i).objects)
    ensures OffsetsValid(TakeStep(s, i))
    ensures LiveEvents(s.list) == LiveEvents(TakeStep(s, i).list) + multiset{s.list[i].event.value}
  {
    NullTidy(s.list, s.insertionOffset, s.clock, s.objects, i);
  }

  /** A delivered event leaves the queue for the log, and is what was posted. */
  lemma DeliverPosted(s: State, i: nat, target: Option<nat>, kind: int)
    requires Inv(s) && i < |s.list|
    requires Deliverable(s.list[i], target, kind, s.loopLevel + s.scopeLevel)
    ensures var t := DeliverStep(s, i, target, kind);
      && AllLawful(t.past.log) && AllTimely(t.list, t.past.refused, t.clock)
      && AllAsPosted(t.list, t.past.posted, t.clock) && DeliveredAsPosted(t.past.log, t.past.posted)
  {
    hide Tidy, Conserved;
    var t := DeliverStep(s, i, target, kind);
    assert AsPosted(s.list[i], s.past.posted);
    assert Lawful(Delivery(s.list[i], s.loopLevel + s.scopeLevel, target, kind));
    hide Lawful, AllowDeferredDelete;
    forall k | 0 <= k < |t.list|
      ensures AsPosted(t.list[k], s.past.posted) && Timely(t.list[k], s.past.refused)
    {
      assert AsPosted(s.list[k], s.past.posted) && Timely(s.list[k], s.past.refused);
    }
    hide AsPosted, Timely;
  }

  /** Delivering a live entry: its receiver's counter is positive before, so the decrement
      asserted at src/kernel/CoreApplication.cpp:1277 never goes below zero. */
  lemma DeliverKeeps(s: State, i: nat, target: Option<nat>, kind: int)
    requires Inv(s) && i < |s.list|
    requires Deliverable(s.list[i], target, kind, s.loopLevel + s.scopeLevel)
    ensures Inv(DeliverStep(s, i, target, kind))
    ensures Get(DeliverStep(s, i, target, kind).objects, s.list[i].receiver).postedEvents >= 0
  {
    TakeKeeps(s, i);
    DeliverPosted(s, i, target, kind);
    SentSnoc(s.past.log, Delivery(s.list[i], s.loopLevel + s.scopeLevel, target, kind));
    hide Sent, LiveEvents, Tidy, AllLawful, AllTimely, AllAsPosted, DeliveredAsPosted, Deliverable;
    assert Conserved(DeliverStep(s, i, target, kind));
  }

  lemma RemoveKeeps(s: State, i: nat, since: nat)
    requires Inv(s) && i < |s.list| && Live(s.list[i]) && AddedSince(s.list, s.insertionOffset, since)
    ensures Resumes(s, RemoveStep(s, i), since)
    ensures s.insertionOffset <= |s.list| && NoSends(s.script) ==> Undisturbed(s, RemoveStep(s, i))
  {
    TakeKeeps(s, i);
    assert Conserved(RemoveStep(s, i));
  }

  lemma RepostTidy(s: State, i: nat)
    requires Inv(s) && i < |s.list|
    requires Live(s.list[i]) && s.list[i].event.value.kind == DEFERRED_DELETE
    ensures var t := RepostStep(s, i); Tidy(t.list, t.insertionOffset, t.clock, t.objects) && LiveEvents(t.list) == LiveEvents(s.list)
  {
    hide LiveEvents, CountFor;
    var pe := s.list[i];
    var mid := TakeStep(s, i);
    TakeKeeps(s, i);
    var again := pe.(stamp := s.clock);
    forall k | 0 <= k < |mid.list|
      ensures !Clash(mid.list[k], again)
    {
      assert k == i || !Clash(s.list[if k < i then k else i], s.list[if k < i then i else k]);
    }
    AddTidy(mid.list, s.insertionOffset, s.clock, mid.objects, again);
    assert pe.receiver in s.objects;
    assert Add(mid.objects, pe.receiver, 1) == s.objects;
  }

  lemma RepostTimely(s: State, i: nat)
    requires Inv(s) && i < |s.list| && Live(s.list[i]) && s.list[i].event.value.kind == DEFERRED_DELETE
    requires !AllowDeferredDelete(s.list[i].event.value.level, s.loopLevel + s.scopeLevel, NO_TYPE)
    ensures var t := RepostStep(s, i); AllTimely(t.list, t.past.refused, t.clock)
  {
    hide CountFor, LiveEvents;
    var t := RepostStep(s, i);
    assert Timely(s.list[i], s.past.refused);
    var cleared := s.list[i := Nulled(s.list[i])];
    forall k | 0 <= k < |cleared|
      ensures Timely(cleared[k], t.past.refused)
    {
      assert k != i ==> Timely(s.list[k], s.past.refused) && s.list[k].stamp < s.clock;
    }
  }

  lemma KeepTimely(list: seq<PostEvent>, target: Option<nat>, kind: int, refused: map<nat, int>, clock: nat)
    requires AllTimely(list, refused, clock)
    ensures AllTimely(Keep(list, target, kind), refused, clock)
    ensures AllTimely(NullMatching(list, target, kind), refused, clock)
  {
    var kept := Keep(list, target, kind);
    forall p | 0 <= p < |kept|
      ensures Timely(kept[p], refused)
    {
      assert list[Origin(list, target, kind, p)] == kept[p];
    }
  }

  lemma RepostPosted(s: State, i: nat)
    requires AllAsPosted(s.list, s.past.posted, s.clock) && i < |s.list|
    ensures var t := RepostStep(s, i); AllAsPosted(t.list, t.past.posted, t.clock)
  {
    var cleared := s.list[i := Nulled(s.list[i])];
    assert AsPosted(s.list[i].(stamp := s.clock), s.past.posted) by { assert AsPosted(s.list[i], s.past.posted); }
    forall k | 0 <= k < |cleared|
      ensures AsPosted(cleared[k], s.past.posted)
    {
      assert k != i ==> AsPosted(s.list[k], s.past.posted);
    }
  }

  lemma KeepPosted(list: seq<PostEvent>, target: Option<nat>, kind: int, posted: map<nat, PostEvent>, clock: nat)
    requires AllAsPosted(list, posted, clock)
    ensures AllAsPosted(Keep(list, target, kind), posted, clock)
    ensures AllAsPosted(NullMatching(list, target, kind), posted, clock)
  {
    var kept := Keep(list, target, kind);
    forall p | 0 <= p < |kept|
      ensures AsPosted(kept[p], posted)
    {
      assert list[Origin(list, target, kind, p)] == kept[p];
    }
  }

  lemma RepostKeeps(s: State, i: nat)
    requires Inv(s) && i < s.insertionOffset <= |s.list|
    requires Live(s.list[i]) && s.list[i].event.value.kind == DEFERRED_DELETE
    requires !AllowDeferredDelete(s.list[i].event.value.level, s.loopLevel + s.scopeLevel, NO_TYPE)
    ensures Inv(RepostStep(s, i))
    ensures RepostStep(s, i).list[..s.insertionOffset] == s.list[..s.insertionOffset][i := Nulled(s.list[i])]
  {
    hide AllTimely, AllAsPosted, DeliveredAsPosted, Tidy, LiveEvents, Sent;
    RepostTidy(s, i);
    RepostTimely(s, i);
    RepostPosted(s, i);
    var cleared := s.list[i := Nulled(s.list[i])];
    AddEventKeepsPrefix(cleared, s.insertionOffset, s.list[i].(stamp := s.clock), 0);
    var t := RepostStep(s, i);
    assert t.list[..s.insertionOffset] == cleared[..s.insertionOffset];
    assert forall k :: 0 <= k < s.startOffset ==> t.list[k] == t.list[..s.insertionOffset][k];
  }

  // ----- removePostedEvents -------------------------------------------------------------

  ghost function RemoveEventsStep(s: State, target: Option<nat>, kind: int): State {
    s.(list := if s.recursion == 0 then Keep(s.list, target, kind) else NullMatching(s.list, target, kind),
       objects := DecrementAll(s.objects, Matching(s.list, target, kind)),
       past := Removed(s.past, LiveEvents(Matching(s.list, target, kind))))
  }

  /** One decrement of its receiver's counter for each entry of `list`. */
  function DecrementAll(objects: map<nat, ObjectPrivate>, list: seq<PostEvent>): map<nat, ObjectPrivate> {
    if list == [] then objects
    else Add(DecrementAll(objects, list[..|list| - 1]), list[|list| - 1].receiver, -1)
  }

  lemma {:induction false} DecrementAllCounts(objects: map<nat, ObjectPrivate>, list: seq<PostEvent>, r: nat)
    requires forall k :: 0 <= k < |list| ==> Live(list[k])
    ensures Get(DecrementAll(objects, list), r)
         == ObjectPrivate(Get(objects, r).postedEvents - CountFor(list, r), Get(objects, r).deleteLaterCalled)
  {
    if list != [] {
      var init := list[..|list| - 1];
      assert list == init + [list[|list| - 1]];
      CountSnoc(init, list[|list| - 1], r);
      DecrementAllCounts(objects, init, r);
    }
  }

  lemma {:induction false} MatchingAreLive(list: seq<PostEvent>, target: Option<nat>, kind: int)
    ensures forall k :: 0 <= k < |Matching(list, target, kind)| ==> Live(Matching(list, target, kind)[k])
  {
    if list != [] {
      MatchingAreLive(list[..|list| - 1], target, kind);
    }
  }

  lemma RemovalObjects(s: State, target: Option<nat>, kind: int)
    requires Inv(s)
    ensures var t := RemoveEventsStep(s, target, kind);
      && CountedBy(t.list, t.objects)
      && forall r: nat :: Get(t.objects, r).deleteLaterCalled == Get(s.objects, r).deleteLaterCalled
  {
    var t := RemoveEventsStep(s, target, kind);
    MatchingAreLive(s.list, target, kind);
    forall r: nat
      ensures Get(t.objects, r).postedEvents == CountFor(t.list, r)
      ensures Get(t.objects, r).deleteLaterCalled == Get(s.objects, r).deleteLaterCalled
    {
      RemovalCounts(s.list, target, kind, r);
      DecrementAllCounts(s.objects, Matching(s.list, target, kind), r);
      assert Get(s.objects, r).postedEvents == CountFor(s.list, r);
    }
  }

  lemma RemovalTidy(s: State, target: Option<nat>, kind: int, since: nat)
    requires Inv(s) && AddedSince(s.list, s.insertionOffset, since)
    ensures var t := RemoveEventsStep(s, target, kind);
      && Tidy(t.list, t.insertionOffset, t.clock, t.objects)
      && AddedSince(t.list, t.insertionOffset, since)
  {
    RemovalObjects(s, target, kind);
    if s.recursion == 0 {
      KeepPreserves(s.list, target, kind, s.insertionOffset, s.clock, since);
      KeepFlagged(s.list, target, kind, s.objects);
    } else {
      NullMatchingShape(s.list, target, kind, s.insertionOffset, s.clock, s.objects);
    }
  }

  /** Removal keeps the invariant, whether it compacts the list or, during a pass, clears
      slots; after removing everything for one receiver its counter is zero, as asserted at
      src/kernel/CoreApplication.cpp:1406. */
  lemma RemoveEventsKeeps(s: State, target: Option<nat>, kind: int, since: nat)
    requires Inv(s) && AddedSince(s.list, s.insertionOffset, since)
    ensures Resumes(s, RemoveEventsStep(s, target, kind), since)
    ensures target.Some? && kind == NO_TYPE ==>
      Get(RemoveEventsStep(s, target, kind).objects, target.value).postedEvents == 0
    ensures s.recursion > 0 && NoSends(s.script) ==> Undisturbed(s, RemoveEventsStep(s, target, kind))
  {
    hide LiveEvents, CountFor, Matching, Keep;
    var t := RemoveEventsStep(s, target, kind);
    KeepTimely(s.list, target, kind, s.past.refused, s.clock);
    KeepPosted(s.list, target, kind, s.past.posted, s.clock);
    RemovalTidy(s, target, kind, since);
    if target.Some? && kind == NO_TYPE {
      RemovalClears(s.list, target.value);
      RemovalCounts(s.list, target, kind, target.value);
      assert Get(t.objects, target.value).postedEvents == CountFor(t.list, target.value);
    }
    RemovalEvents(s.list, target, kind);
    assert Conserved(t);
  }

  predicate AskedFor(pe: PostEvent, target: Option<nat>, kind: int) {
    && pe.event.Some? && (target.Some? ==> pe.receiver == target.value)
    && (kind == NO_TYPE || pe.event.value.kind == kind)
  }

  /** What a removal does: during a pass the slots of the events asked for are cleared where they
      are; otherwise exactly the other entries stay.  Every receiver counts the events it keeps. */
  lemma RemovalOutcome(s: State, target: Option<nat>, kind: int)
    requires Inv(s)
    ensures var t := RemoveEventsStep(s, target, kind);
      && (s.recursion > 0 ==> |t.list| == |s.list| && forall k :: 0 <= k < |s.list| ==>
            t.list[k] == if AskedFor(s.list[k], target, kind) then s.list[k].(event := None) else s.list[k])
      && (s.recursion == 0 ==> forall pe :: pe in t.list <==> pe in s.list && !AskedFor(pe, target, kind))
      && (forall r: nat :: Get(t.objects, r).postedEvents == CountFor(t.list, r)
            && Get(t.objects, r).deleteLaterCalled == Get(s.objects, r).deleteLaterCalled)
      && t == s.(list := t.list, objects := t.objects, past := t.past)
  {
    hide Tidy, Conserved, CountFor, Keep, DecrementAll, LiveEvents;
    RemovalObjects(s, target, kind);
    forall pe
      ensures pe in Keep(s.list, target, kind) <==> pe in s.list && !AskedFor(pe, target, kind)
    {
      KeepMembers(s.list, target, kind, pe);
    }
  }

  lemma {:induction false} KeepMembers(list: seq<PostEvent>, target: Option<nat>, kind: int, pe: PostEvent)
    ensures pe in Keep(list, target, kind) <==> pe in list && !AskedFor(pe, target, kind)
  {
    if list != [] {
      KeepMembers(list[..|list| - 1], target, kind, pe);
      assert list == list[..|list| - 1] + [list[|list| - 1]];
    }
  }

  lemma KeepFlagged(list: seq<PostEvent>, target: Option<nat>, kind: int, objects: map<nat, ObjectPrivate>)
    requires DeletesFlagged(list, objects)
    ensures DeletesFlagged(Keep(list, target, kind), objects)
  {
    var kept := Keep(list, target, kind);
    forall p | 0 <= p < |kept| && Live(kept[p]) && kept[p].event.value.kind == DEFERRED_DELETE
      ensures Get(objects, kept[p].receiver).deleteLaterCalled
    {
      assert list[Origin(list, target, kind, p)] == kept[p];
    }
  }

  lemma NullMatchingShape(list: seq<PostEvent>, target: Option<nat>, kind: int, insertionOffset: nat, clock: nat, objects: map<nat, ObjectPrivate>)
    requires SortedFrom(list, insertionOffset) && StampedBefore(list, clock) && NoClash(list) && DeletesFlagged(list, objects)
    ensures SortedFrom(NullMatching(list, target, kind), insertionOffset)
    ensures StampedBefore(NullMatching(list, target, kind), clock)
    ensures NoClash(NullMatching(list, target, kind)) && DeletesFlagged(NullMatching(list, target, kind), objects)
  {
    var after := NullMatching(list, target, kind);
    forall p, q | 0 <= p < q < |after|
      ensures !Clash(after[p], after[q])
      ensures p >= insertionOffset ==> Precedes(after[p], after[q])
    {
      assert !Clash(list[p], list[q]);
      assert p >= insertionOffset ==> Precedes(list[p], list[q]);
    }
  }

  // ----- the clean-up of a global pass --------------------------------------------------

  ghost function EraseStep(s: State): State
    requires s.startOffset <= |s.list| && s.startOffset <= s.insertionOffset
  {
    s.(list := s.list[s.startOffset..], insertionOffset := s.insertionOffset - s.startOffset, startOffset := 0)
  }

  /** The erased prefix holds no event, and the insertion point cannot become negative
      (the assert at src/kernel/CoreApplication.cpp:1217). */
  lemma EraseKeeps(s: State, since: nat)
    requires Inv(s) && s.recursion > 0 && AddedSince(s.list, s.insertionOffset, since)
    ensures s.startOffset <= s.insertionOffset
    ensures Inv(EraseStep(s)) && AddedSince(EraseStep(s).list, EraseStep(s).insertionOffset, since)
  {
    EraseTidy(s.list, s.insertionOffset, s.clock, s.objects, s.startOffset);
    assert Conserved(EraseStep(s));
  }

  // ----- composition --------------------------------------------------------------------

  lemma ResumesCompose(a: State, b: State, c: State, since: nat)
    requires Resumes(a, b, since) && Resumes(b, c, since)
    ensures Resumes(a, c, since)
  {
  }

  lemma AddStays(list: seq<PostEvent>, insertionOffset: nat, pe: PostEvent, since: nat)
    requires AddedSince(list, insertionOffset, since) && pe.stamp >= since && insertionOffset <= |list|
    ensures Stays(list, AddEvent(list, insertionOffset, pe), since)
  {
    AddEventKeepsPrefix(list, insertionOffset, pe, since);
    var after := AddEvent(list, insertionOffset, pe);
    assert forall k :: 0 <= k < insertionOffset ==> after[k] == after[..insertionOffset][k] == list[k];
  }

  lemma UndisturbedCompose(a: State, b: State, c: State)
    requires Undisturbed(a, b) && Undisturbed(b, c)
    ensures Undisturbed(a, c)
  {
    forall k | 0 <= k < a.insertionOffset
      ensures SameSlot(a.list[k], c.list[k])
    {
      assert SameSlot(a.list[k], b.list[k]) && SameSlot(b.list[k], c.list[k]);
    }
  }

  // ----- what a pass delivers -----------------------------------------------------------

  ghost function EntriesOf(log: seq<Delivery>): (entries: seq<PostEvent>)
    ensures |entries| == |log|
    ensures forall k :: 0 <= k < |log| ==> entries[k] == log[k].entry
  {
    seq(|log|, k requires 0 <= k < |log| => log[k].entry)
  }

  /** The log grew from `before` to `after` by entries of `list`, at the positions `order`
      and in list order. */
  ghost predicate DeliveredInOrder(list: seq<PostEvent>, before: seq<Delivery>, after: seq<Delivery>, order: seq<nat>) {
    && |after| == |before| + |order|
    && (forall k :: 0 <= k < |order| ==> order[k] < |list| && after[|before| + k].entry == list[order[k]])
    && (forall j, k :: 0 <= j < k < |order| ==> order[j] < order[k])
  }

  lemma {:induction false} DueNothing(list: seq<PostEvent>, target: Option<nat>, kind: int, level: int)
    requires forall k :: 0 <= k < |list| ==> !Matches(list[k], target, kind)
    ensures Due(list, target, kind, level) == []
  {
    if list != [] {
      DueNothing(list[..|list| - 1], target, kind, level);
    }
  }

  // ----- one iteration of a pass --------------------------------------------------------

  /** Slot `k` holds nothing that a pass begun at `since` would still have to deliver. */
  ghost predicate Settled(s: State, k: nat, target: Option<nat>, kind: int, since: nat) {
    k < |s.list| && Deliverable(s.list[k], target, kind, s.loopLevel + s.scopeLevel) ==> s.list[k].stamp >= since
  }

  /** From `a` to `b`, the entry at `i` was dealt with, and any handler it reached has run.  It is
      delivered if it is due, and what its handler delivers in turn is delivered further in. */
  ghost predicate Handled(a: State, b: State, i: nat, target: Option<nat>, kind: int, since: nat) {
    && i < a.insertionOffset <= |a.list|
    && Continues(a, b, since)
    && (if IsGlobal(target, kind) then b.startOffset == i + 1 || b.startOffset == 0
        else b.startOffset == a.startOffset || b.startOffset == 0)
    && Settled(b, i, target, kind, since)
    && a.past.log + Delivers(a, i, target, kind) <= b.past.log
    && LoggedFurtherIn(b.past.log, |a.past.log| + |Delivers(a, i, target, kind)|, a.loopLevel + a.scopeLevel + 1)
    && (!IsGlobal(target, kind) && NoGlobals(a.script) ==> Unrefused(a, b))
    && (|b.script| == |a.script| ==>
          && b.insertionOffset == a.insertionOffset
          && b.past.accepted == a.past.accepted && b.past.removed == a.past.removed
          && (IsGlobal(target, kind) ==> b.startOffset == i + 1)
          && a.insertionOffset <= |b.list|
          && (forall k :: i < k < a.insertionOffset ==> b.list[k] == a.list[k]))
    && (NoSends(a.script) ==>
          && NoSends(b.script)
          && b.insertionOffset == a.insertionOffset
          && (IsGlobal(target, kind) ==> b.startOffset == i + 1)
          && a.insertionOffset <= |b.list|
          && (forall k :: 0 <= k < a.insertionOffset ==> SameSlot(a.list[k], b.list[k]))
          && b.past.log == a.past.log + Delivers(a, i, target, kind)
          && RefusedHere(a, b))
  }

  ghost function Delivers(a: State, i: nat, target: Option<nat>, kind: int): seq<Delivery>
    requires i < |a.list|
  {
    if Deliverable(a.list[i], target, kind, a.loopLevel + a.scopeLevel)
    then [Delivery(a.list[i], a.loopLevel + a.scopeLevel, target, kind)] else []
  }

  /** Where the shared offset is while the entry at `i` is being handled. */
  ghost function Advanced(a: State, i: nat, target: Option<nat>, kind: int): State {
    if IsGlobal(target, kind) then a.(startOffset := i + 1) else a
  }

  ghost predicate AtEntry(a: State, i: nat, target: Option<nat>, kind: int, since: nat) {
    && Inv(a) && a.recursion > 0 && i < a.insertionOffset
    && since <= a.clock && AddedSince(a.list, a.insertionOffset, since)
    && (IsGlobal(target, kind) ==> a.startOffset == i)
  }

  /** Entries that are not delivered: cleared ones, others' ones, and deferred deletes. */
  lemma SkipHandled(a: State, i: nat, target: Option<nat>, kind: int, since: nat)
    requires AtEntry(a, i, target, kind, since)
    requires !Live(a.list[i]) || (!IsGlobal(target, kind) && !Deliverable(a.list[i], target, kind, a.loopLevel + a.scopeLevel))
    ensures Handled(a, Advanced(a, i, target, kind), i, target, kind, since)
  {
    hide Tidy, AllTimely, AllAsPosted, DeliveredAsPosted, LiveEvents, Sent;
    assert OffsetsValid(Advanced(a, i, target, kind));
  }

  lemma RepostStays(a: State, i: nat, since: nat)
    requires AtEntry(a, i, None, NO_TYPE, since)
    ensures var b := RepostStep(a, i);
      && Stays(a.list, b.list, since) && AddedSince(b.list, b.insertionOffset, since)
      && |b.list| == |a.list| + 1
      && forall k :: 0 <= k < a.insertionOffset ==> b.list[k] == if k == i then Nulled(a.list[i]) else a.list[k]
  {
    hide Tidy, LiveEvents, AllTimely, CountFor, Get;
    var cleared, again := a.list[i := Nulled(a.list[i])], a.list[i].(stamp := a.clock);
    AddEventKeepsPrefix(cleared, a.insertionOffset, again, since);
    AddStays(cleared, a.insertionOffset, again, since);
    var b := RepostStep(a, i);
    assert forall k :: 0 <= k < a.insertionOffset ==> b.list[k] == b.list[..a.insertionOffset][k] == cleared[k];
  }

  lemma RepostHandled(a: State, i: nat, since: nat)
    requires AtEntry(a, i, None, NO_TYPE, since)
    requires Live(a.list[i]) && a.list[i].event.value.kind == DEFERRED_DELETE
    requires !Deliverable(a.list[i], None, NO_TYPE, a.loopLevel + a.scopeLevel)
    ensures Handled(a, Advanced(RepostStep(a, i), i, None, NO_TYPE), i, None, NO_TYPE, since)
  {
    hide Tidy, LiveEvents, Sent, AllTimely, AllAsPosted, DeliveredAsPosted, CountFor, Get;
    RepostKeeps(a, i);
    RepostStays(a, i, since);
    hide AddEvent;
    assert OffsetsValid(Advanced(RepostStep(a, i), i, None, NO_TYPE));
  }

  /** The state a handler starts in. */
  ghost function Notify(a: State, i: nat, target: Option<nat>, kind: int): State
    requires i < |a.list| && Live(a.list[i])
  {
    var b := Advanced(DeliverStep(a, i, target, kind), i, target, kind);
    b.(scopeLevel := a.scopeLevel + 1)
  }

  lemma NotifyKeeps(a: State, i: nat, target: Option<nat>, kind: int, since: nat)
    requires AtEntry(a, i, target, kind, since)
    requires Deliverable(a.list[i], target, kind, a.loopLevel + a.scopeLevel)
    ensures Inv(Notify(a, i, target, kind))
    ensures AddedSince(Notify(a, i, target, kind).list, a.insertionOffset, since)
  {
    DeliverKeeps(a, i, target, kind);
    assert OffsetsValid(Notify(a, i, target, kind));
  }

  lemma NotifyUndisturbed(a: State, i: nat, target: Option<nat>, kind: int, d: State)
    requires i < a.insertionOffset <= |a.list| && Live(a.list[i])
    requires Undisturbed(Notify(a, i, target, kind), d)
    ensures a.insertionOffset <= |d.list| && forall k :: 0 <= k < a.insertionOffset ==> SameSlot(a.list[k], d.list[k])
  {
    var c := Notify(a, i, target, kind);
    forall k | 0 <= k < a.insertionOffset
      ensures SameSlot(a.list[k], d.list[k])
    {
      assert SameSlot(c.list[k], d.list[k]);
    }
  }

  lemma NotifyContinues(a: State, i: nat, target: Option<nat>, kind: int, since: nat, d: State)
    requires AtEntry(a, i, target, kind, since)
    requires Deliverable(a.list[i], target, kind, a.loopLevel + a.scopeLevel)
    requires Resumes(Notify(a, i, target, kind), d, since)
    ensures Continues(a, d.(scopeLevel := d.scopeLevel - 1), since)
  {
    hide Tidy, AllTimely, AllAsPosted, DeliveredAsPosted, LiveEvents, Sent;
    assert Notify(a, i, target, kind).past.log == a.past.log + Delivers(a, i, target, kind);
    assert Conserved(d.(scopeLevel := d.scopeLevel - 1));
  }

  lemma NotifyHandled(a: State, i: nat, target: Option<nat>, kind: int, since: nat, d: State)
    requires AtEntry(a, i, target, kind, since)
    requires Deliverable(a.list[i], target, kind, a.loopLevel + a.scopeLevel)
    requires UserCodeRan(Notify(a, i, target, kind), d, since)
    ensures Handled(a, d.(scopeLevel := d.scopeLevel - 1), i, target, kind, since)
  {
    hide Tidy, Conserved, LiveEvents, AddedSince;
    NotifyContinues(a, i, target, kind, since, d);
    if NoSends(a.script) {
      NotifyUndisturbed(a, i, target, kind, d);
    }
  }

  // ----- user code ----------------------------------------------------------------------

  /** What a stretch of user code run from `a` to `b` guarantees. */
  ghost predicate UserCodeRan(a: State, b: State, since: nat) {
    && Resumes(a, b, since)
    && (|b.script| == |a.script| ==> b == a)
    && (a.recursion > 0 && NoSends(a.script) ==> Undisturbed(a, b))
    && (NoGlobals(a.script) ==> Unrefused(a, b))
  }

  ghost function Popped(s: State): State
    requires s.script != []
  {
    s.(script := s.script[1..])
  }

  lemma UserCodeStarts(a: State, since: nat)
    requires Inv(a) && AddedSince(a.list, a.insertionOffset, since)
    ensures UserCodeRan(a, a, since)
  {
  }

  /** Taking the next operation off the script changes nothing else. */
  lemma UserCodeGoesOn(a: State, v: State, since: nat)
    requires UserCodeRan(a, v, since) && v.script != []
    ensures Inv(Popped(v)) && AddedSince(v.list, v.insertionOffset, since) && a.clock <= v.clock
    ensures |v.script| <= |a.script|
    ensures Resumes(Popped(v), Popped(v), since)
    ensures v.recursion > 0 && NoSends(v.script) ==> Undisturbed(Popped(v), Popped(v))
    ensures NoGlobals(v.script) ==> Unrefused(Popped(v), Popped(v))
  {
    hide Tidy, AllTimely, LiveEvents;
  }

  /** One more operation of a stretch of user code begun at `a`. */
  lemma UserCodeStep(a: State, v: State, w: State, since: nat)
    requires UserCodeRan(a, v, since) && v.script != []
    requires Resumes(Popped(v), w, since)
    requires v.recursion > 0 && NoSends(v.script) ==> Undisturbed(Popped(v), w)
    requires NoGlobals(v.script) ==> Unrefused(Popped(v), w)
    ensures UserCodeRan(a, w, since) && |w.script| < |v.script|
  {
    ResumesCompose(a, v, w, since);
    if a.recursion > 0 && NoSends(a.script) {
      UndisturbedCompose(a, v, w);
    }
  }

  ghost function EnterLoop(s: State, eventLoop: nat): State {
    s.(loopLevel := s.loopLevel + 1, eventLoops := s.eventLoops + [eventLoop])
  }

  lemma EnterKeeps(s: State, eventLoop: nat)
    requires Inv(s) && eventLoop !in s.eventLoops
    ensures Inv(EnterLoop(s, eventLoop)) && CountedBy(s.list, s.objects)
  {
    hide AllTimely, AllAsPosted, DeliveredAsPosted, AllLawful, LiveEvents, Sent;
    assert Conserved(EnterLoop(s, eventLoop)) && OffsetsValid(EnterLoop(s, eventLoop));
  }

  /** A nested `EventLoop::exec`: whatever runs inside, the loop popped at the end is the one
      pushed at the start, and the loop level is back where it was. */
  lemma ExecKeeps(a: State, eventLoop: nat, quitTarget: Option<nat>, d: State, since: nat)
    requires Inv(a) && AddedSince(a.list, a.insertionOffset, since) && eventLoop !in a.eventLoops
    requires Resumes(RemoveEventsStep(EnterLoop(a, eventLoop), quitTarget, QUIT), d, since)
    ensures d.eventLoops != [] && d.eventLoops[|d.eventLoops| - 1] == eventLoop
    ensures LoggedFurtherIn(d.past.log, |a.past.log|, a.loopLevel + a.scopeLevel + 1)
    ensures Resumes(a, d.(loopLevel := d.loopLevel - 1, eventLoops := d.eventLoops[..|d.eventLoops| - 1]), since)
  {
    hide Tidy, AllTimely, AllAsPosted, DeliveredAsPosted, LiveEvents, Sent;
    var e := d.(loopLevel := d.loopLevel - 1, eventLoops := d.eventLoops[..|d.eventLoops| - 1]);
    assert e.eventLoops == a.eventLoops;
    assert Conserved(e) && OffsetsValid(e);
  }

  // ----- a whole pass -------------------------------------------------------------------

  ghost function BeginStep(a: State): State {
    a.(recursion := a.recursion + 1, insertionOffset := |a.list|)
  }

  lemma BeginKeeps(a: State, since: nat)
    requires Inv(a)
    ensures Inv(BeginStep(a)) && AddedSince(BeginStep(a).list, BeginStep(a).insertionOffset, since)
  {
  }

  ghost function EndStep(v: State, target: Option<nat>, kind: int): State
    requires v.recursion > 0 && v.startOffset <= v.insertionOffset <= |v.list|
  {
    var w := v.(recursion := v.recursion - 1);
    if IsGlobal(target, kind) then EraseStep(w) else w
  }

  /** The state of a pass begun at `a` (after `BeginStep`) when it is about to look at `i`. */
  ghost predicate Passing(a: State, v: State, i: nat, target: Option<nat>, kind: int, order: seq<nat>) {
    && a.recursion > 0 && a.startOffset <= a.insertionOffset == |a.list|
    && Continues(a, v, a.clock)
    && (if IsGlobal(target, kind) then v.startOffset == i else v.startOffset == a.startOffset || v.startOffset == 0)
    && (forall k :: 0 <= k < i ==> Settled(v, k, target, kind, a.clock))
    && (!IsGlobal(target, kind) && NoGlobals(a.script) ==> Unrefused(a, v))
    && (a.script == [] ==>
          && v.insertionOffset == a.insertionOffset && a.startOffset <= i <= a.insertionOffset
          && v.past.accepted == a.past.accepted && v.past.removed == a.past.removed
          && (forall k :: i <= k < a.insertionOffset ==> v.list[k] == a.list[k])
          && EntriesOf(v.past.log[|a.past.log|..]) == Due(a.list[a.startOffset..i], target, kind, a.loopLevel + a.scopeLevel))
    && (NoSends(a.script) ==>
          && NoSends(v.script) && v.insertionOffset == a.insertionOffset && i <= a.insertionOffset
          && (forall k :: 0 <= k < a.insertionOffset ==> SameSlot(a.list[k], v.list[k]))
          && DeliveredInOrder(a.list, a.past.log, v.past.log, order)
          && (forall k :: 0 <= k < |order| ==> order[k] < i)
          && RefusedHere(a, v))
  }

  lemma PassingBegins(a: State, target: Option<nat>, kind: int)
    requires Inv(a) && a.recursion > 0 && a.insertionOffset == |a.list|
    ensures Passing(a, a, a.startOffset, target, kind, [])
  {
    assert a.past.log[|a.past.log|..] == [];
    assert a.list[a.startOffset..a.startOffset] == [];
  }

  ghost function Cursor(w: State, i: nat, target: Option<nat>, kind: int): nat {
    if IsGlobal(target, kind) then w.startOffset else i + 1
  }

  ghost function OrderStep(v: State, i: nat, target: Option<nat>, kind: int, order: seq<nat>): seq<nat> {
    if i < |v.list| && Delivers(v, i, target, kind) != [] then order + [i] else order
  }

  lemma EntriesConcat(log: seq<Delivery>, more: seq<Delivery>)
    ensures EntriesOf(log + more) == EntriesOf(log) + EntriesOf(more)
  {
  }

  lemma DueGrows(list: seq<PostEvent>, from: nat, i: nat, target: Option<nat>, kind: int, level: int)
    requires from <= i < |list|
    ensures Due(list[from..i + 1], target, kind, level)
         == Due(list[from..i], target, kind, level) + (if Deliverable(list[i], target, kind, level) then [list[i]] else [])
  {
    assert list[from..i + 1] == list[from..i] + [list[i]];
    DueSnoc(list[from..i], list[i], target, kind, level);
  }

  lemma PassingDue(a: State, v: State, w: State, i: nat, target: Option<nat>, kind: int, order: seq<nat>)
    requires Passing(a, v, i, target, kind, order) && Handled(v, w, i, target, kind, a.clock)
    requires a.script == []
    ensures EntriesOf(w.past.log[|a.past.log|..]) == Due(a.list[a.startOffset..i + 1], target, kind, a.loopLevel + a.scopeLevel)
  {
    hide Inv, SameSlot, DeliveredInOrder;
    var n := |a.past.log|;
    assert v.list[i] == a.list[i];
    DueGrows(a.list, a.startOffset, i, target, kind, a.loopLevel + a.scopeLevel);
    assert w.past.log[n..] == v.past.log[n..] + Delivers(v, i, target, kind);
    EntriesConcat(v.past.log[n..], Delivers(v, i, target, kind));
  }

  lemma PassingOrder(a: State, v: State, w: State, i: nat, target: Option<nat>, kind: int, order: seq<nat>)
    requires Passing(a, v, i, target, kind, order) && Handled(v, w, i, target, kind, a.clock)
    requires NoSends(a.script)
    ensures DeliveredInOrder(a.list, a.past.log, w.past.log, OrderStep(v, i, target, kind, order))
    ensures forall k :: 0 <= k < |OrderStep(v, i, target, kind, order)| ==> OrderStep(v, i, target, kind, order)[k] < i + 1
    ensures forall k :: 0 <= k < a.insertionOffset ==> SameSlot(a.list[k], w.list[k])
  {
    hide Inv;
    assert SameSlot(a.list[i], v.list[i]);
    forall k | 0 <= k < a.insertionOffset
      ensures SameSlot(a.list[k], w.list[k])
    {
      assert SameSlot(a.list[k], v.list[k]) && SameSlot(v.list[k], w.list[k]);
    }
  }

  lemma PassingStep(a: State, v: State, w: State, i: nat, target: Option<nat>, kind: int, order: seq<nat>)
    requires Passing(a, v, i, target, kind, order) && Handled(v, w, i, target, kind, a.clock)
    ensures Passing(a, w, Cursor(w, i, target, kind), target, kind, OrderStep(v, i, target, kind, order))
  {
    hide Inv, Due, EntriesOf, DeliveredInOrder;
    forall k | 0 <= k < Cursor(w, i, target, kind)
      ensures Settled(w, k, target, kind, a.clock)
    {
      assert k < i ==> Settled(v, k, target, kind, a.clock);
    }
    if a.script == [] {
      PassingDue(a, v, w, i, target, kind, order);
    }
    if NoSends(a.script) {
      PassingOrder(a, v, w, i, target, kind, order);
    }
  }

  /** If the event was posted before `a`, it is a deferred delete refused since. */
  ghost predicate WasRefused(a: State, refused: map<nat, int>, pe: PostEvent) {
    Live(pe) && pe.event.value.id < a.clock ==>
      && pe.event.value.kind == DEFERRED_DELETE && pe.stamp in refused
      && !AllowDeferredDelete(pe.event.value.level, refused[pe.stamp], NO_TYPE)
      && refused[pe.stamp] >= a.loopLevel + a.scopeLevel
      && (NoSends(a.script) ==> refused[pe.stamp] == a.loopLevel + a.scopeLevel)
  }

  /** What a pass leaves.
      - After a pass over everything, however deeply its handlers sent in turn, every entry left
        was added during the pass.
      - Of the events posted before a pass, told by their ids, a pass over everything leaves only
        deferred deletes that it, or a pass within it, refused.  Any other pass leaves none that it
        should deliver but deferred deletes that a pass over everything within it refused; if its
        handlers make no such pass, nothing is refused, and none is left. */
  ghost predicate PassLeaves(a: State, b: State, target: Option<nat>, kind: int) {
    && (IsGlobal(target, kind) ==> AddedSince(b.list, 0, a.clock))
    && (forall k :: 0 <= k < |b.list| ==> Settled(b, k, target, kind, a.clock))
    && (forall k :: 0 <= k < |b.list| && (IsGlobal(target, kind) || Deliverable(b.list[k], target, kind, a.loopLevel + a.scopeLevel)) ==>
          WasRefused(a, b.past.refused, b.list[k]))
    && (!IsGlobal(target, kind) && NoGlobals(a.script) ==> Unrefused(a, b))
  }

  /** What a pass delivers.
      - If its handlers do not send, only what was there when it began, in order.
      - If its handlers do nothing at all, exactly what was due, and no event comes or goes
        otherwise. */
  ghost predicate PassSends(a: State, b: State, target: Option<nat>, kind: int, order: seq<nat>)
    requires a.startOffset <= |a.list|
  {
    && (NoSends(a.script) ==> NoSends(b.script) && DeliveredInOrder(a.list, a.past.log, b.past.log, order))
    && (a.script == [] ==>
          && b.past.accepted == a.past.accepted && b.past.removed == a.past.removed
          && |a.past.log| <= |b.past.log|
          && EntriesOf(b.past.log[|a.past.log|..]) == Due(a.list[a.startOffset..], target, kind, a.loopLevel + a.scopeLevel))
  }

  /** What `sendPostedEvents` guarantees, from its call at `a` to its return at `b`. */
  ghost predicate Passed(a: State, b: State, target: Option<nat>, kind: int, since: nat, order: seq<nat>) {
    && Resumes(a, b, since)
    && a.startOffset <= |a.list|
    && PassLeaves(a, b, target, kind)
    && PassSends(a, b, target, kind, order)
  }

  /** An entry added during a pass holds a new event or one that was refused. */
  lemma LeftOvers(a: State, v: State, i: nat, target: Option<nat>, kind: int, order: seq<nat>)
    requires Inv(a) && Passing(BeginStep(a), v, i, target, kind, order)
    ensures forall k :: 0 <= k < |v.list| && v.list[k].stamp >= a.clock ==> WasRefused(a, v.past.refused, v.list[k])
  {
    hide LiveEvents, Due, EntriesOf, CountFor;
    forall k | 0 <= k < |v.list| && v.list[k].stamp >= a.clock
      ensures WasRefused(a, v.past.refused, v.list[k])
    {
      assert Timely(v.list[k], v.past.refused);
    }
  }

  lemma PassSettles(a: State, v: State, i: nat, target: Option<nat>, kind: int, order: seq<nat>)
    requires Inv(a) && Passing(BeginStep(a), v, i, target, kind, order) && i >= v.insertionOffset
    ensures v.startOffset <= v.insertionOffset <= |v.list|
    ensures var b := EndStep(v, target, kind); forall k :: 0 <= k < |b.list| ==> Settled(b, k, target, kind, a.clock)
  {
    hide Tidy, AllTimely, LiveEvents, Due, EntriesOf;
    var b := EndStep(v, target, kind);
    forall k | 0 <= k < |b.list|
      ensures Settled(b, k, target, kind, a.clock)
    {
      assert !IsGlobal(target, kind) && k < i ==> Settled(v, k, target, kind, a.clock);
    }
  }

  lemma PassRefused(a: State, v: State, i: nat, target: Option<nat>, kind: int, order: seq<nat>)
    requires Inv(a) && Passing(BeginStep(a), v, i, target, kind, order) && i >= v.insertionOffset
    requires v.startOffset <= v.insertionOffset <= |v.list|
    ensures var b := EndStep(v, target, kind);
      forall k :: 0 <= k < |b.list| && (IsGlobal(target, kind) || Deliverable(b.list[k], target, kind, a.loopLevel + a.scopeLevel)) ==>
        WasRefused(a, b.past.refused, b.list[k])
  {
    hide Tidy, AllTimely, LiveEvents, Due, EntriesOf, WasRefused;
    var b := EndStep(v, target, kind);
    LeftOvers(a, v, i, target, kind, order);
    PassSettles(a, v, i, target, kind, order);
    forall k | 0 <= k < |b.list| && (IsGlobal(target, kind) || Deliverable(b.list[k], target, kind, a.loopLevel + a.scopeLevel))
      ensures WasRefused(a, b.past.refused, b.list[k])
    {
      assert Settled(b, k, target, kind, a.clock);
      assert b.list[k] == v.list[if IsGlobal(target, kind) then k + v.startOffset else k];
    }
  }

  lemma PassResumes(a: State, v: State, i: nat, target: Option<nat>, kind: int, since: nat, order: seq<nat>)
    requires Inv(a) && since <= a.clock && AddedSince(a.list, a.insertionOffset, since)
    requires Passing(BeginStep(a), v, i, target, kind, order) && i >= v.insertionOffset
    ensures v.startOffset <= v.insertionOffset <= |v.list|
    ensures Resumes(a, EndStep(v, target, kind), since)
    ensures IsGlobal(target, kind) ==> AddedSince(EndStep(v, target, kind).list, 0, a.clock)
    ensures !IsGlobal(target, kind) && NoGlobals(a.script) ==> Unrefused(a, EndStep(v, target, kind))
  {
    hide AllTimely, AllAsPosted, DeliveredAsPosted, AllowDeferredDelete, Deliverable, Settled, LiveEvents, Sent, Due, EntriesOf, DeliveredInOrder;
    var b := EndStep(v, target, kind);
    if IsGlobal(target, kind) {
      EraseKeeps(v, a.clock);
    }
    assert OffsetsValid(b);
    assert Stays(a.list, b.list, since);
    hide Tidy, Stays, SameSlot;
  }

  lemma PassLeft(a: State, v: State, i: nat, target: Option<nat>, kind: int, since: nat, order: seq<nat>)
    requires Inv(a) && since <= a.clock && AddedSince(a.list, a.insertionOffset, since)
    requires Passing(BeginStep(a), v, i, target, kind, order) && i >= v.insertionOffset
    ensures v.startOffset <= v.insertionOffset <= |v.list|
    ensures PassLeaves(a, EndStep(v, target, kind), target, kind)
  {
    PassResumes(a, v, i, target, kind, since, order);
    PassRefused(a, v, i, target, kind, order);
    PassSettles(a, v, i, target, kind, order);
    hide Inv, Passing, BeginStep, EndStep, Resumes, WasRefused, Deliverable, Settled, AddedSince, IsGlobal, Unrefused, NoGlobals;
  }

  lemma PassDelivers(a: State, v: State, i: nat, target: Option<nat>, kind: int, order: seq<nat>)
    requires Inv(a) && Passing(BeginStep(a), v, i, target, kind, order) && i >= v.insertionOffset
    ensures a.startOffset <= |a.list|
    ensures v.startOffset <= v.insertionOffset <= |v.list|
    ensures PassSends(a, EndStep(v, target, kind), target, kind, order)
  {
    hide Tidy, Conserved, AllTimely, AllAsPosted, DeliveredAsPosted, AllLawful, Settled, SameSlot, Due, EntriesOf;
    if a.script == [] {
      assert a.list[a.startOffset..i] == a.list[a.startOffset..];
    }
  }

  lemma PassEnds(a: State, v: State, i: nat, target: Option<nat>, kind: int, since: nat, order: seq<nat>)
    requires Inv(a) && since <= a.clock && AddedSince(a.list, a.insertionOffset, since)
    requires Passing(BeginStep(a), v, i, target, kind, order) && i >= v.insertionOffset
    ensures Passed(a, EndStep(v, target, kind), target, kind, since, order)
  {
    PassResumes(a, v, i, target, kind, since, order);
    PassLeft(a, v, i, target, kind, since, order);
    PassDelivers(a, v, i, target, kind, order);
    hide Inv, Passing, Resumes, BeginStep, EndStep, PassLeaves, PassSends;
  }

  lemma NothingMatches(a: State, target: Option<nat>, kind: int)
    requires CountedBy(a.list, a.objects)
    requires a.list == [] || (target.Some? && Get(a.objects, target.value).postedEvents == 0)
    ensures forall k :: 0 <= k < |a.list| ==> !Matches(a.list[k], target, kind)
  {
    if target.Some? {
      assert Get(a.objects, target.value).postedEvents == CountFor(a.list, target.value);
      CountPositive(a.list, target.value);
    }
  }

  lemma NothingChanges(a: State, since: nat)
    requires Inv(a) && AddedSince(a.list, a.insertionOffset, since)
    ensures a.startOffset <= |a.list| && Resumes(a, a, since)
    ensures EntriesOf(a.past.log[|a.past.log|..]) == [] && DeliveredInOrder(a.list, a.past.log, a.past.log, [])
  {
    hide Tidy, AllTimely, AllAsPosted, DeliveredAsPosted, LiveEvents, Sent;
  }

  lemma NothingSettled(a: State, target: Option<nat>, kind: int)
    requires CountedBy(a.list, a.objects) && a.startOffset <= |a.list|
    requires a.list == [] || (target.Some? && Get(a.objects, target.value).postedEvents == 0)
    ensures forall k :: 0 <= k < |a.list| ==> !Deliverable(a.list[k], target, kind, a.loopLevel + a.scopeLevel)
    ensures IsGlobal(target, kind) ==> a.list == []
    ensures Due(a.list[a.startOffset..], target, kind, a.loopLevel + a.scopeLevel) == []
  {
    NothingMatches(a, target, kind);
    DueNothing(a.list[a.startOffset..], target, kind, a.loopLevel + a.scopeLevel);
  }

  /** The early return of `sendPostedEvents`: nothing was due. */
  lemma NothingDue(a: State, target: Option<nat>, kind: int, since: nat)
    requires Inv(a) && AddedSince(a.list, a.insertionOffset, since)
    requires a.list == [] || (target.Some? && Get(a.objects, target.value).postedEvents == 0)
    ensures Passed(a, a, target, kind, since, [])
  {
    NothingChanges(a, since);
    NothingSettled(a, target, kind);
    assert PassLeaves(a, a, target, kind);
    hide PassLeaves, Inv, Resumes, Due, Get, EntriesOf, WasRefused, DeliveredInOrder, Deliverable, NoSends;
  }

  /** If its handlers make no pass over everything, a pass for one receiver or one type leaves no
      earlier event that it should deliver. */
  lemma NothingDueLeft(a: State, b: State, target: Option<nat>, kind: int, since: nat, order: seq<nat>, k: nat)
    requires Inv(a) && Passed(a, b, target, kind, since, order) && !IsGlobal(target, kind) && NoGlobals(a.script)
    requires k < |b.list| && Deliverable(b.list[k], target, kind, a.loopLevel + a.scopeLevel)
    ensures b.list[k].event.value.id >= a.clock
  {
    assert Settled(b, k, target, kind, a.clock) && WasRefused(a, b.past.refused, b.list[k]);
    hide Tidy, Conserved, OffsetsValid;
  }
}

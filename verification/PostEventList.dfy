/** The per-thread list of posted events as a value: `PostEventList` of
    include/pdk/base/os/thread/internal/ThreadPrivate.h, and what the operations of
    src/kernel/CoreApplication.cpp do to it.  The class `EventDispatch.ThreadData` is
    verified against these definitions. */
module PostEventLists {

  import opened Wrappers

  /** Values of `Event::Type` that the queue treats specially. */
  const NO_TYPE := 0
  const QUIT := 2
  const DEFERRED_DELETE := 3

  /** `level` is the loop level a `DeferredDeleteEvent` remembers; 0 for every other event. */
  datatype Event = Event(id: nat, kind: int, level: int)

  /** One queue entry.  `stamp` numbers the calls of `addEvent`; the program has no such
      field, it only lets properties speak about the order of posting. */
  datatype PostEvent = PostEvent(receiver: nat, event: Option<Event>, priority: int, stamp: nat)

  /** What the queue keeps in an object: `m_postedEvents` and `m_deleteLaterCalled`. */
  datatype ObjectPrivate = ObjectPrivate(postedEvents: int, deleteLaterCalled: bool)

  predicate Live(pe: PostEvent) {
    pe.event.Some?
  }

  function Nulled(pe: PostEvent): PostEvent {
    pe.(event := None)
  }

  // ----- counting ---------------------------------------------------------------------

  /** How many entries of `list` are live and addressed to `r`. */
  function CountFor(list: seq<PostEvent>, r: nat): nat {
    if list == [] then 0
    else (if Live(list[0]) && list[0].receiver == r then 1 else 0) + CountFor(list[1..], r)
  }

  /** The events held by the live entries of `list`. */
  ghost function LiveEvents(list: seq<PostEvent>): multiset<Event> {
    if list == [] then multiset{}
    else (if Live(list[0]) then multiset{list[0].event.value} else multiset{}) + LiveEvents(list[1..])
  }

  lemma {:induction false} CountConcat(a: seq<PostEvent>, b: seq<PostEvent>, r: nat)
    ensures CountFor(a + b, r) == CountFor(a, r) + CountFor(b, r)
    ensures LiveEvents(a + b) == LiveEvents(a) + LiveEvents(b)
  {
    if a == [] {
      assert a + b == b;
    } else {
      assert (a + b)[0] == a[0] && (a + b)[1..] == a[1..] + b;
      CountConcat(a[1..], b, r);
    }
  }

  lemma CountSnoc(a: seq<PostEvent>, pe: PostEvent, r: nat)
    ensures CountFor(a + [pe], r) == CountFor(a, r) + (if Live(pe) && pe.receiver == r then 1 else 0)
    ensures LiveEvents(a + [pe]) == LiveEvents(a) + (if Live(pe) then multiset{pe.event.value} else multiset{})
  {
    CountConcat(a, [pe], r);
  }

  /** Splitting a list around position `k`. */
  lemma CountSplit(list: seq<PostEvent>, k: nat, r: nat)
    requires k < |list|
    ensures CountFor(list, r) == CountFor(list[..k], r)
                               + (if Live(list[k]) && list[k].receiver == r then 1 else 0)
                               + CountFor(list[k + 1..], r)
    ensures LiveEvents(list) == LiveEvents(list[..k])
                              + (if Live(list[k]) then multiset{list[k].event.value} else multiset{})
                              + LiveEvents(list[k + 1..])
  {
    assert list == list[..k] + ([list[k]] + list[k + 1..]);
    CountConcat(list[..k], [list[k]] + list[k + 1..], r);
    CountConcat([list[k]], list[k + 1..], r);
  }

  /** Nulling a live entry takes exactly its event away, and one from its receiver's count. */
  lemma CountNull(list: seq<PostEvent>, k: nat, r: nat)
    requires k < |list| && Live(list[k])
    ensures CountFor(list[k := Nulled(list[k])], r) == CountFor(list, r) - (if list[k].receiver == r then 1 else 0)
    ensures list[k].event.value in LiveEvents(list)
    ensures LiveEvents(list[k := Nulled(list[k])]) == LiveEvents(list) - multiset{list[k].event.value}
  {
    var after := list[k := Nulled(list[k])];
    CountSplit(list, k, r);
    CountSplit(after, k, r);
    assert after[..k] == list[..k] && after[k + 1..] == list[k + 1..];
  }

  /** Entries with no event count for nothing, so a nulled prefix may be erased. */
  lemma {:induction false} CountNone(list: seq<PostEvent>, r: nat)
    requires forall k :: 0 <= k < |list| ==> !Live(list[k])
    ensures CountFor(list, r) == 0
    ensures LiveEvents(list) == multiset{}
  {
    if list != [] {
      CountNone(list[1..], r);
    }
  }

  lemma CountErase(list: seq<PostEvent>, n: nat, r: nat)
    requires n <= |list|
    requires forall k :: 0 <= k < n ==> !Live(list[k])
    ensures CountFor(list[n..], r) == CountFor(list, r)
    ensures LiveEvents(list[n..]) == LiveEvents(list)
  {
    assert list == list[..n] + list[n..];
    CountConcat(list[..n], list[n..], r);
    CountNone(list[..n], r);
  }

  /** A receiver is counted exactly when some live entry is addressed to it. */
  lemma {:induction false} CountPositive(list: seq<PostEvent>, r: nat)
    ensures CountFor(list, r) > 0 <==> exists k :: 0 <= k < |list| && Live(list[k]) && list[k].receiver == r
  {
    if list != [] {
      CountPositive(list[1..], r);
      if exists k :: 0 <= k < |list| && Live(list[k]) && list[k].receiver == r {
        var k :| 0 <= k < |list| && Live(list[k]) && list[k].receiver == r;
        assert k == 0 || list[1..][k - 1] == list[k];
      }
      if exists k :: 0 <= k < |list[1..]| && Live(list[1..][k]) && list[1..][k].receiver == r {
        var k :| 0 <= k < |list[1..]| && Live(list[1..][k]) && list[1..][k].receiver == r;
        assert list[k + 1] == list[1..][k];
      }
    }
  }

  // ----- addEvent ---------------------------------------------------------------------

  /** Where `std::upper_bound` puts `priority` in a part sorted by descending priority. */
  function UpperBound(list: seq<PostEvent>, from: nat, priority: int): (k: nat)
    requires from <= |list|
    ensures from <= k <= |list|
    ensures forall j :: from <= j < k ==> list[j].priority >= priority
    ensures k < |list| ==> list[k].priority < priority
    decreases |list| - from
  {
    if from == |list| || list[from].priority < priority then from else UpperBound(list, from + 1, priority)
  }

  function AddPosition(list: seq<PostEvent>, insertionOffset: nat, priority: int): (k: nat)
    ensures k <= |list|
    ensures k >= insertionOffset || k == |list|
  {
    if list == [] || list[|list| - 1].priority >= priority || insertionOffset >= |list| then |list|
    else UpperBound(list, insertionOffset, priority)
  }

  function AddEvent(list: seq<PostEvent>, insertionOffset: nat, pe: PostEvent): seq<PostEvent> {
    var k := AddPosition(list, insertionOffset, pe.priority);
    list[..k] + [pe] + list[k..]
  }

  /** Descending priority, and posting order within one priority. */
  predicate Precedes(a: PostEvent, b: PostEvent) {
    a.priority > b.priority || (a.priority == b.priority && a.stamp < b.stamp)
  }

  ghost predicate SortedFrom(list: seq<PostEvent>, from: nat) {
    forall i, j :: from <= i < j < |list| ==> Precedes(list[i], list[j])
  }

  /** All stamps were handed out before `clock`. */
  ghost predicate StampedBefore(list: seq<PostEvent>, clock: nat) {
    forall k :: 0 <= k < |list| ==> list[k].stamp < clock
  }

  /** Everything from `from` on was added at `since` or later. */
  ghost predicate AddedSince(list: seq<PostEvent>, from: nat, since: nat) {
    forall k :: from <= k < |list| ==> list[k].stamp >= since
  }

  /** `addEvent` keeps the part from `insertionOffset` on sorted, with a later event after
      all earlier events of its priority, although the part before it need not be sorted. */
  lemma AddEventKeepsOrder(list: seq<PostEvent>, insertionOffset: nat, pe: PostEvent)
    requires SortedFrom(list, insertionOffset)
    requires StampedBefore(list, pe.stamp)
    ensures SortedFrom(AddEvent(list, insertionOffset, pe), insertionOffset)
    ensures StampedBefore(AddEvent(list, insertionOffset, pe), pe.stamp + 1)
  {
    var k := AddPosition(list, insertionOffset, pe.priority);
    var after := AddEvent(list, insertionOffset, pe);
    forall i, j | insertionOffset <= i < j < |after|
      ensures Precedes(after[i], after[j])
    {
      if j == k {
        if k == |list| && insertionOffset < |list| {
          assert i == |list| - 1 || Precedes(list[i], list[|list| - 1]);
        }
      } else if i == k {
        assert j - 1 == k || Precedes(list[k], list[j - 1]);
      }
    }
  }

  /** `addEvent` never touches what lies before the insertion point. */
  lemma AddEventKeepsPrefix(list: seq<PostEvent>, insertionOffset: nat, pe: PostEvent, since: nat)
    requires AddedSince(list, insertionOffset, since) && pe.stamp >= since
    ensures AddedSince(AddEvent(list, insertionOffset, pe), insertionOffset, since)
    ensures |AddEvent(list, insertionOffset, pe)| == |list| + 1
    ensures insertionOffset <= |list| ==> AddEvent(list, insertionOffset, pe)[..insertionOffset] == list[..insertionOffset]
  {
  }

  lemma AddEventCounts(list: seq<PostEvent>, insertionOffset: nat, pe: PostEvent, r: nat)
    requires Live(pe)
    ensures CountFor(AddEvent(list, insertionOffset, pe), r) == CountFor(list, r) + (if pe.receiver == r then 1 else 0)
    ensures LiveEvents(AddEvent(list, insertionOffset, pe)) == LiveEvents(list) + multiset{pe.event.value}
  {
    hide CountFor, LiveEvents, UpperBound;
    var k := AddPosition(list, insertionOffset, pe.priority);
    var after := AddEvent(list, insertionOffset, pe);
    CountSplit(after, k, r);
    assert after[..k] == list[..k] && after[k + 1..] == list[k..];
    assert list == list[..k] + list[k..];
    CountConcat(list[..k], list[k..], r);
  }

  // ----- at most one Quit and one DeferredDelete per receiver -------------------------

  predicate Clash(a: PostEvent, b: PostEvent) {
    Live(a) && Live(b) && a.receiver == b.receiver && a.event.value.kind == b.event.value.kind
    && (a.event.value.kind == QUIT || a.event.value.kind == DEFERRED_DELETE)
  }

  ghost predicate NoClash(list: seq<PostEvent>) {
    forall i, j :: 0 <= i < j < |list| ==> !Clash(list[i], list[j])
  }

  lemma AddEventNoClash(list: seq<PostEvent>, insertionOffset: nat, pe: PostEvent)
    requires NoClash(list)
    requires forall k :: 0 <= k < |list| ==> !Clash(list[k], pe)
    ensures NoClash(AddEvent(list, insertionOffset, pe))
  {
    var k := AddPosition(list, insertionOffset, pe.priority);
    var after := AddEvent(list, insertionOffset, pe);
    forall i, j | 0 <= i < j < |after|
      ensures !Clash(after[i], after[j])
    {
      var i', j' := if i < k then i else i - 1, if j < k then j else j - 1;
      assert i == k || j == k || !Clash(list[i'], list[j']);
      assert i == k ==> !Clash(list[j'], pe);
    }
  }

  // ----- removal ----------------------------------------------------------------------

  predicate Matches(pe: PostEvent, receiver: Option<nat>, kind: int) {
    (receiver == None || pe.receiver == receiver.value)
    && Live(pe) && (kind == NO_TYPE || pe.event.value.kind == kind)
  }

  /** Removal while a send is running: matching entries are nulled in place. */
  function NullMatching(list: seq<PostEvent>, receiver: Option<nat>, kind: int): (after: seq<PostEvent>)
    ensures |after| == |list|
    ensures forall k :: 0 <= k < |list| ==>
      after[k] == if Matches(list[k], receiver, kind) then Nulled(list[k]) else list[k]
  {
    seq(|list|, k requires 0 <= k < |list| => if Matches(list[k], receiver, kind) then Nulled(list[k]) else list[k])
  }

  /** Removal otherwise: exactly the entries that do not match stay, in their order. */
  function Keep(list: seq<PostEvent>, receiver: Option<nat>, kind: int): seq<PostEvent> {
    if list == [] then []
    else
      var last := list[|list| - 1];
      Keep(list[..|list| - 1], receiver, kind) + (if Matches(last, receiver, kind) then [] else [last])
  }

  /** The matching entries, in their order. */
  function Matching(list: seq<PostEvent>, receiver: Option<nat>, kind: int): seq<PostEvent> {
    if list == [] then []
    else
      var last := list[|list| - 1];
      Matching(list[..|list| - 1], receiver, kind) + (if Matches(last, receiver, kind) then [last] else [])
  }

  /** Where entry `p` of the compacted list was before. */
  ghost function Origin(list: seq<PostEvent>, receiver: Option<nat>, kind: int, p: nat): (k: nat)
    requires p < |Keep(list, receiver, kind)|
    ensures p <= k < |list|
    ensures list[k] == Keep(list, receiver, kind)[p]
    ensures !Matches(list[k], receiver, kind)
  {
    var shorter := Keep(list[..|list| - 1], receiver, kind);
    assert |shorter| <= |list| - 1 by { KeepLength(list[..|list| - 1], receiver, kind); }
    if p < |shorter| then Origin(list[..|list| - 1], receiver, kind, p) else |list| - 1
  }

  lemma {:induction false} KeepLength(list: seq<PostEvent>, receiver: Option<nat>, kind: int)
    ensures |Keep(list, receiver, kind)| + |Matching(list, receiver, kind)| == |list|
  {
    if list != [] {
      KeepLength(list[..|list| - 1], receiver, kind);
    }
  }

  lemma {:induction false} OriginMonotone(list: seq<PostEvent>, receiver: Option<nat>, kind: int, p: nat, q: nat)
    requires p < q < |Keep(list, receiver, kind)|
    ensures Origin(list, receiver, kind, p) < Origin(list, receiver, kind, q)
  {
    var init := list[..|list| - 1];
    if q < |Keep(init, receiver, kind)| {
      OriginMonotone(init, receiver, kind, p, q);
    }
  }

  /** Appending one entry to the list appends to one of the two parts. */
  lemma RemovalSnoc(init: seq<PostEvent>, last: PostEvent, receiver: Option<nat>, kind: int)
    ensures Keep(init + [last], receiver, kind)
         == if Matches(last, receiver, kind) then Keep(init, receiver, kind) else Keep(init, receiver, kind) + [last]
    ensures Matching(init + [last], receiver, kind)
         == if Matches(last, receiver, kind) then Matching(init, receiver, kind) + [last] else Matching(init, receiver, kind)
    ensures NullMatching(init + [last], receiver, kind)
         == NullMatching(init, receiver, kind) + [if Matches(last, receiver, kind) then Nulled(last) else last]
  {
    assert (init + [last])[..|init|] == init;
  }

  /** Both ways of removing take away the same counts. */
  lemma {:induction false} RemovalCounts(list: seq<PostEvent>, receiver: Option<nat>, kind: int, r: nat)
    ensures CountFor(Keep(list, receiver, kind), r) + CountFor(Matching(list, receiver, kind), r) == CountFor(list, r)
    ensures CountFor(NullMatching(list, receiver, kind), r) == CountFor(Keep(list, receiver, kind), r)
  {
    if list == [] {
      assert NullMatching(list, receiver, kind) == [];
    } else {
      var init, last := list[..|list| - 1], list[|list| - 1];
      assert list == init + [last];
      RemovalCounts(init, receiver, kind, r);
      RemovalSnoc(init, last, receiver, kind);
      CountSnoc(init, last, r);
      CountSnoc(NullMatching(init, receiver, kind), if Matches(last, receiver, kind) then Nulled(last) else last, r);
      CountSnoc(Matching(init, receiver, kind), last, r);
      CountSnoc(Keep(init, receiver, kind), last, r);
    }
  }

  /** Both ways of removing take away the same events. */
  lemma {:induction false} RemovalEvents(list: seq<PostEvent>, receiver: Option<nat>, kind: int)
    ensures LiveEvents(Keep(list, receiver, kind)) + LiveEvents(Matching(list, receiver, kind)) == LiveEvents(list)
    ensures LiveEvents(NullMatching(list, receiver, kind)) == LiveEvents(Keep(list, receiver, kind))
  {
    if list == [] {
      assert NullMatching(list, receiver, kind) == [];
    } else {
      var init, last := list[..|list| - 1], list[|list| - 1];
      assert list == init + [last];
      RemovalEvents(init, receiver, kind);
      RemovalSnoc(init, last, receiver, kind);
      CountSnoc(init, last, 0);
      CountSnoc(NullMatching(init, receiver, kind), if Matches(last, receiver, kind) then Nulled(last) else last, 0);
      CountSnoc(Matching(init, receiver, kind), last, 0);
      CountSnoc(Keep(init, receiver, kind), last, 0);
    }
  }

  lemma {:induction false} KeepAll(list: seq<PostEvent>, receiver: Option<nat>, kind: int)
    requires forall k :: 0 <= k < |list| ==> !Matches(list[k], receiver, kind)
    ensures Keep(list, receiver, kind) == list && Matching(list, receiver, kind) == []
    ensures NullMatching(list, receiver, kind) == list
  {
    if list != [] {
      KeepAll(list[..|list| - 1], receiver, kind);
    }
  }

  /** After removing every event of `r`, none is counted for it. */
  lemma RemovalClears(list: seq<PostEvent>, r: nat)
    ensures CountFor(Keep(list, Some(r), NO_TYPE), r) == 0
  {
    var kept := Keep(list, Some(r), NO_TYPE);
    CountPositive(kept, r);
    forall p | 0 <= p < |kept|
      ensures !(Live(kept[p]) && kept[p].receiver == r)
    {
      var k := Origin(list, Some(r), NO_TYPE, p);
      assert !Matches(list[k], Some(r), NO_TYPE);
    }
  }

  /** Compaction is stable: it keeps order, stamps and uniqueness, and an entry never moves
      from before `from` to `from` or beyond. */
  lemma KeepPreserves(list: seq<PostEvent>, receiver: Option<nat>, kind: int, from: nat, clock: nat, since: nat)
    requires SortedFrom(list, from) && StampedBefore(list, clock) && NoClash(list) && AddedSince(list, from, since)
    ensures SortedFrom(Keep(list, receiver, kind), from)
    ensures StampedBefore(Keep(list, receiver, kind), clock)
    ensures NoClash(Keep(list, receiver, kind))
    ensures AddedSince(Keep(list, receiver, kind), from, since)
  {
    var kept := Keep(list, receiver, kind);
    forall p | 0 <= p < |kept|
      ensures kept[p].stamp < clock && (p >= from ==> kept[p].stamp >= since)
    {
      var k := Origin(list, receiver, kind, p);
    }
    forall p, q | 0 <= p < q < |kept|
      ensures !Clash(kept[p], kept[q]) && (p >= from ==> Precedes(kept[p], kept[q]))
    {
      OriginMonotone(list, receiver, kind, p, q);
      var i, j := Origin(list, receiver, kind, p), Origin(list, receiver, kind, q);
      assert !Clash(list[i], list[j]);
    }
  }

  // ----- what a pass delivers ---------------------------------------------------------

  /** Deferred deletes wait until the loop that posted them has returned, unless they were
      posted outside every loop or are asked for by type at their own level. */
  predicate AllowDeferredDelete(eventLevel: int, loopLevel: int, kind: int) {
    eventLevel > loopLevel || (eventLevel == 0 && loopLevel > 0)
    || (kind == DEFERRED_DELETE && eventLevel == loopLevel)
  }

  predicate Deliverable(pe: PostEvent, receiver: Option<nat>, kind: int, level: int) {
    Matches(pe, receiver, kind)
    && (pe.event.value.kind == DEFERRED_DELETE ==> AllowDeferredDelete(pe.event.value.level, level, kind))
  }

  /** The deliverable entries, in list order. */
  function Due(list: seq<PostEvent>, receiver: Option<nat>, kind: int, level: int): seq<PostEvent> {
    if list == [] then []
    else
      var last := list[|list| - 1];
      Due(list[..|list| - 1], receiver, kind, level) + (if Deliverable(last, receiver, kind, level) then [last] else [])
  }

  lemma DueSnoc(init: seq<PostEvent>, last: PostEvent, receiver: Option<nat>, kind: int, level: int)
    ensures Due(init + [last], receiver, kind, level)
         == Due(init, receiver, kind, level) + (if Deliverable(last, receiver, kind, level) then [last] else [])
  {
    assert (init + [last])[..|init|] == init;
  }

  // ----- the list together with what objects keep about it ----------------------------

  /** The private data of object `r`; an object never posted to has none recorded. */
  function Get(objects: map<nat, ObjectPrivate>, r: nat): ObjectPrivate {
    if r in objects then objects[r] else ObjectPrivate(0, false)
  }

  function Add(objects: map<nat, ObjectPrivate>, r: nat, delta: int): map<nat, ObjectPrivate> {
    var o := Get(objects, r);
    objects[r := o.(postedEvents := o.postedEvents + delta)]
  }

  ghost predicate CountedBy(list: seq<PostEvent>, objects: map<nat, ObjectPrivate>) {
    forall r: nat :: Get(objects, r).postedEvents == CountFor(list, r)
  }

  ghost predicate DeletesFlagged(list: seq<PostEvent>, objects: map<nat, ObjectPrivate>) {
    forall k :: 0 <= k < |list| && Live(list[k]) && list[k].event.value.kind == DEFERRED_DELETE ==>
      Get(objects, list[k].receiver).deleteLaterCalled
  }

  /** Everything that holds of a queue between any two operations, whoever runs them. */
  ghost predicate Tidy(list: seq<PostEvent>, insertionOffset: nat, clock: nat, objects: map<nat, ObjectPrivate>) {
    && CountedBy(list, objects)
    && SortedFrom(list, insertionOffset)
    && StampedBefore(list, clock)
    && NoClash(list)
    && DeletesFlagged(list, objects)
  }

  lemma AddCounted(list: seq<PostEvent>, insertionOffset: nat, objects: map<nat, ObjectPrivate>, pe: PostEvent)
    requires CountedBy(list, objects) && Live(pe)
    ensures CountedBy(AddEvent(list, insertionOffset, pe), Add(objects, pe.receiver, 1))
  {
    hide CountFor, AddEvent;
    forall r: nat
      ensures Get(Add(objects, pe.receiver, 1), r).postedEvents == CountFor(AddEvent(list, insertionOffset, pe), r)
    {
      AddEventCounts(list, insertionOffset, pe, r);
      assert Get(objects, r).postedEvents == CountFor(list, r);
    }
  }

  lemma AddFlagged(list: seq<PostEvent>, insertionOffset: nat, objects: map<nat, ObjectPrivate>, pe: PostEvent)
    requires DeletesFlagged(list, objects) && Live(pe)
    requires pe.event.value.kind == DEFERRED_DELETE ==> Get(objects, pe.receiver).deleteLaterCalled
    ensures DeletesFlagged(AddEvent(list, insertionOffset, pe), Add(objects, pe.receiver, 1))
  {
  }

  lemma AddTidy(list: seq<PostEvent>, insertionOffset: nat, clock: nat, objects: map<nat, ObjectPrivate>, pe: PostEvent)
    requires Tidy(list, insertionOffset, clock, objects)
    requires Live(pe) && pe.stamp == clock
    requires forall k :: 0 <= k < |list| ==> !Clash(list[k], pe)
    requires pe.event.value.kind == DEFERRED_DELETE ==> Get(objects, pe.receiver).deleteLaterCalled
    ensures Tidy(AddEvent(list, insertionOffset, pe), insertionOffset, clock + 1, Add(objects, pe.receiver, 1))
    ensures LiveEvents(AddEvent(list, insertionOffset, pe)) == LiveEvents(list) + multiset{pe.event.value}
  {
    hide AddEvent, Add, LiveEvents, CountedBy, DeletesFlagged, SortedFrom, StampedBefore, NoClash;
    AddEventKeepsOrder(list, insertionOffset, pe);
    AddEventNoClash(list, insertionOffset, pe);
    AddEventCounts(list, insertionOffset, pe, 0);
    AddCounted(list, insertionOffset, objects, pe);
    AddFlagged(list, insertionOffset, objects, pe);
  }

  lemma NullCounted(list: seq<PostEvent>, objects: map<nat, ObjectPrivate>, i: nat)
    requires CountedBy(list, objects)
    requires i < |list| && Live(list[i])
    ensures Get(objects, list[i].receiver).postedEvents > 0
    ensures CountedBy(list[i := Nulled(list[i])], Add(objects, list[i].receiver, -1))
  {
    CountNull(list, i, list[i].receiver);
    assert Get(objects, list[i].receiver).postedEvents == CountFor(list, list[i].receiver);
    forall r: nat
      ensures Get(Add(objects, list[i].receiver, -1), r).postedEvents == CountFor(list[i := Nulled(list[i])], r)
    {
      CountNull(list, i, r);
      assert Get(objects, r).postedEvents == CountFor(list, r);
    }
  }

  lemma NullShape(list: seq<PostEvent>, insertionOffset: nat, clock: nat, objects: map<nat, ObjectPrivate>, i: nat)
    requires SortedFrom(list, insertionOffset) && StampedBefore(list, clock) && NoClash(list) && DeletesFlagged(list, objects)
    requires i < |list|
    ensures SortedFrom(list[i := Nulled(list[i])], insertionOffset) && StampedBefore(list[i := Nulled(list[i])], clock)
    ensures NoClash(list[i := Nulled(list[i])])
    ensures DeletesFlagged(list[i := Nulled(list[i])], Add(objects, list[i].receiver, -1))
  {
    var after := list[i := Nulled(list[i])];
    forall p, q | 0 <= p < q < |after|
      ensures !Clash(after[p], after[q])
    {
      assert !Clash(list[p], list[q]);
    }
  }

  lemma NullTidy(list: seq<PostEvent>, insertionOffset: nat, clock: nat, objects: map<nat, ObjectPrivate>, i: nat)
    requires Tidy(list, insertionOffset, clock, objects)
    requires i < |list| && Live(list[i])
    ensures Get(objects, list[i].receiver).postedEvents > 0
    ensures Tidy(list[i := Nulled(list[i])], insertionOffset, clock, Add(objects, list[i].receiver, -1))
    ensures LiveEvents(list) == LiveEvents(list[i := Nulled(list[i])]) + multiset{list[i].event.value}
  {
    NullCounted(list, objects, i);
    NullShape(list, insertionOffset, clock, objects, i);
    CountNull(list, i, 0);
  }

  /** Erasing a prefix without live entries moves the insertion point along with the list. */
  lemma EraseTidy(list: seq<PostEvent>, insertionOffset: nat, clock: nat, objects: map<nat, ObjectPrivate>, n: nat)
    requires Tidy(list, insertionOffset, clock, objects)
    requires n <= |list| && n <= insertionOffset
    requires forall k :: 0 <= k < n ==> !Live(list[k])
    ensures Tidy(list[n..], insertionOffset - n, clock, objects)
    ensures LiveEvents(list[n..]) == LiveEvents(list)
  {
    CountErase(list, n, 0);
    forall r: nat
      ensures Get(objects, r).postedEvents == CountFor(list[n..], r)
    {
      CountErase(list, n, r);
      assert Get(objects, r).postedEvents == CountFor(list, r);
    }
    forall p, q | 0 <= p < q < |list[n..]|
      ensures !Clash(list[n..][p], list[n..][q])
      ensures p >= insertionOffset - n ==> Precedes(list[n..][p], list[n..][q])
    {
      assert !Clash(list[n + p], list[n + q]);
    }
  }
}

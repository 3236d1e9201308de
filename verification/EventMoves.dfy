/** `setThreadDataHelper` (src/kernel/Object.cpp) on the two queues: the order in which an object's
    events arrive, and the scan that takes them there. */
module EventMoves {
  import opened Wrappers
  import opened PostEventLists
  import opened ThreadAffinity

  /** The live entries for `o` of one priority, in queue order. */
  function Waiting(list: seq<PostEvent>, o: nat, priority: int): seq<PostEvent> {
    if list == [] then []
    else
      var last := list[|list| - 1];
      Waiting(list[..|list| - 1], o, priority) + (if Live(last) && last.receiver == o && last.priority == priority then [last] else [])
  }

  lemma {:induction false} WaitingConcat(a: seq<PostEvent>, b: seq<PostEvent>, o: nat, priority: int)
    ensures Waiting(a + b, o, priority) == Waiting(a, o, priority) + Waiting(b, o, priority)
  {
    if b == [] {
      assert a + b == a;
    } else {
      assert (a + b)[..|a + b| - 1] == a + b[..|b| - 1];
      WaitingConcat(a, b[..|b| - 1], o, priority);
    }
  }

  lemma {:induction false} WaitingNone(list: seq<PostEvent>, o: nat, priority: int)
    requires forall k :: 0 <= k < |list| ==> list[k].priority != priority
    ensures Waiting(list, o, priority) == []
  {
    if list != [] {
      WaitingNone(list[..|list| - 1], o, priority);
    }
  }

  /** What `addEvent` relies on: descending priorities behind `insertionOffset`. */
  ghost predicate Descending(list: seq<PostEvent>, from: nat) {
    forall i, j :: from <= i < j < |list| ==> list[i].priority >= list[j].priority
  }

  lemma AddDescends(list: seq<PostEvent>, insertionOffset: nat, pe: PostEvent)
    requires Descending(list, insertionOffset)
    ensures Descending(AddEvent(list, insertionOffset, pe), insertionOffset)
  {
  }

  lemma WaitingInserted(front: seq<PostEvent>, pe: PostEvent, back: seq<PostEvent>, o: nat, priority: int)
    requires priority == pe.priority ==> Waiting(back, o, priority) == []
    ensures Waiting(front + [pe] + back, o, priority) == Waiting(front + back, o, priority) + Waiting([pe], o, priority)
  {
    WaitingConcat(front + [pe], back, o, priority);
    WaitingConcat(front, [pe], o, priority);
    WaitingConcat(front, back, o, priority);
    if priority != pe.priority {
      WaitingNone([pe], o, priority);
    }
  }

  /** Behind the place `addEvent` chooses there is nothing of the same priority. */
  lemma NoneBehind(list: seq<PostEvent>, insertionOffset: nat, o: nat, priority: int)
    requires Descending(list, insertionOffset)
    ensures Waiting(list[AddPosition(list, insertionOffset, priority)..], o, priority) == []
  {
    var k := AddPosition(list, insertionOffset, priority);
    var back := list[k..];
    forall j | 0 <= j < |back|
      ensures back[j].priority != priority
    {
      assert back[j] == list[k + j];
    }
    WaitingNone(back, o, priority);
  }

  lemma AddWaits(list: seq<PostEvent>, insertionOffset: nat, pe: PostEvent, o: nat, priority: int)
    requires Descending(list, insertionOffset)
    ensures Waiting(AddEvent(list, insertionOffset, pe), o, priority) == Waiting(list, o, priority) + Waiting([pe], o, priority)
  {
    var k := AddPosition(list, insertionOffset, pe.priority);
    NoneBehind(list, insertionOffset, o, pe.priority);
    WaitingInserted(list[..k], pe, list[k..], o, priority);
    assert list == list[..k] + list[k..];
  }

  lemma AddAllSnoc(list: seq<PostEvent>, insertionOffset: nat, init: seq<PostEvent>, last: PostEvent)
    ensures AddAll(list, insertionOffset, init + [last]) == AddEvent(AddAll(list, insertionOffset, init), insertionOffset, last)
  {
    assert (init + [last])[..|init|] == init;
  }

  lemma {:induction false} AddAllDescends(list: seq<PostEvent>, insertionOffset: nat, entries: seq<PostEvent>)
    requires Descending(list, insertionOffset)
    ensures Descending(AddAll(list, insertionOffset, entries), insertionOffset)
  {
    if entries != [] {
      var init, last := entries[..|entries| - 1], entries[|entries| - 1];
      AddAllDescends(list, insertionOffset, init);
      AddDescends(AddAll(list, insertionOffset, init), insertionOffset, last);
    }
  }

  lemma {:induction false} AddAllWaits(list: seq<PostEvent>, insertionOffset: nat, entries: seq<PostEvent>, o: nat, priority: int)
    requires Descending(list, insertionOffset)
    ensures Waiting(AddAll(list, insertionOffset, entries), o, priority) == Waiting(list, o, priority) + Waiting(entries, o, priority)
  {
    if entries != [] {
      var init, last := entries[..|entries| - 1], entries[|entries| - 1];
      assert entries == init + [last];
      AddAllWaits(list, insertionOffset, init, o, priority);
      AddAllDescends(list, insertionOffset, init);
      AddWaits(AddAll(list, insertionOffset, init), insertionOffset, last, o, priority);
      AddAllSnoc(list, insertionOffset, init, last);
      WaitingConcat(init, [last], o, priority);
    }
  }

  lemma OneWaits(entry: PostEvent, o: nat, priority: int)
    ensures Waiting([entry], o, priority)
         == if Live(entry) && entry.receiver == o && entry.priority == priority then [entry] else []
  {
    assert [entry][..0] == [];
  }

  lemma {:induction false} MatchingWaits(list: seq<PostEvent>, o: nat, r: nat, priority: int)
    ensures Waiting(Matching(list, Some(o), NO_TYPE), r, priority) == if r == o then Waiting(list, r, priority) else []
  {
    if list != [] {
      hide Waiting, Matching;
      var init, last := list[..|list| - 1], list[|list| - 1];
      MatchingWaits(init, o, r, priority);
      WaitingConcat(Matching(init, Some(o), NO_TYPE), [last], r, priority);
      assert list == init + [last];
      WaitingConcat(init, [last], r, priority);
      RemovalSnoc(init, last, Some(o), NO_TYPE);
      OneWaits(last, r, priority);
    }
  }

  lemma {:induction false} NulledWaits(list: seq<PostEvent>, o: nat, r: nat, priority: int)
    ensures Waiting(NullMatching(list, Some(o), NO_TYPE), r, priority) == if r == o then [] else Waiting(list, r, priority)
  {
    if list == [] {
      assert NullMatching(list, Some(o), NO_TYPE) == [];
    } else {
      var init, last := list[..|list| - 1], list[|list| - 1];
      NulledWaits(init, o, r, priority);
      assert NullMatching(list, Some(o), NO_TYPE)[..|init|] == NullMatching(init, Some(o), NO_TYPE);
    }
  }

  /** A move keeps the order of an object's events within each priority, behind those already
      there, and leaves the events of every other object where they were. */
  lemma ShiftKeepsOrder(w: World, o: nat, src: nat, dst: nat, r: nat, priority: int)
    requires src < |w.datas| && dst < |w.datas| && src != dst
    requires Descending(w.datas[dst].list, w.datas[dst].insertionOffset)
    ensures var v := Shift(w, o, src, dst);
      && Descending(v.datas[dst].list, v.datas[dst].insertionOffset)
      && Waiting(v.datas[dst].list, r, priority)
         == Waiting(w.datas[dst].list, r, priority) + (if r == o then Waiting(w.datas[src].list, r, priority) else [])
      && Waiting(v.datas[src].list, r, priority) == (if r == o then [] else Waiting(w.datas[src].list, r, priority))
  {
    MatchingWaits(w.datas[src].list, o, r, priority);
    NulledWaits(w.datas[src].list, o, r, priority);
    AddAllWaits(w.datas[dst].list, w.datas[dst].insertionOffset, Matching(w.datas[src].list, Some(o), NO_TYPE), r, priority);
    AddAllDescends(w.datas[dst].list, w.datas[dst].insertionOffset, Matching(w.datas[src].list, Some(o), NO_TYPE));
  }

  /** The vectors the scan works on. */
  class PostEventList {
    var list: seq<PostEvent>
    var insertionOffset: nat

    method AddOne(pe: PostEvent)
      modifies this`list
      ensures list == AddEvent(old(list), insertionOffset, pe)
    {
      var k := AddPosition(list, insertionOffset, pe.priority);
      list := list[..k] + [pe] + list[k..];
    }
  }

  /** `setThreadDataHelper` for one object: every live entry of `receiver` is added to the
      target list and nulled where it was, in one pass over the current list. */
  method MoveEvents(current: PostEventList, target: PostEventList, receiver: nat) returns (eventsMoved: nat)
    requires current != target
    modifies current`list, target`list
    ensures current.list == NullMatching(old(current.list), Some(receiver), NO_TYPE)
    ensures target.list == AddAll(old(target.list), target.insertionOffset, Matching(old(current.list), Some(receiver), NO_TYPE))
    ensures eventsMoved == |Matching(old(current.list), Some(receiver), NO_TYPE)|
  {
    ghost var before, start, offset := current.list, target.list, target.insertionOffset;
    eventsMoved := 0;
    var i := 0;
    while i < |current.list|
      invariant i <= |current.list| == |before| && target.insertionOffset == offset
      invariant Scanned(before, start, offset, receiver, i, current.list, target.list, eventsMoved)
    {
      var pe := current.list[i];
      ScanStep(before, start, offset, receiver, i, current.list, target.list, eventsMoved);
      if pe.event.Some? && pe.receiver == receiver {
        target.AddOne(pe);
        current.list := current.list[i := pe.(event := None)];
        eventsMoved := eventsMoved + 1;
      }
      i := i + 1;
    }
    assert before[..i] == before;
  }

  /** The first `i` entries have been looked at. */
  ghost predicate Scanned(before: seq<PostEvent>, start: seq<PostEvent>, offset: nat, receiver: nat,
                          i: nat, list: seq<PostEvent>, target: seq<PostEvent>, moved: nat) {
    && i <= |before|
    && list == NullMatching(before[..i], Some(receiver), NO_TYPE) + before[i..]
    && target == AddAll(start, offset, Matching(before[..i], Some(receiver), NO_TYPE))
    && moved == |Matching(before[..i], Some(receiver), NO_TYPE)|
  }

  lemma ScanStep(before: seq<PostEvent>, start: seq<PostEvent>, offset: nat, receiver: nat,
                 i: nat, list: seq<PostEvent>, target: seq<PostEvent>, moved: nat)
    requires Scanned(before, start, offset, receiver, i, list, target, moved) && i < |before|
    ensures |list| == |before| && list[i] == before[i]
    ensures Matches(before[i], Some(receiver), NO_TYPE) ==>
      Scanned(before, start, offset, receiver, i + 1, list[i := Nulled(before[i])], AddEvent(target, offset, before[i]), moved + 1)
    ensures !Matches(before[i], Some(receiver), NO_TYPE) ==>
      Scanned(before, start, offset, receiver, i + 1, list, target, moved)
  {
    assert before[..i + 1] == before[..i] + [before[i]];
    RemovalSnoc(before[..i], before[i], Some(receiver), NO_TYPE);
    AddAllSnoc(start, offset, Matching(before[..i], Some(receiver), NO_TYPE), before[i]);
    ReplaceAt(NullMatching(before[..i], Some(receiver), NO_TYPE), before, i, Nulled(before[i]));
  }

  lemma ReplaceAt(front: seq<PostEvent>, list: seq<PostEvent>, i: nat, pe: PostEvent)
    requires |front| == i < |list|
    ensures (front + list[i..])[i := pe] == (front + [pe]) + list[i + 1..]
    ensures front + list[i..] == (front + [list[i]]) + list[i + 1..]
    ensures (front + list[i..])[i] == list[i]
  {
  }
}

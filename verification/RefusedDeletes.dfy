/** A pass of `sendPostedEvents` (src/kernel/CoreApplication.cpp) for one type can leave an event that
    it should deliver: a pass over everything, made by one of its handlers further in, refuses a
    deferred delete, puts it back behind, and resets the offsets the outer pass goes by. */
module RefusedDeletes {
  import opened Wrappers
  import opened PostEventLists
  import opened PostedEvents

  const OUTER := PostEvent(1, Some(Event(0, DEFERRED_DELETE, 2)), 0, 0)
  const INNER := PostEvent(2, Some(Event(1, DEFERRED_DELETE, 1)), 0, 1)
  const FLAGGED := ObjectPrivate(1, true)

  /** Loop level 1; a deferred delete posted at level 2, and one posted at level 1. */
  function Before(): State {
    State([OUTER, INNER], 0, 0, 0, 1, 0, [9], map[1 := FLAGGED, 2 := FLAGGED], [Send(None, NO_TYPE), Return], 2,
          History(multiset{OUTER.event.value, INNER.event.value}, [], multiset{}, map[], map[0 := OUTER, 1 := INNER]))
  }

  lemma BeforeCounts(r: nat)
    ensures CountFor(Before().list, r) == (if r == 1 || r == 2 then 1 else 0)
    ensures LiveEvents(Before().list) == multiset{OUTER.event.value, INNER.event.value}
  {
    CountSnoc([], OUTER, r);
    CountSnoc([OUTER], INNER, r);
    assert [] + [OUTER] == [OUTER] && [OUTER] + [INNER] == Before().list;
  }

  lemma BeforeValid()
    ensures Inv(Before())
  {
    var s := Before();
    BeforeCounts(0);
    forall r: nat
      ensures Get(s.objects, r).postedEvents == CountFor(s.list, r)
    {
      BeforeCounts(r);
    }
    hide CountFor, LiveEvents;
  }

  /** The pass for deferred deletes begins at level 1; the first one is delivered. */
  ghost function Delivering(): State {
    Popped(Notify(BeginStep(Before()), 0, None, DEFERRED_DELETE))
  }

  /** Its handler, at level 2, begins a pass over everything, whose first slot is clear. */
  ghost function Sending(): State {
    Advanced(BeginStep(Delivering()), 0, None, NO_TYPE)
  }

  /** The second event is refused at that level; the inner pass has then reached its end. */
  ghost function Refusing(): State {
    Advanced(RepostStep(Sending(), 1), 1, None, NO_TYPE)
  }

  /** The inner pass cleans up, the handler returns, and the outer pass is about to look at its
      second entry. */
  ghost function Returning(): State {
    Refused();
    Popped(EndStep(Refusing(), None, NO_TYPE)).(scopeLevel := 0)
  }

  ghost function After(): State {
    Refused();
    EndStep(Returning(), None, DEFERRED_DELETE)
  }

  lemma Refused()
    ensures var s := Refusing();
      && s.list == [Nulled(OUTER), Nulled(INNER), INNER.(stamp := 2)]
      && s.startOffset == s.insertionOffset == 2 && s.recursion == 2 && s.script == [Return]
      && s.loopLevel == 1 && s.scopeLevel == 1
  {
    assert Before().list[0 := Nulled(OUTER)] == [Nulled(OUTER), INNER];
    assert Sending().list == [Nulled(OUTER), INNER];
    assert Sending().list[1 := Nulled(INNER)] == [Nulled(OUTER), Nulled(INNER)];
    assert AddPosition([Nulled(OUTER), Nulled(INNER)], 2, 0) == 2;
  }

  /** Each step is what the code does there, and at the end an event that was in the queue before
      the outer pass, and that this pass should deliver, is still in the queue. */
  lemma DueLeft()
    ensures Inv(Before()) && !NoGlobals(Before().script)
    ensures Deliverable(BeginStep(Before()).list[0], None, DEFERRED_DELETE, 1)
    ensures !Live(Sending().list[0]) && Live(Sending().list[1])
    ensures !Deliverable(Sending().list[1], None, NO_TYPE, Sending().loopLevel + Sending().scopeLevel)
    ensures Refusing().startOffset >= Refusing().insertionOffset && 1 >= Returning().insertionOffset
    ensures var left := After().list;
      |left| == 1 && left[0].event.value.id < Before().clock && Deliverable(left[0], None, DEFERRED_DELETE, 1)
  {
    BeforeValid();
    Refused();
    assert Before().script[0] == Send(None, NO_TYPE);
    assert Before().list[0 := Nulled(OUTER)] == [Nulled(OUTER), INNER];
    assert Refusing().list[2..] == [INNER.(stamp := 2)];
  }
}

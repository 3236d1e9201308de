/** The replay of manual changes to the library paths (`CoreApplicationPrivate::init` in
    src/kernel/CoreApplication.cpp): what was added to and removed from the original list is
    done again to the recomputed one. */
module LibraryPaths {

  /** Removes every occurrence, as `std::list::remove` does. */
  function Minus<T(==)>(list: seq<T>, gone: set<T>): seq<T> {
    if list == [] then []
    else Minus(list[..|list| - 1], gone) + (if list[|list| - 1] in gone then [] else [list[|list| - 1]])
  }

  lemma {:induction false} MinusTwice<T>(list: seq<T>, gone: set<T>, x: T)
    ensures Minus(Minus(list, gone), {x}) == Minus(list, gone + {x})
  {
    if list != [] {
      var init, last := list[..|list| - 1], list[|list| - 1];
      MinusTwice(init, gone, x);
      if last in gone {
        assert Minus(list, gone) == Minus(init, gone);
      } else {
        var kept := Minus(init, gone) + [last];
        assert kept[..|kept| - 1] == Minus(init, gone);
      }
    }
  }

  lemma {:induction false} MinusNothing<T>(list: seq<T>, gone: set<T>)
    requires forall x :: x in list ==> x !in gone
    ensures Minus(list, gone) == list
  {
    if list != [] {
      MinusNothing(list[..|list| - 1], gone);
    }
  }

  lemma {:induction false} MinusLength<T>(list: seq<T>, gone: set<T>)
    ensures |Minus(list, gone)| <= |list|
    ensures Minus(list, gone) == list ==> forall x :: x in list ==> x !in gone
  {
    if list != [] {
      var init, last := list[..|list| - 1], list[|list| - 1];
      MinusLength(init, gone);
      if Minus(list, gone) == list {
        assert |Minus(list, gone)| == |Minus(init, gone)| + if last in gone then 0 else 1;
        assert Minus(list, gone)[..|init|] == Minus(init, gone);
      }
    }
  }

  // ----- comparing from the end ----------------------------------------------------------

  /** How many entries of the edited list have no counterpart left in the original. */
  function Unmatched<T(==)>(edited: seq<T>, original: seq<T>): (n: nat)
    ensures n <= |edited|
  {
    if original == [] then |edited|
    else if edited == [] then 0
    else if edited[|edited| - 1] == original[|original| - 1] then Unmatched(edited[..|edited| - 1], original[..|original| - 1])
    else Unmatched(edited, original[..|original| - 1])
  }

  /** The entries of the original that were taken out. */
  function Removed<T(==)>(edited: seq<T>, original: seq<T>): set<T> {
    if original == [] then {}
    else
      var init, last := original[..|original| - 1], original[|original| - 1];
      if edited == [] then Removed(edited, init) + {last}
      else if edited[|edited| - 1] == last then Removed(edited[..|edited| - 1], init)
      else Removed(edited, init) + {last}
  }

  /** The replayed list: what was added, then the recomputed list without what was removed. */
  function Replayed<T(==)>(edited: seq<T>, original: seq<T>, recomputed: seq<T>): seq<T> {
    edited[..Unmatched(edited, original)] + Minus(recomputed, Removed(edited, original))
  }

  method Replay<T(==)>(edited: seq<T>, original: seq<T>, recomputed: seq<T>) returns (newPaths: seq<T>)
    ensures newPaths == Replayed(edited, original, recomputed)
  {
    newPaths := recomputed;
    var i: int, j: int := |edited|, |original|;
    ghost var gone: set<T> := {};
    MinusNothing(recomputed, gone);
    assert edited[..i] == edited && original[..j] == original;
    assert Removed(edited, original) + {} == Removed(edited, original);
    while i > 0 || j > 0
      invariant -1 <= i <= |edited| && j <= |original|
      invariant j >= 0 ==> Ahead(edited, original, i, j, gone) && newPaths == Minus(recomputed, gone)
      invariant j < 0 ==> 0 <= i <= Unmatched(edited, original)
      invariant j < 0 ==> newPaths == edited[i..Unmatched(edited, original)] + Minus(recomputed, Removed(edited, original))
      decreases (if i > 0 then i else 0) + (if j > 0 then j else 0)
    {
      j := j - 1;
      if j < 0 {
        i := i - 1;
        assert edited[i..Unmatched(edited, original)] == [edited[i]] + edited[i + 1..Unmatched(edited, original)];
        newPaths := [edited[i]] + newPaths;
      } else {
        AheadStep(edited, original, i, j, gone);
        i := i - 1;
        MinusTwice(recomputed, gone, original[j]);
        if i < 0 {
          newPaths := Minus(newPaths, {original[j]});
          gone := gone + {original[j]};
          i := -1;
        } else if edited[i] != original[j] {
          newPaths := Minus(newPaths, {original[j]});
          gone := gone + {original[j]};
          i := i + 1;
        }
      }
    }
  }

  /** `i` and `j` entries are still to compare; `gone` is what has been taken out so far. */
  ghost predicate Ahead<T>(edited: seq<T>, original: seq<T>, i: int, j: int, gone: set<T>) {
    && i <= |edited| && 0 <= j <= |original|
    && var front := if i < 0 then [] else edited[..i];
       && Unmatched(edited, original) == Unmatched(front, original[..j])
       && Removed(edited, original) == Removed(front, original[..j]) + gone
  }

  lemma AheadStep<T>(edited: seq<T>, original: seq<T>, i: int, j: int, gone: set<T>)
    requires Ahead(edited, original, i, j + 1, gone) && 0 <= j && -1 <= i
    ensures i <= 0 ==> Ahead(edited, original, -1, j, gone + {original[j]})
    ensures i > 0 && edited[i - 1] == original[j] ==> Ahead(edited, original, i - 1, j, gone)
    ensures i > 0 && edited[i - 1] != original[j] ==> Ahead(edited, original, i, j, gone + {original[j]})
  {
    assert original[..j + 1][..j] == original[..j];
    if i > 0 {
      assert edited[..i][..i - 1] == edited[..i - 1];
    }
  }

  // ----- replaying on the original itself ------------------------------------------------

  lemma {:induction false} OnlyMatched<T>(edited: seq<T>, original: seq<T>, gone: set<T>)
    requires Removed(edited, original) <= gone
    ensures Minus(original, gone) == Minus(edited[Unmatched(edited, original)..], gone)
    decreases |original|
  {
    var u := Unmatched(edited, original);
    if original == [] {
      assert edited[u..] == [];
    } else if edited != [] && edited[|edited| - 1] == original[|original| - 1] {
      var init := edited[..|edited| - 1];
      OnlyMatched(init, original[..|original| - 1], gone);
      assert edited[u..][..|edited| - 1 - u] == init[u..];
    } else {
      OnlyMatched(edited, original[..|original| - 1], gone);
    }
  }

  /** If the recomputed list is the original, the edited list comes back, exactly when no path
      was both kept and removed. */
  lemma ReplayIff<T>(edited: seq<T>, original: seq<T>)
    ensures Replayed(edited, original, original) == edited
       <==> forall x :: x in edited[Unmatched(edited, original)..] ==> x !in Removed(edited, original)
  {
    var u, gone := Unmatched(edited, original), Removed(edited, original);
    OnlyMatched(edited, original, gone);
    MinusLength(edited[u..], gone);
    assert edited == edited[..u] + edited[u..];
    var kept := Minus(edited[u..], gone);
    if forall x :: x in edited[u..] ==> x !in gone {
      MinusNothing(edited[u..], gone);
    }
    assert (edited[..u] + kept)[u..] == kept;
  }

  predicate NoDuplicates<T(==)>(list: seq<T>) {
    forall i, j :: 0 <= i < j < |list| ==> list[i] != list[j]
  }

  lemma {:induction false} KeptNotRemoved<T>(edited: seq<T>, original: seq<T>)
    requires NoDuplicates(original)
    ensures forall x :: x in Removed(edited, original) ==> x in original && x !in edited[Unmatched(edited, original)..]
    ensures forall x :: x in edited[Unmatched(edited, original)..] ==> x in original
    decreases |original|
  {
    if original != [] {
      var init, last := original[..|original| - 1], original[|original| - 1];
      var u := Unmatched(edited, original);
      if edited != [] && edited[|edited| - 1] == last {
        KeptNotRemoved(edited[..|edited| - 1], init);
        assert edited[u..] == edited[..|edited| - 1][u..] + [last];
      } else {
        KeptNotRemoved(edited, init);
      }
    }
  }

  lemma {:induction false} KeptOrRemoved<T>(edited: seq<T>, original: seq<T>)
    ensures forall x :: x in original ==> x in Removed(edited, original) || x in edited[Unmatched(edited, original)..]
    decreases |original|
  {
    if original != [] {
      var init, last := original[..|original| - 1], original[|original| - 1];
      assert original == init + [last];
      if edited != [] && edited[|edited| - 1] == last {
        KeptOrRemoved(edited[..|edited| - 1], init);
        var u := Unmatched(edited, original);
        assert edited[u..] == edited[..|edited| - 1][u..] + [last];
      } else {
        KeptOrRemoved(edited, init);
      }
    }
  }

  /** Of a list without duplicates exactly those paths are removed that were not kept. */
  lemma RemovedIs<T>(edited: seq<T>, original: seq<T>)
    requires NoDuplicates(original)
    ensures Removed(edited, original) == set x | x in original && x !in edited[Unmatched(edited, original)..]
  {
    KeptNotRemoved(edited, original);
    KeptOrRemoved(edited, original);
  }

  lemma {:induction false} MinusIn<T>(list: seq<T>, gone: set<T>)
    ensures forall x :: x in Minus(list, gone) <==> x in list && x !in gone
  {
    if list != [] {
      var init, last := list[..|list| - 1], list[|list| - 1];
      assert list == init + [last];
      MinusIn(init, gone);
    }
  }

  function Both<T(==)>(list: seq<T>, gone: set<T>): set<T> {
    set x | x in list && x in gone
  }

  lemma EndOf<T>(a: seq<T>, b: seq<T>)
    requires a + b != []
    ensures (a + b)[|a + b| - 1] in a || (a + b)[|a + b| - 1] in b
  {
    assert b != [] ==> (a + b)[|a + b| - 1] == b[|b| - 1];
    assert b == [] ==> (a + b)[|a + b| - 1] == a[|a| - 1];
  }

  lemma {:induction false} EditsFound<T>(added: seq<T>, original: seq<T>, gone: set<T>)
    requires forall x :: x in added ==> x !in original
    ensures Unmatched(added + Minus(original, gone), original) == |added|
    ensures Removed(added + Minus(original, gone), original) == Both(original, gone)
  {
    var edited := added + Minus(original, gone);
    if original == [] {
      assert edited == added;
    } else {
      var init, last := original[..|original| - 1], original[|original| - 1];
      assert original == init + [last];
      EditsFound(added, init, gone);
      if last !in gone {
        assert edited[..|edited| - 1] == added + Minus(init, gone) && edited[|edited| - 1] == last;
        assert Both(original, gone) == Both(init, gone);
      } else {
        MinusIn(init, gone);
        assert edited == added + Minus(init, gone);
        if edited != [] {
          EndOf(added, Minus(init, gone));
          assert last in original;
        }
        assert Both(original, gone) == Both(init, gone) + {last};
      }
    }
  }

  /** Paths put in front and paths taken out of the original are put in front and taken out of the
      recomputed list. */
  lemma ReplayDoes<T>(added: seq<T>, original: seq<T>, gone: set<T>, recomputed: seq<T>)
    requires forall x :: x in added ==> x !in original
    ensures Replayed(added + Minus(original, gone), original, recomputed)
         == added + Minus(recomputed, Both(original, gone))
  {
    assert (added + Minus(original, gone))[..|added|] == added;
    EditsFound(added, original, gone);
  }

  /** So whatever was done to a list without duplicates, replaying it there changes nothing. */
  lemma ReplaySame<T>(edited: seq<T>, original: seq<T>)
    requires NoDuplicates(original)
    ensures Replayed(edited, original, original) == edited
  {
    KeptNotRemoved(edited, original);
    ReplayIff(edited, original);
  }

  /** With a duplicate, dropping one copy drops both. */
  lemma DuplicateLost(path: int)
    ensures Replayed([path], [path, path], [path, path]) == []
  {
    assert [path, path][..1] == [path] && [path][..0] == [];
    assert Removed([], [path]) == {path};
    assert Removed([path], [path, path]) == {path};
    assert [path][..0] == [] && Minus([path], {path}) == [];
    assert [path, path][..1] == [path] && Minus([path, path], {path}) == [];
  }
}

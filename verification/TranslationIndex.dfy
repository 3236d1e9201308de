/** The hash index of a translation catalogue (`doTranslate` in src/utils/Translator.cpp): the
    ELF hash of source text and comment, and the search for its entries. */
module TranslationIndex {

  import opened Wrappers

  // ----- the hash ------------------------------------------------------------------------

  function Shifted(h: bv32, c: bv8): bv32 { (h << 4) + c as bv32 }

  function TopBits(h: bv32): bv32 { h & 0xf000_0000 }

  function Mixed(h: bv32, g: bv32): bv32 { h ^ (g >> 24) }

  function Cleared(h: bv32, g: bv32): bv32 { h & !g }

  function ElfStep(h: bv32, c: bv8): bv32 {
    var x := Shifted(h, c);
    var g := TopBits(x);
    Cleared(if g != 0 then Mixed(x, g) else x, g)
  }

  /** The hash of characters, none of which is NUL. */
  function ElfHash(h: bv32, chars: seq<bv8>): bv32 {
    if chars == [] then h else ElfStep(ElfHash(h, chars[..|chars| - 1]), chars[|chars| - 1])
  }

  function Finish(h: bv32): bv32 {
    if h == 0 then 1 else h
  }

  lemma StepSmall(h: bv32, c: bv8)
    ensures ElfStep(h, c) < 0x1000_0000
  {
  }

  lemma HashSmall(h: bv32, chars: seq<bv8>)
    requires h < 0x1000_0000
    ensures ElfHash(h, chars) < 0x1000_0000
    ensures 0 < Finish(ElfHash(h, chars)) < 0x1000_0000
  {
    if chars != [] {
      StepSmall(ElfHash(h, chars[..|chars| - 1]), chars[|chars| - 1]);
    }
  }

  /** Going on with a second string gives the hash of the two joined. */
  lemma {:induction false} HashChains(h: bv32, a: seq<bv8>, b: seq<bv8>)
    ensures ElfHash(ElfHash(h, a), b) == ElfHash(h, a + b)
  {
    if b == [] {
      assert a + b == a;
    } else {
      HashChains(h, a, b[..|b| - 1]);
      assert (a + b)[..|a + b| - 1] == a + b[..|b| - 1];
    }
  }

  /** What a C string holds: everything before its NUL. */
  function Chars(name: seq<bv8>): (chars: seq<bv8>)
    ensures chars <= name && forall k :: 0 <= k < |chars| ==> chars[k] != 0
    ensures |chars| < |name| ==> name[|chars|] == 0
  {
    if name == [] || name[0] == 0 then [] else [name[0]] + Chars(name[1..])
  }

  /** The body of the loop of `elf_hash_continue`. */
  method ElfHashStep(h: bv32, c: bv8) returns (after: bv32)
    ensures after == ElfStep(h, c)
  {
    after := Shifted(h, c);
    var g := TopBits(after);
    if g != 0 {
      after := Mixed(after, g);
    }
    after := Cleared(after, g);
  }

  /** `elf_hash_continue`; `name` is memory that holds a NUL. */
  method ElfHashContinue(name: seq<bv8>, h: bv32) returns (after: bv32)
    requires 0 in name
    ensures after == ElfHash(h, Chars(name))
  {
    after := h;
    var k := 0;
    CharsEnd(name);
    while name[k] != 0
      decreases |Chars(name)| - k
      invariant k <= |Chars(name)| && after == ElfHash(h, Chars(name)[..k])
    {
      HashSnoc(h, Chars(name), k);
      after := ElfHashStep(after, name[k]);
      k := k + 1;
    }
    assert Chars(name)[..k] == Chars(name);
  }

  lemma HashSnoc(h: bv32, chars: seq<bv8>, k: nat)
    requires k < |chars|
    ensures ElfHash(h, chars[..k + 1]) == ElfStep(ElfHash(h, chars[..k]), chars[k])
  {
    assert chars[..k + 1][..k] == chars[..k];
  }

  /** The two calls and the finish of `doTranslate` give the hash of source and comment joined. */
  method ElfHashOf(source: seq<bv8>, comment: seq<bv8>) returns (h: bv32)
    requires 0 in source && 0 in comment
    ensures h == Finish(ElfHash(0, Chars(source) + Chars(comment)))
    ensures 0 < h < 0x1000_0000
  {
    HashChains(0, Chars(source), Chars(comment));
    HashSmall(0, Chars(source) + Chars(comment));
    h := ElfHashContinue(source, 0);
    h := ElfHashContinue(comment, h);
    if h == 0 {
      h := 1;
    }
  }

  lemma {:induction false} CharsEnd(name: seq<bv8>)
    requires 0 in name
    ensures |Chars(name)| < |name| && name[|Chars(name)|] == 0
  {
    if name[0] != 0 {
      assert 0 in name[1..];
      CharsEnd(name[1..]);
    }
  }

  lemma {:induction false} HashEach(s: seq<bv8>, hashes: seq<bv32>, k: nat)
    requires k <= |s| && |hashes| == |s| + 1 && hashes[0] == 0
    requires forall j :: 0 <= j < |s| ==> hashes[j + 1] == ElfStep(hashes[j], s[j])
    ensures ElfHash(0, s[..k]) == hashes[k]
  {
    if k > 0 {
      HashEach(s, hashes, k - 1);
      HashSnoc(0, s, k - 1);
    }
  }

  /** The hash of the ELF object format: known values for `exit` and `syscall`. */
  lemma KnownHashes()
    ensures ElfHash(0, [0x65, 0x78, 0x69, 0x74]) == 0x0006_cf04
    ensures ElfHash(0, [0x73, 0x79, 0x73, 0x63, 0x61, 0x6c, 0x6c]) == 0x0b09_985c
  {
    var exit, syscall: seq<bv8> := [0x65, 0x78, 0x69, 0x74], [0x73, 0x79, 0x73, 0x63, 0x61, 0x6c, 0x6c];
    HashEach(exit, [0, 0x65, 0x6c8, 0x6ce9, 0x6cf04], 4);
    HashEach(syscall, [0, 0x73, 0x7a9, 0x7b03, 0x7b093, 0x7b0991, 0x7b0997c, 0xb09985c], 7);
    assert exit[..4] == exit && syscall[..7] == syscall;
  }

  // ----- the index -----------------------------------------------------------------------

  /** Four bytes, most significant first. */
  function Read32(bytes: seq<bv8>, at: nat): nat
    requires at + 4 <= |bytes|
  {
    bytes[at] as nat * 0x100_0000 + bytes[at + 1] as nat * 0x1_0000 + bytes[at + 2] as nat * 0x100 + bytes[at + 3] as nat
  }

  predicate WholeEntries(bytes: seq<bv8>) {
    |bytes| % 8 == 0
  }

  /** Hash and message offset of entry `k`. */
  function Hash(bytes: seq<bv8>, k: nat): nat
    requires 8 * k + 8 <= |bytes|
  {
    Read32(bytes, 8 * k)
  }

  function Offset(bytes: seq<bv8>, k: nat): nat
    requires 8 * k + 8 <= |bytes|
  {
    Read32(bytes, 8 * k + 4)
  }

  ghost predicate SortedByHash(bytes: seq<bv8>) {
    forall j: nat, k: nat :: j <= k && 8 * k + 8 <= |bytes| ==> Hash(bytes, j) <= Hash(bytes, k)
  }

  /** The offsets of all entries with hash `h` from entry `k` on, in order. */
  function Bucket(bytes: seq<bv8>, h: nat, k: nat): seq<nat>
    decreases |bytes| - 8 * k
  {
    if 8 * k + 8 > |bytes| then []
    else (if Hash(bytes, k) == h then [Offset(bytes, k)] else []) + Bucket(bytes, h, k + 1)
  }

  /** The first message a list of offsets leads to. */
  function FirstMessage<M>(offsets: seq<nat>, get: (nat, seq<bv8>) -> Option<M>, comment: seq<bv8>): Option<M> {
    if offsets == [] then None
    else if get(offsets[0], comment).Some? then get(offsets[0], comment)
    else FirstMessage(offsets[1..], get, comment)
  }

  /** Entries that are all different from `h` add nothing. */
  lemma {:induction false} BucketSkips(bytes: seq<bv8>, h: nat, k: nat, j: nat)
    requires k <= j && 8 * j <= |bytes|
    requires forall i: nat :: k <= i < j ==> Hash(bytes, i) != h
    ensures Bucket(bytes, h, k) == Bucket(bytes, h, j)
    decreases j - k
  {
    if k < j {
      BucketSkips(bytes, h, k + 1, j);
    }
  }

  lemma BucketEnds(bytes: seq<bv8>, h: nat, k: nat)
    requires 8 * k <= |bytes| && forall i: nat :: k <= i && 8 * i + 8 <= |bytes| ==> Hash(bytes, i) != h
    ensures Bucket(bytes, h, k) == []
  {
    var n := |bytes| / 8;
    BucketSkips(bytes, h, k, n);
  }

  /** The pointer search: an entry with hash `h`, or `start` behind `end`. */
  method BinarySearch(bytes: seq<bv8>, h: nat) returns (start: int, end: int)
    requires WholeEntries(bytes) && bytes != [] && SortedByHash(bytes)
    ensures start <= end ==> 0 <= start && start % 8 == 0 && start + 8 <= |bytes| && Hash(bytes, start / 8) == h
    ensures start > end ==> Bucket(bytes, h, 0) == []
  {
    hide Read32;
    var numItems := |bytes| / 8;
    start := 0;
    end := start + (numItems - 1) * 8;
    while start <= end
      invariant 0 <= start <= |bytes| && -8 <= end <= |bytes| - 8 && start % 8 == 0 && end % 8 == 0
      invariant forall k: nat :: 8 * k + 8 <= |bytes| && 8 * k < start ==> Hash(bytes, k) < h
      invariant forall k: nat :: 8 * k + 8 <= |bytes| && 8 * k > end ==> Hash(bytes, k) > h
      decreases end - start + 8
    {
      var middle := start + (end - start) / 16 * 8;
      MiddleInside(start, end, middle);
      var hash := Read32(bytes, middle);
      assert hash == Hash(bytes, middle / 8);
      if h == hash {
        start := middle;
        return;
      } else if hash < h {
        start := middle + 8;
      } else {
        end := middle - 8;
      }
    }
    assert forall k: nat :: 8 * k + 8 <= |bytes| ==> Hash(bytes, k) != h;
    BucketEnds(bytes, h, 0);
  }

  lemma MiddleInside(start: int, end: int, middle: int)
    requires start <= end && start % 8 == 0 && end % 8 == 0 && middle == start + (end - start) / 16 * 8
    ensures start <= middle <= end && middle % 8 == 0 && 8 * (middle / 8) == middle
  {
  }

  /** The search with its back-up and forward scan.  `visited` are the offsets it looks at: those
      with the hash `h`, all of them unless a message is found, in the order of the index. */
  method Lookup<M>(bytes: seq<bv8>, h: nat, get: (nat, seq<bv8>) -> Option<M>, comment: seq<bv8>)
    returns (r: Option<M>, ghost visited: seq<nat>)
    requires WholeEntries(bytes) && bytes != [] && SortedByHash(bytes)
    ensures r == FirstMessage(Bucket(bytes, h, 0), get, comment)
    ensures visited <= Bucket(bytes, h, 0) && (r == None ==> visited == Bucket(bytes, h, 0))
  {
    var start, end := BinarySearch(bytes, h);
    visited := [];
    r := None;
    if start <= end {
      var first := BackUp(bytes, h, start);
      r, visited := Scan(bytes, h, get, comment, first);
    }
  }

  /** Go back on equal key. */
  method BackUp(bytes: seq<bv8>, h: nat, found: nat) returns (start: nat)
    requires WholeEntries(bytes) && SortedByHash(bytes)
    requires found % 8 == 0 && found + 8 <= |bytes| && Hash(bytes, found / 8) == h
    ensures start % 8 == 0 && start + 8 <= |bytes| && Hash(bytes, start / 8) == h
    ensures Bucket(bytes, h, 0) == Bucket(bytes, h, start / 8)
  {
    start := found;
    while start != 0 && Read32(bytes, start) == Read32(bytes, start - 8)
      invariant start % 8 == 0 && start <= found && Hash(bytes, start / 8) == h
    {
      assert Read32(bytes, start - 8) == Hash(bytes, start / 8 - 1);
      start := start - 8;
    }
    ghost var k := start / 8;
    if k > 0 {
      assert Read32(bytes, start - 8) == Hash(bytes, k - 1) < h;
    }
    BucketSkips(bytes, h, 0, k);
  }

  lemma {:induction false} NothingThere<M>(visited: seq<nat>, rest: seq<nat>, get: (nat, seq<bv8>) -> Option<M>, comment: seq<bv8>)
    requires forall k :: 0 <= k < |visited| ==> get(visited[k], comment) == None
    ensures FirstMessage(visited + rest, get, comment) == FirstMessage(rest, get, comment)
  {
    if visited == [] {
      assert visited + rest == rest;
    } else {
      assert (visited + rest)[0] == visited[0] && (visited + rest)[1..] == visited[1..] + rest;
      NothingThere(visited[1..], rest, get, comment);
    }
  }

  method Scan<M>(bytes: seq<bv8>, h: nat, get: (nat, seq<bv8>) -> Option<M>, comment: seq<bv8>, from: nat)
    returns (r: Option<M>, ghost visited: seq<nat>)
    requires WholeEntries(bytes) && SortedByHash(bytes) && from % 8 == 0 && from + 8 <= |bytes| && Hash(bytes, from / 8) == h
    ensures r == FirstMessage(Bucket(bytes, h, from / 8), get, comment)
    ensures visited <= Bucket(bytes, h, from / 8) && (r == None ==> visited == Bucket(bytes, h, from / 8))
  {
    hide Read32;
    visited := [];
    var start := from;
    while start < |bytes|
      invariant start % 8 == 0 && from <= start <= |bytes|
      invariant Bucket(bytes, h, from / 8) == visited + Bucket(bytes, h, start / 8)
      invariant forall k :: 0 <= k < |visited| ==> get(visited[k], comment) == None
    {
      ghost var k := start / 8;
      var rh := Read32(bytes, start);
      assert rh == Hash(bytes, k);
      if rh != h {
        assert Hash(bytes, from / 8) <= Hash(bytes, k);
        break;
      }
      start := start + 4;
      var ro := Read32(bytes, start);
      start := start + 4;
      assert Bucket(bytes, h, k) == [ro] + Bucket(bytes, h, k + 1);
      var tn := get(ro, comment);
      if tn.Some? {
        NothingThere(visited, [ro] + Bucket(bytes, h, k + 1), get, comment);
        visited := visited + [ro];
        r := tn;
        return;
      }
      Reassociate(visited, ro, Bucket(bytes, h, k + 1));
      visited := visited + [ro];
    }
    r := None;
    BucketEnds(bytes, h, start / 8);
    NothingThere(visited, [], get, comment);
    assert visited + [] == visited;
  }

  lemma Reassociate(a: seq<nat>, x: nat, b: seq<nat>)
    ensures a + ([x] + b) == (a + [x]) + b
  {
  }

  /** What a linear scan for the joined text finds. */
  function HashOf(chars: seq<bv8>): nat {
    Finish(ElfHash(0, chars)) as nat
  }

  function Found<M>(bytes: seq<bv8>, get: (nat, seq<bv8>) -> Option<M>, source: seq<bv8>, comment: seq<bv8>): Option<M> {
    FirstMessage(Bucket(bytes, HashOf(source + comment), 0), get, comment)
  }

  /** What a catalogue answers: the message for source and comment, else the one without. */
  function Answer<M>(bytes: seq<bv8>, get: (nat, seq<bv8>) -> Option<M>, source: seq<bv8>, comment: seq<bv8>): Option<M> {
    if Found(bytes, get, source, comment).Some? then Found(bytes, get, source, comment) else Found(bytes, get, source, [])
  }

  /** Entry `k` has the hash `h`, and a message for the comment. */
  predicate Hits<M>(bytes: seq<bv8>, h: nat, get: (nat, seq<bv8>) -> Option<M>, comment: seq<bv8>, k: nat) {
    8 * k + 8 <= |bytes| && Hash(bytes, k) == h && get(Offset(bytes, k), comment).Some?
  }

  ghost predicate FirstHit<M>(bytes: seq<bv8>, h: nat, get: (nat, seq<bv8>) -> Option<M>, comment: seq<bv8>, k: nat) {
    Hits(bytes, h, get, comment, k) && forall j: nat :: j < k ==> !Hits(bytes, h, get, comment, j)
  }

  ghost predicate NoHit<M>(bytes: seq<bv8>, h: nat, get: (nat, seq<bv8>) -> Option<M>, comment: seq<bv8>) {
    forall j: nat :: !Hits(bytes, h, get, comment, j)
  }

  lemma BucketStep<M>(bytes: seq<bv8>, h: nat, get: (nat, seq<bv8>) -> Option<M>, comment: seq<bv8>, i: nat)
    requires 8 * i + 8 <= |bytes|
    ensures FirstMessage(Bucket(bytes, h, i), get, comment)
         == if Hits(bytes, h, get, comment, i) then get(Offset(bytes, i), comment) else FirstMessage(Bucket(bytes, h, i + 1), get, comment)
  {
    var rest := Bucket(bytes, h, i + 1);
    assert ([Offset(bytes, i)] + rest)[1..] == rest && [] + rest == rest;
  }

  /** The first message of a bucket is that of the first entry that hits. */
  lemma {:induction false} BucketHit<M>(bytes: seq<bv8>, h: nat, get: (nat, seq<bv8>) -> Option<M>, comment: seq<bv8>, i: nat, k: nat)
    requires i <= k && Hits(bytes, h, get, comment, k)
    requires forall j: nat :: i <= j < k ==> !Hits(bytes, h, get, comment, j)
    ensures FirstMessage(Bucket(bytes, h, i), get, comment) == get(Offset(bytes, k), comment)
    decreases k - i
  {
    hide Bucket, FirstMessage, Hash, Offset;
    BucketStep(bytes, h, get, comment, i);
    if i < k {
      BucketHit(bytes, h, get, comment, i + 1, k);
    }
  }

  lemma {:induction false} BucketMisses<M>(bytes: seq<bv8>, h: nat, get: (nat, seq<bv8>) -> Option<M>, comment: seq<bv8>, i: nat)
    requires forall j: nat :: i <= j ==> !Hits(bytes, h, get, comment, j)
    ensures FirstMessage(Bucket(bytes, h, i), get, comment) == None
    decreases |bytes| - 8 * i
  {
    if 8 * i + 8 <= |bytes| {
      BucketStep(bytes, h, get, comment, i);
      BucketMisses(bytes, h, get, comment, i + 1);
    }
  }

  lemma FoundMeans<M>(bytes: seq<bv8>, get: (nat, seq<bv8>) -> Option<M>, source: seq<bv8>, comment: seq<bv8>, k: nat)
    ensures var h := HashOf(source + comment);
      && (FirstHit(bytes, h, get, comment, k) ==> Found(bytes, get, source, comment) == get(Offset(bytes, k), comment))
      && (NoHit(bytes, h, get, comment) ==> Found(bytes, get, source, comment) == None)
  {
    hide HashOf, Bucket, FirstMessage, Offset, Hash;
    var h := HashOf(source + comment);
    if FirstHit(bytes, h, get, comment, k) {
      BucketHit(bytes, h, get, comment, 0, k);
    }
    if NoHit(bytes, h, get, comment) {
      BucketMisses(bytes, h, get, comment, 0);
    }
  }

  /** What is answered: the message of the first entry for source and comment joined that has one for
      the comment; if there is none, that of the first entry for the source alone that has one
      without a comment; if there is none either, nothing. */
  lemma AnswerMeans<M>(bytes: seq<bv8>, get: (nat, seq<bv8>) -> Option<M>, source: seq<bv8>, comment: seq<bv8>, k: nat)
    ensures var h, alone := HashOf(source + comment), HashOf(source);
      var r := Answer(bytes, get, source, comment);
      && (FirstHit(bytes, h, get, comment, k) ==> r == get(Offset(bytes, k), comment))
      && (NoHit(bytes, h, get, comment) && FirstHit(bytes, alone, get, [], k) ==> r == get(Offset(bytes, k), []))
      && (NoHit(bytes, h, get, comment) && NoHit(bytes, alone, get, []) ==> r == None)
  {
    hide HashOf, Found, Offset, Hash, NoHit;
    assert source + [] == source;
    FoundMeans(bytes, get, source, comment, k);
    FoundMeans(bytes, get, source, [], k);
  }

  /** The loop of `doTranslate` over the comment and the empty comment. */
  method Translate<M>(bytes: seq<bv8>, get: (nat, seq<bv8>) -> Option<M>, source: seq<bv8>, comment: seq<bv8>) returns (r: Option<M>)
    requires WholeEntries(bytes) && SortedByHash(bytes) && 0 in source && 0 in comment
    ensures r == Answer(bytes, get, Chars(source), Chars(comment))
  {
    if bytes == [] {
      return None;
    }
    var text := comment;
    ghost var retried := false;
    while true
      invariant 0 in text
      invariant !retried ==> text == comment
      invariant retried ==> Chars(text) == [] && Found(bytes, get, Chars(source), Chars(comment)) == None
      decreases !retried
    {
      var h := ElfHashOf(source, text);
      ghost var visited;
      r, visited := Lookup(bytes, h as nat, get, Chars(text));
      if r.Some? {
        return;
      }
      if text[0] == 0 {
        return;
      }
      text := [0];
      retried := true;
    }
  }
}

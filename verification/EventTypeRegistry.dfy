/** The user event types of src/kernel/CoreEvent.cpp: a bit field allocated without locks.
    First the registry as one thread sees it, then any number of threads at once. */
module EventTypeRegistry {

  import opened Wrappers

  const USER := 1000
  const MAX_USER := 65535
  const NUM_BITS := MAX_USER - USER + 1
  const BITS_PER_INT := 32
  const NUM_INTS := (NUM_BITS + BITS_PER_INT - 1) / BITS_PER_INT

  // ----- bits ----------------------------------------------------------------------------

  /** A word of the field as the set of its one bits; `OrAddsBit` says what setting a bit of the
      machine word comes to. */
  type Word = set<nat>

  function Mask(k: nat): bv32
    requires k < BITS_PER_INT
  {
    (1 as bv32) << k
  }

  predicate Bit(word: bv32, k: nat) {
    k < BITS_PER_INT && word & Mask(k) != 0
  }

  function BitsOf(word: bv32): Word {
    set k: nat | k < BITS_PER_INT && Bit(word, k)
  }

  lemma OrAddsBit(word: bv32, k: nat)
    requires k < BITS_PER_INT
    ensures BitsOf(word | Mask(k)) == BitsOf(word) + {k}
  {
    forall t: nat | t < BITS_PER_INT
      ensures Bit(word | Mask(k), t) <==> k == t || Bit(word, t)
    {
      MaskBits(word, k, t);
    }
  }

  lemma MaskBits(word: bv32, k: nat, t: nat)
    requires k < BITS_PER_INT && t < BITS_PER_INT
    ensures ((word | Mask(k)) & Mask(t) != 0) == (k == t || word & Mask(t) != 0)
  {
  }

  predicate Taken(words: seq<Word>, id: int) {
    0 <= id < NUM_BITS && id / BITS_PER_INT < |words| && id % BITS_PER_INT in words[id / BITS_PER_INT]
  }

  function Take(words: seq<Word>, id: nat): seq<Word>
    requires id / BITS_PER_INT < |words|
  {
    words[id / BITS_PER_INT := words[id / BITS_PER_INT] + {id % BITS_PER_INT}]
  }

  /** Setting the bit of one id takes that id and no other. */
  lemma TakeTakes(words: seq<Word>, id: nat, other: int)
    requires id < NUM_BITS && |words| == NUM_INTS
    ensures Taken(Take(words, id), other) <==> other == id || Taken(words, other)
  {
  }

  lemma TakeGrows(words: seq<Word>, id: nat)
    requires id < NUM_BITS && |words| == NUM_INTS
    ensures forall k :: Taken(Take(words, id), k) <==> k == id || Taken(words, k)
  {
    forall k
      ensures Taken(Take(words, id), k) <==> k == id || Taken(words, k)
    {
      TakeTakes(words, id, k);
    }
  }

  function Max(a: nat, b: nat): nat { if a < b then b else a }

  // ----- one thread ----------------------------------------------------------------------

  /** `register_event_type_zero_based` seen from the outside: the id it answers. */
  ghost predicate Answer(words: seq<Word>, hint: int, id: int) {
    if 0 <= hint < NUM_BITS && !Taken(words, hint) then id == hint
    else
      && (id == -1 <==> forall k :: 0 <= k < NUM_BITS ==> Taken(words, k))
      && (id != -1 ==> 0 <= id < NUM_BITS && !Taken(words, id) && forall k :: 0 <= k < id ==> Taken(words, k))
  }

  class BasicAtomicBitField {
    var next: nat
    var data: seq<Word>

    /** No id below `next` is free. */
    ghost predicate Valid()
      reads this
    {
      |data| == NUM_INTS && next <= NUM_BITS && forall k :: 0 <= k < next ==> Taken(data, k)
    }

    constructor ()
      ensures Valid() && forall k :: 0 <= k < NUM_BITS ==> !Taken(data, k)
    {
      next := 0;
      data := seq(NUM_INTS, _ => {});
    }

    method AllocateSpecific(which: nat) returns (ok: bool)
      requires Valid() && which < NUM_BITS
      modifies this`data
      ensures Valid()
      ensures ok == !Taken(old(data), which)
      ensures data == if ok then Take(old(data), which) else old(data)
    {
      TakeGrows(data, which);
      var entry, bit := which / BITS_PER_INT, which % BITS_PER_INT;
      ok := bit !in data[entry];
      if ok {
        data := data[entry := data[entry] + {bit}];
        assert data == Take(old(data), which);
      }
    }

    /** The smallest free id, or -1. */
    method AllocateNext() returns (id: int)
      requires Valid()
      modifies this
      ensures Valid()
      ensures id == -1 <==> forall k :: 0 <= k < NUM_BITS ==> Taken(old(data), k)
      ensures id != -1 ==> 0 <= id < NUM_BITS && !Taken(old(data), id) && forall k :: 0 <= k < id ==> Taken(old(data), k)
      ensures data == if id == -1 then old(data) else Take(old(data), id)
    {
      var i := next;
      while i < NUM_BITS
        invariant next <= i <= NUM_BITS && Valid() && data == old(data)
        invariant forall k :: 0 <= k < i ==> Taken(data, k)
      {
        var ok := AllocateSpecific(i);
        if ok {
          TakeGrows(old(data), i);
          var oldNext := next;
          next := Max(i + 1, oldNext);
          return i;
        }
        i := i + 1;
      }
      id := -1;
    }

    method RegisterZeroBased(hint: int) returns (id: int)
      requires Valid()
      modifies this
      ensures Valid() && Answer(old(data), hint, id)
      ensures data == if id == -1 then old(data) else Take(old(data), id)
    {
      if hint < NUM_BITS && hint >= 0 {
        var ok := AllocateSpecific(hint);
        if ok {
          return hint;
        }
      }
      id := AllocateNext();
    }

    /** `Event::registerEventType`. */
    method RegisterEventType(hint: int) returns (kind: int)
      requires Valid()
      modifies this
      ensures Valid()
      ensures kind == -1 || USER <= kind <= MAX_USER
      ensures Answer(old(data), MAX_USER - hint, if kind == -1 then -1 else MAX_USER - kind)
      ensures forall k :: Taken(data, k) <==> Taken(old(data), k) || (kind != -1 && k == MAX_USER - kind)
    {
      var result := RegisterZeroBased(MAX_USER - hint);
      if result >= 0 {
        TakeGrows(old(data), result);
      }
      kind := if result < 0 then -1 else MAX_USER - result;
    }
  }

  // ----- many threads --------------------------------------------------------------------

  /** `scan` tells the calls that `allocateNext` makes from the one that tries the hint. */
  datatype Pc =
    | Idle
    | Load(which: nat, scan: bool)
    | Cas(which: nat, seen: Word, scan: bool)
    | LoadNext
    | LoadOldNext(i: nat)
    | CasNext(i: nat, oldNext: nat)
    | Answered(id: int)

  /** `granted` is every id that was answered, in order. */
  datatype World = World(next: nat, data: seq<Word>, actors: seq<Pc>, granted: seq<nat>)

  datatype Action = Register(hint: int) | Go | Done

  function Goto(w: World, a: nat, pc: Pc): World
    requires a < |w.actors|
  {
    w.(actors := w.actors[a := pc])
  }

  /** What a thread does when it could not have `which`. */
  function Refused(which: nat, scan: bool): Pc {
    if !scan then LoadNext
    else if which + 1 < NUM_BITS then Load(which + 1, true)
    else Answered(-1)
  }

  function Next(w: World, a: nat, action: Action): Option<World>
    requires |w.data| == NUM_INTS
  {
    if a >= |w.actors| then None
    else
      match (action, w.actors[a])
      case (Register(hint), Idle) =>
        Some(Goto(w, a, if hint < NUM_BITS && hint >= 0 then Load(hint, false) else LoadNext))
      case (Done, Answered(_)) => Some(Goto(w, a, Idle))
      case (Go, Load(which, scan)) =>
        if which >= NUM_BITS then None
        else if Taken(w.data, which) then Some(Goto(w, a, Refused(which, scan)))
        else Some(Goto(w, a, Cas(which, w.data[which / BITS_PER_INT], scan)))
      case (Go, Cas(which, seen, scan)) =>
        if which >= NUM_BITS then None
        else if w.data[which / BITS_PER_INT] == seen
        then Some(Goto(w.(data := w.data[which / BITS_PER_INT := seen + {which % BITS_PER_INT}], granted := w.granted + [which]), a,
                       if scan then LoadOldNext(which) else Answered(which)))
        else Some(Goto(w, a, Refused(which, scan)))
      case (Go, LoadNext) => Some(Goto(w, a, if w.next < NUM_BITS then Load(w.next, true) else Answered(-1)))
      case (Go, LoadOldNext(i)) => Some(Goto(w, a, CasNext(i, w.next)))
      case (Go, CasNext(i, oldNext)) =>
        Some(Goto(if w.next == oldNext then w.(next := Max(i + 1, oldNext)) else w, a, Answered(i)))
      case _ => None
  }

  /** The id a thread has taken and is still to answer. */
  function Pending(pc: Pc): Option<nat> {
    match pc
    case LoadOldNext(i) => Some(i)
    case CasNext(i, _) => Some(i)
    case _ => None
  }

  /** A thread about to swap a word saw its bit clear. */
  predicate PcOk(w: World, pc: Pc) {
    match pc
    case Load(which, _) => which < NUM_BITS
    case Cas(which, seen, _) => which < NUM_BITS && which % BITS_PER_INT !in seen
    case LoadOldNext(i) => i in w.granted && i < NUM_BITS
    case CasNext(i, oldNext) => i in w.granted && i < NUM_BITS && oldNext <= NUM_BITS
    case Answered(id) => id == -1 || (id >= 0 && id in w.granted)
    case _ => true
  }

  ghost predicate Inv(w: World) {
    && |w.data| == NUM_INTS && w.next <= NUM_BITS
    && (forall a :: 0 <= a < |w.actors| ==> PcOk(w, w.actors[a]))
    && (forall n :: 0 <= n < |w.granted| ==> Taken(w.data, w.granted[n]))
    && (forall m, n :: 0 <= m < n < |w.granted| ==> w.granted[m] != w.granted[n])
    && (forall a, b :: 0 <= a < b < |w.actors| && Pending(w.actors[a]).Some? ==> Pending(w.actors[a]) != Pending(w.actors[b]))
  }

  lemma GrantKeeps(w: World, a: nat, which: nat, scan: bool)
    requires Inv(w) && a < |w.actors| && which < NUM_BITS && !Taken(w.data, which)
    ensures Inv(Goto(w.(data := Take(w.data, which), granted := w.granted + [which]), a,
                     if scan then LoadOldNext(which) else Answered(which)))
  {
    TakeGrows(w.data, which);
    var v := Goto(w.(data := Take(w.data, which), granted := w.granted + [which]), a, if scan then LoadOldNext(which) else Answered(which));
    assert which in v.granted;
    forall b | 0 <= b < |v.actors|
      ensures PcOk(v, v.actors[b])
    {
      assert b != a ==> PcOk(w, w.actors[b]);
    }
  }

  /** A step that grants nothing: only the thread itself and the hint `next` change. */
  lemma HintKeeps(w: World, a: nat, next: nat, pc: Pc)
    requires Inv(w) && a < |w.actors| && next <= NUM_BITS && PcOk(w, pc)
    requires Pending(pc) == None || Pending(pc) == Pending(w.actors[a])
    ensures Inv(Goto(w.(next := next), a, pc))
  {
    var v := Goto(w.(next := next), a, pc);
    forall b | 0 <= b < |v.actors|
      ensures PcOk(v, v.actors[b])
    {
      assert b != a ==> PcOk(w, w.actors[b]);
    }
  }

  lemma GoKeeps(w: World, a: nat)
    requires Inv(w) && Next(w, a, Go).Some? && !w.actors[a].Cas?
    ensures Inv(Next(w, a, Go).value) && Next(w, a, Go).value.granted == w.granted
  {
    assert PcOk(w, w.actors[a]);
    match w.actors[a]
    case Load(which, scan) =>
      HintKeeps(w, a, w.next, if Taken(w.data, which) then Refused(which, scan) else Cas(which, w.data[which / BITS_PER_INT], scan));
    case LoadNext => HintKeeps(w, a, w.next, if w.next < NUM_BITS then Load(w.next, true) else Answered(-1));
    case LoadOldNext(i) => HintKeeps(w, a, w.next, CasNext(i, w.next));
    case CasNext(i, oldNext) =>
      HintKeeps(w, a, if w.next == oldNext then Max(i + 1, oldNext) else w.next, Answered(i));
  }

  lemma NextKeeps(w: World, a: nat, action: Action)
    requires Inv(w) && Next(w, a, action).Some?
    ensures Inv(Next(w, a, action).value)
    ensures w.granted <= Next(w, a, action).value.granted
  {
    assert PcOk(w, w.actors[a]);
    var pc := w.actors[a];
    if action.Go? && pc.Cas? {
      if w.data[pc.which / BITS_PER_INT] == pc.seen {
        GrantKeeps(w, a, pc.which, pc.scan);
      } else {
        HintKeeps(w, a, w.next, Refused(pc.which, pc.scan));
      }
    } else if action.Go? {
      GoKeeps(w, a);
    } else if action.Done? {
      HintKeeps(w, a, w.next, Idle);
    } else {
      HintKeeps(w, a, w.next, if action.hint < NUM_BITS && action.hint >= 0 then Load(action.hint, false) else LoadNext);
    }
  }

  /** A thread that registers a free hint and is not disturbed is answered the hint: it takes that id
      and no other, and leaves `m_next` alone. */
  lemma HintHonoured(w: World, a: nat, hint: int) returns (w1: World, w2: World, w3: World)
    requires Inv(w) && a < |w.actors| && w.actors[a] == Idle && 0 <= hint < NUM_BITS && !Taken(w.data, hint)
    ensures |w1.data| == |w2.data| == NUM_INTS
    ensures Next(w, a, Register(hint)) == Some(w1) && Next(w1, a, Go) == Some(w2) && Next(w2, a, Go) == Some(w3)
    ensures w3.actors == w.actors[a := Answered(hint)] && w3.granted == w.granted + [hint] && w3.next == w.next
    ensures forall k :: Taken(w3.data, k) <==> k == hint || Taken(w.data, k)
  {
    TakeGrows(w.data, hint);
    w1 := Next(w, a, Register(hint)).value;
    w2 := Next(w1, a, Go).value;
    w3 := Next(w2, a, Go).value;
  }

  // ----- whole runs ----------------------------------------------------------------------

  datatype Step = Step(actor: nat, action: Action)

  ghost predicate StepTaken(w: World, step: Step, v: World) {
    |w.data| == NUM_INTS && Next(w, step.actor, step.action) == Some(v)
  }

  ghost predicate Run(worlds: seq<World>, steps: seq<Step>) {
    && |worlds| == |steps| + 1
    && forall i :: 0 <= i < |steps| ==> StepTaken(worlds[i], steps[i], worlds[i + 1])
  }

  predicate AtRest(w: World) {
    w.next == 0 && w.data == seq(NUM_INTS, _ => {}) && w.granted == [] && forall a :: 0 <= a < |w.actors| ==> w.actors[a] == Idle
  }

  lemma {:induction false} RunKeeps(worlds: seq<World>, steps: seq<Step>)
    requires Run(worlds, steps) && AtRest(worlds[0])
    ensures Inv(worlds[|steps|])
  {
    if steps != [] {
      var n := |steps| - 1;
      RunKeeps(worlds[..n + 1], steps[..n]);
      assert StepTaken(worlds[n], steps[n], worlds[n + 1]);
      NextKeeps(worlds[n], steps[n].actor, steps[n].action);
    }
  }

  /** The step is the one with which a registration answers `id`. */
  ghost predicate Answers(w: World, step: Step, v: World, id: nat) {
    && StepTaken(w, step, v) && step.actor < |w.actors| && step.actor < |v.actors|
    && w.actors[step.actor] != Answered(id) && v.actors[step.actor] == Answered(id)
  }

  /** The id is given out, and no thread is still to answer it. */
  ghost predicate Out(w: World, id: nat) {
    id in w.granted && forall a :: 0 <= a < |w.actors| ==> Pending(w.actors[a]) != Some(id)
  }

  lemma AnswerOut(w: World, step: Step, v: World, id: nat)
    requires Inv(w) && Answers(w, step, v, id)
    ensures !Out(w, id) && Out(v, id) && 0 <= id < NUM_BITS
  {
    var pc := w.actors[step.actor];
    assert PcOk(w, pc);
    if pc.Cas? {
      assert !Taken(w.data, id) && v.granted == w.granted + [id];
      forall a | 0 <= a < |v.actors| && a != step.actor
        ensures Pending(v.actors[a]) != Some(id)
      {
        assert PcOk(w, w.actors[a]);
      }
    } else {
      assert Pending(pc) == Some(id) && v.granted == w.granted;
    }
  }

  lemma OutStays(w: World, step: Step, v: World, id: nat)
    requires Inv(w) && StepTaken(w, step, v) && Out(w, id)
    ensures Out(v, id)
  {
    var pc := w.actors[step.actor];
    assert PcOk(w, pc);
    if step.action.Go? && pc.Cas? && w.data[pc.which / BITS_PER_INT] == pc.seen {
      assert !Taken(w.data, pc.which) && v.granted == w.granted + [pc.which];
    }
  }

  lemma {:induction false} OutRun(worlds: seq<World>, steps: seq<Step>, j: nat, id: nat)
    requires Run(worlds, steps) && AtRest(worlds[0]) && j <= |steps| && Out(worlds[j], id)
    ensures Out(worlds[|steps|], id)
    decreases |steps|
  {
    if j < |steps| {
      var n := |steps| - 1;
      OutRun(worlds[..n + 1], steps[..n], j, id);
      RunKeeps(worlds[..n + 1], steps[..n]);
      assert StepTaken(worlds[n], steps[n], worlds[n + 1]);
      OutStays(worlds[n], steps[n], worlds[n + 1], id);
    }
  }

  /** However the registrations interleave, no two of them are answered the same event type, and
      every answer lies between `User` and `MaxUser`. */
  lemma NeverTwice(worlds: seq<World>, steps: seq<Step>, j: nat, k: nat, m: nat, n: nat)
    requires Run(worlds, steps) && AtRest(worlds[0]) && j < k < |steps|
    requires Answers(worlds[j], steps[j], worlds[j + 1], m) && Answers(worlds[k], steps[k], worlds[k + 1], n)
    ensures MAX_USER - m != MAX_USER - n
    ensures USER <= MAX_USER - m <= MAX_USER && USER <= MAX_USER - n <= MAX_USER
  {
    RunKeeps(worlds[..j + 1], steps[..j]);
    RunKeeps(worlds[..k + 1], steps[..k]);
    AnswerOut(worlds[j], steps[j], worlds[j + 1], m);
    AnswerOut(worlds[k], steps[k], worlds[k + 1], n);
    OutRun(worlds[..k + 1], steps[..k], j + 1, m);
  }
}

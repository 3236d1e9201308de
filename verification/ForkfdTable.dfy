/** The child table of thirdparty/forkfd/forkfd.c: every atomic operation, every visible store
    and every system call of `forkfd` and of the SIGCHLD handler is one step, and any number
    of threads and handlers interleave. */
module ForkfdTable {

  import opened Wrappers

  const CHILDREN_IN_SMALL_ARRAY := 16
  const CHILDREN_IN_BIG_ARRAY := 256

  // ----- state ---------------------------------------------------------------------------

  /** A table entry: `pid` is 0 when free and -1 when somebody owns it. */
  datatype ProcessInfo = ProcessInfo(pid: int, deathPipe: int)

  /** `children` or one `BigArray`; the next section of the chain is its `nextArray`. */
  datatype Section = Section(busyCount: int, entries: seq<ProcessInfo>)

  datatype Life = Running | Zombie | Reaped

  /** A child process.  `home` is the entry `forkfd` reserved for it, if `forkfd` made it. */
  datatype Child = Child(pid: int, life: Life, home: Option<(nat, nat)>)

  /** What a death pipe has been told: the write end, and whose death it was. */
  datatype Notice = Notice(pipe: int, child: nat)

  /** Where freeing an entry leads back to. */
  datatype Then = Return | SearchAgain | ScanOn(s: nat, i: nat)

  datatype Pc =
    | Idle
    | AllocAdd(s: nat)
    | AllocScan(s: nat, i: nat)
    | AllocUndo(s: nat)
    | AllocNext(s: nat)
    | AllocInstall(s: nat)
    | Crashed
    | Owning(s: nat, i: nat)
    | Forked(s: nat, i: nat, c: nat)
    | Piped(s: nat, i: nat, c: nat)
    | WaitAny
    | Search(p: int, s: nat, i: nat)
    | Scan(s: nat, i: nat)
    | CheckReady(s: nat, i: nat, p: int)
    | TakeReady(s: nat, i: nat, p: int)
    | Reaping(s: nat, i: nat, p: int, then_: Then)
    | Notifying(s: nat, i: nat, c: nat, then_: Then)
    | Freeing(s: nat, i: nat, then_: Then)
    | Clearing(s: nat, i: nat, then_: Then)
    | Releasing(s: nat, then_: Then)

  datatype World = World(sections: seq<Section>, children: seq<Child>, actors: seq<Pc>, notices: seq<Notice>)

  /** The outside decides whether a weak compare-and-swap fails for no reason, whether a
      system call succeeds, and which pid or which dead child the kernel comes up with. */
  datatype Luck = Luck(spurious: bool, success: bool, pid: int, pick: nat)

  datatype Action =
    | Fork
    | Signal
    | Go(luck: Luck)
    | Exit(c: nat)
    | Foreign(pid: int)
    | ForeignReap(c: nat)

  // ----- the kernel ----------------------------------------------------------------------

  /** The kernel does not hand out a pid that an unreaped child still has. */
  predicate PidFree(children: seq<Child>, pid: int) {
    pid > 0 && forall c :: 0 <= c < |children| && children[c].life != Reaped ==> children[c].pid != pid
  }

  /** The child `waitid` or `wait4` finds for a pid. */
  function Dead(children: seq<Child>, pid: int): (c: Option<nat>)
    ensures c.Some? ==> c.value < |children| && children[c.value].life == Zombie && children[c.value].pid == pid
    ensures c.None? ==> forall k :: 0 <= k < |children| && children[k].life == Zombie ==> children[k].pid != pid
  {
    if children == [] then None
    else
      var last := |children| - 1;
      if children[last].life == Zombie && children[last].pid == pid then Some(last) else Dead(children[..last], pid)
  }

  /** The write end of the pipe `forkfd` makes for child `c`; never descriptor 0. */
  function PipeOf(c: nat): int { c + 1 }

  // ----- updates -------------------------------------------------------------------------

  function Goto(w: World, a: nat, pc: Pc): World
    requires a < |w.actors|
  {
    w.(actors := w.actors[a := pc])
  }

  function AddBusy(w: World, s: nat, delta: int): World
    requires s < |w.sections|
  {
    w.(sections := w.sections[s := w.sections[s].(busyCount := w.sections[s].busyCount + delta)])
  }

  predicate HasEntry(w: World, s: nat, i: nat) {
    s < |w.sections| && i < |w.sections[s].entries|
  }

  function Entry(w: World, s: nat, i: nat): ProcessInfo
    requires HasEntry(w, s, i)
  {
    w.sections[s].entries[i]
  }

  function SetEntry(w: World, s: nat, i: nat, entry: ProcessInfo): World
    requires HasEntry(w, s, i)
  {
    w.(sections := w.sections[s := w.sections[s].(entries := w.sections[s].entries[i := entry])])
  }

  function NewSection(): Section {
    Section(0, seq(CHILDREN_IN_BIG_ARRAY, _ => ProcessInfo(0, 0)))
  }

  function Continue(then_: Then): Pc {
    match then_
    case Return => Idle
    case SearchAgain => WaitAny
    case ScanOn(s, i) => Scan(s, i)
  }

  // ----- one step ------------------------------------------------------------------------

  /** `tryAllocateInSection` and `allocateInfo`. */
  function Allocate(w: World, a: nat, luck: Luck): Option<World>
    requires a < |w.actors|
  {
    match w.actors[a]
    case AllocAdd(s) =>
      if s >= |w.sections| then None
      else if w.sections[s].busyCount + 1 <= |w.sections[s].entries| then Some(Goto(AddBusy(w, s, 1), a, AllocScan(s, 0)))
      else Some(Goto(AddBusy(w, s, 1), a, AllocUndo(s)))
    case AllocScan(s, i) =>
      if s >= |w.sections| then None
      else if i >= |w.sections[s].entries| then Some(Goto(w, a, AllocUndo(s)))
      else if Entry(w, s, i).pid == 0 && !luck.spurious
      then Some(Goto(SetEntry(w, s, i, Entry(w, s, i).(pid := -1)), a, Owning(s, i)))
      else Some(Goto(w, a, AllocScan(s, i + 1)))
    case AllocUndo(s) => if s >= |w.sections| then None else Some(Goto(AddBusy(w, s, -1), a, AllocNext(s)))
    case AllocNext(s) =>
      if s + 1 < |w.sections| then Some(Goto(w, a, AllocAdd(s + 1)))
      else if luck.success then Some(Goto(w, a, AllocInstall(s)))
      else Some(Goto(w, a, Idle))
    case AllocInstall(s) =>
      if s + 1 < |w.sections| then Some(Goto(w, a, AllocAdd(s + 1)))
      else if luck.spurious then Some(Goto(w, a, Crashed))
      else Some(Goto(w.(sections := w.sections + [NewSection()]), a, AllocAdd(s + 1)))
    case _ => None
  }

  /** `forkfd` once it owns an entry. */
  function Populate(w: World, a: nat, luck: Luck): Option<World>
    requires a < |w.actors|
  {
    match w.actors[a]
    case Owning(s, i) =>
      if !luck.success then Some(Goto(w, a, Freeing(s, i, Return)))
      else if PidFree(w.children, luck.pid)
      then Some(Goto(w.(children := w.children + [Child(luck.pid, Running, Some((s, i)))]), a, Forked(s, i, |w.children|)))
      else None
    case Forked(s, i, c) =>
      if !HasEntry(w, s, i) then None
      else Some(Goto(SetEntry(w, s, i, Entry(w, s, i).(deathPipe := PipeOf(c))), a, Piped(s, i, c)))
    case Piped(s, i, c) =>
      if !HasEntry(w, s, i) || c >= |w.children| then None
      else Some(Goto(SetEntry(w, s, i, Entry(w, s, i).(pid := w.children[c].pid)), a, Idle))
    case _ => None
  }

  /** The search for a dead child in `sigchld_handler`. */
  function Handle(w: World, a: nat, luck: Luck): Option<World>
    requires a < |w.actors|
  {
    match w.actors[a]
    case WaitAny =>
      if luck.pick < |w.children| && w.children[luck.pick].life == Zombie
      then Some(Goto(w, a, Search(w.children[luck.pick].pid, 0, 0)))
      else if forall c :: 0 <= c < |w.children| ==> w.children[c].life != Zombie then Some(Goto(w, a, Idle))
      else None
    case Search(p, s, i) =>
      if s >= |w.sections| then Some(Goto(w, a, Scan(0, 0)))
      else if i >= |w.sections[s].entries| then Some(Goto(w, a, Search(p, s + 1, 0)))
      else if Entry(w, s, i).pid == p && !luck.spurious
      then Some(Goto(SetEntry(w, s, i, Entry(w, s, i).(pid := -1)), a, Reaping(s, i, p, SearchAgain)))
      else Some(Goto(w, a, Search(p, s, i + 1)))
    case Scan(s, i) =>
      if s >= |w.sections| then Some(Goto(w, a, Idle))
      else if i >= |w.sections[s].entries| then Some(Goto(w, a, Scan(s + 1, 0)))
      else if Entry(w, s, i).pid <= 0 then Some(Goto(w, a, Scan(s, i + 1)))
      else Some(Goto(w, a, CheckReady(s, i, Entry(w, s, i).pid)))
    case CheckReady(s, i, p) =>
      if Dead(w.children, p).Some? then Some(Goto(w, a, TakeReady(s, i, p))) else Some(Goto(w, a, Scan(s, i + 1)))
    case TakeReady(s, i, p) =>
      if !HasEntry(w, s, i) then None
      else if Entry(w, s, i).pid == p && !luck.spurious
      then Some(Goto(SetEntry(w, s, i, Entry(w, s, i).(pid := -1)), a, Reaping(s, i, p, ScanOn(s, i + 1))))
      else Some(Goto(w, a, Scan(s, i + 1)))
    case _ => None
  }

  /** `tryReaping`, `notifyAndFreeInfo` and `freeInfo`.  An entry whose child cannot be reaped
      is left at -1. */
  function Release(w: World, a: nat): Option<World>
    requires a < |w.actors|
  {
    match w.actors[a]
    case Reaping(s, i, p, then_) =>
      (match Dead(w.children, p)
       case None => Some(Goto(w, a, Continue(then_)))
       case Some(c) =>
         Some(Goto(w.(children := w.children[c := w.children[c].(life := Reaped)]), a, Notifying(s, i, c, then_))))
    case Notifying(s, i, c, then_) =>
      if !HasEntry(w, s, i) then None
      else Some(Goto(w.(notices := w.notices + [Notice(Entry(w, s, i).deathPipe, c)]), a, Freeing(s, i, then_)))
    case Freeing(s, i, then_) =>
      if !HasEntry(w, s, i) then None
      else Some(Goto(SetEntry(w, s, i, Entry(w, s, i).(deathPipe := -1)), a, Clearing(s, i, then_)))
    case Clearing(s, i, then_) =>
      if !HasEntry(w, s, i) then None
      else Some(Goto(SetEntry(w, s, i, Entry(w, s, i).(pid := 0)), a, Releasing(s, then_)))
    case Releasing(s, then_) => if s >= |w.sections| then None else Some(Goto(AddBusy(w, s, -1), a, Continue(then_)))
    case _ => None
  }

  function Next(w: World, a: nat, action: Action): Option<World> {
    match action
    case Fork => if a < |w.actors| && w.actors[a] == Idle then Some(Goto(w, a, AllocAdd(0))) else None
    case Signal => if a < |w.actors| && w.actors[a] == Idle then Some(Goto(w, a, WaitAny)) else None
    case Go(luck) =>
      if a >= |w.actors| then None
      else if Allocate(w, a, luck).Some? then Allocate(w, a, luck)
      else if Populate(w, a, luck).Some? then Populate(w, a, luck)
      else if Handle(w, a, luck).Some? then Handle(w, a, luck)
      else Release(w, a)
    case Exit(c) =>
      if c < |w.children| && w.children[c].life == Running
      then Some(w.(children := w.children[c := w.children[c].(life := Zombie)])) else None
    case Foreign(pid) =>
      if PidFree(w.children, pid) then Some(w.(children := w.children + [Child(pid, Running, None)])) else None
    case ForeignReap(c) =>
      if c < |w.children| && w.children[c].life == Zombie && w.children[c].home == None
      then Some(w.(children := w.children[c := w.children[c].(life := Reaped)])) else None
  }

  // ----- invariants ----------------------------------------------------------------------

  function Occupied(entries: seq<ProcessInfo>): nat {
    if entries == [] then 0
    else Occupied(entries[..|entries| - 1]) + if entries[|entries| - 1].pid == 0 then 0 else 1
  }

  /** Between `busyCount + 1` and taking an entry or undoing. */
  predicate Allocating(pc: Pc, s: nat) {
    (pc.AllocScan? && pc.s == s) || (pc.AllocUndo? && pc.s == s)
  }

  /** Between `pid = 0` and `busyCount - 1`. */
  predicate Freed(pc: Pc, s: nat) {
    pc.Releasing? && pc.s == s
  }

  function InFlight(pc: Pc, s: nat): nat {
    if Allocating(pc, s) || Freed(pc, s) then 1 else 0
  }

  function AllInFlight(actors: seq<Pc>, s: nat): nat {
    if actors == [] then 0 else AllInFlight(actors[..|actors| - 1], s) + InFlight(actors[|actors| - 1], s)
  }

  /** The thread has an entry to itself. */
  predicate Owns(pc: Pc, s: nat, i: nat) {
    match pc
    case Owning(s', i') => s == s' && i == i'
    case Forked(s', i', _) => s == s' && i == i'
    case Piped(s', i', _) => s == s' && i == i'
    case Reaping(s', i', _, _) => s == s' && i == i'
    case Notifying(s', i', _, _) => s == s' && i == i'
    case Freeing(s', i', _) => s == s' && i == i'
    case Clearing(s', i', _) => s == s' && i == i'
    case _ => false
  }

  ghost predicate Balanced(w: World) {
    forall s :: 0 <= s < |w.sections| ==>
      w.sections[s].busyCount == Occupied(w.sections[s].entries) + AllInFlight(w.actors, s)
  }

  ghost predicate Owned(w: World) {
    && (forall a, s, i :: 0 <= a < |w.actors| && Owns(w.actors[a], s, i) ==> HasEntry(w, s, i) && Entry(w, s, i).pid == -1)
    && (forall a, b, s, i :: 0 <= a < |w.actors| && 0 <= b < |w.actors| && Owns(w.actors[a], s, i) && Owns(w.actors[b], s, i) ==> a == b)
  }

  /** Child `c` was made for entry `(s, i)` and has not been reaped. */
  predicate Waits(children: seq<Child>, c: int, s: nat, i: nat) {
    0 <= c < |children| && children[c].home == Some((s, i)) && children[c].life != Reaped
  }

  ghost predicate PidsUnique(children: seq<Child>) {
    && (forall c :: 0 <= c < |children| ==> children[c].pid > 0)
    && (forall c, d :: 0 <= c < d < |children| && children[c].life != Reaped && children[d].life != Reaped ==> children[c].pid != children[d].pid)
  }

  /** An entry with a pid belongs to the unreaped child whose pipe it holds. */
  predicate EntryOk(children: seq<Child>, entry: ProcessInfo, s: nat, i: nat) {
    && entry.pid >= -1
    && (entry.pid > 0 ==> Waits(children, entry.deathPipe - 1, s, i) && children[entry.deathPipe - 1].pid == entry.pid)
  }

  ghost predicate EntriesOk(w: World) {
    forall s, i :: HasEntry(w, s, i) ==> EntryOk(w.children, Entry(w, s, i), s, i)
  }

  ghost predicate Unnoticed(notices: seq<Notice>, c: nat) {
    forall n :: 0 <= n < |notices| ==> notices[n].child != c
  }

  ghost predicate Linked(w: World, pc: Pc) {
    match pc
    case Forked(s, i, c) => Waits(w.children, c, s, i)
    case Piped(s, i, c) => Waits(w.children, c, s, i) && HasEntry(w, s, i) && Entry(w, s, i).deathPipe == PipeOf(c)
    case Reaping(s, i, p, _) =>
      HasEntry(w, s, i) && Waits(w.children, Entry(w, s, i).deathPipe - 1, s, i) && w.children[Entry(w, s, i).deathPipe - 1].pid == p
    case Notifying(s, i, c, _) =>
      && HasEntry(w, s, i) && Entry(w, s, i).deathPipe == PipeOf(c) && c < |w.children|
      && w.children[c].home == Some((s, i)) && w.children[c].life == Reaped && Unnoticed(w.notices, c)
    case AllocAdd(s) => s < |w.sections|
    case AllocScan(s, i) => s < |w.sections| && i <= |w.sections[s].entries|
    case AllocUndo(s) => s < |w.sections|
    case AllocNext(s) => s < |w.sections|
    case AllocInstall(s) => s < |w.sections|
    case Search(p, _, _) => p > 0
    case CheckReady(s, i, p) => p > 0 && HasEntry(w, s, i)
    case TakeReady(s, i, p) => p > 0 && HasEntry(w, s, i)
    case Releasing(s, _) => s < |w.sections|
    case _ => true
  }

  /** Every notice went to the pipe of the child it is about, and no child has two. */
  ghost predicate Noticed(w: World) {
    && (forall n :: 0 <= n < |w.notices| ==>
        w.notices[n].child < |w.children| && w.children[w.notices[n].child].life == Reaped
        && w.notices[n].pipe == PipeOf(w.notices[n].child))
    && (forall m, n :: 0 <= m < n < |w.notices| ==> w.notices[m].child != w.notices[n].child)
  }

  predicate IsTold(notices: seq<Notice>, c: nat) {
    exists n :: 0 <= n < |notices| && notices[n].child == c
  }

  /** The thread is about to write the notice of child `c`. */
  predicate Telling(actors: seq<Pc>, c: nat) {
    exists a :: 0 <= a < |actors| && actors[a].Notifying? && actors[a].c == c
  }

  /** No death of a child of `forkfd` goes untold: once it is reaped, the notice is written or the
      thread that reaped it is about to write it. */
  ghost predicate AllTold(w: World) {
    forall c :: 0 <= c < |w.children| && w.children[c].home.Some? && w.children[c].life == Reaped ==>
      IsTold(w.notices, c) || Telling(w.actors, c)
  }

  predicate Sized(w: World) {
    && |w.sections| > 0 && |w.sections[0].entries| == CHILDREN_IN_SMALL_ARRAY
    && forall s :: 1 <= s < |w.sections| ==> |w.sections[s].entries| == CHILDREN_IN_BIG_ARRAY
  }

  ghost predicate Inv(w: World) {
    && Sized(w) && Balanced(w) && Owned(w) && PidsUnique(w.children) && EntriesOk(w) && Noticed(w) && AllTold(w)
    && forall a :: 0 <= a < |w.actors| ==> Linked(w, w.actors[a])
  }

  // ----- sums ----------------------------------------------------------------------------

  function Taken(entry: ProcessInfo): nat {
    if entry.pid == 0 then 0 else 1
  }

  lemma {:induction false} OccupiedUpdate(entries: seq<ProcessInfo>, i: nat, entry: ProcessInfo)
    requires i < |entries|
    ensures Occupied(entries[i := entry]) == Occupied(entries) - Taken(entries[i]) + Taken(entry)
  {
    var init := entries[..|entries| - 1];
    if i == |entries| - 1 {
      assert entries[i := entry][..|entries| - 1] == init;
    } else {
      OccupiedUpdate(init, i, entry);
      assert entries[i := entry][..|entries| - 1] == init[i := entry];
    }
  }

  lemma {:induction false} OccupiedNone(entries: seq<ProcessInfo>)
    requires forall i :: 0 <= i < |entries| ==> entries[i].pid == 0
    ensures Occupied(entries) == 0
  {
    if entries != [] {
      OccupiedNone(entries[..|entries| - 1]);
    }
  }

  lemma {:induction false} OccupiedFull(entries: seq<ProcessInfo>)
    requires forall i :: 0 <= i < |entries| ==> entries[i].pid != 0
    ensures Occupied(entries) == |entries|
  {
    if entries != [] {
      OccupiedFull(entries[..|entries| - 1]);
    }
  }

  lemma {:induction false} FlightUpdate(actors: seq<Pc>, a: nat, pc: Pc, s: nat)
    requires a < |actors|
    ensures AllInFlight(actors[a := pc], s) == AllInFlight(actors, s) - InFlight(actors[a], s) + InFlight(pc, s)
  {
    var init := actors[..|actors| - 1];
    if a == |actors| - 1 {
      assert actors[a := pc][..|actors| - 1] == init;
    } else {
      FlightUpdate(init, a, pc, s);
      assert actors[a := pc][..|actors| - 1] == init[a := pc];
    }
  }

  lemma {:induction false} FlightNone(actors: seq<Pc>, s: nat)
    requires forall a :: 0 <= a < |actors| ==> InFlight(actors[a], s) == 0
    ensures AllInFlight(actors, s) == 0
  {
    if actors != [] {
      FlightNone(actors[..|actors| - 1], s);
    }
  }

  lemma {:induction false} FlightOne(actors: seq<Pc>, a: nat, s: nat)
    requires a < |actors|
    ensures AllInFlight(actors, s) >= InFlight(actors[a], s)
  {
    if a < |actors| - 1 {
      FlightOne(actors[..|actors| - 1], a, s);
    }
  }

  // ----- steps that touch no entry -------------------------------------------------------

  /** The entries are those of `w`, and only thread `a` went on. */
  ghost predicate SameEntries(w: World, v: World, a: nat) {
    && a < |w.actors| == |v.actors| && v.actors == w.actors[a := v.actors[a]]
    && |v.sections| >= |w.sections|
    && (forall s :: 0 <= s < |w.sections| ==> v.sections[s].entries == w.sections[s].entries)
    && (forall s :: |w.sections| <= s < |v.sections| ==> v.sections[s] == NewSection())
  }

  lemma SameEntriesOwned(w: World, v: World, a: nat)
    requires Owned(w) && SameEntries(w, v, a)
    requires forall s, i :: Owns(v.actors[a], s, i) ==> Owns(w.actors[a], s, i)
    ensures Owned(v)
  {
    forall b, s, i | 0 <= b < |v.actors| && Owns(v.actors[b], s, i)
      ensures HasEntry(v, s, i) && Entry(v, s, i).pid == -1
    {
      assert HasEntry(w, s, i) && Entry(w, s, i).pid == -1;
    }
  }

  lemma SameEntriesOk(w: World, v: World, a: nat)
    requires EntriesOk(w) && SameEntries(w, v, a) && v.children == w.children
    ensures EntriesOk(v)
  {
    forall s: nat, i: nat | HasEntry(v, s, i)
      ensures EntryOk(v.children, Entry(v, s, i), s, i)
    {
      if s < |w.sections| {
        assert HasEntry(w, s, i) && EntryOk(w.children, Entry(w, s, i), s, i);
      }
    }
  }

  lemma SameEntriesLinked(w: World, v: World, a: nat, pc: Pc)
    requires SameEntries(w, v, a) && v.children == w.children && v.notices == w.notices && Linked(w, pc)
    ensures Linked(v, pc)
  {
  }

  lemma ToldKeeps(w: World, v: World, a: nat)
    requires AllTold(w) && v.children == w.children && v.notices == w.notices
    requires a < |w.actors| == |v.actors| && v.actors == w.actors[a := v.actors[a]] && !w.actors[a].Notifying?
    ensures AllTold(v)
  {
    forall c | 0 <= c < |v.children| && v.children[c].home.Some? && v.children[c].life == Reaped
      ensures IsTold(v.notices, c) || Telling(v.actors, c)
    {
      if !IsTold(w.notices, c) {
        var b :| 0 <= b < |w.actors| && w.actors[b].Notifying? && w.actors[b].c == c;
        assert v.actors[b] == w.actors[b];
      }
    }
  }

  lemma SameEntriesKeeps(w: World, v: World, a: nat)
    requires Inv(w) && SameEntries(w, v, a) && v.children == w.children && v.notices == w.notices
    requires !w.actors[a].Notifying?
    requires forall s, i :: Owns(v.actors[a], s, i) ==> Owns(w.actors[a], s, i)
    requires Linked(v, v.actors[a]) && Balanced(v)
    ensures Inv(v)
  {
    SameEntriesOwned(w, v, a);
    SameEntriesOk(w, v, a);
    ToldKeeps(w, v, a);
    hide AllTold;
    forall b: nat | b < |v.actors|
      ensures Linked(v, v.actors[b])
    {
      if b != a {
        SameEntriesLinked(w, v, a, w.actors[b]);
      }
    }
  }

  lemma PcKeeps(w: World, a: nat, pc: Pc)
    requires Inv(w) && a < |w.actors| && Linked(w, pc) && !w.actors[a].Notifying?
    requires forall s :: 0 <= s < |w.sections| ==> InFlight(pc, s) == InFlight(w.actors[a], s)
    requires forall s, i :: Owns(pc, s, i) ==> Owns(w.actors[a], s, i)
    ensures Inv(Goto(w, a, pc))
  {
    var v := Goto(w, a, pc);
    forall s | 0 <= s < |v.sections|
      ensures v.sections[s].busyCount == Occupied(v.sections[s].entries) + AllInFlight(v.actors, s)
    {
      FlightUpdate(w.actors, a, pc, s);
    }
    SameEntriesKeeps(w, v, a);
  }

  lemma BusyKeeps(w: World, a: nat, s: nat, delta: int, pc: Pc)
    requires Inv(w) && a < |w.actors| && s < |w.sections| && Linked(w, pc) && !w.actors[a].Notifying?
    requires InFlight(pc, s) == InFlight(w.actors[a], s) + delta
    requires forall t :: 0 <= t < |w.sections| && t != s ==> InFlight(pc, t) == InFlight(w.actors[a], t)
    requires forall t, i :: !Owns(pc, t, i)
    ensures Inv(Goto(AddBusy(w, s, delta), a, pc))
  {
    var v := Goto(AddBusy(w, s, delta), a, pc);
    forall t | 0 <= t < |v.sections|
      ensures v.sections[t].busyCount == Occupied(v.sections[t].entries) + AllInFlight(v.actors, t)
    {
      FlightUpdate(w.actors, a, pc, t);
    }
    SameEntriesLinked(w, v, a, pc);
    SameEntriesKeeps(w, v, a);
  }

  lemma NobodyThere(w: World, t: nat)
    requires Inv(w) && t >= |w.sections|
    ensures AllInFlight(w.actors, t) == 0
  {
    forall b | 0 <= b < |w.actors|
      ensures InFlight(w.actors[b], t) == 0
    {
      assert Linked(w, w.actors[b]);
    }
    FlightNone(w.actors, t);
  }

  lemma InstallBalanced(w: World, a: nat, s: nat)
    requires Inv(w) && a < |w.actors| && w.actors[a] == AllocInstall(s) && s + 1 == |w.sections|
    ensures Balanced(Goto(w.(sections := w.sections + [NewSection()]), a, AllocAdd(s + 1)))
  {
    NobodyThere(w, |w.sections|);
    hide PidsUnique, Linked, Owned, EntriesOk, Noticed, Occupied, AllInFlight;
    var v := Goto(w.(sections := w.sections + [NewSection()]), a, AllocAdd(s + 1));
    forall t | 0 <= t < |v.sections|
      ensures v.sections[t].busyCount == Occupied(v.sections[t].entries) + AllInFlight(v.actors, t)
    {
      FlightUpdate(w.actors, a, AllocAdd(s + 1), t);
      if t == |w.sections| {
        OccupiedNone(NewSection().entries);
      }
    }
  }

  lemma InstallKeeps(w: World, a: nat, s: nat)
    requires Inv(w) && a < |w.actors| && w.actors[a] == AllocInstall(s) && s + 1 == |w.sections|
    ensures Inv(Goto(w.(sections := w.sections + [NewSection()]), a, AllocAdd(s + 1)))
  {
    InstallBalanced(w, a, s);
    SameEntriesKeeps(w, Goto(w.(sections := w.sections + [NewSection()]), a, AllocAdd(s + 1)), a);
  }

  // ----- steps on one entry --------------------------------------------------------------

  /** Thread `a` may write entry `(s, i)`: it owns it, or takes it with a compare-and-swap
      from somebody who does not. */
  ghost predicate MayWrite(w: World, a: nat, s: nat, i: nat) {
    && a < |w.actors| && HasEntry(w, s, i)
    && (forall t, j :: Owns(w.actors[a], t, j) ==> t == s && j == i)
    && (Owns(w.actors[a], s, i) || Entry(w, s, i).pid != -1)
  }

  lemma EntryOwned(w: World, a: nat, s: nat, i: nat, entry: ProcessInfo, pc: Pc)
    requires Owned(w) && MayWrite(w, a, s, i)
    requires forall t, j :: Owns(pc, t, j) ==> t == s && j == i && entry.pid == -1
    ensures Owned(Goto(SetEntry(w, s, i, entry), a, pc))
  {
    var v := Goto(SetEntry(w, s, i, entry), a, pc);
    forall b, t, j | 0 <= b < |v.actors| && Owns(v.actors[b], t, j)
      ensures HasEntry(v, t, j) && Entry(v, t, j).pid == -1
    {
      if b != a {
        assert HasEntry(w, t, j) && Entry(w, t, j).pid == -1;
        assert !(t == s && j == i);
      }
    }
    forall b, c, t, j | 0 <= b < |v.actors| && 0 <= c < |v.actors| && Owns(v.actors[b], t, j) && Owns(v.actors[c], t, j)
      ensures b == c
    {
      assert b != a ==> Owns(w.actors[b], t, j) && Entry(w, t, j).pid == -1;
      assert c != a ==> Owns(w.actors[c], t, j) && Entry(w, t, j).pid == -1;
    }
  }

  lemma EntryLinked(w: World, a: nat, s: nat, i: nat, entry: ProcessInfo, pc: Pc, b: nat)
    requires Owned(w) && MayWrite(w, a, s, i) && b < |w.actors| && b != a && Linked(w, w.actors[b])
    ensures Linked(Goto(SetEntry(w, s, i, entry), a, pc), w.actors[b])
  {
    var v := Goto(SetEntry(w, s, i, entry), a, pc);
    assert !Owns(w.actors[b], s, i);
    assert forall t, j :: HasEntry(w, t, j) && !(t == s && j == i) ==> HasEntry(v, t, j) && Entry(v, t, j) == Entry(w, t, j);
  }

  lemma EntryKeeps(w: World, a: nat, s: nat, i: nat, entry: ProcessInfo, pc: Pc)
    requires Inv(w) && MayWrite(w, a, s, i) && !w.actors[a].Notifying?
    requires forall t, j :: Owns(pc, t, j) ==> t == s && j == i && entry.pid == -1
    requires EntryOk(w.children, entry, s, i) && Linked(Goto(SetEntry(w, s, i, entry), a, pc), pc)
    requires Taken(entry) - Taken(Entry(w, s, i)) == InFlight(w.actors[a], s) - InFlight(pc, s)
    requires forall t :: 0 <= t < |w.sections| && t != s ==> InFlight(pc, t) == InFlight(w.actors[a], t)
    ensures Inv(Goto(SetEntry(w, s, i, entry), a, pc))
  {
    var v := Goto(SetEntry(w, s, i, entry), a, pc);
    EntryOwned(w, a, s, i, entry, pc);
    ToldKeeps(w, v, a);
    OccupiedUpdate(w.sections[s].entries, i, entry);
    forall t | 0 <= t < |v.sections|
      ensures v.sections[t].busyCount == Occupied(v.sections[t].entries) + AllInFlight(v.actors, t)
    {
      FlightUpdate(w.actors, a, pc, t);
    }
    forall t, j | HasEntry(v, t, j)
      ensures EntryOk(v.children, Entry(v, t, j), t, j)
    {
      assert HasEntry(w, t, j);
    }
    forall b: nat | b < |v.actors|
      ensures Linked(v, v.actors[b])
    {
      if b != a {
        EntryLinked(w, a, s, i, entry, pc, b);
      }
    }
  }

  // ----- steps of children ---------------------------------------------------------------

  /** Nothing an entry or a thread relies on changes when a child appears or exits. */
  ghost predicate Gentle(children: seq<Child>, after: seq<Child>) {
    && |children| <= |after|
    && forall c :: 0 <= c < |children| ==>
         && after[c].pid == children[c].pid && after[c].home == children[c].home
         && (children[c].home.Some? || children[c].life == Reaped ==> (after[c].life == Reaped <==> children[c].life == Reaped))
  }

  lemma ChildrenKeep(w: World, children: seq<Child>)
    requires Inv(w) && Gentle(w.children, children) && PidsUnique(children)
    requires forall c :: |w.children| <= c < |children| ==> children[c].life != Reaped
    ensures Inv(w.(children := children))
  {
    var v := w.(children := children);
    forall s: nat, i: nat | HasEntry(v, s, i)
      ensures EntryOk(v.children, Entry(v, s, i), s, i)
    {
      assert EntryOk(w.children, Entry(w, s, i), s, i);
    }
    forall a | 0 <= a < |v.actors|
      ensures Linked(v, v.actors[a])
    {
      assert Linked(w, w.actors[a]);
    }
    ChildrenOwned(w, children);
    ChildrenTold(w, children);
  }

  lemma ChildrenTold(w: World, children: seq<Child>)
    requires AllTold(w) && Gentle(w.children, children)
    requires forall c :: |w.children| <= c < |children| ==> children[c].life != Reaped
    ensures AllTold(w.(children := children))
  {
  }

  lemma ChildrenOwned(w: World, children: seq<Child>)
    requires Owned(w) && Noticed(w) && Balanced(w) && Gentle(w.children, children)
    ensures Owned(w.(children := children)) && Noticed(w.(children := children)) && Balanced(w.(children := children))
  {
    forall a, s, i | 0 <= a < |w.actors| && Owns(w.actors[a], s, i)
      ensures HasEntry(w.(children := children), s, i) && Entry(w.(children := children), s, i).pid == -1
    {
      assert HasEntry(w, s, i);
    }
  }

  lemma ForkKeeps(w: World, a: nat, s: nat, i: nat, pid: int)
    requires Inv(w) && a < |w.actors| && w.actors[a] == Owning(s, i) && PidFree(w.children, pid)
    ensures Inv(Goto(w.(children := w.children + [Child(pid, Running, Some((s, i)))]), a, Forked(s, i, |w.children|)))
  {
    var children := w.children + [Child(pid, Running, Some((s, i)))];
    ChildrenKeep(w, children);
    PcKeeps(w.(children := children), a, Forked(s, i, |w.children|));
  }

  /** The dead child a thread reaps is the one whose entry it has taken. */
  lemma OwnChild(w: World, a: nat, s: nat, i: nat, p: int, then_: Then)
    requires Inv(w) && a < |w.actors| && w.actors[a] == Reaping(s, i, p, then_) && Dead(w.children, p).Some?
    ensures HasEntry(w, s, i) && Entry(w, s, i).deathPipe == PipeOf(Dead(w.children, p).value)
    ensures w.children[Dead(w.children, p).value].home == Some((s, i))
  {
    assert Linked(w, w.actors[a]);
    var c, d := Dead(w.children, p).value, Entry(w, s, i).deathPipe - 1;
    assert w.children[c].life != Reaped && w.children[d].life != Reaped && w.children[c].pid == w.children[d].pid;
  }

  lemma PcBalanced(w: World, v: World, a: nat)
    requires Balanced(w) && a < |w.actors| && v.sections == w.sections
    requires |v.actors| == |w.actors| && v.actors == w.actors[a := v.actors[a]]
    requires forall s :: 0 <= s < |w.sections| ==> InFlight(v.actors[a], s) == InFlight(w.actors[a], s)
    ensures Balanced(v)
  {
    forall t | 0 <= t < |v.sections|
      ensures v.sections[t].busyCount == Occupied(v.sections[t].entries) + AllInFlight(v.actors, t)
    {
      FlightUpdate(w.actors, a, v.actors[a], t);
    }
  }

  lemma ReapKeeps(w: World, a: nat, s: nat, i: nat, p: int, then_: Then)
    requires Inv(w) && a < |w.actors| && w.actors[a] == Reaping(s, i, p, then_) && Dead(w.children, p).Some?
    ensures Inv(Release(w, a).value)
  {
    hide Balanced, AllTold, Dead;
    OwnChild(w, a, s, i, p, then_);
    var v := Release(w, a).value;
    assert Owns(w.actors[a], s, i);
    forall t, j | HasEntry(v, t, j)
      ensures EntryOk(v.children, Entry(v, t, j), t, j)
    {
      assert HasEntry(w, t, j) && EntryOk(w.children, Entry(w, t, j), t, j);
    }
    forall b | 0 <= b < |v.actors|
      ensures Linked(v, v.actors[b])
    {
      assert Linked(w, w.actors[b]);
      assert b != a ==> !Owns(w.actors[b], s, i);
    }
    PcBalanced(w, v, a);
    SameEntriesOwned(w, v, a);
    ReapTold(w, a, s, i, p, then_);
  }

  lemma ReapTold(w: World, a: nat, s: nat, i: nat, p: int, then_: Then)
    requires AllTold(w) && a < |w.actors| && w.actors[a] == Reaping(s, i, p, then_) && Dead(w.children, p).Some?
    ensures AllTold(Release(w, a).value)
  {
    var v := Release(w, a).value;
    forall c | 0 <= c < |v.children| && v.children[c].home.Some? && v.children[c].life == Reaped
      ensures IsTold(v.notices, c) || Telling(v.actors, c)
    {
      if c == Dead(w.children, p).value {
        assert v.actors[a].Notifying? && v.actors[a].c == c;
      } else if !IsTold(w.notices, c) {
        var b :| 0 <= b < |w.actors| && w.actors[b].Notifying? && w.actors[b].c == c;
        assert v.actors[b] == w.actors[b];
      }
    }
  }

  lemma NotifyTold(w: World, a: nat, s: nat, i: nat, c: nat, then_: Then)
    requires AllTold(w) && a < |w.actors| && w.actors[a] == Notifying(s, i, c, then_) && HasEntry(w, s, i)
    ensures AllTold(Release(w, a).value)
  {
    var v := Release(w, a).value;
    forall d | 0 <= d < |v.children| && v.children[d].home.Some? && v.children[d].life == Reaped
      ensures IsTold(v.notices, d) || Telling(v.actors, d)
    {
      if d == c {
        assert v.notices[|w.notices|].child == c;
      } else if IsTold(w.notices, d) {
        var n :| 0 <= n < |w.notices| && w.notices[n].child == d;
        assert v.notices[n].child == d;
      } else {
        var b :| 0 <= b < |w.actors| && w.actors[b].Notifying? && w.actors[b].c == d;
        assert v.actors[b] == w.actors[b];
      }
    }
  }

  lemma NotifyKeeps(w: World, a: nat, s: nat, i: nat, c: nat, then_: Then)
    requires Inv(w) && a < |w.actors| && w.actors[a] == Notifying(s, i, c, then_)
    ensures Release(w, a).Some? && Inv(Release(w, a).value)
  {
    hide AllTold, Balanced;
    assert Linked(w, w.actors[a]);
    var v := Release(w, a).value;
    assert Owns(w.actors[a], s, i);
    forall b | 0 <= b < |v.actors|
      ensures Linked(v, v.actors[b])
    {
      assert Linked(w, w.actors[b]);
      assert b != a ==> !Owns(w.actors[b], s, i);
    }
    PcBalanced(w, v, a);
    SameEntriesOwned(w, v, a);
    SameEntriesOk(w, v, a);
    NotifyTold(w, a, s, i, c, then_);
  }

  // ----- every step ----------------------------------------------------------------------

  lemma ScanTakes(w: World, a: nat, s: nat, i: nat)
    requires Inv(w) && a < |w.actors| && w.actors[a] == AllocScan(s, i) && HasEntry(w, s, i) && Entry(w, s, i).pid == 0
    ensures Inv(Goto(SetEntry(w, s, i, Entry(w, s, i).(pid := -1)), a, Owning(s, i)))
  {
    hide Balanced, Noticed, PidsUnique, Sized, Linked;
    EntryKeeps(w, a, s, i, Entry(w, s, i).(pid := -1), Owning(s, i));
  }

  lemma ScanKeeps(w: World, a: nat, s: nat, i: nat, luck: Luck)
    requires Inv(w) && a < |w.actors| && w.actors[a] == AllocScan(s, i)
    ensures Allocate(w, a, luck).Some? ==> Inv(Allocate(w, a, luck).value)
  {
    hide Balanced, Noticed, AllTold, PidsUnique, Sized, Owned, EntriesOk;
    assert Linked(w, w.actors[a]);
    if i < |w.sections[s].entries| && Entry(w, s, i).pid == 0 && !luck.spurious {
      ScanTakes(w, a, s, i);
    } else {
      PcKeeps(w, a, if i >= |w.sections[s].entries| then AllocUndo(s) else AllocScan(s, i + 1));
    }
  }

  lemma AllocateKeeps(w: World, a: nat, luck: Luck)
    requires Inv(w) && a < |w.actors| && Allocate(w, a, luck).Some?
    ensures Inv(Allocate(w, a, luck).value)
  {
    hide Balanced, Owned, PidsUnique, EntriesOk, Noticed;
    assert Linked(w, w.actors[a]);
    match w.actors[a]
    case AllocAdd(s) =>
      BusyKeeps(w, a, s, 1, if w.sections[s].busyCount + 1 <= |w.sections[s].entries| then AllocScan(s, 0) else AllocUndo(s));
    case AllocScan(s, i) =>
      ScanKeeps(w, a, s, i, luck);
    case AllocUndo(s) => BusyKeeps(w, a, s, -1, AllocNext(s));
    case AllocNext(s) => PcKeeps(w, a, Allocate(w, a, luck).value.actors[a]);
    case AllocInstall(s) =>
      if s + 1 < |w.sections| || luck.spurious {
        PcKeeps(w, a, Allocate(w, a, luck).value.actors[a]);
      } else {
        InstallKeeps(w, a, s);
      }
  }

  lemma PopulateKeeps(w: World, a: nat, luck: Luck)
    requires Inv(w) && a < |w.actors| && Populate(w, a, luck).Some?
    ensures Inv(Populate(w, a, luck).value)
  {
    hide Balanced;
    assert Linked(w, w.actors[a]);
    match w.actors[a]
    case Owning(s, i) =>
      if luck.success {
        ForkKeeps(w, a, s, i, luck.pid);
      } else {
        PcKeeps(w, a, Freeing(s, i, Return));
      }
    case Forked(s, i, c) =>
      assert Owns(w.actors[a], s, i);
      EntryKeeps(w, a, s, i, Entry(w, s, i).(deathPipe := PipeOf(c)), Piped(s, i, c));
    case Piped(s, i, c) =>
      assert Owns(w.actors[a], s, i);
      EntryKeeps(w, a, s, i, Entry(w, s, i).(pid := w.children[c].pid), Idle);
  }

  lemma TakeKeeps(w: World, a: nat, s: nat, i: nat, p: int, then_: Then)
    requires Inv(w) && a < |w.actors| && HasEntry(w, s, i) && Entry(w, s, i).pid == p > 0
    requires w.actors[a].Search? || w.actors[a].TakeReady?
    ensures Inv(Goto(SetEntry(w, s, i, Entry(w, s, i).(pid := -1)), a, Reaping(s, i, p, then_)))
  {
    assert EntryOk(w.children, Entry(w, s, i), s, i);
    EntryKeeps(w, a, s, i, Entry(w, s, i).(pid := -1), Reaping(s, i, p, then_));
  }

  lemma HandleKeeps(w: World, a: nat, luck: Luck)
    requires Inv(w) && a < |w.actors| && Handle(w, a, luck).Some?
    ensures Inv(Handle(w, a, luck).value)
  {
    assert Linked(w, w.actors[a]);
    var pc := w.actors[a];
    if pc.Search? && HasEntry(w, pc.s, pc.i) && Entry(w, pc.s, pc.i).pid == pc.p && !luck.spurious {
      TakeKeeps(w, a, pc.s, pc.i, pc.p, SearchAgain);
    } else if pc.TakeReady? && Entry(w, pc.s, pc.i).pid == pc.p && !luck.spurious {
      TakeKeeps(w, a, pc.s, pc.i, pc.p, ScanOn(pc.s, pc.i + 1));
    } else {
      HandleLinked(w, a, luck);
      PcKeeps(w, a, Handle(w, a, luck).value.actors[a]);
    }
  }

  /** Looking on leads to places that ask nothing of the table. */
  lemma HandleLinked(w: World, a: nat, luck: Luck)
    requires Inv(w) && a < |w.actors| && Handle(w, a, luck).Some? && !Handle(w, a, luck).value.actors[a].Reaping?
    ensures Linked(w, Handle(w, a, luck).value.actors[a])
    ensures Handle(w, a, luck).value == Goto(w, a, Handle(w, a, luck).value.actors[a])
    ensures forall s :: InFlight(w.actors[a], s) == 0 == InFlight(Handle(w, a, luck).value.actors[a], s)
    ensures forall s, i :: !Owns(Handle(w, a, luck).value.actors[a], s, i)
  {
    hide Balanced;
    assert Linked(w, w.actors[a]);
  }

  lemma ReleaseKeeps(w: World, a: nat)
    requires Inv(w) && a < |w.actors| && Release(w, a).Some?
    ensures Inv(Release(w, a).value)
  {
    hide Balanced, PidsUnique, Noticed, Sized;
    assert Linked(w, w.actors[a]);
    match w.actors[a]
    case Reaping(s, i, p, then_) =>
      if Dead(w.children, p).Some? {
        ReapKeeps(w, a, s, i, p, then_);
      } else {
        PcKeeps(w, a, Continue(then_));
      }
    case Notifying(s, i, c, then_) => NotifyKeeps(w, a, s, i, c, then_);
    case Freeing(s, i, then_) =>
      assert Owns(w.actors[a], s, i);
      EntryKeeps(w, a, s, i, Entry(w, s, i).(deathPipe := -1), Clearing(s, i, then_));
    case Clearing(s, i, then_) =>
      assert Owns(w.actors[a], s, i);
      EntryKeeps(w, a, s, i, Entry(w, s, i).(pid := 0), Releasing(s, then_));
    case Releasing(s, then_) => BusyKeeps(w, a, s, -1, Continue(then_));
  }

  /** Children exit, and other code of the process makes and reaps children of its own. */
  lemma ChildStepKeeps(w: World, a: nat, action: Action)
    requires Inv(w) && Next(w, a, action).Some? && (action.Exit? || action.Foreign? || action.ForeignReap?)
    ensures Inv(Next(w, a, action).value)
  {
    hide Balanced, Owned, EntriesOk, Noticed, Sized, Linked;
    ChildrenKeep(w, Next(w, a, action).value.children);
  }

  lemma NextKeeps(w: World, a: nat, action: Action)
    requires Inv(w) && Next(w, a, action).Some?
    ensures Inv(Next(w, a, action).value)
  {
    hide Allocate, Populate, Handle, Release, Balanced, Owned, EntriesOk, Noticed, PidsUnique;
    match action
    case Fork => PcKeeps(w, a, AllocAdd(0));
    case Signal => PcKeeps(w, a, WaitAny);
    case Go(luck) =>
      if Allocate(w, a, luck).Some? {
        AllocateKeeps(w, a, luck);
      } else if Populate(w, a, luck).Some? {
        PopulateKeeps(w, a, luck);
      } else if Handle(w, a, luck).Some? {
        HandleKeeps(w, a, luck);
      } else {
        ReleaseKeeps(w, a);
      }
    case _ => ChildStepKeeps(w, a, action);
  }

  ghost predicate Grown(w: World, v: World) {
    && |w.sections| <= |v.sections| && w.notices <= v.notices
    && (forall s :: 0 <= s < |w.sections| ==> |v.sections[s].entries| == |w.sections[s].entries|)
  }

  lemma AllocateGrows(w: World, a: nat, luck: Luck)
    requires a < |w.actors|
    ensures Allocate(w, a, luck).Some? ==> Grown(w, Allocate(w, a, luck).value)
    ensures Populate(w, a, luck).Some? ==> Grown(w, Populate(w, a, luck).value)
  {
    hide PidFree;
  }

  lemma HandleGrows(w: World, a: nat, luck: Luck)
    requires a < |w.actors|
    ensures Handle(w, a, luck).Some? ==> Grown(w, Handle(w, a, luck).value)
    ensures Release(w, a).Some? ==> Grown(w, Release(w, a).value)
  {
    hide Dead;
  }

  /** The chain only grows, and what a pipe has been told stays told. */
  lemma NextGrows(w: World, a: nat, action: Action)
    requires Next(w, a, action).Some?
    ensures Grown(w, Next(w, a, action).value)
  {
    if action.Go? {
      AllocateGrows(w, a, action.luck);
      HandleGrows(w, a, action.luck);
    }
    hide Allocate, Populate, Handle, Release, PidFree;
  }

  // ----- whole runs ----------------------------------------------------------------------

  datatype Step = Step(actor: nat, action: Action)

  ghost predicate Run(worlds: seq<World>, steps: seq<Step>) {
    && |worlds| == |steps| + 1
    && forall i :: 0 <= i < |steps| ==> StepTaken(worlds[i], steps[i], worlds[i + 1])
  }

  ghost predicate StepTaken(w: World, step: Step, v: World) {
    Next(w, step.actor, step.action) == Some(v)
  }

  predicate AtRest(w: World) {
    && |w.sections| == 1 && w.sections[0] == Section(0, seq(CHILDREN_IN_SMALL_ARRAY, _ => ProcessInfo(0, 0)))
    && w.children == [] && w.notices == [] && forall a :: 0 <= a < |w.actors| ==> w.actors[a] == Idle
  }

  lemma Starts(w: World)
    requires AtRest(w)
    ensures Inv(w)
  {
    OccupiedNone(w.sections[0].entries);
    FlightNone(w.actors, 0);
  }

  lemma {:induction false} RunKeeps(worlds: seq<World>, steps: seq<Step>)
    requires Run(worlds, steps) && AtRest(worlds[0])
    ensures Inv(worlds[|steps|])
  {
    if steps == [] {
      Starts(worlds[0]);
    } else {
      var n := |steps| - 1;
      RunKeeps(worlds[..n + 1], steps[..n]);
      assert StepTaken(worlds[n], steps[n], worlds[n + 1]);
      NextKeeps(worlds[n], steps[n].actor, steps[n].action);
    }
  }

  /** One notice is about child `c`, and it went to the write end of its own pipe. */
  predicate ToldOnce(notices: seq<Notice>, c: nat) {
    exists n :: 0 <= n < |notices| && notices[n] == Notice(PipeOf(c), c) && OnlyOne(notices, n)
  }

  predicate OnlyOne(notices: seq<Notice>, n: nat)
    requires n < |notices|
  {
    forall m :: 0 <= m < |notices| && m != n ==> notices[m].child != notices[n].child
  }

  /** After any run: each counter is the occupied entries plus what is in flight, so it is never
      negative; an entry has one owner at most; each death was told at most once, to the
      child's own pipe; and once no thread is about to tell one, every child of `forkfd` that has
      been reaped has been told of, exactly once. */
  lemma RunSafe(worlds: seq<World>, steps: seq<Step>)
    requires Run(worlds, steps) && AtRest(worlds[0])
    ensures var w := worlds[|steps|];
      && (forall s :: 0 <= s < |w.sections| ==>
          w.sections[s].busyCount == Occupied(w.sections[s].entries) + AllInFlight(w.actors, s) >= 0)
      && (forall a, b, s, i :: 0 <= a < |w.actors| && 0 <= b < |w.actors| && Owns(w.actors[a], s, i) && Owns(w.actors[b], s, i) ==> a == b)
      && (forall n :: 0 <= n < |w.notices| ==> w.notices[n].pipe == PipeOf(w.notices[n].child))
      && (forall m, n :: 0 <= m < n < |w.notices| ==> w.notices[m].child != w.notices[n].child && w.notices[m].pipe != w.notices[n].pipe)
      && (forall c :: 0 <= c < |w.children| && w.children[c].home.Some? && w.children[c].life == Reaped ==>
            (exists a :: 0 <= a < |w.actors| && w.actors[a].Notifying? && w.actors[a].c == c) || ToldOnce(w.notices, c))
  {
    RunKeeps(worlds, steps);
    OnceEnough(worlds[|steps|]);
  }

  lemma OnceEnough(w: World)
    requires Inv(w)
    ensures forall c :: 0 <= c < |w.children| && w.children[c].home.Some? && w.children[c].life == Reaped ==>
      (exists a :: 0 <= a < |w.actors| && w.actors[a].Notifying? && w.actors[a].c == c) || ToldOnce(w.notices, c)
  {
    forall c: nat | c < |w.children| && w.children[c].home.Some? && w.children[c].life == Reaped && !Telling(w.actors, c)
      ensures ToldOnce(w.notices, c)
    {
      var n :| 0 <= n < |w.notices| && w.notices[n].child == c;
      assert w.notices[n] == Notice(PipeOf(c), c);
    }
  }

  /** `assert(header->busyCount >= 0)` of `freeInfo` holds, whatever the others do. */
  lemma FreeInfoAssert(w: World, a: nat)
    requires Inv(w) && a < |w.actors| && w.actors[a].Releasing?
    ensures w.actors[a].s < |w.sections| && w.sections[w.actors[a].s].busyCount - 1 >= 0
  {
    assert Linked(w, w.actors[a]);
    FlightOne(w.actors, a, w.actors[a].s);
  }

  /** A counter that passes the guard means there is an entry to find. */
  lemma GuardMeansFree(w: World, s: nat)
    requires Inv(w) && s < |w.sections| && w.sections[s].busyCount + 1 <= |w.sections[s].entries|
    ensures exists i :: 0 <= i < |w.sections[s].entries| && w.sections[s].entries[i].pid == 0
  {
    if forall i :: 0 <= i < |w.sections[s].entries| ==> w.sections[s].entries[i].pid != 0 {
      OccupiedFull(w.sections[s].entries);
    }
  }
}

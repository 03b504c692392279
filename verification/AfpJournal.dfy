/** Moves and deletions of host objects, with the catalogue file as their write-ahead journal.

The steps of `moveHostPath`, `deleteHostPath`, `recoverCatalogMove`, `finishCatalogMove` and `finishCatalogDelete`
are taken one at a time. Between any two the process may be killed or the power may fail. A rename or removal is
atomic, and a power failure may undo it until the directories it touched have been synced. So is the replacement of the
catalogue file, which a power failure may take back until its own directory has been synced. */
module AfpJournal {
  import opened AfpPath
  import opened AfpCatalog
  import opened AfpCodec
  import opened AfpServer

  // ----- the shared folder

  /** Host objects by path, and AppleDouble sidecars by the path of the object they belong to. */
  datatype Disk = Disk(data: map<string, string>, meta: map<string, string>)

  /** Objects live in folders that exist, and so do sidecars below a folder. */
  ghost predicate Closed(d: Disk) {
    && (forall p, q :: p in d.data && q != "" && q + "/" <= p ==> q in d.data)
    && (forall p, q :: p in d.meta && q != "" && q + "/" <= p ==> q in d.data)
  }

  /** The entries at or below `s`, moved to `t`. */
  function Moved(m: map<string, string>, s: string, t: string): map<string, string> {
    forall p, q | p in m && q in m && Under(p, s) && Under(q, s) && Rebase(p, s, t) == Rebase(q, s, t)
      ensures p == q
    { RebaseInjective(p, q, s, t); }
    map p | p in m && Under(p, s) :: Rebase(p, s, t) := m[p]
  }

  function Outside(m: map<string, string>, s: string): map<string, string> {
    map p | p in m && !Under(p, s) :: m[p]
  }

  /** What an operation has changed so far: `data` and `meta` say whether the host object and its own sidecar have
  been renamed or removed. The sidecars of what lies in a folder travel with the folder. */
  function View(base: Disk, j: Journal, data: bool, meta: bool): Disk {
    var s, t := j.source, j.destination;
    var objects := if !data then base.data else if j.deleting then Outside(base.data, s)
                   else Outside(base.data, s) + Moved(base.data, s, t);
    var below := base.meta - {s};
    var inner := if !data then below else if j.deleting then Outside(below, s)
                 else Outside(below, s) + Moved(below, s, t);
    var own := if s !in base.meta then map[] else if !meta then map[s := base.meta[s]]
               else if j.deleting then map[] else map[t := base.meta[s]];
    Disk(objects, inner + own)
  }

  /** Not done; done but not yet durable, with the parents still to be synced; durable. */
  datatype Mark = Undone | Loose(source: bool, destination: bool) | Done

  /** `inner` are the sidecars of a folder to be deleted that are gone before the folder is. No sync covers them. */
  datatype Host = Host(base: Disk, data: Mark, meta: Mark, inner: set<string>)

  function Now(h: Host, j: Journal): Disk {
    Bared(View(h.base, j, !h.data.Undone?, !h.meta.Undone?), h.inner)
  }

  function Bared(d: Disk, inner: set<string>): Disk {
    Disk(d.data, d.meta - inner)
  }

  /** Something other than a sidecar lies in the folder. */
  predicate Occupied(d: Disk, top: string) {
    exists p :: p in d.data && top + "/" <= p
  }

  /** The sidecars of what lay in a folder. */
  function Below(d: Disk, top: string): set<string> {
    set p | p in d.meta && top + "/" <= p
  }

  function SyncSource(m: Mark): Mark {
    if m.Loose? then if m.destination then Loose(false, true) else Done else m
  }

  function SyncDestination(m: Mark): Mark {
    if m.Loose? then if m.source then Loose(true, false) else Done else m
  }

  /** After a power failure. */
  function Survive(m: Mark, kept: bool): Mark {
    if m.Loose? then if kept then Done else Undone else m
  }

  // ----- the server

  datatype Pc =
    | Prepare | Clean | Mutate | SyncFrom | SyncTo | Finish | MetaFrom | MetaTo | DataFrom | DataTo | Conclude | Abort

  datatype Process = Stopped | Idle | Running(memory: Snapshot, pc: Pc)

  /** `saved` is what the catalogue file holds, and `older` what a power failure may make it hold again. */
  datatype State = State(host: Host, saved: Snapshot, older: seq<Snapshot>, process: Process, j: Journal)

  datatype Action =
    | Step | Wipe(p: string) | Tear | Refuse | Kill | PowerLoss(data: bool, meta: bool, version: nat, back: set<string>)
    | Start

  /** A commit is known durable once the process goes on. */
  function Committed(s: State, c: Catalog, j: Journal): State {
    s.(saved := Snapshot(Normal(c), j), older := [])
  }

  /** The process stops when it has replaced the catalogue file, but not yet synced it. */
  function Torn(s: State): State {
    if s.process.Running? && s.process.pc in {Prepare, Conclude, Abort}
    then s.(saved := DoStep(s).saved, older := s.older + [s.saved], process := Stopped)
    else s.(process := Stopped)
  }

  function Survivor(s: State, version: nat): Snapshot {
    if version < |s.older| then s.older[version] else s.saved
  }

  function Goto(s: State, pc: Pc): State
    requires s.process.Running?
  {
    s.(process := s.process.(pc := pc))
  }

  /** `loadCatalog` and `recoverCatalogMove`: where a restarted server picks the journal up. The loader refuses a
  journal whose source is not catalogued, and the recovery one whose source is bound to another object. */
  function Recover(now: Disk, snap: Snapshot): Process {
    var j, c := snap.journal, snap.catalog;
    var source := j.source in now.data;
    var actual := HostIdentity(now.data, if source then j.source else j.destination);
    if j.source == "" then Idle
    else if j.source !in c.paths then Stopped
    else if c.paths[j.source] in c.hosts && (source || !j.deleting) && actual != c.hosts[c.paths[j.source]] then Stopped
    else if j.deleting then Running(snap, if source then Abort else Finish)
    else
      var destination := j.destination in now.data;
      if source && !destination then Running(snap, Abort)
      else if !source && destination then Running(snap, Finish)
      else Stopped
  }

  /** The sidecar part of `finishCatalogMove` and `finishCatalogDelete`. */
  function Finished(s: State, now: Disk): State
    requires s.process.Running?
  {
    var j := s.process.memory.journal;
    if !j.sidecar then Goto(s, DataFrom)
    else if j.deleting then
      Goto(if j.source in now.meta then s.(host := s.host.(meta := Loose(true, false))) else s, MetaFrom)
    else if (j.source in now.meta) == (j.destination in now.meta) then s.(process := Stopped)
    else
      Goto(if j.source in now.meta then s.(host := s.host.(meta := Loose(true, true))) else s, MetaFrom)
  }

  /** The commit that ends an operation: CNIDs follow and the journal is cleared in one write. */
  function Concluded(s: State): State
    requires s.process.Running?
  {
    var j, c := s.process.memory.journal, s.process.memory.catalog;
    Committed(s, if j.deleting then Drop(c, j.source) else Move(c, j.source, j.destination), CLEAR).(process := Idle)
  }

  function DoStep(s: State): State {
    if !s.process.Running? then s else
    var h, j, c := s.host, s.process.memory.journal, s.process.memory.catalog;
    match s.process.pc
    case Prepare => Goto(Committed(s, c, j), if j.deleting then Clean else Mutate)
    case Clean => Goto(s.(host := h.(inner := Below(h.base, j.source))), Mutate)
    case Mutate =>
      if j.deleting then Goto(s.(host := h.(data := Loose(true, false))), SyncFrom)
      else if Under(j.destination, j.source) then Goto(s, Abort)
      else Goto(s.(host := h.(data := Loose(true, true))), SyncFrom)
    case SyncFrom => Goto(s.(host := h.(data := SyncSource(h.data))), if j.deleting then Finish else SyncTo)
    case SyncTo => Goto(s.(host := h.(data := SyncDestination(h.data))), Finish)
    case Finish => Finished(s, Now(h, s.j))
    case MetaFrom => Goto(s.(host := h.(meta := SyncSource(h.meta))), if j.deleting then DataFrom else MetaTo)
    case MetaTo => Goto(s.(host := h.(meta := SyncDestination(h.meta))), DataFrom)
    case DataFrom => Goto(s.(host := h.(data := SyncSource(h.data))), if j.deleting then Conclude else DataTo)
    case DataTo => Goto(s.(host := h.(data := SyncDestination(h.data))), Conclude)
    case Conclude => Concluded(s)
    case Abort => Committed(s, c, CLEAR).(process := Idle)
  }

  /** One event. `Wipe` removes one sidecar of a folder to be deleted, and the step at `Clean` what is left of them.
  `Refuse` is a host call that reports an error: fatal anywhere but at the rename or the removals. */
  function Next(s: State, a: Action): State {
    match a
    case Step => DoStep(s)
    case Refuse =>
      if !s.process.Running? then s
      else if s.process.pc.Mutate? || s.process.pc.Clean? then Goto(s, Abort)
      else s.(process := Stopped)
    case Wipe(p) =>
      if s.process.Running? && s.process.pc.Clean? && p in Below(s.host.base, s.j.source)
      then s.(host := s.host.(inner := s.host.inner + {p})) else s
    case Kill => s.(process := Stopped)
    case Tear => Torn(s)
    case PowerLoss(data, meta, version, back) =>
      State(Host(s.host.base, Survive(s.host.data, data), Survive(s.host.meta, meta), s.host.inner - back),
            Survivor(s, version), [], Stopped, s.j)
    case Start => if s.process.Stopped? then s.(process := Recover(Now(s.host, s.j), s.saved)) else s
  }

  function Run(s: State, acts: seq<Action>): State
    decreases |acts|
  {
    if acts == [] then s else Run(Next(s, acts[0]), acts[1..])
  }

  // ----- what an operation starts from

  /** The checks of `moveHostPath` and `deleteHostPath` have passed. */
  ghost predicate Fits(base: Disk, j: Journal) {
    && IsPath(j.source) && j.source != "" && Closed(base)
    && (if j.deleting then j.destination == "" else IsPath(j.destination))
    && j.source in base.data && j.sidecar == (j.source in base.meta)
    && (if j.deleting then !Occupied(base, j.source)
        else j.destination !in base.data && j.destination !in base.meta)
  }

  /** The source has then been looked up, and nothing is pending. The look-up may have left the source uncatalogued, or
  bound to another object. */
  ghost predicate Begins(base: Disk, c: Catalog, j: Journal) {
    Sound(c) && Fits(base, j)
  }

  function Begin(base: Disk, c: Catalog, j: Journal): State {
    State(Host(base, Undone, Undone, {}), Snapshot(Normal(c), CLEAR), [], Running(Snapshot(c, j), Prepare), j)
  }

  // ----- outcomes

  /** Nothing the operation did can still be undone by a power failure. */
  predicate Settled(h: Host) {
    !h.data.Loose? && !h.meta.Loose?
  }

  /** Nothing happened to the object: host objects, its sidecar and CNIDs are as before, and the journal is clear. A
  deletion may have removed sidecars of what once lay in the folder. */
  ghost predicate AllOld(s: State, c: Catalog) {
    && Settled(s.host) && Now(s.host, s.j) == Bared(s.host.base, s.host.inner)
    && s.saved.catalog.paths == c.paths && s.saved.journal == CLEAR
  }

  function NewCatalog(c: Catalog, j: Journal): Catalog {
    if j.deleting then Drop(c, j.source) else Move(c, j.source, j.destination)
  }

  ghost function NewPaths(c: Catalog, j: Journal): map<string, int> {
    NewCatalog(c, j).paths
  }

  /** Everything happened: object, sidecar and CNIDs are all at the new place, or all gone. */
  ghost predicate AllNew(s: State, c: Catalog) {
    && Settled(s.host) && Now(s.host, s.j) == View(s.host.base, s.j, true, true)
    && s.saved.catalog.paths == NewPaths(c, s.j) && s.saved.journal == CLEAR
  }

  ghost predicate Atomic(s: State, c: Catalog) {
    s.process.Idle? ==> AllOld(s, c) || AllNew(s, c)
  }

  // ----- what the folder shows

  lemma {:induction false} MovedHas(m: map<string, string>, s: string, t: string, p: string)
    requires p in m && Under(p, s)
    ensures Rebase(p, s, t) in Moved(m, s, t) && Moved(m, s, t)[Rebase(p, s, t)] == m[p]
  {
    forall q | q in m && Under(q, s) && Rebase(q, s, t) == Rebase(p, s, t)
      ensures q == p
    {
      RebaseInjective(p, q, s, t);
    }
  }

  lemma {:induction false} MovedIsUnder(m: map<string, string>, s: string, t: string, q: string)
    requires q in Moved(m, s, t)
    ensures Under(q, t) && (q == t ==> s in m)
  {
    var p :| p in m && Under(p, s) && Rebase(p, s, t) == q;
    RebaseUnder(p, s, t);
    if q == t {
      RebaseInjective(p, s, s, t);
    }
  }

  /** The rename takes the object from the one name to the other. */
  lemma {:induction false} ViewData(base: Disk, c: Catalog, j: Journal, data: bool, meta: bool)
    requires Begins(base, c, j) && (data && !j.deleting ==> !Under(j.destination, j.source))
    ensures var now := View(base, j, data, meta).data; var at := if data then j.destination else j.source;
      && (j.source in now <==> !data)
      && (!j.deleting ==> (j.destination in now <==> data))
      && (!data || !j.deleting ==> now[at] == base.data[j.source])
  {
    hide Sound, Moved;
    var s, t := j.source, j.destination;
    if data && !j.deleting {
      MovedHas(base.data, s, t, s);
      assert Rebase(s, s, t) == t;
      if s in Moved(base.data, s, t) { MovedIsUnder(base.data, s, t, s); PathIsNotEmpty(t); }
    }
  }

  /** And so does the sidecar's. */
  lemma {:induction false} ViewMeta(base: Disk, c: Catalog, j: Journal, data: bool, meta: bool)
    requires Begins(base, c, j) && j.sidecar && (data && !j.deleting ==> !Under(j.destination, j.source))
    ensures var now := View(base, j, data, meta).meta;
      && (j.source in now <==> !meta)
      && (!j.deleting ==> (j.destination in now <==> meta))
  {
    hide Sound, Moved;
    var s, t := j.source, j.destination;
    var below := base.meta - {s};
    if data && !j.deleting {
      if s in Moved(below, s, t) { MovedIsUnder(below, s, t, s); PathIsNotEmpty(t); }
      if t in Moved(below, s, t) { MovedIsUnder(below, s, t, t); }
    }
  }

  lemma {:induction false} NowIsView(base: Disk, j: Journal, meta: bool)
    requires j.source !in base.meta
    ensures View(base, j, true, meta) == View(base, j, true, true)
    ensures View(base, j, false, meta) == View(base, j, false, false)
  {
  }

  lemma {:induction false} ViewUnchanged(base: Disk, j: Journal)
    ensures View(base, j, false, false) == base
  {
    var v := View(base, j, false, false);
    assert v.meta == base.meta;
  }

  lemma {:induction false} PathsDecide(c: Catalog, d: Catalog, j: Journal)
    requires c.paths == d.paths
    ensures NewPaths(c, j) == NewPaths(d, j)
  {
    assert Subtree(c, j.source) == Subtree(d, j.source);
    assert Rewritten(c, j.source, j.destination) == Rewritten(d, j.source, j.destination);
  }

  // ----- the invariant

  ghost predicate Untouched(h: Host) {
    h.data.Undone? && h.meta.Undone?
  }

  /** Nothing has been done to the folder. */
  ghost predicate Rested(h: Host) {
    Untouched(h) && h.inner == {}
  }

  ghost predicate Complete(h: Host, j: Journal) {
    h.data.Done? && (j.sidecar ==> h.meta.Done?)
  }

  /** Where a running operation is, told by what it has done to the folder. */
  ghost predicate PcFits(pc: Pc, h: Host, j: Journal) {
    match pc
    case Prepare => false
    case Clean => Untouched(h) && j.deleting
    case Mutate => Untouched(h)
    case Abort => Untouched(h)
    case SyncFrom => h.data == Loose(true, !j.deleting) && h.meta.Undone?
    case SyncTo => h.data == Loose(false, true) && h.meta.Undone? && !j.deleting
    case Finish => !h.data.Undone?
    case MetaFrom => !h.data.Undone? && !h.meta.Undone? && j.sidecar
    case MetaTo => !h.data.Undone? && !h.meta.Undone? && j.sidecar && (h.meta.Loose? ==> !h.meta.source) && !j.deleting
    case DataFrom => !h.data.Undone? && (j.sidecar ==> h.meta.Done?)
    case DataTo => !h.data.Undone? && (j.sidecar ==> h.meta.Done?) && (h.data.Loose? ==> !h.data.source) && !j.deleting
    case Conclude => Complete(h, j)
  }

  /** The journal is on disk. */
  ghost predicate Pending(s: State, c: Catalog) {
    && s.saved == Snapshot(Normal(c), s.j)
    && match s.process
       case Stopped => s.host.data.Undone? ==> s.host.meta.Undone?
       case Idle => false
       case Running(_, pc) => PcFits(pc, s.host, s.j)
  }

  /** The journal is clear: not written yet, or the operation is over. */
  ghost predicate Clear(s: State, c: Catalog) {
    && s.saved.journal == CLEAR
    && (s.process.Running? ==> s.process.pc.Prepare?)
    && if s.saved.catalog.paths == c.paths && Untouched(s.host) then true
       else !s.process.Running? && s.saved.catalog.paths == NewPaths(c, s.j) && Complete(s.host, s.j)
  }

  /** A version of the file that a power failure may bring back: the journal, or the catalogue before or after. */
  ghost predicate Fine(h: Host, v: Snapshot, c: Catalog, j: Journal) {
    || v == Snapshot(Normal(c), j)
    || (v.journal == CLEAR && v.catalog.paths == c.paths && Untouched(h))
    || (v.journal == CLEAR && v.catalog.paths == NewPaths(c, j) && Complete(h, j))
  }

  /** While such versions are about, nothing changes in the folder. */
  ghost predicate Still(s: State, c: Catalog) {
    && (forall i :: 0 <= i < |s.older| ==> Fine(s.host, s.older[i], c, s.j))
    && (Untouched(s.host) || (Complete(s.host, s.j) && s.saved.journal == CLEAR && !s.process.Running?))
    && (s.process.Running? ==> s.process.pc.Abort?)
  }

  /** Only a deletion removes sidecars before its object, and only those below it. */
  ghost predicate InnerFits(base: Disk, inner: set<string>, j: Journal) {
    (if j.deleting then inner <= Below(base, j.source) else inner == {}) && j.source !in inner
  }

  ghost predicate Core(s: State, c: Catalog) {
    && (s.older != [] ==> Still(s, c)) && InnerFits(s.host.base, s.host.inner, s.j)
    && Begins(s.host.base, c, s.j)
    && (!s.j.sidecar ==> s.host.meta.Undone?)
    && (s.j.deleting && s.host.data.Loose? ==> !s.host.data.destination)
    && (s.j.deleting && s.host.meta.Loose? ==> !s.host.meta.destination)
    && (!s.j.deleting && Under(s.j.destination, s.j.source) ==> s.host.data.Undone?)
    && (s.process.Running? ==> s.process.memory.journal == s.j && s.process.memory.catalog.paths == c.paths)
    && (s.process.Running? ==> Normal(s.process.memory.catalog) == Normal(c) && Sound(s.process.memory.catalog))
    && (Pending(s, c) || Clear(s, c))
  }

  /** The sidecar never runs ahead of an object whose move could still be undone. */
  ghost predicate Careful(s: State) {
    s.saved.journal == s.j ==>
      && (!s.host.meta.Undone? ==> s.host.data.Done?)
      && (s.j.sidecar && s.process.Running? && s.process.pc in {Finish, MetaFrom, MetaTo, DataFrom, DataTo, Conclude}
          ==> s.host.data.Done?)
  }

  /** A pending operation with a sidecar whose change to the object is not durable. */
  ghost predicate Exposed(s: State) {
    s.saved.journal == s.j && s.j.sidecar && s.host.data.Loose?
  }

  /** The catalogue binds the source of the operation to the object it is about. */
  ghost predicate Traced(base: Disk, c: Catalog, j: Journal) {
    Known(c, j.source, HostIdentity(base.data, j.source))
  }

  /** The loader takes the file, and the recovery finds the object it looks for. A deletion that has removed its object
  is not asked which object it was. */
  ghost predicate Recoverable(s: State, c: Catalog) {
    s.saved.journal == s.j ==>
      Traced(s.host.base, c, s.j) || (s.j.deleting && !s.host.data.Undone? && s.j.source in c.paths)
  }

  lemma {:induction false} CoreIsAtomic(s: State, c: Catalog)
    requires Core(s, c)
    ensures Atomic(s, c)
  {
    hide Sound, Begins, NewPaths, View, Normal, Bared, Below;
    if s.process.Idle? {
      SidecarOrNot(s.host.base, c, s.j);
      ViewUnchanged(s.host.base, s.j);
      GoneWithFolder(s.host.base, s.j, s.host.inner, true);
    }
  }

  /** Once the folder is gone it makes no difference which of its sidecars went before it. */
  lemma {:induction false} GoneWithFolder(base: Disk, j: Journal, inner: set<string>, meta: bool)
    requires InnerFits(base, inner, j)
    ensures Bared(View(base, j, true, meta), inner) == View(base, j, true, meta)
  {
    hide Moved;
    var v := View(base, j, true, meta);
    assert forall p :: p in Below(base, j.source) ==> Under(p, j.source);
    assert v.meta - inner == v.meta;
  }

  lemma {:induction false} SidecarOrNot(base: Disk, c: Catalog, j: Journal)
    requires Begins(base, c, j)
    ensures !j.sidecar ==> View(base, j, true, false) == View(base, j, true, true)
  {
    if !j.sidecar { NowIsView(base, j, false); }
  }

  /** What the server does next keeps the invariant. */
  lemma {:induction false} StepKeepsCore(s: State, c: Catalog)
    requires Core(s, c) && s.process.Running?
    ensures Core(DoStep(s), c)
    ensures Careful(s) ==> Careful(DoStep(s))
  {
    hide Sound, Begins, NewPaths, View, Normal, InnerFits;
    var pc := s.process.pc;
    NotClear(s, c);
    if pc.Clean? {
      CleanKeepsCore(s, c);
    } else if pc.Finish? {
      FinishKeepsCore(s, c);
    } else if pc.Conclude? {
      ConcludeKeepsCore(s, c);
    } else if pc.Abort? {
      AbortKeepsCore(s, c);
    }
  }

  lemma {:induction false} CleanKeepsCore(s: State, c: Catalog)
    requires Core(s, c) && s.process.Running? && s.process.pc.Clean?
    ensures Core(DoStep(s), c)
    ensures Careful(s) ==> Careful(DoStep(s))
  {
    hide Sound, Begins, NewPaths, View, Normal;
    BelowIsNotTop(s.host.base, s.j.source);
  }

  lemma {:induction false} NotClear(s: State, c: Catalog)
    requires Core(s, c)
    ensures s.j != CLEAR
  {
  }

  lemma {:induction false} FinishKeepsCore(s: State, c: Catalog)
    requires Core(s, c) && s.process.Running? && s.process.pc.Finish?
    ensures Core(DoStep(s), c)
    ensures Careful(s) ==> Careful(DoStep(s))
  {
    hide Sound, Begins, NewPaths, View, Normal;
    NotClear(s, c);
    if s.j.sidecar {
      ViewMeta(s.host.base, c, s.j, true, !s.host.meta.Undone?);
    }
  }

  lemma {:induction false} ConcludeKeepsCore(s: State, c: Catalog)
    requires Core(s, c) && s.process.Running? && s.process.pc.Conclude?
    ensures Core(DoStep(s), c)
    ensures Careful(s) ==> Careful(DoStep(s))
  {
    hide Sound, Begins, View, Drop, Move;
    NotClear(s, c);
    PathsDecide(c, s.process.memory.catalog, s.j);
    var d := if s.j.deleting then Drop(s.process.memory.catalog, s.j.source)
             else Move(s.process.memory.catalog, s.j.source, s.j.destination);
    NormalPaths(d);
  }

  lemma {:induction false} AbortKeepsCore(s: State, c: Catalog)
    requires Core(s, c) && s.process.Running? && s.process.pc.Abort?
    ensures Core(DoStep(s), c)
    ensures Careful(s) ==> Careful(DoStep(s))
  {
    hide Sound, Begins, View, NewPaths;
    NotClear(s, c);
    NormalPaths(s.process.memory.catalog);
  }

  lemma {:induction false} NormalPaths(c: Catalog)
    ensures Normal(c).paths == c.paths
  {
  }

  /** A restart picks the operation up where the folder says it is. */
  lemma {:induction false} StartKeepsCore(s: State, c: Catalog)
    requires Core(s, c) && s.process.Stopped?
    ensures Core(Next(s, Start), c)
    ensures Careful(s) && !Exposed(s) ==> Careful(Next(s, Start))
  {
    hide Sound, Begins, View, NewPaths, Normal;
    NotClear(s, c);
    NormalTwice(c, s.host.base, s.j);
    NormalPaths(c);
    ViewData(s.host.base, c, s.j, !s.host.data.Undone?, !s.host.meta.Undone?);
  }

  lemma {:induction false} NormalTwice(c: Catalog, base: Disk, j: Journal)
    requires Begins(base, c, j)
    ensures Normal(Normal(c)) == Normal(c) && Sound(Normal(c)) && j.source != ""
  {
    NormalIsSound(c);
    NormalIsSound(Normal(c));
  }

  /** A power failure keeps the invariant as long as the sidecar is not ahead. */
  lemma {:induction false} LossKeepsCore(s: State, c: Catalog, a: Action)
    requires Core(s, c) && Careful(s) && a.PowerLoss?
    ensures Core(Next(s, a), c) && Careful(Next(s, a))
  {
    hide Sound, Begins, View, NewPaths, Normal;
    NotClear(s, c);
    if a.version < |s.older| { assert Fine(s.host, s.older[a.version], c, s.j); }
  }

  /** A commit cut short between its rename and its sync keeps the invariant too. */
  lemma {:induction false} TearKeepsCore(s: State, c: Catalog)
    requires Core(s, c) && s.process.Running? && s.process.pc in {Prepare, Conclude, Abort}
    ensures Core(Next(s, Tear), c)
    ensures Careful(s) ==> Careful(Next(s, Tear))
  {
    hide Core, Careful, Still, Normal, NewPaths;
    var u, t := Next(DoStep(s), Kill), Next(s, Tear);
    StepKeepsCore(s, c);
    HaltKeepsCore(DoStep(s), c, Kill);
    CommitsSettle(s);
    TornIsStill(s, c);
    OlderKeepsCore(u, c, t.older);
  }

  /** A commit that goes through leaves nothing older, and touches nothing else. */
  lemma {:induction false} CommitsSettle(s: State)
    requires s.process.Running? && s.process.pc in {Prepare, Conclude, Abort}
    ensures DoStep(s).older == [] && DoStep(s).host == s.host
    ensures Next(s, Tear) == Next(DoStep(s), Kill).(older := s.older + [s.saved])
  {
    hide Normal, Move, Drop;
  }

  lemma {:induction false} OlderKeepsCore(s: State, c: Catalog, older: seq<Snapshot>)
    requires Core(s, c) && s.process.Stopped? && Still(s.(older := older), c)
    ensures Core(s.(older := older), c)
    ensures Careful(s) ==> Careful(s.(older := older))
  {
    hide Sound, Begins, View, NewPaths, Normal;
  }

  lemma {:induction false} TornIsStill(s: State, c: Catalog)
    requires Core(s, c) && s.process.Running? && s.process.pc in {Prepare, Conclude, Abort}
    ensures Still(Next(s, Tear), c)
  {
    hide Sound, Begins, View, NewPaths, Normal, Move, Drop;
    NotClear(s, c);
    var t := Next(s, Tear);
    forall i | 0 <= i < |t.older|
      ensures Fine(t.host, t.older[i], c, t.j)
    {
      if i < |s.older| { assert Fine(s.host, s.older[i], c, s.j); }
    }
  }

  /** So does the loss of a sidecar in a folder about to be deleted. */
  lemma {:induction false} WipeKeepsCore(s: State, c: Catalog, p: string)
    requires Core(s, c)
    ensures Core(Next(s, Wipe(p)), c)
    ensures Careful(s) ==> Careful(Next(s, Wipe(p)))
  {
    hide Sound, Begins, View, NewPaths, Normal;
    BelowIsNotTop(s.host.base, s.j.source);
  }

  lemma {:induction false} BelowIsNotTop(d: Disk, top: string)
    ensures top !in Below(d, top)
  {
  }

  lemma {:induction false} HaltKeepsCore(s: State, c: Catalog, a: Action)
    requires Core(s, c) && (a.Kill? || a.Refuse?)
    ensures Core(Next(s, a), c)
    ensures Careful(s) ==> Careful(Next(s, a))
  {
    hide Sound, Begins, View, NewPaths, Normal;
    NotClear(s, c);
  }

  // ----- whole runs

  lemma {:induction false} BeginIsCore(base: Disk, c: Catalog, j: Journal)
    requires Begins(base, c, j)
    ensures Core(Begin(base, c, j), c) && Careful(Begin(base, c, j))
  {
  }

  lemma {:induction false} NextKeepsCore(s: State, c: Catalog, a: Action)
    requires Core(s, c) && (a.PowerLoss? ==> Careful(s))
    ensures Core(Next(s, a), c)
    ensures Careful(s) && !(a.Start? && s.process.Stopped? && Exposed(s)) ==> Careful(Next(s, a))
  {
    hide Core, Careful, Exposed;
    match a {
      case Step => if s.process.Running? { StepKeepsCore(s, c); }
      case Wipe(p) => WipeKeepsCore(s, c, p);
      case Refuse => HaltKeepsCore(s, c, a);
      case Kill => HaltKeepsCore(s, c, a);
      case Tear =>
        if s.process.Running? && s.process.pc in {Prepare, Conclude, Abort} {
          TearKeepsCore(s, c);
        } else {
          HaltKeepsCore(s, c, Kill);
        }
      case PowerLoss(_, _, _, _) => LossKeepsCore(s, c, a);
      case Start => if s.process.Stopped? { StartKeepsCore(s, c); }
    }
  }

  /** The server is never restarted while the object's change is still undurable and a sidecar is due. */
  ghost predicate Sheltered(s: State, acts: seq<Action>)
    decreases |acts|
  {
    acts == [] || (!(acts[0].Start? && s.process.Stopped? && Exposed(s)) && Sheltered(Next(s, acts[0]), acts[1..]))
  }

  lemma {:induction false} ShelteredRunIsAtomic(s: State, c: Catalog, acts: seq<Action>)
    requires Core(s, c) && Careful(s) && Sheltered(s, acts)
    ensures Atomic(Run(s, acts), c)
    decreases |acts|
  {
    hide Core, Careful, Exposed, Atomic, Next;
    if acts == [] {
      CoreIsAtomic(s, c);
    } else {
      NextKeepsCore(s, c, acts[0]);
      ShelteredRunIsAtomic(Next(s, acts[0]), c, acts[1..]);
    }
  }

  /** A move or deletion, interrupted anywhere by any number of kills and power failures, in recovery too, leaves
  object, sidecar and CNIDs all old or all new once a recovery completes: provided that no restart finds the
  object's change undurable with a sidecar still to follow, or that none would take the operation up. */
  lemma {:induction false} OperationIsAtomic(base: Disk, c: Catalog, j: Journal, acts: seq<Action>)
    requires Begins(base, c, j) && (Traced(base, c, j) ==> Sheltered(Begin(base, c, j), acts))
    ensures Atomic(Run(Begin(base, c, j), acts), c)
  {
    BeginIsCore(base, c, j);
    if Traced(base, c, j) {
      ShelteredRunIsAtomic(Begin(base, c, j), c, acts);
    } else {
      UntracedRunIsAtomic(Begin(base, c, j), c, acts);
    }
  }

  lemma {:induction false} KilledRunIsAtomic(s: State, c: Catalog, acts: seq<Action>)
    requires Core(s, c) && forall i :: 0 <= i < |acts| ==> !acts[i].PowerLoss?
    ensures Atomic(Run(s, acts), c)
    decreases |acts|
  {
    hide Core, Careful, Exposed, Atomic, Next;
    if acts == [] {
      CoreIsAtomic(s, c);
    } else {
      NextKeepsCore(s, c, acts[0]);
      KilledRunIsAtomic(Next(s, acts[0]), c, acts[1..]);
    }
  }

  /** Killing the process alone, however often and wherever, is always harmless. */
  lemma {:induction false} KillsAreHarmless(base: Disk, c: Catalog, j: Journal, acts: seq<Action>)
    requires Begins(base, c, j) && forall i :: 0 <= i < |acts| ==> !acts[i].PowerLoss?
    ensures Atomic(Run(Begin(base, c, j), acts), c)
  {
    BeginIsCore(base, c, j);
    KilledRunIsAtomic(Begin(base, c, j), c, acts);
  }

  // ----- exactly which crashes are harmless

  /** After a first crash, with nothing undurable that a sidecar waits for. */
  ghost predicate Firm(s: State) {
    && !Exposed(s)
    && (s.process.Running? ==> s.process.pc !in {Prepare, Clean, Mutate, SyncFrom, SyncTo})
  }

  lemma {:induction false} NextIsFirm(s: State, c: Catalog, a: Action)
    requires Core(s, c) && Firm(s)
    ensures Firm(Next(s, a))
  {
    hide Sound, Begins, View, NewPaths, Normal;
    NotClear(s, c);
  }

  lemma {:induction false} FirmIsSheltered(s: State, c: Catalog, acts: seq<Action>)
    requires Core(s, c) && Careful(s) && Firm(s)
    ensures Sheltered(s, acts)
    decreases |acts|
  {
    hide Core, Careful, Exposed, Next;
    if acts != [] {
      NextKeepsCore(s, c, acts[0]);
      NextIsFirm(s, c, acts[0]);
      FirmIsSheltered(Next(s, acts[0]), c, acts[1..]);
    }
  }

  /** With the journal on disk, a restart takes the operation up, or refuses it and changes nothing. */
  lemma {:induction false} RecoveryFinds(s: State, c: Catalog)
    requires Core(s, c) && s.process.Stopped? && s.saved.journal == s.j
    ensures Next(s, Start) ==
      if Recoverable(s, c) then s.(process := Running(s.saved, if s.host.data.Undone? then Abort else Finish)) else s
  {
    hide Sound, View, NewPaths, Normal;
    NotClear(s, c);
    ViewData(s.host.base, c, s.j, !s.host.data.Undone?, !s.host.meta.Undone?);
    SourceIsBound(s.host.base, c, s.j);
  }

  lemma {:induction false} SourceIsBound(base: Disk, c: Catalog, j: Journal)
    requires Begins(base, c, j)
    ensures var n := Normal(c);
      && (j.source in n.paths <==> j.source in c.paths)
      && (j.source in c.paths ==> n.paths[j.source] in n.hosts)
      && (Traced(base, c, j) <==> j.source in c.paths && n.hosts[n.paths[j.source]] == base.data[j.source])
  {
    if j.source in c.paths { assert Entry(c, j.source); }
  }

  /** The loader refuses the file of a pending operation exactly when the look-up left the source uncatalogued. */
  lemma {:induction false} LoaderRefuses(base: Disk, c: Catalog, j: Journal)
    requires Begins(base, c, j)
    ensures OnFile(c, j).Refused? <==> j.source !in c.paths
  {
  }

  /** From an exposed crash: the recovery moves the sidecar, power fails, and the object goes back without it. */
  lemma {:induction false} ExposedCanSplit(s: State, c: Catalog, acts: seq<Action>)
    requires Core(s, c) && s.process.Stopped? && Exposed(s) && Traced(s.host.base, c, s.j)
    requires acts == [Start, Step, PowerLoss(false, true, 0, {}), Start, Step]
    ensures !Atomic(Run(s, acts), c)
    ensures var e := Run(s, acts); e.process.Idle? && e.host.data.Undone? && e.host.meta.Done?
  {
    hide Core, Sound, View, NewPaths, Normal;
    var s1 := Next(s, Start);
    SplitFinishes(s, c);
    LooseIsAlone(s, c);
    var s2 := Next(s1, Step);
    var s3 := Next(s2, PowerLoss(false, true, 0, {}));
    SplitRecovers(s, s3, c);
    var s4 := Next(s3, Start);
    var s5 := Next(s4, Step);
    RunFive(s, acts);
    SplitIsNeither(s, c);
  }

  lemma {:induction false} RunFive(s: State, acts: seq<Action>)
    requires |acts| == 5
    ensures Run(s, acts) == Next(Next(Next(Next(Next(s, acts[0]), acts[1]), acts[2]), acts[3]), acts[4])
  {
    hide Next;
    var s1 := Next(s, acts[0]);
    var s2 := Next(s1, acts[1]);
    var s3 := Next(s2, acts[2]);
    var s4 := Next(s3, acts[3]);
    assert Run(s, acts) == Run(s1, acts[1..]);
    assert Run(s1, acts[1..]) == Run(s2, acts[1..][1..]);
    assert acts[1..][1..] == acts[2..];
    assert Run(s2, acts[2..]) == Run(s3, acts[2..][1..]);
    assert acts[2..][1..] == acts[3..];
    assert Run(s3, acts[3..]) == Run(s4, acts[3..][1..]);
    assert acts[3..][1..] == acts[4..];
    assert Run(s4, acts[4..]) == Run(Next(s4, acts[4]), acts[4..][1..]);
  }

  lemma {:induction false} LooseIsAlone(s: State, c: Catalog)
    requires Core(s, c) && s.host.data.Loose?
    ensures s.older == []
  {
  }

  lemma {:induction false} SplitFinishes(s: State, c: Catalog)
    requires Core(s, c) && s.process.Stopped? && Exposed(s) && Traced(s.host.base, c, s.j)
    ensures Next(s, Start) == s.(process := Running(s.saved, Finish))
    ensures var meta := if s.host.meta.Undone? then Loose(true, !s.j.deleting) else s.host.meta;
      Next(Next(s, Start), Step) == s.(process := Running(s.saved, MetaFrom), host := s.host.(meta := meta))
  {
    hide Sound, Begins, View, NewPaths, Normal;
    RecoveryFinds(s, c);
    ViewMeta(s.host.base, c, s.j, true, !s.host.meta.Undone?);
  }

  lemma {:induction false} SplitRecovers(s: State, t: State, c: Catalog)
    requires Core(s, c) && Exposed(s) && Traced(s.host.base, c, s.j)
    requires t == State(Host(s.host.base, Undone, Done, s.host.inner), s.saved, [], Stopped, s.j)
    ensures Next(t, Start) == t.(process := Running(t.saved, Abort))
  {
    hide Sound, View, NewPaths, Normal;
    NotClear(s, c);
    ViewData(t.host.base, c, t.j, false, true);
    SourceIsBound(t.host.base, c, t.j);
  }

  lemma {:induction false} SplitIsNeither(s: State, c: Catalog)
    requires Core(s, c) && Exposed(s)
    ensures var now := Bared(View(s.host.base, s.j, false, true), s.host.inner);
      now != Bared(s.host.base, s.host.inner) && now != View(s.host.base, s.j, true, true)
  {
    hide Sound, View, NewPaths, Normal, Below;
    ViewUnchanged(s.host.base, s.j);
    ViewMeta(s.host.base, c, s.j, false, true);
    ViewMeta(s.host.base, c, s.j, false, false);
    ViewData(s.host.base, c, s.j, false, true);
    ViewData(s.host.base, c, s.j, true, true);
    assert s.j.source in Bared(s.host.base, s.host.inner).meta;
    assert s.j.source !in Bared(View(s.host.base, s.j, false, true), s.host.inner).meta;
  }

  /** No continuation, however it is interrupted, completes with a split object. */
  ghost predicate Harmless(s: State, c: Catalog) {
    forall acts: seq<Action> :: Atomic(Run(s, acts), c)
  }

  /** The journal is on disk, and no restart will go on from here. */
  ghost predicate Stuck(s: State, c: Catalog) {
    && Begins(s.host.base, c, s.j) && s.process.Stopped? && s.saved == Snapshot(Normal(c), s.j)
    && (forall i :: 0 <= i < |s.older| ==> s.older[i] == s.saved)
    && !Traced(s.host.base, c, s.j) && (s.j.deleting ==> s.j.source !in c.paths || s.host.data.Undone?)
    && (!s.j.deleting && Under(s.j.destination, s.j.source) ==> s.host.data.Undone?)
  }

  lemma {:induction false} StuckStays(s: State, c: Catalog, a: Action)
    requires Stuck(s, c)
    ensures Stuck(Next(s, a), c) && Next(s, a).saved == s.saved
  {
    hide Sound, View, Normal;
    SourceIsBound(s.host.base, c, s.j);
    ViewData(s.host.base, c, s.j, !s.host.data.Undone?, !s.host.meta.Undone?);
  }

  /** An operation whose source the catalogue does not trace: a power failure gets it stuck, at worst. */
  lemma {:induction false} UntracedNext(s: State, c: Catalog, a: Action)
    requires Core(s, c) && !Traced(s.host.base, c, s.j)
    ensures Core(Next(s, a), c) || Stuck(Next(s, a), c)
  {
    hide Sound, Begins, View, NewPaths, Normal, Traced;
    if a.PowerLoss? { NotClear(s, c); } else { NextKeepsCore(s, c, a); }
  }

  lemma {:induction false} UntracedRunIsAtomic(s: State, c: Catalog, acts: seq<Action>)
    requires (Core(s, c) || Stuck(s, c)) && !Traced(s.host.base, c, s.j)
    ensures Atomic(Run(s, acts), c)
    decreases |acts|
  {
    hide Core, Stuck, Atomic, Traced, Next;
    if acts == [] {
      if Core(s, c) { CoreIsAtomic(s, c); } else { StuckIsAtomic(s, c); }
    } else {
      SameOperation(s, acts[0]);
      if Core(s, c) { UntracedNext(s, c, acts[0]); } else { StuckStays(s, c, acts[0]); }
      UntracedRunIsAtomic(Next(s, acts[0]), c, acts[1..]);
    }
  }

  lemma {:induction false} StuckIsAtomic(s: State, c: Catalog)
    requires Stuck(s, c)
    ensures Atomic(s, c)
  {
  }

  lemma {:induction false} SameOperation(s: State, a: Action)
    ensures Next(s, a).host.base == s.host.base && Next(s, a).j == s.j
  {
    hide View, Normal, Move, Drop;
  }

  /** Where a stopped server is not exposed, the sidecar is not ahead. */
  lemma {:induction false} UnexposedIsCareful(s: State, c: Catalog)
    requires Core(s, c) && s.process.Stopped? && !Exposed(s)
    ensures Careful(s)
  {
    hide Sound, Begins, View, NewPaths, Normal;
    NotClear(s, c);
  }

  /** A crash, in the operation or in any recovery of it, is harmless exactly when it did not catch the object's change
  undurable with a sidecar to follow, or when no recovery will take the operation up again. */
  lemma {:induction false} CrashIsHarmless(s: State, c: Catalog)
    requires Core(s, c) && s.process.Stopped?
    ensures Harmless(s, c) <==> !Exposed(s) || !Traced(s.host.base, c, s.j)
  {
    hide Core, Careful, Exposed, Atomic, Run, Traced;
    if Exposed(s) && Traced(s.host.base, c, s.j) {
      var acts := [Start, Step, PowerLoss(false, true, 0, {}), Start, Step];
      ExposedCanSplit(s, c, acts);
    } else {
      forall acts: seq<Action>
        ensures Atomic(Run(s, acts), c)
      {
        if Exposed(s) {
          UntracedRunIsAtomic(s, c, acts);
        } else {
          UnexposedIsCareful(s, c);
          FirmIsSheltered(s, c, acts);
          ShelteredRunIsAtomic(s, c, acts);
        }
      }
    }
  }

  lemma {:induction false} RunAppend(s: State, a: seq<Action>, b: seq<Action>)
    ensures Run(s, a + b) == Run(Run(s, a), b)
    decreases |a|
  {
    if a == [] {
      assert a + b == b;
    } else {
      assert (a + b)[1..] == a[1..] + b;
      RunAppend(Next(s, a[0]), a[1..], b);
    }
  }

  lemma {:induction false} RunOne(s: State, a: Action)
    ensures Run(s, [a]) == Next(s, a)
  {
    hide Next;
    assert [a][1..] == [];
  }

  /** The steps up to a rename or removal that is not synced yet. */
  function UpToChange(j: Journal): seq<Action> {
    if j.deleting then [Step] + ([Step] + [Step]) else [Step] + [Step]
  }

  lemma {:induction false} ChangeIsExposed(base: Disk, c: Catalog, j: Journal)
    requires Begins(base, c, j) && j.sidecar && (j.deleting || !Under(j.destination, j.source))
    ensures var s := Run(Begin(base, c, j), UpToChange(j) + [Kill]);
      Core(s, c) && s.process.Stopped? && Exposed(s) && s.host.base == base && s.j == j
  {
    hide Core, Careful, Begins, View, Normal, Under, Below;
    var s := Begin(base, c, j);
    BeginIsCore(base, c, j);
    NextKeepsCore(s, c, Step);
    var s1 := Next(s, Step);
    NextKeepsCore(s1, c, Step);
    var s2 := Next(s1, Step);
    NextKeepsCore(s2, c, Step);
    var s3 := if j.deleting then Next(s2, Step) else s2;
    NextKeepsCore(s3, c, Kill);
    RunOne(s, Step);
    RunOne(s1, Step);
    RunOne(s2, Step);
    RunOne(s3, Kill);
    RunAppend(s1, [Step], [Step]);
    RunAppend(s, [Step], if j.deleting then [Step] + [Step] else [Step]);
    RunAppend(s, UpToChange(j), [Kill]);
  }

  /** Such crashes exist: in every move or deletion with a sidecar, a kill between the rename or removal and its sync,
  and a power failure during the recovery, part the object from its sidecar, if the recovery takes the operation up. */
  lemma {:induction false} KillThenPowerLossSplits(base: Disk, c: Catalog, j: Journal)
    requires Begins(base, c, j) && j.sidecar && (j.deleting || !Under(j.destination, j.source))
    ensures var rest := [Start, Step, PowerLoss(false, true, 0, {}), Start, Step];
      Atomic(Run(Begin(base, c, j), UpToChange(j) + [Kill] + rest), c) <==> !Traced(base, c, j)
  {
    hide Core, Careful, Begins, View, Normal, Atomic, Traced, Exposed, Run, UpToChange, Begin;
    var crash := UpToChange(j) + [Kill];
    var rest := [Start, Step, PowerLoss(false, true, 0, {}), Start, Step];
    ChangeIsExposed(base, c, j);
    var s := Run(Begin(base, c, j), crash);
    RunAppend(Begin(base, c, j), crash, rest);
    if Traced(base, c, j) { ExposedCanSplit(s, c, rest); } else { UntracedRunIsAtomic(s, c, rest); }
  }

  lemma {:induction false} SameBase(s: State, acts: seq<Action>)
    ensures Run(s, acts).host.base == s.host.base && Run(s, acts).j == s.j
    decreases |acts|
  {
    hide Next;
    if acts != [] {
      SameOperation(s, acts[0]);
      SameBase(Next(s, acts[0]), acts[1..]);
    }
  }

  // ----- what a deletion that is given up leaves

  /** The folder is then as it was exactly when none of its sidecars is gone. */
  lemma {:induction false} OldIsIntact(s: State, c: Catalog)
    requires Core(s, c) && AllOld(s, c)
    ensures Now(s.host, s.j) == s.host.base <==> s.host.inner == {}
  {
    hide Sound, Begins, View, NewPaths, Normal;
    BaredIsBase(s.host.base, s.host.inner);
  }

  /** Some action of the run takes a sidecar from the folder. */
  ghost predicate Wipes(s: State, acts: seq<Action>)
    decreases |acts|
  {
    acts != [] && (Next(s, acts[0]).host.inner != s.host.inner || Wipes(Next(s, acts[0]), acts[1..]))
  }

  lemma {:induction false} InnerGrows(s: State, c: Catalog, acts: seq<Action>)
    requires Core(s, c) && forall i :: 0 <= i < |acts| ==> !acts[i].PowerLoss?
    ensures s.host.inner <= Run(s, acts).host.inner && Core(Run(s, acts), c)
    ensures Run(s, acts).host.base == s.host.base && Run(s, acts).j == s.j
    ensures Run(s, acts).host.inner == s.host.inner <==> !Wipes(s, acts)
    decreases |acts|
  {
    hide Core, Next;
    if acts != [] {
      InnerStep(s, c, acts[0]);
      NextKeepsCore(s, c, acts[0]);
      SameOperation(s, acts[0]);
      InnerGrows(Next(s, acts[0]), c, acts[1..]);
    }
  }

  lemma {:induction false} InnerStep(s: State, c: Catalog, a: Action)
    requires Core(s, c) && !a.PowerLoss?
    ensures s.host.inner <= Next(s, a).host.inner
  {
    hide Sound, Begins, View, NewPaths, Normal, Move, Drop;
    NotClear(s, c);
  }

  /**
   * An operation given up in a run of kills and refusals has touched neither object, nor its sidecar, nor CNIDs. The
   * folder is as it was if and only if no step of the run took a sidecar from it, and none can where none lay below.
   */
  lemma {:induction false} GivenUpIsIntact(base: Disk, c: Catalog, j: Journal, acts: seq<Action>)
    requires Begins(base, c, j) && forall i :: 0 <= i < |acts| ==> !acts[i].PowerLoss?
    requires var e := Run(Begin(base, c, j), acts); e.process.Idle? && e.host.data.Undone?
    ensures var e := Run(Begin(base, c, j), acts);
      && AllOld(e, c) && (Now(e.host, j) == base <==> !Wipes(Begin(base, c, j), acts))
    ensures Below(base, j.source) == {} || !j.deleting ==> !Wipes(Begin(base, c, j), acts)
  {
    hide Core, Run, Wipes, Begins, Next;
    var s := Begin(base, c, j);
    BeginIsCore(base, c, j);
    InnerGrows(s, c, acts);
    var e := Run(s, acts);
    UndoneIsOld(e, c);
    OldIsIntact(e, c);
    InnerIsBelow(e, c);
  }

  lemma {:induction false} UndoneIsOld(s: State, c: Catalog)
    requires Core(s, c) && s.process.Idle? && s.host.data.Undone?
    ensures AllOld(s, c)
  {
    hide Sound, Begins, View, NewPaths, Normal;
    NotClear(s, c);
    ViewUnchanged(s.host.base, s.j);
  }

  lemma {:induction false} InnerIsBelow(s: State, c: Catalog)
    requires Core(s, c)
    ensures s.host.inner <= Below(s.host.base, s.j.source) && (!s.j.deleting ==> s.host.inner == {})
  {
  }

  /** A kill between the removal of a folder's sidecars and that of the folder: the recovery gives the deletion up, and
  the folder has lost them. */
  lemma {:induction false} KilledDeletionLosesSidecars(base: Disk, c: Catalog, j: Journal)
    requires Begins(base, c, j) && j.deleting && Traced(base, c, j) && Below(base, j.source) != {}
    ensures var e := Run(Begin(base, c, j), [Step, Step, Kill, Start, Step]);
      && e.process.Idle? && AllOld(e, c) && e.host.inner == Below(base, j.source) && Now(e.host, j) != base
  {
    hide Core, Begins, View, Normal, Traced, Below;
    var acts := [Step, Step, Kill, Start, Step];
    var s := Begin(base, c, j);
    BeginIsCore(base, c, j);
    NextKeepsCore(s, c, Step);
    var s1 := Next(s, Step);
    NextKeepsCore(s1, c, Step);
    var s2 := Next(s1, Step);
    NextKeepsCore(s2, c, Kill);
    var s3 := Next(s2, Kill);
    NextKeepsCore(s3, c, Start);
    RecoveryFinds(s3, c);
    NextKeepsCore(Next(s3, Start), c, Step);
    RunFive(s, acts);
    var e := Run(s, acts);
    UndoneIsOld(e, c);
    OldIsIntact(e, c);
  }

  // ----- recovery completes

  function Rank(pc: Pc): nat {
    match pc
    case Prepare => 12 case Clean => 11 case Mutate => 10 case SyncFrom => 9 case SyncTo => 8 case Finish => 7
    case MetaFrom => 6
    case MetaTo => 5 case DataFrom => 4 case DataTo => 3 case Conclude => 2 case Abort => 1
  }

  lemma {:induction false} StepGoesOn(s: State, c: Catalog)
    requires Core(s, c) && s.process.Running?
    ensures var t := DoStep(s); t.process.Idle? || (t.process.Running? && Rank(t.process.pc) < Rank(s.process.pc))
  {
    hide Sound, Begins, View, NewPaths, Normal;
    NotClear(s, c);
    if s.process.pc.Finish? && s.j.sidecar {
      ViewMeta(s.host.base, c, s.j, true, !s.host.meta.Undone?);
    }
  }

  function Steps(n: nat): seq<Action> {
    if n == 0 then [] else [Step] + Steps(n - 1)
  }

  lemma {:induction false} StepsComplete(s: State, c: Catalog, n: nat)
    requires Core(s, c) && !s.process.Stopped? && (s.process.Running? ==> Rank(s.process.pc) <= n)
    ensures Run(s, Steps(n)).process.Idle?
    decreases n
  {
    hide Core, DoStep;
    if n > 0 {
      assert Steps(n)[1..] == Steps(n - 1);
      if s.process.Running? {
        StepGoesOn(s, c);
        StepKeepsCore(s, c);
      } else {
        IdleStays(s);
      }
      StepsComplete(Next(s, Step), c, n - 1);
    }
  }

  lemma {:induction false} IdleStays(s: State)
    requires s.process.Idle?
    ensures DoStep(s) == s
  {
  }

  /** A recovery that is left alone completes if and only if the operation is recoverable. */
  lemma {:induction false} RecoveryCompletes(s: State, c: Catalog)
    requires Core(s, c) && s.process.Stopped?
    ensures Run(s, [Start] + Steps(12)).process.Idle? <==> Recoverable(s, c)
  {
    hide Core, Normal, View, Traced;
    var acts := [Start] + Steps(12);
    assert acts[1..] == Steps(12);
    StartKeepsCore(s, c);
    if s.saved.journal == s.j {
      RecoveryFinds(s, c);
    } else {
      ClearStarts(s, c);
    }
    if Recoverable(s, c) { StepsComplete(Next(s, Start), c, 12); } else { StoppedStays(s, 12); }
  }

  lemma {:induction false} StoppedStays(s: State, n: nat)
    requires s.process.Stopped?
    ensures Run(s, Steps(n)) == s
    decreases n
  {
    if n > 0 {
      assert Steps(n)[1..] == Steps(n - 1);
      StoppedStays(s, n - 1);
    }
  }

  lemma {:induction false} StuckForGood(s: State, c: Catalog, acts: seq<Action>)
    requires Stuck(s, c)
    ensures Stuck(Run(s, acts), c) && Run(s, acts).saved == s.saved
    decreases |acts|
  {
    hide Stuck, Next;
    if acts != [] {
      StuckStays(s, c, acts[0]);
      StuckForGood(Next(s, acts[0]), c, acts[1..]);
    }
  }

  /** After a crash, an operation whose source the catalogue does not trace is refused by every restart, whatever
  crashes come between them, if and only if every version of the file that may come back holds its journal. Only a
  deletion whose object is gone is still completed, if the source is catalogued at all. */
  lemma {:induction false} RefusedForGood(s: State, c: Catalog)
    requires Core(s, c) && s.process.Stopped? && s.saved.journal == s.j && !Traced(s.host.base, c, s.j)
    requires s.j.deleting ==> s.j.source !in c.paths || s.host.data.Undone?
    ensures (forall acts: seq<Action> :: Run(s, acts).process.Stopped?) <==>
            (forall i :: 0 <= i < |s.older| ==> s.older[i].journal == s.j)
  {
    hide Begins, View, NewPaths, Normal, Traced, Run;
    NotClear(s, c);
    if forall i :: 0 <= i < |s.older| ==> s.older[i].journal == s.j {
      assert forall i :: 0 <= i < |s.older| ==> Fine(s.host, s.older[i], c, s.j);
      forall acts: seq<Action>
        ensures Run(s, acts).process.Stopped?
      {
        StuckForGood(s, c, acts);
      }
    } else {
      var i :| 0 <= i < |s.older| && s.older[i].journal != s.j;
      OlderGivesUp(s, c, i);
    }
  }

  /** A version without the journal comes back, and the next restart has nothing to recover. */
  lemma {:induction false} OlderGivesUp(s: State, c: Catalog, i: nat)
    requires Core(s, c) && i < |s.older| && s.older[i].journal != s.j
    ensures !Run(s, [PowerLoss(false, false, i, {})] + [Start]).process.Stopped?
  {
    hide Begins, View, NewPaths, Normal;
    assert Fine(s.host, s.older[i], c, s.j);
    var t := Next(s, PowerLoss(false, false, i, {}));
    RunOne(s, PowerLoss(false, false, i, {}));
    RunOne(t, Start);
    RunAppend(s, [PowerLoss(false, false, i, {})], [Start]);
  }

  lemma {:induction false} ClearStarts(s: State, c: Catalog)
    requires Core(s, c) && s.process.Stopped? && s.saved.journal != s.j
    ensures Next(s, Start) == s.(process := Idle)
  {
  }

  // ----- how an operation ends

  /** A completed operation has changed everything. */
  lemma {:induction false} ConcludedIsNew(s: State, c: Catalog)
    requires Core(s, c) && s.process.Running? && s.process.pc.Conclude?
    ensures AllNew(DoStep(s), c) && DoStep(s).process.Idle?
  {
    hide Sound, Begins, View, Drop, Move;
    NotClear(s, c);
    PathsDecide(c, s.process.memory.catalog, s.j);
    var m := s.process.memory.catalog;
    NormalPaths(if s.j.deleting then Drop(m, s.j.source) else Move(m, s.j.source, s.j.destination));
    SidecarOrNot(s.host.base, c, s.j);
    GoneWithFolder(s.host.base, s.j, s.host.inner, !s.host.meta.Undone?);
  }

  /** And an abandoned one nothing. */
  lemma {:induction false} AbortedIsOld(s: State, c: Catalog)
    requires Core(s, c) && s.process.Running? && s.process.pc.Abort?
    ensures AllOld(DoStep(s), c) && DoStep(s).process.Idle?
  {
    hide Sound, Begins, View, NewPaths;
    NotClear(s, c);
    NormalPaths(s.process.memory.catalog);
    ViewUnchanged(s.host.base, s.j);
  }

  /** A crash with the journal on disk is recovered from exactly when the look-up before the operation did not hand out
  a CNID gone astray, or the operation is a deletion that has removed its object and the source is catalogued. */
  lemma {:induction false} LookUpDecidesRecovery(before: Catalog, s: State, c: Catalog)
    requires Sound(before) && Identified(s.host.base.data) && IsPath(s.j.source)
    requires IdFor(before, s.host.base.data, s.j.source).Issued?
    requires c == IdFor(before, s.host.base.data, s.j.source).catalog
    requires Core(s, c) && s.process.Stopped? && s.saved.journal == s.j
    ensures Run(s, [Start] + Steps(12)).process.Idle? <==>
      || !Astray(before, s.host.base.data, s.j.source)
      || (s.j.deleting && !s.host.data.Undone? && s.j.source in c.paths)
  {
    hide Core, Run, Known, Astray, IdFor;
    IssuedIsKnown(before, s.host.base.data, s.j.source);
    RecoveryCompletes(s, c);
  }

  // ----- the object

  /** What a mutation comes to: a result code for the guest, or an error that stops the volume until it is loaded
  again. */
  datatype Outcome = Code(code: int) | Thrown

  /** The checks of `moveHostPath` and its error codes; the host may refuse the rename, and refuses to move a folder
  into itself. */
  function MoveCode(d: Disk, source: string, destination: string, refused: bool): int {
    if source == "" || destination == "" then -5000
    else if source !in d.data then -5018
    else if destination in d.data || destination in d.meta then -5017
    else if refused || Under(destination, source) then -5018 else 0
  }

  /** The checks of `deleteHostPath` and its error codes. */
  function DeleteCode(d: Disk, source: string, refused: bool): int {
    if source == "" then -5000
    else if source !in d.data then -5018
    else if Occupied(d, source) then -5007
    else if refused then -5000 else 0
  }

  lemma {:induction false} OnFileNormal(c: Catalog, j: Journal)
    requires Sound(c)
    ensures OnFile(Normal(c), j) == OnFile(c, j)
  {
    hide Sound, Part;
    NormalIsSound(c);
    NormalIsSound(Normal(c));
    ValidInNormal(c, j);
  }

  /** The server's side of a mutation, over the catalogue object and its file. The ghost `process` says which step of
  the protocol comes next, `j` which operation it is, and `saved` what was last committed. */
  class Volume {
    const catalogue: Catalogue
    var host: Host
    ghost var saved: Snapshot
    ghost var older: seq<Snapshot>
    ghost var process: Process
    ghost var j: Journal

    constructor (catalogue: Catalogue, d: Disk)
      requires Sound(catalogue.Model()) && Parse(catalogue.file) == OnFile(catalogue.Model(), CLEAR)
      requires catalogue.journal == CLEAR
      ensures this.catalogue == catalogue && host == Host(d, Undone, Undone, {}) && Ready()
    {
      this.catalogue, host := catalogue, Host(d, Undone, Undone, {});
      saved, older, process, j := Snapshot(Normal(catalogue.Model()), CLEAR), [], Idle, CLEAR;
      new;
      OnFileNormal(catalogue.Model(), CLEAR);
    }

    ghost function Model(): State
      reads this
    {
      State(host, saved, older, process, j)
    }

    ghost function Memory(): Snapshot
      reads catalogue
    {
      Snapshot(catalogue.Model(), catalogue.journal)
    }

    /** The file holds what was last committed. */
    ghost predicate Filed()
      reads this`saved, catalogue`file
    {
      Parse(catalogue.file) == OnFile(saved.catalog, saved.journal)
    }

    /** Nothing is pending, and the catalogue in memory is the one on disk. */
    ghost predicate Ready()
      reads this, catalogue
    {
      && Filed() && Sound(catalogue.Model()) && catalogue.journal == CLEAR && older == []
      && saved == Snapshot(Normal(catalogue.Model()), CLEAR)
    }

    /** The operation in memory is the one under way, and the protocol stands at `pc`. */
    ghost predicate At(pc: Pc, c: Catalog)
      reads this, catalogue
    {
      process == Running(Memory(), pc) && catalogue.journal == j && Core(Model(), c) && Filed()
    }

    /** The volume has stopped in a state that a restart may take up. */
    ghost predicate Halted(c: Catalog)
      reads this, catalogue
    {
      process.Stopped? && Core(Model(), c) && Filed()
    }

    ghost method Stepped(s: State, c: Catalog)
      requires Core(s, c) && s.process.Running? && Model() == DoStep(s).(process := process)
      modifies this`process
      ensures process == DoStep(s).process && Core(Model(), c) && Model() == DoStep(s)
    {
      hide Core, DoStep;
      StepKeepsCore(s, c);
      process := DoStep(s).process;
    }

    /** An error is thrown before the step has done anything. */
    ghost method Threw(s: State, c: Catalog)
      requires Core(s, c) && Model() == s && s.process.Running? && !s.process.pc.Mutate? && !s.process.pc.Clean?
      modifies this`process
      ensures process.Stopped? && Core(Model(), c)
    {
      hide Core;
      HaltKeepsCore(s, c, Refuse);
      process := Stopped;
    }

    /** `saveCatalog`, which fails only if the catalogue has outgrown its file. */
    method Commit() returns (ok: bool)
      requires Sound(catalogue.Model()) && Filed()
      modifies this`saved, this`older, catalogue`file
      ensures Filed() && older == if ok then [] else old(older)
      ensures saved == if ok then Snapshot(Normal(catalogue.Model()), catalogue.journal) else old(saved)
    {
      hide Sound, Parse, OnFile, Normal;
      ok := catalogue.Save(Durable);
      if ok {
        saved, older := Snapshot(Normal(catalogue.Model()), catalogue.journal), [];
        OnFileNormal(catalogue.Model(), catalogue.journal);
      }
    }

    /** The sidecar's move in `finishCatalogMove`. */
    method MoveSidecar(ghost c: Catalog)
      requires At(Finish, c) && !j.deleting
      modifies this`host, this`process
      ensures At(if j.sidecar then MetaFrom else DataFrom, c) && host.base == old(host.base)
    {
      hide Core, Now, Parse, OnFile;
      ghost var s := Model();
      if catalogue.journal.sidecar {
        var now := Now(host, catalogue.journal);
        var source, destination := catalogue.journal.source in now.meta, catalogue.journal.destination in now.meta;
        SidecarIsOnce(s, c);
        if source == destination { assert false; }
        if source { host := host.(meta := Loose(true, true)); }
      }
      Stepped(s, c);
    }

    /** The sidecar's removal in `finishCatalogDelete`; its absence means an earlier try removed it. */
    method RemoveSidecar(ghost c: Catalog)
      requires At(Finish, c) && j.deleting
      modifies this`host, this`process
      ensures At(if j.sidecar then MetaFrom else DataFrom, c) && host.base == old(host.base)
    {
      hide Core, Now, Parse, OnFile;
      ghost var s := Model();
      if catalogue.journal.sidecar {
        if catalogue.journal.source in Now(host, catalogue.journal).meta { host := host.(meta := Loose(true, false)); }
      }
      Stepped(s, c);
    }

    /** The syncs of the sidecar's directories. */
    method SyncSidecar(ghost c: Catalog)
      requires At(MetaFrom, c)
      modifies this`host, this`process
      ensures At(DataFrom, c) && host.base == old(host.base)
    {
      hide Core, Parse, OnFile;
      ghost var s := Model();
      host := host.(meta := SyncSource(host.meta));
      Stepped(s, c);
      if !catalogue.journal.deleting {
        s := Model();
        host := host.(meta := SyncDestination(host.meta));
        Stepped(s, c);
      }
    }

    /** The syncs of the object's directories. */
    method SyncObject(ghost c: Catalog)
      requires At(DataFrom, c)
      modifies this`host, this`process
      ensures At(Conclude, c) && host.base == old(host.base)
    {
      hide Core, Parse, OnFile;
      ghost var s := Model();
      host := host.(data := SyncSource(host.data));
      Stepped(s, c);
      if !catalogue.journal.deleting {
        s := Model();
        host := host.(data := SyncDestination(host.data));
        Stepped(s, c);
      }
    }

    /** The last commit: CNIDs follow, and the journal is cleared with them. */
    method CommitOutcome(ghost c: Catalog) returns (ok: bool)
      requires At(Conclude, c)
      modifies this`saved, this`older, this`process, catalogue
      ensures !ok ==> Halted(c)
      ensures ok ==> process.Idle? && Core(Model(), c) && AllNew(Model(), c) && Ready()
      ensures ok ==> catalogue.Model() == NewCatalog(old(catalogue.Model()), j)
    {
      hide Core, AllNew, Move, Drop, Normal, Parse, OnFile, Sound;
      ghost var s := Model();
      CoreIsSound(s, c);
      var m := catalogue.journal;
      catalogue.journal := CLEAR;
      if m.deleting {
        DropIsSound(catalogue.Model(), m.source);
        catalogue.DropId(m.source);
      } else {
        MoveIsSound(catalogue.Model(), m.source, m.destination);
        catalogue.MoveIds(m.source, m.destination);
      }
      ok := Commit();
      if ok {
        Stepped(s, c);
        ConcludedIsNew(s, c);
      } else {
        Threw(s, c);
      }
    }

    /** The commit that gives an operation up before it has touched the folder. */
    method CommitAbort(ghost c: Catalog) returns (ok: bool)
      requires At(Abort, c)
      modifies this`saved, this`older, this`process, catalogue`journal, catalogue`file
      ensures !ok ==> Halted(c)
      ensures ok ==> process.Idle? && Core(Model(), c) && AllOld(Model(), c) && Ready()
    {
      hide Core, AllOld, Normal, Parse, OnFile, Sound;
      ghost var s := Model();
      CoreIsSound(s, c);
      catalogue.journal := CLEAR;
      ok := Commit();
      if ok {
        Stepped(s, c);
        AbortedIsOld(s, c);
      } else {
        Threw(s, c);
      }
    }

    /** `finishCatalogMove` and `finishCatalogDelete`. */
    method FinishCatalog(ghost c: Catalog) returns (ok: bool)
      requires At(Finish, c)
      modifies this`host, this`saved, this`older, this`process, catalogue
      ensures host.base == old(host.base)
      ensures !ok ==> Halted(c)
      ensures ok ==> process.Idle? && Core(Model(), c) && AllNew(Model(), c) && Ready()
      ensures ok ==> catalogue.Model() == NewCatalog(old(catalogue.Model()), j)
    {
      hide Core, AllNew, NewCatalog, Parse, OnFile, Sound, Normal;
      if catalogue.journal.deleting { RemoveSidecar(c); } else { MoveSidecar(c); }
      if catalogue.journal.sidecar { SyncSidecar(c); }
      SyncObject(c);
      ok := CommitOutcome(c);
    }

    /** The commit of the journal, the rename or removal, and its syncs: what `moveHostPath` and `deleteHostPath` do
    once their checks have passed and the source has been looked up. */
    method Mutate(refused: bool, wiped: set<string>, ghost c: Catalog) returns (ok: bool, done: bool)
      requires At(Prepare, c) && host.inner == {}
      modifies this`host, this`saved, this`older, this`process, catalogue
      ensures host.base == old(host.base)
      ensures !ok ==> Halted(c)
      ensures ok ==> process.Idle? && Core(Model(), c) && Ready()
      ensures done <==> !refused && (j.deleting || !Under(j.destination, j.source))
      ensures ok && done ==> AllNew(Model(), c)
      ensures ok && !done ==> AllOld(Model(), c) && host == old(host).(inner := Stripped(host.base, j, wiped))
      ensures ok ==>
        catalogue.Model() == if done then NewCatalog(old(catalogue.Model()), j) else old(catalogue.Model())
    {
      hide Core, AllNew, AllOld, Normal, Under, NewCatalog, Parse, OnFile, Sound, Below;
      ghost var s := Model();
      CoreIsSound(s, c);
      var m := catalogue.journal;
      done := !refused && (m.deleting || !Under(m.destination, m.source));
      ok := Commit();
      if !ok {
        Threw(s, c);
        return;
      }
      Stepped(s, c);
      if m.deleting { CleanFolder(done, wiped, c); }
      if done {
        ChangeObject(c);
        ok := FinishCatalog(c);
      } else {
        ok := GiveUp(c);
      }
    }

    /** The host has refused the rename or a removal. */
    method GiveUp(ghost c: Catalog) returns (ok: bool)
      requires At(Clean, c) || At(Pc.Mutate, c)
      modifies this`saved, this`older, this`process, catalogue`journal, catalogue`file
      ensures !ok ==> Halted(c)
      ensures ok ==> process.Idle? && Core(Model(), c) && AllOld(Model(), c) && Ready()
    {
      hide Core, AllOld, Parse, OnFile, Sound, Normal;
      HaltKeepsCore(Model(), c, Refuse);
      process := Running(Memory(), Abort);
      ok := CommitAbort(c);
    }

    /** The removal of the sidecars in a folder to be deleted. If it or the folder's removal is refused, `wiped` of them
    are gone. */
    method CleanFolder(all: bool, wiped: set<string>, ghost c: Catalog)
      requires At(Clean, c) && j.deleting && host.inner == {}
      modifies this`host, this`process
      ensures host == old(host).(inner := if all then Below(host.base, j.source) else Stripped(host.base, j, wiped))
      ensures if all then At(Pc.Mutate, c) else At(Clean, c)
    {
      hide Core, Parse, OnFile, Below;
      ghost var s := Model();
      if all {
        host := host.(inner := Below(host.base, catalogue.journal.source));
        Stepped(s, c);
      } else {
        host := host.(inner := Below(host.base, catalogue.journal.source) * wiped);
        StrippedKeepsCore(s, c, wiped);
      }
    }

    /** The rename or removal, and the syncs of its directories. */
    method ChangeObject(ghost c: Catalog)
      requires At(Pc.Mutate, c) && (j.deleting || !Under(j.destination, j.source))
      modifies this`host, this`process
      ensures At(Finish, c) && host.base == old(host.base)
    {
      hide Core, Under, Parse, OnFile;
      ghost var s := Model();
      host := host.(data := Loose(true, !catalogue.journal.deleting));
      Stepped(s, c);
      s := Model();
      host := host.(data := SyncSource(host.data));
      Stepped(s, c);
      if !catalogue.journal.deleting {
        s := Model();
        host := host.(data := SyncDestination(host.data));
        Stepped(s, c);
      }
    }

    /** `loadCatalog` with `recoverCatalogMove`, left alone. It takes up whatever operation the journal names and
    completes it, or gives it up if the object has not moved; or it refuses the operation and changes nothing. */
    method RecoverCatalog(ghost c: Catalog) returns (ok: bool)
      requires Halted(c)
      modifies this`host, this`saved, this`older, this`process, catalogue
      ensures host.base == old(host.base) && Core(Model(), c) && Filed()
      ensures ok ==> Recoverable(old(Model()), c) && process.Idle? && (AllOld(Model(), c) || AllNew(Model(), c))
      ensures ok ==> catalogue.journal == CLEAR && catalogue.paths == saved.catalog.paths
      ensures !ok ==> process.Stopped?
      ensures !Recoverable(old(Model()), c) ==> !ok && host == old(host) && saved == old(saved)
    {
      hide Core, AllNew, AllOld, Now, Normal, NewCatalog, Parse, OnFile, Sound, Next;
      ghost var s := Model();
      StartKeepsCore(s, c);
      JournalIsPending(s, c);
      NotClear(s, c);
      FiledLoads(s, c);
      ok := catalogue.Load();
      if !ok { return; }
      NormalPaths(saved.catalog);
      if catalogue.journal.source == "" {
        ClearStarts(s, c);
        process := Idle;
        CoreIsAtomic(Model(), c);
        return;
      }
      RecoveryFinds(s, c);
      CheckIsExact(s, c);
      ObjectIsOnce(s, c);
      var m, now := catalogue.journal, Now(host, catalogue.journal);
      var source := m.source in now.data;
      var actual := HostIdentity(now.data, if source then m.source else m.destination);
      var id := catalogue.paths[m.source];
      if id in catalogue.hosts && (source || !m.deleting) && actual != catalogue.hosts[id] { return false; }
      process := Next(s, Start).process;
      if source {
        ok := CommitAbort(c);
      } else {
        ok := FinishCatalog(c);
      }
      NormalPaths(catalogue.Model());
    }

    /** `idForPath` on the source of an operation. */
    method LookUp(source: string) returns (ok: bool)
      requires Rested(host) && Identified(host.base.data) && Ready() && IsPath(source) && source in host.base.data
      modifies this`saved, catalogue
      ensures Filed() && host.base == old(host.base)
      ensures var f := IdFor(old(catalogue.Model()), host.base.data, source);
        && (f.Exhausted? ==> !ok) && !f.Missing?
        && (f.Issued? ==> catalogue.Model() == f.catalog)
      ensures ok ==> Ready()
      ensures !ok ==> saved == old(saved)
    {
      hide Sound, Parse, OnFile, Normal, IsPath;
      ghost var c := catalogue.Model();
      PathIsNotEmpty(source);
      LookUpFinds(c, host.base.data, source);
      ClearOnFile(c);
      var a := catalogue.IdForPath(host.base.data, source, Durable);
      ok := a.Answered?;
      if ok {
        saved := Snapshot(Normal(catalogue.Model()), CLEAR);
        ClearOnFile(catalogue.Model());
        OnFileNormal(catalogue.Model(), CLEAR);
      }
    }

    /** What both operations do once their checks have passed: look the source up, and carry the operation out. */
    method Operate(m: Journal, refused: bool, wiped: set<string>) returns (ok: bool, done: bool)
      requires Rested(host) && Identified(host.base.data) && Ready() && Fits(host.base, m)
      modifies this, catalogue
      ensures host.base == old(host.base) && Filed()
      ensures done <==> !refused && (m.deleting || !Under(m.destination, m.source))
      ensures ok ==> Ready() && j == m
      ensures ok ==> var f := IdFor(old(catalogue.Model()), host.base.data, m.source);
        && f.Issued?
        && (done ==> AllNew(Model(), f.catalog) && catalogue.Model() == NewCatalog(f.catalog, m))
        && (!done ==> AllOld(Model(), f.catalog) && host == old(host).(inner := Stripped(host.base, m, wiped)))
      ensures !ok ==> var f := IdFor(old(catalogue.Model()), host.base.data, m.source);
        (host == old(host) && saved == old(saved)) || (f.Issued? && Halted(f.catalog))
    {
      hide Core, Normal, Under, View, Parse, OnFile, Sound, IdFor, NewCatalog, AllNew, AllOld, Fits, Below;
      done := !refused && (m.deleting || !Under(m.destination, m.source));
      FitsHas(host.base, m);
      ok := LookUp(m.source);
      if !ok { return; }
      ghost var c := catalogue.Model();
      catalogue.journal := m;
      j, process := m, Running(Memory(), Prepare);
      BeginIsCore(host.base, c, j);
      ok, done := Mutate(refused, wiped, c);
    }

    /** `moveHostPath`: the checks, the look-up of the source, and the move itself. */
    method MoveHostPath(source: string, destination: string, refused: bool) returns (r: Outcome)
      requires Rested(host) && Closed(host.base) && Identified(host.base.data) && Ready()
      requires (source == "" || IsPath(source)) && (destination == "" || IsPath(destination))
      modifies this, catalogue
      ensures host.base == old(host.base) && Filed()
      ensures r.Code? ==> Ready() && r.code == MoveCode(host.base, source, destination, refused)
      ensures MoveCode(host.base, source, destination, false) in {-5000, -5017} || source !in host.base.data ==>
        r.Code? && Model() == old(Model()) && Memory() == old(Memory())
      ensures r == Code(0) ==> var f := IdFor(old(catalogue.Model()), host.base.data, source);
        && f.Issued? && AllNew(Model(), f.catalog) && catalogue.Model() == Move(f.catalog, source, destination)
        && j == Journal(source, destination, source in host.base.meta, false)
      ensures r.Code? && r.code != 0 ==> host == old(host)
      ensures r.Thrown? ==> var f := IdFor(old(catalogue.Model()), host.base.data, source);
        (host == old(host) && saved == old(saved)) || (f.Issued? && Halted(f.catalog))
    {
      hide Core, Normal, Under, Parse, OnFile, Sound, IdFor, Move, AllNew;
      var base := host.base;
      if source == "" || destination == "" { return Code(-5000); }
      if source !in base.data { return Code(-5018); }
      if destination in base.data || destination in base.meta { return Code(-5017); }
      PathIsNotEmpty(source);
      var ok, done := Operate(Journal(source, destination, source in base.meta, false), refused, {});
      r := if !ok then Thrown else if done then Code(0) else Code(-5018);
    }

    /** `deleteHostPath`: the checks, where a folder that still holds anything but sidecars is refused; the look-up of
    the source; and the deletion. */
    method DeleteHostPath(source: string, refused: bool, wiped: set<string>) returns (r: Outcome)
      requires Rested(host) && Closed(host.base) && Identified(host.base.data) && Ready()
      requires source == "" || IsPath(source)
      modifies this, catalogue
      ensures host.base == old(host.base) && Filed()
      ensures r.Code? ==> Ready() && r.code == DeleteCode(host.base, source, refused)
      ensures source == "" || DeleteCode(host.base, source, false) in {-5018, -5007} ==>
        r.Code? && Model() == old(Model()) && Memory() == old(Memory())
      ensures r == Code(0) ==> var f := IdFor(old(catalogue.Model()), host.base.data, source);
        && f.Issued? && AllNew(Model(), f.catalog) && catalogue.Model() == Drop(f.catalog, source)
        && j == Journal(source, "", source in host.base.meta, true)
      ensures r.Code? && r.code != 0 && r.code != -5000 ==> host == old(host)
      ensures r == Code(-5000) && source != "" ==> var lost := Below(host.base, source) * wiped;
        && host == old(host).(inner := lost) && Now(host, j) == Bared(host.base, lost)
        && (Now(host, j) == host.base <==> lost == {})
      ensures r == Code(-5000) && source != "" ==> var f := IdFor(old(catalogue.Model()), host.base.data, source);
        f.Issued? && AllOld(Model(), f.catalog)
      ensures r.Thrown? ==> var f := IdFor(old(catalogue.Model()), host.base.data, source);
        (host == old(host) && saved == old(saved)) || (f.Issued? && Halted(f.catalog))
    {
      hide Core, Normal, Under, Parse, OnFile, Sound, IdFor, Drop, AllNew;
      var base := host.base;
      if source == "" { return Code(-5000); }
      if source !in base.data { return Code(-5018); }
      if Occupied(base, source) { return Code(-5007); }
      PathIsNotEmpty(source);
      var ok, done := Operate(Journal(source, "", source in base.meta, true), refused, wiped);
      if ok && !done { BaredIsBase(base, Below(base, source) * wiped); }
      r := if !ok then Thrown else if done then Code(0) else Code(-5000);
    }
  }

  lemma {:induction false} BaredIsBase(d: Disk, inner: set<string>)
    requires inner <= d.meta.Keys
    ensures Bared(d, inner) == d <==> inner == {}
  {
    assert d.meta - {} == d.meta;
    if p :| p in inner { assert p in d.meta && p !in d.meta - inner; }
  }

  lemma {:induction false} FitsHas(base: Disk, j: Journal)
    requires Fits(base, j)
    ensures IsPath(j.source) && j.source in base.data
  {
  }

  lemma {:induction false} LookUpFinds(c: Catalog, host: map<string, string>, rel: string)
    requires Sound(c) && IsPath(rel) && Identified(host) && rel in host
    ensures !IdFor(c, host, rel).Missing?
    ensures IdFor(c, host, rel).Issued? ==> Sound(IdFor(c, host, rel).catalog)
  {
    if IdFor(c, host, rel).Issued? { IssuedIsBound(c, host, rel); }
  }

  /** The sidecars a refused deletion has taken from the folder. */
  function Stripped(d: Disk, j: Journal, wiped: set<string>): set<string> {
    if j.deleting then Below(d, j.source) * wiped else {}
  }

  lemma {:induction false} StrippedKeepsCore(s: State, c: Catalog, wiped: set<string>)
    requires Core(s, c) && s.process.Running? && s.process.pc.Clean? && s.host.inner == {}
    ensures Core(s.(host := s.host.(inner := Below(s.host.base, s.j.source) * wiped)), c)
  {
    hide Sound, Begins, View, NewPaths, Normal;
    BelowIsNotTop(s.host.base, s.j.source);
  }

  /** What an operation under way knows of its catalogue and its paths. */
  lemma {:induction false} CoreIsSound(s: State, c: Catalog)
    requires Core(s, c) && s.process.Running?
    ensures Sound(s.process.memory.catalog) && IsPath(s.j.source) && s.j.source != ""
    ensures !s.j.deleting ==> IsPath(s.j.destination)
  {
  }

  /** What the loader makes of the file of a stopped volume. */
  lemma {:induction false} FiledLoads(s: State, c: Catalog)
    requires Core(s, c) && s.process.Stopped?
    ensures OnFile(s.saved.catalog, s.saved.journal) ==
      if s.saved.journal == CLEAR then Loaded(Snapshot(Normal(s.saved.catalog), CLEAR))
      else if s.j.source in c.paths then Loaded(s.saved) else Refused
  {
    hide Sound, View, NewPaths, Part;
    NotClear(s, c);
    if s.saved.journal != CLEAR {
      NormalTwice(c, s.host.base, s.j);
      NormalPaths(c);
    }
  }

  /** The identity check of `recoverCatalogMove` stops exactly what is not recoverable. */
  lemma {:induction false} CheckIsExact(s: State, c: Catalog)
    requires Core(s, c) && s.process.Stopped? && s.saved.journal == s.j && s.j.source in c.paths
    ensures s.j.source in s.saved.catalog.paths
    ensures var n, now := s.saved.catalog, Now(s.host, s.j).data; var source := s.j.source in now;
      var actual := HostIdentity(now, if source then s.j.source else s.j.destination);
      var id := n.paths[s.j.source];
      Recoverable(s, c) <==> !(id in n.hosts && (source || !s.j.deleting) && actual != n.hosts[id])
  {
    hide Sound, View, NewPaths, Normal;
    NotClear(s, c);
    ViewData(s.host.base, c, s.j, !s.host.data.Undone?, !s.host.meta.Undone?);
    SourceIsBound(s.host.base, c, s.j);
  }

  /** Of the sidecar's two names exactly one is taken. */
  lemma {:induction false} SidecarIsOnce(s: State, c: Catalog)
    requires Core(s, c) && s.process.Running? && s.process.pc.Finish? && !s.j.deleting && s.j.sidecar
    ensures var m := Now(s.host, s.j).meta; (s.j.source in m) != (s.j.destination in m)
  {
    hide Sound, Begins, View, NewPaths, Normal;
    ViewMeta(s.host.base, c, s.j, true, !s.host.meta.Undone?);
  }

  /** The object is at its old name exactly when it has not been renamed or removed. */
  lemma {:induction false} ObjectIsOnce(s: State, c: Catalog)
    requires Core(s, c)
    ensures s.j.source in Now(s.host, s.j).data <==> s.host.data.Undone?
  {
    hide Sound, Begins, View, NewPaths, Normal;
    ViewData(s.host.base, c, s.j, !s.host.data.Undone?, !s.host.meta.Undone?);
  }

  /** The journal on disk is that of the operation under way, or clear. */
  lemma {:induction false} JournalIsPending(s: State, c: Catalog)
    requires Core(s, c)
    ensures s.saved.journal == if s.saved.journal.source != "" then s.j else CLEAR
  {
    hide Sound, View, NewPaths, Normal;
  }
}

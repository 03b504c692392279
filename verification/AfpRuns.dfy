/** Every run of the catalogue: look-ups, moves, deletions, lost commits, restarts, power failures, and whatever happens
to the shared folder outside the server. A commit that is not known durable stops the server until it is restarted, and
a power failure may take it back. */
module AfpRuns {
  import opened AfpPath
  import opened AfpCatalog
  import opened AfpCodec
  import opened AfpServer

  datatype Memory = Down | Up(catalog: Catalog)

  /** `disk` is what the catalogue file holds, and `older` what a power failure may make it hold again. */
  datatype State = State(memory: Memory, disk: Catalog, older: seq<Catalog>, host: Host)

  /** The server told the guest that CNID `id` is the object with this identity. */
  datatype Event = Event(id: int, identity: string, isNew: bool)

  datatype Action =
    | LookUp(rel: string, write: Write)
    | Serve(id: int)
    | MoveTree(source: string, destination: string, write: Write)
    | DropTree(top: string, write: Write)
    | Outside(host: Host)
    | Restart
    | PowerLoss(version: nat)

  ghost predicate Fits(a: Action) {
    match a
    case LookUp(rel, _) => IsPath(rel)
    case MoveTree(source, destination, _) => IsPath(source) && IsPath(destination)
    case DropTree(top, _) => IsPath(top)
    case Outside(host) => Identified(host)
    case _ => true
  }

  function Commit(s: State, c: Catalog, write: Write): State {
    match write
    case Durable => s.(memory := Up(c), disk := Normal(c), older := [])
    case Unsynced => s.(memory := Down, disk := Normal(c), older := s.older + [s.disk])
    case Lost => s.(memory := Down)
  }

  ghost function LookedUp(s: State, rel: string, write: Write): State
    requires Valid(s) && IsPath(rel) && s.memory.Up?
  {
    match IdFor(s.memory.catalog, s.host, rel)
    case Issued(_, d) => if AtHand(s.memory.catalog, s.host, rel) then s else Commit(s, d, write)
    case Missing => s.(memory := Down)
    case Exhausted => s.(memory := Down)
  }

  /** What a power failure leaves: one of the older versions, or the last one. It is durable from then on. */
  function Survivor(s: State, version: nat): Catalog {
    if version < |s.older| then s.older[version] else s.disk
  }

  ghost function Next(s: State, a: Action): State
    requires Fits(a) && Valid(s)
  {
    match a
    case Outside(host) => s.(host := host)
    case Restart => s.(memory := Up(s.disk))
    case PowerLoss(version) => s.(memory := Down, disk := Survivor(s, version), older := [])
    case LookUp(rel, write) => if s.memory.Down? then s else LookedUp(s, rel, write)
    case MoveTree(source, destination, write) =>
      if s.memory.Down? then s else Commit(s, Move(s.memory.catalog, source, destination), write)
    case DropTree(top, write) => if s.memory.Down? then s else Commit(s, Drop(s.memory.catalog, top), write)
    case Serve(_) => s
  }

  /** What the guest is told by a step. */
  ghost function Told(s: State, a: Action): seq<Event>
    requires Fits(a) && Valid(s)
  {
    if s.memory.Down? then [] else
    var c := s.memory.catalog;
    match a
    case LookUp(rel, write) => (
      match IdFor(c, s.host, rel)
      case Issued(id, d) =>
        if AtHand(c, s.host, rel) || write.Durable?
        then [Event(id, HostIdentity(s.host, rel), id == c.next)] else []
      case _ => []
    )
    case Serve(id) =>
      if id in c.hosts && id in c.ids && HostIdentity(s.host, c.ids[id]) == c.hosts[id]
      then [Event(id, HostIdentity(s.host, c.ids[id]), false)] else []
    case _ => []
  }

  /** An older version and a later catalogue bind no CNID to two identities. */
  ghost predicate Agrees(v: Catalog, c: Catalog) {
    v.next <= c.next && forall id :: id in v.hosts && id in c.hosts ==> v.hosts[id] == c.hosts[id]
  }

  ghost predicate Past(s: State, v: Catalog) {
    Sound(v) && TwoWay(v) && Agrees(v, s.disk) && (s.memory.Up? ==> Agrees(v, s.memory.catalog))
  }

  ghost predicate Valid(s: State) {
    && Sound(s.disk) && TwoWay(s.disk) && Identified(s.host)
    && (s.memory.Up? ==> Sound(s.memory.catalog) && s.disk == Normal(s.memory.catalog))
    && forall i :: 0 <= i < |s.older| ==> Past(s, s.older[i])
  }

  /** What the guest was told still holds of the catalogue, or the CNID is gone for good. */
  ghost predicate Honours(c: Catalog, e: Event) {
    e.id < c.next && (e.id in c.hosts ==> c.hosts[e.id] == e.identity)
  }

  /** It holds of the file and of the server's memory, and, if power may fail, of every version that may come back. */
  ghost predicate Keeping(s: State, e: Event, failing: bool) {
    && Honours(s.disk, e) && (s.memory.Up? ==> Honours(s.memory.catalog, e))
    && (failing ==> forall i :: 0 <= i < |s.older| ==> Honours(s.older[i], e))
  }

  ghost predicate Honest(s: State, log: seq<Event>, failing: bool) {
    forall i :: 0 <= i < |log| ==> Keeping(s, log[i], failing)
  }

  /** Told twice of a CNID, the guest was told of one object; and a new CNID is one it was never told of. */
  ghost predicate Consistent(log: seq<Event>) {
    forall i, j :: 0 <= i < j < |log| && log[i].id == log[j].id ==>
      log[i].identity == log[j].identity && !log[j].isNew
  }

  ghost predicate Runs(acts: seq<Action>) {
    forall i :: 0 <= i < |acts| ==> Fits(acts[i])
  }

  /** No version that a power failure may bring back is older than the CNIDs just told. */
  ghost predicate Covered(s: State, told: seq<Event>) {
    forall k, i :: 0 <= k < |told| && 0 <= i < |s.older| ==> told[k].id < s.older[i].next
  }

  // ----- states stay valid

  lemma {:induction false} KeepsAgrees(v: Catalog, c: Catalog, d: Catalog)
    requires Sound(v) && Agrees(v, c) && Keeps(c, d)
    ensures Agrees(v, d)
  {
    forall id | id in v.hosts && id in d.hosts
      ensures v.hosts[id] == d.hosts[id]
    {
      assert Holder(v, id);
    }
  }

  lemma {:induction false} NormalAgrees(c: Catalog)
    ensures Agrees(Normal(c), c)
  {
  }

  lemma {:induction false} CommitIsValid(s: State, c: Catalog, write: Write)
    requires Valid(s) && s.memory.Up? && Sound(c) && Keeps(s.memory.catalog, c)
    ensures Valid(Commit(s, c, write))
  {
    var b, t := s.memory.catalog, Commit(s, c, write);
    NormalIsSound(c);
    NormalKeeps(c);
    NormalAgrees(b);
    hide Sound, TwoWay, Normal, Agrees, Keeps;
    KeepsAgrees(s.disk, b, c);
    KeepsAgrees(s.disk, c, Normal(c));
    forall i | 0 <= i < |t.older|
      ensures Past(t, t.older[i])
    {
      if i < |s.older| {
        assert Past(s, s.older[i]);
        KeepsAgrees(s.older[i], b, c);
        KeepsAgrees(s.older[i], c, Normal(c));
      }
    }
  }

  /** Moves and deletions keep what the catalogue binds, as look-ups do. */
  lemma {:induction false} ChangesKeep(c: Catalog, source: string, destination: string)
    ensures Keeps(c, Move(c, source, destination)) && Keeps(c, Drop(c, source))
  {
  }

  lemma {:induction false} NextIsValid(s: State, a: Action)
    requires Valid(s) && Fits(a)
    ensures Valid(Next(s, a))
  {
    hide Sound, TwoWay, Move, Drop, Normal, Agrees, Keeps, Identified, IdFor;
    assert forall i :: 0 <= i < |s.older| ==> Past(s, s.older[i]);
    if a.Restart? || a.PowerLoss? {
      StopIsValid(s, a);
    } else if s.memory.Up? {
      var c := s.memory.catalog;
      match a {
        case LookUp(rel, write) =>
          if IdFor(c, s.host, rel).Issued? {
            IssuedIsBound(c, s.host, rel);
            CommitIsValid(s, IdFor(c, s.host, rel).catalog, write);
          }
        case MoveTree(source, destination, write) =>
          MoveIsSound(c, source, destination);
          ChangesKeep(c, source, destination);
          CommitIsValid(s, Move(c, source, destination), write);
        case DropTree(top, write) =>
          PathIsNotEmpty(top);
          DropIsSound(c, top);
          ChangesKeep(c, top, "");
          CommitIsValid(s, Drop(c, top), write);
        case _ =>
      }
    }
  }

  lemma {:induction false} StopIsValid(s: State, a: Action)
    requires Valid(s) && (a.Restart? || a.PowerLoss?)
    ensures Valid(Next(s, a))
  {
    NormalIsSound(s.disk);
    hide Sound, TwoWay, Normal, Agrees, Identified;
    assert forall i :: 0 <= i < |s.older| ==> Past(s, s.older[i]);
  }

  // ----- nothing told is unsaid

  /** A step's catalogue honours what the old one honoured. */
  lemma {:induction false} KeepsHonours(c: Catalog, d: Catalog, e: Event)
    requires Keeps(c, d) && Honours(c, e)
    ensures Honours(d, e)
  {
  }

  lemma {:induction false} NormalKeeps(c: Catalog)
    ensures Keeps(c, Normal(c))
  {
  }

  lemma {:induction false} CommitHonours(s: State, d: Catalog, write: Write, e: Event, failing: bool)
    requires s.memory.Up? && Keeps(s.memory.catalog, d) && Keeping(s, e, failing)
    ensures Keeping(Commit(s, d, write), e, failing)
  {
    hide Normal, Honours;
    KeepsHonours(s.memory.catalog, d, e);
    NormalKeeps(d);
    KeepsHonours(d, Normal(d), e);
  }

  /** No step unsays what the guest was told before. */
  lemma {:induction false} NextHonours(s: State, a: Action, e: Event, failing: bool)
    requires Valid(s) && Fits(a) && Keeping(s, e, failing) && (a.PowerLoss? ==> failing)
    ensures Keeping(Next(s, a), e, failing)
  {
    hide Sound, TwoWay, Normal, Honours, Past, IdFor, Identified, Keeps, Move, Drop;
    if s.memory.Up? {
      var c := s.memory.catalog;
      match a {
        case LookUp(rel, write) =>
          if IdFor(c, s.host, rel).Issued? {
            IssuedIsBound(c, s.host, rel);
            CommitHonours(s, IdFor(c, s.host, rel).catalog, write, e, failing);
          }
        case MoveTree(source, destination, write) =>
          ChangesKeep(c, source, destination);
          CommitHonours(s, Move(c, source, destination), write, e, failing);
        case DropTree(top, write) =>
          ChangesKeep(c, top, "");
          CommitHonours(s, Drop(c, top), write, e, failing);
        case _ =>
      }
    }
  }

  /** What a step tells agrees with what the guest was told before. */
  lemma {:induction false} ToldIsBound(s: State, a: Action, e: Event)
    requires Valid(s) && Fits(a) && e in Told(s, a)
    ensures var t := Next(s, a);
      t.memory.Up? && e.id in t.memory.catalog.hosts && t.memory.catalog.hosts[e.id] == e.identity
    ensures var c := s.memory.catalog;
      if e.isNew then c.next <= e.id else e.id in c.hosts && c.hosts[e.id] == e.identity
  {
    if a.LookUp? { IssuedIsBound(s.memory.catalog, s.host, a.rel); }
  }

  /** And it stays honoured: by the older versions too, if they have all seen the CNID. */
  lemma {:induction false} ToldIsHonest(s: State, a: Action, e: Event, failing: bool)
    requires Valid(s) && Fits(a) && e in Told(s, a) && (failing ==> Covered(Next(s, a), Told(s, a)))
    ensures Keeping(Next(s, a), e, failing)
  {
    hide Told, IdFor, Sound, TwoWay, Next, Normal;
    ToldIsBound(s, a, e);
    NextIsValid(s, a);
    var t := Next(s, a);
    ToldAfter(t.memory.catalog, e);
    if failing {
      var k :| 0 <= k < |Told(s, a)| && Told(s, a)[k] == e;
      forall i | 0 <= i < |t.older|
        ensures Honours(t.older[i], e)
      {
        assert Past(t, t.older[i]);
      }
    }
  }

  lemma {:induction false} ToldAfter(d: Catalog, e: Event)
    requires Sound(d) && e.id in d.hosts && d.hosts[e.id] == e.identity
    ensures Honours(d, e) && Honours(Normal(d), e) && e.id < d.next
  {
    assert e.id in d.ids && Holder(d, e.id);
    assert Entry(d, "");
  }

  // ----- whole runs

  ghost function Run(s: State, acts: seq<Action>): State
    requires Valid(s) && Runs(acts)
    ensures Valid(Run(s, acts))
    decreases |acts|
  {
    if acts == [] then s else
    NextIsValid(s, acts[0]);
    Run(Next(s, acts[0]), acts[1..])
  }

  ghost function Log(s: State, acts: seq<Action>): seq<Event>
    requires Valid(s) && Runs(acts)
    decreases |acts|
  {
    if acts == [] then [] else
    NextIsValid(s, acts[0]);
    Told(s, acts[0]) + Log(Next(s, acts[0]), acts[1..])
  }

  /** Whatever is told, is told when every version that may come back has seen it. */
  ghost predicate AllCovered(s: State, acts: seq<Action>)
    requires Valid(s) && Runs(acts)
    decreases |acts|
  {
    acts == [] ||
    (NextIsValid(s, acts[0]);
     Covered(Next(s, acts[0]), Told(s, acts[0])) && AllCovered(Next(s, acts[0]), acts[1..]))
  }

  /** Power never fails, or does so only with nothing uncovered. */
  ghost predicate Sheltered(s: State, acts: seq<Action>, failing: bool)
    requires Valid(s) && Runs(acts)
  {
    if failing then AllCovered(s, acts) else forall i :: 0 <= i < |acts| ==> !acts[i].PowerLoss?
  }

  lemma {:induction false} StepIsConsistent(s: State, a: Action, log: seq<Event>, failing: bool)
    requires Valid(s) && Fits(a) && Honest(s, log, failing) && Consistent(log)
    requires if failing then Covered(Next(s, a), Told(s, a)) else !a.PowerLoss?
    ensures Honest(Next(s, a), log + Told(s, a), failing) && Consistent(log + Told(s, a))
  {
    hide Valid, Next, Keeping, Told, Covered;
    var more := log + Told(s, a);
    forall i | 0 <= i < |more|
      ensures Keeping(Next(s, a), more[i], failing)
    {
      if i < |log| {
        NextHonours(s, a, log[i], failing);
      } else {
        ToldIsHonest(s, a, more[i], failing);
      }
    }
    AtMostOne(s, a);
    forall i, j | 0 <= i < j < |more| && more[i].id == more[j].id
      ensures more[i].identity == more[j].identity && !more[j].isNew
    {
      if j >= |log| {
        ToldIsBound(s, a, more[j]);
        HonestMeans(s, log[i], failing);
      }
    }
  }

  lemma {:induction false} AtMostOne(s: State, a: Action)
    requires Valid(s) && Fits(a)
    ensures |Told(s, a)| <= 1 && (Told(s, a) != [] ==> s.memory.Up?)
  {
    hide Valid, IdFor;
  }

  lemma {:induction false} HonestMeans(s: State, e: Event, failing: bool)
    requires s.memory.Up? && Keeping(s, e, failing)
    ensures var c := s.memory.catalog; e.id < c.next && (e.id in c.hosts ==> c.hosts[e.id] == e.identity)
  {
  }

  lemma {:induction false} RunIsConsistent(s: State, acts: seq<Action>, log: seq<Event>, failing: bool)
    requires Valid(s) && Runs(acts) && Honest(s, log, failing) && Consistent(log) && Sheltered(s, acts, failing)
    ensures Honest(Run(s, acts), log + Log(s, acts), failing) && Consistent(log + Log(s, acts))
    decreases |acts|
  {
    hide Valid, Consistent, Honest, Next, Told, Covered;
    if acts == [] {
      assert log + Log(s, acts) == log;
    } else {
      NextIsValid(s, acts[0]);
      StepIsConsistent(s, acts[0], log, failing);
      var more := log + Told(s, acts[0]);
      RunIsConsistent(Next(s, acts[0]), acts[1..], more, failing);
      assert log + Log(s, acts) == more + Log(Next(s, acts[0]), acts[1..]);
    }
  }

  ghost function Started(host: Host): State {
    State(Up(Empty()), Empty(), [], host)
  }

  lemma {:induction false} StartedIsValid(host: Host)
    requires Identified(host)
    ensures Valid(Started(host))
  {
    EmptyIsSound();
    NormalIsSound(Empty());
  }

  /** In every run from an empty catalogue, whatever the writes and the outside world do, a CNID stands for one host
  object only, and none is issued twice: if power never fails, or never with a CNID told that an older version of the
  file has not seen. */
  lemma {:induction false} OneObjectPerId(host: Host, acts: seq<Action>, failing: bool)
    requires Identified(host) && Runs(acts)
    requires Valid(Started(host)) ==> Sheltered(Started(host), acts, failing)
    ensures Valid(Started(host)) && Consistent(Log(Started(host), acts))
  {
    StartedIsValid(host);
    RunIsConsistent(Started(host), acts, [], failing);
    assert [] + Log(Started(host), acts) == Log(Started(host), acts);
  }

  // ----- exactly when a power failure can do harm

  /** A folder in which one object answers to every path the catalogue remembers, and to "x". */
  function Everywhere(c: Catalog, identity: string): Host {
    map p | p in c.ids.Values + {"x"} :: identity
  }

  /** An identity that "x" is not bound to. */
  ghost function Other(c: Catalog): string {
    if Known(c, "x", "0") then "1" else "0"
  }

  lemma {:induction false} XIsPath()
    ensures IsPath("x")
  {
    assert Names(["x"]) && Join(["x"]) == "x";
  }

  /** Whatever the catalogue holds, the next CNID can be issued. */
  lemma {:induction false} NextIsIssued(c: Catalog)
    requires Sound(c) && IsPath("x") && c.next < MAX_ID
    ensures var f := IdFor(c, Everywhere(c, Other(c)), "x");
      f.Issued? && f.id == c.next && f.catalog.next == c.next + 1
    ensures !AtHand(c, Everywhere(c, Other(c)), "x")
    ensures Identified(Everywhere(c, Other(c)))
  {
    var identity := Other(c);
    var host, d := Everywhere(c, identity), Vacated(c, "x");
    VacatedIsFree(c, "x");
    if "x" in c.paths { BoundIsHost(c, "x"); }
    forall id | id in d.hosts
      ensures HostIdentity(host, d.ids[id]) == identity
    {
      assert id in c.ids && d.ids[id] == c.ids[id];
      assert d.ids[id] in c.ids.Values;
    }
    assert Displaced(d, host, identity) == {};
    NothingIsSingle();
  }

  /** From a file that nothing can take back, any CNID from the next one on can come to be told as new. */
  lemma {:induction false} CanTell(s: State, id: int) returns (acts: seq<Action>)
    requires Valid(s) && s.memory.Up? && s.older == [] && s.memory.catalog.next <= id < MAX_ID
    ensures Runs(acts) && AllCovered(s, acts)
    ensures exists e :: e in Log(s, acts) && e.id == id && e.isNew
    decreases id - s.memory.catalog.next
  {
    hide Sound, TwoWay, IdFor, Normal, Identified, Everywhere, AtHand;
    XIsPath();
    var c := s.memory.catalog;
    NextIsIssued(c);
    var out, look := Outside(Everywhere(c, Other(c))), LookUp("x", Durable);
    NextIsValid(s, out);
    var t := Next(s, out);
    NextIsValid(t, look);
    var u := Next(t, look);
    var f := IdFor(c, t.host, "x");
    assert u == Commit(t, f.catalog, Durable) && u.older == [];
    var e := Event(c.next, HostIdentity(t.host, "x"), true);
    assert Told(t, look) == [e] && Told(s, out) == [];
    var more: seq<Action> := [];
    if c.next < id { more := CanTell(u, id); }
    acts := [out] + ([look] + more);
    LogOfTwo(s, out, look, more);
    assert Log(s, acts) == Told(t, look) + Log(u, more);
    if c.next == id {
      assert e in Log(s, acts);
    } else {
      var later :| later in Log(u, more) && later.id == id && later.isNew;
      assert later in Log(s, acts);
    }
  }

  lemma {:induction false} LogOfTwo(s: State, a: Action, b: Action, more: seq<Action>)
    requires Valid(s) && Fits(a) && Fits(b) && Runs(more) && Valid(Next(s, a)) && Valid(Next(Next(s, a), b))
    ensures var acts := [a] + ([b] + more); var t, u := Next(s, a), Next(Next(s, a), b);
      && Runs(acts) && Log(s, acts) == Told(s, a) + (Told(t, b) + Log(u, more))
      && (AllCovered(s, acts) <==> Covered(t, Told(s, a)) && Covered(u, Told(t, b)) && AllCovered(u, more))
  {
    hide Valid, Next, Told, Covered, Fits;
    var acts := [a] + ([b] + more);
    assert acts[1..] == [b] + more && ([b] + more)[1..] == more;
    assert Runs([b] + more);
    assert Log(Next(s, a), [b] + more) == Told(Next(s, a), b) + Log(Next(Next(s, a), b), more);
  }

  /** Told CNIDs stay those of one object, whatever happens next, if and only if they are covered when they are told. */
  lemma {:induction false} ToldIsSafe(s: State, a: Action, log: seq<Event>)
    requires Valid(s) && Fits(a) && Honest(s, log, true) && Consistent(log)
    ensures Valid(Next(s, a))
    ensures Covered(Next(s, a), Told(s, a)) <==>
      forall acts :: Runs(acts) && AllCovered(Next(s, a), acts) ==>
        Consistent(log + Told(s, a) + Log(Next(s, a), acts))
  {
    hide Valid, Next, Honest, Consistent;
    NextIsValid(s, a);
    var t, told := Next(s, a), Told(s, a);
    if Covered(t, told) {
      forall acts | Runs(acts) && AllCovered(t, acts)
        ensures Consistent(log + told + Log(t, acts))
      {
        StepIsConsistent(s, a, log, true);
        RunIsConsistent(t, acts, log + told, true);
      }
    } else {
      var k, i :| 0 <= k < |told| && 0 <= i < |t.older| && told[k].id >= t.older[i].next;
      var acts := TellsTwice(s, a, k, i);
      RepeatIsInconsistent(log + told, Log(t, acts), |log| + k);
    }
  }

  lemma {:induction false} RepeatIsInconsistent(log: seq<Event>, more: seq<Event>, k: nat)
    requires k < |log| && exists e :: e in more && e.id == log[k].id && e.isNew
    ensures !Consistent(log + more)
  {
    var e :| e in more && e.id == log[k].id && e.isNew;
    var j :| 0 <= j < |more| && more[j] == e;
    assert (log + more)[k] == log[k] && (log + more)[|log| + j] == e;
  }

  /** An uncovered CNID can be told as new again: power fails, the older version comes back, and look-ups use it up. */
  lemma {:induction false} TellsTwice(s: State, a: Action, k: nat, i: nat) returns (acts: seq<Action>)
    requires Valid(s) && Fits(a) && Valid(Next(s, a)) && k < |Told(s, a)| && i < |Next(s, a).older|
    requires Told(s, a)[k].id >= Next(s, a).older[i].next
    ensures Runs(acts) && AllCovered(Next(s, a), acts)
    ensures exists e :: e in Log(Next(s, a), acts) && e.id == Told(s, a)[k].id && e.isNew
  {
    hide Sound, TwoWay, IdFor, Normal, Identified, Told;
    var t, id := Next(s, a), Told(s, a)[k].id;
    ToldIsBound(s, a, Told(s, a)[k]);
    ToldAfter(t.memory.catalog, Told(s, a)[k]);
    NextIsSmall(t.memory.catalog);
    NextIsValid(t, PowerLoss(i));
    var u := Next(t, PowerLoss(i));
    NextIsValid(u, Restart);
    var v := Next(u, Restart);
    StopsTellNothing(t, PowerLoss(i));
    StopsTellNothing(u, Restart);
    var more := CanTell(v, id);
    acts := [PowerLoss(i)] + ([Restart] + more);
    LogOfTwo(t, PowerLoss(i), Restart, more);
    assert Log(t, acts) == Log(v, more);
  }

  /** A commit that is not known durable stops the server, which then starts with the CNID it never told. */
  lemma {:induction false} UnsyncedComesBack(s: State, t: State, host: Host)
    requires host == map["x" := "1:"] && s == Started(host) && Valid(s) && IsPath("x") && Identified(host)
    requires t == Next(s, LookUp("x", Unsynced)) && Valid(t)
    ensures var c := Add(Empty(), "x", "1:");
      && Sound(c) && Next(t, Restart) == State(Up(c), c, [Empty()], host)
      && Told(s, LookUp("x", Unsynced)) == [] && Told(t, Restart) == []
  {
    hide Sound, TwoWay, Valid, Normal, IdFor, AtHand, Add;
    EmptyIsSound();
    FirstOfAll(host);
  }

  lemma {:induction false} LooksAgain(u: State, host: Host)
    requires host == map["x" := "1:"] && IsPath("x") && Valid(u)
    requires var c := Add(Empty(), "x", "1:"); Sound(c) && u == State(Up(c), c, [Empty()], host)
    ensures var told := [Event(16, "1:", false)];
      Told(u, LookUp("x", Durable)) == told && Next(u, LookUp("x", Durable)) == u && !Covered(u, told)
  {
    hide Sound, TwoWay, Valid, Normal, IdFor, AtHand, Add;
    SecondLook(Add(Empty(), "x", "1:"), host);
    var told := [Event(16, "1:", false)];
    assert !(told[0].id < u.older[0].next);
  }

  /** It comes to that: a look-up whose commit is not synced, a restart, and the same look-up again. */
  lemma {:induction false} UnsyncedIsUncovered()
    ensures var s := Started(map["x" := "1:"]); var acts := [LookUp("x", Unsynced)] + ([Restart] + []);
      && Valid(s) && Runs(acts) && IsPath("x") && Log(s, acts) == []
      && Told(Run(s, acts), LookUp("x", Durable)) == [Event(16, "1:", false)]
      && Next(Run(s, acts), LookUp("x", Durable)) == Run(s, acts)
      && !Covered(Run(s, acts), [Event(16, "1:", false)])
  {
    hide Sound, Valid, Next, Told, Covered, Add, Run;
    var host: Host := map["x" := "1:"];
    var s, look := Started(host), LookUp("x", Unsynced);
    XIsPath();
    StartedIsValid(host);
    NextIsValid(s, look);
    var t := Next(s, look);
    NextIsValid(t, Restart);
    UnsyncedComesBack(s, t, host);
    LogOfTwo(s, look, Restart, []);
    RunOfTwo(s, look, Restart);
    LooksAgain(Next(t, Restart), host);
  }

  lemma {:induction false} FirstOfAll(host: Host)
    requires host == map["x" := "1:"] && IsPath("x") && Sound(Empty()) && Identified(host)
    ensures var c := Add(Empty(), "x", "1:");
      IdFor(Empty(), host, "x") == Issued(16, c) && !AtHand(Empty(), host, "x") && Normal(c) == c && Sound(c)
  {
    var c := Add(Empty(), "x", "1:");
    EmptyIsSound();
    assert Displaced(Empty(), host, "1:") == {};
    NothingIsSingle();
    AddIsSound(Empty(), "x", "1:");
    NormalIsSound(c);
  }

  lemma {:induction false} SecondLook(c: Catalog, host: Host)
    requires host == map["x" := "1:"] && c == Add(Empty(), "x", "1:") && IsPath("x") && Sound(c)
    ensures IdFor(c, host, "x") == Issued(16, c) && AtHand(c, host, "x") && c.next == 17
  {
    BoundIsHost(c, "x");
  }

  lemma {:induction false} NothingIsSingle()
    ensures !Single({})
  {
    forall id: int
      ensures !Only({}, id)
    {
      assert id in {id};
    }
  }

  lemma {:induction false} RunOfTwo(s: State, a: Action, b: Action)
    requires Valid(s) && Fits(a) && Fits(b) && Valid(Next(s, a))
    ensures Runs([a] + ([b] + [])) && Run(s, [a] + ([b] + [])) == Next(Next(s, a), b)
  {
    hide Valid, Next, Fits;
    var acts := [a] + ([b] + []);
    NextIsValid(Next(s, a), b);
    assert acts[1..] == [b] && [b][1..] == [];
    assert Run(Next(s, a), [b]) == Run(Next(Next(s, a), b), []);
  }

  lemma {:induction false} LogOfMore(s: State, first: seq<Action>, a: Action, more: seq<Action>)
    requires Valid(s) && Runs(first) && Fits(a) && Runs(more) && Valid(Next(Run(s, first), a))
    ensures var t := Run(s, first); var acts := first + ([a] + more);
      Runs(acts) && Log(s, acts) == Log(s, first) + (Told(t, a) + Log(Next(t, a), more))
    decreases |first|
  {
    hide Valid, Next, Told, Fits;
    var acts := first + ([a] + more);
    if first == [] {
      assert acts == [a] + more && acts[1..] == more;
    } else {
      NextIsValid(s, first[0]);
      LogOfMore(Next(s, first[0]), first[1..], a, more);
      assert acts[1..] == first[1..] + ([a] + more);
      assert Runs(acts);
    }
  }

  /** From there the CNID is told as new a second time. */
  lemma {:induction false} UnsyncedIsToldTwice() returns (acts: seq<Action>)
    ensures var s := Started(map["x" := "1:"]); Valid(s) && Runs(acts) && !Consistent(Log(s, acts))
  {
    hide Valid, Next, Told, Consistent, AllCovered;
    UnsyncedIsUncovered();
    var s, look := Started(map["x" := "1:"]), LookUp("x", Durable);
    var first := [LookUp("x", Unsynced)] + ([Restart] + []);
    var t := Run(s, first);
    var e := Event(16, "1:", false);
    var k, i :| 0 <= k < |[e]| && 0 <= i < |t.older| && [e][k].id >= t.older[i].next;
    var more := TellsTwice(t, look, k, i);
    acts := first + ([look] + more);
    LogOfMore(s, first, look, more);
    assert Log(s, acts) == [e] + Log(t, more);
    RepeatIsInconsistent([e], Log(t, more), 0);
  }

  lemma {:induction false} StopsTellNothing(s: State, a: Action)
    requires Valid(s) && (a.PowerLoss? || a.Restart?)
    ensures Told(s, a) == []
  {
  }

  lemma {:induction false} NextIsSmall(c: Catalog)
    requires Sound(c)
    ensures c.next <= MAX_ID
  {
  }
}

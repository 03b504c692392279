/** The catalogue object of the AFP server: its maps are updated in place by loops, and committed to a file.

Every method is proved against the catalogue value of AfpCatalog and the file format of AfpCodec. */
module AfpServer {
  import opened AfpPath
  import opened AfpCatalog
  import opened AfpCodec

  // ----- which CNID a host object has

  function HostIdentity(host: Host, p: string): string {
    if p in host then host[p] else ""
  }

  ghost predicate Identified(host: Host) {
    forall p :: p in host ==> Identity(host[p])
  }

  /** CNIDs bound to this identity whose own path no longer leads to it. */
  function Displaced(c: Catalog, host: Host, identity: string): set<int>
    requires forall id :: id in c.hosts ==> id in c.ids
  {
    set id | id in c.hosts && c.hosts[id] == identity && HostIdentity(host, c.ids[id]) != identity
  }

  /** `id` is the only member. */
  predicate Only(ids: set<int>, id: int) {
    ids == {id}
  }

  ghost predicate Single(ids: set<int>) {
    exists id :: Only(ids, id)
  }

  datatype Found = Missing | Exhausted | Issued(id: int, catalog: Catalog)

  function Add(c: Catalog, p: string, identity: string): Catalog {
    Catalog(c.paths[p := c.next], c.ids[c.next := p], c.hosts[c.next := identity], c.next + 1)
  }

  /** A name taken over by another host object loses its CNID, and so does everything below it. */
  function Vacated(c: Catalog, p: string): Catalog {
    if p in c.paths then Drop(c, p) else c
  }

  /** The identity a catalogued path was last seen with. */
  ghost function Bound(c: Catalog, p: string): string
    requires Sound(c) && p in c.paths
  {
    assert Entry(c, p);
    if p == "" then "" else c.hosts[c.paths[p]]
  }

  /** The catalogue already has the object at this path: nothing is to be committed. */
  ghost predicate AtHand(c: Catalog, host: Host, rel: string)
    requires Sound(c)
  {
    rel in c.paths && Bound(c, rel) == HostIdentity(host, rel)
  }

  /** `idForPath`: the CNID of the object now at `rel`. It is the one it has, or the one of the only displaced entry
  with its identity, which then moves here, or a new one. */
  ghost function IdFor(c: Catalog, host: Host, rel: string): Found
    requires Sound(c) && IsPath(rel)
  {
    var identity := HostIdentity(host, rel);
    if identity == "" then Missing
    else if AtHand(c, host, rel) then Issued(c.paths[rel], c)
    else
      PathIsNotEmpty(rel);
      DropIsSound(c, rel);
      var d := Vacated(c, rel);
      var found := Displaced(d, host, identity);
      if Single(found) then var id :| Only(found, id); Issued(id, Move(d, d.ids[id], rel))
      else if d.next == MAX_ID then Exhausted
      else Issued(d.next, Add(d, rel, identity))
  }

  lemma {:induction false} AtHandChangesNothing(c: Catalog, host: Host, rel: string)
    requires Sound(c) && IsPath(rel) && AtHand(c, host, rel) && IdFor(c, host, rel).Issued?
    ensures IdFor(c, host, rel).catalog == c
  {
  }

  lemma {:induction false} AddIsSound(c: Catalog, p: string, identity: string)
    requires Sound(c) && IsPath(p) && p !in c.paths && Identity(identity) && c.next < MAX_ID
    ensures Sound(Add(c, p, identity))
    ensures TwoWay(c) ==> TwoWay(Add(c, p, identity))
  {
    PathIsNotEmpty(p);
    var a := Add(c, p, identity);
    forall q | q in a.paths
      ensures Entry(a, q)
    {
      if q != p { assert Entry(c, q) && Holder(c, c.paths[q]); }
    }
    forall i | i in a.ids
      ensures Holder(a, i)
    {
      if i != c.next { assert Holder(c, i); }
    }
  }

  /** Whatever CNID an object is given, the catalogue stays sound, binds the CNID to the object's identity, keeps
  every other binding or forgets it, and never lowers the next CNID. */
  lemma {:induction false} IssuedIsBound(c: Catalog, host: Host, rel: string)
    requires Sound(c) && IsPath(rel) && Identified(host) && IdFor(c, host, rel).Issued?
    ensures var f := IdFor(c, host, rel);
      && Sound(f.catalog) && f.id in f.catalog.hosts && f.catalog.hosts[f.id] == HostIdentity(host, rel)
      && Keeps(c, f.catalog) && (f.id in c.hosts || f.id == c.next)
  {
    PathIsNotEmpty(rel);
    DropIsSound(c, rel);
    var d, f, identity := Vacated(c, rel), IdFor(c, host, rel), HostIdentity(host, rel);
    assert Keeps(c, d);
    var found := Displaced(d, host, identity);
    if rel in c.paths && Bound(c, rel) == identity {
      assert Entry(c, rel);
    } else if Single(found) {
      assert Only(found, f.id);
      assert Holder(d, f.id);
      MoveIsSound(d, d.ids[f.id], rel);
    } else {
      AddIsSound(d, rel, identity);
    }
  }

  /** The catalogue has this path, bound to this identity. */
  ghost predicate Known(c: Catalog, p: string, identity: string) {
    p in c.paths && c.paths[p] in c.hosts && c.hosts[c.paths[p]] == identity
  }

  /** The look-up hands out a CNID that is no longer the CNID of its own path. */
  ghost predicate Astray(c: Catalog, host: Host, rel: string)
    requires Sound(c) && IsPath(rel) && IdFor(c, host, rel).Issued?
  {
    var d, id := Vacated(c, rel), IdFor(c, host, rel).id;
    id in d.hosts && !Live(d, id)
  }

  /** A look-up leaves the path catalogued under the CNID it hands out, and bound to the object there, if and only if
  that CNID is new or still the CNID of its own path. */
  lemma {:induction false} IssuedIsKnown(c: Catalog, host: Host, rel: string)
    requires Sound(c) && IsPath(rel) && Identified(host) && IdFor(c, host, rel).Issued?
    ensures var f := IdFor(c, host, rel);
      && (Known(f.catalog, rel, HostIdentity(host, rel)) <==> !Astray(c, host, rel))
      && (!Astray(c, host, rel) ==> f.catalog.paths[rel] == f.id)
  {
    PathIsNotEmpty(rel);
    VacatedIsFree(c, rel);
    var d, f, identity := Vacated(c, rel), IdFor(c, host, rel), HostIdentity(host, rel);
    var found := Displaced(d, host, identity);
    if rel in c.paths && Bound(c, rel) == identity {
      BoundIsHost(c, rel);
      assert f.id in SubtreeIds(c, rel);
    } else if Single(found) {
      assert Only(found, f.id);
      if Live(d, f.id) { MovedIsKnown(d, f.id, rel); } else { StrayIsUnknown(d, host, identity, f.id, rel); }
    } else {
      FreshIsUnbound(d);
    }
  }

  lemma {:induction false} FreshIsUnbound(c: Catalog)
    requires Sound(c)
    ensures c.next !in c.hosts
  {
  }

  lemma {:induction false} MovedIsKnown(c: Catalog, id: int, rel: string)
    requires Sound(c) && Live(c, id) && id in c.hosts
    ensures var m := Move(c, c.ids[id], rel); Known(m, rel, c.hosts[id]) && m.paths[rel] == id
  {
    var p := c.ids[id];
    MoveKeepsIds(c, p, rel, p);
    assert Rebase(p, p, rel) == rel;
  }

  /** Moving the path of a CNID that is not the path's own brings another object's entry, or none. */
  lemma {:induction false} StrayIsUnknown(c: Catalog, host: Host, identity: string, id: int, rel: string)
    requires Sound(c) && rel !in c.paths && id in c.hosts && !Live(c, id)
    requires Only(Displaced(c, host, identity), id)
    ensures !Known(Move(c, c.ids[id], rel), rel, identity)
  {
    var p, found := c.ids[id], Displaced(c, host, identity);
    var m := Move(c, p, rel);
    if rel in m.paths {
      var q :| q in Subtree(c, p) && Rebase(q, p, rel) == rel;
      assert q == p;
      RewrittenAt(c, p, rel, p);
      var x := c.paths[p];
      assert m.paths[rel] == x && Entry(c, p);
      assert id in found;
      assert x in found <==> x in c.hosts && c.hosts[x] == identity;
    }
  }

  /** From `c` to `d` no identity changed, none appeared for an old CNID, and the counter did not go back. */
  ghost predicate Keeps(c: Catalog, d: Catalog) {
    c.next <= d.next && forall id :: id in d.hosts && id < c.next ==> id in c.hosts && d.hosts[id] == c.hosts[id]
  }

  // ----- the object

  /** What becomes of an atomic file replacement: lost before the rename, renamed but not known durable, or durable. */
  datatype Write = Lost | Unsynced | Durable

  datatype Answer = NoObject | NoIds | NotSaved | Answered(id: int)

  /** A catalogue without the paths in `gone`. */
  ghost function Without(c: Catalog, gone: set<string>): Catalog {
    Catalog(c.paths - gone, c.ids - IdsOf(c, gone), c.hosts - IdsOf(c, gone), c.next)
  }

  ghost function IdsOf(c: Catalog, some: set<string>): set<int> {
    set p | p in some && p in c.paths :: c.paths[p]
  }

  lemma {:induction false} WithoutNothing(c: Catalog)
    ensures Without(c, {}) == c
  {
  }

  lemma {:induction false} WithoutSubtree(c: Catalog, top: string, gone: set<string>)
    requires forall p :: p in gone <==> p in c.paths && Under(p, top)
    ensures Without(c, gone) == Drop(c, top)
  {
    assert gone == Subtree(c, top);
    assert IdsOf(c, gone) == SubtreeIds(c, top);
  }

  lemma {:induction false} WithoutOne(c: Catalog, gone: set<string>, p: string)
    requires p in c.paths && p !in gone
    ensures p in Without(c, gone).paths && Without(c, gone).paths[p] == c.paths[p]
    ensures var w, id := Without(c, gone), c.paths[p];
      Without(c, gone + {p}) == Catalog(w.paths - {p}, w.ids - {id}, w.hosts - {id}, w.next)
  {
    assert IdsOf(c, gone + {p}) == IdsOf(c, gone) + {c.paths[p]};
    var w, v, id := Without(c, gone), Without(c, gone + {p}), c.paths[p];
    assert v.paths == w.paths - {p};
    assert v.ids == w.ids - {id};
    assert v.hosts == w.hosts - {id};
  }

  class Catalogue {
    var paths: map<string, int>
    var ids: map<int, string>
    var hosts: map<int, string>
    var next: int
    var journal: Journal
    /** The catalogue file. */
    var file: string

    function Model(): Catalog
      reads this`paths, this`ids, this`hosts, this`next
    {
      Catalog(paths, ids, hosts, next)
    }

    /** The commit of `saveCatalog`, with its outcome on the host as a parameter. A commit that reports success has
    left a file the loader turns back into this catalogue and this journal, or refuses if the journal's source is not
    catalogued. */
    method Save(write: Write) returns (ok: bool)
      requires Sound(Model())
      modifies this`file
      ensures ok ==> Parse(file) == OnFile(Model(), journal)
      ensures file == old(file) || Parse(file) == OnFile(Model(), journal)
      ensures write.Lost? ==> file == old(file)
      ensures !write.Durable? ==> !ok
      ensures write.Durable? && !ok ==> file == old(file)
    {
      hide Parse, Sound, Lists, Records, Text, Word, Checksum, ValidJournal;
      ghost var c := Model();
      NextIsNumber(c);
      var bytes, count, fits;
      ghost var order;
      bytes, count, fits, order := CollectRecords();
      if !fits {
        return false;
      }
      bytes := TAG + (Word(next) + (Word(count) + (bytes + JournalText(journal))));
      if |bytes| > MAX_BYTES - 4 {
        return false;
      }
      SavedLoads(c, order, journal);
      bytes := bytes + Word(Checksum(bytes));
      if !write.Lost? { file := bytes; }
      ok := write.Durable?;
    }

    /** The loop of `saveCatalog`. */
    method CollectRecords() returns (bytes: string, count: nat, fits: bool, ghost order: seq<string>)
      requires Sound(Model())
      ensures Lists(Model(), order) || !fits
      ensures fits ==> bytes == Records(Model(), order) && count == |order|
    {
      hide Sound, Recorded, Record, Records, Text, Word;
      ghost var c := Model();
      ListsNothing(c);
      bytes, count, order := "", |paths.Keys| - 1, [];
      var todo := paths.Keys;
      while todo != {}
        invariant Listing(c, order, todo) && bytes == Records(c, order)
        decreases |todo|
      {
        var p :| p in todo;
        assert todo == todo - {p} + {p};
        todo := todo - {p};
        if paths[p] == ROOT_ID {
          ListsRoot(c, order, todo, p);
        } else {
          ListsOne(c, order, todo, p);
          bytes := bytes + (Word(paths[p]) + (Text(p) + Text(hosts[paths[p]])));
          order := order + [p];
        }
        if 16 + |bytes| > MAX_BYTES - 4 {
          return bytes, count, false, order;
        }
      }
      ListsAll(c, order);
      fits := true;
    }

    /** `dropId` without its commit: the loop that erases a subtree. */
    method DropId(rel: string)
      modifies this`paths, this`ids, this`hosts
      ensures Model() == Drop(old(Model()), rel)
    {
      hide Under, Without, Drop;
      ghost var c, gone := Model(), {};
      WithoutNothing(c);
      var todo := paths.Keys;
      while todo != {}
        invariant todo <= c.paths.Keys && forall q :: q in gone <==> q in c.paths && q !in todo && Under(q, rel)
        invariant Model() == Without(c, gone)
        decreases |todo|
      {
        var p :| p in todo;
        todo := todo - {p};
        if Under(p, rel) {
          WithoutOne(c, gone, p);
          var id := paths[p];
          hosts := hosts - {id};
          ids := ids - {id};
          paths := paths - {p};
          gone := gone + {p};
        }
      }
      WithoutSubtree(c, rel, gone);
    }

    /** `moveIds` without its commit: collect the rewritten paths, drop the subtree, put them back. */
    method MoveIds(source: string, destination: string)
      requires Sound(Model())
      modifies this`paths, this`ids, this`hosts
      ensures Model() == Move(old(Model()), source, destination)
    {
      hide Sound, Move, Drop, Rewritten, Halfway;
      ghost var c := Model();
      var moved := CollectMoved(source, destination);
      var identities := hosts;
      DropId(source);
      HalfwayStart(c, source, destination);
      HalfwayEnd(c, source, destination);
      var todo := moved.Keys;
      assert moved.Keys - todo == {};
      while todo != {}
        invariant todo <= moved.Keys
        invariant Model() == Halfway(c, source, destination, moved.Keys - todo)
        decreases |todo|
      {
        var q :| q in todo;
        var id := moved[q];
        HalfwayOne(c, source, destination, moved.Keys - todo, q);
        assert moved.Keys - (todo - {q}) == moved.Keys - todo + {q};
        todo := todo - {q};
        paths := paths[q := id];
        ids := ids[id := q];
        if id in identities { hosts := hosts[id := identities[id]]; }
      }
      assert moved.Keys - {} == moved.Keys;
    }

    /** Its first loop. */
    method CollectMoved(source: string, destination: string) returns (moved: map<string, int>)
      requires Sound(Model())
      ensures moved == Rewritten(Model(), source, destination)
    {
      hide Sound, Rewritten, Rebase;
      ghost var c := Model();
      moved := map[];
      var todo := paths.Keys;
      while todo != {}
        invariant todo <= paths.Keys && Collected(c, source, destination, moved, todo)
        decreases |todo|
      {
        var p :| p in todo;
        todo := todo - {p};
        if Under(p, source) {
          var q := Rebase(p, source, destination);
          if q !in moved { moved := moved[q := paths[p]]; }
          CollectedOne(c, source, destination, p);
        }
      }
      CollectedAll(c, source, destination, moved);
    }

    /** `pathForId`: the path of a CNID, but only while the object it was issued for is still there. */
    method PathForId(host: Host, id: int) returns (p: string)
      requires Sound(Model())
      ensures p != NO_PATH ==> id in ids && p == ids[id] && (id == ROOT_ID || HostIdentity(host, p) == hosts[id])
      ensures p == NO_PATH && id in ids && ids[id] != NO_PATH ==>
        id != ROOT_ID && HostIdentity(host, ids[id]) != hosts[id]
    {
      if id !in ids { return NO_PATH; }
      assert Holder(Model(), id);
      if id in hosts && HostIdentity(host, ids[id]) != hosts[id] { return NO_PATH; }
      return ids[id];
    }

    /** `idForPath`: the CNID of the object at `rel`, committed before it is handed out. */
    method IdForPath(host: Host, rel: string, write: Write) returns (a: Answer)
      requires Sound(Model()) && journal == CLEAR && Identified(host)
      requires rel == "" || IsPath(rel)
      modifies this`paths, this`ids, this`hosts, this`next, this`file
      ensures rel == "" ==> a == Answered(ROOT_ID) && Model() == old(Model()) && file == old(file)
      ensures rel != "" ==>
        match IdFor(old(Model()), host, rel)
        case Missing => a.NoObject? && Model() == old(Model()) && file == old(file)
        case Exhausted => a.NoIds? && file == old(file)
        case Issued(id, c) =>
          && Model() == c && (a == Answered(id) || a.NotSaved?)
          && (Parse(file) == Loaded(Snapshot(Normal(c), CLEAR)) ||
              (file == old(file) && (a.Answered? ==> AtHand(old(Model()), host, rel) && c == old(Model()))))
          && (write.Durable? && a.NotSaved? ==> file == old(file))
    {
      hide Sound, Drop, Parse, Move, OnFile;
      if rel == "" { return Answered(ROOT_ID); }
      ghost var c := Model();
      PathIsNotEmpty(rel);
      DropIsSound(c, rel);
      var identity := HostIdentity(host, rel);
      if identity == "" { return NoObject; }
      if rel in paths {
        BoundIsHost(c, rel);
        if hosts[paths[rel]] == identity { return Answered(paths[rel]); }
        DropId(rel);
      }
      ghost var d := Model();
      assert d == Vacated(c, rel);
      VacatedIsFree(c, rel);
      var moved := FindDisplaced(host, identity);
      if moved != 0 {
        assert Only(Displaced(d, host, identity), moved);
        a := Adopt(moved, rel, write);
        return;
      }
      if next == MAX_ID { return NoIds; }
      assert !Single(Displaced(d, host, identity));
      a := Issue(rel, identity, write);
    }

    /** The displaced CNID moves here with all that lies below its old path. */
    method Adopt(moved: int, rel: string, write: Write) returns (a: Answer)
      requires Sound(Model()) && journal == CLEAR && moved in hosts && moved in ids && IsPath(rel)
      modifies this`paths, this`ids, this`hosts, this`file
      ensures Model() == Move(old(Model()), old(ids[moved]), rel) && (a == Answered(moved) || a.NotSaved?)
      ensures Parse(file) == Loaded(Snapshot(Normal(Model()), CLEAR)) || (file == old(file) && !a.Answered?)
      ensures write.Durable? && a.NotSaved? ==> file == old(file)
    {
      hide Sound, Move, Parse, OnFile, Normal, IsPath;
      DisplacedIsPlaced(Model(), moved);
      MoveIsSound(Model(), ids[moved], rel);
      MoveIds(ids[moved], rel);
      ClearOnFile(Model());
      var ok := Save(write);
      a := if ok then Answered(moved) else NotSaved;
    }

    /** A new CNID. */
    method Issue(rel: string, identity: string, write: Write) returns (a: Answer)
      requires Sound(Model()) && journal == CLEAR && IsPath(rel) && rel !in paths && Identity(identity)
        && next != MAX_ID
      modifies this`paths, this`ids, this`hosts, this`next, this`file
      ensures Model() == Add(old(Model()), rel, identity) && (a == Answered(old(next)) || a.NotSaved?)
      ensures Parse(file) == Loaded(Snapshot(Normal(Model()), CLEAR)) || (file == old(file) && !a.Answered?)
      ensures write.Durable? && a.NotSaved? ==> file == old(file)
    {
      hide Sound, Parse, OnFile, Normal, IsPath, Identity;
      NextIsBelow(Model());
      AddIsSound(Model(), rel, identity);
      var id := next;
      next := next + 1;
      paths := paths[rel := id];
      ids := ids[id := rel];
      hosts := hosts[id := identity];
      ClearOnFile(Model());
      var ok := Save(write);
      a := if ok then Answered(id) else NotSaved;
    }

    /** The loop of `idForPath`: the only displaced CNID with this identity, or 0. */
    method FindDisplaced(host: Host, identity: string) returns (moved: int)
      requires Sound(Model())
      ensures moved == 0 ==> !Single(Displaced(Model(), host, identity))
      ensures moved != 0 ==> Only(Displaced(Model(), host, identity), moved)
    {
      ghost var found := Displaced(Model(), host, identity);
      moved := 0;
      var todo := hosts.Items;
      while todo != {}
        invariant todo <= hosts.Items
        invariant forall id :: id in found ==> id == moved || (id, identity) in todo
        invariant moved != 0 ==> moved in found && (moved, identity) !in todo
        decreases |todo|
      {
        var entry :| entry in todo;
        todo := todo - {entry};
        var id := entry.0;
        assert entry in hosts.Items && Holder(Model(), id);
        if entry.1 != identity || HostIdentity(host, ids[id]) == identity { continue; }
        if moved != 0 {
          assert moved in found && id in found && id != moved;
          return 0;
        }
        moved := id;
      }
    }

    /** `loadCatalog` up to the recovery: read the file back, or refuse it and keep everything as it is. */
    method Load() returns (ok: bool)
      modifies this`paths, this`ids, this`hosts, this`next, this`journal
      ensures match Parse(file)
        case Refused => !ok && Model() == old(Model()) && journal == old(journal)
        case Loaded(s) => ok && Model() == s.catalog && journal == s.journal && Sound(Model()) && TwoWay(Model())
    {
      hide Sound, TwoWay, Read32, ReadRecords, ReadJournal, Checksum, ValidJournal;
      var b := file;
      if |b| < 20 || |b| > MAX_BYTES { return false; }
      if b[..8] != TAG { return false; }
      var first, count := Read32(b, 8), Read32(b, 12);
      if first.value < FIRST_ID || count.value > (|b| - 20) / 9 { return false; }
      var records := LoadRecords(b, count.value, first.value);
      if records.Bad? { return false; }
      var pending := LoadJournal(b, records.at, records.value);
      if pending.Bad? { return false; }
      var sum := Read32(b, pending.at);
      if sum.Bad? || sum.at != |b| || Checksum(b[..pending.at]) != sum.value { return false; }
      LoadedIsSound(b);
      paths, ids, hosts, next := records.value.paths, records.value.ids, records.value.hosts, records.value.next;
      journal := pending.value;
      ok := true;
    }
  }

  /** The record loop of `loadCatalog`. */
  method LoadRecords(b: string, count: nat, next: nat) returns (r: Read<Catalog>)
    requires 16 <= |b|
    ensures r == ReadRecords(b, 16, count, Empty().(next := next))
  {
    hide Read32, ReadText, IsPath;
    var c, at := Empty().(next := next), 16;
    for i := 0 to count
      invariant 0 <= at <= |b| && c.next == next
      invariant ReadRecords(b, at, count - i, c) == ReadRecords(b, 16, count, Empty().(next := next))
    {
      var id := Read32(b, at);
      if id.Bad? { return Bad; }
      var p := ReadText(b, id.at);
      if p.Bad? || id.value < FIRST_ID || id.value >= next { return Bad; }
      var valid := ValidCatalogPath(p.value);
      if !valid || id.value in c.ids || p.value in c.paths { return Bad; }
      var identity := ReadText(b, p.at);
      if identity.Bad? || !Identity(identity.value) { return Bad; }
      c := Catalog(c.paths[p.value := id.value], c.ids[id.value := p.value], c.hosts[id.value := identity.value], next);
      at := identity.at;
    }
    r := Got(c, at);
  }

  /** The journal check of `loadCatalog`. */
  method LoadJournal(b: string, at: nat, c: Catalog) returns (r: Read<Journal>)
    ensures r == ReadJournal(b, at, c)
  {
    hide Read32, ReadText, IsPath;
    var source := ReadText(b, at);
    if source.Bad? { return Bad; }
    var destination := ReadText(b, source.at);
    if destination.Bad? { return Bad; }
    var flags := Read32(b, destination.at);
    if flags.Bad? || flags.value > 3 { return Bad; }
    var deleting := flags.value >= 2;
    var sourceOk := ValidCatalogPath(source.value);
    var destinationOk := ValidCatalogPath(destination.value);
    if source.value == "" {
      if destination.value != "" || flags.value != 0 { return Bad; }
    } else if !sourceOk || source.value !in c.paths {
      return Bad;
    } else if deleting {
      if destination.value != "" { return Bad; }
    } else if !destinationOk || source.value == destination.value {
      return Bad;
    }
    r := Got(Journal(source.value, destination.value, flags.value % 2 == 1, deleting), flags.at);
  }

  lemma {:induction false} BoundIsHost(c: Catalog, p: string)
    requires Sound(c) && p in c.paths && p != ""
    ensures c.paths[p] in c.hosts && Bound(c, p) == c.hosts[c.paths[p]]
  {
    assert Entry(c, p);
  }

  lemma {:induction false} VacatedIsFree(c: Catalog, p: string)
    requires Sound(c) && p != ""
    ensures Sound(Vacated(c, p)) && p !in Vacated(c, p).paths
    ensures forall id :: id in Vacated(c, p).hosts ==> id in Vacated(c, p).ids
  {
    DropIsSound(c, p);
  }

  lemma {:induction false} DisplacedIsPlaced(c: Catalog, id: int)
    requires Sound(c) && id in c.hosts
    ensures id in c.ids && IsPath(c.ids[id])
  {
    assert Holder(c, id);
  }

  lemma {:induction false} ClearOnFile(c: Catalog)
    ensures OnFile(c, CLEAR) == Loaded(Snapshot(Normal(c), CLEAR))
  {
  }

  lemma {:induction false} NextIsBelow(c: Catalog)
    requires Sound(c) && c.next != MAX_ID
    ensures 0 <= c.next < MAX_ID
  {
  }

  /** `moved` holds the rewritten entries of the paths outside `todo`. */
  ghost predicate Collected(c: Catalog, source: string, destination: string, moved: map<string, int>,
                            todo: set<string>) {
    && (forall q :: q in moved ==> q in Rewritten(c, source, destination))
    && (forall q :: q in moved ==> moved[q] == Rewritten(c, source, destination)[q])
    && (forall p :: p in c.paths && p !in todo && Under(p, source) ==> Rebase(p, source, destination) in moved)
  }

  lemma {:induction false} CollectedOne(c: Catalog, source: string, destination: string, p: string)
    requires p in c.paths && Under(p, source)
    ensures Rebase(p, source, destination) in Rewritten(c, source, destination)
    ensures Rewritten(c, source, destination)[Rebase(p, source, destination)] == c.paths[p]
  {
    RewrittenAt(c, source, destination, p);
  }

  lemma {:induction false} CollectedAll(c: Catalog, source: string, destination: string, moved: map<string, int>)
    requires Collected(c, source, destination, moved, {})
    ensures moved == Rewritten(c, source, destination)
  {
    var r := Rewritten(c, source, destination);
    forall q | q in r
      ensures q in moved
    {
      var p :| p in Subtree(c, source) && Rebase(p, source, destination) == q;
    }
  }

  /** CNIDs taken out with their subtree whose rewritten path is not in `done` yet. */
  ghost function Away(c: Catalog, source: string, destination: string, done: set<string>): set<int> {
    set p | p in c.paths && Under(p, source) && Rebase(p, source, destination) !in done :: c.paths[p]
  }

  /** The catalogue with the subtree gone and the rewritten paths in `done` put back. */
  ghost function Halfway(c: Catalog, source: string, destination: string, done: set<string>): Catalog {
    var r, away := Rewritten(c, source, destination), Away(c, source, destination, done);
    Catalog(c.paths - Subtree(c, source) + (r - (r.Keys - done)),
            Move(c, source, destination).ids - away, c.hosts - away, c.next)
  }

  lemma {:induction false} HalfwayStart(c: Catalog, source: string, destination: string)
    requires Sound(c)
    ensures Halfway(c, source, destination, {}) == Drop(c, source)
  {
    var h, d, r := Halfway(c, source, destination, {}), Drop(c, source), Rewritten(c, source, destination);
    AllAway(c, source, destination);
    MovedIdsOutside(c, source, destination);
    hide Rewritten, Move, Away, Subtree, SubtreeIds, Sound;
    assert r - (r.Keys - {}) == map[];
    assert h.paths == d.paths;
  }

  lemma {:induction false} AllAway(c: Catalog, source: string, destination: string)
    ensures Away(c, source, destination, {}) == SubtreeIds(c, source)
  {
    hide Rebase;
  }

  lemma {:induction false} MovedIdsOutside(c: Catalog, source: string, destination: string)
    ensures Move(c, source, destination).ids - SubtreeIds(c, source) == c.ids - SubtreeIds(c, source)
  {
    hide Rewritten, SubtreeIds;
  }

  lemma {:induction false} HalfwayEnd(c: Catalog, source: string, destination: string)
    requires Sound(c)
    ensures Halfway(c, source, destination, Rewritten(c, source, destination).Keys) == Move(c, source, destination)
  {
    var r, m := Rewritten(c, source, destination), Move(c, source, destination);
    forall p | p in c.paths && Under(p, source)
      ensures Rebase(p, source, destination) in r
    {
      RewrittenAt(c, source, destination, p);
    }
    assert Away(c, source, destination, r.Keys) == {};
    assert r - (r.Keys - r.Keys) == r;
    assert m.ids - {} == m.ids && c.hosts - {} == c.hosts;
  }

  lemma {:induction false} PutBack<V>(m: map<int, V>, away: set<int>, id: int)
    requires id in m
    ensures m - (away - {id}) == (m - away)[id := m[id]]
  {
  }

  lemma {:induction false} AwayOne(c: Catalog, source: string, destination: string, done: set<string>, p: string)
    requires Sound(c) && p in c.paths && Under(p, source)
    ensures Away(c, source, destination, done + {Rebase(p, source, destination)}) ==
            Away(c, source, destination, done) - {c.paths[p]}
  {
    var q := Rebase(p, source, destination);
    forall x | x in c.paths && Under(x, source)
      ensures Rebase(x, source, destination) == q <==> x == p
      ensures c.paths[x] == c.paths[p] <==> x == p
    {
      if Rebase(x, source, destination) == q { RebaseInjective(x, p, source, destination); }
      if c.paths[x] == c.paths[p] { PathsAreInjective(c, x, p); }
    }
  }

  lemma {:induction false} HalfwayOne(c: Catalog, source: string, destination: string, done: set<string>, q: string)
    requires Sound(c) && q in Rewritten(c, source, destination)
    ensures var h, id := Halfway(c, source, destination, done), Rewritten(c, source, destination)[q];
      Halfway(c, source, destination, done + {q}) ==
      Catalog(h.paths[q := id], h.ids[id := q], if id in c.hosts then h.hosts[id := c.hosts[id]] else h.hosts, h.next)
  {
    var r, m := Rewritten(c, source, destination), Move(c, source, destination);
    var p :| p in Subtree(c, source) && Rebase(p, source, destination) == q;
    RewrittenAt(c, source, destination, p);
    MoveKeepsIds(c, source, destination, p);
    AwayOne(c, source, destination, done, p);
    var id, away := c.paths[p], Away(c, source, destination, done);
    hide Rewritten, Move, Away, Subtree, Sound;
    PutBack(m.ids, away, id);
    if id in c.hosts { PutBack(c.hosts, away, id); } else { LeaveOut(c.hosts, away, id); }
    MergeOne(c.paths - Subtree(c, source), r, done, q);
  }

  lemma {:induction false} LeaveOut<V>(m: map<int, V>, away: set<int>, id: int)
    requires id !in m
    ensures m - (away - {id}) == m - away
  {
  }

  lemma {:induction false} MergeOne(m: map<string, int>, r: map<string, int>, done: set<string>, q: string)
    requires q in r
    ensures m + (r - (r.Keys - (done + {q}))) == (m + (r - (r.Keys - done)))[q := r[q]]
  {
  }

  /** `order` lists the catalogued paths outside `todo`, without the root. */
  ghost predicate Listing(c: Catalog, order: seq<string>, todo: set<string>) {
    && todo <= c.paths.Keys
    && (forall i :: 0 <= i < |order| ==> Recorded(c, order[i]) && order[i] !in todo)
    && (forall i, k :: 0 <= i < k < |order| ==> order[i] != order[k])
    && (forall p :: p in c.paths && p != "" && p !in todo ==> p in order)
    && |order| + |todo| + (if "" in todo then 0 else 1) == |c.paths.Keys|
  }

  lemma {:induction false} NextIsNumber(c: Catalog)
    requires Sound(c)
    ensures 0 <= c.next
  {
  }

  lemma {:induction false} ListsNothing(c: Catalog)
    requires Sound(c)
    ensures Listing(c, [], c.paths.Keys) && Records(c, []) == "" && 1 <= |c.paths.Keys|
  {
  }

  lemma {:induction false} ListsRoot(c: Catalog, order: seq<string>, todo: set<string>, p: string)
    requires Sound(c) && p in c.paths && p !in todo && Listing(c, order, todo + {p}) && c.paths[p] == ROOT_ID
    ensures Listing(c, order, todo)
  {
    assert Entry(c, p);
    assert p == "";
    assert |todo + {p}| == |todo| + 1;
  }

  lemma {:induction false} ListsOne(c: Catalog, order: seq<string>, todo: set<string>, p: string)
    requires Sound(c) && p in c.paths && p !in todo && Listing(c, order, todo + {p}) && c.paths[p] != ROOT_ID
    ensures Recorded(c, p) && Listing(c, order + [p], todo)
    ensures Records(c, order + [p]) ==
            Records(c, order) + (Word(c.paths[p]) + (Text(p) + Text(c.hosts[c.paths[p]])))
  {
    assert Entry(c, p);
    assert Entry(c, "");
    assert |todo + {p}| == |todo| + 1;
    assert (order + [p])[..|order|] == order;
  }

  lemma {:induction false} ListsAll(c: Catalog, order: seq<string>)
    requires Sound(c) && Listing(c, order, {})
    ensures Lists(c, order) && |order| == |c.paths.Keys| - 1
  {
  }
}

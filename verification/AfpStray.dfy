/** A CNID gone astray: the run in which a look-up hands out a CNID under which its path is not catalogued, and what
then becomes of a move that is interrupted.

The guest looks "a" and "b" up. Outside the server "b" is renamed "c". The guest moves "a" to "b", which leaves the
CNID of the renamed object with a path that is now another's. Looking "c" up finds that CNID by its identity, but moves
the entry of the other. */
module AfpStray {
  import opened AfpPath
  import opened AfpCatalog
  import opened AfpCodec
  import opened AfpServer
  import opened AfpRuns
  import J = AfpJournal

  function First(): Host { map["a" := "1:", "b" := "2:"] }

  function Renamed(): Host { map["a" := "1:", "c" := "2:"] }

  function Moved(): Host { map["b" := "1:", "c" := "2:"] }

  /** Both objects have been looked up. */
  function Both(): Catalog {
    Catalog(map["" := 2, "a" := 16, "b" := 17], map[2 := "", 16 := "a", 17 := "b"], map[16 := "1:", 17 := "2:"], 18)
  }

  /** Then "a" has been moved to "b". */
  function Landed(): Catalog {
    Catalog(map["" := 2, "b" := 16], map[2 := "", 16 := "b", 17 := "b"], map[16 := "1:", 17 := "2:"], 18)
  }

  /** Then "c" has been looked up once. */
  function Once(): Catalog {
    Catalog(map["" := 2, "c" := 16], map[2 := "", 16 := "c", 17 := "b"], map[16 := "1:", 17 := "2:"], 18)
  }

  /** Then "c" has been looked up again. */
  function Twice(): Catalog {
    Catalog(map["" := 2], map[2 := "", 17 := "b"], map[17 := "2:"], 18)
  }

  lemma {:induction false} LetterIsPath(p: string)
    requires |p| == 1 && p[0] in {'a', 'b', 'c', 'd'}
    ensures IsPath(p)
  {
    assert Names([p]) && Join([p]) == p;
  }

  lemma {:induction false} LettersAreApart(p: string, q: string)
    requires |p| <= 1 && |q| == 1
    ensures Under(p, q) <==> p == q
  {
  }

  lemma {:induction false} FoldersAreIdentified()
    ensures Identified(First()) && Identified(Renamed()) && Identified(Moved())
  {
  }

  ghost predicate Lettered(c: Catalog) {
    forall x :: x in c.paths ==> |x| <= 1
  }

  /** In a catalogue of single letters a subtree is one entry. */
  lemma {:induction false} LetterSubtree(c: Catalog, p: string)
    requires |p| == 1 && Lettered(c)
    ensures Subtree(c, p) == if p in c.paths then {p} else {}
    ensures SubtreeIds(c, p) == if p in c.paths then {c.paths[p]} else {}
  {
    hide Under;
    forall x | x in c.paths
      ensures Under(x, p) <==> x == p
    {
      LettersAreApart(x, p);
    }
  }

  lemma {:induction false} LetterRewritten(c: Catalog, p: string, q: string)
    requires |p| == 1 && Lettered(c)
    ensures Rewritten(c, p, q) == if p in c.paths then map[q := c.paths[p]] else map[]
  {
    LetterSubtree(c, p);
    assert Rebase(p, p, q) == q;
    var r := Rewritten(c, p, q);
    if p in c.paths { RewrittenAt(c, p, q, p); }
    forall x
      ensures x in r ==> x == q && p in c.paths
    {
      if x in r { var y :| y in Subtree(c, p) && Rebase(y, p, q) == x; }
    }
  }

  /** Moving a letter rewrites one entry, and moving one that is not catalogued none. */
  lemma {:induction false} LetterMoves(c: Catalog, p: string, q: string)
    requires |p| == 1 && Lettered(c) && (p in c.paths ==> c.paths[p] in c.ids && c.ids[c.paths[p]] == p)
    ensures Move(c, p, q) ==
      if p in c.paths then c.(paths := (c.paths - {p})[q := c.paths[p]], ids := c.ids[c.paths[p] := q]) else c
  {
    LetterSubtree(c, p);
    LetterRewritten(c, p, q);
    LetterIds(c, p, q);
    hide Rewritten, Subtree, SubtreeIds, Under, Rebase;
    if p in c.paths { OneMoves(c.paths - {p}, q, c.paths[p]); } else { NothingMoves(c.paths); }
  }

  lemma {:induction false} OneMoves(m: map<string, int>, q: string, id: int)
    ensures m + map[q := id] == m[q := id]
  {
  }

  lemma {:induction false} LetterIds(c: Catalog, p: string, q: string)
    requires |p| == 1 && Lettered(c) && (p in c.paths ==> c.paths[p] in c.ids && c.ids[c.paths[p]] == p)
    ensures Move(c, p, q).ids == if p in c.paths then c.ids[c.paths[p] := q] else c.ids
  {
    LetterSubtree(c, p);
    assert Rebase(p, p, q) == q;
    hide Rewritten, Subtree, SubtreeIds;
  }

  lemma {:induction false} LetterDrops(c: Catalog, p: string)
    requires |p| == 1 && Lettered(c) && p in c.paths
    ensures Drop(c, p) == Catalog(c.paths - {p}, c.ids - {c.paths[p]}, c.hosts - {c.paths[p]}, c.next)
  {
    LetterSubtree(c, p);
    hide Subtree, SubtreeIds;
  }

  lemma {:induction false} NothingMoves(m: map<string, int>)
    ensures m - {} + map[] == m
  {
  }

  lemma {:induction false} FirstTwo()
    requires Sound(Empty()) && IsPath("a") && IsPath("b")
    ensures var f := IdFor(Empty(), First(), "a");
      f.Issued? && Sound(f.catalog) && IdFor(f.catalog, First(), "b") == Issued(17, Both())
  {
    FoldersAreIdentified();
    NothingIsSingle();
    assert Displaced(Empty(), First(), "1:") == {};
    var c := Add(Empty(), "a", "1:");
    assert IdFor(Empty(), First(), "a") == Issued(16, c);
    IssuedIsBound(Empty(), First(), "a");
    assert Displaced(c, First(), "2:") == {};
    assert Add(c, "b", "2:") == Both();
  }

  /** What the look-ups meet in these catalogues. */
  lemma {:induction false} Contents()
    ensures Lettered(Both()) && "a" in Both().paths && Both().paths["a"] == 16 && "b" in Both().paths
    ensures 16 in Both().ids && Both().ids[16] == "a"
    ensures Lettered(Landed()) && "b" in Landed().paths && Landed().paths["b"] == 16
    ensures 16 in Landed().ids && Landed().ids[16] == "b"
    ensures Lettered(Once()) && "c" in Once().paths && Once().paths["c"] == 16
    ensures Lettered(Twice()) && "b" !in Twice().paths
  {
  }

  lemma {:induction false} LandedFromBoth()
    ensures Landed() == Both().(paths := (Both().paths - {"a"})["b" := 16], ids := Both().ids[16 := "b"])
  {
    assert Both().paths - {"a"} == map["" := 2, "b" := 17];
  }

  lemma {:induction false} OnceFromLanded()
    ensures Once() == Landed().(paths := (Landed().paths - {"b"})["c" := 16], ids := Landed().ids[16 := "c"])
  {
    assert Landed().paths - {"b"} == map["" := 2];
  }

  lemma {:induction false} TwiceFromOnce()
    ensures Twice() == Catalog(Once().paths - {"c"}, Once().ids - {16}, Once().hosts - {16}, 18) && Once().next == 18
  {
    assert Once().paths - {"c"} == map["" := 2];
    assert Once().ids - {16} == map[2 := "", 17 := "b"];
    assert Once().hosts - {16} == map[17 := "2:"];
  }

  /** The move of "a" lands on the entry of the object that was renamed. */
  lemma {:induction false} MoveLands()
    ensures Clash(Both(), "a", "b", "b") && Move(Both(), "a", "b") == Landed()
  {
    hide Move, Rewritten, Under, Both, Landed, Once, Twice, Lettered;
    Contents();
    LandedFromBoth();
    LetterMoves(Both(), "a", "b");
    LetterRewritten(Both(), "a", "b");
    LettersAreApart("b", "a");
  }

  lemma {:induction false} OnceMoves()
    ensures Move(Landed(), "b", "c") == Once()
  {
    hide Move, Both, Landed, Once, Twice, Lettered;
    Contents();
    OnceFromLanded();
    LetterMoves(Landed(), "b", "c");
  }

  lemma {:induction false} TwiceDrops()
    ensures Drop(Once(), "c") == Twice()
  {
    hide Drop, Both, Landed, Once, Twice, Lettered;
    Contents();
    TwiceFromOnce();
    LetterDrops(Once(), "c");
  }

  lemma {:induction false} TwiceMoves()
    ensures Move(Twice(), "b", "c") == Twice()
  {
    hide Move, Both, Landed, Once, Twice, Lettered;
    Contents();
    LetterMoves(Twice(), "b", "c");
  }

  lemma {:induction false} DisplacedIs17(c: Catalog)
    requires c == Landed() || c == Twice()
    ensures Displaced(c, Moved(), "2:") == {17} && Only({17}, 17) && c.ids[17] == "b"
  {
    assert Displaced(c, Moved(), "2:") == {17};
  }

  /** The first look-up of "c" hands 17 out, and catalogues "c" as 16, which is another object. */
  lemma {:induction false} LooksUpOnce()
    requires Sound(Landed()) && IsPath("c")
    ensures IdFor(Landed(), Moved(), "c") == Issued(17, Once()) && Astray(Landed(), Moved(), "c")
  {
    DisplacedIs17(Landed());
    OnceMoves();
    NoOtherSingle();
    assert HostIdentity(Moved(), "c") == "2:" && "c" !in Landed().paths && Landed().paths["b"] == 16;
    hide Move, Sound, Displaced, Once, Moved, IsPath;
  }

  lemma {:induction false} NoOtherSingle()
    ensures Single({17}) && forall id :: Only({17}, id) ==> id == 17
  {
    assert Only({17}, 17);
    forall id | Only({17}, id)
      ensures id == 17
    {
      assert 17 in {id};
    }
  }

  /** The second drops 16, hands 17 out again, and leaves "c" uncatalogued. */
  lemma {:induction false} LooksUpTwice()
    requires Sound(Once()) && IsPath("c")
    ensures IdFor(Once(), Moved(), "c") == Issued(17, Twice()) && Astray(Once(), Moved(), "c")
  {
    DisplacedIs17(Twice());
    TwiceDrops();
    TwiceMoves();
    NoOtherSingle();
    BoundIsHost(Once(), "c");
    assert HostIdentity(Moved(), "c") == "2:" && Bound(Once(), "c") == "1:" && Once().paths["c"] == 16;
    assert 17 in Twice().hosts && !Live(Twice(), 17);
    hide Move, Drop, Sound, Displaced, Twice, Moved, IsPath, Bound;
  }

  function Acts(): seq<Action> {
    [LookUp("a", Durable), LookUp("b", Durable), Outside(Renamed()), MoveTree("a", "b", Durable),
     Outside(Moved()), LookUp("c", Durable), LookUp("c", Durable)]
  }

  lemma {:induction false} ActsFit()
    ensures Runs(Acts())
  {
    hide Identified;
    LetterIsPath("a");
    LetterIsPath("b");
    LetterIsPath("c");
    FoldersAreIdentified();
  }

  lemma {:induction false} ActsAre()
    ensures |Acts()| == 7 && Acts()[0] == LookUp("a", Durable) && Acts()[1] == LookUp("b", Durable)
    ensures Acts()[2] == Outside(Renamed()) && Acts()[3] == MoveTree("a", "b", Durable) && Acts()[4] == Outside(Moved())
    ensures Acts()[5] == LookUp("c", Durable) && Acts()[6] == LookUp("c", Durable)
  {
  }

  /** One more action of a run. */
  lemma {:induction false} RunOneMore(s: State, acts: seq<Action>, k: nat)
    requires Valid(s) && Runs(acts) && k < |acts|
    ensures Runs(acts[..k]) && Runs(acts[..k + 1]) && Run(s, acts[..k + 1]) == Next(Run(s, acts[..k]), acts[k])
    decreases k
  {
    hide Valid, Next, Fits;
    NextIsValid(s, acts[0]);
    if k == 0 {
      assert acts[..1][1..] == [] && acts[..0] == [];
      assert Run(s, acts[..1]) == Run(Next(s, acts[0]), []);
    } else {
      var rest := acts[1..];
      RunOneMore(Next(s, acts[0]), rest, k - 1);
      assert acts[..k][1..] == rest[..k - 1] && acts[..k + 1][1..] == rest[..k];
    }
  }

  /** A server whose every commit was durable. */
  function Standing(c: Catalog, host: Host): State {
    State(Up(c), Normal(c), [], host)
  }

  lemma {:induction false} LookUpStep(c: Catalog, host: Host, rel: string)
    requires Valid(Standing(c, host)) && IsPath(rel) && IdFor(c, host, rel).Issued?
    ensures Next(Standing(c, host), LookUp(rel, Durable)) == Standing(IdFor(c, host, rel).catalog, host)
  {
    hide IdFor, Normal, AtHand;
    if AtHand(c, host, rel) { AtHandChangesNothing(c, host, rel); }
  }

  lemma {:induction false} StandingIsSound(c: Catalog, host: Host)
    requires Valid(Standing(c, host))
    ensures Sound(c)
  {
  }

  lemma {:induction false} RunNone(s: State)
    requires Valid(s)
    ensures Runs([]) && Run(s, []) == s
  {
  }

  /** The first `k` actions bring the server to this catalogue and this folder. */
  ghost predicate Reaches(k: nat, c: Catalog, host: Host) {
    && Valid(Started(First())) && Runs(Acts()) && k <= |Acts()| && Runs(Acts()[..k])
    && Run(Started(First()), Acts()[..k]) == Standing(c, host)
  }

  lemma {:induction false} ReachesNext(k: nat, c: Catalog, host: Host)
    requires Reaches(k, c, host) && k < |Acts()|
    ensures Fits(Acts()[k]) && Valid(Standing(c, host)) && Sound(c)
    ensures var t := Next(Standing(c, host), Acts()[k]);
      t.memory.Up? && t == Standing(t.memory.catalog, t.host) ==> Reaches(k + 1, t.memory.catalog, t.host)
  {
    hide Acts, Next, Fits;
    RunOneMore(Started(First()), Acts(), k);
    StandingIsSound(c, host);
  }

  /** Looking "c" up hands 17 out, whose path is another's. */
  ghost predicate GoesAstray(c: Catalog, d: Catalog) {
    Sound(c) && IsPath("c") && IdFor(c, Moved(), "c") == Issued(17, d) && Astray(c, Moved(), "c")
  }

  lemma {:induction false} Begun()
    ensures Reaches(0, Empty(), First())
  {
    hide Acts, Valid, Sound, Normal, Fits;
    FoldersAreIdentified();
    StartedIsValid(First());
    ActsFit();
    EmptyIsSound();
    NormalIsSound(Empty());
    RunNone(Started(First()));
    assert Acts()[..0] == [];
  }

  lemma {:induction false} UpToMove()
    ensures Reaches(3, Both(), Renamed())
  {
    hide IdFor, Normal, Acts, First, Renamed, Both, Sound, Valid, Reaches;
    ActsAre();
    LetterIsPath("a");
    LetterIsPath("b");
    Begun();
    ReachesNext(0, Empty(), First());
    FirstTwo();
    LookUpStep(Empty(), First(), "a");
    var c := IdFor(Empty(), First(), "a").catalog;
    ReachesNext(1, c, First());
    LookUpStep(c, First(), "b");
    ReachesNext(2, Both(), First());
  }

  lemma {:induction false} AfterMove()
    requires Reaches(3, Both(), Renamed())
    ensures Reaches(5, Landed(), Moved())
  {
    hide Normal, Sound, Acts, Moved, Renamed, Both, Landed, Valid, Move, Reaches;
    ActsAre();
    MoveLands();
    ReachesNext(3, Both(), Renamed());
    ReachesNext(4, Landed(), Renamed());
  }

  /** From an empty catalogue the server gets there, with nothing lost and no crash: a move clashes, and then a look-up
  goes astray and leaves its path bound to another object; the next one leaves it uncatalogued. */
  lemma {:induction false} LookUpsGoAstray()
    ensures Reaches(3, Both(), Renamed()) && Clash(Both(), "a", "b", "b") && !TwoWay(Move(Both(), "a", "b"))
    ensures Reaches(5, Landed(), Moved()) && GoesAstray(Landed(), Once()) && !Known(Once(), "c", "2:")
    ensures Reaches(6, Once(), Moved()) && GoesAstray(Once(), Twice()) && "c" !in Twice().paths
    ensures Reaches(7, Twice(), Moved()) && Sound(Twice())
  {
    hide Sound, Normal, IdFor, Acts, Moved, Renamed, Both, Landed, Once, Twice, Valid, Move, Clash, TwoWay, Known;
    hide Astray, Reaches;
    CIsLost();
    ActsAre();
    LetterIsPath("c");
    UpToMove();
    AfterMove();
    MoveLands();
    ReachesNext(3, Both(), Renamed());
    ClashBreaksTwoWay(Both(), "a", "b", "b");
    ReachesNext(5, Landed(), Moved());
    LooksUpOnce();
    LookUpStep(Landed(), Moved(), "c");
    ReachesNext(6, Once(), Moved());
    LooksUpTwice();
    LookUpStep(Once(), Moved(), "c");
    ReachedIsSound(7, Twice(), Moved());
  }

  lemma {:induction false} ReachedIsSound(k: nat, c: Catalog, host: Host)
    requires Reaches(k, c, host)
    ensures Sound(c)
  {
    hide Acts, Normal;
    StandingIsSound(c, host);
  }

  lemma {:induction false} CIsLost()
    ensures !Known(Once(), "c", "2:") && "c" !in Twice().paths
  {
  }

  // ----- what becomes of an interrupted move

  function Folder(): J.Disk {
    J.Disk(Moved(), map[])
  }

  function Pending(): Journal {
    Journal("c", "d", false, false)
  }

  lemma {:induction false} MoveOfC(c: Catalog)
    requires Sound(c)
    ensures J.Begins(Folder(), c, Pending())
  {
    hide Sound, IsPath;
    LetterIsPath("c");
    LetterIsPath("d");
    assert forall p :: p in Moved() ==> |p| == 1;
    assert forall q: string :: q != "" ==> |q + "/"| >= 2;
  }

  lemma {:induction false} Untraced(c: Catalog)
    requires c == Once() || c == Twice()
    ensures !J.Traced(Folder(), c, Pending()) && ("c" in c.paths <==> c == Once())
  {
  }

  /** If the guest now moves "c" to "d" and the server is killed once the journal is committed, no restart ever
  completes the move or gives it up: the recovery refuses it after the first look-up, and the loader the file after the
  second. */
  lemma {:induction false} InterruptedMoveIsRefused(c: Catalog, acts: seq<J.Action>)
    requires c == Once() || c == Twice()
    ensures J.Run(J.Begin(Folder(), c, Pending()), [J.Step, J.Kill] + acts).process.Stopped?
    ensures OnFile(c, Pending()).Refused? <==> c == Twice()
  {
    hide Sound, J.Run, J.Core, J.Traced, J.Begins, GoesAstray, Reaches, Once, Twice, Both, Landed;
    hide Folder, OnFile, Normal;
    LookUpsGoAstray();
    GoneAstrayIsSound(Once(), Twice());
    Untraced(c);
    MoveOfC(c);
    J.LoaderRefuses(Folder(), c, Pending());
    KilledIsCore(c);
    var s := J.Begin(Folder(), c, Pending());
    RunOfTwo(s);
    J.RunAppend(s, [J.Step, J.Kill], acts);
    J.RefusedForGood(J.Next(J.Next(s, J.Step), J.Kill), c);
  }

  lemma {:induction false} GoneAstrayIsSound(c: Catalog, d: Catalog)
    requires GoesAstray(c, d)
    ensures Sound(c)
  {
  }

  /** The server is killed between the commit of the journal and the rename. */
  lemma {:induction false} KilledIsCore(c: Catalog)
    requires J.Begins(Folder(), c, Pending())
    ensures var s := J.Begin(Folder(), c, Pending()); var t := J.Next(J.Next(s, J.Step), J.Kill);
      && J.Core(t, c) && t.process.Stopped? && t.saved.journal == t.j == Pending() && t.host.base == Folder()
      && t.host.data.Undone? && t.older == []
  {
    hide J.Core, J.Begins, Folder, Normal;
    var s := J.Begin(Folder(), c, Pending());
    J.BeginIsCore(Folder(), c, Pending());
    J.NextKeepsCore(s, c, J.Step);
    J.NextKeepsCore(J.Next(s, J.Step), c, J.Kill);
  }

  /** A folder "a" with nothing in it but a sidecar. */
  function Leftover(): J.Disk {
    J.Disk(map["a" := "1:"], map["a/x" := "m"])
  }

  /** Deleting it, killed when the sidecar is gone and the folder is not, gives the folder back without the sidecar. */
  lemma {:induction false} LeftoverIsLost(c: Catalog)
    requires Sound(c) && Known(c, "a", "1:")
    ensures var j := Journal("a", "", false, true);
      var e := J.Run(J.Begin(Leftover(), c, j), [J.Step, J.Step, J.Kill, J.Start, J.Step]);
      e.process.Idle? && J.AllOld(e, c) && J.Now(e.host, j) == J.Disk(map["a" := "1:"], map[])
  {
    hide Sound, J.Run, J.View;
    var j := Journal("a", "", false, true);
    LetterIsPath("a");
    assert "a/" <= "a/x" && !("a/" <= "a");
    assert J.Below(Leftover(), "a") == {"a/x"};
    LeftoverIsClosed();
    assert J.Begins(Leftover(), c, j);
    assert J.Traced(Leftover(), c, j);
    J.KilledDeletionLosesSidecars(Leftover(), c, j);
    J.SameBase(J.Begin(Leftover(), c, j), [J.Step, J.Step, J.Kill, J.Start, J.Step]);
    assert map["a/x" := "m"] - {"a/x"} == map[];
  }

  lemma {:induction false} LeftoverIsClosed()
    ensures J.Closed(Leftover())
  {
    var d := Leftover();
    forall q: string | q != "" && q + "/" <= "a/x"
      ensures q == "a"
    {
      var n := |q|;
      assert (q + "/")[n] == '/' == "a/x"[n];
      assert q == "a/x"[..n];
    }
    assert forall q: string :: q != "" ==> |q + "/"| >= 2;
  }

  lemma {:induction false} RunOfTwo(s: J.State)
    ensures J.Run(s, [J.Step, J.Kill]) == J.Next(J.Next(s, J.Step), J.Kill)
  {
    hide J.Next;
    var acts := [J.Step, J.Kill];
    assert acts[1..] == [J.Kill] && acts[1..][1..] == [];
    assert J.Run(J.Next(s, J.Step), [J.Kill]) == J.Run(J.Next(J.Next(s, J.Step), J.Kill), []);
  }
}

/** The AFP catalogue: persistent catalogue node identifiers (CNIDs) for host objects, as a value.

`paths` and `ids` map both ways between volume-relative paths and CNIDs, `hosts` records the host identity each
CNID was issued for, and `next` is the next CNID to issue. A host is a map from path to identity. */
module AfpCatalog {
  import opened AfpPath

  type Host = map<string, string>

  datatype Catalog = Catalog(paths: map<string, int>, ids: map<int, string>, hosts: map<int, string>, next: int)

  const ROOT_ID := 2
  const FIRST_ID := 16
  const MAX_ID := 0xffff_ffff

  function Empty(): Catalog {
    Catalog(map["" := ROOT_ID], map[ROOT_ID := ""], map[], FIRST_ID)
  }

  // ----- subtrees

  /** `p` is `top` or lies below it. */
  predicate Under(p: string, top: string) {
    p == top || top + "/" <= p
  }

  /** The path `p` gets when the subtree at `source` moves to `destination`. */
  function Rebase(p: string, source: string, destination: string): string
    requires Under(p, source)
  {
    destination + p[|source|..]
  }

  lemma {:induction false} RebaseUnder(p: string, source: string, destination: string)
    requires Under(p, source)
    ensures Under(Rebase(p, source, destination), destination)
    ensures Rebase(Rebase(p, source, destination), destination, source) == p
  {
    var tail := p[|source|..];
    assert p == source + tail;
    if p != source {
      assert p[..|source| + 1] == source + "/";
      assert tail[0] == p[|source|] == '/';
      assert (destination + tail)[..|destination| + 1] == destination + "/";
    }
    assert (destination + tail)[|destination|..] == tail;
  }

  lemma {:induction false} RebaseInjective(p: string, q: string, source: string, destination: string)
    requires Under(p, source) && Under(q, source)
    requires Rebase(p, source, destination) == Rebase(q, source, destination)
    ensures p == q
  {
    RebaseUnder(p, source, destination);
    RebaseUnder(q, source, destination);
  }

  // ----- invariants

  /** A host identity as `hostIdentity` forms it and the loader accepts it. */
  predicate Identity(s: string) {
    0 < |s| <= 256 && forall i :: 0 <= i < |s| ==> '0' <= s[i] <= ':'
  }

  /** What a catalogued path owes: a CNID in range, bound to it and to an identity. */
  ghost predicate Entry(c: Catalog, p: string)
    requires p in c.paths
  {
    var id := c.paths[p];
    && id in c.ids && c.ids[id] == p
    && (p == "" ==> id == ROOT_ID)
    && (p != "" ==> IsPath(p) && FIRST_ID <= id && id in c.hosts)
  }

  /** What a CNID owes. */
  ghost predicate Holder(c: Catalog, id: int)
    requires id in c.ids
  {
    && (id == ROOT_ID || (FIRST_ID <= id < c.next && IsPath(c.ids[id])))
    && (id in c.hosts <==> id != ROOT_ID)
    && (id in c.hosts ==> Identity(c.hosts[id]))
  }

  ghost predicate Sound(c: Catalog) {
    && FIRST_ID <= c.next <= MAX_ID
    && "" in c.paths
    && (forall p :: p in c.paths ==> Entry(c, p))
    && (forall id :: id in c.ids ==> Holder(c, id))
    && (forall id :: id in c.hosts ==> id in c.ids)
  }

  /** `paths` and `ids` are inverse to each other. */
  ghost predicate TwoWay(c: Catalog) {
    forall id :: id in c.ids ==> c.ids[id] in c.paths && c.paths[c.ids[id]] == id
  }

  lemma {:induction false} EmptyIsSound()
    ensures Sound(Empty()) && TwoWay(Empty())
  {
  }

  lemma {:induction false} PathsAreInjective(c: Catalog, p: string, q: string)
    requires Sound(c) && p in c.paths && q in c.paths && c.paths[p] == c.paths[q]
    ensures p == q
  {
    assert Entry(c, p) && Entry(c, q);
  }

  // ----- dropping and moving subtrees

  function Subtree(c: Catalog, top: string): set<string> {
    set p | p in c.paths && Under(p, top)
  }

  function SubtreeIds(c: Catalog, top: string): set<int> {
    set p | p in c.paths && Under(p, top) :: c.paths[p]
  }

  /** Forget every path at or under `top`, with its CNID and identity. */
  function Drop(c: Catalog, top: string): Catalog {
    var gone := SubtreeIds(c, top);
    Catalog(c.paths - Subtree(c, top), c.ids - gone, c.hosts - gone, c.next)
  }

  /** The CNIDs of a subtree, told by their own path. */
  ghost predicate Owned(c: Catalog, id: int, top: string) {
    id in c.ids && c.ids[id] in c.paths && c.paths[c.ids[id]] == id && Under(c.ids[id], top)
  }

  lemma {:induction false} SubtreeIdsAreOwned(c: Catalog, top: string, id: int)
    requires Sound(c)
    ensures id in SubtreeIds(c, top) <==> Owned(c, id, top)
  {
    if id in SubtreeIds(c, top) {
      var p :| p in c.paths && Under(p, top) && c.paths[p] == id;
      assert Entry(c, p);
    }
  }

  lemma {:induction false} DropIsSound(c: Catalog, top: string)
    requires Sound(c) && top != ""
    ensures Sound(Drop(c, top))
    ensures TwoWay(c) ==> TwoWay(Drop(c, top))
  {
    var d := Drop(c, top);
    forall p | p in d.paths
      ensures Entry(d, p)
    {
      assert Entry(c, p);
      SubtreeIdsAreOwned(c, top, c.paths[p]);
    }
    forall id | id in d.ids
      ensures Holder(d, id)
      ensures TwoWay(c) ==> d.ids[id] in d.paths && d.paths[d.ids[id]] == id
    {
      assert Holder(c, id);
      SubtreeIdsAreOwned(c, top, id);
    }
  }

  /** The rewritten entries of a move. */
  function Rewritten(c: Catalog, source: string, destination: string): map<string, int> {
    forall p, q | p in Subtree(c, source) && q in Subtree(c, source)
        && Rebase(p, source, destination) == Rebase(q, source, destination)
      ensures p == q
    { RebaseInjective(p, q, source, destination); }
    map p | p in Subtree(c, source) :: Rebase(p, source, destination) := c.paths[p]
  }

  lemma {:induction false} RewrittenAt(c: Catalog, source: string, destination: string, p: string)
    requires p in Subtree(c, source)
    ensures var r := Rewritten(c, source, destination);
      Rebase(p, source, destination) in r && r[Rebase(p, source, destination)] == c.paths[p]
  {
    forall q | q in Subtree(c, source) && Rebase(q, source, destination) == Rebase(p, source, destination)
      ensures q == p
    {
      RebaseInjective(p, q, source, destination);
    }
  }

  /** Rewrite every path at or under `source`, keeping CNIDs and identities. */
  function Move(c: Catalog, source: string, destination: string): Catalog {
    Catalog(c.paths - Subtree(c, source) + Rewritten(c, source, destination),
            map id | id in c.ids ::
              if id in SubtreeIds(c, source) && Under(c.ids[id], source) then Rebase(c.ids[id], source, destination)
              else c.ids[id],
            c.hosts, c.next)
  }

  /** Every catalogued descendant keeps its CNID under its new path, in both directions. */
  lemma {:induction false} MoveKeepsIds(c: Catalog, source: string, destination: string, p: string)
    requires Sound(c) && p in c.paths && Under(p, source)
    ensures var m, q := Move(c, source, destination), Rebase(p, source, destination);
      q in m.paths && m.paths[q] == c.paths[p] && m.ids[c.paths[p]] == q
  {
    assert p in Subtree(c, source) && c.paths[p] in SubtreeIds(c, source);
    RewrittenAt(c, source, destination, p);
    assert Entry(c, p);
  }

  /** No other path is touched unless a rewritten one lands on it. */
  lemma {:induction false} MoveKeepsOthers(c: Catalog, source: string, destination: string, p: string)
    requires Sound(c) && p in c.paths && !Under(p, source) && p !in Rewritten(c, source, destination)
    ensures var m := Move(c, source, destination);
      p in m.paths && m.paths[p] == c.paths[p] && m.ids[c.paths[p]] == p
  {
    assert Entry(c, p);
  }

  lemma {:induction false} RebasedIsPath(p: string, source: string, destination: string)
    requires IsPath(p) && IsPath(source) && IsPath(destination) && Under(p, source)
    ensures IsPath(Rebase(p, source, destination))
  {
    if p == source {
      assert Rebase(p, source, destination) == destination;
    } else {
      PathBelow(p, source, destination);
    }
  }

  lemma {:induction false} MoveIsSound(c: Catalog, source: string, destination: string)
    requires Sound(c) && IsPath(source) && IsPath(destination)
    ensures Sound(Move(c, source, destination))
  {
    var m := Move(c, source, destination);
    assert "" !in Rewritten(c, source, destination) by {
      forall p | p in Subtree(c, source)
        ensures Rebase(p, source, destination) != ""
      {
        PathIsNotEmpty(destination);
      }
    }
    assert !Under("", source) by { PathIsNotEmpty(source); }
    forall p | p in m.paths
      ensures Entry(m, p)
    {
      if p in Rewritten(c, source, destination) {
        var q :| q in Subtree(c, source) && Rebase(q, source, destination) == p;
        assert Entry(c, q);
        PathIsNotEmpty(source);
        MoveKeepsIds(c, source, destination, q);
        RebasedIsPath(q, source, destination);
        PathIsNotEmpty(p);
      } else {
        assert Entry(c, p);
        MoveKeepsOthers(c, source, destination, p);
      }
    }
    forall id | id in m.ids
      ensures Holder(m, id)
    {
      assert Holder(c, id);
      SubtreeIdsAreOwned(c, source, id);
      if Owned(c, id, source) && id != ROOT_ID { RebasedIsPath(c.ids[id], source, destination); }
    }
  }

  /** A path outside the moved subtree that a rewritten path lands on. */
  ghost predicate Clash(c: Catalog, source: string, destination: string, p: string) {
    p in c.paths && !Under(p, source) && p in Rewritten(c, source, destination)
  }

  lemma {:induction false} ClashBreaksTwoWay(c: Catalog, source: string, destination: string, p: string)
    requires Sound(c) && Clash(c, source, destination, p)
    ensures !TwoWay(Move(c, source, destination))
  {
    var m, id := Move(c, source, destination), c.paths[p];
    var q :| q in Subtree(c, source) && Rebase(q, source, destination) == p;
    RewrittenAt(c, source, destination, q);
    assert Entry(c, p) && Entry(c, q);
    SubtreeIdsAreOwned(c, source, id);
    assert m.ids[id] == p && m.paths[p] == c.paths[q] != id;
  }

  /** A move keeps the two-way map exactly when it lands on no surviving entry. */
  lemma {:induction false} MoveKeepsTwoWay(c: Catalog, source: string, destination: string)
    requires Sound(c) && TwoWay(c)
    ensures TwoWay(Move(c, source, destination)) <==> !exists p :: Clash(c, source, destination, p)
  {
    var m := Move(c, source, destination);
    if p :| Clash(c, source, destination, p) {
      ClashBreaksTwoWay(c, source, destination, p);
    } else {
      forall id | id in m.ids
        ensures m.ids[id] in m.paths && m.paths[m.ids[id]] == id
      {
        SubtreeIdsAreOwned(c, source, id);
        var p := c.ids[id];
        if Under(p, source) {
          MoveKeepsIds(c, source, destination, p);
        } else {
          assert !Clash(c, source, destination, p);
          MoveKeepsOthers(c, source, destination, p);
        }
      }
    }
  }

  /** In particular, nothing catalogued at or under the destination is enough. */
  lemma {:induction false} MoveToFreePlaceKeepsTwoWay(c: Catalog, source: string, destination: string)
    requires Sound(c) && TwoWay(c)
    requires forall p :: p in c.paths && Under(p, destination) ==> Under(p, source)
    ensures TwoWay(Move(c, source, destination))
  {
    forall p
      ensures !Clash(c, source, destination, p)
    {
      if p in Rewritten(c, source, destination) {
        var q :| q in Subtree(c, source) && Rebase(q, source, destination) == p;
        RebaseUnder(q, source, destination);
      }
    }
    MoveKeepsTwoWay(c, source, destination);
  }
}

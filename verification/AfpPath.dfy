/** Volume-relative paths of the AFP server: what the catalogue accepts, and how a guest's AFP pathname becomes one.

A path is a list of names joined with '/'. The root is the empty list and the empty string. */
module AfpPath {

  /** A name the server lets into a path: not empty, not dot-leading, no NUL and no separator. */
  predicate Name(s: string) {
    s != "" && s[0] != '.' && '\0' !in s && '/' !in s
  }

  ghost predicate Names(parts: seq<string>) {
    forall i :: 0 <= i < |parts| ==> Name(parts[i])
  }

  function Join(parts: seq<string>): string {
    if parts == [] then "" else if |parts| == 1 then parts[0] else Join(parts[..|parts| - 1]) + "/" + parts[|parts| - 1]
  }

  /** The path of a catalogued object: one or more names, joined. */
  ghost predicate IsPath(p: string) {
    exists parts :: parts != [] && Names(parts) && p == Join(parts)
  }

  lemma {:induction false} JoinedIsNotEmpty(parts: seq<string>)
    requires Names(parts) && parts != []
    ensures Join(parts) != "" && Join(parts)[0] != '/' && Join(parts)[0] != '.' && Join(parts)[|Join(parts)| - 1] != '/'
    decreases |parts|
  {
    assert Name(parts[|parts| - 1]);
    if |parts| > 1 { JoinedIsNotEmpty(parts[..|parts| - 1]); }
  }

  /** Joining is associative: the first name can as well be put in front. */
  lemma {:induction false} JoinFront(first: string, parts: seq<string>)
    requires parts != []
    ensures Join([first] + parts) == first + "/" + Join(parts)
    decreases |parts|
  {
    var all := [first] + parts;
    var n := |parts| - 1;
    assert all[..|all| - 1] == [first] + parts[..n];
    if n > 0 {
      JoinFront(first, parts[..n]);
      calc {
        Join(all);
        Join([first] + parts[..n]) + "/" + parts[n];
        (first + "/" + Join(parts[..n])) + "/" + parts[n];
        first + "/" + (Join(parts[..n]) + "/" + parts[n]);
      }
    }
  }

  // ----- the check the loader runs

  /** The first separator at or after `start`, or the end of the path. */
  function Cut(p: string, start: nat): (e: nat)
    requires start <= |p|
    ensures start <= e <= |p| && '/' !in p[start..e] && (e < |p| ==> p[e] == '/')
    decreases |p| - start
  {
    if start == |p| || p[start] == '/' then start
    else
      var e := Cut(p, start + 1);
      assert p[start..e] == [p[start]] + p[start + 1..e];
      e
  }

  /** Every name from `start` on is acceptable. */
  predicate Accepts(p: string, start: nat)
    requires start <= |p|
    decreases |p| - start
  {
    var e := Cut(p, start);
    Name(p[start..e]) && (e < |p| ==> Accepts(p, e + 1))
  }

  lemma {:induction false} AcceptedIsPath(p: string, start: nat) returns (parts: seq<string>)
    requires start <= |p| && Accepts(p, start)
    ensures parts != [] && Names(parts) && p[start..] == Join(parts)
    decreases |p| - start
  {
    var e := Cut(p, start);
    if e == |p| {
      parts := [p[start..]];
    } else {
      var more := AcceptedIsPath(p, e + 1);
      JoinFront(p[start..e], more);
      parts := [p[start..e]] + more;
      assert p[start..] == p[start..e] + "/" + p[e + 1..];
    }
  }

  /** A text that starts with a name and a slash. */
  lemma {:induction false} FrontOf(p: string, start: nat, first: string, rest: string)
    requires start <= |p| && p[start..] == first + "/" + rest
    ensures var f := start + |first|; f < |p| && p[f] == '/' && p[start..f] == first && p[f + 1..] == rest
  {
    var f, all := start + |first|, p[start..];
    assert all == first + ("/" + rest);
    assert p[start..f] == all[..|first|] == first;
    assert p[f] == all[|first|] == '/';
    assert p[f + 1..] == all[|first| + 1..] == rest;
  }

  lemma {:induction false} NameIsAccepted(p: string, start: nat)
    requires start <= |p| && Name(p[start..])
    ensures Accepts(p, start)
  {
    assert p[start..|p|] == p[start..];
    CutIs(p, start, |p|);
  }

  lemma {:induction false} NextIsAccepted(p: string, start: nat, e: nat)
    requires start <= e < |p| && p[e] == '/' && Name(p[start..e]) && Accepts(p, e + 1)
    ensures Accepts(p, start)
  {
    CutIs(p, start, e);
  }

  lemma {:induction false} PathIsAccepted(p: string, start: nat, parts: seq<string>)
    requires start <= |p| && parts != [] && Names(parts) && p[start..] == Join(parts)
    ensures Accepts(p, start)
    decreases |parts|
  {
    hide Join, Accepts, Name;
    var first, more := parts[0], parts[1..];
    assert parts == [first] + more;
    if more == [] {
      assert parts == [first];
      JoinOne(first);
      NameIsAccepted(p, start);
    } else {
      JoinFront(first, more);
      FrontOf(p, start, first, Join(more));
      PathIsAccepted(p, start + |first| + 1, more);
      NextIsAccepted(p, start, start + |first|);
    }
  }

  lemma {:induction false} JoinOne(name: string)
    ensures Join([name]) == name
  {
  }

  lemma {:induction false} CutIs(p: string, start: nat, e: nat)
    requires start <= e <= |p| && '/' !in p[start..e] && (e < |p| ==> p[e] == '/')
    ensures Cut(p, start) == e
    decreases e - start
  {
    if start < e {
      assert p[start] in p[start..e];
      assert forall c :: c in p[start + 1..e] ==> c in p[start..e];
      CutIs(p, start + 1, e);
    }
  }

  /** `validCatalogPath`: the scan accepts exactly the joined lists of acceptable names. */
  method ValidCatalogPath(path: string) returns (ok: bool)
    ensures ok <==> IsPath(path)
  {
    if path == "" || path[0] == '/' || path[|path| - 1] == '/' {
      EdgesAreNames(path);
      return false;
    }
    ok := Scan(path);
    AcceptsIsPath(path);
  }

  /** The loop of `validCatalogPath`. */
  method Scan(path: string) returns (ok: bool)
    requires path != "" && path[|path| - 1] != '/'
    ensures ok <==> Accepts(path, 0)
  {
    var start := 0;
    while start < |path|
      invariant 0 <= start < |path| && (Accepts(path, start) <==> Accepts(path, 0))
      decreases |path| - start
    {
      var end := Cut(path, start);
      var part := path[start..end];
      if part == "" || part[0] == '.' || '\0' in part {
        return false;
      }
      if end == |path| {
        return true;
      }
      start := end + 1;
    }
    return true;
  }

  lemma {:induction false} EdgesAreNames(p: string)
    requires p == "" || p[0] == '/' || p[|p| - 1] == '/'
    ensures !IsPath(p)
  {
    if IsPath(p) {
      var parts :| parts != [] && Names(parts) && p == Join(parts);
      JoinedIsNotEmpty(parts);
    }
  }

  lemma {:induction false} AcceptsIsPath(p: string)
    ensures Accepts(p, 0) <==> IsPath(p)
  {
    assert p[0..] == p;
    if Accepts(p, 0) {
      var parts := AcceptedIsPath(p, 0);
    }
    if IsPath(p) {
      var parts :| parts != [] && Names(parts) && p == Join(parts);
      PathIsAccepted(p, 0, parts);
    }
  }

  // ----- joining paths

  lemma {:induction false} PathIsNotEmpty(p: string)
    requires IsPath(p)
    ensures p != ""
  {
    var parts :| parts != [] && Names(parts) && p == Join(parts);
    JoinedIsNotEmpty(parts);
  }

  lemma {:induction false} JoinAppend(a: seq<string>, b: seq<string>)
    requires a != [] && b != []
    ensures Join(a + b) == Join(a) + "/" + Join(b)
    decreases |b|
  {
    var n := |b| - 1;
    assert (a + b)[..|a + b| - 1] == a + b[..n];
    if n == 0 {
      assert a + b[..n] == a;
    } else {
      JoinAppend(a, b[..n]);
      calc {
        Join(a + b);
        Join(a + b[..n]) + "/" + b[n];
        (Join(a) + "/" + Join(b[..n])) + "/" + b[n];
        Join(a) + "/" + (Join(b[..n]) + "/" + b[n]);
      }
    }
  }

  /** Scanning past a path that is a prefix leaves the scan at the name after it. */
  lemma {:induction false} AcceptsBelow(p: string, top: string, start: nat)
    requires start <= |top| && top + "/" <= p && Accepts(top, start) && Accepts(p, start)
    ensures Accepts(p, |top| + 1)
    decreases |top| - start
  {
    var e := Cut(top, start);
    assert p[..|top|] == top && p[|top|] == '/';
    assert p[start..e] == top[start..e];
    CutIs(p, start, e);
    if e < |top| { AcceptsBelow(p, top, e + 1); }
  }

  /** What lies below a path can be put below another one. */
  lemma {:induction false} PathBelow(p: string, top: string, other: string)
    requires IsPath(p) && IsPath(top) && IsPath(other) && top + "/" <= p
    ensures IsPath(other + p[|top|..])
  {
    AcceptsIsPath(p);
    AcceptsIsPath(top);
    AcceptsBelow(p, top, 0);
    var below := AcceptedIsPath(p, |top| + 1);
    var parts :| parts != [] && Names(parts) && other == Join(parts);
    JoinAppend(parts, below);
    assert p[|top|..] == "/" + p[|top| + 1..];
    assert other + p[|top|..] == Join(parts) + "/" + Join(below);
    assert Names(parts + below);
  }

  // ----- AFP pathnames

  datatype Resolved = Rejected | Parts(parts: seq<string>)

  /** A Mac name may hold '/', a host name ':'; the server swaps one for the other. */
  function MacToUnix(s: string): string {
    if s == "" then "" else [if s[0] == '/' then ':' else s[0]] + MacToUnix(s[1..])
  }

  /** The length of the element at the front: everything up to the next NUL. */
  function Element(s: string): (j: nat)
    ensures j <= |s| && '\0' !in s[..j] && (j < |s| ==> s[j] == '\0')
  {
    if s == "" || s[0] == '\0' then 0
    else
      var j := Element(s[1..]);
      assert s[..1 + j] == [s[0]] + s[1..][..j];
      1 + j
  }

  function Parent(parts: seq<string>): seq<string> {
    if parts == [] then [] else parts[..|parts| - 1]
  }

  /** What an AFP pathname means: an element goes down one level, a NUL that follows another one (or leads) goes up. */
  function Resolve(parts: seq<string>, s: string, afterSeparator: bool): Resolved
    decreases |s|
  {
    if s == "" then Parts(parts)
    else if s[0] == '\0' then Resolve(if afterSeparator then Parent(parts) else parts, s[1..], true)
    else
      var j := Element(s);
      var name := MacToUnix(s[..j]);
      if Name(name) then Resolve(parts + [name], s[j..], false) else Rejected
  }

  lemma {:induction false} SwappedName(s: string)
    ensures |MacToUnix(s)| == |s| && '/' !in MacToUnix(s) && ('\0' !in s ==> '\0' !in MacToUnix(s))
  {
    if s != "" {
      SwappedName(s[1..]);
      assert s == [s[0]] + s[1..];
      assert forall c :: c in s[1..] ==> c in s;
    }
  }

  /** Where the last separator before `n` is, or -1. */
  function LastSlashBefore(p: string, n: nat): (k: int)
    requires n <= |p|
    ensures -1 <= k < n && (0 <= k ==> p[k] == '/')
    ensures forall i :: k < i < n ==> p[i] != '/'
  {
    if n == 0 then -1 else if p[n - 1] == '/' then n - 1 else LastSlashBefore(p, n - 1)
  }

  function LastSlash(p: string): int {
    LastSlashBefore(p, |p|)
  }

  lemma {:induction false} LastSlashIs(p: string, k: int)
    requires -1 <= k < |p| && (0 <= k ==> p[k] == '/') && forall i :: k < i < |p| ==> p[i] != '/'
    ensures LastSlash(p) == k
  {
  }

  /** Cutting a path at its last separator drops its last name. */
  lemma {:induction false} ParentPath(parts: seq<string>)
    requires Names(parts)
    ensures var p, k := Join(parts), LastSlash(Join(parts));
      Join(Parent(parts)) == if k < 0 then "" else p[..k]
  {
    if |parts| > 1 {
      var n := |parts| - 1;
      var p, q := Join(parts), Join(parts[..n]);
      assert Name(parts[n]);
      assert p == q + "/" + parts[n];
      assert p[..|q|] == q && forall i :: |q| < i < |p| ==> p[i] == parts[n][i - |q| - 1];
      LastSlashIs(p, |q|);
    } else if |parts| == 1 {
      assert Name(parts[0]) && parts[0][0..] == parts[0];
      LastSlashIs(parts[0], -1);
    }
  }

  const ERR_PARAM := -5019
  const ERR_NO_DIR := -5029
  /** What `pathForId` answers for an identifier it will not serve. */
  const NO_PATH := "\U{01}"

  /** `resolvePath`: the path it builds is the join of what the pathname means, and so a catalogue path or the root. */
  method ResolvePath(dir: string, p: string, ghost parts: seq<string>) returns (err: int, used: nat, rel: string)
    requires Names(parts) && dir == Join(parts)
    ensures err == 0 ==> rel == "" || IsPath(rel)
    ensures err == 0 <==>
      && 2 <= |p| && 1 <= p[0] as int <= 2 && 2 + p[1] as int <= |p|
      && dir != NO_PATH && Resolve(parts, p[2..2 + p[1] as int], true).Parts?
    ensures err == 0 ==>
      used == 2 + p[1] as int && rel == Join(Resolve(parts, p[2..used], true).parts)
    ensures err == 0 || err == ERR_PARAM || (err == ERR_NO_DIR && dir == NO_PATH)
  {
    used, rel := 0, "";
    if |p| < 2 { return ERR_PARAM, used, rel; }
    if p[0] as int != 1 && p[0] as int != 2 { return ERR_PARAM, used, rel; }
    var len := p[1] as int;
    if 2 + len > |p| { return ERR_PARAM, used, rel; }
    used := 2 + len;
    if dir == NO_PATH { return ERR_NO_DIR, used, rel; }
    var ok;
    ok, rel := WalkElements(dir, p[2..used], parts);
    err := if ok then 0 else ERR_PARAM;
  }

  /** The loop of `resolvePath`. */
  method WalkElements(dir: string, s: string, ghost parts: seq<string>) returns (ok: bool, rel: string)
    requires Names(parts) && dir == Join(parts)
    ensures ok <==> Resolve(parts, s, true).Parts?
    ensures ok ==> rel == Join(Resolve(parts, s, true).parts)
    ensures ok ==> rel == "" || IsPath(rel)
  {
    rel := dir;
    var i, lastSep := 0, true;
    ghost var at, goal := parts, Resolve(parts, s, true);
    assert s[0..] == s;
    while i < |s|
      invariant 0 <= i <= |s| && Names(at) && rel == Join(at)
      invariant Resolve(at, s[i..], lastSep) == goal
    {
      ghost var rest := s[i..];
      if s[i] == '\0' {
        assert s[i + 1..] == rest[1..];
        if !lastSep {
          lastSep := true;
        } else {
          rel := HopUp(rel, at);
          at := Parent(at);
        }
        i := i + 1;
      } else {
        var j := Element(s[i..]);
        var name := MacToUnix(s[i..][..j]);
        SwappedName(s[i..][..j]);
        if name == "" || name[0] == '.' || '/' in name {
          return false, rel;
        }
        assert s[i + j..] == rest[j..];
        Descend(at, name);
        at, rel := at + [name], if rel == "" then name else rel + "/" + name;
        i, lastSep := i + j, false;
      }
    }
    ok := true;
    assert at != [] ==> IsPath(rel);
  }

  /** A parent hop on the string. */
  method HopUp(rel: string, ghost at: seq<string>) returns (up: string)
    requires Names(at) && rel == Join(at)
    ensures up == Join(Parent(at)) && Names(Parent(at))
  {
    ParentPath(at);
    var cut := LastSlash(rel);
    up := if cut < 0 then "" else rel[..cut];
  }

  lemma {:induction false} Descend(parts: seq<string>, name: string)
    requires Names(parts) && Name(name)
    ensures Names(parts + [name])
    ensures Join(parts + [name]) == if Join(parts) == "" then name else Join(parts) + "/" + name
  {
    if parts != [] { JoinedIsNotEmpty(parts); }
    assert (parts + [name])[..|parts|] == parts;
  }
}

/** The catalogue file: what `saveCatalog` writes and what `loadCatalog` accepts.

A file is a tag, the next CNID, the record count, one record per catalogued path, the journal, and a checksum. A
byte is a character, taken modulo 256 where the loader reads a number. */
module AfpCodec {
  import opened AfpPath
  import opened AfpCatalog

  const TAG := "POMCNID4"
  const MAX_BYTES := 16 * 1024 * 1024
  const WORDS := 0x1_0000_0000

  /** The write-ahead journal kept in the same file: nothing, a move, or a deletion under way. */
  datatype Journal = Journal(source: string, destination: string, sidecar: bool, deleting: bool)

  const CLEAR := Journal("", "", false, false)

  datatype Snapshot = Snapshot(catalog: Catalog, journal: Journal)

  ghost predicate ValidJournal(c: Catalog, j: Journal) {
    if j.source == "" then j == CLEAR
    else
      && IsPath(j.source) && j.source in c.paths
      && if j.deleting then j.destination == "" else IsPath(j.destination) && j.source != j.destination
  }

  // ----- numbers and texts

  function Digit(v: nat): char {
    (v % 256) as char
  }

  /** Four bytes, most significant first. */
  function Word(v: nat): (w: string)
    ensures |w| == 4
  {
    [Digit(v / 0x100_0000), Digit(v / 0x1_0000), Digit(v / 0x100), Digit(v)]
  }

  function Text(s: string): string {
    Word(|s|) + s
  }

  datatype Read<T> = Bad | Got(value: T, at: nat)

  function ByteAt(b: string, i: nat): nat
    requires i < |b|
  {
    b[i] as int % 256
  }

  function Read32(b: string, at: nat): (r: Read<nat>)
    ensures r.Got? <==> at + 4 <= |b|
    ensures r.Got? ==> r.at == at + 4 && r.value < WORDS
  {
    if at + 4 > |b| then Bad
    else Got(((ByteAt(b, at) * 256 + ByteAt(b, at + 1)) * 256 + ByteAt(b, at + 2)) * 256 + ByteAt(b, at + 3), at + 4)
  }

  function ReadText(b: string, at: nat): (r: Read<string>)
    ensures r.Got? ==> at + 4 <= r.at <= |b| && |r.value| == r.at - at - 4 && r.value == b[at + 4..r.at]
  {
    var n := Read32(b, at);
    if n.Bad? || n.value > |b| - n.at then Bad else Got(b[n.at..n.at + n.value], n.at + n.value)
  }

  /** `part` stands at offset `at` of `b`. */
  ghost predicate At(b: string, at: nat, part: string) {
    at + |part| <= |b| && b[at..at + |part|] == part
  }

  lemma {:induction false} AtParts(b: string, at: nat, x: string, y: string)
    requires At(b, at, x + y)
    ensures At(b, at, x) && At(b, at + |x|, y)
  {
    assert b[at..at + |x|] == b[at..at + |x + y|][..|x|];
    assert b[at + |x|..at + |x + y|] == b[at..at + |x + y|][|x|..];
  }

  lemma {:induction false} DigitsMakeUp(v: nat)
    requires v < WORDS
    ensures ((v / 0x100_0000 % 256 * 256 + v / 0x1_0000 % 256) * 256 + v / 0x100 % 256) * 256 + v % 256 == v
  {
    var b, c, d := v / 0x100, v / 0x1_0000, v / 0x100_0000;
    assert c == b / 256 && d == c / 256;
    assert v == b * 256 + v % 256 && b == c * 256 + b % 256 && c == d * 256 + c % 256;
  }

  lemma {:induction false} WordReads(b: string, at: nat, v: nat)
    requires v < WORDS && At(b, at, Word(v))
    ensures Read32(b, at) == Got(v, at + 4)
  {
    var w := Word(v);
    forall k | 0 <= k < 4
      ensures b[at + k] == w[k]
    {
      assert b[at..at + 4][k] == b[at + k];
    }
    assert b[at] == w[0] && b[at + 1] == w[1] && b[at + 2] == w[2] && b[at + 3] == w[3];
    DigitsMakeUp(v);
  }

  lemma {:induction false} TextReads(b: string, at: nat, s: string)
    requires |s| < WORDS && At(b, at, Text(s))
    ensures ReadText(b, at) == Got(s, at + 4 + |s|)
  {
    AtParts(b, at, Word(|s|), s);
    WordReads(b, at, |s|);
  }

  // ----- the checksum

  function Xor(a: nat, b: nat, bits: nat): nat {
    if bits == 0 then 0 else 2 * Xor(a / 2, b / 2, bits - 1) + (a + b) % 2
  }

  function Mix(hash: nat, c: char): nat {
    ((hash / 256 * 256 + Xor(hash % 256, c as int % 256, 8)) * 16777619) % WORDS
  }

  /** The 32-bit FNV-1a hash. */
  function Checksum(b: string): (v: nat)
    ensures v < WORDS
  {
    if b == "" then 2166136261 else Mix(Checksum(b[..|b| - 1]), b[|b| - 1])
  }

  // ----- what the loader does

  /** The catalogue with only the paths in `done`, and nothing their CNIDs do not owe them. */
  function Part(c: Catalog, done: set<string>): Catalog {
    Catalog(map p | p in c.paths && p in done :: c.paths[p],
            map id | id in c.ids && Live(c, id) && c.ids[id] in done :: c.ids[id],
            map id | id in c.hosts && Live(c, id) && c.ids[id] in done :: c.hosts[id],
            c.next)
  }

  /** `id` is the CNID of its own path. */
  predicate Live(c: Catalog, id: int) {
    id in c.ids && c.ids[id] in c.paths && c.paths[c.ids[id]] == id
  }

  /** The catalogue without the CNIDs that lost their path. */
  function Normal(c: Catalog): Catalog {
    Part(c, c.paths.Keys)
  }

  ghost function Admit(c: Catalog, id: int, p: string, identity: string): Catalog {
    Catalog(c.paths[p := id], c.ids[id := p], c.hosts[id := identity], c.next)
  }

  /** One record: a fresh CNID below `next`, a fresh valid path, and a host identity. */
  ghost function ReadRecord(b: string, at: nat, c: Catalog): (r: Read<Catalog>)
    ensures r.Got? ==> r.at <= |b| && r.value.next == c.next
  {
    var id := Read32(b, at);
    if id.Bad? then Bad else
    var p := ReadText(b, id.at);
    if p.Bad? || id.value < FIRST_ID || id.value >= c.next then Bad
    else if !IsPath(p.value) || id.value in c.ids || p.value in c.paths then Bad else
    var identity := ReadText(b, p.at);
    if identity.Bad? || !Identity(identity.value) then Bad
    else Got(Admit(c, id.value, p.value, identity.value), identity.at)
  }

  ghost function ReadRecords(b: string, at: nat, count: nat, c: Catalog): (r: Read<Catalog>)
    requires at <= |b|
    ensures r.Got? ==> r.at <= |b|
    decreases count
  {
    if count == 0 then Got(c, at) else
    match ReadRecord(b, at, c)
    case Bad => Bad
    case Got(c', at') => ReadRecords(b, at', count - 1, c')
  }

  ghost function ReadJournal(b: string, at: nat, c: Catalog): (r: Read<Journal>)
    ensures r.Got? ==> r.at <= |b| && ValidJournal(c, r.value)
  {
    var source := ReadText(b, at);
    if source.Bad? then Bad else
    var destination := ReadText(b, source.at);
    if destination.Bad? then Bad else
    var flags := Read32(b, destination.at);
    if flags.Bad? || flags.value > 3 then Bad else
    var j := Journal(source.value, destination.value, flags.value % 2 == 1, flags.value >= 2);
    if ValidJournal(c, j) then Got(j, flags.at) else Bad
  }

  datatype Loaded = Refused | Loaded(snapshot: Snapshot)

  /** What a catalogue file means, if it is one. */
  ghost function Parse(b: string): (r: Loaded)
    ensures r.Loaded? ==> ValidJournal(r.snapshot.catalog, r.snapshot.journal)
  {
    if |b| < 20 || |b| > MAX_BYTES || b[..8] != TAG then Refused else
    var next, count := Read32(b, 8), Read32(b, 12);
    if next.value < FIRST_ID || count.value > (|b| - 20) / 9 then Refused else
    var records := ReadRecords(b, 16, count.value, Empty().(next := next.value));
    if records.Bad? then Refused else
    var journal := ReadJournal(b, records.at, records.value);
    if journal.Bad? then Refused else
    var sum := Read32(b, journal.at);
    if sum.Bad? || sum.at != |b| || Checksum(b[..journal.at]) != sum.value then Refused
    else Loaded(Snapshot(records.value, journal.value))
  }

  // ----- what the writer does

  function Record(c: Catalog, p: string): string
    requires p in c.paths && c.paths[p] in c.hosts && 0 <= c.paths[p]
  {
    Word(c.paths[p]) + (Text(p) + Text(c.hosts[c.paths[p]]))
  }

  ghost predicate Recorded(c: Catalog, p: string) {
    p in c.paths && p != "" && c.paths[p] in c.hosts && 0 <= c.paths[p]
  }

  function Records(c: Catalog, order: seq<string>): string
    requires forall i :: 0 <= i < |order| ==> Recorded(c, order[i])
  {
    if order == [] then "" else
    assert Recorded(c, order[|order| - 1]);
    Records(c, order[..|order| - 1]) + Record(c, order[|order| - 1])
  }

  function Flags(j: Journal): nat {
    (if j.sidecar then 1 else 0) + (if j.deleting then 2 else 0)
  }

  function JournalText(j: Journal): string {
    Text(j.source) + (Text(j.destination) + Word(Flags(j)))
  }

  /** A file: header, records in any order, journal. */
  function Payload(c: Catalog, order: seq<string>, j: Journal): string
    requires 0 <= c.next && forall i :: 0 <= i < |order| ==> Recorded(c, order[i])
  {
    TAG + (Word(c.next) + (Word(|order|) + (Records(c, order) + JournalText(j))))
  }

  function Sealed(payload: string): string {
    payload + Word(Checksum(payload))
  }

  /** The records list every catalogued path but the root once. */
  ghost predicate Lists(c: Catalog, order: seq<string>) {
    && (forall i :: 0 <= i < |order| ==> Recorded(c, order[i]))
    && (forall i, k :: 0 <= i < k < |order| ==> order[i] != order[k])
    && (forall p :: p in c.paths && p != "" ==> p in order)
  }

  ghost function Named(order: seq<string>): set<string> {
    {""} + set i | 0 <= i < |order| :: order[i]
  }

  lemma {:induction false} PartAdmits(c: Catalog, done: set<string>, p: string)
    requires Sound(c) && Recorded(c, p) && p !in done
    ensures var id := c.paths[p]; Admit(Part(c, done), id, p, c.hosts[id]) == Part(c, done + {p})
    ensures c.paths[p] !in Part(c, done).ids && p !in Part(c, done).paths
    ensures IsPath(p) && FIRST_ID <= c.paths[p] < c.next && Identity(c.hosts[c.paths[p]])
  {
    assert Entry(c, p) && Holder(c, c.paths[p]);
    assert Live(c, c.paths[p]);
    PartIds(c, done, p);
    PartHosts(c, done, p);
    hide Sound, IsPath, Identity, Live;
    assert Part(c, done).paths[p := c.paths[p]] == Part(c, done + {p}).paths;
  }

  lemma {:induction false} PartIds(c: Catalog, done: set<string>, p: string)
    requires p in c.paths && Live(c, c.paths[p]) && c.ids[c.paths[p]] == p
    ensures Part(c, done).ids[c.paths[p] := p] == Part(c, done + {p}).ids
  {
  }

  lemma {:induction false} PartHosts(c: Catalog, done: set<string>, p: string)
    requires p in c.paths && Live(c, c.paths[p]) && c.ids[c.paths[p]] == p && c.paths[p] in c.hosts
    ensures Part(c, done).hosts[c.paths[p] := c.hosts[c.paths[p]]] == Part(c, done + {p}).hosts
  {
  }

  /** The pieces of a record, as the loader reads them. */
  lemma {:induction false} RecordParts(b: string, at: nat, id: nat, p: string, identity: string)
    requires |b| < WORDS && id < WORDS && At(b, at, Word(id) + (Text(p) + Text(identity)))
    ensures var x := at + 8 + |p|;
      && Read32(b, at) == Got(id, at + 4) && ReadText(b, at + 4) == Got(p, x)
      && ReadText(b, x) == Got(identity, x + 4 + |identity|)
  {
    hide Word, Read32, ReadText, At;
    AtIsInside(b, at, Word(id) + (Text(p) + Text(identity)));
    AtParts(b, at, Word(id), Text(p) + Text(identity));
    AtParts(b, at + 4, Text(p), Text(identity));
    WordReads(b, at, id);
    TextReads(b, at + 4, p);
    TextReads(b, at + 8 + |p|, identity);
  }

  lemma {:induction false} AtIsInside(b: string, at: nat, part: string)
    requires At(b, at, part)
    ensures at + |part| <= |b|
  {
  }

  lemma {:induction false} RecordReads(b: string, at: nat, c: Catalog, done: set<string>, p: string)
    requires Sound(c) && Recorded(c, p) && p !in done && |b| < WORDS
    requires At(b, at, Record(c, p))
    ensures ReadRecord(b, at, Part(c, done)) == Got(Part(c, done + {p}), at + |Record(c, p)|)
  {
    assert c.next < WORDS;
    hide Sound, At, Part, ReadRecord, Admit, Word, IsPath, Identity;
    PartAdmits(c, done, p);
    RecordParts(b, at, c.paths[p], p, c.hosts[c.paths[p]]);
    RecordAdmits(b, at, Part(c, done), c.paths[p], p, c.hosts[c.paths[p]]);
  }

  /** A record the loader takes. */
  lemma {:induction false} RecordAdmits(b: string, at: nat, c: Catalog, id: nat, p: string, identity: string)
    requires Read32(b, at) == Got(id, at + 4) && ReadText(b, at + 4) == Got(p, at + 8 + |p|)
    requires ReadText(b, at + 8 + |p|) == Got(identity, at + 12 + |p| + |identity|)
    requires FIRST_ID <= id < c.next && IsPath(p) && Identity(identity) && id !in c.ids && p !in c.paths
    ensures ReadRecord(b, at, c) == Got(Admit(c, id, p, identity), at + 12 + |p| + |identity|)
  {
    hide Read32, ReadText, IsPath, Identity;
  }

  lemma {:induction false} RecordsPrefix(c: Catalog, order: seq<string>, k: nat)
    requires k <= |order| && forall i :: 0 <= i < |order| ==> Recorded(c, order[i])
    ensures Records(c, order[..k]) <= Records(c, order)
    decreases |order|
  {
    if k < |order| {
      var front := order[..|order| - 1];
      assert order[..k] == front[..k];
      RecordsPrefix(c, front, k);
    } else {
      assert order[..k] == order;
    }
  }

  lemma {:induction false} RecordAt(b: string, at: nat, c: Catalog, order: seq<string>, k: nat)
    requires k < |order| && forall i :: 0 <= i < |order| ==> Recorded(c, order[i])
    requires At(b, at, Records(c, order))
    ensures At(b, at + |Records(c, order[..k])|, Record(c, order[k]))
    ensures |Records(c, order[..k + 1])| == |Records(c, order[..k])| + |Record(c, order[k])|
  {
    hide Record, At;
    var upto := order[..k + 1];
    RecordsPrefix(c, order, k + 1);
    assert upto[..k] == order[..k] && upto[k] == order[k];
    var all, head := Records(c, order), Records(c, upto);
    assert all == head + all[|head|..];
    AtParts(b, at, head, all[|head|..]);
    AtParts(b, at, Records(c, order[..k]), Record(c, order[k]));
  }

  lemma {:induction false} RecordsStep(b: string, at: nat, count: nat, c: Catalog, r: Read<Catalog>)
    requires at <= |b| && 0 < count && r == ReadRecord(b, at, c) && r.Got?
    ensures r.at <= |b| && ReadRecords(b, at, count, c) == ReadRecords(b, r.at, count - 1, r.value)
  {
  }

  lemma {:induction false} RecordsNext(b: string, at: nat, c: Catalog, order: seq<string>, k: nat)
    requires Sound(c) && Lists(c, order) && |b| < WORDS && 1 <= k <= |order|
    requires At(b, at, Records(c, order))
    ensures var x, y := at + |Records(c, order[..k - 1])|, at + |Records(c, order[..k])|;
      && x <= |b|
      && ReadRecord(b, x, Part(c, Named(order[..k - 1]))) == Got(Part(c, Named(order[..k])), y)
  {
    hide Records, Record, Part, ReadRecord, Sound, At;
    RecordAt(b, at, c, order, k - 1);
    assert "" !in order;
    NamedSnoc(order, k);
    assert Recorded(c, order[k - 1]);
    RecordReads(b, at + |Records(c, order[..k - 1])|, c, Named(order[..k - 1]), order[k - 1]);
  }

  /** Reading the first `k` records leaves the catalogue of the paths they name. */
  lemma {:induction false} RecordsRead(b: string, at: nat, c: Catalog, order: seq<string>, k: nat)
    requires Sound(c) && Lists(c, order) && at <= |b| < WORDS && k <= |order|
    requires At(b, at, Records(c, order))
    ensures at + |Records(c, order[..k])| <= |b|
    ensures ReadRecords(b, at, |order|, Part(c, {""})) ==
            ReadRecords(b, at + |Records(c, order[..k])|, |order| - k, Part(c, Named(order[..k])))
    decreases k
  {
    hide Record, Part, ReadRecords, ReadRecord, Sound, At;
    if k == 0 {
      assert Named(order[..0]) == {""};
    } else {
      RecordsRead(b, at, c, order, k - 1);
      RecordsNext(b, at, c, order, k);
      RecordsStep(b, at + |Records(c, order[..k - 1])|, |order| - k + 1, Part(c, Named(order[..k - 1])),
                  Got(Part(c, Named(order[..k])), at + |Records(c, order[..k])|));
    }
  }

  lemma {:induction false} NamedSnoc(order: seq<string>, k: nat)
    requires 1 <= k <= |order| && (forall i, j :: 0 <= i < j < |order| ==> order[i] != order[j]) && "" !in order
    ensures Named(order[..k]) == Named(order[..k - 1]) + {order[k - 1]}
    ensures order[k - 1] !in Named(order[..k - 1])
  {
    var a, b := order[..k - 1], order[..k];
    forall p | p in Named(b)
      ensures p in Named(a) + {order[k - 1]}
    {
      if p != "" {
        var i :| 0 <= i < |b| && b[i] == p;
        assert i < k - 1 ==> a[i] == p;
      }
    }
    forall p | p in Named(a) + {order[k - 1]}
      ensures p in Named(b)
    {
      if p in Named(a) && p != "" {
        var i :| 0 <= i < |a| && a[i] == p;
        assert b[i] == p;
      } else if p == order[k - 1] {
        assert b[k - 1] == p;
      }
    }
  }

  lemma {:induction false} JournalParts(b: string, at: nat, j: Journal)
    requires |b| < WORDS && At(b, at, JournalText(j))
    ensures var x := at + 4 + |j.source|; var y := x + 4 + |j.destination|;
      && ReadText(b, at) == Got(j.source, x) && ReadText(b, x) == Got(j.destination, y)
      && Read32(b, y) == Got(Flags(j), y + 4) && y + 4 == at + |JournalText(j)|
  {
    hide Word, Read32, ReadText, At;
    AtParts(b, at, Text(j.source), Text(j.destination) + Word(Flags(j)));
    AtParts(b, at + |Text(j.source)|, Text(j.destination), Word(Flags(j)));
    TextReads(b, at, j.source);
    TextReads(b, at + |Text(j.source)|, j.destination);
    WordReads(b, at + |Text(j.source)| + |Text(j.destination)|, Flags(j));
  }

  lemma {:induction false} JournalReads(b: string, at: nat, c: Catalog, j: Journal)
    requires |b| < WORDS && At(b, at, JournalText(j))
    ensures ReadJournal(b, at, c) == if ValidJournal(c, j) then Got(j, at + |JournalText(j)|) else Bad
  {
    hide Word, Read32, ReadText, At, JournalText;
    JournalParts(b, at, j);
    var f := Flags(j);
    assert j == Journal(j.source, j.destination, f % 2 == 1, f >= 2);
  }

  lemma {:induction false} PartOfRoot(c: Catalog)
    requires Sound(c)
    ensures Part(c, {""}) == Empty().(next := c.next)
  {
    assert Entry(c, "") && Holder(c, ROOT_ID);
    hide Sound;
    var e := Part(c, {""});
    assert e.paths == map["" := ROOT_ID];
    assert e.ids == map[ROOT_ID := ""];
    assert e.hosts == map[];
  }

  lemma {:induction false} PartOfAll(c: Catalog, order: seq<string>)
    requires Lists(c, order)
    ensures Part(c, Named(order)) == Normal(c)
  {
    assert forall p :: p in c.paths ==> p in Named(order);
    hide Lists, Named;
    var n, m := Part(c, Named(order)), Normal(c);
    assert n.paths == m.paths;
    assert n.ids == m.ids;
    assert n.hosts == m.hosts;
  }

  lemma {:induction false} RecordsAreLong(c: Catalog, order: seq<string>)
    requires forall i :: 0 <= i < |order| ==> Recorded(c, order[i])
    ensures 9 * |order| <= |Records(c, order)|
    decreases |order|
  {
    if order != [] {
      RecordsAreLong(c, order[..|order| - 1]);
    }
  }

  lemma {:induction false} SealedParts(b: string, payload: string)
    requires b == Sealed(payload)
    ensures |b| == |payload| + 4 && b[..|payload|] == payload
    ensures At(b, 0, payload) && Read32(b, |payload|) == Got(Checksum(payload), |b|)
  {
    hide Word, Read32, Checksum;
    var sum := Word(Checksum(payload));
    assert b[|payload|..|payload| + 4] == sum;
    WordReads(b, |payload|, Checksum(payload));
  }

  lemma {:induction false} PayloadParts(b: string, c: Catalog, order: seq<string>, j: Journal)
    requires Lists(c, order) && 0 <= c.next < WORDS && |order| < WORDS && At(b, 0, Payload(c, order, j))
    ensures 8 <= |b| && b[..8] == TAG
    ensures Read32(b, 8) == Got(c.next, 12) && Read32(b, 12) == Got(|order|, 16)
    ensures At(b, 16, Records(c, order)) && At(b, 16 + |Records(c, order)|, JournalText(j))
    ensures 16 + |Records(c, order)| + |JournalText(j)| == |Payload(c, order, j)|
  {
    hide Word, Read32, Records, JournalText;
    var rs, js := Records(c, order), JournalText(j);
    var n, k := Word(c.next), Word(|order|);
    AtParts(b, 0, TAG, n + (k + (rs + js)));
    AtParts(b, 8, n, k + (rs + js));
    AtParts(b, 12, k, rs + js);
    AtParts(b, 16, rs, js);
    WordReads(b, 8, c.next);
    WordReads(b, 12, |order|);
  }

  lemma {:induction false} ValidInNormal(c: Catalog, j: Journal)
    ensures ValidJournal(Normal(c), j) <==> ValidJournal(c, j)
  {
  }

  lemma {:induction false} AllOfOrder(order: seq<string>)
    ensures order[..|order|] == order
  {
  }

  lemma {:induction false} NoRecords(b: string, at: nat, c: Catalog)
    requires at <= |b|
    ensures ReadRecords(b, at, 0, c) == Got(c, at)
  {
  }

  lemma {:induction false} BodyReads(b: string, c: Catalog, order: seq<string>, j: Journal)
    requires Sound(c) && Lists(c, order) && 16 <= |b| < WORDS
    requires At(b, 16, Records(c, order)) && At(b, 16 + |Records(c, order)|, JournalText(j))
    ensures var at := 16 + |Records(c, order)|;
      && ReadRecords(b, 16, |order|, Empty().(next := c.next)) == Got(Normal(c), at)
      && ReadJournal(b, at, Normal(c)) == if ValidJournal(c, j) then Got(j, at + |JournalText(j)|) else Bad
  {
    hide Part, Records, ReadRecords, JournalText, ReadJournal, ValidJournal, At, Sound, Named;
    PartOfRoot(c);
    PartOfAll(c, order);
    AllOfOrder(order);
    RecordsRead(b, 16, c, order, |order|);
    NoRecords(b, 16 + |Records(c, order)|, Normal(c));
    ValidInNormal(c, j);
    JournalReads(b, 16 + |Records(c, order)|, Normal(c), j);
  }

  lemma {:induction false} PayloadIsLong(c: Catalog, order: seq<string>, j: Journal)
    requires Lists(c, order) && 0 <= c.next
    ensures |Payload(c, order, j)| >= 28 + 9 * |order|
  {
    RecordsAreLong(c, order);
  }

  /** What the loader makes of the file of a catalogue and a journal. */
  ghost function OnFile(c: Catalog, j: Journal): Loaded {
    if ValidJournal(c, j) then Loaded(Snapshot(Normal(c), j)) else Refused
  }

  /** The loader accepts a file of the writer exactly when its journal names a catalogued source, if any, and a fitting
  destination; it then rebuilds the catalogue and the journal. */
  lemma {:induction false} SavedLoads(c: Catalog, order: seq<string>, j: Journal)
    requires Sound(c) && Lists(c, order)
    requires |Payload(c, order, j)| <= MAX_BYTES - 4
    ensures Parse(Sealed(Payload(c, order, j))) == OnFile(c, j)
  {
    hide Part, Read32, Records, ReadRecords, ReadJournal, JournalText, Checksum, Payload, Sealed, At, Parse, IsPath;
    hide ValidJournal;
    var payload := Payload(c, order, j);
    var b := Sealed(payload);
    SealedParts(b, payload);
    PayloadIsLong(c, order, j);
    PayloadParts(b, c, order, j);
    BodyReads(b, c, order, j);
    var at := 16 + |Records(c, order)|;
    var journal := if ValidJournal(c, j) then Got(j, |payload|) else Bad;
    ParseFrom(b, Read32(b, 8), Read32(b, 12), Got(Normal(c), at), journal, Read32(b, |payload|));
  }

  /** The loader's verdict, once each piece of the file has been read. */
  lemma {:induction false} ParseFrom(b: string, next: Read<nat>, count: Read<nat>, records: Read<Catalog>,
                                     journal: Read<Journal>, sum: Read<nat>)
    requires 20 <= |b| <= MAX_BYTES && b[..8] == TAG
    requires next == Read32(b, 8) && count == Read32(b, 12)
    requires FIRST_ID <= next.value && count.value <= (|b| - 20) / 9
    requires records == ReadRecords(b, 16, count.value, Empty().(next := next.value)) && records.Got?
    requires journal == ReadJournal(b, records.at, records.value)
    requires journal.Got? ==>
      sum == Read32(b, journal.at) && sum.Got? && sum.at == |b| && Checksum(b[..journal.at]) == sum.value
    ensures Parse(b) == if journal.Got? then Loaded(Snapshot(records.value, journal.value)) else Refused
  {
    hide Read32, ReadRecords, ReadJournal, Checksum, ValidJournal;
  }

  // ----- what a file can hold

  /** Dropping the CNIDs without a path keeps a catalogue sound, and changes nothing exactly when it is two-way. */
  lemma {:induction false} NormalIsSound(c: Catalog)
    requires Sound(c)
    ensures Sound(Normal(c)) && TwoWay(Normal(c))
    ensures Normal(c) == c <==> TwoWay(c)
  {
    var n := Normal(c);
    forall p | p in n.paths
      ensures Entry(n, p)
    {
      assert Entry(c, p);
    }
    forall id | id in n.ids
      ensures Holder(n, id)
    {
      assert Holder(c, id);
    }
    if TwoWay(c) {
      forall id | id in c.ids
        ensures id in n.ids
      {
        assert Live(c, id);
      }
      forall id | id in c.hosts
        ensures id in n.hosts
      {
        assert id in c.ids && Live(c, id);
      }
      assert n.paths == c.paths;
      assert n.ids == c.ids;
      assert n.hosts == c.hosts;
    }
  }

  lemma {:induction false} AdmitIsSound(c: Catalog, id: int, p: string, identity: string)
    requires Sound(c) && TwoWay(c) && FIRST_ID <= id < c.next && IsPath(p) && Identity(identity)
    requires id !in c.ids && p !in c.paths
    ensures Sound(Admit(c, id, p, identity)) && TwoWay(Admit(c, id, p, identity))
  {
    PathIsNotEmpty(p);
    var a := Admit(c, id, p, identity);
    forall q | q in a.paths
      ensures Entry(a, q)
    {
      if q != p { assert Entry(c, q); }
    }
    forall i | i in a.ids
      ensures Holder(a, i)
    {
      if i != id { assert Holder(c, i); }
    }
  }

  lemma {:induction false} RecordsAreSound(b: string, at: nat, count: nat, c: Catalog)
    requires at <= |b| && Sound(c) && TwoWay(c) && ReadRecords(b, at, count, c).Got?
    ensures var r := ReadRecords(b, at, count, c).value; Sound(r) && TwoWay(r)
    decreases count
  {
    hide Sound, TwoWay, Read32, ReadText, IsPath, Identity;
    if count > 0 {
      var r := ReadRecord(b, at, c);
      var id, p := Read32(b, at), ReadText(b, at + 4);
      AdmitIsSound(c, id.value, p.value, ReadText(b, p.at).value);
      RecordsAreSound(b, r.at, count - 1, r.value);
    }
  }

  /** Whatever bytes the loader is given, a catalogue it accepts is sound and two-way. */
  lemma {:induction false} LoadedIsSound(b: string)
    requires Parse(b).Loaded?
    ensures var c := Parse(b).snapshot.catalog; Sound(c) && TwoWay(c)
  {
    hide Read32, ReadRecords, ReadJournal, Checksum, ValidJournal;
    var e := Empty().(next := Read32(b, 8).value);
    assert Sound(e) && TwoWay(e);
    RecordsAreSound(b, 16, Read32(b, 12).value, e);
  }
}

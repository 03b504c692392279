/** How a cue sheet is laid out as a disc, and how a disc address is found again.

The sheet and the files are as the parser leaves them. A file is a number of sectors with their bytes. */
module CdImage {
  import opened Sequences

  const RAW := 2352
  const MAX_LBA := 0x7fff_ffff

  datatype Option<T> = None | Some(value: T)

  datatype SheetTrack = SheetTrack(source: nat, audio: bool, index0: Option<nat>, index1: Option<nat>,
                                   pregap: Option<nat>, postgap: Option<nat>)

  /** `data` is what the file stores; its last sector may be incomplete. */
  datatype Source = Source(sectorBytes: nat, sectors: nat, swapped: bool, data: seq<Byte>)

  datatype Span = Span(lba: nat, sectors: nat, silence: bool, source: nat, sourceSector: nat)

  datatype Track = Track(audio: bool, source: nat, extent: nat, start: nat, storedEnd: nat, sourceStart: nat)

  /** What the parser guarantees: tracks name the files in order and leave none out, gaps are not empty, and INDEX 00
  does not lie after INDEX 01. */
  ghost predicate ValidSheet(sheet: seq<SheetTrack>, files: seq<Source>) {
    && sheet != [] && files != [] && sheet[0].source == 0 && sheet[|sheet| - 1].source == |files| - 1
    && (forall i :: 0 <= i < |sheet| ==> ValidTrack(sheet[i], |files|))
    && (forall i :: 0 <= i < |sheet| - 1 ==> Follows(sheet[i], sheet[i + 1]))
  }

  ghost predicate ValidTrack(t: SheetTrack, n: nat) {
    && t.source < n
    && (t.index0.Some? && t.index1.Some? ==> t.index0.value <= t.index1.value)
    && (t.pregap.Some? ==> t.pregap.value > 0) && (t.postgap.Some? ==> t.postgap.value > 0)
  }

  ghost predicate Follows(t: SheetTrack, u: SheetTrack) {
    u.source == t.source || u.source == t.source + 1
  }

  // ----- a disc as the list of its sectors

  datatype Sector = Gap | Stored(file: nat, sector: nat)

  function SpanSectors(s: Span): seq<Sector> {
    seq(s.sectors, i requires 0 <= i < s.sectors => if s.silence then Gap else Stored(s.source, s.sourceSector + i))
  }

  /** The disc in order of address. */
  function Disc(spans: seq<Span>): seq<Sector> {
    if spans == [] then [] else Disc(spans[..|spans| - 1]) + SpanSectors(spans[|spans| - 1])
  }

  /** The stored sectors of a disc, gaps left out. */
  function StoredOf(d: seq<Sector>): seq<Sector> {
    if d == [] then [] else StoredOf(d[..|d| - 1]) + (if d[|d| - 1].Gap? then [] else [d[|d| - 1]])
  }

  function Gaps(d: seq<Sector>): nat {
    if d == [] then 0 else Gaps(d[..|d| - 1]) + (if d[|d| - 1].Gap? then 1 else 0)
  }

  function FileSectors(f: nat, n: nat): seq<Sector> {
    seq(n, i requires 0 <= i < n => Stored(f, i))
  }

  /** Every sector of the first `f` files, each file in order. */
  function AllSectors(files: seq<Source>, f: nat): seq<Sector>
    requires f <= |files|
  {
    if f == 0 then [] else AllSectors(files, f - 1) + FileSectors(f - 1, files[f - 1].sectors)
  }

  lemma {:induction false} StoredAppend(a: seq<Sector>, b: seq<Sector>)
    ensures StoredOf(a + b) == StoredOf(a) + StoredOf(b) && Gaps(a + b) == Gaps(a) + Gaps(b)
    decreases |b|
  {
    if b == [] {
      assert a + b == a;
    } else {
      assert (a + b)[..|a + b| - 1] == a + b[..|b| - 1];
      StoredAppend(a, b[..|b| - 1]);
    }
  }

  lemma {:induction false} StoredPlusGaps(d: seq<Sector>)
    ensures |StoredOf(d)| + Gaps(d) == |d|
  {
    if d != [] { StoredPlusGaps(d[..|d| - 1]); }
  }

  lemma {:induction false} RunOf(s: Span, n: nat)
    requires n <= s.sectors
    ensures var run := SpanSectors(s)[..n];
      StoredOf(run) == (if s.silence then [] else run) && Gaps(run) == if s.silence then n else 0
    decreases n
  {
    if n > 0 {
      assert SpanSectors(s)[..n][..n - 1] == SpanSectors(s)[..n - 1];
      RunOf(s, n - 1);
      assert SpanSectors(s)[..n] == SpanSectors(s)[..n - 1] + [SpanSectors(s)[n - 1]];
    }
  }

  lemma {:induction false} SpanStored(spans: seq<Span>, s: Span)
    ensures Disc(spans + [s]) == Disc(spans) + SpanSectors(s)
    ensures StoredOf(Disc(spans + [s])) == StoredOf(Disc(spans)) + (if s.silence then [] else SpanSectors(s))
    ensures Gaps(Disc(spans + [s])) == Gaps(Disc(spans)) + (if s.silence then s.sectors else 0)
  {
    assert (spans + [s])[..|spans|] == spans;
    StoredAppend(Disc(spans), SpanSectors(s));
    assert SpanSectors(s)[..s.sectors] == SpanSectors(s);
    RunOf(s, s.sectors);
  }

  // ----- tiling

  /** Each span starts where the one before it ends, none is empty, and together they cover 0..end. */
  ghost predicate Tiles(spans: seq<Span>, end: nat) {
    && (forall k :: 0 <= k < |spans| ==> spans[k].sectors > 0)
    && (forall k :: 0 <= k < |spans| - 1 ==> Abuts(spans[k], spans[k + 1]))
    && (if spans == [] then end == 0
        else spans[0].lba == 0 && spans[|spans| - 1].lba + spans[|spans| - 1].sectors == end)
  }

  ghost predicate Abuts(s: Span, t: Span) {
    t.lba == s.lba + s.sectors
  }

  lemma {:induction false} TilesMore(spans: seq<Span>, end: nat, s: Span)
    requires Tiles(spans, end) && s.lba == end && s.sectors > 0
    ensures Tiles(spans + [s], end + s.sectors)
  {
  }

  lemma {:induction false} TilesLength(spans: seq<Span>, end: nat)
    requires Tiles(spans, end)
    ensures |Disc(spans)| == end
    decreases |spans|
  {
    if |spans| == 1 {
      assert Disc(spans[..0]) == [];
    } else if spans != [] {
      var front, last := spans[..|spans| - 1], spans[|spans| - 1];
      assert Abuts(spans[|spans| - 2], spans[|spans| - 1]);
      assert forall k :: 0 <= k < |front| - 1 ==> Abuts(spans[k], spans[k + 1]) ==> Abuts(front[k], front[k + 1]);
      TilesLength(front, last.lba);
    }
  }

  // ----- the layout pass

  function OrElse(o: Option<nat>, d: nat): nat {
    if o.Some? then o.value else d
  }

  /** The first source sector a track owns: INDEX 00 or 01, but the first track of a file owns its leading sectors. */
  function First(sheet: seq<SheetTrack>, i: nat): nat
    requires i < |sheet|
  {
    if i == 0 || sheet[i - 1].source != sheet[i].source then 0
    else OrElse(sheet[i].index0, OrElse(sheet[i].index1, 0))
  }

  predicate LastInFile(sheet: seq<SheetTrack>, i: nat)
    requires i < |sheet|
  {
    i + 1 == |sheet| || sheet[i + 1].source != sheet[i].source
  }

  /** The source sector a track ends before. */
  function End(sheet: seq<SheetTrack>, files: seq<Source>, i: nat): nat
    requires i < |sheet| && sheet[i].source < |files|
  {
    if LastInFile(sheet, i) then files[sheet[i].source].sectors
    else OrElse(sheet[i + 1].index0, OrElse(sheet[i + 1].index1, 0))
  }

  /** What the layout pass demands of a track. */
  predicate TrackOk(sheet: seq<SheetTrack>, files: seq<Source>, i: nat)
    requires i < |sheet| && sheet[i].source < |files|
  {
    var t := sheet[i];
    && t.index1.Some? && (i == 0 ==> t.index1.value == 0 && OrElse(t.index0, 0) == 0)
    && t.index1.value < End(sheet, files, i)
  }

  ghost function Length(sheet: seq<SheetTrack>, files: seq<Source>, i: nat): int
    requires i < |sheet| && sheet[i].source < |files|
  {
    OrElse(sheet[i].pregap, 0) + End(sheet, files, i) - First(sheet, i) + OrElse(sheet[i].postgap, 0)
  }

  /** Where track `i` begins on the disc, its pregap included. */
  ghost function Cursor(sheet: seq<SheetTrack>, files: seq<Source>, i: nat): int
    requires i <= |sheet| && forall k :: 0 <= k < |sheet| ==> sheet[k].source < |files|
  {
    if i == 0 then 0 else Cursor(sheet, files, i - 1) + Length(sheet, files, i - 1)
  }

  function DataTracks(sheet: seq<SheetTrack>, i: nat): nat
    requires i <= |sheet|
  {
    if i == 0 then 0 else DataTracks(sheet, i - 1) + (if sheet[i - 1].audio then 0 else 1)
  }

  ghost function SheetGaps(sheet: seq<SheetTrack>, i: nat): nat
    requires i <= |sheet|
  {
    if i == 0 then 0
    else SheetGaps(sheet, i - 1) + OrElse(sheet[i - 1].pregap, 0) + OrElse(sheet[i - 1].postgap, 0)
  }

  /** The sheets a disc is made of. */
  ghost predicate Accepted(sheet: seq<SheetTrack>, files: seq<Source>)
    requires ValidSheet(sheet, files)
  {
    && (forall i :: 0 <= i < |sheet| ==> ValidTrack(sheet[i], |files|) && TrackOk(sheet, files, i))
    && Cursor(sheet, files, |sheet|) <= MAX_LBA && DataTracks(sheet, |sheet|) <= 1
  }

  /** The stored sectors that precede track `i`. */
  ghost function Before(sheet: seq<SheetTrack>, files: seq<Source>, i: nat): seq<Sector>
    requires ValidSheet(sheet, files) && i <= |sheet|
  {
    if i == |sheet| then AllSectors(files, |files|)
    else
      assert ValidTrack(sheet[i], |files|);
      AllSectors(files, sheet[i].source) + FileSectors(sheet[i].source, First(sheet, i))
  }

  lemma {:induction false} FirstIsOk(sheet: seq<SheetTrack>, files: seq<Source>, i: nat)
    requires ValidSheet(sheet, files) && i < |sheet| && ValidTrack(sheet[i], |files|) && TrackOk(sheet, files, i)
    ensures First(sheet, i) <= sheet[i].index1.value < End(sheet, files, i)
  {
  }

  /** What a track stores takes the disc on to the next track's first sector. */
  lemma {:induction false} TrackStores(sheet: seq<SheetTrack>, files: seq<Source>, i: nat, s: Span)
    requires ValidSheet(sheet, files) && i < |sheet| && ValidTrack(sheet[i], |files|) && TrackOk(sheet, files, i)
    requires s.sectors == End(sheet, files, i) - First(sheet, i) && !s.silence
    requires s.source == sheet[i].source && s.sourceSector == First(sheet, i)
    ensures Before(sheet, files, i) + SpanSectors(s) == Before(sheet, files, i + 1)
  {
    var f, n := sheet[i].source, End(sheet, files, i);
    assert FileSectors(f, First(sheet, i)) + SpanSectors(s) == FileSectors(f, n);
    assert Before(sheet, files, i) + SpanSectors(s) == AllSectors(files, f) + FileSectors(f, n);
    if i + 1 < |sheet| {
      assert Follows(sheet[i], sheet[i + 1]) && ValidTrack(sheet[i + 1], |files|);
      if LastInFile(sheet, i) {
        assert FileSectors(f + 1, 0) == [];
      }
    }
  }

  /** A laid-out track starts at its INDEX 01, in its own stored sectors. */
  ghost predicate TrackFits(t: Track, u: SheetTrack, disc: seq<Sector>) {
    && u.index1.Some? && t.audio == u.audio && t.source == u.source && t.sourceStart == u.index1.value
    && t.extent <= t.start < t.storedEnd <= |disc| && disc[t.start] == Stored(u.source, u.index1.value)
    && forall k :: t.start <= k < t.storedEnd ==> disc[k] == Stored(u.source, u.index1.value + (k - t.start))
  }

  lemma {:induction false} TrackStillFits(t: Track, u: SheetTrack, disc: seq<Sector>, more: seq<Sector>)
    requires TrackFits(t, u, disc)
    ensures TrackFits(t, u, disc + more)
  {
  }

  class Image {
    var files: seq<Source>
    var spans: seq<Span>
    var tracks: seq<Track>
    var leadOut: nat

    /** The first `i` tracks are laid out. */
    ghost predicate LaidOut(sheet: seq<SheetTrack>, i: nat, cursor: nat)
      requires ValidSheet(sheet, files) && i <= |sheet|
      reads this
    {
      && Tiles(spans, cursor) && |Disc(spans)| == cursor
      && StoredOf(Disc(spans)) == Before(sheet, files, i) && Gaps(Disc(spans)) == SheetGaps(sheet, i)
      && |tracks| == i && forall k :: 0 <= k < i ==> TrackFits(tracks[k], sheet[k], Disc(spans))
    }

    /** Append a span at the cursor. */
    method Push(sectors: nat, silence: bool, source: nat, sourceSector: nat, cursor: nat) returns (next: nat)
      requires Tiles(spans, cursor) && |Disc(spans)| == cursor && sectors > 0
      modifies this`spans
      ensures var s := Span(cursor, sectors, silence, source, sourceSector);
        && spans == old(spans) + [s] && next == cursor + sectors && Tiles(spans, next)
        && Disc(spans) == old(Disc(spans)) + SpanSectors(s) && |Disc(spans)| == next
        && StoredOf(Disc(spans)) == old(StoredOf(Disc(spans))) + (if silence then [] else SpanSectors(s))
        && Gaps(Disc(spans)) == old(Gaps(Disc(spans))) + (if silence then sectors else 0)
    {
      var s := Span(cursor, sectors, silence, source, sourceSector);
      TilesMore(spans, cursor, s);
      SpanStored(spans, s);
      spans := spans + [s];
      next := cursor + sectors;
    }

    /** Append a pregap or a postgap, if the sheet has one. */
    method PushGap(gap: Option<nat>, cursor: nat) returns (next: nat)
      requires Tiles(spans, cursor) && |Disc(spans)| == cursor && (gap.Some? ==> gap.value > 0)
      modifies this`spans
      ensures next == cursor + OrElse(gap, 0) && Tiles(spans, next) && |Disc(spans)| == next
      ensures old(Disc(spans)) <= Disc(spans) && StoredOf(Disc(spans)) == old(StoredOf(Disc(spans)))
      ensures Gaps(Disc(spans)) == old(Gaps(Disc(spans))) + OrElse(gap, 0)
    {
      hide Disc, StoredOf, Gaps, Tiles, SpanSectors;
      next := cursor;
      if gap.Some? { next := Push(gap.value, true, 0, 0, next); }
    }

    /** The source sectors a track owns, or why it has none: no INDEX 01, a stored pregap of the first track, or an
    INDEX 01 at or past the end. */
    method Extent(sheet: seq<SheetTrack>, i: nat) returns (ok: bool, first: nat, end: nat)
      requires i < |sheet| && sheet[i].source < |files|
      ensures ok == TrackOk(sheet, files, i)
      ensures ok ==> first == First(sheet, i) && end == End(sheet, files, i)
    {
      var t := sheet[i];
      first, end := 0, 0;
      if t.index1.None? { return false, 0, 0; }
      var firstInFile := i == 0 || sheet[i - 1].source != t.source;
      if i == 0 && (t.index1.value != 0 || (t.index0.Some? && t.index0.value != 0)) { return false, 0, 0; }
      if !firstInFile { first := if t.index0.Some? then t.index0.value else t.index1.value; }
      var lastInFile := i + 1 == |sheet| || sheet[i + 1].source != t.source;
      if lastInFile {
        end := files[t.source].sectors;
      } else if sheet[i + 1].index0.Some? {
        end := sheet[i + 1].index0.value;
      } else if sheet[i + 1].index1.Some? {
        end := sheet[i + 1].index1.value;
      }
      ok := t.index1.value < end;
    }

    /** One turn of the layout loop: pregap, stored sectors, postgap. */
    method LayTrack(sheet: seq<SheetTrack>, i: nat, first: nat, end: nat, cursor: nat) returns (next: nat)
      requires ValidSheet(sheet, files) && i < |sheet| && LaidOut(sheet, i, cursor)
      requires ValidTrack(sheet[i], |files|) && TrackOk(sheet, files, i)
      requires first == First(sheet, i) && end == End(sheet, files, i)
      modifies this`spans, this`tracks
      ensures LaidOut(sheet, i + 1, next) && next == cursor + Length(sheet, files, i)
    {
      hide Disc, StoredOf, Gaps, Tiles, SpanSectors, Before, TrackFits;
      FirstIsOk(sheet, files, i);
      ghost var disc := Disc(spans);
      var t := sheet[i];
      next := PushGap(t.pregap, cursor);
      var start := next + (t.index1.value - first);
      ghost var base, own := Disc(spans), Span(next, end - first, false, t.source, first);
      TrackStores(sheet, files, i, own);
      next := Push(end - first, false, t.source, first, next);
      var track := Track(t.audio, t.source, cursor, start, next, t.index1.value);
      NewTrackFits(track, t, base, own);
      ghost var most := Disc(spans);
      next := PushGap(t.postgap, next);
      tracks := tracks + [track];
      assert disc <= base <= most;
      StillPrefix(disc, Disc(spans), most);
      TracksStillFit(tracks, sheet, i, disc, most, Disc(spans));
    }

    /** The layout pass of `open`: it accepts exactly the acceptable sheets. The spans then tile 0..lead-out, what is
    stored is every sector of every file once and in order, and the rest is the sheet's gaps. */
    method LayOut(sheet: seq<SheetTrack>) returns (ok: bool)
      requires ValidSheet(sheet, files) && spans == [] && tracks == [] && leadOut == 0
      modifies this
      ensures ok <==> Accepted(sheet, old(files))
      ensures ok ==> files == old(files) && Tiles(spans, leadOut) && |Disc(spans)| == leadOut
      ensures ok ==> StoredOf(Disc(spans)) == AllSectors(files, |files|)
      ensures ok ==> leadOut == |AllSectors(files, |files|)| + SheetGaps(sheet, |sheet|)
      ensures ok ==> |tracks| == |sheet| && forall k :: 0 <= k < |tracks| ==>
        TrackFits(tracks[k], sheet[k], Disc(spans))
      ensures ok ==> forall k :: 0 <= k < |spans| ==> InFile(spans[k], files)
      ensures !ok ==> files == [] && spans == [] && tracks == [] && leadOut == 0
    {
      hide Disc, StoredOf, Gaps, Tiles, Before, TrackFits, TrackOk, SheetGaps;
      ghost var given := files;
      var dataTracks, cursor := 0, 0;
      assert ValidTrack(sheet[0], |files|);
      NothingLaidOut(sheet, files);
      assert LaidOut(sheet, 0, 0);
      for i := 0 to |sheet|
        invariant files == given && leadOut == 0 && 0 <= cursor && LaidOut(sheet, i, cursor)
        invariant cursor == Cursor(sheet, files, i) <= MAX_LBA && dataTracks == DataTracks(sheet, i)
        invariant forall k :: 0 <= k < i ==> ValidTrack(sheet[k], |files|) && TrackOk(sheet, files, k)
      {
        assert ValidTrack(sheet[i], |files|);
        var good, first, end := Extent(sheet, i);
        if !good {
          Clear();
          return false;
        }
        cursor := LayTrack(sheet, i, first, end, cursor);
        if !sheet[i].audio { dataTracks := dataTracks + 1; }
        if cursor > MAX_LBA {
          TooLong(sheet, files, i + 1);
          Clear();
          return false;
        }
      }
      if dataTracks > 1 {
        Clear();
        return false;
      }
      leadOut := cursor;
      AllAreBefore(sheet, files);
      StoredPlusGaps(Disc(spans));
      SpansAreInFiles(spans, leadOut, files);
      ok := true;
    }

    /** `readRawSector`: what the disc holds at an address, zeros for a gap, and nothing past the lead-out. */
    method ReadRawSector(lba: nat, out: array<Byte>) returns (ok: bool)
      requires Tiles(spans, leadOut) && |Disc(spans)| == leadOut && out.Length == RAW
      requires forall k :: 0 <= k < |spans| ==> InFile(spans[k], files)
      modifies out
      ensures lba >= leadOut ==> !ok
      ensures lba < leadOut ==>
        match Disc(spans)[lba]
        case Gap => ok && forall j :: 0 <= j < RAW ==> out[j] == 0
        case Stored(f, x) =>
          && f < |files| && (ok <==> files[f].sectorBytes == RAW)
          && (ok ==> forall j :: 0 <= j < RAW ==> out[j] == SectorByte(files[f], x * RAW, RAW, j))
    {
      var k := UpperBound(lba);
      if k == 0 {
        SpanCovers(spans, leadOut, lba, 0);
        return false;
      }
      var hit := spans[k - 1];
      SpanCovers(spans, leadOut, lba, k);
      if lba - hit.lba >= hit.sectors { return false; }
      DiscAt(spans, leadOut, k - 1, lba);
      assert InFile(hit, files);
      if hit.silence {
        forall j | 0 <= j < RAW { out[j] := 0; }
        return true;
      }
      if files[hit.source].sectorBytes != RAW { return false; }
      ok := ReadSource(files[hit.source], hit.sourceSector + (lba - hit.lba), 1, out);
    }

    /** The binary search: the first span that starts after the address. */
    method UpperBound(lba: nat) returns (k: nat)
      requires Tiles(spans, leadOut)
      ensures k <= |spans|
      ensures forall i :: 0 <= i < k ==> spans[i].lba <= lba
      ensures forall i :: k <= i < |spans| ==> lba < spans[i].lba
    {
      hide Disc;
      var lo, hi := 0, |spans|;
      while lo < hi
        invariant 0 <= lo <= hi <= |spans|
        invariant forall i :: 0 <= i < lo ==> spans[i].lba <= lba
        invariant forall i :: hi <= i < |spans| ==> lba < spans[i].lba
      {
        var mid := (lo + hi) / 2;
        SpansRise(spans, leadOut);
        if lba < spans[mid].lba { hi := mid; } else { lo := mid + 1; }
      }
      k := lo;
    }

    /** `fail` and `clear`. */
    method Clear()
      modifies this
      ensures files == [] && spans == [] && tracks == [] && leadOut == 0
    {
      files, spans, tracks, leadOut := [], [], [], 0;
    }
  }

  // ----- finding an address

  lemma {:induction false} SpanRises(spans: seq<Span>, end: nat, i: nat, k: nat)
    requires Tiles(spans, end) && i <= k < |spans|
    ensures spans[i].lba <= spans[k].lba && (i < k ==> spans[i].lba + spans[i].sectors <= spans[k].lba)
    decreases k
  {
    if i < k {
      SpanRises(spans, end, i, k - 1);
      assert Abuts(spans[k - 1], spans[k - 1 + 1]);
    }
  }

  lemma {:induction false} SpansRise(spans: seq<Span>, end: nat)
    requires Tiles(spans, end)
    ensures forall i, k :: 0 <= i <= k < |spans| ==> spans[i].lba <= spans[k].lba
  {
    forall i, k | 0 <= i <= k < |spans|
      ensures spans[i].lba <= spans[k].lba
    {
      SpanRises(spans, end, i, k);
    }
  }

  predicate Holds(s: Span, lba: nat) {
    s.lba <= lba < s.lba + s.sectors
  }

  /** The span before the first one that starts after an address holds it, if any does: there is one below the
  lead-out, and none from there on. */
  lemma {:induction false} SpanCovers(spans: seq<Span>, end: nat, lba: nat, k: nat)
    requires Tiles(spans, end) && k <= |spans|
    requires (forall i :: 0 <= i < k ==> spans[i].lba <= lba) && forall i :: k <= i < |spans| ==> lba < spans[i].lba
    ensures lba < end <==> k > 0 && Holds(spans[k - 1], lba)
    ensures forall i :: 0 <= i < |spans| && Holds(spans[i], lba) ==> i == k - 1
  {
    if k > 0 { SpanRises(spans, end, k - 1, |spans| - 1); }
    if 0 < k < |spans| { assert Abuts(spans[k - 1], spans[k - 1 + 1]); }
    forall i | 0 <= i < |spans| && Holds(spans[i], lba)
      ensures i == k - 1
    {
      if i < k - 1 { SpanRises(spans, end, i, k - 1); }
    }
  }

  /** The sector at an address is the one its span says. */
  lemma {:induction false} DiscAt(spans: seq<Span>, end: nat, k: nat, lba: nat)
    requires Tiles(spans, end) && k < |spans| && Holds(spans[k], lba)
    ensures lba < |Disc(spans)| && Disc(spans)[lba] == SpanSectors(spans[k])[lba - spans[k].lba]
    decreases |spans|
  {
    var n := |spans| - 1;
    var front := spans[..n];
    assert n > 0 ==> Abuts(spans[n - 1], spans[n - 1 + 1]);
    assert forall i :: 0 <= i < |front| - 1 ==> Abuts(spans[i], spans[i + 1]) ==> Abuts(front[i], front[i + 1]);
    TilesLength(front, spans[n].lba);
    if k < n { DiscAt(front, spans[n].lba, k, lba); }
  }

  lemma {:induction false} StoredIsListed(d: seq<Sector>, i: nat)
    requires i < |d| && d[i].Stored?
    ensures d[i] in StoredOf(d)
    decreases |d|
  {
    if i < |d| - 1 { StoredIsListed(d[..|d| - 1], i); }
  }

  lemma {:induction false} ListedIsInFile(files: seq<Source>, f: nat, s: Sector)
    requires f <= |files| && s in AllSectors(files, f)
    ensures s.Stored? && s.file < f && s.sector < files[s.file].sectors
    decreases f
  {
    if s in AllSectors(files, f - 1) { ListedIsInFile(files, f - 1, s); }
  }

  lemma {:induction false} SpansAreInFiles(spans: seq<Span>, end: nat, files: seq<Source>)
    requires Tiles(spans, end) && StoredOf(Disc(spans)) == AllSectors(files, |files|)
    ensures forall k :: 0 <= k < |spans| ==> InFile(spans[k], files)
  {
    forall k | 0 <= k < |spans|
      ensures InFile(spans[k], files)
    {
      var s := spans[k];
      if !s.silence {
        var last := s.lba + s.sectors - 1;
        DiscAt(spans, end, k, last);
        StoredIsListed(Disc(spans), last);
        ListedIsInFile(files, |files|, Disc(spans)[last]);
      }
    }
  }

  // ----- reading a file

  /** A stored span lies within its file. */
  predicate InFile(s: Span, files: seq<Source>) {
    s.silence || (s.source < |files| && s.sourceSector + s.sectors <= files[s.source].sectors)
  }

  /** The byte that ends up at `j` of `n` bytes read from `at`: past the end of the data it is zero, and the bytes of
  a Motorola file trade places in pairs. */
  function SectorByte(f: Source, at: nat, n: nat, j: nat): Byte {
    var from := at + (if !f.swapped then j else if j % 2 == 1 then j - 1 else if j + 1 < n then j + 1 else j);
    if from < |f.data| then f.data[from] else 0
  }

  /** `readSource`: whole sectors, or nothing. */
  method ReadSource(f: Source, sector: nat, count: nat, out: array<Byte>) returns (ok: bool)
    requires count * f.sectorBytes <= out.Length
    modifies out
    ensures ok <==> sector < f.sectors && sector * f.sectorBytes + count * f.sectorBytes <= f.sectors * f.sectorBytes
    ensures ok ==> forall j :: 0 <= j < count * f.sectorBytes ==>
      out[j] == SectorByte(f, sector * f.sectorBytes, count * f.sectorBytes, j)
  {
    var bytes, at := count * f.sectorBytes, sector * f.sectorBytes;
    if sector >= f.sectors || at + bytes > f.sectors * f.sectorBytes { return false; }
    var stored := if at >= |f.data| then 0 else if bytes < |f.data| - at then bytes else |f.data| - at;
    forall j | 0 <= j < stored { out[j] := f.data[at + j]; }
    forall j | stored <= j < bytes { out[j] := 0; }
    if f.swapped { SwapPairs(f, at, bytes, out); }
    ok := true;
  }

  /** The byte swap of a Motorola file. */
  method SwapPairs(f: Source, at: nat, bytes: nat, out: array<Byte>)
    requires f.swapped && bytes <= out.Length
    requires forall j :: 0 <= j < bytes ==> out[j] == if at + j < |f.data| then f.data[at + j] else 0
    modifies out
    ensures forall j :: 0 <= j < bytes ==> out[j] == SectorByte(f, at, bytes, j)
  {
    var i := 0;
    while i + 1 < bytes
      invariant 0 <= i <= bytes && i % 2 == 0
      invariant forall j :: 0 <= j < i ==> out[j] == SectorByte(f, at, bytes, j)
      invariant forall j :: i <= j < bytes ==> out[j] == if at + j < |f.data| then f.data[at + j] else 0
    {
      out[i], out[i + 1] := out[i + 1], out[i];
      i := i + 2;
    }
  }

  lemma {:induction false} NothingLaidOut(sheet: seq<SheetTrack>, files: seq<Source>)
    requires ValidSheet(sheet, files)
    ensures Tiles([], 0) && Disc([]) == [] && StoredOf(Disc([])) == Before(sheet, files, 0)
    ensures Gaps(Disc([])) == SheetGaps(sheet, 0)
  {
    assert FileSectors(0, 0) == [];
  }

  lemma {:induction false} AllAreBefore(sheet: seq<SheetTrack>, files: seq<Source>)
    requires ValidSheet(sheet, files)
    ensures Before(sheet, files, |sheet|) == AllSectors(files, |files|)
  {
  }

  /** The disc only grows, so an acceptable sheet is never too long on the way. */
  lemma {:induction false} TooLong(sheet: seq<SheetTrack>, files: seq<Source>, i: nat)
    requires ValidSheet(sheet, files) && i <= |sheet| && MAX_LBA < Cursor(sheet, files, i)
    ensures !Accepted(sheet, files)
    decreases |sheet| - i
  {
    if Accepted(sheet, files) && i < |sheet| {
      assert ValidTrack(sheet[i], |files|) && TrackOk(sheet, files, i);
      FirstIsOk(sheet, files, i);
      TooLong(sheet, files, i + 1);
    }
  }

  lemma {:induction false} NewTrackFits(t: Track, u: SheetTrack, base: seq<Sector>, own: Span)
    requires u.index1.Some? && !own.silence && own.source == u.source && own.sourceSector <= u.index1.value
    requires u.index1.value < own.sourceSector + own.sectors && t.extent <= |base|
    requires t == Track(u.audio, u.source, t.extent, |base| + (u.index1.value - own.sourceSector),
                        |base| + own.sectors, u.index1.value)
    ensures TrackFits(t, u, base + SpanSectors(own))
  {
  }

  ghost predicate Grown(a: seq<Sector>, b: seq<Sector>) {
    a <= b
  }

  lemma {:induction false} StillPrefix(a: seq<Sector>, c: seq<Sector>, b: seq<Sector>)
    requires a <= b <= c
    ensures Grown(a, c) && Grown(b, c)
  {
  }

  lemma {:induction false} TracksStillFit(tracks: seq<Track>, sheet: seq<SheetTrack>, i: nat, disc: seq<Sector>,
                                          most: seq<Sector>, all: seq<Sector>)
    requires i < |sheet| && |tracks| == i + 1 && Grown(disc, all) && Grown(most, all)
    requires forall k :: 0 <= k < i ==> TrackFits(tracks[k], sheet[k], disc)
    requires TrackFits(tracks[i], sheet[i], most)
    ensures forall k :: 0 <= k <= i ==> TrackFits(tracks[k], sheet[k], all)
  {
    hide TrackFits;
    forall k | 0 <= k <= i
      ensures TrackFits(tracks[k], sheet[k], all)
    {
      var was := if k < i then disc else most;
      TrackStillFits(tracks[k], sheet[k], was, all[|was|..]);
      assert was + all[|was|..] == all;
    }
  }
}

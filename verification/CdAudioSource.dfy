/** The ring between the machine thread, which pushes CD-audio frames, and the audio thread, which drains them.

Each thread's loads and stores are separate steps, interleaved in any order. An acquiring load may be stale: it sees
any value of the other thread's index published since the one it saw last. */
module CdAudioSource {

  const RING := 0x8000

  datatype Frame = Frame(left: real, right: real)

  /** Where `push` is: before it, after loading the write index, found room, stored the frame. */
  datatype Producer =
    | Resting | Loaded(frame: Frame, w: nat) | Clear(frame: Frame, w: nat) | Written(frame: Frame, w: nat)

  /** Where one turn of `mixStereo` is: before it, after loading the read index, found a frame, read it. */
  datatype Consumer = Idle | Looked(r: nat) | Ready(r: nat) | Heard(r: nat, frame: Frame)

  /** The shared memory and both threads. The rest is history: frames offered, which of those decided on were kept,
  frames published and frames released, and how much of the other side each thread has seen. */
  datatype State = State(ring: seq<Frame>, read: nat, write: nat, dropped: nat, producer: Producer, consumer: Consumer,
                         offered: seq<Frame>, kept: seq<bool>, accepted: seq<Frame>, consumed: seq<Frame>,
                         seenRead: nat, seenWrite: nat)

  datatype Action =
    | Offer(frame: Frame) | CheckFull(seen: nat) | Store | Publish
    | Look | CheckDry(seen: nat) | Take | Release

  /** A thread takes its steps in order, and a load sees nothing older than what its thread has seen before. */
  predicate Enabled(s: State, a: Action) {
    match a
    case Offer(_) => s.producer.Resting?
    case CheckFull(seen) => s.producer.Loaded? && s.seenRead <= seen <= |s.consumed|
    case Store => s.producer.Clear? && s.producer.w < |s.ring|
    case Publish => s.producer.Written?
    case Look => s.consumer.Idle?
    case CheckDry(seen) => s.consumer.Looked? && s.seenWrite <= seen <= |s.accepted|
    case Take => s.consumer.Ready? && s.consumer.r < |s.ring|
    case Release => s.consumer.Heard?
  }

  function Next(s: State, a: Action): State
    requires Enabled(s, a)
  {
    match a
    case Offer(frame) => s.(producer := Loaded(frame, s.write), offered := s.offered + [frame])
    case CheckFull(seen) =>
      var full := (s.producer.w + 1) % RING == seen % RING;
      s.(producer := if full then Resting else Clear(s.producer.frame, s.producer.w), kept := s.kept + [!full],
         dropped := if full then s.dropped + 1 else s.dropped, seenRead := seen)
    case Store =>
      s.(ring := s.ring[s.producer.w := s.producer.frame], producer := Written(s.producer.frame, s.producer.w))
    case Publish =>
      s.(write := (s.producer.w + 1) % RING, accepted := s.accepted + [s.producer.frame], producer := Resting)
    case Look => s.(consumer := Looked(s.read))
    case CheckDry(seen) =>
      s.(consumer := if s.consumer.r == seen % RING then Idle else Ready(s.consumer.r), seenWrite := seen)
    case Take => s.(consumer := Heard(s.consumer.r, s.ring[s.consumer.r]))
    case Release => s.(read := (s.consumer.r + 1) % RING, consumed := s.consumed + [s.consumer.frame], consumer := Idle)
  }

  /** A run: steps that are not enabled do not happen. */
  function Run(s: State, acts: seq<Action>): State
    decreases |acts|
  {
    if acts == [] then s else Run(if Enabled(s, acts[0]) then Next(s, acts[0]) else s, acts[1..])
  }

  function Start(ring: seq<Frame>): State {
    State(ring, 0, 0, 0, Resting, Idle, [], [], [], [], 0, 0)
  }

  // ----- the books

  /** The offered frames that were kept. */
  function Kept(offered: seq<Frame>, kept: seq<bool>): seq<Frame>
    requires |kept| <= |offered|
  {
    if kept == [] then []
    else
      var n := |kept| - 1;
      Kept(offered[..n], kept[..n]) + (if kept[n] then [offered[n]] else [])
  }

  function Refusals(kept: seq<bool>): nat {
    if kept == [] then 0 else Refusals(kept[..|kept| - 1]) + (if kept[|kept| - 1] then 0 else 1)
  }

  lemma {:induction false} KeptSnoc(offered: seq<Frame>, kept: seq<bool>, b: bool)
    requires |kept| < |offered|
    ensures Kept(offered, kept + [b]) == Kept(offered, kept) + (if b then [offered[|kept|]] else [])
    ensures Refusals(kept + [b]) == Refusals(kept) + (if b then 0 else 1)
  {
    assert (kept + [b])[..|kept|] == kept;
    KeptPrefix(offered, kept, |kept|);
  }

  lemma {:induction false} KeptPrefix(offered: seq<Frame>, kept: seq<bool>, n: nat)
    requires |kept| <= n <= |offered|
    ensures Kept(offered[..n], kept) == Kept(offered, kept)
  {
    if kept != [] {
      assert offered[..n][..|kept| - 1] == offered[..|kept| - 1];
    }
  }

  lemma {:induction false} KeptAndRefused(offered: seq<Frame>, kept: seq<bool>)
    requires |kept| <= |offered|
    ensures |Kept(offered, kept)| + Refusals(kept) == |kept|
    decreases |kept|
  {
    if kept != [] {
      KeptAndRefused(offered[..|kept| - 1], kept[..|kept| - 1]);
    }
  }

  /** The frame the producer has kept but not published. */
  function InHand(p: Producer): seq<Frame> {
    if p.Clear? || p.Written? then [p.frame] else []
  }

  ghost predicate Counts(s: State) {
    && |s.kept| <= |s.offered| && |s.offered| == |s.kept| + (if s.producer.Loaded? then 1 else 0)
    && (s.producer.Loaded? ==> s.offered[|s.kept|] == s.producer.frame)
    && Kept(s.offered, s.kept) == s.accepted + InHand(s.producer)
    && s.dropped == Refusals(s.kept)
  }

  // ----- the ring

  lemma {:induction false} SameSlot(a: nat, b: nat)
    requires a <= b < a + RING
    ensures a % RING == b % RING <==> a == b
  {
    assert b % RING - a % RING == b - a || b % RING - a % RING == b - a - RING;
  }

  /** The slot after the last is the slot of `seen` exactly when all but one are taken. */
  lemma {:induction false} FullSlot(seen: nat, w: nat)
    requires seen <= w <= seen + RING - 1
    ensures (w % RING + 1) % RING == seen % RING <==> w + 1 == seen + RING
  {
    NextSlot(w);
    if w + 1 < seen + RING { SameSlot(seen, w + 1); }
  }

  lemma {:induction false} NextSlot(a: nat)
    ensures (a % RING + 1) % RING == (a + 1) % RING
  {
  }

  /** Where the indices stand, and what each thread may count on. */
  ghost predicate Placed(s: State) {
    && s.read == |s.consumed| % RING && s.write == |s.accepted| % RING
    && (!s.producer.Resting? ==> s.producer.w == s.write)
    && (!s.consumer.Idle? ==> s.consumer.r == s.read)
    && s.seenRead <= |s.consumed| <= s.seenWrite <= |s.accepted|
    && |s.accepted| + |InHand(s.producer)| <= s.seenRead + RING - 1
    && (s.consumer.Ready? || s.consumer.Heard? ==> |s.consumed| < s.seenWrite)
  }

  /** Every frame published and not released is in its slot. */
  ghost predicate Filled(s: State) {
    && |s.ring| == RING
    && (forall i :: |s.consumed| <= i < |s.accepted| ==> s.ring[i % RING] == s.accepted[i])
    && (s.producer.Written? ==> s.ring[s.producer.w % RING] == s.producer.frame)
    && s.consumed <= s.accepted
    && (s.consumer.Heard? ==> |s.consumed| < |s.accepted| && s.consumer.frame == s.accepted[|s.consumed|])
  }

  ghost predicate Inv(s: State) {
    Counts(s) && Placed(s) && Filled(s)
  }

  lemma {:induction false} NextCounts(s: State, a: Action)
    requires Counts(s) && Enabled(s, a)
    ensures Counts(Next(s, a))
  {
    hide Kept, Refusals;
    match a {
      case Offer(frame) =>
        KeptPrefix(s.offered + [frame], s.kept, |s.offered|);
        assert (s.offered + [frame])[..|s.offered|] == s.offered;
      case CheckFull(seen) =>
        var room := (s.producer.w + 1) % RING != seen % RING;
        KeptSnoc(s.offered, s.kept, room);
        assert s.accepted + [] == s.accepted;
      case Publish =>
        assert s.accepted + [s.producer.frame] + [] == s.accepted + [s.producer.frame];
      case _ =>
    }
  }

  lemma {:induction false} NextPlaced(s: State, a: Action)
    requires Placed(s) && Enabled(s, a)
    ensures Placed(Next(s, a))
  {
    match a {
      case CheckFull(seen) =>
        FullSlot(seen, |s.accepted|);
      case Publish => NextSlot(|s.accepted|);
      case CheckDry(seen) => SameSlot(|s.consumed|, seen);
      case Release => NextSlot(|s.consumed|);
      case _ =>
    }
  }

  lemma {:induction false} NextFilled(s: State, a: Action)
    requires Placed(s) && Filled(s) && Enabled(s, a)
    ensures Filled(Next(s, a))
  {
    if a.Store? {
      forall i | |s.consumed| <= i < |s.accepted|
        ensures Next(s, a).ring[i % RING] == s.accepted[i]
      {
        SameSlot(i, |s.accepted|);
      }
    }
  }

  lemma {:induction false} RunKeeps(s: State, acts: seq<Action>)
    requires Inv(s)
    ensures Inv(Run(s, acts))
    decreases |acts|
  {
    hide Inv, Next, Enabled;
    if acts != [] {
      if Enabled(s, acts[0]) { NextKeeps(s, acts[0]); }
      RunKeeps(if Enabled(s, acts[0]) then Next(s, acts[0]) else s, acts[1..]);
    }
  }

  lemma {:induction false} NextKeeps(s: State, a: Action)
    requires Inv(s) && Enabled(s, a)
    ensures Inv(Next(s, a))
  {
    NextCounts(s, a);
    NextPlaced(s, a);
    NextFilled(s, a);
  }

  /** What holds in every state of every interleaving: the frames drained are a prefix of the frames published, at most
  one less than the ring holds is in it, the frames published are the kept ones of those offered, in order, and every
  frame offered was published, dropped or is being pushed. */
  ghost predicate Faithful(s: State) {
    && s.consumed <= s.accepted && |s.accepted| - |s.consumed| <= RING - 1
    && |s.kept| <= |s.offered| && Kept(s.offered, s.kept) == s.accepted + InHand(s.producer)
    && |s.offered| == |s.accepted| + s.dropped + (if s.producer.Resting? then 0 else 1)
  }

  /** No slot is written while it holds a frame still to be drained, least of all the one being read. */
  ghost predicate NoOverwrite(s: State) {
    s.producer.Clear? ==>
      forall i :: |s.consumed| <= i < |s.accepted| ==> i % RING != s.producer.w
  }

  ghost predicate NoRace(s: State) {
    s.producer.Clear? && s.consumer.Ready? ==> s.producer.w != s.consumer.r
  }

  lemma {:induction false} InvIsFaithful(s: State)
    requires Inv(s)
    ensures Faithful(s) && NoOverwrite(s) && NoRace(s)
  {
    hide Kept, Refusals;
    KeptAndRefused(s.offered, s.kept);
    if s.producer.Clear? {
      forall i | |s.consumed| <= i < |s.accepted|
        ensures i % RING != s.producer.w
      {
        SameSlot(i, |s.accepted|);
      }
      if s.consumer.Ready? { SameSlot(|s.consumed|, |s.accepted|); }
    }
  }

  lemma {:induction false} StartIsInv(ring: seq<Frame>)
    requires |ring| == RING
    ensures Inv(Start(ring))
  {
  }

  /** Every interleaving of the two threads, with loads as stale as they may be. */
  lemma {:induction false} EveryInterleaving(ring: seq<Frame>, acts: seq<Action>)
    requires |ring| == RING
    ensures var s := Run(Start(ring), acts); Faithful(s) && NoOverwrite(s) && NoRace(s)
  {
    StartIsInv(ring);
    RunKeeps(Start(ring), acts);
    InvIsFaithful(Run(Start(ring), acts));
  }

  /** A frame is dropped exactly when the producer's view of the ring is full, so with an up-to-date view exactly when
  the ring is. */
  lemma {:induction false} DroppedWhenFull(s: State, seen: nat)
    requires Inv(s) && Enabled(s, CheckFull(seen))
    ensures Next(s, CheckFull(seen)).dropped == s.dropped + 1 <==> |s.accepted| - seen == RING - 1
  {
    FullSlot(seen, |s.accepted|);
  }

  /** Likewise the consumer stops exactly when its view of the ring is empty. */
  lemma {:induction false} DryWhenEmpty(s: State, seen: nat)
    requires Inv(s) && Enabled(s, CheckDry(seen))
    ensures Next(s, CheckDry(seen)).consumer.Idle? <==> seen == |s.consumed|
  {
    SameSlot(|s.consumed|, seen);
  }

  /** `buffered`, from the two indices. */
  function Buffered(read: nat, write: nat): (n: int) {
    (write + RING - read) % RING
  }

  lemma {:induction false} BufferedCounts(s: State)
    requires Inv(s)
    ensures Buffered(s.read, s.write) == |s.accepted| - |s.consumed|
  {
    var a, b := |s.consumed|, |s.accepted|;
    assert b % RING - a % RING == b - a || b % RING - a % RING == b - a - RING;
  }

  // ----- the object, each call undisturbed

  function Slot(read: nat, i: nat): (k: nat)
    ensures k < RING
  {
    (read + i) % RING
  }

  /** The ring holds these frames from slot `read` on. */
  ghost predicate Holds(ring: seq<Frame>, read: nat, contents: seq<Frame>) {
    |ring| == RING && forall i :: 0 <= i < |contents| ==> ring[Slot(read, i)] == contents[i]
  }

  lemma {:induction false} HoldsMore(ring: seq<Frame>, read: nat, contents: seq<Frame>, frame: Frame)
    requires Holds(ring, read, contents) && |contents| < RING
    ensures Holds(ring[Slot(read, |contents|) := frame], read, contents + [frame])
  {
    var more := ring[Slot(read, |contents|) := frame];
    forall i | 0 <= i < |contents|
      ensures more[Slot(read, i)] == contents[i]
    {
      SameSlot(read + i, read + |contents|);
    }
  }

  lemma {:induction false} HoldsLess(ring: seq<Frame>, read: nat, contents: seq<Frame>)
    requires Holds(ring, read, contents) && contents != [] && read < RING
    ensures ring[read] == contents[0] && Holds(ring, (read + 1) % RING, contents[1..])
  {
    assert Slot(read, 0) == read;
    forall i | 0 <= i < |contents| - 1
      ensures ring[Slot((read + 1) % RING, i)] == contents[1..][i]
    {
      assert Slot((read + 1) % RING, i) == Slot(read, i + 1);
    }
  }

  /** A sample through the host's volume and the guest's. */
  function Scaled(x: real, gain: real, guest: nat): (y: real)
    ensures gain == 0.0 ==> y == 0.0
  {
    x * (gain * guest as real / 255.0)
  }

  datatype Volume = Volume(gain: real, left: nat, right: nat)

  /** The interleaved output with the frames added to its front. */
  function Mixed(out: seq<real>, frames: seq<Frame>, v: Volume): (r: seq<real>)
    requires 2 * |frames| <= |out|
    ensures |r| == |out|
  {
    seq(|out|, k requires 0 <= k < |out| =>
      if k >= 2 * |frames| then out[k]
      else if k % 2 == 0 then out[k] + Scaled(frames[k / 2].left, v.gain, v.left)
      else out[k] + Scaled(frames[k / 2].right, v.gain, v.right))
  }

  /** The output with frame `f` added at frame position `i`. */
  function WithFrame(out: seq<real>, i: nat, f: Frame, v: Volume): seq<real>
    requires 2 * i + 1 < |out|
  {
    out[2 * i := out[2 * i] + Scaled(f.left, v.gain, v.left)]
       [2 * i + 1 := out[2 * i + 1] + Scaled(f.right, v.gain, v.right)]
  }

  lemma {:induction false} SlotMoves(read: nat, n: nat)
    requires 0 < n
    ensures Slot((read + 1) % RING, n - 1) == Slot(read, n)
  {
  }

  lemma {:induction false} MixedOne(out: seq<real>, frames: seq<Frame>, v: Volume, f: Frame)
    requires 2 * |frames| + 1 < |out|
    ensures Mixed(out, frames + [f], v) == WithFrame(Mixed(out, frames, v), |frames|, f, v)
  {
    hide Scaled;
    var i := 2 * |frames|;
    assert i / 2 == |frames| && (i + 1) / 2 == |frames|;
  }

  class Source {
    const ring: array<Frame>
    var read: nat
    var write: nat
    var dropped: nat
    var volume: Volume
    /** The frames in the ring, oldest first. */
    ghost var contents: seq<Frame>

    ghost predicate Valid()
      reads this, ring
    {
      && ring.Length == RING && read < RING && |contents| <= RING - 1 && write == Slot(read, |contents|)
      && volume.gain >= 0.0
      && Holds(ring[..], read, contents)
    }

    /** `push`: append, or drop the newest when the ring is full. */
    method Push(frame: Frame) returns (ok: bool)
      requires Valid()
      modifies this`write, this`dropped, this`contents, ring
      ensures Valid()
      ensures ok <==> old(|contents|) < RING - 1
      ensures contents == old(contents) + (if ok then [frame] else [])
      ensures dropped == old(dropped) + (if ok then 0 else 1)
    {
      var next := (write + 1) % RING;
      FullSlot(read, read + |contents|);
      if next == read {
        dropped := dropped + 1;
        return false;
      }
      HoldsMore(ring[..], read, contents, frame);
      NextSlot(read + |contents|);
      hide Holds;
      ring[write] := frame;
      assert ring[..] == old(ring[..])[write := frame];
      write := next;
      contents := contents + [frame];
      ok := true;
    }

    /** `mixStereo`: drain up to `frames` frames into the output, each scaled by both volumes; a silenced source drains
    all the same. */
    method MixStereo(out: array<real>, frames: nat)
      requires Valid() && 2 * frames <= out.Length && out as object != ring
      modifies this`read, this`contents, out
      ensures Valid()
      ensures var n := if frames < old(|contents|) then frames else old(|contents|);
        contents == old(contents)[n..] && out[..] == Mixed(old(out[..]), old(contents)[..n], volume)
    {
      hide Holds, Mixed, WithFrame, Slot;
      var i := 0;
      ghost var all, was := contents, out[..];
      MixedNothing(was, all[..0], volume);
      while i < frames
        invariant 0 <= i <= frames && i <= |all| && Valid() && contents == all[i..]
        invariant out[..] == Mixed(was, all[..i], volume)
      {
        var dry := Drain(out, i);
        if dry {
          assert all[..i] == all;
          return;
        }
        MixedOne(was, all[..i], volume, all[i]);
        assert all[..i + 1] == all[..i] + [all[i]];
        i := i + 1;
      }
    }

    /** One turn of the loop: stop when the ring is dry, else add the oldest frame and release its slot. */
    method Drain(out: array<real>, i: nat) returns (dry: bool)
      requires Valid() && 2 * i + 1 < out.Length && out as object != ring
      modifies this`read, this`contents, out
      ensures Valid() && (dry <==> old(contents) == [])
      ensures if dry then contents == [] && out[..] == old(out[..])
        else contents == old(contents)[1..] && out[..] == WithFrame(old(out[..]), i, old(contents)[0], volume)
    {
      hide Holds;
      SameSlot(read, read + |contents|);
      if read == write { return true; }
      HoldsLess(ring[..], read, contents);
      Mix(out, i, ring[read]);
      SlotMoves(read, |contents|);
      read := (read + 1) % RING;
      contents := contents[1..];
      dry := false;
    }

    /** Add one frame to the output. */
    method Mix(out: array<real>, i: nat, frame: Frame)
      requires 2 * i + 1 < out.Length && volume.gain >= 0.0
      modifies out
      ensures out[..] == WithFrame(old(out[..]), i, frame, volume)
    {
      hide Scaled;
      if volume.gain > 0.0 {
        out[2 * i] := out[2 * i] + Scaled(frame.left, volume.gain, volume.left);
        out[2 * i + 1] := out[2 * i + 1] + Scaled(frame.right, volume.gain, volume.right);
      }
    }
  }

  lemma {:induction false} MixedNothing(out: seq<real>, frames: seq<Frame>, v: Volume)
    requires frames == []
    ensures Mixed(out, frames, v) == out
  {
  }
}

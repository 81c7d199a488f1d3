/** The player's frame ring (videoplay.c): a fixed array between one decoder thread and one output thread,
    which keeps the frame shown last and, for video, hardware picture handles that must be freed once. */
module FrameRings {

  datatype Option<+T> = None | Some(value: T)

  /** A ring slot: which frame its AVFrame holds (none once unreferenced), its seek epoch, its picture handle. */
  datatype Frame = Frame(no: Option<nat>, serial: int, handle: Option<nat>)

  datatype Ring = Ring(queue: seq<Frame>, rindex: nat, windex: nat, size: int, shown: nat, keepLast: bool)

  predicate Sized(f: Ring) {
    f.rindex < |f.queue| && f.windex < |f.queue| && f.shown <= 1
  }

  function Bump(i: nat, max: nat): nat {
    if i + 1 == max then 0 else i + 1
  }

  /** frame_queue_peek: the slot of the next frame to show. */
  function PeekIndex(f: Ring): nat
    requires Sized(f)
  {
    (f.rindex + f.shown) % |f.queue|
  }

  // frame_queue_push and frame_queue_next, split where other threads can come in between

  function BumpWrite(f: Ring): Ring {
    f.(windex := Bump(f.windex, |f.queue|))
  }

  function CommitWrite(f: Ring): Ring {
    f.(size := f.size + 1)
  }

  function BumpRead(f: Ring): Ring
    requires Sized(f)
  {
    f.(queue := f.queue[f.rindex := f.queue[f.rindex].(no := None)], rindex := Bump(f.rindex, |f.queue|))
  }

  function CommitRead(f: Ring): Ring {
    f.(size := f.size - 1)
  }

  // ---- what the ring means ----

  /** The slot of the k-th queued frame. */
  function Slot(f: Ring, k: int): int {
    if f.rindex + k < |f.queue| then f.rindex + k else f.rindex + k - |f.queue|
  }

  /** size frames are queued from rindex on, and the next one goes behind them. */
  predicate Synced(f: Ring) {
    && Sized(f) && 0 <= f.size <= |f.queue| && f.shown <= f.size
    && f.windex == Slot(f, f.size)
  }

  /** The queued frames, the one shown last included, in the order they will come out. */
  function Queued(f: Ring): (q: seq<Frame>)
    requires Synced(f)
    ensures |q| == f.size
  {
    seq(f.size, k requires 0 <= k < f.size => f.queue[Slot(f, k)])
  }

  /** A free ring's write slot holds no queued frame, so filling it changes none of them; pushing it queues it last. */
  lemma FillThenPush(f: Ring, x: Frame)
    requires Synced(f) && f.size < |f.queue|
    ensures forall k :: 0 <= k < f.size ==> Slot(f, k) != f.windex
    ensures var g := f.(queue := f.queue[f.windex := x]);
            && Synced(g) && Queued(g) == Queued(f)
            && var h := CommitWrite(BumpWrite(g)); Synced(h) && Queued(h) == Queued(f) + [x]
  {
    var g := f.(queue := f.queue[f.windex := x]);
    assert Queued(g) == Queued(f);
    var h := CommitWrite(BumpWrite(g));
    assert Queued(h) == Queued(f) + [x];
  }

  /** Unlinking takes out exactly the first queued frame. */
  lemma NextUnlinksFirst(f: Ring)
    requires Synced(f) && f.size - f.shown > 0
    ensures var h := CommitRead(BumpRead(f)); Synced(h) && Queued(h) == Queued(f)[1..]
  {
    var h := CommitRead(BumpRead(f));
    assert Queued(h) == Queued(f)[1..];
  }

  class FrameQueue {
    const queue: array<Frame>
    const keepLast: bool
    var rindex: nat
    var windex: nat
    var size: int
    var rindexShown: nat

    ghost function View(): Ring
      reads this, queue
    {
      Ring(queue[..], rindex, windex, size, rindexShown, keepLast)
    }

    ghost predicate Valid()
      reads this, queue
    {
      queue.Length > 0 && Synced(View())
    }

    ghost function Frames(): seq<Frame>
      requires Valid()
      reads this, queue
    {
      Queued(View())
    }

    constructor (maxSize: nat, keepLast: bool)
      requires maxSize > 0
      ensures Valid() && fresh(queue) && queue.Length == maxSize
      ensures View() == Ring(seq(maxSize, _ => Frame(None, 0, None)), 0, 0, 0, 0, keepLast)
    {
      queue := new Frame[maxSize](_ => Frame(None, 0, None));
      this.keepLast := keepLast;
      rindex, windex, size, rindexShown := 0, 0, 0, 0;
      new;
      assert queue[..] == seq(maxSize, _ => Frame(None, 0, None));
    }

    /** frame_queue_peek_writable once it need not wait: nothing when the packet queue is aborted, else a slot that
        holds none of the queued frames. */
    method PeekWritable(abort: bool) returns (i: int)
      requires Valid() && (size < queue.Length || abort)
      ensures abort <==> i == -1
      ensures !abort ==> 0 <= i < queue.Length && i == windex && forall k :: 0 <= k < size ==> Slot(View(), k) != i
    {
      if !abort {
        FillThenPush(View(), queue[windex]);
      }
      i := if abort then -1 else windex;
    }

    /** frame_queue_peek_readable once it need not wait: the slot of the first queued frame not shown yet. */
    method PeekReadable(abort: bool) returns (i: int)
      requires Valid() && (size - rindexShown > 0 || abort)
      ensures abort <==> i == -1
      ensures !abort ==> 0 <= i < queue.Length && queue[i] == Frames()[rindexShown]
    {
      if abort {
        return -1;
      }
      Wrapped(rindex + rindexShown, queue.Length);
      i := (rindex + rindexShown) % queue.Length;
    }

    /** The frame in the write slot joins the queued ones at the end. */
    method Push()
      requires Valid() && size < queue.Length
      modifies this`windex, this`size
      ensures Valid() && View() == CommitWrite(BumpWrite(old(View())))
      ensures Frames() == old(Frames()) + [old(queue[windex])]
    {
      FillThenPush(View(), queue[windex]);
      assert queue[..] == queue[..][windex := queue[windex]];
      windex := windex + 1;
      if windex == queue.Length {
        windex := 0;
      }
      size := size + 1;
    }

    /** The first call with a kept last frame only marks it shown; the others take the first frame out. */
    method Next()
      requires Valid() && size - rindexShown > 0
      modifies this`rindex, this`size, this`rindexShown, queue
      ensures Valid()
      ensures View() ==
              if keepLast && old(rindexShown) == 0 then old(View()).(shown := 1) else CommitRead(BumpRead(old(View())))
      ensures Frames() == if keepLast && old(rindexShown) == 0 then old(Frames()) else old(Frames())[1..]
    {
      if keepLast && rindexShown == 0 {
        rindexShown := 1;
        assert Frames() == old(Frames());
        return;
      }
      NextUnlinksFirst(View());
      queue[rindex] := queue[rindex].(no := None);
      rindex := rindex + 1;
      if rindex == queue.Length {
        rindex := 0;
      }
      size := size - 1;
    }

    method Prev() returns (ret: nat)
      requires Valid()
      modifies this`rindexShown
      ensures Valid() && ret == old(rindexShown) && View() == old(View()).(shown := 0)
      ensures Frames() == old(Frames())
    {
      ret := rindexShown;
      rindexShown := 0;
    }

    /** free_picture on a slot. */
    method FreePicture(i: nat) returns (freed: Option<nat>)
      requires Valid() && i < queue.Length
      modifies queue
      ensures Valid() && freed == old(queue[i].handle)
      ensures View() == old(View()).(queue := old(queue[..])[i := old(queue[i]).(handle := None)])
    {
      freed := queue[i].handle;
      queue[i] := queue[i].(handle := None);
    }

    /** video_image_display: the front picture's handle moves to the screen and the one shown before is freed;
        a front frame without a handle, already shown, changes nothing. */
    method VideoImageDisplay(prePic: Option<nat>) returns (shown: Option<nat>, freed: Option<nat>)
      requires Valid()
      modifies queue
      ensures Valid()
      ensures var i := PeekIndex(old(View()));
              View() == old(View()).(queue := old(queue[..])[i := old(queue[i]).(handle := None)])
              && (if old(queue[i].handle).Some? then shown == old(queue[i].handle) && freed == prePic
                  else shown == prePic && freed == None)
    {
      var i := (rindex + rindexShown) % queue.Length;
      shown, freed := prePic, None;
      if queue[i].handle.Some? {
        freed := prePic;
        shown := queue[i].handle;
        queue[i] := queue[i].(handle := None);
      }
    }

    /** frame_queue_destory: every slot's picture is freed; the handles come back in slot order. */
    method Destroy() returns (freed: seq<nat>)
      requires Valid()
      modifies queue
      ensures forall h :: multiset(freed)[h] == Holding(old(queue[..]), h)
      ensures forall i | 0 <= i < queue.Length :: queue[i].handle.None? && queue[i].no.None?
    {
      hide Holding, Synced, Slot;
      freed := [];
      var i := 0;
      ghost var was := queue[..];
      NothingHeld(was);
      while i < queue.Length
        invariant 0 <= i <= queue.Length
        invariant forall h :: multiset(freed)[h] == Holding(was[..i], h)
        invariant forall j | 0 <= j < i :: queue[j].handle.None? && queue[j].no.None?
        invariant forall j | i <= j < queue.Length :: queue[j] == old(queue[j])
      {
        var vp := queue[i];
        OneMoreHeld(was, i);
        if vp.handle.Some? {
          freed := freed + [vp.handle.value];
        }
        queue[i] := vp.(no := None, handle := None);
        i := i + 1;
      }
      assert was[..i] == was;
    }
  }

  // ---- picture handles ----

  function Has(f: Frame, h: nat): nat {
    if f.handle == Some(h) then 1 else 0
  }

  /** How many slots of a stretch hold handle h. */
  function Holding(q: seq<Frame>, h: nat): nat {
    if q == [] then 0 else Holding(q[..|q| - 1], h) + Has(q[|q| - 1], h)
  }

  lemma NothingHeld(q: seq<Frame>)
    ensures forall h :: Holding(q[..0], h) == 0
  {
  }

  lemma OneMoreHeld(q: seq<Frame>, i: nat)
    requires i < |q|
    ensures forall h :: Holding(q[..i + 1], h) == Holding(q[..i], h) + Has(q[i], h)
  {
    assert q[..i + 1][..i] == q[..i];
  }

  lemma {:induction false} HoldingUpdated(q: seq<Frame>, i: nat, f: Frame, h: nat)
    requires i < |q|
    ensures Holding(q[i := f], h) + Has(q[i], h) == Holding(q, h) + Has(f, h)
  {
    var q' := q[i := f];
    if i < |q| - 1 {
      HoldingUpdated(q[..|q| - 1], i, f, h);
      assert q'[..|q| - 1] == q[..|q| - 1][i := f];
    } else {
      assert q'[..|q| - 1] == q[..|q| - 1];
    }
  }

  lemma {:induction false} NoHolder(q: seq<Frame>, h: nat)
    requires forall i | 0 <= i < |q| :: q[i].handle != Some(h)
    ensures Holding(q, h) == 0
  {
    if q != [] {
      NoHolder(q[..|q| - 1], h);
    }
  }

  // ---- decoder thread and output thread interleaved ----

  datatype Producer = PIdle | Filling | Filled | Bumped | PExited

  datatype Consumer =
    | CIdle
    | Looking   // has the frame at PeekIndex, not dealt with
    | Stale     // found its serial different from the packet queue's
    | Passed(serial: int, seeks: nat) // found it equal; when that was
    | Handled   // dropped, shown or taken it, about to call frame_queue_next
    | Unlinked  // inside frame_queue_next, rindex advanced, size not yet decreased

  /** A picture handed to the screen: its label, the packet queue's serial at the test and at that moment, and the
      seeks made before each. */
  datatype Display = Display(serial: int, tested: int, now: int, seeksAtTest: nat, seeks: nat)

  datatype State = State(
    ring: Ring,
    written: nat,         // frames whose windex step is done
    read: nat,            // frames whose rindex step is done
    prod: Producer,
    cons: Consumer,
    seen: nat,            // frames dealt with at least once
    taken: Option<nat>,   // audio: the frame audio_get_decode_frame works on
    serial: int,          // the packet queue's epoch
    seeks: nat,           // seeks made so far
    displays: seq<Display>,
    prePic: Option<nat>,  // the picture on the screen
    freed: multiset<nat>,
    issued: nat           // picture handles queued so far
  )

  datatype Action =
    | PeekWritable | GiveUp | Fill(serial: int, video: bool) | BumpW | CommitW
    | Look | Wait | Back  // Back: frame_queue_prev
    | Test                // compare the frame's serial with the packet queue's, without its lock
    | Drop                // free the handle of a stale or late picture
    | Show                // hand the picture to the screen, freeing the one shown before
    | Take                // audio: keep using the frame after frame_queue_next
    | Next | CommitR
    | Seek                // the flush packet of a seek raises the packet queue's serial

  function Max(s: State): nat {
    |s.ring.queue|
  }

  /** The frame the consumer looks at. */
  function Front(s: State): nat {
    s.read + s.ring.shown
  }

  predicate Enabled(s: State, a: Action) {
    Sized(s.ring) &&
    match a
    case PeekWritable => s.prod.PIdle? && s.ring.size < Max(s)
    case GiveUp => s.prod.PIdle? || s.prod.Filling?
    case Fill(_, _) => s.prod.Filling?
    case BumpW => s.prod.Filled?
    case CommitW => s.prod.Bumped?
    case Look => s.cons.CIdle? && s.ring.size - s.ring.shown > 0
    case Wait => s.cons.Looking? || s.cons.Passed?
    case Test => s.cons.Looking?
    case Back => s.cons.CIdle?
    case Drop => s.cons.Stale? || s.cons.Passed?
    case Show => s.cons.Passed?
    case Take => s.cons.Looking? && s.ring.queue[PeekIndex(s.ring)].handle.None?
    case Next => s.cons.Handled?
    case CommitR => s.cons.Unlinked?
    case Seek => true
  }

  function Bag(h: Option<nat>): multiset<nat> {
    if h.Some? then multiset{h.value} else multiset{}
  }

  function SetFrame(s: State, i: nat, f: Frame): State
    requires i < Max(s)
  {
    s.(ring := s.ring.(queue := s.ring.queue[i := f]))
  }

  function Step(s: State, a: Action): State
    requires Enabled(s, a)
  {
    match a
    case PeekWritable => s.(prod := Filling)
    case GiveUp => s.(prod := PExited)
    case Fill(serial, video) =>
      SetFrame(s, s.ring.windex, Frame(Some(s.written), serial, if video then Some(s.issued) else None))
        .(prod := Filled, issued := if video then s.issued + 1 else s.issued)
    case BumpW => s.(ring := BumpWrite(s.ring), written := s.written + 1, prod := Bumped)
    case CommitW => s.(ring := CommitWrite(s.ring), prod := PIdle)
    case Look => s.(cons := Looking)
    case Wait => s.(cons := CIdle)
    case Back => s.(ring := s.ring.(shown := 0))
    case Test =>
      s.(cons := if s.ring.queue[PeekIndex(s.ring)].serial == s.serial then Passed(s.serial, s.seeks) else Stale)
    case Drop =>
      var i := PeekIndex(s.ring);
      SetFrame(s, i, s.ring.queue[i].(handle := None))
        .(freed := s.freed + Bag(s.ring.queue[i].handle), cons := Handled, taken := None,
          seen := if s.seen > Front(s) then s.seen else Front(s) + 1)
    case Show =>
      var i := PeekIndex(s.ring);
      var h := s.ring.queue[i].handle;
      SetFrame(s, i, s.ring.queue[i].(handle := None))
        .(freed := if h.Some? then s.freed + Bag(s.prePic) else s.freed, prePic := if h.Some? then h else s.prePic,
          cons := Handled, taken := None, seen := if s.seen > Front(s) then s.seen else Front(s) + 1,
          displays := s.displays + [Display(s.ring.queue[i].serial, s.cons.serial, s.serial, s.cons.seeks, s.seeks)])
    case Take =>
      s.(taken := Some(Front(s)), cons := Handled, seen := if s.seen > Front(s) then s.seen else Front(s) + 1)
    case Next =>
      if s.ring.keepLast && s.ring.shown == 0 then s.(ring := s.ring.(shown := 1), cons := CIdle)
      else s.(ring := BumpRead(s.ring), read := s.read + 1, cons := Unlinked)
    case CommitR => s.(ring := CommitRead(s.ring), cons := CIdle)
    case Seek => s.(serial := s.serial + 1, seeks := s.seeks + 1)
  }

  // ---- the invariant ----

  function One(b: bool): nat {
    if b then 1 else 0
  }

  /** The output thread has a frame it has not dealt with. */
  predicate Holds(c: Consumer) {
    c.Looking? || c.Stale? || c.Passed?
  }

  /** size lags behind the indices by the pushes and pops under way; a slot is filled only while one is free. */
  ghost predicate Indices(s: State) {
    && Max(s) > 0 && Sized(s.ring)
    && s.ring.rindex == SlotOf(s.read, Max(s)) && s.ring.windex == SlotOf(s.written, Max(s))
    && s.ring.size == s.written - One(s.prod.Bumped?) - s.read + One(s.cons.Unlinked?)
    && s.ring.size + One(s.prod.Filling? || s.prod.Filled? || s.prod.Bumped?) <= Max(s)
    && (s.ring.shown == 1 ==> s.ring.keepLast)
    && Front(s) + One(Holds(s.cons) || s.cons.Handled?) <= s.written - One(s.prod.Bumped?)
    && (s.seen == Front(s) + One(s.cons.Handled?) ||
       (s.ring.keepLast && s.ring.shown == 0 && s.seen == s.read + 1 && !s.cons.Unlinked?))
  }

  /** Frames not yet read are where they were put, the one being filled included. */
  ghost predicate Contents(s: State) {
    Max(s) > 0 && forall k | s.read <= k < s.written + One(s.prod.Filled?) ::
      s.ring.queue[SlotOf(k, Max(s))].no == Some(k)
  }

  /** A slot holds a picture handle only while its frame is still to be dealt with. */
  ghost predicate Holders(s: State) {
    Max(s) > 0 &&
    forall i | 0 <= i < Max(s) && s.ring.queue[i].handle.Some? ::
      exists k :: Front(s) + One(s.cons.Handled?) <= k < s.written + One(s.prod.Filled?) && SlotOf(k, Max(s)) == i
  }

  /** Every handle issued is in one slot, on the screen, or freed once. */
  ghost predicate Conserved(s: State) {
    forall h: nat :: Holding(s.ring.queue, h) + One(s.prePic == Some(h)) + s.freed[h] == One(h < s.issued)
  }

  /** With a kept frame, what audio works on is the last frame read, and it is still in the ring. */
  ghost predicate TakenKept(s: State) {
    s.ring.keepLast && s.taken.Some? ==>
      s.taken.value == (if s.cons.Handled? then Front(s) else s.read) && s.taken.value < s.written - One(s.prod.Bumped?)
  }

  /** While a frame that passed the test waits to be displayed, it keeps its label, and the packet queue's serial has
      risen by one for each seek since. */
  ghost predicate Tested(s: State) {
    s.cons.Passed? ==>
      && Max(s) > 0 && Sized(s.ring) && s.ring.queue[PeekIndex(s.ring)].serial == s.cons.serial
      && s.cons.seeks <= s.seeks && s.serial == s.cons.serial + s.seeks - s.cons.seeks
  }

  predicate Fresh(d: Display) {
    d.serial == d.tested && d.seeksAtTest <= d.seeks && d.now == d.tested + d.seeks - d.seeksAtTest
  }

  ghost predicate Displayed(s: State) {
    forall i {:trigger s.displays[i]} | 0 <= i < |s.displays| :: Fresh(s.displays[i])
  }

  ghost predicate Inv(s: State) {
    Indices(s) && Contents(s) && Holders(s) && Conserved(s) && TakenKept(s) && Tested(s) && Displayed(s)
  }

  ghost predicate Init(s: State) {
    && Max(s) > 0 && s.ring == Ring(seq(Max(s), _ => Frame(None, 0, None)), 0, 0, 0, 0, s.ring.keepLast)
    && s.written == 0 && s.read == 0 && s.prod.PIdle? && s.cons.CIdle? && s.seen == 0 && s.taken.None?
    && s.prePic.None? && s.freed == multiset{} && s.issued == 0 && s.seeks == 0 && s.displays == []
  }

  lemma InitInv(s: State)
    requires Init(s)
    ensures Inv(s)
  {
    forall h: nat ensures Holding(s.ring.queue, h) == 0 {
      NoHolder(s.ring.queue, h);
    }
  }

  // ---- ring arithmetic ----

  /** The slot of the k-th frame: the indices only ever advance by one. */
  function SlotOf(k: nat, max: nat): (i: nat)
    requires max > 0
    ensures i < max
  {
    if k == 0 then 0 else Bump(SlotOf(k - 1, max), max)
  }

  lemma {:induction false} SlotAhead(a: nat, d: nat, max: nat)
    requires d < max
    ensures SlotOf(a + d, max) == if SlotOf(a, max) + d < max then SlotOf(a, max) + d else SlotOf(a, max) + d - max
  {
    if d > 0 {
      SlotAhead(a, d - 1, max);
    }
  }

  /** Fewer than a ring apart, two frames in the same slot are the same frame. */
  lemma SameSlot(a: nat, b: nat, max: nat)
    requires max > 0 && a <= b < a + max && SlotOf(a, max) == SlotOf(b, max)
    ensures a == b
  {
    SlotAhead(a, b - a, max);
  }

  lemma Wrapped(i: nat, max: nat)
    requires 0 < max && i <= max
    ensures i % max == if i == max then 0 else i
  {
  }

  lemma FrontSlot(s: State)
    requires Indices(s)
    ensures PeekIndex(s.ring) == SlotOf(Front(s), Max(s))
  {
    Wrapped(s.ring.rindex + s.ring.shown, Max(s));
  }

  // ---- every action keeps the invariant ----

  /** The decoder thread's actions. */
  predicate Produces(a: Action) {
    a.PeekWritable? || a.GiveUp? || a.Fill? || a.BumpW? || a.CommitW?
  }

  lemma IndicesStep(s: State, a: Action)
    requires Indices(s) && Enabled(s, a)
    ensures Indices(Step(s, a))
  {
    if Produces(a) {
      ProducerIndices(s, a);
    } else {
      ConsumerIndices(s, a);
    }
  }

  lemma ProducerIndices(s: State, a: Action)
    requires Indices(s) && Enabled(s, a) && Produces(a)
    ensures Indices(Step(s, a))
  {
    hide BumpRead, CommitRead, PeekIndex;
  }

  lemma ConsumerIndices(s: State, a: Action)
    requires Indices(s) && Enabled(s, a) && !Produces(a)
    ensures Indices(Step(s, a))
  {
    hide BumpWrite, CommitWrite;
  }

  lemma ContentsStep(s: State, a: Action)
    requires Indices(s) && Contents(s) && Enabled(s, a)
    ensures Contents(Step(s, a))
  {
    var s' := Step(s, a);
    FrontSlot(s);
    forall k: nat | s'.read <= k < s'.written + One(s'.prod.Filled?)
      ensures s'.ring.queue[SlotOf(k, Max(s))].no == Some(k)
    {
      if a.Fill? && k < s.written && SlotOf(k, Max(s)) == s.ring.windex {
        SameSlot(k, s.written, Max(s));
      }
      if a.Next? && s'.cons.Unlinked? && SlotOf(k, Max(s)) == s.ring.rindex {
        SameSlot(s.read, k, Max(s));
      }
    }
  }

  /** A slot about to be filled holds no picture handle. */
  lemma FillingSlotEmpty(s: State)
    requires Indices(s) && Holders(s) && s.prod.Filling?
    ensures s.ring.queue[s.ring.windex].handle.None?
  {
    if s.ring.queue[s.ring.windex].handle.Some? {
      var k :| Front(s) + One(s.cons.Handled?) <= k < s.written && SlotOf(k, Max(s)) == s.ring.windex;
      SameSlot(k, s.written, Max(s));
    }
  }

  /** Slot i's handle belongs to a frame still to be dealt with. */
  ghost predicate Held(s: State, i: nat)
    requires Max(s) > 0
  {
    exists k :: Front(s) + One(s.cons.Handled?) <= k < s.written + One(s.prod.Filled?) && SlotOf(k, Max(s)) == i
  }

  lemma HoldersStep(s: State, a: Action)
    requires Indices(s) && Holders(s) && Enabled(s, a)
    ensures Holders(Step(s, a))
  {
    var s' := Step(s, a);
    if Produces(a) {
      forall i | 0 <= i < Max(s) && s'.ring.queue[i].handle.Some? ensures Held(s', i) {
        ProducerHeld(s, a, i);
      }
    } else {
      forall i | 0 <= i < Max(s) && s'.ring.queue[i].handle.Some? ensures Held(s', i) {
        ConsumerHeld(s, a, i);
      }
    }
  }

  lemma ProducerHeld(s: State, a: Action, i: nat)
    requires Indices(s) && Holders(s) && Enabled(s, a) && Produces(a) && i < Max(s) &&
             Step(s, a).ring.queue[i].handle.Some?
    ensures Held(Step(s, a), i)
  {
    hide BumpRead, CommitRead, PeekIndex, Conserved;
    if a.Fill? && i == s.ring.windex {
      var s' := Step(s, a);
      assert Max(s') == Max(s) && Front(s') == Front(s) && s'.cons == s.cons && s'.written == s.written;
      assert Front(s') + One(s'.cons.Handled?) <= s.written < s'.written + One(s'.prod.Filled?) &&
        SlotOf(s.written, Max(s')) == i;
    } else {
      assert s.ring.queue[i].handle.Some?;
      var k :| Front(s) + One(s.cons.Handled?) <= k < s.written + One(s.prod.Filled?) && SlotOf(k, Max(s)) == i;
      var s' := Step(s, a);
      assert Max(s') == Max(s) && Front(s') == Front(s) && s'.cons == s.cons;
      assert k < s'.written + One(s'.prod.Filled?) && SlotOf(k, Max(s')) == i;
    }
  }

  lemma ConsumerHeld(s: State, a: Action, i: nat)
    requires Indices(s) && Holders(s) && Enabled(s, a) && !Produces(a) && i < Max(s) &&
             Step(s, a).ring.queue[i].handle.Some?
    ensures Held(Step(s, a), i)
  {
    hide BumpWrite, CommitWrite;
    var s' := Step(s, a);
    FrontSlot(s);
    assert s.ring.queue[i].handle.Some?;
    var k :| Front(s) + One(s.cons.Handled?) <= k < s.written + One(s.prod.Filled?) && SlotOf(k, Max(s)) == i;
    assert k >= Front(s') + One(s'.cons.Handled?);
    assert Max(s') == Max(s) && SlotOf(k, Max(s')) == i;
  }

  /** Replacing the frame in slot i moves the handles that the counts of the rest account for. */
  lemma ConservedBy(s: State, s': State, i: nat)
    requires Conserved(s) && i < Max(s) && i < Max(s') && s'.ring.queue == s.ring.queue[i := s'.ring.queue[i]]
    requires forall h: nat ::
             Has(s'.ring.queue[i], h) - Has(s.ring.queue[i], h) + One(s'.prePic == Some(h)) - One(s.prePic == Some(h))
                         + s'.freed[h] - s.freed[h] == One(h < s'.issued) - One(h < s.issued)
    ensures Conserved(s')
  {
    forall h: nat ensures Holding(s'.ring.queue, h) + One(s'.prePic == Some(h)) + s'.freed[h] == One(h < s'.issued) {
      assert Holding(s.ring.queue, h) + One(s.prePic == Some(h)) + s.freed[h] == One(h < s.issued);
      HoldingUpdated(s.ring.queue, i, s'.ring.queue[i], h);
    }
  }

  lemma ConservedStep(s: State, a: Action)
    requires Indices(s) && Holders(s) && Conserved(s) && Enabled(s, a)
    ensures Conserved(Step(s, a))
  {
    var s' := Step(s, a);
    if a.Fill? {
      hide Conserved, Indices, Holders, PeekIndex;
      FillConserved(s, a);
    } else if a.Drop? || a.Show? {
      hide Conserved, Indices, Holders;
      ShowConserved(s, a);
    } else if s'.cons.Unlinked? && a.Next? {
      hide Conserved, Holders, PeekIndex;
      ConservedBy(s, s', s.ring.rindex);
    }
  }

  lemma FillConserved(s: State, a: Action)
    requires Indices(s) && Holders(s) && Conserved(s) && Enabled(s, a) && a.Fill?
    ensures Conserved(Step(s, a))
  {
    hide Conserved, PeekIndex;
    FillingSlotEmpty(s);
    ConservedBy(s, Step(s, a), s.ring.windex);
  }

  lemma ShowConserved(s: State, a: Action)
    requires Conserved(s) && Enabled(s, a) && (a.Drop? || a.Show?)
    ensures Conserved(Step(s, a))
  {
    hide Conserved;
    ConservedBy(s, Step(s, a), PeekIndex(s.ring));
  }

  lemma TakenKeptStep(s: State, a: Action)
    requires Indices(s) && TakenKept(s) && Enabled(s, a)
    ensures TakenKept(Step(s, a))
  {
  }

  /** The slot that passed the test is not the one being filled. */
  lemma TestedStep(s: State, a: Action)
    requires Indices(s) && Tested(s) && Enabled(s, a)
    ensures Tested(Step(s, a))
  {
    hide SlotOf;
    if s.cons.Passed? && Produces(a) {
      PassedNotFilled(s);
      hide Indices;
    }
  }

  lemma PassedNotFilled(s: State)
    requires Indices(s) && s.cons.Passed?
    ensures s.prod.Filling? ==> s.ring.windex != PeekIndex(s.ring)
  {
    FrontSlot(s);
    if s.prod.Filling? && s.ring.windex == PeekIndex(s.ring) {
      SameSlot(Front(s), s.written, Max(s));
    }
  }

  lemma DisplayedStep(s: State, a: Action)
    requires Tested(s) && Displayed(s) && Enabled(s, a)
    ensures Displayed(Step(s, a))
  {
  }

  lemma StepInv(s: State, a: Action)
    requires Inv(s) && Enabled(s, a)
    ensures Inv(Step(s, a))
  {
    hide Step, Enabled, Indices, Contents, Holders, Conserved, TakenKept, Tested, Displayed;
    TestedStep(s, a);
    DisplayedStep(s, a);
    IndicesStep(s, a);
    ContentsStep(s, a);
    HoldersStep(s, a);
    ConservedStep(s, a);
    TakenKeptStep(s, a);
  }

  // ---- every run ----

  ghost predicate IsRun(s: State, run: seq<Action>)
    decreases |run|
  {
    run == [] || (Enabled(s, run[0]) && IsRun(Step(s, run[0]), run[1..]))
  }

  ghost function After(s: State, run: seq<Action>): State
    requires IsRun(s, run)
    decreases |run|
  {
    if run == [] then s else After(Step(s, run[0]), run[1..])
  }

  lemma {:induction false} RunInv(s: State, run: seq<Action>)
    requires Inv(s) && IsRun(s, run)
    ensures Inv(After(s, run))
    decreases |run|
  {
    if run != [] {
      StepInv(s, run[0]);
      RunInv(Step(s, run[0]), run[1..]);
    }
  }

  ghost predicate Reachable(s: State) {
    exists s0, run :: Init(s0) && IsRun(s0, run) && After(s0, run) == s
  }

  lemma ReachableInv(s: State)
    requires Reachable(s)
    ensures Inv(s)
  {
    var s0, run :| Init(s0) && IsRun(s0, run) && After(s0, run) == s;
    InitInv(s0);
    RunInv(s0, run);
  }

  /** However the two threads interleave, the slot being filled is neither the one shown last, nor the one the
      output thread looks at, nor any other holding a frame that was not read. */
  lemma FilledSlotIsNotRead(s: State, k: nat)
    requires Reachable(s) && (s.prod.Filling? || s.prod.Filled?)
    requires s.read <= k < s.written
    ensures Sized(s.ring) && s.ring.windex != SlotOf(k, Max(s))
    ensures Holds(s.cons) || s.cons.Handled? ==> s.ring.windex != PeekIndex(s.ring)
    ensures s.ring.windex != s.ring.rindex
  {
    ReachableInv(s);
    FrontSlot(s);
    if s.ring.windex == SlotOf(k, Max(s)) {
      SameSlot(k, s.written, Max(s));
    }
    if s.ring.windex == s.ring.rindex {
      SameSlot(s.read, s.written, Max(s));
    }
    if s.ring.windex == PeekIndex(s.ring) && Front(s) < s.written {
      SameSlot(Front(s), s.written, Max(s));
    }
  }

  /** Frames come out in the order they went in, each once: the frame looked at is the next new one,
      or the last one again after frame_queue_prev. */
  lemma FramesInOrder(s: State)
    requires Reachable(s) && Holds(s.cons)
    ensures Sized(s.ring) && s.ring.queue[PeekIndex(s.ring)].no == Some(Front(s))
    ensures Front(s) == s.seen || (s.ring.keepLast && Front(s) + 1 == s.seen)
    ensures s.seen <= s.written
  {
    ReachableInv(s);
    FrontSlot(s);
  }

  /** size never leaves 0..max, and never undercounts what may be read. */
  lemma SizeInBounds(s: State)
    requires Reachable(s)
    ensures 0 <= s.ring.size <= Max(s) && s.ring.size - s.ring.shown >= 0
  {
    ReachableInv(s);
  }

  /** With a kept frame, the frame audio took stays intact in its slot, through frame_queue_next and whatever
      the decoder does, until audio takes another. */
  lemma TakenFrameIntact(s: State)
    requires Reachable(s) && s.ring.keepLast && s.taken.Some?
    ensures Max(s) > 0 && s.ring.queue[SlotOf(s.taken.value, Max(s))].no == s.taken
    ensures s.prod.Filling? || s.prod.Filled? ==> s.ring.windex != SlotOf(s.taken.value, Max(s))
  {
    ReachableInv(s);
    if s.ring.windex == SlotOf(s.taken.value, Max(s)) && !s.prod.Bumped? && s.written - s.read < Max(s) {
      SameSlot(s.taken.value, s.written, Max(s));
    }
  }

  /** frame_queue_next leaves the frame just taken alone if and only if the ring keeps its last frame. */
  lemma NextSparesTakenExact(s: State)
    requires Reachable(s) && s.cons.Handled? && s.taken == Some(Front(s))
    ensures Sized(s.ring) && Max(s) > 0
    ensures Step(s, Next).ring.queue[SlotOf(Front(s), Max(s))].no == s.taken <==> s.ring.keepLast
  {
    ReachableInv(s);
    if s.ring.keepLast && s.ring.shown == 1 && SlotOf(Front(s), Max(s)) == s.ring.rindex {
      SameSlot(s.read, Front(s), Max(s));
    }
  }

  /** A picture handle is never freed twice, and never freed while a slot or the screen still has it. */
  lemma FreedAtMostOnce(s: State, h: nat)
    requires Reachable(s)
    ensures s.freed[h] <= 1
    ensures s.freed[h] == 1 ==> s.prePic != Some(h) && forall i | 0 <= i < Max(s) :: s.ring.queue[i].handle != Some(h)
  {
    ReachableInv(s);
    assert Holding(s.ring.queue, h) + One(s.prePic == Some(h)) + s.freed[h] == One(h < s.issued);
    forall i | 0 <= i < Max(s) ensures s.freed[h] == 1 ==> s.ring.queue[i].handle != Some(h) {
      HolderCounts(s.ring.queue, i, h);
    }
  }

  lemma {:induction false} HolderCounts(q: seq<Frame>, i: nat, h: nat)
    requires i < |q|
    ensures q[i].handle == Some(h) ==> Holding(q, h) > 0
  {
    if i < |q| - 1 {
      HolderCounts(q[..|q| - 1], i, h);
    }
  }

  /** A picture handed to the screen had the packet queue's serial when it was tested. It is of an older epoch when it
      is displayed if and only if a seek fell in between. */
  lemma DisplayedPictureExact(s: State, i: nat)
    requires Reachable(s) && i < |s.displays|
    ensures var d := s.displays[i];
            && d.serial == d.tested
            && (d.serial < d.now <==> d.seeksAtTest < d.seeks)
            && d.serial <= d.now
  {
    ReachableInv(s);
    assert Fresh(s.displays[i]);
  }

  lemma RunCons(s: State, a: Action, run: seq<Action>)
    requires Enabled(s, a) && IsRun(Step(s, a), run)
    ensures IsRun(s, [a] + run) && After(s, [a] + run) == After(Step(s, a), run)
  {
    hide Step, Enabled;
    assert ([a] + run)[1..] == run;
  }

  /** The decoder queues its first picture. */
  lemma FirstPicture(s: State)
    requires Init(s)
    ensures Enabled(s, PeekWritable)
    ensures var s1 := Step(s, PeekWritable);
            && Enabled(s1, Fill(s.serial, true))
            && var s2 := Step(s1, Fill(s.serial, true));
               && Enabled(s2, BumpW) && Enabled(Step(s2, BumpW), CommitW)
               && WithPicture(s, Step(Step(s2, BumpW), CommitW))
  {
  }

  /** One picture is queued under the packet queue's serial, and nothing was displayed yet. */
  predicate WithPicture(s: State, t: State) {
    && Sized(t.ring) && t.ring.size == 1 && t.ring.shown == 0 && t.cons.CIdle? && t.serial == s.serial
    && PeekIndex(t.ring) == 0 && t.ring.queue[0].serial == s.serial && t.displays == []
  }

  /** The output thread tests it, a seek comes in, and it is displayed. */
  lemma ShownAfterSeek(s: State, t: State)
    requires WithPicture(s, t)
    ensures Enabled(t, Look)
    ensures var t1 := Step(t, Look);
            && Enabled(t1, Test)
            && var t2 := Step(t1, Test);
               && Enabled(t2, Seek) && Enabled(Step(t2, Seek), Show)
               && var u := Step(Step(t2, Seek), Show);
                  |u.displays| == 1 && u.displays[0].serial < u.displays[0].now
  {
  }

  lemma RunOfFour(s: State, a: Action, b: Action, c: Action, d: Action, run: seq<Action>)
    requires Enabled(s, a) && Enabled(Step(s, a), b) && Enabled(Step(Step(s, a), b), c)
    requires Enabled(Step(Step(Step(s, a), b), c), d) && IsRun(Step(Step(Step(Step(s, a), b), c), d), run)
    ensures IsRun(s, [a, b, c, d] + run)
    ensures After(s, [a, b, c, d] + run) == After(Step(Step(Step(Step(s, a), b), c), d), run)
  {
    hide Step, Enabled;
    var s1 := Step(s, a);
    var s2 := Step(s1, b);
    RunCons(Step(s2, c), d, run);
    RunCons(s2, c, [d] + run);
    RunCons(s1, b, [c] + ([d] + run));
    RunCons(s, a, [b] + ([c] + ([d] + run)));
    assert [a, b, c, d] + run == [a] + ([b] + ([c] + ([d] + run)));
  }

  /** In every ring there is such a run from the start: a picture of the epoch before the seek is displayed after it. */
  lemma OldPictureIsShown(s: State)
    requires Init(s)
    ensures exists run :: IsRun(s, run) &&
              var u := After(s, run); |u.displays| == 1 && u.displays[0].serial < u.displays[0].now
  {
    hide Step, Enabled, Init, WithPicture;
    FirstPicture(s);
    var t := Step(Step(Step(Step(s, PeekWritable), Fill(s.serial, true)), BumpW), CommitW);
    ShownAfterSeek(s, t);
    RunOfFour(t, Look, Test, Seek, Show, []);
    RunOfFour(s, PeekWritable, Fill(s.serial, true), BumpW, CommitW, [Look, Test, Seek, Show] + []);
  }

  /** The slot about to be refilled never still holds a picture handle. */
  lemma RefilledSlotHoldsNoHandle(s: State)
    requires Reachable(s) && s.prod.Filling?
    ensures Sized(s.ring) && s.ring.queue[s.ring.windex].handle.None?
  {
    ReachableInv(s);
    FillingSlotEmpty(s);
  }

  /** Closing frees the ring's handles and the picture on the screen: then every handle ever queued
      was freed exactly once over the whole run, as stale, as late, by its successor, or now. */
  lemma CloseFreesEverythingOnce(s: State, destroyed: seq<nat>, h: nat)
    requires Reachable(s) && s.prod.PExited? && s.cons.CIdle?
    requires forall g :: multiset(destroyed)[g] == Holding(s.ring.queue, g)
    ensures (s.freed + multiset(destroyed) + Bag(s.prePic))[h] == One(h < s.issued)
  {
    ReachableInv(s);
  }
}

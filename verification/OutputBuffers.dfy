/** Encode output buffers lent to packets that outlive the call (encode_handler.cpp, LARGE_ION_BUFFER,
    and video_common.cpp): buffer i may be written again only after its packet's last reference went. */
module OutputBuffers {

  /** The index get_writeable_edb picks: the first buffer nobody is reading, |rd| when there is none. */
  function FirstFree(rd: seq<bool>): (i: nat)
    ensures i <= |rd|
    ensures i < |rd| ==> !rd[i]
    ensures forall j | 0 <= j < i :: rd[j]
  {
    if rd == [] || !rd[0] then 0 else 1 + FirstFree(rd[1..])
  }

  lemma FirstFreeUnique(rd: seq<bool>, i: nat)
    requires i <= |rd| && (i < |rd| ==> !rd[i]) && forall j | 0 <= j < i :: rd[j]
    ensures FirstFree(rd) == i
  {
    var first := FirstFree(rd);
    assert forall j | 0 <= j < first :: rd[j];
    assert first < |rd| ==> !rd[first];
  }

  class BufferPool {
    const edbRd: array<bool>

    constructor (n: nat)
      ensures fresh(edbRd) && edbRd.Length == n && forall i | 0 <= i < n :: !edbRd[i]
    {
      edbRd := new bool[n](i => false);
    }

    /** One pass of the wait loop: -1 when every buffer is still being read. */
    method GetWriteableEdb() returns (index: int)
      ensures index == if FirstFree(edbRd[..]) < edbRd.Length then FirstFree(edbRd[..]) else -1
    {
      var i := 0;
      while i < edbRd.Length && edbRd[i]
        invariant 0 <= i <= edbRd.Length
        invariant forall j | 0 <= j < i :: edbRd[j]
      {
        i := i + 1;
      }
      FirstFreeUnique(edbRd[..], i);
      index := if i < edbRd.Length then i else -1;
    }

    method SetEbdWriteable(index: nat)
      requires index < edbRd.Length
      modifies edbRd
      ensures edbRd[..] == old(edbRd[..])[index := false]
    {
      edbRd[index] := false;
    }
  }

  /** A packet over an output buffer; its release callback gives the buffer back. */
  class EncodedPacket {
    var refCnt: nat
    var released: nat
    const pool: BufferPool
    const index: nat

    ghost predicate Valid()
      reads this
    {
      index < pool.edbRd.Length && released == if refCnt == 0 then 1 else 0
    }

    constructor (pool: BufferPool, index: nat)
      requires index < pool.edbRd.Length
      modifies pool.edbRd
      ensures Valid() && refCnt == 1 && this.pool == pool && this.index == index
      ensures pool.edbRd[..] == old(pool.edbRd[..])[index := true]
    {
      refCnt, released := 1, 0;
      this.pool, this.index := pool, index;
      new;
      pool.edbRd[index] := true;
    }

    method Ref()
      requires Valid() && refCnt > 0
      modifies this
      ensures Valid() && refCnt == old(refCnt) + 1
    {
      refCnt := refCnt + 1;
    }

    /** Runs the callback at zero, and only then; 0 tells the caller that the packet is gone. */
    method Unref() returns (r: int)
      requires Valid() && refCnt > 0
      modifies this, pool.edbRd
      ensures Valid() && refCnt == old(refCnt) - 1 && r == if refCnt == 0 then 0 else 1
      ensures pool.edbRd[..] == if refCnt == 0 then old(pool.edbRd[..])[index := false] else old(pool.edbRd[..])
    {
      refCnt := refCnt - 1;
      if refCnt == 0 {
        pool.SetEbdWriteable(index);
        released := released + 1;
        return 0;
      }
      return 1;
    }
  }

  // ---- encoder thread and muxer threads interleaved ----

  /** refs is the atomic counter; a packet stays until its callback has run. */
  datatype Packet = Packet(slot: nat, refs: nat)

  datatype Encoder =
    | Idle
    | Encoding(slot: nat)                  // writing into the buffer
    | Marking(slot: nat, word: seq<bool>)  // has read the flag word, about to write it back with its bit set
    | Dispatching(id: nat)

  /** The one thread inside the callback, which holds edb_mtx. */
  datatype Releaser = NoOne | Releasing(id: nat, word: seq<bool>)

  /** edb_rd is a vector<bool>: its flags share words, so a flag is set by reading and rewriting the word.
      Setting happens without edb_mtx, clearing with it. */
  datatype State = State(
    rd: seq<bool>,
    packets: map<nat, Packet>,
    next: nat,
    held: multiset<nat>,      // references held by muxers, one entry each
    released: multiset<nat>,  // callbacks run
    enc: Encoder,
    rel: Releaser
  )

  datatype Action =
    | Choose | Fail | MarkRead | MarkWrite
    | Push                 // a muxer takes a reference during dispatch
    | OwnUnref             // the encoder drops its own
    | Unref(id: nat)       // a muxer drops one
    | ReleaseRead(id: nat) | ReleaseWrite

  predicate Enabled(s: State, a: Action) {
    match a
    case Choose => s.enc.Idle? && s.rel.NoOne? && FirstFree(s.rd) < |s.rd|
    case Fail => s.enc.Encoding?
    case MarkRead => s.enc.Encoding?
    case MarkWrite => s.enc.Marking?
    case Push => s.enc.Dispatching? && s.enc.id in s.packets
    case OwnUnref => s.enc.Dispatching? && s.enc.id in s.packets && s.packets[s.enc.id].refs > 0
    case Unref(id) => id in s.held && id in s.packets && s.packets[id].refs > 0
    case ReleaseRead(id) => s.rel.NoOne? && id in s.packets && s.packets[id].refs == 0
    case ReleaseWrite => s.rel.Releasing? && s.rel.id in s.packets && s.packets[s.rel.id].slot < |s.rel.word|
  }

  function Step(s: State, a: Action): State
    requires Enabled(s, a)
  {
    match a
    case Choose => s.(enc := Encoding(FirstFree(s.rd)))
    case Fail => s.(enc := Idle)
    case MarkRead => s.(enc := Marking(s.enc.slot, s.rd))
    case MarkWrite =>
      var i := s.enc.slot;
      s.(rd := if i < |s.enc.word| then s.enc.word[i := true] else s.enc.word,
         packets := s.packets[s.next := Packet(i, 1)], next := s.next + 1, enc := Dispatching(s.next))
    case Push =>
      var p := s.packets[s.enc.id];
      s.(packets := s.packets[s.enc.id := p.(refs := p.refs + 1)], held := s.held + multiset{s.enc.id})
    case OwnUnref =>
      var p := s.packets[s.enc.id];
      s.(packets := s.packets[s.enc.id := p.(refs := p.refs - 1)], enc := Idle)
    case Unref(id) =>
      s.(packets := s.packets[id := s.packets[id].(refs := s.packets[id].refs - 1)], held := s.held - multiset{id})
    case ReleaseRead(id) => s.(rel := Releasing(id, s.rd))
    case ReleaseWrite =>
      s.(rd := s.rel.word[s.packets[s.rel.id].slot := false], packets := s.packets - {s.rel.id},
         released := s.released + multiset{s.rel.id}, rel := NoOne)
  }

  /** The atomic counter is the number of references: those held by muxers and the encoder's own. */
  ghost predicate Counted(s: State) {
    && (forall id | id in s.packets :: s.packets[id].refs == s.held[id] + (if s.enc == Dispatching(id) then 1 else 0))
    && (forall id | id in s.held :: id in s.packets)
    && (s.enc.Dispatching? ==> s.enc.id in s.packets)
  }

  predicate ReleasedOk(s: State, id: nat) {
    s.released[id] == if id < s.next && id !in s.packets then 1 else 0
  }

  /** Every packet made so far is either still there or was released exactly once. */
  ghost predicate ReleasedOnce(s: State) {
    && (forall id :: ReleasedOk(s, id))
    && (forall id | id in s.packets :: id < s.next)
    && (s.rel.Releasing? ==> s.rel.id in s.packets && s.packets[s.rel.id].refs == 0)
  }

  /** The flag of the buffer being written is clear, in memory and in a word read for a release. */
  predicate Unmarked(s: State) {
    s.enc.Encoding? || s.enc.Marking? ==>
      && s.enc.slot < |s.rd| && !s.rd[s.enc.slot]
      && (s.enc.Marking? ==> |s.enc.word| == |s.rd|)
      && (s.rel.Releasing? ==> |s.rel.word| == |s.rd| && !s.rel.word[s.enc.slot])
  }

  ghost predicate Init(s: State) {
    && (forall i | 0 <= i < |s.rd| :: !s.rd[i])
    && s.packets == map[] && s.next == 0 && s.held == multiset{} && s.released == multiset{} && s.enc.Idle? &&
       s.rel.NoOne?
  }

  lemma CountedStep(s: State, a: Action)
    requires Counted(s) && ReleasedOnce(s) && Enabled(s, a)
    ensures Counted(Step(s, a))
  {
    hide FirstFree;
    if a.MarkWrite? || a.ReleaseWrite? {
      CountedWrite(s, a);
    } else {
      CountedOther(s, a);
    }
  }

  lemma CountedWrite(s: State, a: Action)
    requires Counted(s) && ReleasedOnce(s) && Enabled(s, a) && (a.MarkWrite? || a.ReleaseWrite?)
    ensures Counted(Step(s, a))
  {
    hide ReleasedOk;
    var s' := Step(s, a);
    if a.MarkWrite? {
      assert s.next !in s.packets && s.held[s.next] == 0;
      assert s'.packets.Keys == s.packets.Keys + {s.next};
    } else {
      assert s.packets[s.rel.id].refs == 0 && s.held[s.rel.id] == 0;
      forall id | id in s'.held ensures id in s'.packets {
        assert id in s.held;
      }
    }
  }

  lemma CountedOther(s: State, a: Action)
    requires Counted(s) && Enabled(s, a) && !a.MarkWrite? && !a.ReleaseWrite?
    ensures Counted(Step(s, a))
  {
    hide FirstFree;
  }

  lemma ReleasedOnceStep(s: State, a: Action)
    requires Counted(s) && ReleasedOnce(s) && Enabled(s, a)
    ensures ReleasedOnce(Step(s, a))
  {
    hide FirstFree;
    if a.MarkWrite? {
      MarkReleasedOnce(s);
    } else if a.ReleaseWrite? {
      ReleaseReleasedOnce(s);
    } else {
      assert s.enc.Dispatching? ==> s.packets[s.enc.id].refs > 0;
      OtherReleasedOnce(s, a);
    }
  }

  lemma MarkReleasedOnce(s: State)
    requires ReleasedOnce(s) && Enabled(s, MarkWrite)
    ensures ReleasedOnce(Step(s, MarkWrite))
  {
    var s' := Step(s, MarkWrite);
    forall id ensures ReleasedOk(s', id) {
      assert ReleasedOk(s, id);
    }
  }

  lemma ReleaseReleasedOnce(s: State)
    requires ReleasedOnce(s) && Enabled(s, ReleaseWrite)
    ensures ReleasedOnce(Step(s, ReleaseWrite))
  {
    var s' := Step(s, ReleaseWrite);
    forall id ensures ReleasedOk(s', id) {
      assert ReleasedOk(s, id);
    }
  }

  lemma OtherReleasedOnce(s: State, a: Action)
    requires ReleasedOnce(s) && Enabled(s, a) && !a.MarkWrite? && !a.ReleaseWrite?
    requires s.enc.Dispatching? && s.enc.id in s.packets ==> s.packets[s.enc.id].refs > 0
    ensures ReleasedOnce(Step(s, a))
  {
    hide FirstFree;
    var s' := Step(s, a);
    assert s'.packets.Keys == s.packets.Keys && s'.released == s.released && s'.next == s.next;
    forall id ensures ReleasedOk(s', id) {
      assert ReleasedOk(s, id);
    }
  }

  lemma UnmarkedStep(s: State, a: Action)
    requires Unmarked(s) && Enabled(s, a)
    ensures Unmarked(Step(s, a))
  {
  }

  // ---- every run ----

  ghost predicate IsRun(s: State, run: seq<Action>)
    decreases |run|
  {
    run == [] || (Enabled(s, run[0]) && IsRun(Step(s, run[0]), run[1..]))
  }

  ghost function After(s: State, run: seq<Action>): State
    requires IsRun(s, run)
    decreases |run|
  {
    if run == [] then s else After(Step(s, run[0]), run[1..])
  }

  ghost predicate Always(s: State) {
    Counted(s) && ReleasedOnce(s) && Unmarked(s)
  }

  lemma {:induction false} RunAlways(s: State, run: seq<Action>)
    requires Always(s) && IsRun(s, run)
    ensures Always(After(s, run))
    decreases |run|
  {
    hide Step, Enabled, Counted, ReleasedOnce, Unmarked;
    if run != [] {
      CountedStep(s, run[0]);
      ReleasedOnceStep(s, run[0]);
      UnmarkedStep(s, run[0]);
      RunAlways(Step(s, run[0]), run[1..]);
    }
  }

  ghost predicate Reachable(s: State) {
    exists s0, run :: Init(s0) && IsRun(s0, run) && After(s0, run) == s
  }

  lemma ReachableAlways(s: State)
    requires Reachable(s)
    ensures Always(s)
  {
    var s0, run :| Init(s0) && IsRun(s0, run) && After(s0, run) == s;
    RunAlways(s0, run);
  }

  /** In every run, however the flag updates overlap: the callback of a packet runs once, and only after the last
      reference to it is gone. */
  lemma CallbackOnceAtTheEnd(s: State, id: nat)
    requires Reachable(s) && id < s.next
    ensures s.released[id] == if id in s.packets then 0 else 1
    ensures id in s.held ==> id in s.packets && s.packets[id].refs > 0
    ensures s.rel.Releasing? && s.rel.id == id ==> id in s.packets && id !in s.held && s.enc != Dispatching(id)
  {
    ReachableAlways(s);
    assert ReleasedOk(s, id);
  }

  // ---- runs in which no mark is written inside a release ----

  /** The encoder writes its mark while a release has read the flag word and not written it back: what taking
      edb_mtx for the mark would exclude. */
  predicate MarkInsideRelease(s: State, a: Action) {
    a.MarkWrite? && s.rel.Releasing?
  }

  ghost predicate GuardedRun(s: State, run: seq<Action>)
    decreases |run|
  {
    run == [] || (Enabled(s, run[0]) && !MarkInsideRelease(s, run[0]) && GuardedRun(Step(s, run[0]), run[1..]))
  }

  predicate MarkedIn(word: seq<bool>, packets: map<nat, Packet>, id: nat)
    requires id in packets
  {
    packets[id].slot < |word| && word[packets[id].slot]
  }

  /** Every live packet's buffer is marked, in memory and in every word about to be written back; no two packets share
      a buffer, and the buffer being written belongs to none. */
  ghost predicate Safe(s: State) {
    && (forall id {:trigger MarkedIn(s.rd, s.packets, id)} | id in s.packets :: MarkedIn(s.rd, s.packets, id))
    && (s.enc.Marking? ==>
          && |s.enc.word| == |s.rd|
          && forall id {:trigger MarkedIn(s.enc.word, s.packets, id)} | id in s.packets ::
             MarkedIn(s.enc.word, s.packets, id))
    && (s.rel.Releasing? ==>
          && |s.rel.word| == |s.rd|
          && forall id {:trigger MarkedIn(s.rel.word, s.packets, id)} | id in s.packets ::
             MarkedIn(s.rel.word, s.packets, id))
    && Apart(s)
  }

  ghost predicate Apart(s: State) {
    && (forall i, j | i in s.packets && j in s.packets && i != j :: s.packets[i].slot != s.packets[j].slot)
    && (s.enc.Encoding? || s.enc.Marking? ==>
       s.enc.slot < |s.rd| && forall id | id in s.packets :: s.packets[id].slot != s.enc.slot)
  }

  lemma ApartStep(s: State, a: Action)
    requires Safe(s) && Enabled(s, a) && !MarkInsideRelease(s, a)
    ensures Apart(Step(s, a))
  {
    if a.Choose? {
      forall id | id in s.packets ensures s.packets[id].slot != FirstFree(s.rd) {
        assert MarkedIn(s.rd, s.packets, id);
      }
    }
  }

  lemma SafeStep(s: State, a: Action)
    requires Safe(s) && Enabled(s, a) && !MarkInsideRelease(s, a)
    ensures Safe(Step(s, a))
  {
    ApartStep(s, a);
    if a.MarkWrite? {
      MarkSafe(s);
    } else if a.ReleaseWrite? {
      ReleaseSafe(s);
    } else {
      OtherSafe(s, a);
    }
  }

  lemma MarkSafe(s: State)
    requires Safe(s) && Enabled(s, MarkWrite) && s.rel.NoOne? && Apart(Step(s, MarkWrite))
    ensures Safe(Step(s, MarkWrite))
  {
    var s' := Step(s, MarkWrite);
    forall id | id in s'.packets ensures MarkedIn(s'.rd, s'.packets, id) {
      if id != s.next {
        assert MarkedIn(s.enc.word, s.packets, id);
      }
    }
  }

  lemma ReleaseSafe(s: State)
    requires Safe(s) && Enabled(s, ReleaseWrite) && Apart(Step(s, ReleaseWrite))
    ensures Safe(Step(s, ReleaseWrite))
  {
    var s' := Step(s, ReleaseWrite);
    forall id | id in s'.packets ensures MarkedIn(s'.rd, s'.packets, id) {
      assert MarkedIn(s.rel.word, s.packets, id);
    }
    if s'.enc.Marking? {
      forall id | id in s'.packets ensures MarkedIn(s'.enc.word, s'.packets, id) {
        assert MarkedIn(s.enc.word, s.packets, id);
      }
    }
  }

  lemma OtherSafe(s: State, a: Action)
    requires Safe(s) && Enabled(s, a) && !a.MarkWrite? && !a.ReleaseWrite? && Apart(Step(s, a))
    ensures Safe(Step(s, a))
  {
    hide FirstFree;
    var s' := Step(s, a);
    forall id | id in s'.packets
      ensures MarkedIn(s'.rd, s'.packets, id)
      ensures s'.enc.Marking? ==> MarkedIn(s'.enc.word, s'.packets, id)
      ensures s'.rel.Releasing? ==> MarkedIn(s'.rel.word, s'.packets, id)
    {
      assert MarkedIn(s.rd, s.packets, id);
      assert s.enc.Marking? ==> MarkedIn(s.enc.word, s.packets, id);
      assert s.rel.Releasing? ==> MarkedIn(s.rel.word, s.packets, id);
    }
  }

  lemma {:induction false} GuardedSafe(s: State, run: seq<Action>)
    requires Safe(s) && GuardedRun(s, run)
    ensures IsRun(s, run) && Safe(After(s, run))
    decreases |run|
  {
    hide Step, Enabled, Safe, MarkInsideRelease;
    if run != [] {
      SafeStep(s, run[0]);
      GuardedSafe(Step(s, run[0]), run[1..]);
    }
  }

  ghost predicate GuardedReachable(s: State) {
    exists s0, run :: Init(s0) && GuardedRun(s0, run) && IsRun(s0, run) && After(s0, run) == s
  }

  lemma GuardedInv(s: State)
    requires GuardedReachable(s)
    ensures Safe(s) && Always(s)
  {
    var s0, run :| Init(s0) && GuardedRun(s0, run) && IsRun(s0, run) && After(s0, run) == s;
    GuardedSafe(s0, run);
    RunAlways(s0, run);
  }

  /** In every run without a mark written inside a release, stale words of releases included: the buffer the encoder
      writes into is never one that a live packet refers to, and every live packet's buffer is marked. */
  lemma WrittenBufferIsFree(s: State, id: nat)
    requires GuardedReachable(s) && id in s.packets
    ensures s.enc.Encoding? || s.enc.Marking? ==> s.packets[id].slot != s.enc.slot
    ensures s.packets[id].slot < |s.rd| && s.rd[s.packets[id].slot]
  {
    GuardedInv(s);
    assert MarkedIn(s.rd, s.packets, id);
  }

  ghost predicate Without(run: seq<Action>, b: Action) {
    b !in run
  }

  /** While a release has not written, it stays the one that read. */
  lemma {:induction false} ReleaseStays(s: State, run: seq<Action>, id: nat)
    requires IsRun(s, run) && Without(run, ReleaseWrite) && s.rel.Releasing? && id in s.packets && id < s.next
    ensures After(s, run).rel == s.rel && id in After(s, run).packets &&
            After(s, run).packets[id].slot == s.packets[id].slot
    decreases |run|
  {
    hide FirstFree;
    if run != [] {
      ReleaseStaysOnce(s, run[0], id);
      ReleaseStays(Step(s, run[0]), run[1..], id);
    }
  }

  lemma ReleaseStaysOnce(s: State, a: Action, id: nat)
    requires Enabled(s, a) && a != ReleaseWrite && s.rel.Releasing? && id in s.packets && id < s.next
    ensures var t := Step(s, a);
            t.rel == s.rel && id in t.packets && t.packets[id].slot == s.packets[id].slot && id < t.next
  {
    hide FirstFree;
  }

  /** The guard is needed every time: a mark written inside a release is always lost when the release writes its word
      back, whatever happens in between, and the packet it was made for is live and unmarked. */
  lemma MarkInsideReleaseIsLost(s: State, run: seq<Action>)
    requires Reachable(s) && Enabled(s, MarkWrite) && MarkInsideRelease(s, MarkWrite)
    requires IsRun(Step(s, MarkWrite), run) && Without(run, ReleaseWrite)
    requires Enabled(After(Step(s, MarkWrite), run), ReleaseWrite)
    ensures var t := Step(After(Step(s, MarkWrite), run), ReleaseWrite);
            s.next in t.packets && t.packets[s.next].slot == s.enc.slot < |t.rd| && !t.rd[s.enc.slot]
  {
    ReachableAlways(s);
    var t := Step(s, MarkWrite);
    assert s.rel.id in s.packets && s.rel.id < s.next;
    ReleaseStays(t, run, s.next);
    ReleaseStays(t, run, s.rel.id);
  }

  // ---- runs in which flag updates do not overlap at all ----

  predicate Overlaps(s: State, a: Action) {
    MarkInsideRelease(s, a) || (a.ReleaseWrite? && s.enc.Marking?)
  }

  ghost predicate SeparateRun(s: State, run: seq<Action>)
    decreases |run|
  {
    run == [] || (Enabled(s, run[0]) && !Overlaps(s, run[0]) && SeparateRun(Step(s, run[0]), run[1..]))
  }

  predicate Live(s: State, i: nat) {
    exists id :: id in s.packets && s.packets[id].slot == i
  }

  /** A flag is set exactly while a packet that was not released refers to its buffer; words waiting to be written
      back are current. */
  ghost predicate Exact(s: State) {
    && (forall i {:trigger s.rd[i]} | 0 <= i < |s.rd| :: s.rd[i] ==> Live(s, i))
    && (s.enc.Marking? ==> s.enc.word == s.rd)
    && (s.rel.Releasing? ==> s.rel.word == s.rd)
  }

  lemma ExactStep(s: State, a: Action)
    requires Safe(s) && Exact(s) && ReleasedOnce(s) && Enabled(s, a) && !Overlaps(s, a)
    ensures Exact(Step(s, a))
  {
    hide FirstFree;
    var s' := Step(s, a);
    forall i | 0 <= i < |s'.rd| && s'.rd[i] ensures Live(s', i) {
      if a.MarkWrite? && i == s.enc.slot {
        assert s'.packets[s.next].slot == i;
      } else {
        assert s.rd[i];
        var id :| id in s.packets && s.packets[id].slot == i;
        assert id in s'.packets && s'.packets[id].slot == i;
      }
    }
  }

  lemma {:induction false} SeparateExact(s: State, run: seq<Action>)
    requires Safe(s) && Always(s) && Exact(s) && SeparateRun(s, run)
    ensures IsRun(s, run) && Safe(After(s, run)) && Always(After(s, run)) && Exact(After(s, run))
    decreases |run|
  {
    hide Step, Enabled, Safe, Exact, MarkInsideRelease, Counted, ReleasedOnce, Unmarked;
    if run != [] {
      SafeStep(s, run[0]);
      ExactStep(s, run[0]);
      CountedStep(s, run[0]);
      ReleasedOnceStep(s, run[0]);
      UnmarkedStep(s, run[0]);
      SeparateExact(Step(s, run[0]), run[1..]);
    }
  }

  ghost predicate SeparateReachable(s: State) {
    exists s0, run :: Init(s0) && SeparateRun(s0, run) && IsRun(s0, run) && After(s0, run) == s
  }

  lemma SeparateInv(s: State)
    requires SeparateReachable(s)
    ensures Safe(s) && Exact(s) && Always(s)
  {
    var s0, run :| Init(s0) && SeparateRun(s0, run) && IsRun(s0, run) && After(s0, run) == s;
    SeparateExact(s0, run);
  }

  /** In every run without overlapping flag updates a buffer is marked exactly from dispatch until its packet's
      callback has run. */
  lemma MarkedMeansLive(s: State, i: nat)
    requires SeparateReachable(s) && i < |s.rd|
    ensures s.rd[i] <==> Live(s, i)
  {
    SeparateInv(s);
    if Live(s, i) {
      var id :| id in s.packets && s.packets[id].slot == i;
      assert MarkedIn(s.rd, s.packets, id);
    }
  }

  /** While a mark has not been written, it stays the one that was read, and no packet takes another buffer. */
  lemma {:induction false} MarkingStays(s: State, run: seq<Action>, i: nat)
    requires IsRun(s, run) && Without(run, MarkWrite) && Without(run, Fail) && s.enc.Marking? && !Live(s, i)
    ensures After(s, run).enc == s.enc && !Live(After(s, run), i)
    decreases |run|
  {
    hide FirstFree;
    if run != [] {
      SlotsShrink(s, run[0]);
      MarkingStays(Step(s, run[0]), run[1..], i);
    }
  }

  /** Only a written mark makes a packet. */
  lemma SlotsShrink(s: State, a: Action)
    requires Enabled(s, a) && !a.MarkWrite?
    ensures forall id :: id in Step(s, a).packets ==>
            id in s.packets && s.packets[id].slot == Step(s, a).packets[id].slot
  {
    hide FirstFree;
  }

  /** The other overlap: a release that writes between the encoder's read and write of the word is always undone, and
      its buffer stays marked with no packet to release it. */
  lemma ReleaseInsideMarkLeaks(s: State, run: seq<Action>)
    requires GuardedReachable(s) && Enabled(s, ReleaseWrite) && s.enc.Marking?
    requires IsRun(Step(s, ReleaseWrite), run) && Without(run, MarkWrite) && Without(run, Fail)
    requires Enabled(After(Step(s, ReleaseWrite), run), MarkWrite)
    ensures var i := s.packets[s.rel.id].slot;
            var t := Step(After(Step(s, ReleaseWrite), run), MarkWrite);
            i < |t.rd| && t.rd[i] && !Live(t, i)
  {
    GuardedInv(s);
    var i := s.packets[s.rel.id].slot;
    assert MarkedIn(s.enc.word, s.packets, s.rel.id);
    var t := Step(s, ReleaseWrite);
    assert !Live(t, i);
    MarkingStays(t, run, i);
    var u := After(t, run);
    assert forall id :: id in u.packets ==> u.packets[id].slot != i;
  }

  // ---- a run that overwrites a live packet's buffer ----

  lemma RunCons(s: State, a: Action, run: seq<Action>)
    requires Enabled(s, a) && IsRun(Step(s, a), run)
    ensures IsRun(s, [a] + run) && After(s, [a] + run) == After(Step(s, a), run)
  {
    hide Step, Enabled;
    assert ([a] + run)[1..] == run;
  }

  lemma {:induction false} RunAppend(s: State, r1: seq<Action>, r2: seq<Action>)
    requires IsRun(s, r1) && IsRun(After(s, r1), r2)
    ensures IsRun(s, r1 + r2) && After(s, r1 + r2) == After(After(s, r1), r2)
    decreases |r1|
  {
    hide Step, Enabled;
    if r1 == [] {
      assert r1 + r2 == r2;
    } else {
      RunAppend(Step(s, r1[0]), r1[1..], r2);
      assert (r1 + r2)[1..] == r1[1..] + r2;
    }
  }

  /** t can be reached from s. */
  ghost predicate Leads(s: State, t: State) {
    exists run :: IsRun(s, run) && After(s, run) == t
  }

  lemma LeadsStep(s: State, a: Action, t: State)
    requires Enabled(s, a) && Leads(Step(s, a), t)
    ensures Leads(s, t)
  {
    hide Step, Enabled;
    var run :| IsRun(Step(s, a), run) && After(Step(s, a), run) == t;
    RunCons(s, a, run);
  }

  lemma LeadsOn(s: State, t: State, u: State)
    requires Leads(s, t) && Leads(t, u)
    ensures Leads(s, u)
  {
    hide Step, Enabled;
    var r1 :| IsRun(s, r1) && After(s, r1) == t;
    var r2 :| IsRun(t, r2) && After(t, r2) == u;
    RunAppend(s, r1, r2);
  }

  /** The encoder makes one packet over the first free buffer; a muxer takes it or not. */
  lemma OneFrame(s: State, taken: bool, t: State)
    requires s.enc.Idle? && s.rel.NoOne? && FirstFree(s.rd) < |s.rd| && s.next !in s.packets
    requires t == s.(rd := s.rd[FirstFree(s.rd) := true], next := s.next + 1,
                     packets := s.packets[s.next := Packet(FirstFree(s.rd), if taken then 1 else 0)],
                     held := if taken then s.held + multiset{s.next} else s.held)
    ensures Leads(s, t)
  {
    hide FirstFree;
    var s1 := Step(s, Choose);
    var s2 := Step(s1, MarkRead);
    var s3 := Step(s2, MarkWrite);
    assert s3 == s.(rd := t.rd, packets := s.packets[s.next := Packet(FirstFree(s.rd), 1)], next := s.next + 1,
      enc := Dispatching(s.next));
    assert IsRun(t, []) && After(t, []) == t;
    if taken {
      var s4 := Step(s3, Push);
      assert Step(s4, OwnUnref) == t by { Unchanged(s.packets, s.next, FirstFree(s.rd), 2, 1); }
      LeadsStep(s4, OwnUnref, t);
      LeadsStep(s3, Push, t);
    } else {
      assert Step(s3, OwnUnref) == t by { Unchanged(s.packets, s.next, FirstFree(s.rd), 1, 0); }
      LeadsStep(s3, OwnUnref, t);
    }
    LeadsStep(s2, MarkWrite, t);
    LeadsStep(s1, MarkRead, t);
    LeadsStep(s, Choose, t);
  }

  lemma Unchanged(ps: map<nat, Packet>, id: nat, slot: nat, n: nat, m: nat)
    ensures ps[id := Packet(slot, 1)][id := Packet(slot, n)][id := Packet(slot, m)] == ps[id := Packet(slot, m)]
    ensures ps[id := Packet(slot, 1)][id := Packet(slot, m)] == ps[id := Packet(slot, m)]
  {
  }

  /** The state after the first packet is finished, and after the second was made inside the first one's release. */
  function OneDone(s: State): State {
    s.(rd := [true, false, false], packets := map[0 := Packet(0, 0)], next := 1)
  }

  function MarkLost(s: State): State {
    s.(rd := [false, false, false], packets := map[1 := Packet(1, 1)], next := 2, held := multiset{1},
      released := multiset{0})
  }

  /** The second frame is marked while the first packet's release has read the flags: the read. */
  function BothRead(s: State): State {
    OneDone(s).(enc := Marking(1, [true, false, false]), rel := Releasing(0, [true, false, false]))
  }

  lemma BothFlagsRead(s: State)
    requires Init(s) && |s.rd| == 3
    ensures Leads(OneDone(s), BothRead(s))
  {
    var t := OneDone(s);
    var t1 := t.(enc := Encoding(1));
    var t2 := t.(enc := Marking(1, [true, false, false]));
    assert Step(t, Choose) == t1;
    assert IsRun(BothRead(s), []) && After(BothRead(s), []) == BothRead(s);
    LeadsStep(t2, ReleaseRead(0), BothRead(s));
    LeadsStep(t1, MarkRead, BothRead(s));
    LeadsStep(t, Choose, BothRead(s));
  }

  /** And the two writes. */
  lemma BothFlagsWritten(s: State)
    requires Init(s) && |s.rd| == 3
    ensures Leads(BothRead(s), MarkLost(s))
  {
    var t3 := BothRead(s);
    var t4 := t3.(rd := [true, true, false], packets := map[0 := Packet(0, 0), 1 := Packet(1, 1)], next := 2,
      enc := Dispatching(1));
    var t5 := t4.(packets := map[0 := Packet(0, 0), 1 := Packet(1, 2)], held := multiset{1});
    assert Step(t3, MarkWrite) == t4;
    assert Step(t4, Push) == t5;
    SecondFlagLost(s, t5);
    LeadsStep(t4, Push, MarkLost(s));
    LeadsStep(t3, MarkWrite, MarkLost(s));
  }

  lemma SecondFlagLost(s: State, t5: State)
    requires Init(s) && |s.rd| == 3
    requires t5 == BothRead(s).(rd := [true, true, false], packets := map[0 := Packet(0, 0), 1 := Packet(1, 2)],
             next := 2, enc := Dispatching(1), held := multiset{1})
    ensures Leads(t5, MarkLost(s))
  {
    var t6 := t5.(rd := [false, false, false], packets := map[1 := Packet(1, 2)], released := multiset{0},
      rel := NoOne);
    assert Step(t5, ReleaseWrite) == t6;
    assert Step(t6, OwnUnref) == MarkLost(s);
    assert IsRun(MarkLost(s), []) && After(MarkLost(s), []) == MarkLost(s);
    LeadsStep(t6, OwnUnref, MarkLost(s));
    LeadsStep(t5, ReleaseWrite, MarkLost(s));
  }

  function Refilled(s: State): State {
    MarkLost(s).(rd := [true, false, false], packets := map[1 := Packet(1, 1), 2 := Packet(0, 1)], next := 3,
      held := multiset{1, 2})
  }

  lemma FirstBufferRefilled(s: State)
    requires Init(s) && |s.rd| == 3
    ensures Leads(MarkLost(s), Refilled(s))
  {
    OneFrame(MarkLost(s), true, Refilled(s));
  }

  /** With the three buffers of the source: a run from the start after which the encoder picks a buffer that a live
      packet, held by a muxer, still refers to. */
  lemma OverlappingMarkIsLost(s: State)
    requires Init(s) && |s.rd| == 3
    ensures exists run :: IsRun(s, run) && var t := After(s, run);
              && Enabled(t, Choose) && 1 in t.held && 1 in t.packets && t.packets[1].refs > 0
              && Step(t, Choose).enc == Encoding(t.packets[1].slot)
  {
    hide IsRun, After, Step, Enabled;
    FirstBufferDone(s);
    BothFlagsRead(s);
    BothFlagsWritten(s);
    FirstBufferRefilled(s);
    LeadsOn(s, OneDone(s), BothRead(s));
    LeadsOn(s, BothRead(s), MarkLost(s));
    LeadsOn(s, MarkLost(s), Refilled(s));
    SecondBufferChosen(s);
    var run :| IsRun(s, run) && After(s, run) == Refilled(s);
    assert Enabled(After(s, run), Choose);
  }

  lemma FirstBufferDone(s: State)
    requires Init(s) && |s.rd| == 3
    ensures Leads(s, OneDone(s))
  {
    assert s.rd == [false, false, false];
    OneFrame(s, false, OneDone(s));
  }

  lemma SecondBufferChosen(s: State)
    requires Init(s) && |s.rd| == 3
    ensures var t := Refilled(s);
            && Enabled(t, Choose) && 1 in t.held && 1 in t.packets && t.packets[1].refs > 0
            && Step(t, Choose).enc == Encoding(t.packets[1].slot)
  {
    assert FirstFree(Refilled(s).rd) == 1;
  }
}

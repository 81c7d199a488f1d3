/** The demuxer thread and one decoder thread around a packet queue (videoplay.c). Serials number the seek
    epochs; the decoder reads the queue's serial without the lock, so a seek may fall between any two steps. */
module SeekSafety {
  import opened PacketQueues

  datatype Reader =
    | Reading
    | Emptied    // a seek has flushed the queue and not queued the flush packet yet
    | Closing    // the queue is aborted

  datatype Decoder =
    | Top                 // before the test that may reuse the pending packet
    | Fetching            // about to take a packet from the queue
    | Got(pkt: Packet)    // took one, about to act on it
    | Testing(pkt: Packet) // about to compare its serial with the queue's
    | Feeding             // about to hand the current packet to the codec
    | Exited

  /** What the codec sees, and the pictures it gives with the label they are queued under. */
  datatype Event = CodecFlush | Feed(serial: int) | Picture(serial: int)

  datatype State = State(
    q: Queue,
    reader: Reader,
    dec: Decoder,
    pktSerial: int,     // d->pkt_serial, set by every packet_queue_get
    pending: bool,      // d->packet_pending
    current: int,       // serial of the packet in d->pkt
    currentPkt: Packet, // d->pkt
    log: seq<Event>,
    readSince: set<nat> // packets the demuxer has read since the last completed seek
  )

  datatype Action =
    | Read(id: nat, size: nat)  // the demuxer queues a packet
    | SeekFlush | SeekPut       // packet_queue_flush, then packet_queue_put(&flush_pkt)
    | Abort
    | Decide(abort: bool)       // the tests at the top of the decode loop
    | Get                       // packet_queue_get
    | Act                       // avcodec_flush_buffers for a flush packet
    | Test                      // while (... || queue->serial != pkt_serial)
    | Decode(more: bool, got: bool) // one avcodec_decode call: the packet is not used up, a picture came out

  predicate Enabled(s: State, a: Action) {
    match a
    case Read(_, _) => s.reader.Reading?
    case SeekFlush => s.reader.Reading?
    case SeekPut => s.reader.Emptied?
    case Abort => s.reader.Reading?
    case Decide(abort) => s.dec.Top? && (abort ==> s.q.abort)
    case Get => s.dec.Fetching? && (s.q.abort || s.q.entries != [])
    case Act => s.dec.Got?
    case Test => s.dec.Testing?
    case Decode(_, _) => s.dec.Feeding?
  }

  function Step(s: State, a: Action): State
    requires Enabled(s, a)
  {
    match a
    case Read(id, size) => s.(q := Put(s.q, Data(id, size)), readSince := s.readSince + {id})
    case SeekFlush => s.(q := PacketQueues.Emptied(s.q), reader := Reader.Emptied)
    case SeekPut => s.(q := Put(s.q, Flush), reader := Reading, readSince := {})
    case Abort => s.(q := s.q.(abort := true), reader := Closing)
    case Decide(abort) =>
      if abort then s.(dec := Exited)
      else if !s.pending || s.q.serial != s.pktSerial then s.(dec := Fetching)
      else s.(dec := Feeding)
    case Get =>
      if s.q.abort then s.(dec := Exited)
      else s.(q := s.q.(entries := s.q.entries[1..]), pktSerial := s.q.entries[0].serial,
        dec := Got(s.q.entries[0].pkt))
    case Act => s.(log := if s.dec.pkt.Flush? then s.log + [CodecFlush] else s.log, dec := Testing(s.dec.pkt))
    case Test =>
      if s.dec.pkt.Flush? || s.q.serial != s.pktSerial then s.(dec := Fetching)
      else s.(current := s.pktSerial, currentPkt := s.dec.pkt, pending := true, dec := Feeding)
    case Decode(more, got) =>
      // queue_picture labels the picture with d->pkt_serial as it is then
      s.(log := s.log + [Feed(s.current)] + (if got then [Picture(s.pktSerial)] else []), pending := more, dec := Top)
  }

  /** As decoder_start leaves it: the queue started, nothing taken from it yet. */
  ghost predicate Init(s: State) {
    && (exists q: Queue :: q.entries == [] && q.serial == 0 && s.q == Started(q))
    && s.reader.Reading? && s.dec.Top? && s.pktSerial == 0 && !s.pending && s.log == []
  }

  // ---- the invariant ----

  /** The serials along the queue: a data packet keeps its predecessor's, a flush packet raises it. */
  ghost predicate Chained(prev: int, es: seq<Entry>)
    decreases |es|
  {
    es == [] || ((if es[0].pkt.Flush? then es[0].serial > prev else es[0].serial == prev) &&
      Chained(es[0].serial, es[1..]))
  }

  ghost function LastSerial(prev: int, es: seq<Entry>): int
    decreases |es|
  {
    if es == [] then prev else LastSerial(es[0].serial, es[1..])
  }

  lemma {:induction false} ChainedAppend(prev: int, es: seq<Entry>, e: Entry)
    requires Chained(prev, es)
    requires if e.pkt.Flush? then e.serial > LastSerial(prev, es) else e.serial == LastSerial(prev, es)
    ensures Chained(prev, es + [e]) && LastSerial(prev, es + [e]) == e.serial
    decreases |es|
  {
    if es == [] {
      assert es + [e] == [e];
    } else {
      assert (es + [e])[1..] == es[1..] + [e];
      ChainedAppend(es[0].serial, es[1..], e);
    }
  }

  lemma {:induction false} ChainRises(prev: int, es: seq<Entry>)
    requires Chained(prev, es)
    ensures prev <= LastSerial(prev, es)
    decreases |es|
  {
    if es != [] {
      ChainRises(es[0].serial, es[1..]);
    }
  }

  /** Everything fed and every picture labelled since the codec was last flushed has serial v. */
  ghost predicate TailIs(log: seq<Event>, v: int)
    decreases |log|
  {
    log == [] || log[|log| - 1].CodecFlush? || (log[|log| - 1].serial == v && TailIs(log[..|log| - 1], v))
  }

  predicate Differ(e: Event, f: Event) {
    !e.CodecFlush? && !f.CodecFlush? && e.serial != f.serial
  }

  /** Feeds and labels of different serials have a flush between them. */
  ghost predicate Separated(log: seq<Event>) {
    forall i, j {:trigger Differ(log[i], log[j])} | 0 <= i < j < |log| && Differ(log[i], log[j]) ::
      exists k :: i < k < j && log[k].CodecFlush?
  }

  lemma {:induction false} TailFlush(log: seq<Event>, v: int, i: nat)
    requires TailIs(log, v) && i < |log| && !log[i].CodecFlush? && log[i].serial != v
    ensures exists k :: i < k < |log| && log[k].CodecFlush?
    decreases |log|
  {
    if log[|log| - 1].CodecFlush? {
      assert i < |log| - 1;
    } else {
      TailFlush(log[..|log| - 1], v, i);
    }
  }

  /** A packet of the queue's present epoch was read since the last completed seek. */
  ghost predicate Recent(s: State, p: Packet, serial: int) {
    p.Data? && serial == s.q.serial ==> p.id in s.readSince
  }

  ghost predicate Inv(s: State) {
    && (!s.q.abort ==>
          && Chained(s.pktSerial, s.q.entries)
          && (if s.reader.Emptied? then s.q.entries == [] && s.pktSerial <= s.q.serial
              else LastSerial(s.pktSerial, s.q.entries) == s.q.serial))
    && (s.q.abort <==> s.reader.Closing?)
    && (s.dec == Got(Flush) || TailIs(s.log, s.pktSerial))
    && (s.dec.Feeding? || (s.dec.Top? && s.pending) ==> s.current == s.pktSerial)
    && Separated(s.log)
    && (forall e | e in s.q.entries :: Recent(s, e.pkt, e.serial) && e.serial <= s.q.serial)
    && (s.dec.Got? || s.dec.Testing? ==> Recent(s, s.dec.pkt, s.pktSerial))
    && (s.dec.Feeding? || (s.dec.Top? && s.pending) ==> s.currentPkt.Data? && Recent(s, s.currentPkt, s.pktSerial))
    && s.pktSerial <= s.q.serial
  }

  lemma {:induction false} LastOfRest(prev: int, es: seq<Entry>)
    requires es != [] && Chained(prev, es)
    ensures Chained(es[0].serial, es[1..]) && LastSerial(es[0].serial, es[1..]) == LastSerial(prev, es)
  {
  }

  /** Feeding or labelling under the serial of everything since the last flush keeps serials separated. */
  lemma FeedSeparated(log: seq<Event>, v: int, e: Event)
    requires Separated(log) && TailIs(log, v) && !e.CodecFlush? && e.serial == v
    ensures Separated(log + [e]) && TailIs(log + [e], v)
  {
    var l := log + [e];
    assert l[..|l| - 1] == log;
    forall i, j | 0 <= i < j < |l| && Differ(l[i], l[j])
      ensures exists k :: i < k < j && l[k].CodecFlush?
    {
      if j == |log| {
        TailFlush(log, v, i);
        var k :| i < k < |log| && log[k].CodecFlush?;
        assert l[k].CodecFlush?;
      } else {
        assert Differ(log[i], log[j]);
        var k :| i < k < j && log[k].CodecFlush?;
        assert l[k].CodecFlush?;
      }
    }
  }

  lemma FlushSeparated(log: seq<Event>, v: int)
    requires Separated(log)
    ensures Separated(log + [CodecFlush]) && TailIs(log + [CodecFlush], v)
  {
    var l := log + [CodecFlush];
    forall i, j | 0 <= i < j < |l| && Differ(l[i], l[j])
      ensures exists k :: i < k < j && l[k].CodecFlush?
    {
      assert Differ(log[i], log[j]);
      var k :| i < k < j && log[k].CodecFlush?;
      assert l[k].CodecFlush?;
    }
  }

  lemma StepInv(s: State, a: Action)
    requires Inv(s) && Enabled(s, a)
    ensures Inv(Step(s, a))
  {
    match a
    case Read(id, size) => ReadInv(s, Data(id, size));
    case SeekPut => ReadInv(s, Flush);
    case SeekFlush => ChainRises(s.pktSerial, s.q.entries);
    case Abort =>
    case Decide(_) =>
    case Get => if !s.q.abort { LastOfRest(s.pktSerial, s.q.entries); }
    case Act => if s.dec.pkt.Flush? { FlushSeparated(s.log, s.pktSerial); }
    case Test =>
    case Decode(_, got) => DecodeInv(s, a);
  }

  lemma DecodeInv(s: State, a: Action)
    requires Inv(s) && Enabled(s, a) && a.Decode?
    ensures Inv(Step(s, a))
  {
    hide Separated, Chained, LastSerial;
    FeedSeparated(s.log, s.current, Feed(s.current));
    if a.got {
      FeedSeparated(s.log + [Feed(s.current)], s.current, Picture(s.pktSerial));
    } else {
      assert s.log + [Feed(s.current)] + [] == s.log + [Feed(s.current)];
    }
  }

  lemma ReadInv(s: State, p: Packet)
    requires Inv(s) && !s.reader.Closing? && (s.reader.Emptied? ==> p.Flush?)
    ensures Inv(s.(q := Put(s.q, p), reader := Reading, readSince := if p.Flush? then {} else s.readSince + {p.id}))
  {
    var e := Entry(p, if p.Flush? then s.q.serial + 1 else s.q.serial);
    ChainedAppend(s.pktSerial, s.q.entries, e);
  }

  // ---- every run ----

  ghost predicate IsRun(s: State, run: seq<Action>)
    decreases |run|
  {
    run == [] || (Enabled(s, run[0]) && IsRun(Step(s, run[0]), run[1..]))
  }

  ghost function After(s: State, run: seq<Action>): State
    requires IsRun(s, run)
    decreases |run|
  {
    if run == [] then s else After(Step(s, run[0]), run[1..])
  }

  lemma {:induction false} RunInv(s: State, run: seq<Action>)
    requires Inv(s) && IsRun(s, run)
    ensures Inv(After(s, run))
    decreases |run|
  {
    if run != [] {
      StepInv(s, run[0]);
      RunInv(Step(s, run[0]), run[1..]);
    }
  }

  ghost predicate Reachable(s: State) {
    exists s0, run :: Init(s0) && IsRun(s0, run) && After(s0, run) == s
  }

  lemma ReachableInv(s: State)
    requires Reachable(s)
    ensures Inv(s)
  {
    var s0, run :| Init(s0) && IsRun(s0, run) && After(s0, run) == s;
    var q: Queue :| q.entries == [] && q.serial == 0 && s0.q == Started(q);
    assert s0.q.entries == [Entry(Flush, 1)];
    assert Chained(1, s0.q.entries[1..]);
    RunInv(s0, run);
  }

  /** Whenever the decoder settles on a packet, a new one or the pending one, that packet was read by the
      demuxer after the last completed seek. */
  lemma SettlesOnRecentPacket(s: State, a: Action)
    requires Reachable(s) && Enabled(s, a) && (a.Test? || a.Decide?) && Step(s, a).dec.Feeding?
    ensures Step(s, a).currentPkt.Data? && Step(s, a).currentPkt.id in s.readSince
    ensures Step(s, a).current == s.q.serial
  {
    ReachableInv(s);
  }

  /** How many packets of other epochs than v were fed. */
  function OldFeeds(log: seq<Event>, v: int): nat
    decreases |log|
  {
    if log == [] then 0
    else OldFeeds(log[..|log| - 1], v) + if log[|log| - 1].Feed? && log[|log| - 1].serial != v then 1 else 0
  }

  /** The decoder has a packet of an older epoch in hand, with no test left before it is fed. */
  predicate Caught(s: State) {
    s.dec.Feeding? && s.current != s.q.serial
  }

  lemma OldFeedsNext(log: seq<Event>, e: Event, v: int)
    ensures OldFeeds(log + [e], v) == OldFeeds(log, v) + if e.Feed? && e.serial != v then 1 else 0
  {
    assert (log + [e])[..|log|] == log;
  }

  lemma OldFeedStep(s: State, a: Action)
    requires Inv(s) && Enabled(s, a) && !a.SeekPut?
    ensures Step(s, a).q.serial == s.q.serial
    ensures OldFeeds(Step(s, a).log, s.q.serial) + (if Caught(Step(s, a)) then 1 else 0) <=
            OldFeeds(s.log, s.q.serial) + if Caught(s) then 1 else 0
  {
    hide OldFeeds, Chained, LastSerial, TailIs, Separated;
    if a.Decode? {
      OldFeedsNext(s.log, Feed(s.current), s.q.serial);
      OldFeedsNext(s.log + [Feed(s.current)], Picture(s.pktSerial), s.q.serial);
      assert s.log + [Feed(s.current)] + [] == s.log + [Feed(s.current)];
    } else if a.Act? {
      OldFeedsNext(s.log, CodecFlush, s.q.serial);
    }
  }

  lemma {:induction false} OldFeedsInRun(s: State, run: seq<Action>)
    requires Inv(s) && IsRun(s, run) && forall a :: a in run ==> !a.SeekPut?
    ensures After(s, run).q.serial == s.q.serial
    ensures OldFeeds(After(s, run).log, s.q.serial) <= OldFeeds(s.log, s.q.serial) + if Caught(s) then 1 else 0
    decreases |run|
  {
    hide Inv, Step, Enabled, OldFeeds, Caught;
    if run != [] {
      assert run[0] in run;
      StepInv(s, run[0]);
      OldFeedStep(s, run[0]);
      OldFeedsInRun(Step(s, run[0]), run[1..]);
    }
  }

  /** After a seek at most one packet from before it is still fed: the one the decoder had in hand when the seek came.
      */
  lemma AtMostOneOldFeed(s: State, run: seq<Action>)
    requires Reachable(s) && Enabled(s, SeekPut) && IsRun(Step(s, SeekPut), run) && forall a :: a in run ==> !a.SeekPut?
    ensures var t := Step(s, SeekPut);
            && After(t, run).q.serial == t.q.serial > s.q.serial
            && OldFeeds(After(t, run).log, t.q.serial) <= OldFeeds(s.log, t.q.serial) + if s.dec.Feeding? then 1 else 0
  {
    hide OldFeeds, Chained, LastSerial, TailIs, Separated;
    ReachableInv(s);
    StepInv(s, SeekPut);
    OldFeedsInRun(Step(s, SeekPut), run);
  }

  /** However seeks interleave with decoding, the codec is flushed between any two packets of different epochs. */
  lemma EpochsAreSeparated(s: State, i: nat, j: nat)
    requires Reachable(s) && i < j < |s.log| && s.log[i].Feed? && s.log[j].Feed? && s.log[i].serial != s.log[j].serial
    ensures exists k :: i < k < j && s.log[k].CodecFlush?
  {
    ReachableInv(s);
    assert Differ(s.log[i], s.log[j]);
  }

  /** The serial a picture is queued under is the one of everything fed to the codec since its last flush, so of what
      the picture was decoded from: whatever was fed before under another serial, the codec has been flushed since. */
  lemma PicturesAreLabelled(s: State, i: nat, j: nat)
    requires Reachable(s) && i < j < |s.log| && s.log[i].Feed? && s.log[j].Picture? &&
             s.log[i].serial != s.log[j].serial
    ensures exists k :: i < k < j && s.log[k].CodecFlush?
  {
    ReachableInv(s);
    assert Differ(s.log[i], s.log[j]);
  }
}

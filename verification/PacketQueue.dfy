/** The player's packet list (videoplay.c): a singly linked list with a tail pointer and running counters.
    Every method body runs under the queue's mutex. */
module PacketQueues {

  /** A demuxed packet, or the flush packet that opens a new epoch. */
  datatype Packet = Flush | Data(id: nat, size: nat)

  datatype Entry = Entry(pkt: Packet, serial: int)

  /** What the queue means: entries in order, the abort flag and the current epoch. */
  datatype Queue = Queue(entries: seq<Entry>, abort: bool, serial: int)

  function PacketSize(p: Packet): nat {
    if p.Flush? then 0 else p.size
  }

  function Put(q: Queue, p: Packet): Queue {
    if q.abort then q
    else
      var serial := if p.Flush? then q.serial + 1 else q.serial;
      q.(entries := q.entries + [Entry(p, serial)], serial := serial)
  }

  function Emptied(q: Queue): Queue {
    q.(entries := [])
  }

  /** packet_queue_start. */
  function Started(q: Queue): Queue {
    Put(q.(abort := false), Flush)
  }

  /** The summed size, each node costing nodeSize on top of its packet. */
  function TotalSize(es: seq<Entry>, nodeSize: nat): nat {
    if es == [] then 0 else PacketSize(es[0].pkt) + nodeSize + TotalSize(es[1..], nodeSize)
  }

  lemma {:induction false} TotalSizeAppend(es: seq<Entry>, e: Entry, nodeSize: nat)
    ensures TotalSize(es + [e], nodeSize) == TotalSize(es, nodeSize) + PacketSize(e.pkt) + nodeSize
  {
    if es == [] {
      assert es + [e] == [e];
    } else {
      assert (es + [e])[1..] == es[1..] + [e];
      TotalSizeAppend(es[1..], e, nodeSize);
    }
  }

  /** What the operations of the queue make of it from the start: a serial counts the flush packets queued so far. */
  datatype Op = PutOp(pkt: Packet) | GetOp | FlushOp | AbortOp | StartOp

  function Applied(q: Queue, op: Op): Queue {
    match op
    case PutOp(p) => Put(q, p)
    case GetOp => if q.abort || q.entries == [] then q else q.(entries := q.entries[1..])
    case FlushOp => Emptied(q)
    case AbortOp => q.(abort := true)
    case StartOp => Started(q)
  }

  function AfterOps(ops: seq<Op>): Queue {
    if ops == [] then Queue([], true, 0) else Applied(AfterOps(ops[..|ops| - 1]), ops[|ops| - 1])
  }

  /** Of an operation: it starts the queue, or puts a flush packet into a queue that is not aborted. */
  function Opens(ops: seq<Op>): nat {
    if ops == [] then 0
    else
      var op := ops[|ops| - 1];
      Opens(ops[..|ops| - 1]) +
      if op.StartOp? || (op == PutOp(Flush) && Running(ops[..|ops| - 1])) then 1 else 0
  }

  /** The last start came after the last abort. */
  predicate Running(ops: seq<Op>) {
    ops != [] && (ops[|ops| - 1].StartOp? || (!ops[|ops| - 1].AbortOp? && Running(ops[..|ops| - 1])))
  }

  /** The entries are in epochs that rise by one at every flush packet, up to the queue's own. */
  predicate Numbered(q: Queue) {
    && (q.entries != [] ==> q.entries[|q.entries| - 1].serial == q.serial)
    && (forall i :: 0 < i < |q.entries| ==>
          q.entries[i].serial == q.entries[i - 1].serial + if q.entries[i].pkt.Flush? then 1 else 0)
  }

  lemma NumberedStep(q: Queue, op: Op)
    requires Numbered(q)
    ensures Numbered(Applied(q, op))
  {
    if op.GetOp? && !q.abort && q.entries != [] {
      var rest := q.entries[1..];
      assert forall i :: 0 <= i < |rest| ==> rest[i] == q.entries[i + 1];
    }
  }

  /** Over every run: the queue refuses packets exactly while it is not running, its serial is the number of epochs
      opened, and its entries are numbered accordingly. */
  lemma {:induction false} SerialCountsEpochs(ops: seq<Op>)
    ensures var q := AfterOps(ops);
            (q.abort <==> !Running(ops)) && q.serial == Opens(ops) && Numbered(q)
  {
    hide Numbered;
    if ops == [] {
      assert Numbered(Queue([], true, 0)) by {
        NothingNumbered();
      }
    } else {
      SerialCountsEpochs(ops[..|ops| - 1]);
      NumberedStep(AfterOps(ops[..|ops| - 1]), ops[|ops| - 1]);
    }
  }

  lemma NothingNumbered()
    ensures Numbered(Queue([], true, 0))
  {
  }

  /** The size counter: every node costs its own size, every data packet its bytes, and a flush packet nothing more. */
  lemma {:induction false} SizeIsBytes(es: seq<Entry>, nodeSize: nat)
    ensures TotalSize(es, nodeSize) >= |es| * nodeSize
    ensures (forall e | e in es :: e.pkt.Flush?) ==> TotalSize(es, nodeSize) == |es| * nodeSize
    ensures es != [] && es[0].pkt.Data? ==>
            TotalSize(es, nodeSize) == es[0].pkt.size + nodeSize + TotalSize(es[1..], nodeSize)
  {
    if es != [] {
      SizeIsBytes(es[1..], nodeSize);
      assert |es| * nodeSize == nodeSize + |es[1..]| * nodeSize;
    }
  }

  class Node {
    const entry: Entry
    var next: Node?

    constructor (entry: Entry)
      ensures this.entry == entry && next == null
    {
      this.entry := entry;
      next := null;
    }
  }

  class PacketQueue {
    const nodeSize: nat
    var first: Node?
    var last: Node?
    var nbPackets: int
    var size: int
    var abortRequest: bool
    var serial: int
    ghost var nodes: seq<Node>

    static ghost function EntriesOf(ns: seq<Node>): seq<Entry> {
      seq(|ns|, i requires 0 <= i < |ns| => ns[i].entry)
    }

    ghost function View(): Queue
      reads this
    {
      Queue(EntriesOf(nodes), abortRequest, serial)
    }

    /** first leads through next to last, through every node once, and the counters are the list's. */
    ghost predicate Valid()
      reads this, nodes
    {
      && (first == null <==> nodes == []) && (last == null <==> nodes == [])
      && (nodes != [] ==> first == nodes[0] && last == nodes[|nodes| - 1] && last.next == null)
      && (forall i | 0 <= i < |nodes| - 1 :: nodes[i].next == nodes[i + 1])
      && (forall i, j | 0 <= i < j < |nodes| :: nodes[i] != nodes[j])
      && nbPackets == |nodes|
      && size == TotalSize(EntriesOf(nodes), nodeSize)
    }

    /** packet_queue_init: aborted until it is started. */
    constructor (nodeSize: nat)
      ensures Valid() && fresh(this) && View() == Queue([], true, 0)
    {
      this.nodeSize := nodeSize;
      first, last := null, null;
      nbPackets, size := 0, 0;
      abortRequest := true;
      serial := 0;
      nodes := [];
    }

    method PutPrivate(pkt: Packet) returns (ret: int)
      requires Valid()
      modifies this, nodes
      ensures Valid() && View() == Put(old(View()), pkt)
      ensures ret == if old(abortRequest) then -1 else 0
      ensures forall n | n in nodes :: n in old(nodes) || fresh(n)
    {
      if abortRequest {
        return -1;
      }
      if pkt.Flush? {
        serial := serial + 1;
      }
      var node := new Node(Entry(pkt, serial));
      if last == null {
        first := node;
      } else {
        last.next := node;
      }
      last := node;
      nbPackets := nbPackets + 1;
      size := size + PacketSize(pkt) + nodeSize;
      TotalSizeAppend(EntriesOf(nodes), node.entry, nodeSize);
      assert EntriesOf(nodes + [node]) == EntriesOf(nodes) + [node.entry];
      nodes := nodes + [node];
      return 0;
    }

    /** packet_queue_flush: every queued packet is released exactly once, in order. */
    method FlushAll() returns (released: seq<Entry>)
      requires Valid()
      modifies this
      ensures Valid() && View() == Emptied(old(View())) && released == old(View()).entries
    {
      released := [];
      var pkt := first;
      while pkt != null
        invariant |released| <= |nodes|
        invariant released == EntriesOf(nodes)[..|released|]
        invariant pkt == if |released| == |nodes| then null else nodes[|released|]
        decreases |nodes| - |released|
      {
        var next := pkt.next;
        released := released + [pkt.entry];
        pkt := next;
      }
      last, first := null, null;
      nbPackets, size := 0, 0;
      nodes := [];
    }

    /** packet_queue_get without waiting: -1 when aborted, 0 when empty, 1 with the front entry. */
    method Get() returns (ret: int, entry: Entry)
      requires Valid()
      modifies this
      ensures Valid()
      ensures ret == if old(View()).abort then -1 else if old(View()).entries == [] then 0 else 1
      ensures ret == 1 ==>
              old(View()).entries == [entry] + View().entries && View() == old(View()).(entries := View().entries)
      ensures ret != 1 ==> View() == old(View())
      ensures serial == View().serial
    {
      entry := Entry(Flush, 0);
      if abortRequest {
        return -1, entry;
      }
      if first == null {
        return 0, entry;
      }
      var node := first;
      first := node.next;
      if first == null {
        last := null;
      }
      nbPackets := nbPackets - 1;
      size := size - (PacketSize(node.entry.pkt) + nodeSize);
      entry := node.entry;
      assert EntriesOf(nodes) == [entry] + EntriesOf(nodes[1..]);
      assert EntriesOf(nodes)[1..] == EntriesOf(nodes[1..]);
      ghost var before := nodes;
      nodes := nodes[1..];
      assert forall i | 0 <= i < |nodes| :: nodes[i] == before[i + 1];
      assert nodes != [] ==> first == nodes[0] && last == nodes[|nodes| - 1];
      assert size == TotalSize(EntriesOf(nodes), nodeSize);
      return 1, entry;
    }

    method Abort()
      requires Valid()
      modifies this`abortRequest
      ensures Valid() && View() == old(View()).(abort := true)
    {
      abortRequest := true;
    }

    method Start()
      requires Valid()
      modifies this, nodes
      ensures Valid() && View() == Started(old(View()))
    {
      abortRequest := false;
      var _ := PutPrivate(Flush);
    }
  }

  /** Flush packets in a stretch of the queue: each makes the decoder flush its codec. */
  function Flushes(es: seq<Entry>): nat {
    if es == [] then 0 else Flushes(es[..|es| - 1]) + (if es[|es| - 1].pkt.Flush? then 1 else 0)
  }

  /** The inner loop of decoder_decode_frame: take packets until one is data of the queue's epoch. Everything
      before it was a flush packet, each flushing the codec, or data of an older epoch. */
  method FetchCurrent(q: PacketQueue) returns (ret: int, entry: Entry, codecFlushes: nat, ghost skipped: seq<Entry>)
    requires q.Valid()
    modifies q
    ensures q.Valid() && q.View() == old(q.View()).(entries := q.View().entries)
    ensures ret == 1 || q.View().abort || q.View().entries == []
    ensures ret == 1 ==> entry.pkt.Data? && entry.serial == q.View().serial
    ensures old(q.View()).entries == skipped + (if ret == 1 then [entry] else []) + q.View().entries
    ensures forall e | e in skipped :: e.pkt.Flush? || e.serial != q.View().serial
    ensures codecFlushes == Flushes(skipped)
  {
    hide PacketQueue.Valid, PacketQueue.View, Flushes;
    codecFlushes := 0;
    skipped := [];
    NoFlushes();
    ghost var all := q.View().entries;
    ghost var rest := all;
    while true
      invariant q.Valid() && q.View() == old(q.View()).(entries := rest)
      invariant all == skipped + rest
      invariant forall e | e in skipped :: e.pkt.Flush? || e.serial != q.View().serial
      invariant codecFlushes == Flushes(skipped)
      decreases |rest|
    {
      ret, entry := q.Get();
      if ret != 1 {
        return;
      }
      rest := rest[1..];
      Regrouped(all, skipped, entry, rest);
      if !entry.pkt.Flush? && entry.serial == q.serial {
        return;
      }
      if entry.pkt.Flush? {
        codecFlushes := codecFlushes + 1;
      }
      skipped := skipped + [entry];
    }
  }

  lemma NoFlushes()
    ensures Flushes([]) == 0
  {
  }

  lemma Regrouped(all: seq<Entry>, skipped: seq<Entry>, e: Entry, rest: seq<Entry>)
    requires all == skipped + ([e] + rest)
    ensures all == (skipped + [e]) + rest
    ensures Flushes(skipped + [e]) == Flushes(skipped) + (if e.pkt.Flush? then 1 else 0)
  {
    assert (skipped + [e])[..|skipped|] == skipped;
  }
}

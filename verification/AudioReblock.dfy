/** The echo-cancelling stage of audio capture (alsa_capture.c): captured sound is queued, processed in blocks of
    1280 bytes, queued again, and handed back in requests of another size. */
module AudioReblock {

  type byte = bv8

  const CAPACITY := 12288
  const BLOCK := 1280

  datatype Sample = Sample(low: byte, high: byte)

  /** The 320 samples one block holds of one channel. */
  type Channel = s: seq<Sample> | |s| == 320 witness seq(320, _ => Sample(0, 0))

  /** The voice library: what it makes of one block depends on the state it has kept and on the two channels. Its
      mode flag is part of that state. */
  type Voice<!S> = (S, Channel, Channel) -> (S, Channel)

  function Left(block: seq<byte>): Channel
    requires |block| == BLOCK
  {
    seq(320, j requires 0 <= j < 320 => Sample(block[4 * j], block[4 * j + 1]))
  }

  function Right(block: seq<byte>): Channel
    requires |block| == BLOCK
  {
    seq(320, j requires 0 <= j < 320 => Sample(block[4 * j + 2], block[4 * j + 3]))
  }

  /** Samples of one channel laid out on both sides. */
  function Stereo(c: seq<Sample>): (block: seq<byte>)
    ensures |block| == 4 * |c|
  {
    if |c| == 0 then []
    else
      var last := c[|c| - 1];
      Stereo(c[..|c| - 1]) + [last.low, last.high, last.low, last.high]
  }

  lemma {:induction false} StereoAt(c: seq<Sample>, j: nat)
    requires j < |c|
    ensures Stereo(c)[4 * j] == Stereo(c)[4 * j + 2] == c[j].low &&
            Stereo(c)[4 * j + 1] == Stereo(c)[4 * j + 3] == c[j].high
  {
    if j < |c| - 1 {
      StereoAt(c[..|c| - 1], j);
    }
  }

  /** What the stage hands on plays the same samples left and right. */
  lemma StereoIsMono(c: Channel)
    ensures Left(Stereo(c)) == c && Right(Stereo(c)) == c
  {
    forall j | 0 <= j < 320
      ensures Left(Stereo(c))[j] == c[j] && Right(Stereo(c))[j] == c[j]
    {
      StereoAt(c, j);
    }
  }

  // ---- values ----

  datatype Dsp<S> = Dsp(cap: seq<byte>, out: seq<byte>, voice: S)

  datatype Passed<S> = Passed(dsp: Dsp<S>, buf: seq<byte>, short: bool)

  /** queue_capture_buffer and queue_captureout_buffer: all or nothing. */
  function Enqueue(q: seq<byte>, data: seq<byte>): seq<byte> {
    if |data| == 0 || |q| + |data| > CAPACITY then q else q + data
  }

  function Block(sound: seq<byte>, i: nat): (block: seq<byte>)
    requires BLOCK * (i + 1) <= |sound|
    ensures |block| == BLOCK
  {
    sound[BLOCK * i..BLOCK * (i + 1)]
  }

  lemma BlockAt(sound: seq<byte>, i: nat, m: nat)
    requires BLOCK * (i + 1) <= |sound| && m + 3 < BLOCK
    ensures Block(sound, i)[m] == sound[BLOCK * i + m] && Block(sound, i)[m + 1] == sound[BLOCK * i + m + 1]
    ensures Block(sound, i)[m + 2] == sound[BLOCK * i + m + 2] && Block(sound, i)[m + 3] == sound[BLOCK * i + m + 3]
  {
  }

  function Apply<S>(v: Voice<S>, s: S, block: seq<byte>): (r: (S, seq<byte>))
    requires |block| == BLOCK
    ensures |r.1| == BLOCK
  {
    var (t, c) := v(s, Right(block), Left(block));
    (t, Stereo(c))
  }

  lemma ApplyIs<S>(v: Voice<S>, s: S, block: seq<byte>)
    requires |block| == BLOCK
    ensures var r := v(s, Right(block), Left(block)); Apply(v, s, block) == (r.0, Stereo(r.1))
  {
  }

  /** The state after the first n blocks of the input queue went through. */
  function Process<S>(v: Voice<S>, d: Dsp<S>, n: nat): (r: Dsp<S>)
    requires BLOCK * n <= |d.cap|
    ensures r.cap == d.cap
  {
    if n == 0 then d
    else
      var p := Process(v, d, n - 1);
      var (s, o) := Apply(v, p.voice, Block(d.cap, n - 1));
      Dsp(d.cap, Enqueue(p.out, o), s)
  }

  lemma ProcessNone<S>(v: Voice<S>, d: Dsp<S>)
    ensures Process(v, d, 0) == d
  {
  }

  lemma ProcessNext<S>(v: Voice<S>, d: Dsp<S>, n: nat)
    requires BLOCK * (n + 1) <= |d.cap|
    ensures var p := Process(v, d, n);
            var (s, o) := Apply(v, p.voice, Block(d.cap, n));
            Process(v, d, n + 1) == Dsp(d.cap, Enqueue(p.out, o), s)
  {
  }

  /** One turn of alsa_capture_doing with a full read of |buf| bytes. */
  function Pass<S>(v: Voice<S>, d: Dsp<S>, buf: seq<byte>): (r: Passed<S>)
    ensures |r.buf| == |buf|
  {
    var c := Enqueue(d.cap, buf);
    var p := Process(v, d.(cap := c), |c| / BLOCK);
    var rest := c[BLOCK * (|c| / BLOCK)..];
    if |p.out| >= |buf| then Passed(Dsp(rest, p.out[|buf|..], p.voice), p.out[..|buf|], false)
    else Passed(Dsp(rest, p.out, p.voice), buf, true)
  }

  // ---- one call ----

  const FRAME := 4

  /** What a read of the device gives, a retry after a recovered error included; running out of them stands for a
      device that has no more sound yet. */
  datatype Read = Again | Broken(code: int) | Got(sound: seq<byte>)

  /** A read gives whole frames, at most as many as were asked for. */
  predicate Readable(remain: nat, outcomes: seq<Read>)
    decreases |outcomes|
  {
    outcomes == [] ||
    match outcomes[0]
    case Again => true
    case Broken(code) => code < 0
    case Got(sound) =>
      |sound| % FRAME == 0 && |sound| <= FRAME * remain && Readable(remain - |sound| / FRAME, outcomes[1..])
  }

  datatype Done<S> = Done(dsp: Dsp<S>, buf: seq<byte>, ret: int)

  /** A whole call of alsa_capture_doing on a buffer of so many frames. */
  function Turns<S>(v: Voice<S>, d: Dsp<S>, buf: seq<byte>, remain: nat, frames: nat, outcomes: seq<Read>): Done<S>
    requires |buf| == FRAME * frames && remain <= frames && Readable(remain, outcomes)
    decreases |outcomes|
  {
    if outcomes == [] then Done(d, buf, 0)
    else
      match outcomes[0]
      case Again => Done(d, buf, 0)
      case Broken(code) => Done(d, buf, code)
      case Got(sound) =>
        var filled := sound + buf[|sound|..];
        var p := Pass(v, d, filled[..FRAME * remain]);
        var given := p.buf + filled[FRAME * remain..];
        var rest := remain - |sound| / FRAME;
        if rest == 0 then Done(p.dsp, given, frames) else Turns(v, p.dsp, given, rest, frames, outcomes[1..])
  }

  lemma TurnsStep<S>(v: Voice<S>, d: Dsp<S>, buf: seq<byte>, remain: nat, frames: nat, outcomes: seq<Read>)
    requires |buf| == FRAME * frames && remain <= frames && Readable(remain, outcomes)
    ensures outcomes == [] || outcomes[0].Again? ==> Turns(v, d, buf, remain, frames, outcomes) == Done(d, buf, 0)
    ensures outcomes != [] && outcomes[0].Broken? ==>
            Turns(v, d, buf, remain, frames, outcomes) == Done(d, buf, outcomes[0].code)
    ensures outcomes != [] && outcomes[0].Got? ==>
            var sound := outcomes[0].sound;
            var filled := sound + buf[|sound|..];
            var p := Pass(v, d, filled[..FRAME * remain]);
            var given := p.buf + filled[FRAME * remain..];
            var rest := remain - |sound| / FRAME;
            Turns(v, d, buf, remain, frames, outcomes) ==
            if rest == 0 then Done(p.dsp, given, frames) else Turns(v, p.dsp, given, rest, frames, outcomes[1..])
  {
    hide Pass;
  }

  /** A call that reads all its frames at once is one pass over exactly the sound read. */
  lemma FullReadIsOnePass<S>(v: Voice<S>, d: Dsp<S>, buf: seq<byte>, frames: nat, outcomes: seq<Read>)
    requires |buf| == FRAME * frames && Readable(frames, outcomes) && outcomes != [] && outcomes[0].Got? &&
             |outcomes[0].sound| == FRAME * frames
    ensures var p := Pass(v, d, outcomes[0].sound);
            Turns(v, d, buf, frames, frames, outcomes) == Done(p.dsp, p.buf, frames)
  {
    hide Pass;
    var sound := outcomes[0].sound;
    assert sound + buf[|sound|..] == sound;
    assert sound[..FRAME * frames] == sound && sound[FRAME * frames..] == [];
    var p := Pass(v, d, sound);
    assert p.buf + [] == p.buf;
  }

  /** The bytes that a row of reads gives. */
  function BytesOf(outcomes: seq<Read>): nat
    decreases |outcomes|
  {
    if outcomes == [] then 0
    else (if outcomes[0].Got? then |outcomes[0].sound| else 0) + BytesOf(outcomes[1..])
  }

  /** What a call answers: its size as soon as its reads make up the request, else the error or the lack of sound that
      came before. */
  lemma {:induction false} CallAnswers<S>(
    v: Voice<S>, d: Dsp<S>, buf: seq<byte>, remain: nat, frames: nat, outcomes: seq<Read>, n: nat)
    requires |buf| == FRAME * frames && 0 < remain <= frames && Readable(remain, outcomes) && n <= |outcomes|
    requires forall k :: 0 <= k < n ==> outcomes[k].Got? && BytesOf(outcomes[..k]) < FRAME * remain
    ensures BytesOf(outcomes[..n]) == FRAME * remain ==> Turns(v, d, buf, remain, frames, outcomes).ret == frames
    ensures BytesOf(outcomes[..n]) < FRAME * remain && (n == |outcomes| || !outcomes[n].Got?) ==>
            Turns(v, d, buf, remain, frames, outcomes).ret ==
            if n < |outcomes| && outcomes[n].Broken? then outcomes[n].code else 0
    ensures BytesOf(outcomes[..n]) <= FRAME * remain
    decreases n
  {
    hide Pass, Turns;
    TurnsStep(v, d, buf, remain, frames, outcomes);
    if n > 0 {
      var sound, later := outcomes[0].sound, outcomes[1..];
      var filled := sound + buf[|sound|..];
      var p := Pass(v, d, filled[..FRAME * remain]);
      var given := p.buf + filled[FRAME * remain..];
      var rest := remain - |sound| / FRAME;
      assert outcomes[..n][1..] == later[..n - 1];
      assert outcomes[..1][1..] == [] && BytesOf(outcomes[..1]) == |sound|;
      if rest > 0 {
        forall k | 0 <= k < n - 1
          ensures later[k].Got? && BytesOf(later[..k]) < FRAME * rest
        {
          assert outcomes[..k + 1][1..] == later[..k];
          assert BytesOf(outcomes[..k + 1]) < FRAME * remain;
        }
        CallAnswers(v, p.dsp, given, rest, frames, later, n - 1);
      }
    }
  }

  // ---- the source's buffers ----

  class Queue {
    const data: array<byte>
    var size: int

    ghost predicate Valid()
      reads this
    {
      data.Length == CAPACITY && 0 <= size <= CAPACITY
    }

    ghost function Contents(): seq<byte>
      requires Valid()
      reads this, data
    {
      data[..size]
    }

    constructor ()
      ensures Valid() && fresh(data) && Contents() == []
    {
      data := new byte[CAPACITY];
      size := 0;
    }

    method Put(buffer: array<byte>, bytes: nat) returns (ret: int)
      requires Valid() && buffer != data && bytes <= buffer.Length
      modifies this`size, data
      ensures Valid() && Contents() == Enqueue(old(Contents()), buffer[..bytes])
      ensures ret == if Contents() == old(Contents()) then -1 else 0
    {
      if bytes == 0 {
        return -1;
      }
      if size + bytes > CAPACITY {
        return -1;
      }
      forall k | 0 <= k < bytes {
        data[size + k] := buffer[k];
      }
      size := size + bytes;
      assert data[..size] == old(data[..size]) + buffer[..bytes];
      return 0;
    }

    /** The first n bytes leave and the rest moves to the front. */
    method Drop(n: nat)
      requires Valid() && n <= size
      modifies this`size, data
      ensures Valid() && Contents() == old(Contents()[n..])
    {
      size := size - n;
      forall k | 0 <= k < size {
        data[k] := data[n + k];
      }
      assert data[..size] == old(data[..size][n..]);
    }
  }

  class Capture<S> {
    const v: Voice<S>
    const cap: Queue
    const out: Queue
    var voice: S

    ghost predicate Valid()
      reads this, cap, out
    {
      cap != out && cap.data != out.data && cap.Valid() && out.Valid()
    }

    ghost function View(): Dsp<S>
      requires Valid()
      reads this, cap, out, cap.data, out.data
    {
      Dsp(cap.Contents(), out.Contents(), voice)
    }

    constructor (v: Voice<S>, voice: S)
      ensures Valid() && this.v == v && View() == Dsp([], [], voice)
    {
      this.v := v;
      this.voice := voice;
      cap := new Queue();
      out := new Queue();
    }

    /** The body of the block loop: split the channels, run the library, double its result, queue it. */
    method ProcessBlock(i: nat)
      requires Valid() && BLOCK * (i + 1) <= cap.size
      modifies this`voice, out`size, out.data
      ensures Valid()
      ensures var (s, o) := Apply(v, old(voice), Block(old(cap.Contents()), i));
              voice == s && out.Contents() == Enqueue(old(out.Contents()), o)
    {
      hide Apply, Stereo;
      ghost var block := Block(cap.Contents(), i);
      var in_, ref := Split(i);
      var (s, c) := v(voice, in_, ref);
      var temporary := Double(c);
      ApplyIs(v, voice, block);
      voice := s;
      assert temporary[..BLOCK] == temporary[..];
      var _ := out.Put(temporary, BLOCK);
    }

    /** One turn of the loop of alsa_capture_doing, after the read: the first bytes of buff come in as they are and go
        out as delivered. */
    method Turn(buff: array<byte>, bytes: nat) returns (short: bool)
      requires Valid() && buff != cap.data && buff != out.data && bytes <= buff.Length
      modifies this`voice, cap`size, cap.data, out`size, out.data, buff
      ensures Valid()
      ensures Pass(v, old(View()), old(buff[..bytes])) == Passed(View(), buff[..bytes], short)
      ensures buff[bytes..] == old(buff[bytes..])
    {
      hide Process, Enqueue;
      ghost var before := View();
      ghost var sound := buff[..bytes];
      var _ := cap.Put(buff, bytes);
      ghost var start := before.(cap := cap.Contents());
      var blocks := cap.size / BLOCK;
      var i := 0;
      ProcessNone(v, start);
      while i < blocks
        invariant 0 <= i <= blocks && Valid() && cap.Contents() == start.cap
        invariant BLOCK * i <= |start.cap| && View() == Process(v, start, i)
        invariant buff[..] == old(buff[..])
      {
        ProcessBlock(i);
        ProcessNext(v, start, i);
        i := i + 1;
      }
      assert cap.Contents() == Enqueue(before.cap, sound);
      cap.Drop(BLOCK * i);
      short := out.size < bytes;
      if !short {
        Deliver(buff, bytes);
      }
    }

    /** The caller's buffer takes the front of the output queue. */
    method Deliver(buff: array<byte>, bytes: nat)
      requires Valid() && buff != cap.data && buff != out.data && bytes <= out.size && bytes <= buff.Length
      modifies out`size, out.data, buff
      ensures Valid() && buff[..bytes] + out.Contents() == old(out.Contents())
      ensures buff[bytes..] == old(buff[bytes..])
    {
      forall k | 0 <= k < bytes {
        buff[k] := out.data[k];
      }
      assert buff[..bytes] == old(out.Contents())[..bytes];
      out.Drop(bytes);
    }

    /** alsa_capture_doing: read, process and deliver until as many frames were read as the buffer holds. A short read
        fills only the front of the buffer, and the next turn is smaller but starts at the front again. */
    method Doing(buff: array<byte>, frames: nat, outcomes: seq<Read>) returns (ret: int)
      requires Valid() && buff != cap.data && buff != out.data && buff.Length == FRAME * frames &&
               Readable(frames, outcomes)
      modifies this`voice, cap`size, cap.data, out`size, out.data, buff
      ensures Valid()
      ensures Turns(v, old(View()), old(buff[..]), frames, frames, outcomes) == Done(View(), buff[..], ret)
    {
      hide Pass, Turns;
      var remain, n := frames, 0;
      ghost var was, before := View(), buff[..];
      assert outcomes[0..] == outcomes;
      while n < |outcomes|
        invariant Valid() && 0 <= n <= |outcomes| && 0 <= remain <= frames && Readable(remain, outcomes[n..])
        invariant Turns(v, View(), buff[..], remain, frames, outcomes[n..]) ==
                  Turns(v, was, before, frames, frames, outcomes)
      {
        TurnsStep(v, View(), buff[..], remain, frames, outcomes[n..]);
        assert outcomes[n..][0] == outcomes[n] && outcomes[n..][1..] == outcomes[n + 1..];
        match outcomes[n]
        case Again =>
          return 0;
        case Broken(code) =>
          return code;
        case Got(sound) =>
          Store(buff, sound);
          ghost var filled, bytes := buff[..], FRAME * remain;
          assert buff[..bytes] == filled[..bytes] && buff[bytes..] == filled[bytes..];
          var _ := Turn(buff, FRAME * remain);
          assert buff[..] == buff[..bytes] + filled[bytes..];
          remain := remain - |sound| / FRAME;
          if remain == 0 {
            return frames;
          }
          n := n + 1;
      }
      TurnsStep(v, View(), buff[..], remain, frames, outcomes[n..]);
      return 0;
    }

    method Split(i: nat) returns (in_: seq<Sample>, ref: seq<Sample>)
      requires Valid() && BLOCK * (i + 1) <= cap.size
      ensures |in_| == |ref| == 320
      ensures in_ == Right(Block(cap.Contents(), i)) && ref == Left(Block(cap.Contents(), i))
    {
      ghost var block := Block(cap.Contents(), i);
      in_, ref := [], [];
      var j := 0;
      while j < 320
        invariant 0 <= j <= 320 && |in_| == |ref| == j
        invariant forall k :: 0 <= k < j ==> ref[k] == Left(block)[k] && in_[k] == Right(block)[k]
      {
        var at := BLOCK * i + 4 * j;
        BlockAt(cap.Contents(), i, 4 * j);
        ref := ref + [Sample(cap.data[at], cap.data[at + 1])];
        in_ := in_ + [Sample(cap.data[at + 2], cap.data[at + 3])];
        j := j + 1;
      }
    }
  }

  lemma StereoNext(c: seq<Sample>, j: nat)
    requires j < |c|
    ensures Stereo(c[..j + 1]) == Stereo(c[..j]) + [c[j].low, c[j].high, c[j].low, c[j].high]
  {
    assert c[..j + 1][..j] == c[..j];
  }

  method Store(buff: array<byte>, sound: seq<byte>)
    requires |sound| <= buff.Length
    modifies buff
    ensures buff[..] == sound + old(buff[|sound|..])
  {
    forall k | 0 <= k < |sound| {
      buff[k] := sound[k];
    }
  }

  method Double(c: Channel) returns (temporary: array<byte>)
    ensures fresh(temporary) && temporary[..] == Stereo(c)
  {
    hide Stereo;
    temporary := new byte[BLOCK];
    var j := 0;
    assert Stereo(c[..0]) == temporary[..0];
    while j < 320
      invariant 0 <= j <= 320
      invariant temporary[..4 * j] == Stereo(c[..j])
    {
      StereoNext(c, j);
      DoubleSample(temporary, 4 * j, c[j]);
      j := j + 1;
    }
    assert c[..320] == c && temporary[..BLOCK] == temporary[..];
  }

  method DoubleSample(temporary: array<byte>, at: nat, s: Sample)
    requires at + 4 <= temporary.Length
    modifies temporary
    ensures temporary[..at + 4] == old(temporary[..at]) + [s.low, s.high, s.low, s.high]
  {
    temporary[at], temporary[at + 1] := s.low, s.high;
    temporary[at + 2], temporary[at + 3] := s.low, s.high;
  }

  // ---- the sound that goes through ----

  /** The library's output for the first n blocks of a sound, and the state it ends in. */
  function Processed<S>(v: Voice<S>, s: S, sound: seq<byte>, n: nat): (r: (S, seq<byte>))
    requires BLOCK * n <= |sound|
    ensures |r.1| == BLOCK * n
  {
    if n == 0 then (s, [])
    else
      var (t, made) := Processed(v, s, sound, n - 1);
      var (u, o) := Apply(v, t, Block(sound, n - 1));
      (u, made + o)
  }

  /** Sound heard later does not change what is made of the blocks before it. */
  lemma {:induction false} ProcessedPrefix<S>(v: Voice<S>, s: S, sound: seq<byte>, more: seq<byte>, n: nat)
    requires BLOCK * n <= |sound|
    ensures Processed(v, s, sound + more, n) == Processed(v, s, sound, n)
  {
    if n > 0 {
      ProcessedPrefix(v, s, sound, more, n - 1);
      assert Block(sound + more, n - 1) == Block(sound, n - 1);
    }
  }

  /** Processing n blocks and then m more, from where the library stopped, is processing n + m blocks. */
  lemma {:induction false} ProcessedSplit<S>(v: Voice<S>, s: S, sound: seq<byte>, n: nat, m: nat)
    requires BLOCK * (n + m) <= |sound|
    ensures var (t, made) := Processed(v, s, sound, n);
            var (u, rest) := Processed(v, t, sound[BLOCK * n..], m);
            Processed(v, s, sound, n + m) == (u, made + rest)
  {
    hide Apply;
    var (t, made) := Processed(v, s, sound, n);
    if m == 0 {
      assert made + [] == made;
    } else {
      ProcessedSplit(v, s, sound, n, m - 1);
      var (u, rest) := Processed(v, t, sound[BLOCK * n..], m - 1);
      var block := Block(sound, n + (m - 1));
      assert Block(sound[BLOCK * n..], m - 1) == block;
      assert made + rest + Apply(v, u, block).1 == made + (rest + Apply(v, u, block).1);
    }
  }

  /** With room for all of it, the block loop appends exactly the processed blocks. */
  lemma {:induction false} ProcessAppends<S>(v: Voice<S>, d: Dsp<S>, n: nat)
    requires BLOCK * n <= |d.cap| && |d.out| + BLOCK * n <= CAPACITY
    ensures var (t, made) := Processed(v, d.voice, d.cap, n);
            Process(v, d, n) == Dsp(d.cap, d.out + made, t)
  {
    hide Apply;
    if n > 0 {
      ProcessAppends(v, d, n - 1);
    }
  }

  // ---- runs ----

  function Heard(bufs: seq<seq<byte>>): seq<byte> {
    if |bufs| == 0 then [] else Heard(bufs[..|bufs| - 1]) + bufs[|bufs| - 1]
  }

  /** Where a run of turns leads, what its full turns delivered, and how many came up short. */
  datatype Run<S> = Run(dsp: Dsp<S>, delivered: seq<byte>, shorts: nat)

  function After<S>(v: Voice<S>, s: S, bufs: seq<seq<byte>>): Run<S> {
    if |bufs| == 0 then Run(Dsp([], [], s), [], 0)
    else
      var r := After(v, s, bufs[..|bufs| - 1]);
      var p := Pass(v, r.dsp, bufs[|bufs| - 1]);
      Turned(r, p)
  }

  /** Both queues take everything this turn offers them. */
  predicate Takes<S>(d: Dsp<S>, bytes: nat) {
    && 0 < bytes && |d.cap| + bytes <= CAPACITY
    && |d.out| + BLOCK * ((|d.cap| + bytes) / BLOCK) <= CAPACITY
  }

  predicate TakesAll<S>(v: Voice<S>, s: S, bufs: seq<seq<byte>>) {
    |bufs| == 0 ||
    var first := bufs[..|bufs| - 1];
    TakesAll(v, s, first) && Takes(After(v, s, first).dsp, |bufs[|bufs| - 1]|)
  }

  /** What one accepted turn does to the two queues. */
  lemma PassTakes<S>(v: Voice<S>, d: Dsp<S>, buf: seq<byte>)
    requires Takes(d, |buf|)
    ensures var n := (|d.cap| + |buf|) / BLOCK;
            var (t, made) := Processed(v, d.voice, d.cap + buf, n);
            var p := Pass(v, d, buf);
            && p.dsp.cap == (d.cap + buf)[BLOCK * n..] && p.dsp.voice == t
            && p.short == (|d.out + made| < |buf|)
            && (if p.short then p.dsp.out == d.out + made else p.buf + p.dsp.out == d.out + made && |p.buf| == |buf|)
  {
    hide Processed;
    ProcessAppends(v, d.(cap := d.cap + buf), (|d.cap| + |buf|) / BLOCK);
  }

  /** The order of the sound is kept: in a run where the queues take everything, with turns of any sizes, what was
      delivered so far followed by what waits in the output queue is the processed form of all whole blocks heard,
      and the input queue holds the incomplete rest. Nothing is lost, repeated or reordered. */
  lemma {:induction false} StreamOrder<S>(v: Voice<S>, s: S, bufs: seq<seq<byte>>)
    requires TakesAll(v, s, bufs)
    ensures InOrder(v, s, Heard(bufs), After(v, s, bufs))
  {
    hide Pass, Processed, Takes, InOrder;
    if |bufs| == 0 {
      NothingHeard(v, s);
    } else {
      var first, buf := bufs[..|bufs| - 1], bufs[|bufs| - 1];
      StreamOrder(v, s, first);
      StreamStep(v, s, After(v, s, first), Heard(first), buf);
    }
  }

  /** The library has seen all whole blocks of the sound, its output is delivered or waits, and the rest of the
      sound waits in the input queue. */
  ghost predicate InOrder<S>(v: Voice<S>, s: S, sound: seq<byte>, r: Run<S>) {
    var n := |sound| / BLOCK;
    && r.dsp.cap == sound[BLOCK * n..]
    && Processed(v, s, sound, n) == (r.dsp.voice, r.delivered + r.dsp.out)
  }

  lemma NothingHeard<S>(v: Voice<S>, s: S)
    ensures InOrder(v, s, [], Run(Dsp([], [], s), [], 0))
  {
    var none: seq<byte> := [];
    assert none[0..] == none == none + none;
  }

  function Turned<S>(r: Run<S>, p: Passed<S>): Run<S> {
    if p.short then Run(p.dsp, r.delivered, r.shorts + 1) else Run(p.dsp, r.delivered + p.buf, r.shorts)
  }

  lemma StreamStep<S>(v: Voice<S>, s: S, r: Run<S>, sound: seq<byte>, buf: seq<byte>)
    requires Takes(r.dsp, |buf|) && InOrder(v, s, sound, r)
    ensures InOrder(v, s, sound + buf, Turned(r, Pass(v, r.dsp, buf)))
  {
    hide Pass, Processed, Takes;
    var n, m := |sound| / BLOCK, (|r.dsp.cap| + |buf|) / BLOCK;
    BlocksAdd(|sound|, |buf|, n, m);
    StreamStepAt(v, s, r, sound, buf, n, m);
  }

  /** Blocks are counted from the front: those already taken, and those the rest makes with the new sound. */
  lemma BlocksAdd(a: nat, b: nat, n: nat, m: nat)
    requires n == a / BLOCK && m == (a - BLOCK * n + b) / BLOCK
    ensures (a + b) / BLOCK == n + m && BLOCK * (n + m) <= a + b
  {
  }

  lemma RestOfRest(sound: seq<byte>, buf: seq<byte>, n: nat, m: nat)
    requires BLOCK * n <= |sound| && BLOCK * (n + m) <= |sound + buf|
    ensures (sound + buf)[BLOCK * n..] == sound[BLOCK * n..] + buf
    ensures (sound + buf)[BLOCK * (n + m)..] == (sound[BLOCK * n..] + buf)[BLOCK * m..]
  {
  }

  lemma StreamStepAt<S>(v: Voice<S>, s: S, r: Run<S>, sound: seq<byte>, buf: seq<byte>, n: nat, m: nat)
    requires Takes(r.dsp, |buf|) && BLOCK * n <= |sound| && m == (|r.dsp.cap| + |buf|) / BLOCK
    requires r.dsp.cap == sound[BLOCK * n..]
    requires Processed(v, s, sound, n) == (r.dsp.voice, r.delivered + r.dsp.out)
    ensures BLOCK * (n + m) <= |sound + buf|
    ensures var p := Pass(v, r.dsp, buf);
            && p.dsp.cap == (sound + buf)[BLOCK * (n + m)..]
            && Processed(v, s, sound + buf, n + m) ==
               (p.dsp.voice, (if p.short then r.delivered else r.delivered + p.buf) + p.dsp.out)
  {
    hide Pass, Processed, Takes;
    assert BLOCK * m <= |r.dsp.cap + buf|;
    RestOfRest(sound, buf, n, m);
    ProcessedOn(v, s, r, sound, buf, n, m);
    PassTakes(v, r.dsp, buf);
    DeliveredOn(v, r, buf, m);
  }

  /** The blocks the new sound completes are processed after the ones before. */
  lemma ProcessedOn<S>(v: Voice<S>, s: S, r: Run<S>, sound: seq<byte>, buf: seq<byte>, n: nat, m: nat)
    requires BLOCK * n <= |sound| && r.dsp.cap == sound[BLOCK * n..] && BLOCK * m <= |r.dsp.cap + buf|
    requires Processed(v, s, sound, n) == (r.dsp.voice, r.delivered + r.dsp.out)
    ensures BLOCK * (n + m) <= |sound + buf|
    ensures var (t, made) := Processed(v, r.dsp.voice, r.dsp.cap + buf, m);
            Processed(v, s, sound + buf, n + m) == (t, r.delivered + r.dsp.out + made)
  {
    hide Processed;
    RestOfRest(sound, buf, n, m);
    ProcessedPrefix(v, s, sound, buf, n);
    ProcessedSplit(v, s, sound + buf, n, m);
  }

  lemma DeliveredOn<S>(v: Voice<S>, r: Run<S>, buf: seq<byte>, m: nat)
    requires Takes(r.dsp, |buf|) && m == (|r.dsp.cap| + |buf|) / BLOCK
    ensures var p := Pass(v, r.dsp, buf);
            r.delivered + r.dsp.out + Processed(v, r.dsp.voice, r.dsp.cap + buf, m).1 ==
            (if p.short then r.delivered else r.delivered + p.buf) + p.dsp.out
  {
    hide Pass, Processed, Takes;
    PassTakes(v, r.dsp, buf);
    Joined(r.delivered, r.dsp.out, Processed(v, r.dsp.voice, r.dsp.cap + buf, m).1);
    Joined(r.delivered, Pass(v, r.dsp, buf).buf, Pass(v, r.dsp, buf).dsp.out);
  }

  lemma Joined(a: seq<byte>, b: seq<byte>, c: seq<byte>)
    ensures (a + b) + c == a + (b + c)
  {
  }

  // ---- which channel is which ----

  /** A library that hands back its first input, the microphone, as it is. */
  function Microphone<S>(s: S, input: Channel, reference: Channel): (S, Channel) {
    (s, input)
  }

  /** One that hands back its second input, the reference of the echo canceller. */
  function Reference<S>(s: S, input: Channel, reference: Channel): (S, Channel) {
    (s, reference)
  }

  /** Bytes a and b as the sample of frame j on both sides. */
  predicate Plays(block: seq<byte>, j: nat, a: byte, b: byte) {
    4 * j + 4 <= |block| && block[4 * j..4 * j + 4] == [a, b, a, b]
  }

  lemma StereoPlays(c: Channel, j: nat)
    requires j < 320
    ensures Plays(Stereo(c), j, c[j].low, c[j].high)
  {
    StereoAt(c, j);
  }

  /** What one block becomes: the microphone is the right sample of each frame, the reference the left one. */
  lemma BlockChannels<S>(s: S, block: seq<byte>, j: nat)
    requires |block| == BLOCK && j < 320
    ensures Plays(Apply(Microphone<S>, s, block).1, j, block[4 * j + 2], block[4 * j + 3])
    ensures Plays(Apply(Reference<S>, s, block).1, j, block[4 * j], block[4 * j + 1])
  {
    hide Stereo, Plays;
    StereoPlays(Right(block), j);
    StereoPlays(Left(block), j);
  }

  lemma PlaysLater(made: seq<byte>, o: seq<byte>, n: nat, j: nat, a: byte, b: byte)
    requires |made| == BLOCK * n && j >= 320 * n && Plays(o, j - 320 * n, a, b)
    ensures Plays(made + o, j, a, b)
  {
    assert 4 * j - BLOCK * n == 4 * (j - 320 * n);
    assert (made + o)[4 * j..4 * j + 4] == o[4 * (j - 320 * n)..4 * (j - 320 * n) + 4];
  }

  lemma PlaysStill(made: seq<byte>, o: seq<byte>, j: nat, a: byte, b: byte)
    requires Plays(made, j, a, b)
    ensures Plays(made + o, j, a, b)
  {
    assert (made + o)[4 * j..4 * j + 4] == made[4 * j..4 * j + 4];
  }

  /** Over a whole sound, on bytes: a library that returns its microphone input gives back the right sample of every
      frame twice, one that returns its reference the left sample twice. */
  lemma {:induction false} SoundChannels<S>(s: S, sound: seq<byte>, n: nat, j: nat)
    requires BLOCK * n <= |sound| && j < 320 * n
    ensures Plays(Processed(Microphone<S>, s, sound, n).1, j, sound[4 * j + 2], sound[4 * j + 3])
    ensures Plays(Processed(Reference<S>, s, sound, n).1, j, sound[4 * j], sound[4 * j + 1])
  {
    hide Apply, Plays;
    var (t, made) := Processed(Microphone<S>, s, sound, n - 1);
    var (u, copied) := Processed(Reference<S>, s, sound, n - 1);
    var block := Block(sound, n - 1);
    var o, r := Apply(Microphone<S>, t, block).1, Apply(Reference<S>, u, block).1;
    if j < 320 * (n - 1) {
      SoundChannels(s, sound, n - 1, j);
      PlaysStill(made, o, j, sound[4 * j + 2], sound[4 * j + 3]);
      PlaysStill(copied, r, j, sound[4 * j], sound[4 * j + 1]);
    } else {
      var k := j - 320 * (n - 1);
      BlockAt(sound, n - 1, 4 * k);
      BlockChannels(t, block, k);
      BlockChannels(u, block, k);
      PlaysLater(made, o, n - 1, j, block[4 * k + 2], block[4 * k + 3]);
      PlaysLater(copied, r, n - 1, j, block[4 * k], block[4 * k + 1]);
    }
  }

  /** And so in what is delivered: frame j of the delivered bytes is frame j of the sound heard, its right sample twice
      or its left one. */
  lemma DeliveredChannels<S>(s: S, bufs: seq<seq<byte>>, j: nat)
    ensures TakesAll(Microphone<S>, s, bufs) && 4 * j + 4 <= |After(Microphone<S>, s, bufs).delivered| ==>
            && 4 * j + 4 <= |Heard(bufs)|
            && Plays(After(Microphone<S>, s, bufs).delivered, j, Heard(bufs)[4 * j + 2], Heard(bufs)[4 * j + 3])
    ensures TakesAll(Reference<S>, s, bufs) && 4 * j + 4 <= |After(Reference<S>, s, bufs).delivered| ==>
            && 4 * j + 4 <= |Heard(bufs)|
            && Plays(After(Reference<S>, s, bufs).delivered, j, Heard(bufs)[4 * j], Heard(bufs)[4 * j + 1])
  {
    hide After, Heard, Processed, TakesAll;
    var sound := Heard(bufs);
    var n := |sound| / BLOCK;
    if TakesAll(Microphone<S>, s, bufs) && 4 * j + 4 <= |After(Microphone<S>, s, bufs).delivered| {
      StreamOrder(Microphone<S>, s, bufs);
      SoundChannels(s, sound, n, j);
      PlaysFirst(After(Microphone<S>, s, bufs).delivered, After(Microphone<S>, s, bufs).dsp.out, j,
                 sound[4 * j + 2], sound[4 * j + 3]);
    }
    if TakesAll(Reference<S>, s, bufs) && 4 * j + 4 <= |After(Reference<S>, s, bufs).delivered| {
      StreamOrder(Reference<S>, s, bufs);
      SoundChannels(s, sound, n, j);
      PlaysFirst(After(Reference<S>, s, bufs).delivered, After(Reference<S>, s, bufs).dsp.out, j,
                 sound[4 * j], sound[4 * j + 1]);
    }
  }

  lemma PlaysFirst(a: seq<byte>, b: seq<byte>, j: nat, x: byte, y: byte)
    requires 4 * j + 4 <= |a| && Plays(a + b, j, x, y)
    ensures Plays(a, j, x, y)
  {
    assert (a + b)[4 * j..4 * j + 4] == a[4 * j..4 * j + 4];
  }

  // ---- calls in a run ----

  /** The buffers a call hands to its turns: a read fills the front of the caller's buffer, and the turn takes the rest
      of the request from that front whatever the read gave. */
  function Offers<S>(v: Voice<S>, d: Dsp<S>, buf: seq<byte>, remain: nat, frames: nat,
      outcomes: seq<Read>): seq<seq<byte>>
    requires |buf| == FRAME * frames && remain <= frames && Readable(remain, outcomes)
    decreases |outcomes|
  {
    if outcomes == [] || !outcomes[0].Got? then []
    else
      var filled := outcomes[0].sound + buf[|outcomes[0].sound|..];
      var offer := filled[..FRAME * remain];
      var p := Pass(v, d, offer);
      var rest := remain - |outcomes[0].sound| / FRAME;
      [offer] +
      if rest == 0 then []
      else Offers(v, p.dsp, p.buf + filled[FRAME * remain..], rest, frames, outcomes[1..])
  }

  /** The sounds a call reads. */
  function Sounds(remain: nat, outcomes: seq<Read>): seq<seq<byte>>
    requires Readable(remain, outcomes)
    decreases |outcomes|
  {
    if outcomes == [] || !outcomes[0].Got? then []
    else
      var rest := remain - |outcomes[0].sound| / FRAME;
      [outcomes[0].sound] + if rest == 0 then [] else Sounds(rest, outcomes[1..])
  }

  /** The input queue has no room for what this turn offers. */
  predicate Refused<S>(d: Dsp<S>, buf: seq<byte>) {
    |d.cap| + |buf| > CAPACITY
  }

  /** The part of what a turn offers that the input queue takes. */
  function Taken<S>(d: Dsp<S>, buf: seq<byte>): seq<byte> {
    if Refused(d, buf) then [] else buf
  }

  /** What the input queue took in a run. */
  function Queued<S>(v: Voice<S>, s: S, bufs: seq<seq<byte>>): seq<byte> {
    if |bufs| == 0 then []
    else
      var first, buf := bufs[..|bufs| - 1], bufs[|bufs| - 1];
      Queued(v, s, first) + Taken(After(v, s, first).dsp, buf)
  }

  lemma AfterOne<S>(v: Voice<S>, s: S, past: seq<seq<byte>>, buf: seq<byte>)
    ensures After(v, s, past + [buf]) == Turned(After(v, s, past), Pass(v, After(v, s, past).dsp, buf))
  {
    hide Pass, Turned;
    assert (past + [buf])[..|past|] == past;
  }

  lemma QueuedOne<S>(v: Voice<S>, s: S, past: seq<seq<byte>>, buf: seq<byte>)
    ensures Queued(v, s, past + [buf]) == Queued(v, s, past) + Taken(After(v, s, past).dsp, buf)
  {
    hide After, Taken;
    assert (past + [buf])[..|past|] == past;
  }

  lemma {:induction false} HeardCons(buf: seq<byte>, bufs: seq<seq<byte>>)
    ensures Heard([buf] + bufs) == buf + Heard(bufs)
  {
    if |bufs| == 0 {
      assert ([buf] + bufs)[..0] == [] && [buf] + bufs == [buf];
    } else {
      HeardCons(buf, bufs[..|bufs| - 1]);
      assert ([buf] + bufs)[..|bufs|] == [buf] + bufs[..|bufs| - 1];
    }
  }

  /** A call goes on with the run: it leads to the state its turns lead to. So all that holds in every run of turns
      holds of the turns of any calls. */
  lemma {:induction false} CallIsRun<S>(
    v: Voice<S>, s: S, past: seq<seq<byte>>, buf: seq<byte>, remain: nat, frames: nat, outcomes: seq<Read>)
    requires |buf| == FRAME * frames && remain <= frames && Readable(remain, outcomes)
    ensures var d := After(v, s, past).dsp;
            Turns(v, d, buf, remain, frames, outcomes).dsp ==
            After(v, s, past + Offers(v, d, buf, remain, frames, outcomes)).dsp
    decreases |outcomes|
  {
    hide Pass, After, Turns, Offers;
    var d := After(v, s, past).dsp;
    TurnsStep(v, d, buf, remain, frames, outcomes);
    OffersStep(v, d, buf, remain, frames, outcomes);
    if outcomes == [] || !outcomes[0].Got? {
      assert past + [] == past;
    } else {
      var sound := outcomes[0].sound;
      var filled := sound + buf[|sound|..];
      var offer := filled[..FRAME * remain];
      var given := Pass(v, d, offer).buf + filled[FRAME * remain..];
      var rest := remain - |sound| / FRAME;
      AfterOne(v, s, past, offer);
      if rest > 0 {
        CallIsRun(v, s, past + [offer], given, rest, frames, outcomes[1..]);
        var later := Offers(v, Pass(v, d, offer).dsp, given, rest, frames, outcomes[1..]);
        assert past + [offer] + later == past + ([offer] + later);
      }
    }
  }

  lemma OffersStep<S>(v: Voice<S>, d: Dsp<S>, buf: seq<byte>, remain: nat, frames: nat, outcomes: seq<Read>)
    requires |buf| == FRAME * frames && remain <= frames && Readable(remain, outcomes)
    ensures var offers := Offers(v, d, buf, remain, frames, outcomes);
            if outcomes == [] || !outcomes[0].Got? then offers == []
            else
              var filled := outcomes[0].sound + buf[|outcomes[0].sound|..];
              var offer := filled[..FRAME * remain];
              var p := Pass(v, d, offer);
              var rest := remain - |outcomes[0].sound| / FRAME;
              if rest == 0 then offers == [offer]
              else offers == [offer] + Offers(v, p.dsp, p.buf + filled[FRAME * remain..], rest, frames, outcomes[1..])
  {
    hide Pass;
  }

  /** Of the turns that follow a run, none is refused by the input queue. */
  predicate Accepted<S>(v: Voice<S>, s: S, past: seq<seq<byte>>, bufs: seq<seq<byte>>)
    decreases |bufs|
  {
    |bufs| == 0 || (!Refused(After(v, s, past).dsp, bufs[0]) && Accepted(v, s, past + [bufs[0]], bufs[1..]))
  }

  lemma {:induction false} ProcessVoice<S>(v: Voice<S>, d: Dsp<S>, n: nat)
    requires BLOCK * n <= |d.cap|
    ensures Process(v, d, n).voice == Processed(v, d.voice, d.cap, n).0
  {
    hide Apply;
    if n > 0 {
      ProcessVoice(v, d, n - 1);
    }
  }

  /** Whatever the queues refused: the library has seen exactly the whole blocks of what the input queue took, in order,
      and the queue holds the incomplete rest. */
  lemma {:induction false} LibrarySeesQueued<S>(v: Voice<S>, s: S, bufs: seq<seq<byte>>)
    ensures var q := Queued(v, s, bufs);
            var n := |q| / BLOCK;
            && After(v, s, bufs).dsp.cap == q[BLOCK * n..]
            && After(v, s, bufs).dsp.voice == Processed(v, s, q, n).0
  {
    hide Pass, Processed, Taken;
    if |bufs| == 0 {
      NothingHeard(v, s);
    } else {
      hide After, Queued;
      var first, buf := bufs[..|bufs| - 1], bufs[|bufs| - 1];
      LibrarySeesQueued(v, s, first);
      assert bufs == first + [buf];
      AfterOne(v, s, first, buf);
      QueuedOne(v, s, first, buf);
      var q := Queued(v, s, first);
      SeenOn(v, s, After(v, s, first).dsp, q, |q| / BLOCK, buf);
    }
  }

  lemma PassSees<S>(v: Voice<S>, d: Dsp<S>, buf: seq<byte>)
    ensures var c := d.cap + Taken(d, buf);
            var m := |c| / BLOCK;
            Pass(v, d, buf).dsp.cap == c[BLOCK * m..] && Pass(v, d, buf).dsp.voice == Processed(v, d.voice, c, m).0
  {
    hide Processed, Process;
    var c := d.cap + Taken(d, buf);
    assert Enqueue(d.cap, buf) == c;
    ProcessVoice(v, d.(cap := c), |c| / BLOCK);
  }

  lemma SeenOn<S>(v: Voice<S>, s: S, d: Dsp<S>, q: seq<byte>, n: nat, buf: seq<byte>)
    requires n == |q| / BLOCK && d.cap == q[BLOCK * n..] && d.voice == Processed(v, s, q, n).0
    ensures var q' := q + Taken(d, buf);
            var p := Pass(v, d, buf);
            p.dsp.cap == q'[BLOCK * (|q'| / BLOCK)..] && p.dsp.voice == Processed(v, s, q', |q'| / BLOCK).0
  {
    hide Processed, Pass, Taken;
    var taken := Taken(d, buf);
    var m := (|d.cap| + |taken|) / BLOCK;
    PassSees(v, d, buf);
    BlocksAdd(|q|, |taken|, n, m);
    RestOfRest(q, taken, n, m);
    ProcessedPrefix(v, s, q, taken, n);
    ProcessedSplit(v, s, q + taken, n, m);
  }

  /** What is offered and not refused is queued. */
  lemma {:induction false} AcceptedIsQueued<S>(v: Voice<S>, s: S, past: seq<seq<byte>>, bufs: seq<seq<byte>>)
    requires Accepted(v, s, past, bufs)
    ensures Queued(v, s, past + bufs) == Queued(v, s, past) + Heard(bufs)
    decreases |bufs|
  {
    hide After, Queued;
    if |bufs| == 0 {
      assert past + bufs == past;
    } else {
      QueuedOne(v, s, past, bufs[0]);
      AcceptedIsQueued(v, s, past + [bufs[0]], bufs[1..]);
      HeardCons(bufs[0], bufs[1..]);
      assert past + [bufs[0]] + bufs[1..] == past + bufs && [bufs[0]] + bufs[1..] == bufs;
      Joined(Queued(v, s, past), bufs[0], Heard(bufs[1..]));
    }
  }

  /** A call gives nothing to its first turn, or everything. */
  predicate NoneOrFull(frames: nat, outcomes: seq<Read>) {
    outcomes == [] || !outcomes[0].Got? || |outcomes[0].sound| == FRAME * frames
  }

  /** A call offers at least as much as it reads, and more after a short first read. */
  lemma {:induction false} OffersExceedReads<S>(
    v: Voice<S>, d: Dsp<S>, buf: seq<byte>, remain: nat, frames: nat, outcomes: seq<Read>)
    requires |buf| == FRAME * frames && remain <= frames && Readable(remain, outcomes)
    ensures var offers, sounds := Offers(v, d, buf, remain, frames, outcomes), Sounds(remain, outcomes);
            && |Heard(offers)| >= |Heard(sounds)|
            && (!NoneOrFull(remain, outcomes) ==> |Heard(offers)| > |Heard(sounds)|)
    decreases |outcomes|
  {
    hide Pass, Heard;
    if outcomes != [] && outcomes[0].Got? {
      var sound := outcomes[0].sound;
      var filled := sound + buf[|sound|..];
      var offer := filled[..FRAME * remain];
      var p := Pass(v, d, offer);
      var given := p.buf + filled[FRAME * remain..];
      var rest := remain - |sound| / FRAME;
      var later := if rest == 0 then [] else Offers(v, p.dsp, given, rest, frames, outcomes[1..]);
      var heard := if rest == 0 then [] else Sounds(rest, outcomes[1..]);
      HeardCons(offer, later);
      HeardCons(sound, heard);
      if rest > 0 {
        OffersExceedReads(v, p.dsp, given, rest, frames, outcomes[1..]);
      }
    }
  }

  /** What the first turn of a call queues behind the sound it read are the bytes that stood in the caller's buffer. */
  lemma FirstOffer<S>(v: Voice<S>, d: Dsp<S>, buf: seq<byte>, frames: nat, outcomes: seq<Read>)
    requires |buf| == FRAME * frames && Readable(frames, outcomes) && outcomes != [] && outcomes[0].Got?
    ensures var sound, offers := outcomes[0].sound, Offers(v, d, buf, frames, frames, outcomes);
            && |offers| > 0 && offers[0] == sound + buf[|sound|..]
            && (|sound| == FRAME * frames ==> offers == [sound] && Sounds(frames, outcomes) == [sound])
  {
    hide Pass;
    var sound := outcomes[0].sound;
    var filled := sound + buf[|sound|..];
    assert filled[..FRAME * frames] == filled;
    assert |sound| == FRAME * frames ==> filled == sound;
  }

  /** When a call queues what it reads: no turn of it is refused and the sound read is all that enters the input queue,
      if and only if it reads nothing, or its first read is full and there is room for it. */
  lemma QueuesWhatItReadsExactly<S>(
    v: Voice<S>, s: S, past: seq<seq<byte>>, buf: seq<byte>, frames: nat, outcomes: seq<Read>)
    requires |buf| == FRAME * frames && Readable(frames, outcomes)
    ensures var d := After(v, s, past).dsp;
            var offers := Offers(v, d, buf, frames, frames, outcomes);
            && Accepted(v, s, past, offers)
            && Queued(v, s, past + offers) == Queued(v, s, past) + Heard(Sounds(frames, outcomes))
            <==>
            NoneOrFull(frames, outcomes) &&
              (outcomes != [] && outcomes[0].Got? ==> |d.cap| + FRAME * frames <= CAPACITY)
  {
    hide Pass, After, Queued, Heard, Processed;
    var d := After(v, s, past).dsp;
    var offers := Offers(v, d, buf, frames, frames, outcomes);
    if Accepted(v, s, past, offers) {
      AcceptedIsQueued(v, s, past, offers);
    }
    OffersExceedReads(v, d, buf, frames, frames, outcomes);
    if outcomes != [] && outcomes[0].Got? {
      FirstOffer(v, d, buf, frames, outcomes);
    }
  }

  predicate AtMost(bufs: seq<seq<byte>>, bytes: nat)
    decreases |bufs|
  {
    |bufs| == 0 || (|bufs[0]| <= bytes && AtMost(bufs[1..], bytes))
  }

  lemma {:induction false} AtMostGrows(bufs: seq<seq<byte>>, bytes: nat, more: nat)
    requires AtMost(bufs, bytes) && bytes <= more
    ensures AtMost(bufs, more)
    decreases |bufs|
  {
    if |bufs| > 0 {
      AtMostGrows(bufs[1..], bytes, more);
    }
  }

  lemma {:induction false} SmallAccepted<S>(v: Voice<S>, s: S, past: seq<seq<byte>>, bufs: seq<seq<byte>>, bytes: nat)
    requires AtMost(bufs, bytes) && bytes + BLOCK - 1 <= CAPACITY
    ensures Accepted(v, s, past, bufs)
    decreases |bufs|
  {
    hide After, Processed, Queued;
    if |bufs| > 0 {
      LibrarySeesQueued(v, s, past);
      SmallAccepted(v, s, past + [bufs[0]], bufs[1..], bytes);
    }
  }

  lemma {:induction false} OfferSizes<S>(
    v: Voice<S>, d: Dsp<S>, buf: seq<byte>, remain: nat, frames: nat, outcomes: seq<Read>)
    requires |buf| == FRAME * frames && remain <= frames && Readable(remain, outcomes)
    ensures var offers := Offers(v, d, buf, remain, frames, outcomes);
            AtMost(offers, FRAME * remain) && (|offers| > 0 && remain > 0 ==> |offers[0]| > 0)
    decreases |outcomes|
  {
    hide Pass;
    if outcomes != [] && outcomes[0].Got? {
      var sound := outcomes[0].sound;
      var filled := sound + buf[|sound|..];
      var p := Pass(v, d, filled[..FRAME * remain]);
      var rest := remain - |sound| / FRAME;
      if rest > 0 {
        OfferSizes(v, p.dsp, p.buf + filled[FRAME * remain..], rest, frames, outcomes[1..]);
        var later := Offers(v, p.dsp, p.buf + filled[FRAME * remain..], rest, frames, outcomes[1..]);
        assert ([filled[..FRAME * remain]] + later)[1..] == later;
        AtMostGrows(later, FRAME * rest, FRAME * remain);
      }
    }
  }

  /** A request of at most 11009 bytes is never refused, so the reads alone decide: after a short first read the call
      queues bytes it did not read. */
  lemma ShortReadsExactly<S>(
    v: Voice<S>, s: S, past: seq<seq<byte>>, buf: seq<byte>, frames: nat, outcomes: seq<Read>)
    requires |buf| == FRAME * frames && Readable(frames, outcomes) && FRAME * frames + BLOCK - 1 <= CAPACITY
    ensures var offers := Offers(v, After(v, s, past).dsp, buf, frames, frames, outcomes);
            Queued(v, s, past + offers) == Queued(v, s, past) + Heard(Sounds(frames, outcomes)) <==>
            NoneOrFull(frames, outcomes)
  {
    hide After, Queued, Heard, Processed, Pass;
    var d := After(v, s, past).dsp;
    var offers := Offers(v, d, buf, frames, frames, outcomes);
    OfferSizes(v, d, buf, frames, frames, outcomes);
    SmallAccepted(v, s, past, offers, FRAME * frames);
    QueuesWhatItReadsExactly(v, s, past, buf, frames, outcomes);
    LibrarySeesQueued(v, s, past);
  }

  /** A request for two frames that the device serves one frame at a time: the call reports both frames read, four bytes
      that were never read are queued between them, and the first frame is gone from the caller's buffer. */
  lemma StaleBytesQueued<S>(v: Voice<S>, s: S)
    ensures var outcomes := [Got([1, 2, 3, 4]), Got([5, 6, 7, 8])];
            && Readable(2, outcomes)
            && var r := Turns(v, Dsp([], [], s), [9, 9, 9, 9, 9, 9, 9, 9], 2, 2, outcomes);
               && r.ret == 2
               && r.dsp.cap == [1, 2, 3, 4, 9, 9, 9, 9, 5, 6, 7, 8]
               && r.buf == [5, 6, 7, 8, 9, 9, 9, 9]
  {
    hide Turns;
    var buf: seq<byte> := [9, 9, 9, 9, 9, 9, 9, 9];
    var later := [Got([5, 6, 7, 8])];
    assert later[1..] == [] && [Got([1, 2, 3, 4]), Got([5, 6, 7, 8])][1..] == later;
    var one: seq<byte> := [1, 2, 3, 4, 9, 9, 9, 9];
    SmallTurn(v, Dsp([], [], s), buf, [1, 2, 3, 4], one, 2, 2, later);
    assert [] + one[..8] == one;
    var two: seq<byte> := [5, 6, 7, 8, 9, 9, 9, 9];
    assert later + [] == later;
    SmallTurn(v, Dsp(one, [], s), one, [5, 6, 7, 8], two, 1, 2, []);
    assert one + two[..4] == [1, 2, 3, 4, 9, 9, 9, 9, 5, 6, 7, 8];
    assert [Got([1, 2, 3, 4])] + later == [Got([1, 2, 3, 4]), Got([5, 6, 7, 8])];
  }

  /** A turn of a call that completes no block and finds nothing to deliver only queues. */
  lemma SmallTurn<S>(
    v: Voice<S>, d: Dsp<S>, buf: seq<byte>, sound: seq<byte>, filled: seq<byte>, remain: nat, frames: nat,
    later: seq<Read>)
    requires |buf| == FRAME * frames && 0 < remain <= frames && Readable(remain, [Got(sound)] + later)
    requires filled == sound + buf[|sound|..] && d.out == [] && |d.cap| + FRAME * remain < BLOCK
    ensures var d' := Dsp(d.cap + filled[..FRAME * remain], [], d.voice);
            var rest := remain - |sound| / FRAME;
            && Readable(rest, later)
            && Turns(v, d, buf, remain, frames, [Got(sound)] + later) ==
               if rest == 0 then Done(d', filled, frames) else Turns(v, d', filled, rest, frames, later)
  {
    hide Pass;
    var offer := filled[..FRAME * remain];
    assert ([Got(sound)] + later)[1..] == later;
    SmallPass(v, d, offer);
    assert offer + filled[FRAME * remain..] == filled;
  }

  /** A turn that completes no block and finds nothing to deliver only queues. */
  lemma SmallPass<S>(v: Voice<S>, d: Dsp<S>, buf: seq<byte>)
    requires d.out == [] && 0 < |buf| && |d.cap| + |buf| < BLOCK
    ensures Pass(v, d, buf) == Passed(Dsp(d.cap + buf, [], d.voice), buf, true)
  {
    assert (d.cap + buf)[0..] == d.cap + buf;
  }

  // ---- what a call leaves in the caller's buffer ----

  /** Turns that are not short deliver as much as they are offered. */
  lemma {:induction false} DeliveredLength<S>(v: Voice<S>, s: S, past: seq<seq<byte>>, bufs: seq<seq<byte>>)
    ensures var r, before := After(v, s, past + bufs), After(v, s, past);
            && r.shorts >= before.shorts
            && (r.shorts == before.shorts ==> |r.delivered| == |before.delivered| + |Heard(bufs)|)
  {
    hide Pass;
    if |bufs| == 0 {
      assert past + bufs == past;
    } else {
      var first, buf := bufs[..|bufs| - 1], bufs[|bufs| - 1];
      DeliveredLength(v, s, past, first);
      assert past + bufs == past + first + [buf];
      AfterOne(v, s, past + first, buf);
    }
  }

  /** A call makes one turn: it reads everything at once, or the device gives no more after its first read. */
  predicate OneTurn(frames: nat, outcomes: seq<Read>) {
    outcomes != [] && outcomes[0].Got? &&
    (|outcomes[0].sound| == FRAME * frames || |outcomes| == 1 || !outcomes[1].Got?)
  }

  lemma OneTurnOneOffer<S>(v: Voice<S>, d: Dsp<S>, buf: seq<byte>, frames: nat, outcomes: seq<Read>)
    requires |buf| == FRAME * frames && Readable(frames, outcomes) && 0 < frames
    ensures var offers := Offers(v, d, buf, frames, frames, outcomes);
            && (OneTurn(frames, outcomes) <==> |offers| == 1)
            && (|offers| == 1 ==> Turns(v, d, buf, frames, frames, outcomes).buf == Pass(v, d, offers[0]).buf)
            && (|offers| > 1 ==> |Heard(offers)| > |buf|)
  {
    hide Pass, Heard;
    if outcomes != [] && outcomes[0].Got? {
      var sound := outcomes[0].sound;
      var filled := sound + buf[|sound|..];
      var p := Pass(v, d, filled[..FRAME * frames]);
      var rest := frames - |sound| / FRAME;
      assert filled[..FRAME * frames] == filled && filled[FRAME * frames..] == [] && p.buf + [] == p.buf;
      var later := if rest == 0 then [] else Offers(v, p.dsp, p.buf + [], rest, frames, outcomes[1..]);
      assert rest > 0 && |outcomes| > 1 ==> outcomes[1..][0] == outcomes[1];
      HeardCons(filled, later);
      if |later| > 0 {
        OfferSizes(v, p.dsp, p.buf + [], rest, frames, outcomes[1..]);
        HeardCons(later[0], later[1..]);
        assert [later[0]] + later[1..] == later;
      }
    }
  }

  /** When the caller's buffer holds the stream: no turn of the call comes up short and the buffer holds exactly what
      they delivered, if and only if there is one turn and it is not short. A second turn delivers to the front again.
      */
  lemma BufferHoldsDeliveredExactly<S>(
    v: Voice<S>, s: S, past: seq<seq<byte>>, buf: seq<byte>, frames: nat, outcomes: seq<Read>)
    requires |buf| == FRAME * frames && Readable(frames, outcomes) && 0 < frames
    ensures var d := After(v, s, past).dsp;
            var offers := Offers(v, d, buf, frames, frames, outcomes);
            var r, before := After(v, s, past + offers), After(v, s, past);
            && r.shorts == before.shorts
            && r.delivered == before.delivered + Turns(v, d, buf, frames, frames, outcomes).buf
            <==>
            OneTurn(frames, outcomes) && !Pass(v, d, offers[0]).short
  {
    hide Pass, After, Heard, Offers, Turns, OneTurn;
    var d := After(v, s, past).dsp;
    var offers := Offers(v, d, buf, frames, frames, outcomes);
    DeliveredLength(v, s, past, offers);
    OneTurnOneOffer(v, d, buf, frames, outcomes);
    TurnsKeepLength(v, d, buf, frames, frames, outcomes);
    if |offers| == 1 {
      AfterOne(v, s, past, offers[0]);
      assert offers == [offers[0]];
    } else if |offers| == 0 {
      assert past + offers == past;
    }
  }

  lemma {:induction false} TurnsKeepLength<S>(
    v: Voice<S>, d: Dsp<S>, buf: seq<byte>, remain: nat, frames: nat, outcomes: seq<Read>)
    requires |buf| == FRAME * frames && remain <= frames && Readable(remain, outcomes)
    ensures |Turns(v, d, buf, remain, frames, outcomes).buf| == |buf|
    decreases |outcomes|
  {
    hide Pass;
    if outcomes != [] && outcomes[0].Got? && remain > |outcomes[0].sound| / FRAME {
      var sound := outcomes[0].sound;
      var filled := sound + buf[|sound|..];
      var p := Pass(v, d, filled[..FRAME * remain]);
      TurnsKeepLength(v, p.dsp, p.buf + filled[FRAME * remain..], remain - |sound| / FRAME, frames, outcomes[1..]);
    }
  }

  // ---- requests of one size ----

  predicate Uniform(bufs: seq<seq<byte>>, bytes: nat) {
    forall i :: 0 <= i < |bufs| ==> |bufs[i]| == bytes
  }

  /** Conservation: what waits in the two queues is what the short turns held back, which is less than one request
      and one block; the first turn is short exactly when a request is not a whole number of blocks. */
  lemma {:induction false} Backlog<S>(v: Voice<S>, s: S, bufs: seq<seq<byte>>, bytes: nat)
    requires 0 < bytes && Uniform(bufs, bytes) && TakesAll(v, s, bufs)
    ensures var r := After(v, s, bufs);
            && |r.dsp.cap| < BLOCK
            && |r.dsp.cap| + |r.dsp.out| == r.shorts * bytes <= bytes + BLOCK - 2
            && |r.delivered| == (|bufs| - r.shorts) * bytes
            && (bytes % BLOCK == 0 ==> r.shorts == 0 && r.dsp.cap == [])
            && (bytes % BLOCK != 0 && |bufs| > 0 ==> r.shorts > 0)
  {
    hide Pass, Processed, Takes;
    if |bufs| > 0 {
      var first, buf := bufs[..|bufs| - 1], bufs[|bufs| - 1];
      Backlog(v, s, first, bytes);
      var r := After(v, s, first);
      PassTakes(v, r.dsp, buf);
      TimesNext(r.shorts, bytes);
      TimesNext(|first| - r.shorts, bytes);
      if |first| == 0 {
        assert r == Run(Dsp([], [], s), [], 0);
      }
    }
  }

  lemma TimesNext(n: int, b: int)
    ensures (n + 1) * b == n * b + b
  {
  }

  /** The requests that are served for ever: at most half the queue, or whole blocks that fit the queue. */
  predicate Fits(bytes: nat) {
    bytes <= 6144 || (bytes % BLOCK == 0 && bytes <= CAPACITY)
  }

  lemma {:induction false} FitsIsEnough<S>(v: Voice<S>, s: S, bufs: seq<seq<byte>>, bytes: nat)
    requires 0 < bytes && Uniform(bufs, bytes) && Fits(bytes)
    ensures TakesAll(v, s, bufs)
  {
    hide Pass, Processed;
    if |bufs| > 0 {
      var first := bufs[..|bufs| - 1];
      FitsIsEnough(v, s, first, bytes);
      Backlog(v, s, first, bytes);
      var r := After(v, s, first);
      AtMostOne(r.shorts, bytes);
    }
  }

  lemma QuotientBound(a: int, b: nat, c: nat)
    requires b > 0 && a * b <= c
    ensures a <= c / b
  {
    var q := c / b;
    assert c < (q + 1) * b;
    if a > q {
      Grows(q + 1, a, b);
    }
  }

  lemma Grows(a: int, b: int, c: nat)
    requires a <= b
    ensures a * c <= b * c
  {
  }

  lemma AtMostOne(n: nat, b: nat)
    requires b > 0 && n * b <= b + BLOCK - 2
    ensures n <= 1 + (BLOCK - 2) / b
    ensures b >= BLOCK ==> n <= 1 && (n == 0 || n * b == b)
  {
    TimesNext(n - 1, b);
    QuotientBound(n - 1, b, BLOCK - 2);
  }

  lemma HeardLength(bufs: seq<seq<byte>>, bytes: nat)
    requires Uniform(bufs, bytes)
    ensures |Heard(bufs)| == |bufs| * bytes
  {
    if |bufs| > 0 {
      HeardLength(bufs[..|bufs| - 1], bytes);
      TimesNext(|bufs| - 1, bytes);
    }
  }

  /** Any other request overruns a queue at the 1280-th turn if not before: by then a whole number of blocks was
      heard, and two requests would have to wait in the output queue at once. */
  lemma LastTurnOverruns<S>(v: Voice<S>, s: S, bufs: seq<seq<byte>>, bytes: nat)
    requires 0 < bytes && Uniform(bufs, bytes) && !Fits(bytes) && |bufs| == BLOCK - 1 && TakesAll(v, s, bufs)
    ensures !Takes(After(v, s, bufs).dsp, bytes)
  {
    hide After, TakesAll, Processed;
    var r := After(v, s, bufs);
    HeardLength(bufs, bytes);
    StreamOrder(v, s, bufs);
    Backlog(v, s, bufs, bytes);
    if bytes % BLOCK != 0 {
      Grows(1, r.shorts, bytes);
      TwoRequests(|r.dsp.cap|, |r.dsp.out|, bytes, |Heard(bufs)| / BLOCK);
    }
  }

  lemma TwoRequests(cap: nat, out: nat, bytes: nat, n: nat)
    requires cap == (BLOCK - 1) * bytes - BLOCK * n && cap + out >= bytes
    ensures out + BLOCK * ((cap + bytes) / BLOCK) >= 2 * bytes
  {
    assert cap + bytes == BLOCK * (bytes - n);
    assert (cap + bytes) / BLOCK == bytes - n;
  }

  lemma FitsIsNeeded<S>(v: Voice<S>, s: S, bufs: seq<seq<byte>>, bytes: nat)
    requires 0 < bytes && Uniform(bufs, bytes) && !Fits(bytes) && |bufs| == BLOCK
    ensures !TakesAll(v, s, bufs)
  {
    hide Fits, Takes, After;
    var first := bufs[..BLOCK - 1];
    if TakesAll(v, s, first) {
      LastTurnOverruns(v, s, first, bytes);
    }
  }

  /** Neither queue ever rejects data, whatever the sound and however long the run, if and only if the request
      fits. */
  lemma NeverRejectsExactly<S>(v: Voice<S>, s: S, bytes: nat)
    requires 0 < bytes
    ensures Fits(bytes) <==> forall bufs :: Uniform(bufs, bytes) ==> TakesAll(v, s, bufs)
  {
    hide TakesAll, Fits;
    if Fits(bytes) {
      forall bufs | Uniform(bufs, bytes)
        ensures TakesAll(v, s, bufs)
      {
        FitsIsEnough(v, s, bufs, bytes);
      }
    } else {
      var bufs := seq(BLOCK, _ => seq(bytes, _ => 0));
      assert Uniform(bufs, bytes);
      FitsIsNeeded(v, s, bufs, bytes);
    }
  }

  /** A memcpy that moves the last size - n of size bytes down by n: its source and target have a byte in common. */
  predicate Overlaps(n: nat, size: nat)
    requires n <= size
  {
    n < size - n
  }

  /** A turn moves the rest of both queues to the front, and neither move overlaps itself. */
  predicate MovesApart<S>(v: Voice<S>, d: Dsp<S>, buf: seq<byte>) {
    var c := Enqueue(d.cap, buf);
    var p := Process(v, d.(cap := c), |c| / BLOCK);
    && !Overlaps(BLOCK * (|c| / BLOCK), |c|)
    && (|p.out| >= |buf| ==> !Overlaps(|buf|, |p.out|))
  }

  predicate AllMovesApart<S>(v: Voice<S>, s: S, bufs: seq<seq<byte>>) {
    |bufs| == 0 ||
    var first := bufs[..|bufs| - 1];
    AllMovesApart(v, s, first) && MovesApart(v, After(v, s, first).dsp, bufs[|bufs| - 1])
  }

  lemma {:induction false} LargeMovesApart<S>(v: Voice<S>, s: S, bufs: seq<seq<byte>>, bytes: nat)
    requires BLOCK <= bytes && Uniform(bufs, bytes) && TakesAll(v, s, bufs)
    ensures AllMovesApart(v, s, bufs)
  {
    hide Pass, Processed, MovesApart;
    if |bufs| > 0 {
      var first := bufs[..|bufs| - 1];
      LargeMovesApart(v, s, first, bytes);
      Backlog(v, s, bufs, bytes);
      AtMostOne(After(v, s, bufs).shorts, bytes);
      MoveApart(v, After(v, s, first).dsp, bufs[|bufs| - 1]);
    }
  }

  /** The input queue's move does not overlap when a block was completed, the output queue's when at most as much stays
      as was delivered. */
  lemma MoveApart<S>(v: Voice<S>, d: Dsp<S>, buf: seq<byte>)
    requires Takes(d, |buf|) && BLOCK <= |buf| && |Pass(v, d, buf).dsp.out| <= |buf|
    ensures MovesApart(v, d, buf)
  {
    hide Process;
  }

  lemma FirstMoveOverlaps<S>(v: Voice<S>, s: S, buf: seq<byte>)
    requires 0 < |buf| < BLOCK
    ensures TakesAll(v, s, [buf]) && !AllMovesApart(v, s, [buf])
  {
    hide Pass, MovesApart;
    var none: seq<seq<byte>> := [];
    assert [buf][..0] == none && |[buf]| == 1 && [buf][0] == buf;
    assert After(v, s, none) == Run(Dsp([], [], s), [], 0);
    assert TakesAll(v, s, none);
    ShortTurnOverlaps(v, s, buf);
  }

  lemma ShortTurnOverlaps<S>(v: Voice<S>, s: S, buf: seq<byte>)
    requires 0 < |buf| < BLOCK
    ensures !MovesApart(v, Dsp([], [], s), buf)
  {
    assert Enqueue([], buf) == buf && |buf| / BLOCK == 0;
  }

  /** The copies inside the queues never overlap themselves, in any run in which the queues take everything, if and only
      if a request is at least one block. */
  lemma MovesApartExactly<S>(v: Voice<S>, s: S, bytes: nat)
    requires 0 < bytes
    ensures BLOCK <= bytes <==>
            forall bufs :: Uniform(bufs, bytes) && TakesAll(v, s, bufs) ==> AllMovesApart(v, s, bufs)
  {
    hide TakesAll, AllMovesApart, After;
    if BLOCK <= bytes {
      forall bufs | Uniform(bufs, bytes) && TakesAll(v, s, bufs)
        ensures AllMovesApart(v, s, bufs)
      {
        LargeMovesApart(v, s, bufs, bytes);
      }
    } else {
      var buf: seq<byte> := seq(bytes, _ => 0);
      FirstMoveOverlaps(v, s, buf);
      assert Uniform([buf], bytes);
    }
  }

  /** Requests between one block and half the queue: at most the first turn comes up short, every other one delivers
      the next bytes of the processed sound, and less than a block of input and at most one request of sound wait. */
  lemma FixedRequest<S>(v: Voice<S>, s: S, bufs: seq<seq<byte>>, bytes: nat)
    requires BLOCK <= bytes && 2 * bytes <= CAPACITY && Uniform(bufs, bytes) && |bufs| > 0
    ensures var r := After(v, s, bufs);
            var sound := Heard(bufs);
            var made := Processed(v, s, sound, |sound| / BLOCK).1;
            && TakesAll(v, s, bufs)
            && r.shorts == (if bytes % BLOCK == 0 then 0 else 1)
            && |r.dsp.cap| < BLOCK && |r.dsp.cap| + |r.dsp.out| == r.shorts * bytes
            && |r.delivered| == (|bufs| - r.shorts) * bytes <= |made|
            && r.delivered == made[..|r.delivered|]
  {
    hide After, Processed, TakesAll;
    FitsIsEnough(v, s, bufs, bytes);
    Backlog(v, s, bufs, bytes);
    AtMostOne(After(v, s, bufs).shorts, bytes);
    StreamOrder(v, s, bufs);
  }

  /** Smaller requests are served too, after at most 1 + 1278 / bytes short turns. */
  lemma SmallRequest<S>(v: Voice<S>, s: S, bufs: seq<seq<byte>>, bytes: nat)
    requires 0 < bytes < BLOCK && Uniform(bufs, bytes)
    ensures var r := After(v, s, bufs);
            && TakesAll(v, s, bufs) && r.shorts <= 1 + (BLOCK - 2) / bytes
            && |r.dsp.cap| + |r.dsp.out| == r.shorts * bytes <= bytes + BLOCK - 2
  {
    hide After, TakesAll;
    FitsIsEnough(v, s, bufs, bytes);
    Backlog(v, s, bufs, bytes);
    AtMostOne(After(v, s, bufs).shorts, bytes);
  }
}

/** Client threads and the encoder thread as a step system: every critical section of
    encode_handler.cpp and message_queue.h is one action, and any enabled action may run next. */
module EncoderProtocol {
  import opened EncoderModel
  import opened MessageQueues

  datatype MessageId =
    | START_ENCODE | STOP_ENCODE | START_CACHE | STOP_CACHE | START_RECODEFILE | STOP_RECODEFILE
    | START_SAVE_CACHE | STOP_SAVE_CACHE | ATTACH_USER_MUXER | DETACH_USER_MUXER
    | RECORD_RATE_CHANGE | GEN_IDR_FRAME

  /** What a start call asks for and the matching stop call gives back. */
  datatype Kind = Encode | Cache | Record | SaveCache | User(muxer: nat)

  /** A queued command; a synchronous one carries the client whose mutex and condition it notifies. */
  datatype Payload = Payload(cmd: Command<nat>, sender: Option<nat>)
  type Msg = Message<MessageId, Payload>

  function IdOf(cmd: Command<nat>): MessageId {
    match cmd
    case StartEncode => START_ENCODE
    case StopEncode => STOP_ENCODE
    case StartCache => START_CACHE
    case StopCache => STOP_CACHE
    case StartRecord => START_RECODEFILE
    case StopRecord => STOP_RECODEFILE
    case SwitchRecord => STOP_RECODEFILE
    case StartSaveCache => START_SAVE_CACHE
    case StopSaveCache => STOP_SAVE_CACHE
    case AttachMuxer(_, _, _) => ATTACH_USER_MUXER
    case DetachMuxer(_) => DETACH_USER_MUXER
    case RateChange(_) => RECORD_RATE_CHANGE
    case GenIdr => GEN_IDR_FRAME
  }

  function StartCmd(k: Kind, video: bool, audio: bool): Command<nat> {
    match k
    case Encode => StartEncode
    case Cache => StartCache
    case Record => StartRecord
    case SaveCache => StartSaveCache
    case User(m) => AttachMuxer(m, video, audio)
  }

  function StopCmd(k: Kind): Command<nat> {
    match k
    case Encode => StopEncode
    case Cache => StopCache
    case Record => StopRecord
    case SaveCache => StopSaveCache
    case User(m) => DetachMuxer(m)
  }

  function Started(cmd: Command<nat>): Option<Kind> {
    match cmd
    case StartEncode => Some(Encode)
    case StartCache => Some(Cache)
    case StartRecord => Some(Record)
    case StartSaveCache => Some(SaveCache)
    case AttachMuxer(m, _, _) => Some(User(m))
    case _ => None
  }

  function StartId(k: Kind): MessageId {
    IdOf(StartCmd(k, false, false))
  }

  /** Where a client is: in no call, or at one of the points of a stop call. */
  datatype Pc =
    | Idle
    | Checking(k: Kind)  // about to pull queued starts out of the queue
    | Locking(k: Kind)   // about to lock its own mutex
    | Pushing(k: Kind)   // holds the mutex, about to push the stop message
    | PreWait(k: Kind)   // holds the mutex, message pushed, about to wait
    | Waiting(k: Kind)   // asleep on its condition, mutex released
    | Waking(k: Kind)    // notified, about to take the mutex back and return

  datatype Owner = Free | ByClient | ByEncoder

  /** Where the encoder thread is. */
  datatype Worker =
    | Ready
    | Taken(m: Msg)        // popped, not handled yet
    | Notifying(c: nat)    // handled, about to lock the sender's mutex
    | Signalling(c: nat)   // holds it, about to notify
    | Releasing(c: nat)    // notified, about to unlock

  /** What became of the start a client has not stopped yet. */
  datatype Fate =
    | InQueue
    | InHandler      // taken by the encoder thread, not handled yet
    | Opened
    | Failed         // the handler gave up
    | Pulled         // another client's stop pulled it out of the queue

  datatype State = State(
    queue: seq<Msg>,
    pc: map<nat, Pc>,
    mutex: map<nat, Owner>,
    worker: Worker,
    h: Handler<nat>,
    on: map<Kind, nat>,  // kinds whose start call returned and whose stop call has not, with the caller
    fate: map<Kind, Fate>,  // of the starts of those kinds
    mixed: set<Kind>,    // kinds called out of turn: started while on, or stopped by a client without them on
    unpaired: bool,      // an unpaired command was handled
    stray: set<nat>      // muxers whose detach returned after cancelling, their attach handled or in the handler
  )

  datatype Action =
    | Start(c: nat, k: Kind, video: bool, audio: bool)
    | Tell(c: nat, cmd: Command<nat>)
    | Stop(c: nat, k: Kind)
    | Check(c: nat) | Lock(c: nat) | Push(c: nat) | Sleep(c: nat) | Return(c: nat)
    | Take | Do(o: Outcome) | Grab | Signal | Release
    | Frame(o: Outcome)  // the end-of-frame restart of the file muxer
    | AudioExit          // the audio loop clears audio_enable on its way out

  predicate IsTell(cmd: Command<nat>) {
    cmd.SwitchRecord? || cmd.RateChange? || cmd.GenIdr?
  }

  predicate Enabled(s: State, a: Action) {
    match a
    case Start(c, _, _, _) => c in s.pc && s.pc[c].Idle?
    case Tell(c, cmd) => c in s.pc && s.pc[c].Idle? && IsTell(cmd)
    case Stop(c, _) => c in s.pc && s.pc[c].Idle?
    case Check(c) => c in s.pc && s.pc[c].Checking?
    case Lock(c) => c in s.pc && c in s.mutex && s.pc[c].Locking? && s.mutex[c].Free?
    case Push(c) => c in s.pc && s.pc[c].Pushing?
    case Sleep(c) => c in s.pc && s.pc[c].PreWait?
    case Return(c) => c in s.pc && c in s.mutex && s.pc[c].Waking? && s.mutex[c].Free?
    case Take => s.worker.Ready? && s.queue != []
    case Do(_) => s.worker.Taken?
    case Grab => s.worker.Notifying? && s.worker.c in s.mutex && s.mutex[s.worker.c].Free?
    case Signal => s.worker.Signalling?
    case Release => s.worker.Releasing?
    case Frame(_) => s.worker.Ready?
    case AudioExit => true
  }

  function Post(cmd: Command<nat>, sender: Option<nat>): Msg {
    Message(IdOf(cmd), Payload(cmd, sender))
  }

  predicate Open(h: Handler<nat>, k: Kind) {
    match k
    case Encode => h.encodes > 0
    case Cache => h.cache
    case Record => h.file
    case SaveCache => false
    case User(m) => m in h.muxers && h.muxers[m].attached
  }

  /** The handler of a start reports success. */
  predicate Opens(h: Handler<nat>, cmd: Command<nat>, o: Outcome) {
    match cmd
    case StartEncode => BothRef(h.enc, o).1
    case StartCache => MuxerAlloc(h.enc, o).1
    case StartRecord => MuxerAlloc(h.enc, o).1
    case AttachMuxer(_, _, _) => o.initUri && o.startJob
    case _ => false
  }

  function FateTaken(fate: map<Kind, Fate>, cmd: Command<nat>): map<Kind, Fate> {
    var k := Started(cmd);
    if k.Some? && k.value in fate then fate[k.value := InHandler] else fate
  }

  function FateHandled(fate: map<Kind, Fate>, cmd: Command<nat>, success: bool): map<Kind, Fate> {
    var k := Started(cmd);
    if k.Some? && k.value in fate && fate[k.value].InHandler? then fate[k.value := if success then Opened else Failed]
    else fate
  }

  /** A stop of k pulls the queued starts with the id of k's. */
  function FatePulled(fate: map<Kind, Fate>, k: Kind): map<Kind, Fate> {
    map j | j in fate && j != k :: if StartId(j) == StartId(k) && fate[j].InQueue? then Pulled else fate[j]
  }

  /** A cancel of k strays when k's own start had left the queue without failing. */
  predicate Strays(s: State, k: Kind) {
    k.User? && k in s.fate && (s.fate[k].InHandler? || s.fate[k].Opened?)
  }

  predicate StartTaken(s: State, k: Kind) {
    s.worker.Taken? && Started(s.worker.m.body.cmd) == Some(k)
  }

  function Step(s: State, a: Action): State
    requires Enabled(s, a)
  {
    match a
    case Start(c, k, video, audio) =>
      s.(queue := s.queue + [Post(StartCmd(k, video, audio), None)], on := s.on[k := c], fate := s.fate[k := InQueue],
         mixed := if k in s.on then s.mixed + {k} else s.mixed)
    case Tell(c, cmd) => s.(queue := s.queue + [Post(cmd, None)])
    case Stop(c, k) =>
      s.(pc := s.pc[c := Checking(k)], mixed := if k in s.on && s.on[k] == c then s.mixed else s.mixed + {k})
    case Check(c) =>
      var k := s.pc[c].k;
      if OfId(s.queue, StartId(k)) != [] then
        s.(queue := Without(s.queue, StartId(k)), pc := s.pc[c := Idle], on := s.on - {k},
           fate := FatePulled(s.fate, k), stray := if Strays(s, k) then s.stray + {k.muxer} else s.stray)
      else s.(pc := s.pc[c := Locking(k)])
    case Lock(c) => s.(mutex := s.mutex[c := ByClient], pc := s.pc[c := Pushing(s.pc[c].k)])
    case Push(c) =>
      s.(queue := s.queue + [Post(StopCmd(s.pc[c].k), Some(c))], pc := s.pc[c := PreWait(s.pc[c].k)])
    case Sleep(c) => s.(mutex := s.mutex[c := Free], pc := s.pc[c := Waiting(s.pc[c].k)])
    case Return(c) => s.(pc := s.pc[c := Idle], on := s.on - {s.pc[c].k}, fate := s.fate - {s.pc[c].k})
    case Take =>
      s.(queue := s.queue[1..], worker := Taken(s.queue[0]), fate := FateTaken(s.fate, s.queue[0].body.cmd))
    case Do(o) =>
      var p := s.worker.m.body;
      s.(h := Handle(s.h, p.cmd, o), unpaired := s.unpaired || Unpaired(s.h, p.cmd, o),
         fate := FateHandled(s.fate, p.cmd, Opens(s.h, p.cmd, o)),
         worker := if p.sender.Some? then Notifying(p.sender.value) else Ready)
    case Grab => s.(mutex := s.mutex[s.worker.c := ByEncoder], worker := Signalling(s.worker.c))
    case Signal =>
      var c := s.worker.c;
      s.(pc := if c in s.pc && s.pc[c].Waiting? then s.pc[c := Waking(s.pc[c].k)] else s.pc, worker := Releasing(c))
    case Release => s.(mutex := s.mutex[s.worker.c := Free], worker := Ready)
    case Frame(o) => s.(h := RestartFile(s.h, o), unpaired := s.unpaired || (s.h.file && !o.initUri))
    case AudioExit => s.(h := s.h.(enc := s.h.enc.(audioEnable := false)))
  }

  // ---- counting queued messages ----

  datatype Tag = StartOf(k: Kind) | SyncOf(c: nat)

  predicate Tagged(m: Msg, t: Tag) {
    match t
    case StartOf(k) => Started(m.body.cmd) == Some(k)
    case SyncOf(c) => m.body.sender == Some(c)
  }

  function Count(q: seq<Msg>, t: Tag): nat {
    if q == [] then 0 else (if Tagged(q[0], t) then 1 else 0) + Count(q[1..], t)
  }

  lemma {:induction false} CountAppend(q: seq<Msg>, m: Msg, t: Tag)
    ensures Count(q + [m], t) == Count(q, t) + One(Tagged(m, t))
  {
    if q == [] {
      assert q + [m] == [m];
    } else {
      assert (q + [m])[1..] == q[1..] + [m];
      CountAppend(q[1..], m, t);
    }
  }

  lemma {:induction false} CountPositive(q: seq<Msg>, t: Tag, m: Msg)
    requires m in q && Tagged(m, t)
    ensures Count(q, t) > 0
  {
    if q[0] != m {
      CountPositive(q[1..], t, m);
    }
  }

  /** Every queued message names its own id; only stop messages have a sender. */
  ghost predicate Sane(m: Msg) {
    && m.id == IdOf(m.body.cmd)
    && (m.body.sender.Some? ==> exists k :: m.body.cmd == StopCmd(k))
    && (m.body.sender.None? ==> IsTell(m.body.cmd) || Started(m.body.cmd).Some?)
  }

  lemma StartIds(cmd: Command<nat>, k: Kind)
    ensures IdOf(cmd) == StartId(k) <==> Started(cmd).Some? && StartId(Started(cmd).value) == StartId(k)
    ensures Started(cmd) == Some(k) ==> IdOf(cmd) == StartId(k)
    ensures !k.User? && IdOf(cmd) == StartId(k) ==> Started(cmd) == Some(k)
    ensures IdOf(cmd) == StartId(k) ==> forall j :: cmd != StopCmd(j)
  {
  }

  /** Pulling the starts of one kind out leaves every synchronous message, and the starts of other ids. */
  lemma {:induction false} CountWithout(q: seq<Msg>, k: Kind, t: Tag)
    requires forall m | m in q :: Sane(m)
    ensures Count(Without(q, StartId(k)), t) ==
            if t.StartOf? && StartId(t.k) == StartId(k) then 0 else Count(q, t)
  {
    if q != [] {
      CountWithout(q[1..], k, t);
      var rest := Without(q[1..], StartId(k));
      assert ([q[0]] + rest)[1..] == rest && [] + rest == rest;
      assert Sane(q[0]);
      StartIds(q[0].body.cmd, k);
      match t {
        case StartOf(j) => StartIds(q[0].body.cmd, j);
        case SyncOf(c) => assert q[0].id == StartId(k) ==> q[0].body.sender.None?;
      }
    }
  }

  lemma {:induction false} PulledStarts(q: seq<Msg>, k: Kind)
    requires forall m | m in q :: Sane(m)
    ensures OfId(q, StartId(k)) == [] ==> Count(q, StartOf(k)) == 0
    ensures !k.User? && OfId(q, StartId(k)) != [] ==> Count(q, StartOf(k)) > 0
    ensures forall m | m in Without(q, StartId(k)) :: m in q
  {
    if q != [] {
      PulledStarts(q[1..], k);
      assert Sane(q[0]);
      StartIds(q[0].body.cmd, k);
    }
  }

  // ---- the invariant ----

  predicate InStop(pc: Pc) {
    pc.Locking? || pc.Pushing? || pc.PreWait? || pc.Waiting? || pc.Waking?
  }

  predicate Expecting(pc: Pc) {
    pc.PreWait? || pc.Waiting?
  }

  /** The encoder thread has taken c's message and not notified c yet. */
  predicate Serving(w: Worker, c: nat) {
    match w
    case Ready => false
    case Taken(m) => m.body.sender == Some(c)
    case Notifying(d) => d == c
    case Signalling(d) => d == c
    case Releasing(_) => false
  }

  /** The stop message of c was handled. */
  predicate Served(s: State, c: nat) {
    c in s.pc && (s.pc[c].Waking? || s.worker == Notifying(c) || s.worker == Signalling(c))
  }

  ghost predicate ClientInv(s: State, c: nat) {
    && c in s.pc && c in s.mutex
    && (s.mutex[c].ByClient? <==> s.pc[c].Pushing? || s.pc[c].PreWait?)
    && (s.mutex[c].ByEncoder? <==> s.worker == Signalling(c) || s.worker == Releasing(c))
    && Count(s.queue, SyncOf(c)) + One(Serving(s.worker, c)) == One(Expecting(s.pc[c]))
    && (s.worker == Releasing(c) ==> s.pc[c].Waking?)
    && (!s.pc[c].Idle? && s.pc[c].k !in s.mixed ==> s.pc[c].k in s.on && s.on[s.pc[c].k] == c)
  }

  /** A message the encoder will answer is its sender's current stop. */
  ghost predicate AnswerInv(s: State, m: Msg) {
    && Sane(m)
    && (m.body.sender.Some? ==>
          var c := m.body.sender.value;
          c in s.pc && Expecting(s.pc[c]) && m.body.cmd == StopCmd(s.pc[c].k))
  }

  /** Kept for every kind called in turn: nothing of it is queued while nobody has it on or while its holder waits in a
      stop, and once that stop was handled it is closed. */
  ghost predicate StopInv(s: State, k: Kind) {
    var n := Count(s.queue, StartOf(k));
    && (k !in s.on ==> n == 0)
    && (k in s.on && s.on[k] in s.pc && InStop(s.pc[s.on[k]]) && s.pc[s.on[k]].k == k ==>
          && n == 0
          && (Served(s, s.on[k]) ==> !StartTaken(s, k) && !Open(s.h, k)))
  }

  /** Kept for a clean kind: at most one start is under way, and only for a holder; while
      it is, and while nobody has the kind on, it is closed; and the recorded fate is true. */
  ghost predicate KindInv(s: State, k: Kind) {
    var n := Count(s.queue, StartOf(k));
    && n + One(StartTaken(s, k)) <= One(k in s.on)
    && (n + One(StartTaken(s, k)) > 0 ==> !Open(s.h, k))
    && (k !in s.on ==> !Open(s.h, k))
    && (k in s.on && k in s.fate ==>
          && (s.fate[k].InQueue? <==> n > 0)
          && (s.fate[k].InHandler? <==> StartTaken(s, k))
          && (s.fate[k].Failed? || s.fate[k].Pulled? ==> !Open(s.h, k))
          && (k.User? && s.fate[k].Opened? ==>
                Open(s.h, k) || (s.on[k] in s.pc && InStop(s.pc[s.on[k]]) && s.pc[s.on[k]].k == k)))
  }

  /** Its calls came in turn, and no cancel strayed from it. */
  predicate Clean(s: State, k: Kind) {
    k !in s.mixed && (k.User? ==> k.muxer !in s.stray)
  }

  ghost predicate Clients(s: State) {
    && s.pc.Keys == s.mutex.Keys
    && (s.worker.Notifying? || s.worker.Signalling? || s.worker.Releasing? ==> s.worker.c in s.pc)
    && (forall k {:trigger s.on[k]} | k in s.on :: s.on[k] in s.pc)
    && (forall c {:trigger ClientInv(s, c)} | c in s.pc :: ClientInv(s, c))
  }

  ghost predicate Answers(s: State) {
    && (s.worker.Taken? ==> AnswerInv(s, s.worker.m))
    && (forall m {:trigger AnswerInv(s, m)} | m in s.queue :: AnswerInv(s, m))
  }

  ghost predicate Stops(s: State) {
    forall k: Kind | k !in s.mixed :: StopInv(s, k)
  }

  ghost predicate Kinds(s: State) {
    && (Encode !in s.mixed ==> s.h.encodes <= 1)
    && s.fate.Keys == s.on.Keys
    && (forall k: Kind | Clean(s, k) :: KindInv(s, k))
  }

  ghost predicate Encoders(s: State) {
    WellFormed(s.h) && (!s.unpaired ==> Balanced(s.h))
  }

  ghost predicate Inv(s: State) {
    Clients(s) && Answers(s) && Stops(s) && Kinds(s) && Encoders(s)
  }

  ghost predicate Init(s: State) {
    && s.queue == [] && s.worker == Ready && s.on == map[] && s.fate == map[]
    && s.mixed == {} && !s.unpaired && s.stray == {}
    && s.pc.Keys == s.mutex.Keys
    && (forall c | c in s.pc :: s.pc[c].Idle? && s.mutex[c].Free?)
    && s.h == Fresh(s.h.enc.capture)
  }

  lemma InitInv(s: State)
    requires Init(s)
    ensures Inv(s)
  {
    assert Users(s.h.muxers, false) == {} && Users(s.h.muxers, true) == {};
  }

  // ---- every action keeps the invariant ----

  /** Queueing one more message. */
  lemma AppendClients(s: State, m: Msg, s': State)
    requires Clients(s)
    requires s' == s.(queue := s.queue + [m], on := s'.on, fate := s'.fate, pc := s'.pc, mixed := s'.mixed)
    requires s'.pc.Keys == s.pc.Keys
    requires forall k | k in s'.on :: s'.on[k] in s.pc
    requires forall c | c in s.pc ::
             s'.pc[c] == s.pc[c] ||
             (m.body.sender == Some(c) && s.pc[c].Pushing? && s'.pc[c] == PreWait(s.pc[c].k))
    requires forall c | c in s.pc && m.body.sender == Some(c) :: s'.pc[c] != s.pc[c]
    requires s.mixed <= s'.mixed && forall k | k in s.on && k !in s'.mixed :: k in s'.on && s'.on[k] == s.on[k]
    ensures Clients(s')
  {
    hide Open, Handle, Opens, Unpaired, FateTaken, FateHandled, FatePulled, Strays, RestartFile;
    forall c | c in s'.pc ensures ClientInv(s', c) {
      assert ClientInv(s, c);
      CountAppend(s.queue, m, SyncOf(c));
    }
  }

  lemma CallClients(s: State, a: Action)
    requires Clients(s) && Enabled(s, a) && (a.Start? || a.Tell? || a.Push?)
    ensures Clients(Step(s, a))
  {
    hide Open, Handle, Opens, Unpaired, FateTaken, FateHandled, FatePulled, Strays, RestartFile, ClientInv;
    AppendClients(s, Called(s, a), Step(s, a));
  }

  lemma QueueSane(s: State)
    requires Answers(s)
    ensures forall m | m in s.queue :: Sane(m)
  {
    assert forall m | m in s.queue :: AnswerInv(s, m);
  }

  lemma CancelClients(s: State, c: nat, k: Kind, s': State)
    requires Clients(s) && c in s.pc && s.pc[c] == Checking(k)
    requires s' == s.(queue := s'.queue, pc := s.pc[c := Idle], on := s.on - {k}, fate := s'.fate, stray := s'.stray)
    requires forall d :: Count(s'.queue, SyncOf(d)) == Count(s.queue, SyncOf(d))
    ensures Clients(s')
  {
    hide Open, Handle, Opens, Unpaired, FateTaken, FateHandled, FatePulled, Strays, RestartFile;
    assert ClientInv(s, c);
    forall d | d in s.pc ensures ClientInv(s', d) {
      assert ClientInv(s, d);
    }
  }

  lemma CheckClients(s: State, c: nat)
    requires Clients(s) && Answers(s) && Enabled(s, Check(c))
    ensures Clients(Step(s, Check(c)))
  {
    hide Open, Handle, Opens, Unpaired, FateTaken, FateHandled, FatePulled, Strays, RestartFile;
    var s' := Step(s, Check(c));
    var k := s.pc[c].k;
    if OfId(s.queue, StartId(k)) != [] {
      forall d ensures Count(s'.queue, SyncOf(d)) == Count(s.queue, SyncOf(d)) {
        QueueSane(s);
        CountWithout(s.queue, k, SyncOf(d));
      }
      CancelClients(s, c, k, s');
    } else {
      assert ClientInv(s, c);
      forall d | d in s.pc ensures ClientInv(s', d) {
        assert ClientInv(s, d);
      }
    }
  }

  /** Stop, Lock, Sleep and Return move one client and leave queue, handler and worker alone. */
  predicate Moves(a: Action, c: nat) {
    a == Lock(c) || a == Sleep(c) || a == Return(c) || (a.Stop? && a.c == c)
  }

  /** Nothing changed for client d. */
  lemma OtherClient(s: State, s': State, d: nat)
    requires ClientInv(s, d) && d in s'.pc && d in s'.mutex && s'.pc[d] == s.pc[d] && s'.mutex[d] == s.mutex[d]
    requires Count(s'.queue, SyncOf(d)) == Count(s.queue, SyncOf(d)) && Serving(s'.worker, d) == Serving(s.worker, d)
    requires (s'.worker == Signalling(d) <==> s.worker == Signalling(d)) &&
             (s'.worker == Releasing(d) <==> s.worker == Releasing(d))
    requires s.mixed <= s'.mixed
    requires !s.pc[d].Idle? && s.pc[d].k !in s'.mixed ==> s.pc[d].k in s'.on && s'.on[s.pc[d].k] == d
    ensures ClientInv(s', d)
  {
  }

  lemma EnterClients(s: State, a: Action, c: nat)
    requires Clients(s) && Enabled(s, a) && Moves(a, c) && (a.Stop? || a.Lock?)
    ensures Clients(Step(s, a))
  {
    hide Open, Handle, Opens, Unpaired, FateTaken, FateHandled, FatePulled, Strays, RestartFile;
    var s' := Step(s, a);
    forall d | d in s.pc ensures ClientInv(s', d) {
      assert ClientInv(s, d);
      if d != c {
        OtherClient(s, s', d);
      }
    }
  }

  lemma SleepClients(s: State, c: nat)
    requires Clients(s) && Enabled(s, Sleep(c))
    ensures Clients(Step(s, Sleep(c)))
  {
    hide Open, Handle, Opens, Unpaired, FateTaken, FateHandled, FatePulled, Strays, RestartFile;
    var s' := Step(s, Sleep(c));
    forall d | d in s.pc ensures ClientInv(s', d) {
      assert ClientInv(s, d);
      if d != c {
        OtherClient(s, s', d);
      }
    }
  }

  lemma ReturnClients(s: State, c: nat)
    requires Clients(s) && Enabled(s, Return(c))
    ensures Clients(Step(s, Return(c)))
  {
    hide Open, Handle, Opens, Unpaired, FateTaken, FateHandled, FatePulled, Strays, RestartFile;
    var s' := Step(s, Return(c));
    assert ClientInv(s, c);
    forall d | d in s.pc ensures ClientInv(s', d) {
      assert ClientInv(s, d);
      if d != c {
        OtherClient(s, s', d);
      }
    }
  }

  /** The encoder thread's own actions. */
  predicate Works(a: Action) {
    a.Take? || a.Do? || a.Grab? || a.Signal? || a.Release? || a.Frame? || a.AudioExit?
  }

  lemma WorkClients(s: State, a: Action)
    requires Clients(s) && Answers(s) && Enabled(s, a) && Works(a)
    ensures Clients(Step(s, a))
  {
    hide Open, Handle, Opens, Unpaired, FateTaken, FateHandled, FatePulled, Strays, RestartFile;
    if a.Take? || a.Do? {
      HandleClients(s, a);
    } else if a.Frame? || a.AudioExit? {
      var s' := Step(s, a);
      forall d | d in s.pc ensures ClientInv(s', d) {
        assert ClientInv(s, d);
      }
    } else if a.Signal? {
      SignalClients(s);
    } else if a.Grab? {
      LockedClients(s, s.worker.c, Step(s, a));
    } else {
      UnlockedClients(s, s.worker.c, Step(s, a));
    }
  }

  lemma HandleClients(s: State, a: Action)
    requires Clients(s) && Answers(s) && Enabled(s, a) && (a.Take? || a.Do?)
    ensures Clients(Step(s, a))
  {
    hide Open, Handle, Opens, Unpaired, FateTaken, FateHandled, FatePulled, Strays, RestartFile;
    var s' := Step(s, a);
    forall d | d in s.pc ensures ClientInv(s', d) {
      assert ClientInv(s, d);
    }
  }

  lemma SignalClients(s: State)
    requires Clients(s) && Enabled(s, Signal)
    ensures Clients(Step(s, Signal))
  {
    hide Open, Handle, Opens, Unpaired, FateTaken, FateHandled, FatePulled, Strays, RestartFile;
    var s' := Step(s, Signal);
    forall d | d in s.pc ensures ClientInv(s', d) {
      assert ClientInv(s, d);
      if d != s.worker.c {
        OtherClient(s, s', d);
      }
    }
  }

  lemma LockedClients(s: State, c: nat, s': State)
    requires Clients(s) && s.worker == Notifying(c) && c in s.mutex && s.mutex[c].Free?
    requires s' == s.(mutex := s.mutex[c := ByEncoder], worker := Signalling(c))
    ensures Clients(s')
  {
    hide Step, Enabled, Open, Handle, Opens, Unpaired, FateTaken, FateHandled, FatePulled, Strays, RestartFile;
    forall d | d in s.pc ensures ClientInv(s', d) {
      assert ClientInv(s, d);
      if d != c {
        OtherClient(s, s', d);
      }
    }
  }

  lemma UnlockedClients(s: State, c: nat, s': State)
    requires Clients(s) && s.worker == Releasing(c)
    requires s' == s.(mutex := s.mutex[c := Free], worker := Ready)
    ensures Clients(s')
  {
    hide Step, Enabled, Open, Handle, Opens, Unpaired, FateTaken, FateHandled, FatePulled, Strays, RestartFile;
    assert c in s.pc;
    forall d | d in s.pc ensures ClientInv(s', d) {
      assert ClientInv(s, d);
      if d != c {
        OtherClient(s, s', d);
      }
    }
  }

  /** A client that expects no answer has no message under way. */
  lemma NoMessageOf(s: State, c: nat)
    requires Clients(s) && c in s.pc && !Expecting(s.pc[c])
    ensures forall m | m in s.queue :: m.body.sender != Some(c)
    ensures s.worker.Taken? ==> s.worker.m.body.sender != Some(c)
  {
    hide Open, Handle, Opens, Unpaired, FateTaken, FateHandled, FatePulled, Strays, RestartFile;
    assert ClientInv(s, c);
    forall m | m in s.queue ensures m.body.sender != Some(c) {
      if m.body.sender == Some(c) {
        CountPositive(s.queue, SyncOf(c), m);
      }
    }
  }

  lemma ClientAnswers(s: State, a: Action, c: nat)
    requires Clients(s) && Answers(s) && Enabled(s, a) && (Moves(a, c) || a == Push(c))
    ensures Answers(Step(s, a))
  {
    hide ClientInv, Count, Clients;
    var s' := Step(s, a);
    if !Expecting(s.pc[c]) {
      NoMessageOf(s, c);
    }
    forall e | e in s'.queue ensures AnswerInv(s', e) {
      assert e in s.queue ==> AnswerInv(s, e);
    }
  }

  lemma CheckAnswers(s: State, c: nat)
    requires Clients(s) && Answers(s) && Enabled(s, Check(c))
    ensures Answers(Step(s, Check(c)))
  {
    hide ClientInv, Count, Clients, Without, OfId, FatePulled, Strays;
    var s' := Step(s, Check(c));
    NoMessageOf(s, c);
    QueueSane(s);
    PulledStarts(s.queue, s.pc[c].k);
    forall e | e in s'.queue ensures AnswerInv(s', e) {
      assert e in s.queue ==> AnswerInv(s, e);
    }
  }

  lemma CallAnswers(s: State, a: Action)
    requires Clients(s) && Answers(s) && Enabled(s, a) && (a.Start? || a.Tell?)
    ensures Answers(Step(s, a))
  {
    hide Open, Handle, Opens, Unpaired, FateTaken, FateHandled, FatePulled, Strays, RestartFile;
    var s' := Step(s, a);
    CalledStarts(s, a);
    forall e | e in s'.queue ensures AnswerInv(s', e) {
      assert e in s.queue ==> AnswerInv(s, e);
    }
  }

  lemma WorkAnswers(s: State, a: Action)
    requires Clients(s) && Answers(s) && Enabled(s, a) && Works(a)
    ensures Answers(Step(s, a))
  {
    hide Open, Handle, Opens, Unpaired, FateTaken, FateHandled, FatePulled, Strays, RestartFile;
    var s' := Step(s, a);
    if a.Take? {
      assert AnswerInv(s, s.queue[0]);
    }
    if a.Signal? {
      assert ClientInv(s, s.worker.c);
      forall m | m in s.queue ensures m.body.sender != Some(s.worker.c) {
        if m.body.sender == Some(s.worker.c) {
          CountPositive(s.queue, SyncOf(s.worker.c), m);
        }
      }
    }
    forall e | e in s'.queue ensures AnswerInv(s', e) {
      assert AnswerInv(s, e);
    }
  }

  // The stop side of the kinds.

  lemma AppendStops(s: State, c: nat, m: Msg, s': State)
    requires Clients(s) && Stops(s) && s'.queue == s.queue + [m] && s'.worker == s.worker && s'.h == s.h
    requires s'.pc.Keys == s.pc.Keys
    requires forall c | c in s.pc :: s'.pc[c] == s.pc[c] || (s.pc[c].Pushing? && s'.pc[c] == PreWait(s.pc[c].k))
    requires s.mixed <= s'.mixed && (Started(m.body.cmd).None? ==> s'.on == s.on)
    requires Started(m.body.cmd).Some? ==>
               var k := Started(m.body.cmd).value;
               (k in s'.mixed || k !in s.on) && c in s.pc && s.pc[c].Idle? && s'.on == s.on[k := c]
    ensures Stops(s')
  {
    hide Open, Handle, Opens, Unpaired, FateTaken, FateHandled, FatePulled, Strays, RestartFile;
    forall j: Kind | j !in s'.mixed ensures StopInv(s', j) {
      assert StopInv(s, j);
      CountAppend(s.queue, m, StartOf(j));
    }
  }

  lemma CallStops(s: State, a: Action)
    requires Clients(s) && Stops(s) && Enabled(s, a) && (a.Start? || a.Tell? || a.Push?)
    ensures Stops(Step(s, a))
  {
    hide Clients, Stops, Open, Handle, Opens, Unpaired, FateTaken, FateHandled, FatePulled, Strays, RestartFile;
    CalledStarts(s, a);
    AppendStops(s, a.c, Called(s, a), Step(s, a));
  }

  /** The message a call queues. */
  function Called(s: State, a: Action): Msg
    requires Enabled(s, a) && (a.Start? || a.Tell? || a.Push?)
  {
    if a.Start? then Post(StartCmd(a.k, a.video, a.audio), None)
    else if a.Tell? then Post(a.cmd, None)
    else Post(StopCmd(s.pc[a.c].k), Some(a.c))
  }

  lemma CalledStarts(s: State, a: Action)
    requires Enabled(s, a) && (a.Start? || a.Tell? || a.Push?)
    ensures Started(Called(s, a).body.cmd) == if a.Start? then Some(a.k) else None
  {
  }

  lemma CancelStops(s: State, c: nat, k: Kind, s': State)
    requires Clients(s) && Stops(s) && c in s.pc && s.pc[c] == Checking(k)
    requires s' == s.(queue := s'.queue, pc := s.pc[c := Idle], on := s.on - {k}, fate := s'.fate, stray := s'.stray)
    requires forall j ::
               Count(s'.queue, StartOf(j)) == if StartId(j) == StartId(k) then 0 else Count(s.queue, StartOf(j))
    ensures Stops(s')
  {
    hide Open, Handle, Opens, Unpaired, FateTaken, FateHandled, FatePulled, Strays, RestartFile;
    assert ClientInv(s, c);
    forall j: Kind | j !in s'.mixed ensures StopInv(s', j) {
      assert StopInv(s, j);
    }
  }

  lemma LockingStops(s: State, c: nat, k: Kind, s': State)
    requires Clients(s) && Stops(s) && c in s.pc && s.pc[c] == Checking(k)
    requires s' == s.(pc := s.pc[c := Locking(k)]) && Count(s.queue, StartOf(k)) == 0
    ensures Stops(s')
  {
    hide Open, Handle, Opens, Unpaired, FateTaken, FateHandled, FatePulled, Strays, RestartFile;
    assert ClientInv(s, c);
    forall j: Kind | j !in s'.mixed ensures StopInv(s', j) {
      assert StopInv(s, j);
    }
  }

  /** What the queue looks like after a cancel. */
  lemma CheckCounts(s: State, c: nat)
    requires Answers(s) && Enabled(s, Check(c))
    ensures var k := s.pc[c].k;
            var q := Step(s, Check(c)).queue;
            if OfId(s.queue, StartId(k)) != [] then
              (forall j :: Count(q, StartOf(j)) == if StartId(j) == StartId(k) then 0 else Count(s.queue, StartOf(j)))
              && (!k.User? ==> Count(s.queue, StartOf(k)) > 0)
            else q == s.queue && Count(q, StartOf(k)) == 0
  {
    hide Open, Handle, Opens, Unpaired, FateTaken, FateHandled, RestartFile, FatePulled, Strays;
    var k := s.pc[c].k;
    QueueSane(s);
    PulledStarts(s.queue, k);
    if OfId(s.queue, StartId(k)) != [] {
      forall j
        ensures Count(Without(s.queue, StartId(k)), StartOf(j)) ==
                if StartId(j) == StartId(k) then 0 else Count(s.queue, StartOf(j))
      {
        CountWithout(s.queue, k, StartOf(j));
      }
    }
  }

  lemma CheckStops(s: State, c: nat)
    requires Clients(s) && Answers(s) && Stops(s) && Enabled(s, Check(c))
    ensures Stops(Step(s, Check(c)))
  {
    hide Open, Handle, Opens, Unpaired, FateTaken, FateHandled, FatePulled, Strays, RestartFile;
    var s' := Step(s, Check(c));
    var k := s.pc[c].k;
    CheckCounts(s, c);
    if OfId(s.queue, StartId(k)) != [] {
      CancelStops(s, c, k, s');
    } else {
      LockingStops(s, c, k, s');
    }
  }

  lemma MoveStops(s: State, a: Action, c: nat)
    requires Clients(s) && Stops(s) && Enabled(s, a) && Moves(a, c)
    ensures Stops(Step(s, a))
  {
    hide Open, Handle, Opens, Unpaired, FateTaken, FateHandled, FatePulled, Strays, RestartFile;
    var s' := Step(s, a);
    assert ClientInv(s, c);
    forall j: Kind | j !in s'.mixed ensures StopInv(s', j) {
      assert StopInv(s, j);
    }
  }

  lemma NotifyStops(s: State, a: Action)
    requires Clients(s) && Stops(s) && Enabled(s, a) && (a.Grab? || a.Signal? || a.Release?)
    ensures Stops(Step(s, a))
  {
    hide Open, Handle, Opens, Unpaired, FateTaken, FateHandled, FatePulled, Strays, RestartFile;
    var s' := Step(s, a);
    assert ClientInv(s, s.worker.c);
    forall j: Kind | j !in s'.mixed ensures StopInv(s', j) {
      assert StopInv(s, j);
    }
  }

  lemma TakeStops(s: State)
    requires Clients(s) && Stops(s) && Enabled(s, Take)
    ensures Stops(Step(s, Take))
  {
    hide Open, Handle, Opens, Unpaired, FateTaken, FateHandled, FatePulled, Strays, RestartFile;
    var s' := Step(s, Take);
    forall j: Kind | j !in s'.mixed ensures StopInv(s', j) {
      assert StopInv(s, j);
    }
  }

  lemma DoStops(s: State, o: Outcome)
    requires Clients(s) && Answers(s) && Stops(s) && (Encode !in s.mixed ==> s.h.encodes <= 1) && Enabled(s, Do(o))
    ensures Stops(Step(s, Do(o)))
  {
    hide Open, Handle, Opens, Unpaired, FateTaken, FateHandled, FatePulled, Strays, RestartFile;
    var s' := Step(s, Do(o));
    var p := s.worker.m.body;
    forall j: Kind | j !in s'.mixed ensures StopInv(s', j) {
      assert StopInv(s, j);
      OpenAfter(s.h, p.cmd, o, j);
      if j in s.on {
        assert ClientInv(s, s.on[j]);
      }
    }
  }

  lemma FrameStops(s: State, a: Action)
    requires Stops(s) && Enabled(s, a) && (a.Frame? || a.AudioExit?)
    ensures Stops(Step(s, a))
  {
    var s' := Step(s, a);
    forall j: Kind | j !in s'.mixed ensures StopInv(s', j) {
      assert StopInv(s, j);
    }
  }

  // The start side.

  lemma AppendKinds(s: State, c: nat, m: Msg, s': State)
    requires Clients(s) && Kinds(s) && s'.queue == s.queue + [m] && s'.worker == s.worker && s'.h == s.h &&
             s'.stray == s.stray
    requires s'.pc.Keys == s.pc.Keys
    requires forall c | c in s.pc :: s'.pc[c] == s.pc[c] || (s.pc[c].Pushing? && s'.pc[c] == PreWait(s.pc[c].k))
    requires s.mixed <= s'.mixed && (Started(m.body.cmd).None? ==> s'.on == s.on && s'.fate == s.fate)
    requires Started(m.body.cmd).Some? ==>
               var k := Started(m.body.cmd).value;
               && (k in s'.mixed || k !in s.on) && c in s.pc && s.pc[c].Idle?
               && s'.fate == s.fate[k := InQueue] && s'.on == s.on[k := c]
    ensures Kinds(s')
  {
    hide Open, Handle, Opens, Unpaired, FateTaken, FateHandled, FatePulled, Strays, RestartFile;
    forall j: Kind | Clean(s', j) ensures KindInv(s', j) {
      assert KindInv(s, j);
      CountAppend(s.queue, m, StartOf(j));
    }
  }

  lemma CallKinds(s: State, a: Action)
    requires Clients(s) && Kinds(s) && Enabled(s, a) && (a.Start? || a.Tell? || a.Push?)
    ensures Kinds(Step(s, a))
  {
    hide Clients, Kinds, Open, Handle, Opens, Unpaired, FateTaken, FateHandled, FatePulled, Strays, RestartFile;
    CalledStarts(s, a);
    AppendKinds(s, a.c, Called(s, a), Step(s, a));
  }

  lemma CancelKinds(s: State, c: nat, k: Kind, s': State)
    requires Clients(s) && Kinds(s) && c in s.pc && s.pc[c] == Checking(k)
    requires s' == s.(queue := s'.queue, pc := s.pc[c := Idle], on := s.on - {k}, fate := FatePulled(s.fate, k),
             stray := s'.stray)
    requires s'.stray == if Strays(s, k) then s.stray + {k.muxer} else s.stray
    requires forall j ::
               Count(s'.queue, StartOf(j)) == if StartId(j) == StartId(k) then 0 else Count(s.queue, StartOf(j))
    requires !k.User? ==> Count(s.queue, StartOf(k)) > 0
    ensures Kinds(s')
  {
    hide Open, Strays, KindInv, StartId;
    assert ClientInv(s, c);
    forall j: Kind | Clean(s', j) ensures KindInv(s', j) {
      assert Clean(s, j);
      assert KindInv(s, j);
      if j == k {
        CancelOwn(s, c, k, s');
      } else {
        CancelOther(s, c, k, s', j);
      }
    }
  }

  lemma CancelOwn(s: State, c: nat, k: Kind, s': State)
    requires c in s.pc && s.pc[c] == Checking(k) && k in s.on && s.on[k] == c && s.fate.Keys == s.on.Keys
    requires KindInv(s, k) && Clean(s', k)
    requires s' == s.(queue := s'.queue, pc := s.pc[c := Idle], on := s.on - {k}, fate := FatePulled(s.fate, k),
             stray := s'.stray)
    requires s'.stray == if Strays(s, k) then s.stray + {k.muxer} else s.stray
    requires Count(s'.queue, StartOf(k)) == 0 && (!k.User? ==> Count(s.queue, StartOf(k)) > 0)
    ensures KindInv(s', k)
  {
    hide Open, FatePulled;
  }

  lemma CancelOther(s: State, c: nat, k: Kind, s': State, j: Kind)
    requires c in s.pc && s.pc[c] == Checking(k) && j != k && s.fate.Keys == s.on.Keys && KindInv(s, j)
    requires s' == s.(queue := s'.queue, pc := s.pc[c := Idle], on := s.on - {k}, fate := FatePulled(s.fate, k),
             stray := s'.stray)
    requires Count(s'.queue, StartOf(j)) == if StartId(j) == StartId(k) then 0 else Count(s.queue, StartOf(j))
    ensures KindInv(s', j)
  {
    hide Open, Strays, StartId;
  }

  lemma CheckKinds(s: State, c: nat)
    requires Clients(s) && Answers(s) && Kinds(s) && Enabled(s, Check(c))
    ensures Kinds(Step(s, Check(c)))
  {
    hide Open, Handle, Opens, Unpaired, FateTaken, FateHandled, RestartFile, FatePulled, Strays;
    var s' := Step(s, Check(c));
    var k := s.pc[c].k;
    CheckCounts(s, c);
    if OfId(s.queue, StartId(k)) != [] {
      CancelKinds(s, c, k, s');
    } else {
      LockingKinds(s, c, k, s');
    }
  }

  lemma LockingKinds(s: State, c: nat, k: Kind, s': State)
    requires Clients(s) && Kinds(s) && c in s.pc && s.pc[c] == Checking(k)
    requires s' == s.(pc := s.pc[c := Locking(k)]) && Count(s.queue, StartOf(k)) == 0
    ensures Kinds(s')
  {
    hide Open, Handle, Opens, Unpaired, FateTaken, FateHandled, FatePulled, Strays, RestartFile;
    assert ClientInv(s, c);
    forall j: Kind | Clean(s', j) ensures KindInv(s', j) {
      assert KindInv(s, j);
    }
  }

  lemma MoveKinds(s: State, a: Action, c: nat)
    requires Clients(s) && Stops(s) && Kinds(s) && Enabled(s, a) && Moves(a, c)
    ensures Kinds(Step(s, a))
  {
    hide Open, Handle, Opens, Unpaired, FateTaken, FateHandled, FatePulled, Strays, RestartFile;
    var s' := Step(s, a);
    assert ClientInv(s, c);
    if a.Return? && s.pc[c].k !in s.mixed {
      assert StopInv(s, s.pc[c].k);
    }
    forall j: Kind | Clean(s', j) ensures KindInv(s', j) {
      assert KindInv(s, j);
    }
  }

  lemma NotifyKinds(s: State, a: Action)
    requires Clients(s) && Kinds(s) && Enabled(s, a) && (a.Grab? || a.Signal? || a.Release?)
    ensures Kinds(Step(s, a))
  {
    hide Open, Handle, Opens, Unpaired, FateTaken, FateHandled, FatePulled, Strays, RestartFile;
    var s' := Step(s, a);
    assert ClientInv(s, s.worker.c);
    forall j: Kind | Clean(s', j) ensures KindInv(s', j) {
      assert KindInv(s, j);
    }
  }

  lemma TakeKinds(s: State)
    requires Clients(s) && Kinds(s) && Enabled(s, Take)
    ensures Kinds(Step(s, Take))
  {
    hide Open, Handle, Opens, Unpaired, FateHandled, FatePulled, Strays, RestartFile;
    var s' := Step(s, Take);
    forall j: Kind | Clean(s', j) ensures KindInv(s', j) {
      assert KindInv(s, j);
    }
  }

  /** Only a start of k opens k, and a handled stop of k leaves it closed. */
  lemma OpenAfter(h: Handler<nat>, cmd: Command<nat>, o: Outcome, k: Kind)
    requires k.Encode? ==> h.encodes <= 1
    ensures Open(Handle(h, cmd, o), k) ==> Open(h, k) || Started(cmd) == Some(k)
    ensures cmd == StopCmd(k) ==> !Open(Handle(h, cmd, o), k)
    ensures Handle(h, cmd, o).encodes <= h.encodes || (cmd.StartEncode? && Handle(h, cmd, o).encodes == h.encodes + 1)
  {
  }

  /** A start that reports success opens its muxer, one that fails leaves it as it was. */
  lemma OpensOpens(h: Handler<nat>, cmd: Command<nat>, o: Outcome, k: Kind)
    requires Started(cmd) == Some(k) && !Open(h, k)
    ensures k.User? && Opens(h, cmd, o) ==> Open(Handle(h, cmd, o), k)
    ensures !Opens(h, cmd, o) ==> !Open(Handle(h, cmd, o), k)
  {
  }

  /** Only its own detach closes a user muxer. */
  lemma ClosesOnly(h: Handler<nat>, cmd: Command<nat>, o: Outcome, k: Kind)
    requires k.User? && Open(h, k) && !Open(Handle(h, cmd, o), k)
    ensures cmd == StopCmd(k)
  {
  }

  lemma DoKinds(s: State, o: Outcome)
    requires Clients(s) && Answers(s) && Kinds(s) && Enabled(s, Do(o))
    ensures Kinds(Step(s, Do(o)))
  {
    hide Handle, Open, Opens;
    var s' := Step(s, Do(o));
    var p := s.worker.m.body;
    forall j: Kind | Clean(s', j) ensures KindInv(s', j) {
      DoKind(s, o, j);
    }
    if Encode !in s.mixed {
      assert KindInv(s, Encode);
      OpenAfter(s.h, p.cmd, o, Encode);
      EncodeClosed(s.h);
    }
  }

  lemma EncodeClosed(h: Handler<nat>)
    ensures Open(h, Encode) <==> h.encodes > 0
  {
  }

  /** A handled message that closes a user muxer is the detach its holder waits for. */
  lemma ClosedByHolder(s: State, o: Outcome, j: Kind)
    requires Clients(s) && Answers(s) && Clean(s, j) && j.User? && Enabled(s, Do(o))
    requires Open(s.h, j) && !Open(Handle(s.h, s.worker.m.body.cmd, o), j)
    ensures j in s.on && s.on[j] in s.pc && InStop(s.pc[s.on[j]]) && s.pc[s.on[j]].k == j
    ensures StopCmd(j) == s.worker.m.body.cmd
  {
    hide Handle, Open;
    ClosesOnly(s.h, s.worker.m.body.cmd, o, j);
    assert AnswerInv(s, s.worker.m);
    assert ClientInv(s, s.worker.m.body.sender.value);
  }

  lemma DoKind(s: State, o: Outcome, j: Kind)
    requires Clients(s) && Answers(s) && Clean(s, j) && KindInv(s, j) && Enabled(s, Do(o))
    requires s.fate.Keys == s.on.Keys && (Encode !in s.mixed ==> s.h.encodes <= 1)
    ensures KindInv(Step(s, Do(o)), j)
  {
    hide Handle, Open, Opens, Unpaired, Clients, Answers, Count;
    var cmd := s.worker.m.body.cmd;
    OpenAfter(s.h, cmd, o, j);
    if Started(cmd) == Some(j) {
      OpensOpens(s.h, cmd, o, j);
    } else if j.User? && Open(s.h, j) && !Open(Handle(s.h, cmd, o), j) {
      ClosedByHolder(s, o, j);
    }
  }

  lemma FrameKinds(s: State, a: Action)
    requires Kinds(s) && Enabled(s, a) && (a.Frame? || a.AudioExit?)
    ensures Kinds(Step(s, a))
  {
    var s' := Step(s, a);
    forall j: Kind | Clean(s', j) ensures KindInv(s', j) {
      assert KindInv(s, j);
    }
  }

  lemma DoEncoders(s: State, o: Outcome)
    requires Encoders(s) && Enabled(s, Do(o))
    ensures Encoders(Step(s, Do(o)))
  {
    hide Handle, Unpaired, WellFormed, Balanced;
    var cmd := s.worker.m.body.cmd;
    HandleKeepsWellFormed(s.h, cmd, o);
    if !s.unpaired {
      HandleExact(s.h, cmd, o);
    }
  }

  lemma FrameEncoders(s: State, a: Action)
    requires Encoders(s) && Enabled(s, a) && (a.Frame? || a.AudioExit?)
    ensures Encoders(Step(s, a))
  {
    match a
    case Frame(o) =>
      HandleKeepsWellFormed(s.h, SwitchRecord, o);
      if !s.unpaired {
        HandleExact(s.h, SwitchRecord, o);
      }
    case AudioExit =>
      var s' := Step(s, a);
      assert s'.h.muxers == s.h.muxers;
      if !s.unpaired {
        assert Counted(s'.h);
        assert forall m | m in s.h.muxers :: PointsLive(s.h.muxers[m], s.h.enc);
      }
  }

  lemma CallInv(s: State, a: Action)
    requires Inv(s) && Enabled(s, a) && !Works(a)
    ensures Inv(Step(s, a))
  {
    hide Clients, Answers, Stops, Kinds, Encoders, Step;
    KeepsHandler(s, a);
    match a
    case Start(_, _, _, _) => CallClients(s, a); CallAnswers(s, a); CallStops(s, a); CallKinds(s, a);
    case Tell(_, _) => CallClients(s, a); CallAnswers(s, a); CallStops(s, a); CallKinds(s, a);
    case Push(c) => CallClients(s, a); ClientAnswers(s, a, c); CallStops(s, a); CallKinds(s, a);
    case Check(c) => CheckClients(s, c); CheckAnswers(s, c); CheckStops(s, c); CheckKinds(s, c);
    case Stop(c, _) => EnterClients(s, a, c); ClientAnswers(s, a, c); MoveStops(s, a, c); MoveKinds(s, a, c);
    case Lock(c) => EnterClients(s, a, c); ClientAnswers(s, a, c); MoveStops(s, a, c); MoveKinds(s, a, c);
    case Sleep(c) => SleepClients(s, c); ClientAnswers(s, a, c); MoveStops(s, a, c); MoveKinds(s, a, c);
    case Return(c) => ReturnClients(s, c); ClientAnswers(s, a, c); MoveStops(s, a, c); MoveKinds(s, a, c);
  }

  lemma KeepsHandler(s: State, a: Action)
    requires Encoders(s) && Enabled(s, a) && !a.Do? && !a.Frame? && !a.AudioExit?
    ensures Encoders(Step(s, a))
  {
    hide WellFormed, Balanced;
  }

  lemma WorkInv(s: State, a: Action)
    requires Inv(s) && Enabled(s, a) && Works(a)
    ensures Inv(Step(s, a))
  {
    hide Clients, Answers, Stops, Encoders, Step;
    WorkClients(s, a);
    WorkAnswers(s, a);
    if a.Do? {
      DoStops(s, a.o);
      DoKinds(s, a.o);
      DoEncoders(s, a.o);
    } else if a.Frame? || a.AudioExit? {
      FrameStops(s, a);
      FrameKinds(s, a);
      FrameEncoders(s, a);
    } else {
      KeepsHandler(s, a);
      if a.Take? {
        TakeStops(s);
        TakeKinds(s);
      } else {
        NotifyStops(s, a);
        NotifyKinds(s, a);
      }
    }
  }

  lemma StepInv(s: State, a: Action)
    requires Inv(s) && Enabled(s, a)
    ensures Inv(Step(s, a))
  {
    if Works(a) {
      WorkInv(s, a);
    } else {
      CallInv(s, a);
    }
  }

  // ---- what holds in every run ----

  /** A run: a list of actions, each enabled when its turn comes. */
  ghost predicate IsRun(s: State, run: seq<Action>)
    decreases |run|
  {
    run == [] || (Enabled(s, run[0]) && IsRun(Step(s, run[0]), run[1..]))
  }

  ghost function After(s: State, run: seq<Action>): State
    requires IsRun(s, run)
    decreases |run|
  {
    if run == [] then s else After(Step(s, run[0]), run[1..])
  }

  lemma {:induction false} RunInv(s: State, run: seq<Action>)
    requires Inv(s) && IsRun(s, run)
    ensures Inv(After(s, run))
    decreases |run|
  {
    if run != [] {
      StepInv(s, run[0]);
      RunInv(Step(s, run[0]), run[1..]);
    }
  }

  ghost predicate Reachable(s: State) {
    exists s0, run :: Init(s0) && IsRun(s0, run) && After(s0, run) == s
  }

  lemma ReachableInv(s: State)
    requires Reachable(s)
    ensures Inv(s)
  {
    var s0, run :| Init(s0) && IsRun(s0, run) && After(s0, run) == s;
    InitInv(s0);
    RunInv(s0, run);
  }

  /** The muxer slot is empty whenever a start of its kind is handled, if the kind was always called in turn, so the
      asserts of the handlers and of MUXER_ALLOC never fail. */
  lemma StartFindsClosed(s: State)
    requires Reachable(s) && s.worker.Taken?
    requires Started(s.worker.m.body.cmd).Some? ==> Started(s.worker.m.body.cmd).value !in s.mixed
    ensures Admissible(s.h, s.worker.m.body.cmd)
  {
    ReachableInv(s);
    var k := Started(s.worker.m.body.cmd);
    if k.Some? && !k.value.User? {
      assert KindInv(s, k.value);
    }
  }

  /** Nothing of kind k is open, being opened or queued to be opened. */
  ghost predicate Quiet(s: State, k: Kind) {
    Count(s.queue, StartOf(k)) == 0 && !StartTaken(s, k) && !Open(s.h, k)
  }

  /** The start handlers never find what they open already open (the assert of START_RECODEFILE), however clients,
      encoder thread and frame restarts interleave, for a kind called in turn; a user muxer is the exception only once
      a detach of its own strayed. */
  lemma StartHandlerFindsClosed(s: State, k: Kind)
    requires Reachable(s) && StartTaken(s, k) && Clean(s, k)
    ensures !Open(s.h, k)
  {
    ReachableInv(s);
    assert KindInv(s, k);
  }

  /** From the moment a stop call returns until the next start call everything of a clean kind is quiet. */
  lemma QuietOutsideCalls(s: State, k: Kind)
    requires Reachable(s) && k !in s.on && Clean(s, k)
    ensures Quiet(s, k)
  {
    ReachableInv(s);
    assert KindInv(s, k);
  }

  /** A stop call that waited returns with everything of its kind quiet, if the kind was called in turn: encodes, cache,
      recording, and every user muxer, also one that an earlier cancel strayed from. */
  lemma WaitedStopReturnsQuiet(s: State, c: nat)
    requires Reachable(s) && Enabled(s, Return(c)) && s.pc[c].k !in s.mixed
    ensures Quiet(Step(s, Return(c)), s.pc[c].k)
  {
    hide Open;
    ReachableInv(s);
    assert ClientInv(s, c);
    assert StopInv(s, s.pc[c].k);
  }

  /** A stop call that cancelled returns quiet if its own start was still in the queue, which it always is for
      encodes, cache and recording. Otherwise the messages pulled were other muxers' attaches, and it returns quiet
      exactly when its own attach had failed or was itself pulled by another client. */
  lemma CancelledStopExact(s: State, c: nat)
    requires Reachable(s) && Enabled(s, Check(c)) && Clean(s, s.pc[c].k) && Step(s, Check(c)).pc[c].Idle?
    ensures var k := s.pc[c].k;
            && k in s.fate
            && (!k.User? ==> Count(s.queue, StartOf(k)) > 0)
            && (Quiet(Step(s, Check(c)), k) <==>
               Count(s.queue, StartOf(k)) > 0 || s.fate[k].Failed? || s.fate[k].Pulled?)
            && (Clean(Step(s, Check(c)), k) <==> Quiet(Step(s, Check(c)), k))
  {
    hide Open;
    ReachableInv(s);
    var k := s.pc[c].k;
    assert ClientInv(s, c) && KindInv(s, k);
    CheckCounts(s, c);
  }

  /** Who loses a queued start: the attach of a clean muxer leaves the queue by being pulled exactly when the detach
      of another muxer looks into the queue while it is there, and that is the only way it leaves but to be taken. */
  lemma VictimExact(s: State, a: Action, k: Kind)
    requires Reachable(s) && Enabled(s, a) && Clean(s, k) && k in s.on && Count(s.queue, StartOf(k)) > 0 &&
             k in Step(s, a).on
    ensures k in Step(s, a).fate
    ensures Step(s, a).fate[k].Pulled? <==> k.User? && a.Check? && s.pc[a.c].k.User? && s.pc[a.c].k != k
    ensures Step(s, a).fate[k].InQueue? || Step(s, a).fate[k].Pulled? ||
            (a.Take? && Started(s.queue[0].body.cmd) == Some(k))
  {
    hide Handle, Inv, Reachable;
    ReachableInv(s);
    if a.Check? {
      VictimOfCheck(s, a.c, k);
    } else if a.Take? || a.Do? {
      VictimOfWork(s, a, k);
    } else {
      QueuedFate(s, k);
    }
  }

  lemma QueuedFate(s: State, k: Kind)
    requires Inv(s) && Clean(s, k) && k in s.on && Count(s.queue, StartOf(k)) > 0
    ensures k in s.fate && s.fate[k].InQueue? && OfId(s.queue, StartId(k)) != []
  {
    assert KindInv(s, k);
    QueueSane(s);
    PulledStarts(s.queue, k);
  }

  lemma VictimOfCheck(s: State, c: nat, k: Kind)
    requires Inv(s) && Enabled(s, Check(c)) && Clean(s, k) && k in s.on && Count(s.queue, StartOf(k)) > 0
    requires k in Step(s, Check(c)).on
    ensures k in Step(s, Check(c)).fate
    ensures Step(s, Check(c)).fate[k] == if k.User? && s.pc[c].k.User? && s.pc[c].k != k then Pulled else InQueue
  {
    hide Inv, OfId, Without, Handle, Count, Clean, FatePulled, StartId, Strays;
    QueuedFate(s, k);
    if s.pc[c].k != k {
      PulledWith(s.fate, k, s.pc[c].k);
    }
  }

  lemma PulledWith(fate: map<Kind, Fate>, k: Kind, j: Kind)
    requires k in fate && fate[k].InQueue? && j != k
    ensures k in FatePulled(fate, j)
    ensures FatePulled(fate, j)[k] == if k.User? && j.User? then Pulled else InQueue
    ensures StartId(j) == StartId(k) <==> j.User? && k.User?
  {
  }

  lemma VictimOfWork(s: State, a: Action, k: Kind)
    requires Inv(s) && Enabled(s, a) && (a.Take? || a.Do?) && Clean(s, k) && k in s.on && Count(s.queue, StartOf(k)) > 0
    ensures k in Step(s, a).fate
    ensures Step(s, a).fate[k].InQueue? ||
            (Step(s, a).fate[k].InHandler? && a.Take? && Started(s.queue[0].body.cmd) == Some(k))
  {
    hide Inv, Handle, Opens, Unpaired;
    QueuedFate(s, k);
  }

  /** A pulled start is never handled: nothing of its kind is queued, in the handler or open until its client's own
      stop, which waits for an answer. */
  lemma PulledStaysQuiet(s: State, k: Kind)
    requires Reachable(s) && Clean(s, k) && k in s.on && k in s.fate && s.fate[k].Pulled?
    ensures Quiet(s, k)
  {
    ReachableInv(s);
    assert KindInv(s, k);
  }

  lemma RunCons(s: State, a: Action, run: seq<Action>)
    requires Enabled(s, a) && IsRun(Step(s, a), run)
    ensures IsRun(s, [a] + run) && After(s, [a] + run) == After(Step(s, a), run)
  {
    hide Step, Enabled;
    assert ([a] + run)[1..] == run;
  }

  /** Client 0 attaches muxer 7, and the encoder thread handles it. */
  lemma FirstQueued(s: State)
    requires Init(s) && 0 in s.pc
    ensures var a := Start(0, User(7), true, false);
            && Enabled(s, a)
            && var t := Step(s, a);
               t == s.(queue := [Post(AttachMuxer(7, true, false), None)], on := map[User(7) := 0],
                 fate := map[User(7) := InQueue])
  {
    hide Handle, Opens, Unpaired;
    assert s.pc[0].Idle?;
  }

  lemma FirstHandled(s: State, t: State)
    requires Init(s)
    requires t == s.(queue := [Post(AttachMuxer(7, true, false), None)], on := map[User(7) := 0],
             fate := map[User(7) := InQueue])
    ensures Enabled(t, Take) && Enabled(Step(t, Take), Do(AllWell))
    ensures var u := Step(Step(t, Take), Do(AllWell));
            u.queue == [] && u.pc == s.pc && u.worker == Ready && u.on == map[User(7) := 0] && Open(u.h, User(7))
  {
    hide AttachRefs, Unpaired;
    assert Open(AttachUserMuxer(s.h, 7, true, false, AllWell), User(7));
  }

  lemma AttachHandled(s: State)
    requires Init(s) && 0 in s.pc
    ensures exists run :: IsRun(s, run) && var s3 := After(s, run);
              s3.queue == [] && s3.pc == s.pc && s3.worker == Ready && s3.on == map[User(7) := 0] && Open(s3.h, User(7))
  {
    hide Step, Enabled, Init, Open;
    FirstQueued(s);
    var s1 := Step(s, Start(0, User(7), true, false));
    FirstHandled(s, s1);
    RunCons(Step(s1, Take), Do(AllWell), []);
    RunCons(s1, Take, [Do(AllWell)]);
    RunCons(s, Start(0, User(7), true, false), [Take] + [Do(AllWell)]);
  }

  /** Then client 1 queues an attach of muxer 8, and client 0 detaches. */
  lemma SecondCancelled(s: State)
    requires s.queue == [] && 0 in s.pc && 1 in s.pc && s.pc[0].Idle? && s.pc[1].Idle? && s.on == map[User(7) := 0]
    ensures var a := Start(1, User(8), true, false);
            && Enabled(s, a) && Enabled(Step(s, a), Stop(0, User(7)))
            && var t := Step(Step(s, a), Stop(0, User(7)));
               && Enabled(t, Check(0))
               && var u := Step(t, Check(0)); 0 in u.pc && u.pc[0].Idle? && User(7) !in u.on && u.h == s.h
  {
    hide Handle, Opens, Unpaired, FatePulled, Strays, Without, Open;
    var m := Post(AttachMuxer(8, true, false), None);
    assert [] + [m] == [m] && OfId([m], ATTACH_USER_MUXER)[0] == m;
  }

  lemma CancelledByOther(s: State)
    requires s.queue == [] && 0 in s.pc && 1 in s.pc && s.pc[0].Idle? && s.pc[1].Idle? && s.on == map[User(7) := 0]
    ensures exists run :: IsRun(s, run) && var s3 := After(s, run);
              0 in s3.pc && s3.pc[0].Idle? && User(7) !in s3.on && s3.h == s.h
  {
    hide Step, Enabled;
    SecondCancelled(s);
    var s1 := Step(s, Start(1, User(8), true, false));
    var s2 := Step(s1, Stop(0, User(7)));
    RunCons(s2, Check(0), []);
    RunCons(s1, Stop(0, User(7)), [Check(0)]);
    RunCons(s, Start(1, User(8), true, false), [Stop(0, User(7))] + [Check(0)]);
  }

  lemma {:induction false} RunAppend(s: State, r1: seq<Action>, r2: seq<Action>)
    requires IsRun(s, r1) && IsRun(After(s, r1), r2)
    ensures IsRun(s, r1 + r2) && After(s, r1 + r2) == After(After(s, r1), r2)
    decreases |r1|
  {
    hide Step, Enabled;
    if r1 == [] {
      assert r1 + r2 == r2;
    } else {
      RunAppend(Step(s, r1[0]), r1[1..], r2);
      assert (r1 + r2)[1..] == r1[1..] + r2;
    }
  }

  /** A run of two clients in which a detach returns at once and its muxer stays attached. */
  lemma DetachCancelsAnotherAttach(s: State)
    requires Init(s) && 0 in s.pc && 1 in s.pc
    ensures exists run :: IsRun(s, run) && var s' := After(s, run);
              0 in s'.pc && s'.pc[0].Idle? && User(7) !in s'.on && Open(s'.h, User(7))
  {
    hide Step, Enabled, Open;
    AttachHandled(s);
    var r1 :| IsRun(s, r1) && var s3 := After(s, r1);
              && s3.queue == [] && s3.pc == s.pc && s3.worker == Ready
              && s3.on == map[User(7) := 0] && Open(s3.h, User(7));
    CancelledByOther(After(s, r1));
    var r2 :| IsRun(After(s, r1), r2) && var s3 := After(After(s, r1), r2);
              0 in s3.pc && s3.pc[0].Idle? && User(7) !in s3.on && s3.h == After(s, r1).h;
    RunAppend(s, r1, r2);
  }

  /** Two clients record at once: the assert of START_RECODEFILE fails. */
  lemma SecondStartBreaksAssert(s: State)
    requires Init(s) && 0 in s.pc && 1 in s.pc
    ensures exists run :: IsRun(s, run) &&
              var t := After(s, run); t.worker.Taken? && !Admissible(t.h, t.worker.m.body.cmd)
  {
    hide Step, Enabled, Init;
    RecordingStarted(s);
    var a, b := Start(0, Record, true, false), Start(1, Record, true, false);
    var s1 := Step(s, a);
    var s2 := Step(s1, Take);
    var s3 := Step(s2, Do(AllWell));
    var s4 := Step(s3, b);
    RunCons(s4, Take, []);
    RunCons(s3, b, [Take]);
    RunCons(s2, Do(AllWell), [b] + [Take]);
    RunCons(s1, Take, [Do(AllWell)] + ([b] + [Take]));
    RunCons(s, a, [Take] + ([Do(AllWell)] + ([b] + [Take])));
  }

  lemma RecordingStarted(s: State)
    requires Init(s) && 0 in s.pc && 1 in s.pc
    ensures var a, b := Start(0, Record, true, false), Start(1, Record, true, false);
            && Enabled(s, a) && Enabled(Step(s, a), Take) && Enabled(Step(Step(s, a), Take), Do(AllWell))
            && var s3 := Step(Step(Step(s, a), Take), Do(AllWell));
               && Enabled(s3, b) && Enabled(Step(s3, b), Take)
               && var t := Step(Step(s3, b), Take);
                  t.worker.Taken? && !Admissible(t.h, t.worker.m.body.cmd)
  {
    hide Unpaired;
    assert s.pc[0].Idle? && s.pc[1].Idle?;
  }

  /** No lost wakeup: when the encoder notifies, the sender is asleep on its condition. */
  lemma NotifyFindsSleeper(s: State)
    requires Reachable(s) && s.worker.Signalling?
    ensures s.worker.c in s.pc && s.pc[s.worker.c].Waiting?
    ensures Step(s, Signal).pc[s.worker.c] == Waking(s.pc[s.worker.c].k)
  {
    ReachableInv(s);
    assert ClientInv(s, s.worker.c);
  }

  /** A client in the middle of a synchronous call has exactly one message under way, queued or being
      served; one that is not has none, so a mutex or condition is never touched after its call returned. */
  lemma OneMessagePerCall(s: State, c: nat)
    requires Reachable(s) && c in s.pc && c in s.mutex
    ensures Count(s.queue, SyncOf(c)) + One(Serving(s.worker, c)) == One(Expecting(s.pc[c]))
    ensures (s.worker.Notifying? || s.worker.Signalling? || s.worker.Releasing?) && s.worker.c == c ==> InStop(s.pc[c])
    ensures !InStop(s.pc[c]) ==> s.mutex[c].Free? && forall m | m in s.queue :: m.body.sender != Some(c)
  {
    ReachableInv(s);
    assert ClientInv(s, c);
    if !InStop(s.pc[c]) {
      NoMessageOf(s, c);
    }
  }

  /** Two threads never hold one client's mutex: whoever is about to unlock it, locked it. */
  lemma MutexHolders(s: State, c: nat)
    requires Reachable(s) && c in s.pc && c in s.mutex
    ensures s.mutex[c].ByClient? <==> s.pc[c].Pushing? || s.pc[c].PreWait?
    ensures s.mutex[c].ByEncoder? <==> s.worker == Signalling(c) || s.worker == Releasing(c)
  {
    ReachableInv(s);
    assert ClientInv(s, c);
  }

  /** The encoder thread's steps from message to message, and the one of a client that it may have to wait for. */
  predicate Serves(s: State, a: Action) {
    a.Take? || a.Do? || a.Grab? || a.Signal? || a.Release? ||
    (s.worker.Notifying? && a == Sleep(s.worker.c))
  }

  /** No standstill: while a client waits, the encoder thread can move, or the client it is about to notify can release
      its mutex by going to sleep. */
  lemma WaitersAreNotStuck(s: State, c: nat)
    requires Reachable(s) && c in s.pc && Expecting(s.pc[c])
    ensures exists a :: Enabled(s, a) && Serves(s, a)
  {
    hide Step, Inv, Handle, Open;
    ReachableInv(s);
    if s.worker.Ready? {
      QueueNotEmpty(s, c);
      assert Enabled(s, Take);
    } else {
      WorkerMoves(s);
    }
  }

  lemma QueueNotEmpty(s: State, c: nat)
    requires Inv(s) && s.worker.Ready? && c in s.pc && Expecting(s.pc[c])
    ensures s.queue != []
  {
    assert ClientInv(s, c);
  }

  lemma WorkerMoves(s: State)
    requires Inv(s) && !s.worker.Ready?
    ensures exists a :: Enabled(s, a) && Serves(s, a)
  {
    match s.worker
    case Taken(_) => assert Enabled(s, Do(AllWell));
    case Notifying(d) =>
      assert ClientInv(s, d);
      var a := if s.mutex[d].Free? then Grab else Sleep(d);
      assert Enabled(s, a) && Serves(s, a);
    case Signalling(_) => assert Enabled(s, Signal);
    case Releasing(_) => assert Enabled(s, Release);
  }

  /** How many messages stand in the queue up to and with the one that c sent. */
  function Ahead(q: seq<Msg>, c: nat): nat {
    if q == [] then 0 else if Tagged(q[0], SyncOf(c)) then 1 else 1 + Ahead(q[1..], c)
  }

  /** The steps the encoder thread still has to make for the message it has, at most. */
  function Phase(s: State): nat {
    match s.worker
    case Ready => 0
    case Taken(_) => 5
    case Notifying(d) => if d in s.mutex && s.mutex[d].ByClient? then 4 else 3
    case Signalling(_) => 2
    case Releasing(_) => 1
  }

  /** The steps until c is notified, at most. */
  function Distance(s: State, c: nat): nat {
    6 * (if Count(s.queue, SyncOf(c)) > 0 then Ahead(s.queue, c) else 0) + Phase(s)
  }

  lemma {:induction false} AheadAppend(q: seq<Msg>, m: Msg, c: nat)
    requires Count(q, SyncOf(c)) > 0
    ensures Ahead(q + [m], c) == Ahead(q, c)
  {
    assert (q + [m])[1..] == q[1..] + [m];
    if !Tagged(q[0], SyncOf(c)) {
      AheadAppend(q[1..], m, c);
    }
  }

  lemma {:induction false} AheadWithout(q: seq<Msg>, k: Kind, c: nat)
    requires (forall m | m in q :: Sane(m)) && Count(q, SyncOf(c)) > 0
    ensures Ahead(Without(q, StartId(k)), c) <= Ahead(q, c)
  {
    var rest := Without(q[1..], StartId(k));
    assert ([q[0]] + rest)[1..] == rest && [] + rest == rest;
    assert Sane(q[0]);
    StartIds(q[0].body.cmd, k);
    if !Tagged(q[0], SyncOf(c)) {
      AheadWithout(q[1..], k, c);
    } else {
      assert q[0].id != StartId(k);
    }
  }

  lemma CallServes(s: State, a: Action, c: nat)
    requires Inv(s) && Enabled(s, a) && c in s.pc && Expecting(s.pc[c]) && (a.Start? || a.Tell? || a.Push?)
    ensures c in Step(s, a).pc && Step(s, a).pc[c] == s.pc[c] && Distance(Step(s, a), c) == Distance(s, c)
  {
    hide Inv, Ahead, Count;
    var m := Called(s, a);
    CountAppend(s.queue, m, SyncOf(c));
    if Count(s.queue, SyncOf(c)) > 0 {
      AheadAppend(s.queue, m, c);
    }
  }

  lemma CheckServes(s: State, d: nat, c: nat)
    requires Inv(s) && Enabled(s, Check(d)) && c in s.pc && Expecting(s.pc[c])
    ensures c in Step(s, Check(d)).pc && Step(s, Check(d)).pc[c] == s.pc[c]
    ensures Distance(Step(s, Check(d)), c) <= Distance(s, c)
  {
    hide Ahead, Count, Clients, Stops, Kinds, Encoders, FatePulled, Strays, Without, OfId;
    var k := s.pc[d].k;
    QueueSane(s);
    CountWithout(s.queue, k, SyncOf(c));
    if Count(s.queue, SyncOf(c)) > 0 {
      AheadWithout(s.queue, k, c);
    }
  }

  lemma TakeServes(s: State, c: nat)
    requires Inv(s) && Enabled(s, Take) && c in s.pc && Expecting(s.pc[c])
    ensures Step(s, Take).pc == s.pc && Distance(Step(s, Take), c) < Distance(s, c)
  {
    hide Answers, Stops, Kinds, Encoders, FateTaken;
    assert ClientInv(s, c);
  }

  /** A client that enters, locks or returns leaves the queue alone, and the encoder thread as it is. */
  lemma MoveServes(s: State, a: Action, d: nat, c: nat)
    requires Inv(s) && Enabled(s, a) && Moves(a, d) && !a.Sleep? && c in s.pc && Expecting(s.pc[c])
    ensures c in Step(s, a).pc && Expecting(Step(s, a).pc[c]) && Distance(Step(s, a), c) == Distance(s, c)
  {
    hide Answers, Stops, Kinds, Encoders, Count, Ahead, ClientInv;
    if s.worker.Notifying? {
      Awaited(s);
    }
  }

  /** The client about to be notified is one that expects it. */
  lemma Awaited(s: State)
    requires Inv(s) && s.worker.Notifying?
    ensures s.worker.c in s.pc && Expecting(s.pc[s.worker.c])
  {
    hide Answers, Stops, Kinds, Encoders;
    assert ClientInv(s, s.worker.c);
  }

  lemma SleepServes(s: State, d: nat, c: nat)
    requires Inv(s) && Enabled(s, Sleep(d)) && c in s.pc && Expecting(s.pc[c])
    ensures c in Step(s, Sleep(d)).pc && Expecting(Step(s, Sleep(d)).pc[c])
    ensures Distance(Step(s, Sleep(d)), c) == Distance(s, c) - One(Serves(s, Sleep(d)))
  {
    hide Answers, Stops, Kinds, Encoders, Count, Ahead;
    assert ClientInv(s, d);
  }

  lemma WorkServes(s: State, a: Action, c: nat)
    requires Inv(s) && Enabled(s, a) && Works(a) && !a.Take? && c in s.pc && Expecting(s.pc[c])
    ensures c in Step(s, a).pc
    ensures Step(s, a).pc[c].Waking? ||
            (Step(s, a).pc == s.pc && Distance(Step(s, a), c) <= Distance(s, c) - One(Serves(s, a))) ||
            (a.Signal? && Step(s, a).pc[c] == s.pc[c] && Distance(Step(s, a), c) < Distance(s, c))
  {
    hide Answers, Stops, Kinds, Encoders, Handle, Opens, Unpaired, FateHandled, RestartFile, Count, Ahead;
    if s.worker.Signalling? {
      assert ClientInv(s, s.worker.c);
    }
  }

  /** Progress: whatever the threads do, a waiting client gets no further from being notified, and every step of the
      encoder thread brings it nearer or notifies it. */
  lemma EveryStepServes(s: State, a: Action, c: nat)
    requires Inv(s) && Enabled(s, a) && c in s.pc && Expecting(s.pc[c])
    ensures c in Step(s, a).pc
    ensures Step(s, a).pc[c].Waking? ||
            (Expecting(Step(s, a).pc[c]) && Distance(Step(s, a), c) <= Distance(s, c) - One(Serves(s, a)))
  {
    hide Inv, Handle, Opens, Unpaired, FateTaken, FateHandled, FatePulled, Strays, RestartFile, Count, Ahead;
    if a.Start? || a.Tell? || a.Push? {
      CallServes(s, a, c);
    } else if a.Check? {
      CheckServes(s, a.c, c);
    } else if a.Take? {
      TakeServes(s, c);
    } else if Works(a) {
      WorkServes(s, a, c);
    } else if a.Sleep? {
      SleepServes(s, a.c, c);
    } else {
      MoveServes(s, a, a.c, c);
    }
  }

  /** How many steps of a run serve. */
  ghost function Service(s: State, run: seq<Action>): nat
    requires IsRun(s, run)
    decreases |run|
  {
    if run == [] then 0 else One(Serves(s, run[0])) + Service(Step(s, run[0]), run[1..])
  }

  /** At some point of the run c has been notified. */
  ghost predicate Notified(s: State, run: seq<Action>, c: nat)
    requires IsRun(s, run)
    decreases |run|
  {
    run != [] &&
    var s' := Step(s, run[0]);
    (c in s'.pc && s'.pc[c].Waking?) || Notified(s', run[1..], c)
  }

  lemma NotYet(s: State, c: nat)
    requires Inv(s) && c in s.pc && Expecting(s.pc[c])
    ensures Distance(s, c) > 0
  {
    hide Answers, Stops, Kinds, Encoders;
    assert ClientInv(s, c);
  }

  lemma {:induction false} NotifiedFrom(s: State, run: seq<Action>, c: nat)
    requires Inv(s) && IsRun(s, run) && c in s.pc && Expecting(s.pc[c]) && Service(s, run) >= Distance(s, c)
    ensures Notified(s, run, c)
    decreases |run|
  {
    hide Step, Enabled, Inv, Distance, Serves;
    NotYet(s, c);
    assert run != [];
    var s' := Step(s, run[0]);
    EveryStepServes(s, run[0], c);
    if !s'.pc[c].Waking? {
      StepInv(s, run[0]);
      NotifiedFrom(s', run[1..], c);
    }
  }

  /** Every sender is notified: whatever else happens, by the time the encoder thread has made as many steps as Distance
      says, at most six for each message queued up to the sender's own and five for the one it has, it has notified the
      sender. */
  lemma NotifiedInTime(s: State, run: seq<Action>, c: nat)
    requires Reachable(s) && IsRun(s, run) && c in s.pc && Expecting(s.pc[c]) && Service(s, run) >= Distance(s, c)
    ensures Notified(s, run, c)
    ensures Distance(s, c) <= 6 * |s.queue| + 5
  {
    hide Inv, Reachable, Notified, Service, IsRun;
    ReachableInv(s);
    NotifiedFrom(s, run, c);
    AheadBound(s.queue, c);
  }

  lemma {:induction false} AheadBound(q: seq<Msg>, c: nat)
    ensures Ahead(q, c) <= |q|
  {
    if q != [] && !Tagged(q[0], SyncOf(c)) {
      AheadBound(q[1..], c);
    }
  }

  /** In every run without an unpaired command each encoder's reference count is its number of live holders, and it
      exists exactly while it has one. */
  lemma CountsMatchHolders(s: State)
    requires Reachable(s) && !s.unpaired
    ensures Refs(s.h.enc.h264) == Holders(s.h, false)
    ensures s.h.enc.capture ==> Refs(s.h.enc.audio) == Holders(s.h, true)
    ensures s.h.enc.h264.Null? <==> Holders(s.h, false) == 0
    ensures s.h.enc.audioTid <==> s.h.enc.capture && Holders(s.h, true) > 0
  {
    ReachableInv(s);
    BalancedPointers(s.h);
  }

  /** The first unpaired command, or failing frame restart, is the one that unbalances the counts. */
  lemma FirstUnpairedUnbalances(s: State, a: Action)
    requires Reachable(s) && !s.unpaired && Enabled(s, a) && (a.Do? || a.Frame?)
    ensures Balanced(Step(s, a).h) <==> !Step(s, a).unpaired
  {
    hide Balanced, WellFormed, Handle, Unpaired;
    ReachableInv(s);
    if a.Do? {
      HandleExact(s.h, s.worker.m.body.cmd, a.o);
    } else {
      RestartIsSwitch(s.h, a.o);
      HandleExact(s.h, SwitchRecord, a.o);
    }
  }

  lemma RestartIsSwitch(h: Handler<nat>, o: Outcome)
    ensures Handle(h, SwitchRecord, o) == RestartFile(h, o)
    ensures Unpaired(h, SwitchRecord, o) <==> h.file && !o.initUri
  {
  }

  /** An attach is unpaired only for a muxer that an earlier detach strayed from, or that was called out of turn. */
  lemma CleanAttachIsPaired(s: State, o: Outcome)
    requires Reachable(s) && s.worker.Taken? && s.worker.m.body.cmd.AttachMuxer?
    requires Clean(s, User(s.worker.m.body.cmd.muxer))
    ensures !Unpaired(s.h, s.worker.m.body.cmd, o)
  {
    StartHandlerFindsClosed(s, User(s.worker.m.body.cmd.muxer));
  }
}

/** What one handled message does to the encoders shared by the recording pipeline
    (encode_handler.cpp), as a function on values. A muxer is named by a key of type M. */
module EncoderModel {

  datatype Option<+T> = None | Some(value: T)

  /** Results of the foreign calls made while one message is handled. */
  datatype Outcome = Outcome(
    h264Init: bool,    // new H264Encoder + InitConfig
    audioInit: bool,   // new FFAudioEncoder + InitConfig
    audioThread: bool, // encode_start_audio_thread
    create: bool,      // CLASSTYPE::create()
    initUri: bool,     // muxer->init_uri
    startJob: bool     // muxer->start_new_job
  )

  const AllWell := Outcome(true, true, true, true, true, true)

  datatype Command<M> =
    | StartEncode | StopEncode
    | StartCache | StopCache
    | StartRecord | StopRecord | SwitchRecord
    | StartSaveCache | StopSaveCache
    | AttachMuxer(muxer: M, video: bool, audio: bool) | DetachMuxer(muxer: M)
    | RateChange(low: bool) | GenIdr

  /** A reference-counted encoder object. The generation stands for its address:
      every object ever created has its own. */
  datatype Encoder = Null | Live(gen: nat, refs: nat)

  /** The encoder pointers a user muxer stores, and whether the handler dispatches to it. */
  datatype Mux = Mux(video: Option<nat>, audio: Option<nat>, attached: bool)

  /** The two shared encoders and the audio thread of one EncodeHandler. */
  datatype Encoders = Encoders(
    capture: bool,     // an audio capture device exists
    gens: nat,         // encoder objects created so far
    h264: Encoder,
    audio: Encoder,
    audioTid: bool,    // audio_tid is set
    audioEnable: bool
  )

  datatype Handler<!M(==)> = Handler(
    enc: Encoders,
    encodes: nat,         // START_ENCODEs that succeeded and were not stopped
    cache: bool,          // cameracache is not NULL
    file: bool,           // camerafile is not NULL
    muxers: map<M, Mux>
  )

  function Fresh<M(==)>(capture: bool): Handler<M> {
    Handler(Encoders(capture, 0, Null, Null, false, false), 0, false, false, map[])
  }

  // ---- reference counting ----

  function Refs(e: Encoder): nat {
    if e.Live? then e.refs else 0
  }

  function One(b: bool): (r: int)
    ensures 0 <= r <= 1
  {
    if b then 1 else 0
  }

  predicate Sound(e: Encoders) {
    && (e.h264.Live? ==> e.h264.refs > 0 && e.h264.gen < e.gens)
    && (e.audio.Live? ==> e.audio.refs > 0 && e.audio.gen < e.gens)
    && (e.audioTid <==> e.audio.Live?)
    && (e.audioEnable ==> e.audioTid)
    && (!e.capture ==> e.audio.Null?)
  }

  /** The references held after a step differ from those before by dv and da,
      and an encoder that is alive before and after is the same object. */
  predicate Moved(e: Encoders, e': Encoders, dv: int, da: int) {
    && (Sound(e) ==> Sound(e'))
    && e'.capture == e.capture && e.gens <= e'.gens
    && Refs(e'.h264) == Refs(e.h264) + dv
    && Refs(e'.audio) == Refs(e.audio) + da
    && (e.h264.Live? && e'.h264.Live? ==> e'.h264.gen == e.h264.gen)
    && (e.audio.Live? && e'.audio.Live? ==> e'.audio.gen == e.audio.gen)
  }

  function H264Ref(e: Encoders, o: Outcome): (r: (Encoders, bool))
    ensures Moved(e, r.0, One(r.1), 0)
    ensures r.1 ==> r.0.h264.Live?
  {
    match e.h264
    case Null =>
      if o.h264Init then (e.(h264 := Live(e.gens, 1), gens := e.gens + 1), true) else (e, false)
    case Live(g, n) => (e.(h264 := Live(g, n + 1)), true)
  }

  function Dropped(e: Encoder): (r: Encoder) {
    if e.Live? && e.refs > 1 then Live(e.gen, e.refs - 1) else Null
  }

  function H264Unref(e: Encoders): (r: Encoders)
    ensures Sound(e) ==> Moved(e, r, -One(e.h264.Live?), 0)
  {
    e.(h264 := Dropped(e.h264))
  }

  function AudioRef(e: Encoders, o: Outcome): (r: (Encoders, bool))
    ensures Sound(e) ==> Moved(e, r.0, 0, One(r.1 && e.capture))
    ensures r.1 && e.capture ==> r.0.audio.Live?
  {
    if !e.capture then (e, true)
    else
      match e.audio
      case Null =>
        if !o.audioInit then (e, false)
        else
          var made := e.(gens := e.gens + 1);
          if e.audioEnable then (made.(audio := Live(e.gens, 1)), true)
          else if !o.audioThread then (made, false)
          else (made.(audio := Live(e.gens, 1), audioTid := true, audioEnable := true), true)
      case Live(g, n) => (e.(audio := Live(g, n + 1)), true)
  }

  function AudioUnref(e: Encoders): (r: Encoders)
    ensures Sound(e) ==> Moved(e, r, 0, -One(e.audio.Live?))
  {
    if e.audio.Null? then e
    else
      var e1 := if e.audio.refs == 1 && e.audioTid then e.(audioEnable := false, audioTid := false) else e;
      e1.(audio := Dropped(e1.audio))
  }

  function BothRef(e: Encoders, o: Outcome): (r: (Encoders, bool))
    ensures Sound(e) ==> Moved(e, r.0, One(r.1), One(r.1 && e.capture))
    ensures r.1 ==> r.0.h264.Live? && (e.capture ==> r.0.audio.Live?)
  {
    var (e1, ok) := H264Ref(e, o);
    if !ok then (e1, false)
    else
      var (e2, okA) := AudioRef(e1, o);
      if okA then (e2, true) else (H264Unref(e2), false)
  }

  function BothUnref(e: Encoders): (r: Encoders)
    ensures Sound(e) ==> Moved(e, r, -One(e.h264.Live?), -One(e.audio.Live?))
  {
    H264Unref(AudioUnref(e))
  }

  /** MUXER_ALLOC: the encoders stay referenced exactly when the muxer was started. */
  function MuxerAlloc(e: Encoders, o: Outcome): (r: (Encoders, bool))
    ensures Sound(e) ==> Moved(e, r.0, One(r.1), One(r.1 && e.capture))
  {
    var (e1, ok) := BothRef(e, o);
    if !ok then (e1, false)
    else if !o.create || !o.initUri || !o.startJob then (BothUnref(e1), false)
    else (e1, true)
  }

  // ---- user muxers ----

  predicate Points(p: Option<nat>, e: Encoder) {
    p.Some? && e.Live? && p.value == e.gen
  }

  /** The references taken for a new user muxer, and the pointers it is given. */
  function AttachRefs(e: Encoders, video: bool, audio: bool, o: Outcome): (r: (Encoders, Option<nat>, Option<nat>))
    ensures Sound(e) ==> Moved(e, r.0, One(r.1.Some?), One(r.2.Some?))
    ensures r.1.Some? ==> Points(r.1, r.0.h264)
    ensures r.2.Some? ==> Points(r.2, r.0.audio)
  {
    var (e1, okV) := if video then H264Ref(e, o) else (e, false);
    var v := if okV then Some(e1.h264.gen) else None;
    var (e2, okA) := if audio then AudioRef(e1, o) else (e1, false);
    var a := if okA && e2.audio.Live? then Some(e2.audio.gen) else None;
    (e2, v, a)
  }

  function AttachUndo(e: Encoders, v: Option<nat>, a: Option<nat>): (r: Encoders)
    ensures Sound(e) && (v.Some? ==> e.h264.Live?) && (a.Some? ==> e.audio.Live?) ==>
            Moved(e, r, -One(v.Some?), -One(a.Some?))
  {
    var e1 := if v.Some? then H264Unref(e) else e;
    if a.Some? then AudioUnref(e1) else e1
  }

  function AttachUserMuxer<M>(h: Handler<M>, m: M, video: bool, audio: bool, o: Outcome): Handler<M> {
    var (e, v, a) := AttachRefs(h.enc, video, audio, o);
    if !o.initUri then h.(enc := AttachUndo(e, v, a))
    else if !o.startJob then
      h.(enc := AttachUndo(e, v, a), muxers := h.muxers[m := Mux(v, a, m in h.muxers && h.muxers[m].attached)])
    else h.(enc := e, muxers := h.muxers[m := Mux(v, a, true)])
  }

  function DetachUnrefs(e: Encoders, x: Mux): (r: Encoders)
    ensures Sound(e) ==> Moved(e, r, -One(Points(x.video, e.h264)), -One(Points(x.audio, e.audio)))
  {
    var e1 := if Points(x.video, e.h264) then H264Unref(e) else e;
    if Points(x.audio, e1.audio) then AudioUnref(e1) else e1
  }

  function DetachUserMuxer<M>(h: Handler<M>, m: M): Handler<M> {
    if m !in h.muxers then h
    else h.(enc := DetachUnrefs(h.enc, h.muxers[m]), muxers := h.muxers[m := h.muxers[m].(attached := false)])
  }

  // ---- message handlers ----

  /** Restart of the file muxer's job; a failing init_uri deletes the muxer and nothing else. */
  function RestartFile<M>(h: Handler<M>, o: Outcome): Handler<M> {
    if h.file && !o.initUri then h.(file := false) else h
  }

  function Handle<M>(h: Handler<M>, msg: Command<M>, o: Outcome): Handler<M> {
    match msg
    case StartEncode =>
      var (e, ok) := BothRef(h.enc, o);
      h.(enc := e, encodes := h.encodes + One(ok))
    case StopEncode => h.(enc := BothUnref(h.enc), encodes := h.encodes - One(h.encodes > 0))
    case StartCache =>
      var (e, ok) := MuxerAlloc(h.enc, o);
      h.(enc := e, cache := ok || h.cache)
    case StopCache => if h.cache then h.(enc := BothUnref(h.enc), cache := false) else h
    case StartRecord =>
      var (e, ok) := MuxerAlloc(h.enc, o);
      h.(enc := e, file := ok || h.file)
    case StopRecord => if h.file then h.(enc := BothUnref(h.enc), file := false) else h
    case SwitchRecord => RestartFile(h, o)
    case AttachMuxer(m, video, audio) => AttachUserMuxer(h, m, video, audio, o)
    case DetachMuxer(m) => DetachUserMuxer(h, m)
    case _ => h
  }

  // ---- who holds the encoders ----

  predicate Holding(x: Mux, audio: bool) {
    x.attached && (if audio then x.audio else x.video).Some?
  }

  /** The attached user muxers that hold the audio, or the video, encoder. */
  ghost function Users<M>(ms: map<M, Mux>, audio: bool): set<M> {
    set m | m in ms && Holding(ms[m], audio)
  }

  ghost function Holders<M>(h: Handler<M>, audio: bool): nat {
    h.encodes + One(h.cache) + One(h.file) + |Users(h.muxers, audio)|
  }

  /** Pointers were taken from encoders made before; without a capture device there is no audio encoder. */
  ghost predicate PointersMade<M>(ms: map<M, Mux>, gens: nat, capture: bool) {
    forall m | m in ms :: PointerMade(ms[m], gens, capture)
  }

  predicate PointerMade(x: Mux, gens: nat, capture: bool) {
    && (x.video.Some? ==> x.video.value < gens)
    && (x.audio.Some? ==> x.audio.value < gens && capture)
  }

  /** Kept by every message and every outcome. */
  ghost predicate WellFormed<M>(h: Handler<M>) {
    Sound(h.enc) && PointersMade(h.muxers, h.enc.gens, h.enc.capture)
  }

  predicate PointsLive(x: Mux, e: Encoders) {
    && (x.attached && x.video.Some? ==> Points(x.video, e.h264))
    && (x.attached && x.audio.Some? ==> Points(x.audio, e.audio))
  }

  /** Every reference has a live holder. */
  ghost predicate Counted<M>(h: Handler<M>) {
    && Refs(h.enc.h264) == Holders(h, false)
    && (h.enc.capture ==> Refs(h.enc.audio) == Holders(h, true))
  }

  /** The counts agree, and an attached muxer's pointers are the live encoders. */
  ghost predicate Balanced<M>(h: Handler<M>) {
    Counted(h) && forall m | m in h.muxers :: PointsLive(h.muxers[m], h.enc)
  }

  /** The asserts of the handlers: a muxer slot is allocated only when empty. */
  predicate Admissible<M>(h: Handler<M>, msg: Command<M>) {
    match msg
    case StartCache => !h.cache
    case StartRecord => !h.file
    case _ => true
  }

  predicate Attached<M>(h: Handler<M>, m: M) {
    m in h.muxers && h.muxers[m].attached
  }

  /** An attach of a muxer that is attached already overwrites its pointers: it is harmless when it fails before
      that, when a late failure leaves it pointing at as many encoders as before, or when it held none. */
  predicate LosesPointers<M>(h: Handler<M>, m: M, video: bool, audio: bool, o: Outcome) {
    Attached(h, m) && o.initUri &&
    var x := h.muxers[m];
    var (_, v, a) := AttachRefs(h.enc, video, audio, o);
    if o.startJob then x.video.Some? || x.audio.Some?
    else v.Some? != x.video.Some? || a.Some? != x.audio.Some?
  }

  /** The messages that unbalance the counts: a start that fills a muxer slot again (the handlers assert that it is
      empty), a stop of an encode that never started while somebody else keeps an encoder alive, a restart whose
      init_uri fails, an attach that overwrites the pointers of an attached muxer, and a detach of a muxer that is not
      attached and still points at a live encoder. */
  predicate Unpaired<M>(h: Handler<M>, msg: Command<M>, o: Outcome) {
    match msg
    case StartCache => h.cache && MuxerAlloc(h.enc, o).1
    case StartRecord => h.file && MuxerAlloc(h.enc, o).1
    case StopEncode => h.encodes == 0 && (h.enc.h264.Live? || h.enc.audio.Live?)
    case SwitchRecord => h.file && !o.initUri
    case AttachMuxer(m, video, audio) => LosesPointers(h, m, video, audio, o)
    case DetachMuxer(m) =>
      m in h.muxers && !h.muxers[m].attached &&
      (Points(h.muxers[m].video, h.enc.h264) || Points(h.muxers[m].audio, h.enc.audio))
    case _ => false
  }

  // ---- proofs ----

  lemma UsersUpdated<M>(ms: map<M, Mux>, m: M, x: Mux, audio: bool)
    ensures Users(ms[m := x], audio) == if Holding(x, audio) then Users(ms, audio) + {m} else Users(ms, audio) - {m}
  {
  }

  lemma UsersCounted<M>(ms: map<M, Mux>, m: M, x: Mux, audio: bool)
    ensures |Users(ms[m := x], audio)| + One(m in ms && Holding(ms[m], audio)) ==
            |Users(ms, audio)| + One(Holding(x, audio))
  {
    UsersUpdated(ms, m, x, audio);
    var u := Users(ms, audio);
    if m in u {
      assert u == (u - {m}) + {m};
    } else {
      assert u - {m} == u;
    }
  }

  lemma PointersGrow<M>(ms: map<M, Mux>, gens: nat, gens': nat, capture: bool)
    requires PointersMade(ms, gens, capture) && gens <= gens'
    ensures PointersMade(ms, gens', capture)
  {
    forall m | m in ms ensures PointerMade(ms[m], gens', capture) {
      assert PointerMade(ms[m], gens, capture);
    }
  }

  lemma HandleKeepsSound<M>(h: Handler<M>, msg: Command<M>, o: Outcome)
    requires Sound(h.enc)
    ensures Sound(Handle(h, msg, o).enc) && Handle(h, msg, o).enc.gens >= h.enc.gens
    ensures Handle(h, msg, o).enc.capture == h.enc.capture
  {
  }

  lemma HandleKeepsPointers<M>(h: Handler<M>, msg: Command<M>, o: Outcome)
    requires Sound(h.enc) && PointersMade(h.muxers, h.enc.gens, h.enc.capture)
    ensures PointersMade(Handle(h, msg, o).muxers, h.enc.gens, h.enc.capture) || msg.AttachMuxer?
    ensures msg.AttachMuxer? ==>
              PointersMade(Handle(h, msg, o).muxers, AttachRefs(h.enc, msg.video, msg.audio, o).0.gens, h.enc.capture)
  {
    if msg.AttachMuxer? {
      var (e, v, a) := AttachRefs(h.enc, msg.video, msg.audio, o);
      PointersGrow(h.muxers, h.enc.gens, e.gens, h.enc.capture);
    } else if msg.DetachMuxer? && msg.muxer in h.muxers {
      assert PointerMade(h.muxers[msg.muxer], h.enc.gens, h.enc.capture);
    }
  }

  /** Whatever the outcome of a message: a live encoder has a positive count, the audio thread id is set
      exactly while the audio encoder exists, and a running audio loop has an id to be joined by. */
  lemma HandleKeepsWellFormed<M>(h: Handler<M>, msg: Command<M>, o: Outcome)
    requires WellFormed(h)
    ensures WellFormed(Handle(h, msg, o))
  {
    HandleKeepsSound(h, msg, o);
    HandleKeepsPointers(h, msg, o);
    var h' := Handle(h, msg, o);
    PointersGrow(
      h'.muxers, if msg.AttachMuxer? then AttachRefs(h.enc, msg.video, msg.audio, o).0.gens else h.enc.gens,
      h'.enc.gens, h.enc.capture);
  }

  /** In a balanced handler an encoder pointer is NULL exactly when nobody holds it,
      and the audio thread id is set exactly while somebody holds the audio encoder. */
  lemma BalancedPointers<M>(h: Handler<M>)
    requires WellFormed(h) && Balanced(h)
    ensures h.enc.h264.Null? <==> Holders(h, false) == 0
    ensures h.enc.audioTid <==> h.enc.capture && Holders(h, true) > 0
  {
  }

  /** Balanced counts keep attached muxers' pointers live while the encoders move. */
  lemma PointersFollow<M>(h: Handler<M>, h': Handler<M>, dv: int, da: int)
    requires WellFormed(h) && Balanced(h) && Moved(h.enc, h'.enc, dv, da) && Counted(h') && h'.muxers == h.muxers
    ensures Balanced(h')
  {
    forall m | m in h.muxers ensures PointsLive(h.muxers[m], h'.enc) {
      var x := h.muxers[m];
      assert PointsLive(x, h.enc) && PointerMade(x, h.enc.gens, h.enc.capture);
      assert Holding(x, false) ==> m in Users(h.muxers, false);
      assert Holding(x, true) ==> m in Users(h.muxers, true);
    }
  }

  lemma AttachedBalanced<M>(h: Handler<M>, m: M, e: Encoders, x: Mux)
    requires WellFormed(h) && Balanced(h) && x.attached && PointsLive(x, e)
    requires m in h.muxers ==> !Holding(h.muxers[m], false) && !Holding(h.muxers[m], true)
    requires Moved(h.enc, e, One(x.video.Some?), One(x.audio.Some?))
    ensures Balanced(h.(enc := e, muxers := h.muxers[m := x]))
  {
    UsersCounted(h.muxers, m, x, false);
    UsersCounted(h.muxers, m, x, true);
    var h' := h.(enc := e, muxers := h.muxers[m := x]);
    forall n | n in h'.muxers ensures PointsLive(h'.muxers[n], e) {
      if n != m {
        assert PointsLive(h.muxers[n], h.enc);
      }
    }
  }

  lemma NotAttachedBalanced<M>(h: Handler<M>, m: M, e: Encoders, x: Mux)
    requires WellFormed(h) && Balanced(h) && !x.attached
    requires m in h.muxers ==> !h.muxers[m].attached
    requires Moved(h.enc, e, 0, 0)
    ensures Balanced(h.(enc := e)) && Balanced(h.(enc := e, muxers := h.muxers[m := x]))
  {
    PointersFollow(h, h.(enc := e), 0, 0);
    UsersCounted(h.muxers, m, x, false);
    UsersCounted(h.muxers, m, x, true);
  }

  lemma AttachBalanced<M>(h: Handler<M>, m: M, video: bool, audio: bool, o: Outcome)
    requires WellFormed(h) && Balanced(h) && !Attached(h, m)
    ensures Balanced(AttachUserMuxer(h, m, video, audio, o))
  {
    var (e, v, a) := AttachRefs(h.enc, video, audio, o);
    if o.initUri && o.startJob {
      AttachedBalanced(h, m, e, Mux(v, a, true));
    } else {
      NotAttachedBalanced(h, m, AttachUndo(e, v, a), Mux(v, a, false));
    }
  }

  /** A late failure leaves the muxer attached with its new pointers and the counts as they were. */
  lemma ReattachFails<M>(h: Handler<M>, m: M, e: Encoders, x: Mux)
    requires WellFormed(h) && Balanced(h) && Attached(h, m) && x.attached && Moved(h.enc, e, 0, 0)
    requires (x.video.Some? && e.h264.Live? ==> Points(x.video, e.h264)) &&
             (x.audio.Some? && e.audio.Live? ==> Points(x.audio, e.audio))
    requires x.audio.Some? ==> h.enc.capture
    ensures Balanced(h.(enc := e, muxers := h.muxers[m := x])) <==>
            (x.video.Some? <==> h.muxers[m].video.Some?) && (x.audio.Some? <==> h.muxers[m].audio.Some?)
  {
    var old_ := h.muxers[m];
    var h' := h.(enc := e, muxers := h.muxers[m := x]);
    assert PointsLive(old_, h.enc) && PointerMade(old_, h.enc.gens, h.enc.capture);
    UsersCounted(h.muxers, m, x, false);
    UsersCounted(h.muxers, m, x, true);
    if x.video.Some? == old_.video.Some? && x.audio.Some? == old_.audio.Some? {
      PointersFollow(h, h.(enc := e), 0, 0);
      forall n | n in h'.muxers ensures PointsLive(h'.muxers[n], e) {
        assert PointsLive(h.muxers[n], e);
      }
    }
  }

  /** Attaching an attached muxer keeps the counts if and only if no pointers are lost. */
  lemma ReattachExact<M>(h: Handler<M>, m: M, video: bool, audio: bool, o: Outcome)
    requires WellFormed(h) && Balanced(h) && Attached(h, m)
    ensures Balanced(AttachUserMuxer(h, m, video, audio, o)) <==> !LosesPointers(h, m, video, audio, o)
  {
    hide AttachRefs, AttachUndo;
    var (e, v, a) := AttachRefs(h.enc, video, audio, o);
    var x := h.muxers[m];
    AttachedAudio(h.enc, video, audio, o);
    assert PointsLive(x, h.enc) && PointerMade(x, h.enc.gens, h.enc.capture);
    if !o.initUri {
      PointersFollow(h, h.(enc := AttachUndo(e, v, a)), 0, 0);
    } else if !o.startJob {
      UndonePoints(h.enc, e, v, a);
      ReattachFails(h, m, AttachUndo(e, v, a), Mux(v, a, true));
    } else if x.video.Some? || x.audio.Some? {
      ReattachTakes(h, m, e, Mux(v, a, true));
    } else {
      AttachedBalanced(h, m, e, Mux(v, a, true));
    }
  }

  /** References taken again by a muxer that holds some are held twice. */
  lemma ReattachTakes<M>(h: Handler<M>, m: M, e: Encoders, x: Mux)
    requires WellFormed(h) && Balanced(h) && Attached(h, m) && x.attached
    requires h.muxers[m].video.Some? || h.muxers[m].audio.Some?
    requires Moved(h.enc, e, One(x.video.Some?), One(x.audio.Some?))
    ensures !Balanced(h.(enc := e, muxers := h.muxers[m := x]))
  {
    assert PointerMade(h.muxers[m], h.enc.gens, h.enc.capture);
    UsersCounted(h.muxers, m, x, false);
    UsersCounted(h.muxers, m, x, true);
  }

  lemma AttachedAudio(e: Encoders, video: bool, audio: bool, o: Outcome)
    requires Sound(e)
    ensures AttachRefs(e, video, audio, o).2.Some? ==> e.capture
  {
  }

  lemma UndonePoints(e: Encoders, taken: Encoders, v: Option<nat>, a: Option<nat>)
    requires Sound(e) && Moved(e, taken, One(v.Some?), One(a.Some?))
    requires (v.Some? ==> Points(v, taken.h264)) && (a.Some? ==> Points(a, taken.audio))
    ensures var r := AttachUndo(taken, v, a);
            && (v.Some? && r.h264.Live? ==> Points(v, r.h264))
            && (a.Some? && r.audio.Live? ==> Points(a, r.audio))
            && Moved(e, r, 0, 0)
  {
  }

  lemma DetachExact<M>(h: Handler<M>, m: M, o: Outcome)
    requires WellFormed(h) && Balanced(h)
    ensures Balanced(DetachUserMuxer(h, m)) <==> !Unpaired(h, DetachMuxer(m), o)
  {
    if m in h.muxers {
      var h' := DetachUserMuxer(h, m);
      var x := h.muxers[m];
      assert PointsLive(x, h.enc) && PointerMade(x, h.enc.gens, h.enc.capture);
      UsersCounted(h.muxers, m, h'.muxers[m], false);
      UsersCounted(h.muxers, m, h'.muxers[m], true);
      if !Unpaired(h, DetachMuxer(m), o) {
        assert Counted(h');
        forall n | n in h'.muxers ensures PointsLive(h'.muxers[n], h'.enc) {
          assert PointsLive(h.muxers[n], h.enc) && PointerMade(h.muxers[n], h.enc.gens, h.enc.capture);
          assert Holding(h'.muxers[n], false) ==> n in Users(h'.muxers, false);
          assert Holding(h'.muxers[n], true) ==> n in Users(h'.muxers, true);
        }
      }
    }
  }

  /** The holders of a handler that are not user muxers. */
  function OwnHolders<M>(h: Handler<M>): nat {
    h.encodes + One(h.cache) + One(h.file)
  }

  /** The counts move with the holders if and only if the command was paired. */
  predicate CountsFollow<M>(h: Handler<M>, h': Handler<M>, paired: bool) {
    var dv := Refs(h'.enc.h264) - Refs(h.enc.h264);
    var da := Refs(h'.enc.audio) - Refs(h.enc.audio);
    var d := OwnHolders(h') - OwnHolders(h);
    && h'.muxers == h.muxers && Moved(h.enc, h'.enc, dv, da)
    && (paired <==> dv == d && (h.enc.capture ==> da == d))
  }

  lemma StartFollows<M>(h: Handler<M>, msg: Command<M>, o: Outcome)
    requires Sound(h.enc) && (msg.StartEncode? || msg.StartCache? || msg.StartRecord?)
    ensures CountsFollow(h, Handle(h, msg, o), !Unpaired(h, msg, o))
  {
    hide BothRef, MuxerAlloc;
  }

  lemma OtherFollows<M>(h: Handler<M>, msg: Command<M>, o: Outcome)
    requires Sound(h.enc) && !msg.AttachMuxer? && !msg.DetachMuxer?
    requires !msg.StartEncode? && !msg.StartCache? && !msg.StartRecord?
    requires OwnHolders(h) > 0 ==> h.enc.h264.Live? && (h.enc.capture ==> h.enc.audio.Live?)
    ensures CountsFollow(h, Handle(h, msg, o), !Unpaired(h, msg, o))
  {
    hide AttachUserMuxer, DetachUserMuxer, MuxerAlloc, BothRef;
  }

  lemma SameMuxersExact<M>(h: Handler<M>, h': Handler<M>, paired: bool)
    requires WellFormed(h) && Balanced(h) && CountsFollow(h, h', paired)
    ensures Balanced(h') <==> paired
  {
    if paired {
      PointersFollow(h, h', Refs(h'.enc.h264) - Refs(h.enc.h264), Refs(h'.enc.audio) - Refs(h.enc.audio));
    }
  }

  /** One message keeps the counts equal to the holders if and only if it is not unpaired. */
  lemma HandleExact<M>(h: Handler<M>, msg: Command<M>, o: Outcome)
    requires WellFormed(h) && Balanced(h)
    ensures Balanced(Handle(h, msg, o)) <==> !Unpaired(h, msg, o)
  {
    if msg.AttachMuxer? {
      if Attached(h, msg.muxer) {
        ReattachExact(h, msg.muxer, msg.video, msg.audio, o);
      } else {
        AttachBalanced(h, msg.muxer, msg.video, msg.audio, o);
      }
    } else if msg.DetachMuxer? {
      DetachExact(h, msg.muxer, o);
    } else if msg.StartEncode? || msg.StartCache? || msg.StartRecord? {
      StartFollows(h, msg, o);
      SameMuxersExact(h, Handle(h, msg, o), !Unpaired(h, msg, o));
    } else {
      OtherFollows(h, msg, o);
      SameMuxersExact(h, Handle(h, msg, o), !Unpaired(h, msg, o));
    }
  }

  // ---- what each command takes, by its flags and outcomes alone ----

  /** A video encoder is there, or can be made. */
  predicate VideoHad(e: Encoders, o: Outcome) {
    e.h264.Live? || o.h264Init
  }

  /** An audio encoder is there, or can be made and its thread runs. */
  predicate AudioHad(e: Encoders, o: Outcome) {
    e.audio.Live? || (o.audioInit && (e.audioEnable || o.audioThread))
  }

  /** An attach takes the encoders it was asked for and that could be had, and touches no other. */
  lemma AttachTakes(e: Encoders, video: bool, audio: bool, o: Outcome)
    requires Sound(e)
    ensures var (r, v, a) := AttachRefs(e, video, audio, o);
            && (v.Some? <==> video && (e.h264.Live? || o.h264Init))
            && (a.Some? <==> audio && e.capture && (e.audio.Live? || (o.audioInit && (e.audioEnable || o.audioThread))))
            && (!video ==> r.h264 == e.h264)
            && (!audio ==> r.audio == e.audio && r.audioTid == e.audioTid && r.audioEnable == e.audioEnable)
  {
  }

  /** After a successful attach the muxer is attached and points at exactly the live encoders that it asked for and that
      could be had, one reference each. A failed attach takes no reference, and one that fails at its address stores
      nothing. */
  lemma AttachHolds<M>(h: Handler<M>, m: M, video: bool, audio: bool, o: Outcome)
    requires Sound(h.enc)
    ensures var h' := AttachUserMuxer(h, m, video, audio, o);
            var hasVideo, hasAudio := video && VideoHad(h.enc, o), audio && h.enc.capture && AudioHad(h.enc, o);
            && (o.initUri ==>
                  && m in h'.muxers
                  && (h'.muxers[m].video.Some? <==> hasVideo) && (h'.muxers[m].audio.Some? <==> hasAudio))
            && (o.initUri && o.startJob ==>
                  && h'.muxers[m].attached
                  && (hasVideo ==> Points(h'.muxers[m].video, h'.enc.h264))
                  && (hasAudio ==> Points(h'.muxers[m].audio, h'.enc.audio)))
            && (!o.initUri ==> h'.muxers == h.muxers)
            && (o.initUri && !o.startJob ==> (h'.muxers[m].attached <==> m in h.muxers && h.muxers[m].attached))
            && Refs(h'.enc.h264) == Refs(h.enc.h264) + One(o.initUri && o.startJob && hasVideo)
            && Refs(h'.enc.audio) == Refs(h.enc.audio) + One(o.initUri && o.startJob && hasAudio)
  {
    hide AttachRefs, AttachUndo;
    AttachTakes(h.enc, video, audio, o);
  }

  /** A detach keeps the muxer's pointers, drops one reference for each that is live, and only then is it detached. */
  lemma DetachGivesBack<M>(h: Handler<M>, m: M)
    requires Sound(h.enc) && m in h.muxers
    ensures var h' := DetachUserMuxer(h, m);
            var x := h.muxers[m];
            && m in h'.muxers && !h'.muxers[m].attached
            && h'.muxers[m].video == x.video && h'.muxers[m].audio == x.audio
            && Refs(h'.enc.h264) == Refs(h.enc.h264) - One(Points(x.video, h.enc.h264))
            && Refs(h'.enc.audio) == Refs(h.enc.audio) - One(Points(x.audio, h.enc.audio))
  {
    hide DetachUnrefs;
  }

  /** Both encoders are had, or neither reference is kept; without a capture device only the video encoder counts. */
  lemma BothExactly(e: Encoders, o: Outcome)
    requires Sound(e)
    ensures BothRef(e, o).1 <==> VideoHad(e, o) && (e.capture ==> AudioHad(e, o))
  {
  }

  /** A muxer is started when both encoders are had and it can be created, addressed and started. */
  predicate MuxerStarts(e: Encoders, o: Outcome) {
    VideoHad(e, o) && (e.capture ==> AudioHad(e, o)) && o.create && o.initUri && o.startJob
  }

  lemma AllocExactly(e: Encoders, o: Outcome)
    requires Sound(e)
    ensures MuxerAlloc(e, o).1 <==> MuxerStarts(e, o)
  {
    hide BothRef, BothUnref, VideoHad, AudioHad;
    BothExactly(e, o);
  }

  /** Which encode, slot and muxer every command changes, and that it changes no other. */
  lemma CommandExactly<M>(h: Handler<M>, msg: Command<M>, o: Outcome)
    requires Sound(h.enc)
    ensures var h' := Handle(h, msg, o);
            && (msg.StartEncode? ==>
                  h'.encodes == h.encodes + One(VideoHad(h.enc, o) && (h.enc.capture ==> AudioHad(h.enc, o))))
            && (msg.StopEncode? ==> h'.encodes == if h.encodes == 0 then 0 else h.encodes - 1)
            && (!msg.StartEncode? && !msg.StopEncode? ==> h'.encodes == h.encodes)
            && (h'.cache <==> (h.cache && !msg.StopCache?) || (msg.StartCache? && MuxerStarts(h.enc, o)))
            && (h'.file <==> (h.file && !msg.StopRecord? && !(msg.SwitchRecord? && !o.initUri))
                             || (msg.StartRecord? && MuxerStarts(h.enc, o)))
            && (forall m :: m in h.muxers && !((msg.AttachMuxer? || msg.DetachMuxer?) && msg.muxer == m) ==>
                  m in h'.muxers && h'.muxers[m] == h.muxers[m])
            && (forall m :: m in h'.muxers && m !in h.muxers ==> msg.AttachMuxer? && msg.muxer == m && o.initUri)
  {
    hide BothRef, BothUnref, MuxerAlloc, MuxerStarts, VideoHad, AudioHad, AttachRefs, AttachUndo, DetachUnrefs, Sound;
    BothExactly(h.enc, o);
    AllocExactly(h.enc, o);
  }

  /** The audio loop is enabled by the first reference to the audio encoder and stopped by the last, no reference in
      between touches it, and the video encoder's references never do. */
  lemma AudioLoopFollows(e: Encoders, o: Outcome)
    requires Sound(e)
    ensures var (r, ok) := AudioRef(e, o);
            && (ok <==> (e.capture ==> AudioHad(e, o)))
            && (r.audioEnable <==> if e.audio.Live? then e.audioEnable else ok && e.capture)
            && (r.audioTid <==> e.audio.Live? || (ok && e.capture))
            && r.h264 == e.h264
    ensures var u := AudioUnref(e);
            && (u.audioTid <==> Refs(e.audio) > 1) && (u.audioEnable <==> e.audioEnable && Refs(e.audio) > 1)
            && u.h264 == e.h264
    ensures var r, u := H264Ref(e, o).0, H264Unref(e);
            && r.audio == u.audio == e.audio && r.audioTid == u.audioTid == e.audioTid
            && r.audioEnable == u.audioEnable == e.audioEnable
  {
  }

  /** The attach the application sends for a stream without sound: the video encoder and nothing else. */
  lemma VideoOnlyAttach()
    ensures var h := AttachUserMuxer(Fresh<nat>(true), 7, true, false, AllWell);
            h.enc.h264 == Live(0, 1) && h.enc.audio == Null && h.muxers == map[7 := Mux(Some(0), None, true)]
  {
  }

  /** A recording whose restart fails leaves both encoders referenced with nobody holding them. */
  lemma FailedRestartLeaks(h: Handler<nat>)
    requires h == Handler(Encoders(true, 2, Live(0, 1), Live(1, 1), true, true), 0, false, true, map[])
    ensures WellFormed(h) && Balanced(h) && Holders(h, false) == 1
    ensures var h' := RestartFile(h, AllWell.(initUri := false));
            Refs(h'.enc.h264) == 1 && Refs(h'.enc.audio) == 1 && Holders(h', false) == 0 && Holders(h', true) == 0
  {
    assert Users(h.muxers, false) == {} && Users(h.muxers, true) == {};
  }

  /** A stop of an encode whose start failed takes the video encoder from the user muxer that holds it. */
  lemma StopAfterFailedStartUnrefs(h: Handler<nat>)
    requires h == Handler(Encoders(true, 1, Live(0, 1), Null, false, false), 0, false, false,
             map[7 := Mux(Some(0), None, true)])
    ensures !BothRef(h.enc, AllWell.(audioInit := false)).1
    ensures WellFormed(h) && Balanced(h) && Holders(h, false) == 1 && BothUnref(h.enc).h264.Null?
  {
    assert Users(h.muxers, false) == {7} && Users(h.muxers, true) == {};
    assert AudioUnref(h.enc) == h.enc;
  }
}

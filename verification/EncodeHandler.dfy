/** The encoder thread's message handlers on the heap: reference-counted encoder objects, the pointers
    that user muxers store to them, and the handler that owns both (encode_handler.cpp, video_common.cpp). */
module EncodeHandlers {
  import opened EncoderModel

  /** A reference-counted object. Its generation stands for its address and never changes. */
  class VideoObject {
    const gen: nat
    var refCnt: nat

    constructor (gen: nat)
      ensures this.gen == gen && refCnt == 1
    {
      this.gen := gen;
      refCnt := 1;
    }

    method Ref()
      modifies this
      ensures refCnt == old(refCnt) + 1
    {
      refCnt := refCnt + 1;
    }

    /** False when the last reference went and the object was deleted. */
    method Unref() returns (alive: bool)
      requires refCnt > 0
      modifies this
      ensures refCnt == old(refCnt) - 1 && (alive <==> refCnt > 0)
    {
      refCnt := refCnt - 1;
      alive := refCnt != 0;
    }
  }

  class CameraMuxer {
    constructor () {
    }
  }

  /** A user muxer's v_encoder and a_encoder, and whether the dispatcher sends packets to it. */
  datatype Pointers = Pointers(video: VideoObject?, audio: VideoObject?, attached: bool)

  class EncodeHandler {
    const audioCapture: bool
    var h264Encoder: VideoObject?
    var audioEncoder: VideoObject?
    var audioTid: bool
    var audioEnable: bool
    var cameraCache: CameraMuxer?
    var cameraFile: CameraMuxer?
    var nextGen: nat
    ghost var encodes: nat
    var records: map<CameraMuxer, Pointers>  // user muxers ever given their encoders

    static ghost function RefView(e: VideoObject?): Encoder
      reads e
    {
      if e == null then Null else Live(e.gen, e.refCnt)
    }

    static ghost function PointerView(e: VideoObject?): Option<nat> {
      if e == null then None else Some(e.gen)
    }

    ghost function EncView(): Encoders
      reads this`h264Encoder, this`audioEncoder, this`nextGen, this`audioTid, this`audioEnable, h264Encoder,
            audioEncoder
    {
      Encoders(audioCapture, nextGen, RefView(h264Encoder), RefView(audioEncoder), audioTid, audioEnable)
    }

    ghost function View(): Handler<CameraMuxer>
      reads this, h264Encoder, audioEncoder
    {
      Handler(EncView(), encodes, cameraCache != null, cameraFile != null, RecordView(records))
    }

    ghost predicate EncodersValid()
      reads this`h264Encoder, this`audioEncoder, this`nextGen, this`audioTid, this`audioEnable, h264Encoder,
            audioEncoder
    {
      Sound(EncView()) && (h264Encoder != null ==> h264Encoder != audioEncoder)
    }

    static ghost predicate SameObject(p: VideoObject?, e: VideoObject?) {
      p != null && e != null && p.gen == e.gen ==> p == e
    }

    static ghost function MuxView(p: Pointers): Mux {
      Mux(PointerView(p.video), PointerView(p.audio), p.attached)
    }

    static ghost function RecordView(records: map<CameraMuxer, Pointers>): map<CameraMuxer, Mux> {
      map m | m in records :: MuxView(records[m])
    }

    static lemma RecordViewUpdated(records: map<CameraMuxer, Pointers>, m: CameraMuxer, p: Pointers)
      ensures RecordView(records[m := p]) == RecordView(records)[m := MuxView(p)]
    {
    }

    static ghost predicate PointersValid(p: Pointers, h264: VideoObject?, audio: VideoObject?, gens: nat) {
      && SameObject(p.video, h264) && SameObject(p.audio, audio)
      && (p.video != null ==> p.video.gen < gens) && (p.audio != null ==> p.audio.gen < gens)
    }

    /** Stored pointers are older than nextGen, and one of a live encoder's generation is that encoder. */
    static ghost predicate RecordsValid(records: map<CameraMuxer, Pointers>, h264: VideoObject?, audio: VideoObject?,
        gens: nat)
    {
      forall m | m in records :: PointersValid(records[m], h264, audio, gens)
    }

    ghost predicate Valid()
      reads this, h264Encoder, audioEncoder
    {
      EncodersValid() && RecordsValid(records, h264Encoder, audioEncoder, nextGen)
    }

    /** An encoder pointer of the handler changes only to NULL or to a newer object. */
    static ghost predicate Follows(before: VideoObject?, after: VideoObject?, gen: nat) {
      after == null || after == before || after.gen >= gen
    }

    static lemma StillPoint(ms: map<CameraMuxer, Pointers>, v: VideoObject?, a: VideoObject?, gens: nat,
        v': VideoObject?, a': VideoObject?, gens': nat)
      requires RecordsValid(ms, v, a, gens) && Follows(v, v', gens) && Follows(a, a', gens) && gens <= gens'
      ensures RecordsValid(ms, v', a', gens')
    {
    }

    constructor (audioCapture: bool)
      ensures Valid() && View() == Fresh(audioCapture)
    {
      this.audioCapture := audioCapture;
      h264Encoder, audioEncoder := null, null;
      audioTid, audioEnable := false, false;
      cameraCache, cameraFile := null, null;
      nextGen, encodes := 0, 0;
      records := map[];
    }

    method H264EncoderRef(o: Outcome) returns (ret: int)
      requires EncodersValid()
      modifies this`h264Encoder, this`nextGen, h264Encoder
      ensures EncodersValid() && (EncView(), ret == 0) == H264Ref(old(EncView()), o)
      ensures ret == 0 || ret == -1
      ensures h264Encoder == old(h264Encoder) ||
              (old(h264Encoder) == null && fresh(h264Encoder) && h264Encoder.gen == old(nextGen))
    {
      if h264Encoder == null {
        var encoder := new VideoObject(nextGen);
        if !o.h264Init {
          var _ := encoder.Unref();
          return -1;
        }
        nextGen := nextGen + 1;
        h264Encoder := encoder;
      } else {
        h264Encoder.Ref();
      }
      return 0;
    }

    method H264EncoderUnref()
      requires EncodersValid()
      modifies this`h264Encoder, h264Encoder
      ensures EncodersValid() && EncView() == H264Unref(old(EncView()))
      ensures h264Encoder == old(h264Encoder) || h264Encoder == null
    {
      if h264Encoder != null {
        var alive := h264Encoder.Unref();
        if !alive {
          h264Encoder := null;
        }
      }
    }

    method EncodeStartAudioThread(o: Outcome) returns (ret: int)
      modifies this`audioEnable, this`audioTid
      ensures ret == if audioCapture && !old(audioEnable) && !o.audioThread then -1 else 0
      ensures audioTid == (old(audioTid) || (audioCapture && !old(audioEnable) && o.audioThread))
      ensures audioEnable == (old(audioEnable) || (audioCapture && o.audioThread))
    {
      if audioCapture && !audioEnable {
        if !o.audioThread {
          return -1;
        }
        audioEnable := true;
        audioTid := true;
      }
      return 0;
    }

    method EncodeStopAudioThread()
      modifies this`audioEnable, this`audioTid
      ensures !audioTid && audioEnable == (old(audioEnable) && !old(audioTid))
    {
      if audioTid {
        audioEnable := false;
        audioTid := false;
      }
    }

    method AudioEncoderRef(o: Outcome) returns (ret: int)
      requires EncodersValid()
      modifies this`audioEncoder, this`nextGen, this`audioEnable, this`audioTid, audioEncoder
      ensures EncodersValid() && (EncView(), ret == 0) == AudioRef(old(EncView()), o)
      ensures ret == 0 || ret == -1
      ensures audioEncoder == old(audioEncoder) ||
              (old(audioEncoder) == null && fresh(audioEncoder) && audioEncoder.gen == old(nextGen))
    {
      if !audioCapture {
        return 0;
      }
      if audioEncoder == null {
        var encoder := new VideoObject(nextGen);
        if !o.audioInit {
          var _ := encoder.Unref();
          return -1;
        }
        nextGen := nextGen + 1;
        audioEncoder := encoder;
      } else {
        audioEncoder.Ref();
      }
      if audioEncoder.refCnt == 1 {
        var started := EncodeStartAudioThread(o);
        if started != 0 {
          var alive := audioEncoder.Unref();
          if !alive {
            audioEncoder := null;
          }
          return -1;
        }
      }
      return 0;
    }

    method AudioEncoderUnref()
      requires EncodersValid()
      modifies this`audioEncoder, this`audioEnable, this`audioTid, audioEncoder
      ensures EncodersValid() && EncView() == AudioUnref(old(EncView()))
      ensures audioEncoder == old(audioEncoder) || audioEncoder == null
    {
      if audioEncoder == null {
        return;
      }
      if audioEncoder.refCnt == 1 {
        EncodeStopAudioThread();
      }
      var alive := audioEncoder.Unref();
      if !alive {
        audioEncoder := null;
      }
    }

    method H264AudioEncoderRef(o: Outcome) returns (ret: int)
      requires EncodersValid()
      modifies this`h264Encoder, this`audioEncoder, this`nextGen, this`audioEnable, this`audioTid, h264Encoder,
               audioEncoder
      ensures EncodersValid() && (EncView(), ret == 0) == BothRef(old(EncView()), o)
      ensures ret == 0 || ret == -1
      ensures Follows(old(h264Encoder), h264Encoder, old(nextGen)) &&
              Follows(old(audioEncoder), audioEncoder, old(nextGen))
      ensures old(nextGen) <= nextGen
      ensures h264Encoder == null || h264Encoder == old(h264Encoder) || fresh(h264Encoder)
      ensures audioEncoder == null || audioEncoder == old(audioEncoder) || fresh(audioEncoder)
    {
      ret := H264EncoderRef(o);
      if ret == 0 {
        ret := AudioEncoderRef(o);
        if ret != 0 {
          H264EncoderUnref();
        }
      }
    }

    method H264AudioEncoderUnref()
      requires EncodersValid()
      modifies this`h264Encoder, this`audioEncoder, this`audioEnable, this`audioTid, h264Encoder, audioEncoder
      ensures EncodersValid() && EncView() == BothUnref(old(EncView()))
      ensures h264Encoder == null || h264Encoder == old(h264Encoder)
      ensures audioEncoder == null || audioEncoder == old(audioEncoder)
    {
      AudioEncoderUnref();
      H264EncoderUnref();
    }

    /** MUXER_ALLOC: the new muxer, or null with every reference given back. */
    method MuxerAlloc(o: Outcome) returns (muxer: CameraMuxer?)
      requires EncodersValid()
      modifies this`h264Encoder, this`audioEncoder, this`nextGen, this`audioEnable, this`audioTid, h264Encoder,
               audioEncoder
      ensures EncodersValid() && (EncView(), muxer != null) == EncoderModel.MuxerAlloc(old(EncView()), o)
      ensures Follows(old(h264Encoder), h264Encoder, old(nextGen)) &&
              Follows(old(audioEncoder), audioEncoder, old(nextGen))
      ensures old(nextGen) <= nextGen
    {
      hide BothRef, BothUnref, Sound;
      var ret := H264AudioEncoderRef(o);
      if ret < 0 {
        return null;
      }
      if o.create {
        muxer := new CameraMuxer();
        if o.initUri {
          if o.startJob {
            return;
          }
        }
      }
      H264AudioEncoderUnref();
      muxer := null;
    }

    method AttachRefs(needVideo: bool, needAudio: bool, o: Outcome)
      returns (vencoder: VideoObject?, aencoder: VideoObject?)
      requires EncodersValid()
      modifies this`h264Encoder, this`audioEncoder, this`nextGen, this`audioEnable, this`audioTid, h264Encoder,
               audioEncoder
      ensures EncodersValid()
      ensures (EncView(), PointerView(vencoder), PointerView(aencoder)) ==
              EncoderModel.AttachRefs(old(EncView()), needVideo, needAudio, o)
      ensures vencoder == null || vencoder == h264Encoder
      ensures aencoder == null || aencoder == audioEncoder
      ensures Follows(old(h264Encoder), h264Encoder, old(nextGen)) &&
              Follows(old(audioEncoder), audioEncoder, old(nextGen))
      ensures old(nextGen) <= nextGen
      ensures h264Encoder == null || h264Encoder == old(h264Encoder) || fresh(h264Encoder)
      ensures audioEncoder == null || audioEncoder == old(audioEncoder) || fresh(audioEncoder)
    {
      vencoder, aencoder := null, null;
      if needVideo {
        var ret := H264EncoderRef(o);
        vencoder := if ret != 0 then null else h264Encoder;
      }
      if needAudio {
        var ret := AudioEncoderRef(o);
        aencoder := if ret != 0 then null else audioEncoder;
      }
    }

    method AttachUndo(vencoder: VideoObject?, aencoder: VideoObject?)
      requires EncodersValid()
      requires (vencoder == null || vencoder == h264Encoder) && (aencoder == null || aencoder == audioEncoder)
      modifies this`h264Encoder, this`audioEncoder, this`audioEnable, this`audioTid, h264Encoder, audioEncoder
      ensures EncodersValid() &&
              EncView() == EncoderModel.AttachUndo(old(EncView()), PointerView(vencoder), PointerView(aencoder))
      ensures h264Encoder == null || h264Encoder == old(h264Encoder)
      ensures audioEncoder == null || audioEncoder == old(audioEncoder)
    {
      if vencoder != null && vencoder == h264Encoder {
        H264EncoderUnref();
      }
      if aencoder != null {
        AudioEncoderUnref();
      }
    }

    method AttachUserMuxer(muxer: CameraMuxer, needVideo: bool, needAudio: bool, o: Outcome)
      requires Valid()
      modifies this`h264Encoder, this`audioEncoder, this`nextGen, this`audioEnable, this`audioTid, this`records,
               h264Encoder, audioEncoder
      ensures Valid() && View() == EncoderModel.AttachUserMuxer(old(View()), muxer, needVideo, needAudio, o)
    {
      hide EncoderModel.AttachRefs, EncoderModel.AttachUndo, Sound, RecordsValid;
      ghost var v0, a0, g0 := h264Encoder, audioEncoder, nextGen;
      var vencoder, aencoder := AttachRefs(needVideo, needAudio, o);
      StillPoint(records, v0, a0, g0, h264Encoder, audioEncoder, nextGen);
      AttachJob(muxer, vencoder, aencoder, o);
    }

    /** The part of attach_user_muxer after the references are taken. */
    method AttachJob(muxer: CameraMuxer, vencoder: VideoObject?, aencoder: VideoObject?, o: Outcome)
      requires Valid()
      requires (vencoder == null || vencoder == h264Encoder) && (aencoder == null || aencoder == audioEncoder)
      modifies this`h264Encoder, this`audioEncoder, this`audioEnable, this`audioTid, this`records, h264Encoder,
               audioEncoder
      ensures Valid()
      ensures EncView() ==
              if o.initUri && o.startJob then old(EncView())
              else EncoderModel.AttachUndo(old(EncView()), PointerView(vencoder), PointerView(aencoder))
      ensures RecordView(records) ==
              if !o.initUri then RecordView(old(records))
              else
                var attached := o.startJob || (muxer in old(records) && old(records)[muxer].attached);
                RecordView(old(records))[muxer := Mux(PointerView(vencoder), PointerView(aencoder), attached)]
    {
      hide EncoderModel.AttachUndo;
      if o.initUri {
        SetEncoder(muxer, Pointers(vencoder, aencoder, o.startJob || (muxer in records && records[muxer].attached)));
      }
      if !o.initUri || !o.startJob {
        ghost var v0, a0 := h264Encoder, audioEncoder;
        AttachUndo(vencoder, aencoder);
        assert Follows(v0, h264Encoder, nextGen) && Follows(a0, audioEncoder, nextGen);
        StillPoint(records, v0, a0, nextGen, h264Encoder, audioEncoder, nextGen);
      }
    }

    method SetEncoder(muxer: CameraMuxer, p: Pointers)
      requires Valid() && PointersValid(p, h264Encoder, audioEncoder, nextGen)
      modifies this`records
      ensures Valid() && RecordView(records) == RecordView(old(records))[muxer := MuxView(p)]
    {
      RecordViewUpdated(records, muxer, p);
      records := records[muxer := p];
    }

    method DetachUnrefs(p: Pointers)
      requires EncodersValid()
      requires SameObject(p.video, h264Encoder) && SameObject(p.audio, audioEncoder)
      modifies this`h264Encoder, this`audioEncoder, this`audioEnable, this`audioTid, h264Encoder, audioEncoder
      ensures EncodersValid()
      ensures EncView() == EncoderModel.DetachUnrefs(old(EncView()), MuxView(p))
      ensures h264Encoder == null || h264Encoder == old(h264Encoder)
      ensures audioEncoder == null || audioEncoder == old(audioEncoder)
    {
      if p.video != null {
        if p.video == h264Encoder {
          H264EncoderUnref();
        }
      }
      if p.audio != null && p.audio == audioEncoder {
        AudioEncoderUnref();
      }
    }

    /** A muxer that was never given its encoders points at none. */
    method DetachUserMuxer(muxer: CameraMuxer)
      requires Valid()
      modifies this`h264Encoder, this`audioEncoder, this`nextGen, this`audioEnable, this`audioTid, this`records,
               h264Encoder, audioEncoder
      ensures Valid() && View() == EncoderModel.DetachUserMuxer(old(View()), muxer)
    {
      hide EncoderModel.DetachUnrefs, Sound;
      if muxer in records {
        var p := records[muxer];
        assert PointersValid(p, h264Encoder, audioEncoder, nextGen);
        ghost var v0, a0 := h264Encoder, audioEncoder;
        DetachUnrefs(p);
        StillPoint(records, v0, a0, nextGen, h264Encoder, audioEncoder, nextGen);
        RecordViewUpdated(records, muxer, p.(attached := false));
        records := records[muxer := p.(attached := false)];
      }
    }

    /** Restarting the file muxer's job; when init_uri fails the muxer is deleted and no reference given back. */
    method FileEncodeStartJob(o: Outcome) returns (ret: int)
      requires Valid() && cameraFile != null
      modifies this`cameraFile
      ensures Valid() && View() == RestartFile(old(View()), o)
    {
      if !o.initUri {
        cameraFile := null;
        return -1;
      }
      if o.startJob {
        return 0;
      }
      return -1;
    }

    method StartEncode(o: Outcome) returns (ret: int)
      requires Valid()
      modifies this`h264Encoder, this`audioEncoder, this`nextGen, this`audioEnable, this`audioTid, this`encodes,
               h264Encoder, audioEncoder
      ensures Valid()
      ensures var (e, ok) := BothRef(old(EncView()), o);
              View() == old(View()).(enc := e, encodes := old(encodes) + One(ok))
    {
      hide BothRef, Sound;
      ghost var v0, a0, g0 := h264Encoder, audioEncoder, nextGen;
      ret := H264AudioEncoderRef(o);
      if ret == 0 {
        encodes := encodes + 1;
      }
      StillPoint(records, v0, a0, g0, h264Encoder, audioEncoder, nextGen);
    }

    method StopEncode()
      requires Valid()
      modifies this`h264Encoder, this`audioEncoder, this`nextGen, this`audioEnable, this`audioTid, this`encodes,
               h264Encoder, audioEncoder
      ensures Valid()
      ensures View() == old(View()).(enc := BothUnref(old(EncView())), encodes := old(encodes) - One(old(encodes) > 0))
    {
      ghost var v0, a0 := h264Encoder, audioEncoder;
      H264AudioEncoderUnref();
      encodes := if encodes > 0 then encodes - 1 else 0;
      StillPoint(records, v0, a0, nextGen, h264Encoder, audioEncoder, nextGen);
    }

    /** START_CACHE and START_RECODEFILE: the slot is empty, as MUXER_ALLOC asserts. */
    method StartMuxer(cache: bool, o: Outcome) returns (ret: int)
      requires Valid() && (if cache then cameraCache else cameraFile) == null
      modifies this`h264Encoder, this`audioEncoder, this`nextGen, this`audioEnable, this`audioTid, this`cameraCache,
               this`cameraFile, h264Encoder, audioEncoder
      ensures Valid()
      ensures var (e, ok) := EncoderModel.MuxerAlloc(old(EncView()), o);
              View() == if cache then old(View()).(enc := e, cache := ok) else old(View()).(enc := e, file := ok)
    {
      hide EncoderModel.MuxerAlloc, Sound;
      ghost var v0, a0, g0 := h264Encoder, audioEncoder, nextGen;
      var muxer := MuxerAlloc(o);
      ret := if muxer == null then -1 else 0;
      if cache {
        cameraCache := muxer;
      } else {
        cameraFile := muxer;
      }
      StillPoint(records, v0, a0, g0, h264Encoder, audioEncoder, nextGen);
    }

    /** STOP_CACHE and the deleting STOP_RECODEFILE. */
    method StopMuxer(cache: bool)
      requires Valid()
      modifies this`h264Encoder, this`audioEncoder, this`nextGen, this`audioEnable, this`audioTid, this`cameraCache,
               this`cameraFile, h264Encoder, audioEncoder
      ensures Valid()
      ensures View() ==
              if (if cache then old(cameraCache) else old(cameraFile)) == null then old(View())
              else if cache then old(View()).(enc := BothUnref(old(EncView())), cache := false)
              else old(View()).(enc := BothUnref(old(EncView())), file := false)
    {
      if (if cache then cameraCache else cameraFile) == null {
        return;
      }
      ghost var v0, a0 := h264Encoder, audioEncoder;
      if cache {
        cameraCache := null;
      } else {
        cameraFile := null;
      }
      H264AudioEncoderUnref();
      StillPoint(records, v0, a0, nextGen, h264Encoder, audioEncoder, nextGen);
    }

    /** The message switch of h264_encode_process. */
    method HandleMessage(msg: Command<CameraMuxer>, o: Outcome) returns (ret: int)
      requires Valid() && Admissible(View(), msg)
      modifies this, h264Encoder, audioEncoder
      ensures Valid() && View() == Handle(old(View()), msg, o)
    {
      ret := 0;
      match msg {
        case StartEncode => ret := StartEncode(o);
        case StopEncode => StopEncode();
        case StartCache => ret := StartMuxer(true, o);
        case StopCache => StopMuxer(true);
        case StartRecord => ret := StartMuxer(false, o);
        case StopRecord => StopMuxer(false);
        case SwitchRecord =>
          if cameraFile != null {
            ret := FileEncodeStartJob(o);
          }
        case StartSaveCache =>
        case StopSaveCache =>
        case AttachMuxer(muxer, video, audio) => AttachUserMuxer(muxer, video, audio, o);
        case DetachMuxer(muxer) => DetachUserMuxer(muxer);
        case RateChange(_) =>
        case GenIdr =>
      }
    }
  }
}

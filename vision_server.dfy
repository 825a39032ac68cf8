/** The PC vision server's main loop: choose a camera or a video file from
    the `--input` argument, read frames (rewinding a file at its end,
    stopping when a camera fails), classify three fixed crops of each frame,
    and publish one JSON record per frame with the three probabilities, the
    center one as target, the encoded image and the frame rate. The classifier,
    the resize, the JPEG/base64 encoding and the clock are parameters. */
module VisionServer {
  import opened Wire
  import opened Frames
  import opened Arithmetic

  // ---------------------------------------------------------------------
  // Source selection

  predicate IsDigitChar(c: char) { '0' <= c <= '9' }

  /** `str.isdigit()` on ASCII text: non-empty and digits only. */
  predicate IsDigits(s: string) {
    |s| > 0 && forall i :: 0 <= i < |s| ==> IsDigitChar(s[i])
  }

  function DigitValue(c: char): nat
    requires IsDigitChar(c)
  {
    c as int - '0' as int
  }

  /** `int(s)` on a string of decimal digits. */
  function ParseNat(s: string): nat
    requires forall i :: 0 <= i < |s| ==> IsDigitChar(s[i])
  {
    if s == [] then 0
    else 10 * ParseNat(s[..|s| - 1]) + DigitValue(s[|s| - 1])
  }

  /** The decimal spelling of `n`, as `str(n)` writes it. */
  function DecimalString(n: nat): (s: string)
    ensures IsDigits(s)
  {
    var d := (n % 10 + '0' as int) as char;
    if n < 10 then [d] else DecimalString(n / 10) + [d]
  }

  datatype Source = Camera(id: nat) | VideoFile(path: string)

  /** A digits-only `--input` names a camera by its number; anything else
      ("demo.mp4", "-1", the empty string) is a file path, kept verbatim. */
  function SelectSource(input: string): (src: Source)
    ensures src.Camera? <==> IsDigits(input)
    ensures src.VideoFile? ==> src.path == input
  {
    if IsDigits(input) then Camera(ParseNat(input)) else VideoFile(input)
  }

  /** Every camera number, written in decimal, selects that camera. */
  lemma {:induction false} CameraNumberRoundTrip(n: nat)
    ensures SelectSource(DecimalString(n)) == Camera(n)
  {
    var s := DecimalString(n);
    var d := (n % 10 + '0' as int) as char;
    if n >= 10 {
      CameraNumberRoundTrip(n / 10);
      assert s[..|s| - 1] == DecimalString(n / 10);
    }
    assert ParseNat(s) == n;
  }

  /** Inputs that are not all digits open a file, even when they look like a
      number. */
  lemma NonDigitInputsAreFiles()
    ensures SelectSource("demo.mp4") == VideoFile("demo.mp4")
    ensures SelectSource("-1") == VideoFile("-1")
    ensures SelectSource("") == VideoFile("")
    ensures SelectSource("0") == Camera(0)
  {
    assert !IsDigitChar("demo.mp4"[0]);
    assert !IsDigitChar("-1"[0]);
    assert "0"[..0] == [];
  }

  // ---------------------------------------------------------------------
  // Crops and classification

  /** The left offsets of the three crops. */
  const CROPS_X: map<string, nat> := map[LEFT := 0, CENTER := 48, RIGHT := 96]

  /** The order in which the crops are classified and the keys filled. */
  const KEYS: seq<string> := [LEFT, CENTER, RIGHT]

  /** Each crop window lies inside the frame width; the left one starts at
      the first column and the right one ends at the last. */
  lemma CropWindowsInsideFrame()
    ensures CROPS_X.Keys == {LEFT, CENTER, RIGHT}
    ensures forall k :: k in CROPS_X ==> CROPS_X[k] + MODEL_INPUT_SIZE <= CAM_WIDTH
    ensures CROPS_X[LEFT] == 0 && CROPS_X[RIGHT] + MODEL_INPUT_SIZE == CAM_WIDTH
    // the frame is symmetric under mirroring: left and right swap, center stays
    ensures CAM_WIDTH - MODEL_INPUT_SIZE - CROPS_X[LEFT] == CROPS_X[RIGHT]
    ensures CAM_WIDTH - MODEL_INPUT_SIZE - CROPS_X[CENTER] == CROPS_X[CENTER]
  {
  }

  /** The probabilities the classifier gives the three crops, keyed by zone. */
  function ZoneProbs(rgb: Image, classify: Image -> real): (probs: map<string, real>)
    ensures probs.Keys == {LEFT, CENTER, RIGHT}
    ensures forall k :: k in probs ==> probs[k] == classify(CropAt(rgb, CROPS_X[k]))
  {
    map[LEFT := classify(CropAt(rgb, CROPS_X[LEFT])),
        CENTER := classify(CropAt(rgb, CROPS_X[CENTER])),
        RIGHT := classify(CropAt(rgb, CROPS_X[RIGHT]))]
  }

  /** The two loops of an iteration: the three crops are collected in order
      into `tensors`, then each is classified and stored under the key with
      the same index. */
  method ClassifyZones(rgb: Image, classify: Image -> real) returns (probs: map<string, real>)
    ensures probs == ZoneProbs(rgb, classify)
  {
    var crops := [CropAt(rgb, CROPS_X[LEFT]), CropAt(rgb, CROPS_X[CENTER]), CropAt(rgb, CROPS_X[RIGHT])];
    var tensors: seq<Image> := [];
    for j := 0 to |crops|
      invariant tensors == crops[..j]
    {
      tensors := tensors + [crops[j]];
    }
    probs := map[];
    for i := 0 to |tensors|
      invariant probs.Keys == set j | 0 <= j < i :: KEYS[j]
      invariant forall j :: 0 <= j < i ==> probs[KEYS[j]] == classify(tensors[j])
    {
      probs := probs[KEYS[i] := classify(tensors[i])];
    }
    assert probs.Keys == {LEFT, CENTER, RIGHT} by {
      assert KEYS[0] in probs.Keys && KEYS[1] in probs.Keys && KEYS[2] in probs.Keys;
    }
    assert probs[LEFT] == classify(tensors[0]);
    assert probs[CENTER] == classify(tensors[1]);
    assert probs[RIGHT] == classify(tensors[2]);
  }

  // ---------------------------------------------------------------------
  // Frame rate and the published record

  /** `1.0 / dt if dt > 0 else 0`. */
  function Fps(dt: real): (fps: real)
    ensures fps >= 0.0
    ensures fps == 0.0 <==> dt <= 0.0
    ensures dt > 0.0 ==> fps * dt == 1.0
  {
    if dt > 0.0 then 1.0 / dt else 0.0
  }

  /** The JSON record published for one frame. */
  function Payload(probs: map<string, real>, imageB64: string, fps: real): Message
    requires CENTER in probs
  {
    map[PROBS := Dict(probs), PROB_TARGET := Num(probs[CENTER]),
        IMAGE_B64 := Str(imageB64), JETSON_FPS := Num(fps)]
  }

  /** The shape every published record has: exactly four keys; the
      probabilities under exactly the three zone keys; the target equal to the
      center probability; a non-negative frame rate. */
  predicate WellFormed(m: Message) {
    && m.Keys == {PROBS, PROB_TARGET, IMAGE_B64, JETSON_FPS}
    && m[PROBS].Dict? && m[PROBS].entries.Keys == {LEFT, CENTER, RIGHT}
    && m[PROB_TARGET] == Num(m[PROBS].entries[CENTER])
    && m[IMAGE_B64].Str?
    && m[JETSON_FPS].Num? && m[JETSON_FPS].x >= 0.0
  }

  /** The external collaborators of the loop and the `--mirror` flag. The k-th
      call to the clock returns `clock(k)`. */
  datatype Config = Config(
    mirror: bool,
    resize: Image -> Image,
    classify: Image -> real,
    encode: Image -> string,
    clock: nat -> real)

  /** The image of a captured frame after the resize and the optional flip;
      this is what is encoded for the viewer. */
  function Prepare(cfg: Config, frame: Image): Image {
    var image := cfg.resize(frame);
    if cfg.mirror then Mirror(image) else image
  }

  /** The record published for `frame` when the previous iteration started at
      `lastTime` and this one at `now`. */
  function Publish(cfg: Config, frame: Image, lastTime: real, now: real): Message {
    var image := Prepare(cfg, frame);
    Payload(ZoneProbs(ToRgb(image), cfg.classify), cfg.encode(image), Fps(now - lastTime))
  }

  /** Every record is well formed, carries one classification per crop of the
      prepared frame, the encoding of that frame, and the frame rate of the
      interval since the previous frame; when the classifier returns
      probabilities, so does the record. */
  lemma PublishIsWellFormed(cfg: Config, frame: Image, lastTime: real, now: real)
    ensures var m := Publish(cfg, frame, lastTime, now);
      && WellFormed(m)
      && m[PROBS] == Dict(ZoneProbs(ToRgb(Prepare(cfg, frame)), cfg.classify))
      && m[IMAGE_B64] == Str(cfg.encode(Prepare(cfg, frame)))
      && m[JETSON_FPS] == Num(Fps(now - lastTime))
  {
  }

  /** `cv2.resize(frame, (CAM_WIDTH, CAM_HEIGHT))` always yields
      `CAM_HEIGHT` rows of `CAM_WIDTH` pixels, whatever the frame. */
  ghost predicate ResizesToCam(cfg: Config) {
    forall f :: |cfg.resize(f)| == CAM_HEIGHT && FullWidth(cfg.resize(f))
  }

  /** With the resize to the Jetson resolution, the image that is cropped
      has `CAM_HEIGHT` rows of `CAM_WIDTH` pixels, flipped or not. */
  lemma PreparedFrameHasCamShape(cfg: Config, frame: Image)
    requires ResizesToCam(cfg)
    ensures var rgb := ToRgb(Prepare(cfg, frame));
      |rgb| == CAM_HEIGHT && FullWidth(rgb)
  {
    var image := cfg.resize(frame);
    assert |image| == CAM_HEIGHT && FullWidth(image);
  }

  /** Each of the three crops of a served frame is exactly the
      `MODEL_INPUT_SIZE` x `MODEL_INPUT_SIZE` window at its offset. */
  lemma ServedCropsAreWindows(cfg: Config, frame: Image)
    requires ResizesToCam(cfg)
    ensures var rgb := ToRgb(Prepare(cfg, frame));
      && FullWidth(rgb) && |rgb| == CAM_HEIGHT
      && (forall k :: k in CROPS_X ==> CROPS_X[k] + MODEL_INPUT_SIZE <= CAM_WIDTH && CropAt(rgb, CROPS_X[k]) == Window(rgb, CROPS_X[k]))
  {
    var rgb := ToRgb(Prepare(cfg, frame));
    PreparedFrameHasCamShape(cfg, frame);
    CropWindowsInsideFrame();
    CropInsideFrame(rgb, CROPS_X[LEFT]);
    CropInsideFrame(rgb, CROPS_X[CENTER]);
    CropInsideFrame(rgb, CROPS_X[RIGHT]);
  }

  // ---------------------------------------------------------------------
  // The loop as a state machine

  /** What the loop has done so far: the read position of the capture, the
      time the previous frame was taken, how many clock readings were taken,
      what was published, and whether the loop still runs. */
  datatype Loop = Loop(pos: nat, lastTime: real, ticks: nat, sent: seq<Message>, running: bool)

  /** The state before the first iteration: one clock reading taken. */
  function Start(cfg: Config): Loop {
    Loop(0, cfg.clock(0), 1, [], true)
  }

  /** One iteration of `while True`. A successful read publishes one record;
      a failed read on a file rewinds it and publishes nothing; a failed read
      on a camera leaves the loop. */
  function Step(cfg: Config, src: Source, frames: seq<Image>, s: Loop): (r: Loop)
    ensures |r.sent| >= |s.sent| && r.sent[..|s.sent|] == s.sent
    ensures |r.sent| == |s.sent| + 1 <==> s.running && s.pos < |frames|
    ensures |r.sent| <= |s.sent| + 1
    ensures !r.running <==> !s.running || (s.pos >= |frames| && src.Camera?)
  {
    if !s.running then s
    else if s.pos < |frames| then
      var now := cfg.clock(s.ticks);
      Loop(s.pos + 1, now, s.ticks + 1, s.sent + [Publish(cfg, frames[s.pos], s.lastTime, now)], true)
    else if src.VideoFile? then s.(pos := 0)
    else s.(running := false)
  }

  /** The state after `n` iterations from `s`. */
  function Run(cfg: Config, src: Source, frames: seq<Image>, s: Loop, n: nat): Loop {
    if n == 0 then s else Step(cfg, src, frames, Run(cfg, src, frames, s, n - 1))
  }

  /** Once the loop has left, further iterations change nothing. */
  lemma {:induction false} StaysStopped(cfg: Config, src: Source, frames: seq<Image>, s: Loop, k: nat, n: nat)
    requires k <= n && !Run(cfg, src, frames, s, k).running
    ensures Run(cfg, src, frames, s, n) == Run(cfg, src, frames, s, k)
  {
    if k < n {
      StaysStopped(cfg, src, frames, s, k, n - 1);
    }
  }

  /** The record that frame number `i` of the stream yields: the source's
      frames in order, starting over when a file is rewound, with the frame
      rate measured between clock readings i and i + 1. */
  function Expected(cfg: Config, frames: seq<Image>, i: nat): Message
    requires |frames| > 0
  {
    Publish(cfg, frames[i % |frames|], cfg.clock(i), cfg.clock(i + 1))
  }

  /** The bookkeeping of the loop after any number of iterations from the
      start: `last_time` is the clock reading of the latest published frame;
      the read position is within the source; a camera's position counts the
      records, a file's position agrees with that count modulo the number of
      frames; and a file source never leaves the loop. */
  ghost predicate Counters(src: Source, frames: seq<Image>, s: Loop) {
    && s.ticks == |s.sent| + 1
    && s.pos <= |frames|
    && (src.Camera? ==> |s.sent| == s.pos)
    && (src.VideoFile? ==> s.running)
    && (|frames| == 0 ==> s.sent == [])
    && (|frames| > 0 ==> |s.sent| % |frames| == s.pos % |frames|)
  }

  /** Every record published so far is the one its index calls for. */
  ghost predicate Records(cfg: Config, frames: seq<Image>, sent: seq<Message>) {
    forall i :: 0 <= i < |sent| ==> |frames| > 0 && sent[i] == Expected(cfg, frames, i)
  }

  ghost predicate Inv(cfg: Config, src: Source, frames: seq<Image>, s: Loop) {
    Counters(src, frames, s) && s.lastTime == cfg.clock(|s.sent|) && Records(cfg, frames, s.sent)
  }

  lemma {:induction false} StepKeepsCounters(cfg: Config, src: Source, frames: seq<Image>, s: Loop)
    requires Counters(src, frames, s)
    ensures Counters(src, frames, Step(cfg, src, frames, s))
  {
    var n := |frames|;
    if s.running && s.pos < n {
      DivModUnique(s.pos, n, 0, s.pos);
      ModSucc(|s.sent|, s.pos, n);
    } else if s.running && src.VideoFile? && n > 0 {
      DivModUnique(s.pos, n, 1, 0);
      DivModUnique(0, n, 0, 0);
    }
  }

  lemma {:induction false} StepKeepsRecords(cfg: Config, src: Source, frames: seq<Image>, s: Loop)
    requires Inv(cfg, src, frames, s)
    ensures Records(cfg, frames, Step(cfg, src, frames, s).sent)
  {
    var r := Step(cfg, src, frames, s);
    var n := |frames|;
    if s.running && s.pos < n {
      DivModUnique(s.pos, n, 0, s.pos);
      var k := |s.sent|;
      assert r.sent == s.sent + [Publish(cfg, frames[s.pos], s.lastTime, cfg.clock(s.ticks))];
      assert r.sent[k] == Expected(cfg, frames, k);
      forall i | 0 <= i < |r.sent|
        ensures r.sent[i] == Expected(cfg, frames, i)
      {
        if i < k {
          assert r.sent[i] == s.sent[i];
        }
      }
    }
  }

  lemma {:induction false} RunKeepsInv(cfg: Config, src: Source, frames: seq<Image>, n: nat)
    ensures Inv(cfg, src, frames, Run(cfg, src, frames, Start(cfg), n))
  {
    if n > 0 {
      var s := Run(cfg, src, frames, Start(cfg), n - 1);
      RunKeepsInv(cfg, src, frames, n - 1);
      StepKeepsCounters(cfg, src, frames, s);
      StepKeepsRecords(cfg, src, frames, s);
    }
  }

  /** Replay: from a file the loop never stops, and record i shows frame i
      modulo the file's length, with the frame rate measured between clock
      readings i and i + 1. */
  lemma FileReplaysFrames(cfg: Config, path: string, frames: seq<Image>, n: nat, i: nat)
    requires i < |Run(cfg, VideoFile(path), frames, Start(cfg), n).sent|
    ensures Run(cfg, VideoFile(path), frames, Start(cfg), n).running
    ensures |frames| > 0
    ensures Run(cfg, VideoFile(path), frames, Start(cfg), n).sent[i]
            == Publish(cfg, frames[i % |frames|], cfg.clock(i), cfg.clock(i + 1))
  {
    RunKeepsInv(cfg, VideoFile(path), frames, n);
  }

  /** A camera's frames are published once each, in order; the first failed
      read ends the loop, so after more iterations than frames the loop has
      stopped with exactly one record per frame. */
  lemma {:induction false} CameraStopsAfterLastFrame(cfg: Config, id: nat, frames: seq<Image>, n: nat)
    ensures var s := Run(cfg, Camera(id), frames, Start(cfg), n);
      && (s.running <==> n <= |frames|)
      && |s.sent| == (if n <= |frames| then n else |frames|)
  {
    if n > 0 {
      var prev := Run(cfg, Camera(id), frames, Start(cfg), n - 1);
      CameraStopsAfterLastFrame(cfg, id, frames, n - 1);
      RunKeepsInv(cfg, Camera(id), frames, n - 1);
      assert |prev.sent| == prev.pos;
      assert Run(cfg, Camera(id), frames, Start(cfg), n) == Step(cfg, Camera(id), frames, prev);
    }
  }

  /** Record i of a camera stream shows frame i itself. */
  lemma CameraRecordShowsFrame(cfg: Config, id: nat, frames: seq<Image>, n: nat, i: nat)
    requires i < |Run(cfg, Camera(id), frames, Start(cfg), n).sent|
    ensures i < |frames|
    ensures Run(cfg, Camera(id), frames, Start(cfg), n).sent[i]
            == Publish(cfg, frames[i], cfg.clock(i), cfg.clock(i + 1))
  {
    RunKeepsInv(cfg, Camera(id), frames, n);
    DivModUnique(i, |frames|, 0, i);
  }

  // ---------------------------------------------------------------------
  // The imperative loop

  /** The video capture: a camera, or a file whose frames are read in order
      and can be rewound. `frames` is what the source delivers before a read
      fails (end of file, or camera disconnection). */
  class Capture {
    const source: Source
    const frames: seq<Image>
    const isOpen: bool
    var pos: nat
    var released: bool

    constructor (source: Source, frames: seq<Image>, isOpen: bool)
      ensures this.source == source && this.frames == frames && this.isOpen == isOpen
      ensures pos == 0 && !released
    {
      this.source := source;
      this.frames := frames;
      this.isOpen := isOpen;
      pos := 0;
      released := false;
    }

    /** `cap.read()`. */
    method Read() returns (ok: bool, frame: Image)
      modifies this`pos
      ensures ok <==> old(pos) < |frames|
      ensures ok ==> frame == frames[old(pos)] && pos == old(pos) + 1
      ensures !ok ==> pos == old(pos)
    {
      ok := pos < |frames|;
      if ok {
        frame := frames[pos];
        pos := pos + 1;
      } else {
        frame := [];
      }
    }

    /** `cap.set(cv2.CAP_PROP_POS_FRAMES, 0)`. */
    method Rewind()
      modifies this`pos
      ensures pos == 0
    {
      pos := 0;
    }

    /** `cap.release()`. */
    method Release()
      modifies this`released
      ensures released
    {
      released := true;
    }
  }

  /** The publishing socket: everything sent, in order. */
  class Publisher {
    var sent: seq<Message>

    constructor ()
      ensures sent == []
    {
      sent := [];
    }

    method Send(m: Message)
      modifies this
      ensures sent == old(sent) + [m]
    {
      sent := sent + [m];
    }
  }

  /** The body of one iteration after a successful read: resize, optional
      flip, frame rate, BGR to RGB, the three classifications, the encoding
      for the viewer and the record. */
  method BuildRecord(cfg: Config, frame: Image, lastTime: real, now: real) returns (record: Message)
    ensures record == Publish(cfg, frame, lastTime, now)
  {
    var image := cfg.resize(frame);
    if cfg.mirror {
      image := Mirror(image);
    }
    var dt := now - lastTime;
    var fps := Fps(dt);
    var rgb := ToRgb(image);
    var probs := ClassifyZones(rgb, cfg.classify);
    var text := cfg.encode(image);
    record := Payload(probs, text, fps);
  }

  /** One pass through the body of `while True`, from the read to the send.
      `running` is false when the loop breaks; `delta` is what was sent. */
  method Iteration(cfg: Config, cap: Capture, pub: Publisher, lastTime: real, ticks: nat,
                   ghost published: seq<Message>)
    returns (running: bool, lastTime': real, ticks': nat, ghost delta: seq<Message>)
    modifies cap, pub
    ensures pub.sent == old(pub.sent) + delta
    ensures Step(cfg, cap.source, cap.frames, Loop(old(cap.pos), lastTime, ticks, published, true))
            == Loop(cap.pos, lastTime', ticks', published + delta, running)
  {
    lastTime', ticks', delta := lastTime, ticks, [];
    var ok, frame := cap.Read();
    if !ok {
      if cap.source.VideoFile? {
        cap.Rewind();
        return true, lastTime', ticks', delta;
      } else {
        return false, lastTime', ticks', delta;
      }
    }
    var now := cfg.clock(ticks);
    ticks' := ticks + 1;
    var record := BuildRecord(cfg, frame, lastTime, now);
    lastTime' := now;
    pub.Send(record);
    delta := [record];
    running := true;
  }

  /** The `try: while True ... finally: cap.release()` part of `main`, for
      an opened capture at the start of its source: `steps` is the number of
      iterations before the keyboard interrupt. The capture is released on
      every way out of the loop. */
  method ServeLoop(cfg: Config, cap: Capture, pub: Publisher, steps: nat)
    requires cap.pos == 0
    modifies cap, pub
    ensures cap.released
    ensures pub.sent == old(pub.sent) + Run(cfg, cap.source, cap.frames, Start(cfg), steps).sent
  {
    var lastTime := cfg.clock(0);
    var ticks := 1;
    ghost var start := Start(cfg);
    ghost var published: seq<Message> := [];
    var n := 0;
    while n < steps
      invariant n <= steps
      invariant pub.sent == old(pub.sent) + published
      invariant Run(cfg, cap.source, cap.frames, start, n) == Loop(cap.pos, lastTime, ticks, published, true)
    {
      var running;
      ghost var delta;
      running, lastTime, ticks, delta := Iteration(cfg, cap, pub, lastTime, ticks, published);
      published := published + delta;
      n := n + 1;
      if !running {
        StaysStopped(cfg, cap.source, cap.frames, start, n, steps);
        break;
      }
    }
    cap.Release();
  }

  /** `main` after the socket is bound and the model loaded: the source is
      chosen from `--input`; `feed` gives what a source delivers and `opens`
      whether it can be opened. A source that cannot be opened returns at
      once, without releasing the capture. */
  method Serve(input: string, cfg: Config, feed: Source -> seq<Image>, opens: Source -> bool,
               pub: Publisher, steps: nat)
    returns (cap: Capture)
    modifies pub
    ensures fresh(cap) && cap.source == SelectSource(input)
    ensures cap.frames == feed(cap.source) && cap.isOpen == opens(cap.source)
    ensures !cap.isOpen ==> !cap.released && pub.sent == old(pub.sent)
    ensures cap.isOpen ==> cap.released
    ensures cap.isOpen ==> pub.sent == old(pub.sent) + Run(cfg, cap.source, cap.frames, Start(cfg), steps).sent
  {
    var source := SelectSource(input);
    cap := new Capture(source, feed(source), opens(source));
    if !cap.isOpen {
      return;
    }
    ServeLoop(cfg, cap, pub, steps);
  }
}

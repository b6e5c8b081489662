/** The capture pipeline of rich_camera.py: the idle watcher that polls the
    low-resolution stream for motion, the producer that captures full-size
    frames into the shared queue until it sees the stop event, and the
    recording session that consumes the queue, samples motion detection and
    recognition, opens the video writer on the first recognition and
    applies the stop policy.

    Threads are not modelled. The clock (`time.time()`), the camera and the
    results of the motion detector and recognizer on the session's frames
    are arguments; the consumer setting the stop event while the producer
    runs is a flag on each capture the producer makes. */
module Camera {
  import opened Wrappers
  import MotionDetection
  import AnimalRecognition

  type Image = MotionDetection.Image
  type Detection = AnimalRecognition.Detection
  type Annotated = AnimalRecognition.Annotated

  /** A queued frame and the clock reading taken right after capturing it. */
  datatype Sample = Sample(frame: Image, time: real)

  /** The exception `capture_frame` raises when the camera yields nothing. */
  datatype CaptureError = CaptureError(message: string)

  /** `capture_frame`: fails exactly when the camera yields no frame, and
      otherwise pairs the frame with the clock reading `now`. */
  function CaptureFrame(cameraFrame: Option<Image>, now: real): (r: Result<Sample, CaptureError>)
    ensures r.Failure? <==> cameraFrame.None?
    ensures r.Success? ==> r.value.frame == cameraFrame.value && r.value.time == now
  {
    match cameraFrame
    case None => Failure(CaptureError("Error capturing frame"))
    case Some(frame) => Success(Sample(frame, now))
  }

  // ---------------------------------------------------------------------
  // Sampling

  /** Frame number `n` (counting from 1) is sampled by a stage that runs
      every `stride` frames. */
  predicate Sampled(n: int, stride: int)
    requires stride > 0
  {
    n % stride == 0
  }

  /** How many of frames 1..n a stage with this stride runs on. */
  function SampledCount(n: nat, stride: int): nat
    requires stride > 0
  {
    if n == 0 then 0 else SampledCount(n - 1, stride) + if Sampled(n, stride) then 1 else 0
  }

  lemma DivModUnique(m: int, s: int, q: int, r: int)
    requires s > 0 && 0 <= r < s && m == q * s + r
    ensures m / s == q && m % s == r
  {
    var q' := m / s;
    if q' < q {
      MulAtLeast(q - q', s);
    } else if q < q' {
      MulAtLeast(q' - q, s);
    }
  }

  lemma MulAtLeast(d: int, s: int)
    requires d >= 1 && s > 0
    ensures d * s >= s
  {
  }

  lemma DivStep(n: nat, s: int)
    requires s > 0
    ensures (n + 1) / s == n / s + if (n + 1) % s == 0 then 1 else 0
  {
    var q, r := n / s, n % s;
    if r + 1 == s {
      DivModUnique(n + 1, s, q + 1, 0);
    } else {
      DivModUnique(n + 1, s, q, r + 1);
    }
  }

  /** A stage with stride `s` runs on exactly `n / s` of the first `n`
      frames: with the defaults, motion detection on all of them and
      recognition on every fourth. */
  lemma {:induction false} SampledCountIsQuotient(n: nat, stride: int)
    requires stride > 0
    ensures SampledCount(n, stride) == n / stride
  {
    if n > 0 {
      SampledCountIsQuotient(n - 1, stride);
      DivStep(n - 1, stride);
    }
  }

  // ---------------------------------------------------------------------
  // The stop policy

  /** Why a recording stopped. */
  datatype StopReason = MotionTimeout | DurationCap | RecognitionTimeout

  /** Stop when any of the three conditions holds; the reason reported is
      the motion timeout first, then the duration cap, then the recognition
      timeout. */
  function StopDecision(elapsedCondition: bool, recogCondition: bool, motionCondition: bool): (r: Option<StopReason>)
    ensures r.None? <==> !elapsedCondition && !recogCondition && !motionCondition
    ensures r == Some(MotionTimeout) <==> motionCondition
    ensures r == Some(DurationCap) <==> elapsedCondition && !motionCondition
    ensures r == Some(RecognitionTimeout) <==> recogCondition && !motionCondition && !elapsedCondition
  {
    if !(elapsedCondition || motionCondition || recogCondition) then None
    else if motionCondition then Some(MotionTimeout)
    else if elapsedCondition then Some(DurationCap)
    else Some(RecognitionTimeout)
  }

  // ---------------------------------------------------------------------
  // Producer pacing

  /** The producer's sleep after a capture that came `gap` seconds after
      the previous one: whatever is left of the frame interval, if anything. */
  function PacingSleep(timePerFrame: real, gap: real): (s: real)
    ensures s >= 0.0
    ensures s > 0.0 <==> gap < timePerFrame
    ensures s > 0.0 ==> gap + s == timePerFrame
  {
    if timePerFrame - gap > 0.0 then timePerFrame - gap else 0.0
  }

  /** One capture of the producer loop: the camera's frame (or none), the
      clock reading after it, and whether the consumer had set the stop
      event by the time this iteration checks it. */
  datatype Shot = Shot(frame: Option<Image>, time: real, eventSet: bool)

  /** How one iteration of the producer loop ended. */
  datatype ProducerStep = Paced(sleep: real) | StopEventSeen | CaptureRaised

  /** How a run of the producer loop ended. `ScriptEnded`: the captures
      given ran out while the loop was still going. */
  datatype ProducerEnd = StopSeen | ProducerCaptureFailed | ScriptEnded

  /** The first `n` captures all yielded a frame. */
  predicate Captured(shots: seq<Shot>, n: nat) {
    n <= |shots| && forall j :: 0 <= j < n ==> shots[j].frame.Some?
  }

  /** The first `n` captures all yielded a frame and none of them saw the
      stop event. */
  predicate Uneventful(shots: seq<Shot>, n: nat) {
    n <= |shots| && forall j :: 0 <= j < n ==> shots[j].frame.Some? && !shots[j].eventSet
  }

  /** The samples the producer puts on the queue for the first `n` captures. */
  function SamplesOf(shots: seq<Shot>, n: nat): (samples: seq<Sample>)
    requires Captured(shots, n)
    ensures |samples| == n
  {
    if n == 0 then [] else SamplesOf(shots, n - 1) + [Sample(shots[n - 1].frame.value, shots[n - 1].time)]
  }

  /** Sample `j` is capture `j`'s frame with its clock reading. */
  lemma {:induction false} SampleAt(shots: seq<Shot>, n: nat, j: nat)
    requires Captured(shots, n) && j < n
    ensures SamplesOf(shots, n)[j] == Sample(shots[j].frame.value, shots[j].time)
  {
    if j < n - 1 {
      SampleAt(shots, n - 1, j);
    }
  }

  /** The time the `j`-th iteration measures its gap from. */
  function PrevTime(startTime: real, shots: seq<Shot>, j: nat): real
    requires j < |shots|
  {
    if j == 0 then startTime else shots[j - 1].time
  }

  /** The sleeps of a producer run that started at `startTime` and went
      through the first `n` captures without stopping. */
  function Sleeps(startTime: real, timePerFrame: real, shots: seq<Shot>, n: nat): (sleeps: seq<real>)
    requires n <= |shots|
    ensures |sleeps| == n
  {
    if n == 0 then []
    else Sleeps(startTime, timePerFrame, shots, n - 1) + [PacingSleep(timePerFrame, shots[n - 1].time - PrevTime(startTime, shots, n - 1))]
  }

  /** The `j`-th sleep is what is left of the frame interval after the gap
      since the previous capture (or since the start, for the first). */
  lemma {:induction false} SleepAt(startTime: real, timePerFrame: real, shots: seq<Shot>, n: nat, j: nat)
    requires n <= |shots| && j < n
    ensures Sleeps(startTime, timePerFrame, shots, n)[j] == PacingSleep(timePerFrame, shots[j].time - PrevTime(startTime, shots, j))
  {
    if j < n - 1 {
      SleepAt(startTime, timePerFrame, shots, n - 1, j);
    }
  }

  /** The pacing never lets the producer run ahead of the target rate: the
      gap to each capture plus the sleep after it spans at least one frame
      interval, and exactly one when the producer had to sleep. */
  lemma PacingKeepsFrameInterval(startTime: real, timePerFrame: real, shots: seq<Shot>, n: nat, j: nat)
    requires n <= |shots| && j < n
    ensures var gap, s := shots[j].time - PrevTime(startTime, shots, j), Sleeps(startTime, timePerFrame, shots, n)[j];
            && gap + s >= timePerFrame
            && (s > 0.0 ==> gap + s == timePerFrame)
            && (s == 0.0 <==> gap >= timePerFrame)
  {
    SleepAt(startTime, timePerFrame, shots, n, j);
  }

  /** The writer of the session: not yet opened, open with the frames
      written so far, or released. */
  datatype Writer = NotOpened | Open(frames: seq<Annotated>) | Released(frames: seq<Annotated>)
  {
    function Written(): seq<Annotated> {
      if NotOpened? then [] else frames
    }
  }

  class RichCamera {
    /** The detector the recording session runs on full-size frames. */
    const motionDetector: MotionDetection.MotionDetector
    const animalRecognizer: AnimalRecognition.AnimalRecognizer
    const recordingDuration: real
    const timeout: real
    const targetFramerate: real
    /** The frame interval `1 / target_framerate`. */
    const timePerFrame: real
    const framesBetweenRecognition: int
    const framesBetweenMotionDetection: int
    /** The frame queue shared by producer and consumer. */
    var queue: seq<Sample>
    /** The `stop_condition_met` event. */
    var stopConditionMet: bool

    ghost predicate Valid() {
      framesBetweenRecognition > 0 && framesBetweenMotionDetection > 0
    }

    /** The components and settings; the recognizer is built with the
        camera's keywords and threshold. */
    constructor (vision: MotionDetection.Vision, classNameLines: seq<string>,
                 keywords: seq<string> := ["man"], threshold: real := 0.3,
                 recordingDuration: real := 300.0, timeout: real := 15.0, targetFramerate: real := 30.0)
      requires targetFramerate != 0.0
      ensures Valid()
      ensures fresh(motionDetector) && motionDetector.vision == vision
      ensures motionDetector.previousFrame.None? && !motionDetector.motionDetected
      ensures fresh(animalRecognizer) && animalRecognizer.keywords == keywords && animalRecognizer.threshold == threshold
      ensures animalRecognizer.modelLoaded && animalRecognizer.classNames == AnimalRecognition.ClassNameMap(classNameLines)
      ensures this.recordingDuration == recordingDuration && this.timeout == timeout
      ensures this.targetFramerate == targetFramerate && timePerFrame == 1.0 / targetFramerate
      ensures framesBetweenRecognition == 4 && framesBetweenMotionDetection == 1
      ensures queue == [] && !stopConditionMet
    {
      animalRecognizer := new AnimalRecognition.AnimalRecognizer(classNameLines, keywords, threshold);
      motionDetector := new MotionDetection.MotionDetector(vision);
      this.recordingDuration := recordingDuration;
      this.timeout := timeout;
      this.targetFramerate := targetFramerate;
      timePerFrame := 1.0 / targetFramerate;
      framesBetweenRecognition := 4;
      framesBetweenMotionDetection := 1;
      queue := [];
      stopConditionMet := false;
    }

    /** `record_frames`: capture, enqueue, and stop once the stop event is
        seen, clearing it; otherwise sleep off the rest of the frame
        interval. The frame captured in the iteration that sees the event is
        still enqueued. A failed capture raises, ending the loop. */
    method RecordFrames(startTime: real, shots: seq<Shot>) returns (end: ProducerEnd, enqueued: nat, sleeps: seq<real>)
      requires Valid()
      modifies this
      ensures Captured(shots, enqueued)
      ensures queue == old(queue) + SamplesOf(shots, enqueued)
      ensures end == ProducerCaptureFailed ==> enqueued < |shots| && shots[enqueued].frame.None?
      ensures end == StopSeen ==> 0 < enqueued && (old(stopConditionMet) || shots[enqueued - 1].eventSet)
      ensures end == StopSeen ==> !stopConditionMet
      ensures end != StopSeen ==> stopConditionMet == old(stopConditionMet)
      ensures end == ScriptEnded ==> enqueued == |shots|
      ensures |sleeps| == if end == StopSeen then enqueued - 1 else enqueued
      ensures Uneventful(shots, |sleeps|) && (|sleeps| > 0 ==> !old(stopConditionMet))
      ensures sleeps == Sleeps(startTime, timePerFrame, shots, |sleeps|)
    {
      // the source's `start_time`, reassigned to each capture's time
      var prevFrameTime := startTime;
      end, enqueued, sleeps := ScriptEnded, 0, [];
      while enqueued < |shots|
        invariant enqueued <= |shots| && |sleeps| == enqueued
        invariant Uneventful(shots, enqueued) && Captured(shots, enqueued)
        invariant queue == old(queue) + SamplesOf(shots, enqueued)
        invariant sleeps == Sleeps(startTime, timePerFrame, shots, enqueued)
        invariant stopConditionMet == old(stopConditionMet)
        invariant enqueued > 0 ==> !old(stopConditionMet) && prevFrameTime == shots[enqueued - 1].time
        invariant enqueued == 0 ==> prevFrameTime == startTime
      {
        var shot := shots[enqueued];
        var step := Produce(shot, prevFrameTime);
        if step.CaptureRaised? {
          end := ProducerCaptureFailed;
          break;
        }
        enqueued := enqueued + 1;
        if step.StopEventSeen? {
          end := StopSeen;
          break;
        }
        sleeps := sleeps + [step.sleep];
        prevFrameTime := shot.time;
      }
    }

    /** One iteration of `record_frames`: capture (a failure raises), put
        the sample on the queue, then either see and clear the stop event or
        work out the pacing sleep. */
    method Produce(shot: Shot, prevFrameTime: real) returns (step: ProducerStep)
      requires Valid()
      modifies this
      ensures shot.frame.None? <==> step.CaptureRaised?
      ensures step.CaptureRaised? ==> queue == old(queue) && stopConditionMet == old(stopConditionMet)
      ensures !step.CaptureRaised? ==> queue == old(queue) + [Sample(shot.frame.value, shot.time)]
      ensures !step.CaptureRaised? ==> (step.StopEventSeen? <==> old(stopConditionMet) || shot.eventSet)
      ensures step.StopEventSeen? ==> !stopConditionMet
      ensures step.Paced? ==> stopConditionMet == old(stopConditionMet)
                              && step.sleep == PacingSleep(timePerFrame, shot.time - prevFrameTime)
    {
      var captured := CaptureFrame(shot.frame, shot.time);
      if captured.Failure? {
        return CaptureRaised;
      }
      var frameTime := captured.value.time;
      queue := queue + [captured.value];
      stopConditionMet := stopConditionMet || shot.eventSet;
      if stopConditionMet {
        stopConditionMet := false;
        return StopEventSeen;
      }
      return Paced(PacingSleep(timePerFrame, frameTime - prevFrameTime));
    }
  }

  /** The detector, run on `frame` from background `before` and status
      `statusBefore`, left this background and this status: the first call
      seeds the background and keeps the status, later calls fold the frame
      in and store whether some contour area exceeds `minArea`. */
  ghost predicate DetectorRanOn(d: MotionDetection.MotionDetector, frame: Image,
                                before: Option<MotionDetection.Background>, statusBefore: bool)
    reads d
  {
    && d.previousFrame == Some(if before.None? then MotionDetection.AsFloat(d.Smoothed(frame))
                               else d.vision.accumulate(d.Smoothed(frame), before.value, d.alpha))
    && d.motionDetected == if before.None? then statusBefore
                           else MotionDetection.AnyAreaAbove(d.AreasOf(frame, d.previousFrame.value), d.minArea)
  }

  // ---------------------------------------------------------------------
  // The idle watcher

  datatype WatchOutcome = WatchCaptureFailed | Quiet | Triggered(end: ProducerEnd, enqueued: nat)

  /** One pass of `run_motion_detection`'s loop: capture a low-resolution
      frame (a failed capture raises and ends the watcher), run the
      detector on it, and on motion run the producer loop and then reset the
      detector. An exception out of the producer skips the reset. */
  method WatchStep(camera: RichCamera, lores: MotionDetection.MotionDetector,
                   cameraFrame: Option<Image>, now: real, startTime: real, shots: seq<Shot>)
    returns (outcome: WatchOutcome)
    requires camera.Valid()
    modifies camera, lores
    ensures outcome.WatchCaptureFailed? <==> cameraFrame.None?
    ensures cameraFrame.None? ==> unchanged(lores) && unchanged(camera)
    ensures cameraFrame.Some? && !(outcome.Triggered? && outcome.end == StopSeen) ==>
              && DetectorRanOn(lores, cameraFrame.value, old(lores.previousFrame), old(lores.motionDetected))
              && lores.motionDetected == if old(lores.previousFrame).None? then old(lores.motionDetected) else outcome.Triggered?
    ensures old(lores.previousFrame).None? ==> !outcome.Triggered?
    ensures !outcome.Triggered? ==> camera.queue == old(camera.queue) && camera.stopConditionMet == old(camera.stopConditionMet)
    ensures cameraFrame.Some? && old(lores.previousFrame).Some? ==>
              (outcome.Triggered? <==>
                 var bg := lores.vision.accumulate(lores.Smoothed(cameraFrame.value), old(lores.previousFrame).value, lores.alpha);
                 MotionDetection.AnyAreaAbove(lores.AreasOf(cameraFrame.value, bg), lores.minArea))
    ensures outcome.Triggered? ==>
              && outcome.enqueued <= |shots|
              && Captured(shots, outcome.enqueued)
              && camera.queue == old(camera.queue) + SamplesOf(shots, outcome.enqueued)
    ensures outcome.Triggered? ==>
              && (outcome.end == ProducerCaptureFailed ==> outcome.enqueued < |shots| && shots[outcome.enqueued].frame.None?)
              && (outcome.end == StopSeen ==> 0 < outcome.enqueued
                                              && (old(camera.stopConditionMet) || shots[outcome.enqueued - 1].eventSet))
              && (outcome.end == ScriptEnded ==> outcome.enqueued == |shots|)
              && Uneventful(shots, if outcome.end == StopSeen then outcome.enqueued - 1 else outcome.enqueued)
    ensures outcome.Triggered? ==> camera.stopConditionMet == (outcome.end != StopSeen && old(camera.stopConditionMet))
    ensures outcome.Triggered? && outcome.end == StopSeen ==> lores.previousFrame.None? && !lores.motionDetected
  {
    var captured := CaptureFrame(cameraFrame, now);
    if captured.Failure? {
      return WatchCaptureFailed;
    }
    var detected := lores.DetectMotion(captured.value.frame);
    if !detected {
      return Quiet;
    }
    var end, enqueued, _ := camera.RecordFrames(startTime, shots);
    if end == StopSeen {
      lores.Reset();
    }
    return Triggered(end, enqueued);
  }

  // ---------------------------------------------------------------------
  // The recording session

  /** The give-up test on an empty queue AS WRITTEN: more than two seconds
      since the session started. */
  predicate GiveUpAsWritten(startTime: real, now: real) {
    now - startTime > 2.0
  }

  /** The give-up test as intended ("no frames for 2 seconds"): more than
      two seconds since the last frame was taken off the queue, or since the
      start when none was. */
  predicate GiveUp(lastFrameAt: real, now: real) {
    now - lastFrameAt > 2.0
  }

  /** The as-written test ends a session whose frames are still arriving:
      started at 0, a frame taken off the queue at 2.4, the queue empty for a
      moment at 2.5. */
  lemma GiveUpAsWrittenEndsLiveSession()
    ensures GiveUpAsWritten(0.0, 2.5) && !GiveUp(2.4, 2.5)
  {
  }

  /** The frames written are the images of the last samples taken, in order. */
  ghost predicate WrittenTail(written: seq<Annotated>, dequeued: seq<Sample>) {
    && |written| <= |dequeued|
    && forall k :: 0 <= k < |written| ==> written[k].image == dequeued[|dequeued| - |written| + k].frame
  }

  lemma WrittenTailExtends(written: seq<Annotated>, dequeued: seq<Sample>, frame: Annotated, sample: Sample)
    requires WrittenTail(written, dequeued) && frame.image == sample.frame
    ensures WrittenTail(written + [frame], dequeued + [sample])
  {
  }

  /** What `recognize_animal` returns for the network output `out`. */
  function RecognizerAnswer(r: AnimalRecognition.AnimalRecognizer, out: AnimalRecognition.ModelOutput,
                            imHeight: int, imWidth: int): seq<Detection>
    reads r
    requires out.Parallel()
  {
    if r.modelLoaded then AnimalRecognition.Filtered(r.Config(), out, imHeight, imWidth, |out.scores|) else []
  }

  class RecordingSession {
    const camera: RichCamera
    const startTime: real
    var stop: bool
    var frameCount: nat
    /** The detections of the most recent recognition. */
    var animals: seq<Detection>
    var videoWriter: Writer
    var lastMotionTime: real
    var lastRecognitionTime: real
    /** When the last frame was taken off the queue (the start, before any). */
    var lastFrameAt: real
    /** The reason reported when the stop policy ends the session. */
    var stopReason: Option<StopReason>
    /** Every sample taken off the queue, in order. */
    ghost var dequeued: seq<Sample>

    ghost predicate Valid()
      reads this
    {
      && camera.Valid()
      && frameCount == |dequeued|
      && (stopReason.Some? <==> videoWriter.Released?)
      && (videoWriter.Released? ==> stop)
      && WrittenTail(videoWriter.Written(), dequeued)
    }

    /** The start of `process_frames`: no frames, no writer, both timers at
        the start time. */
    constructor (camera: RichCamera, now: real)
      requires camera.Valid()
      ensures Valid() && this.camera == camera && startTime == now
      ensures !stop && frameCount == 0 && animals == [] && videoWriter == NotOpened
      ensures lastMotionTime == now && lastRecognitionTime == now && lastFrameAt == now
      ensures stopReason == None && dequeued == []
    {
      this.camera := camera;
      startTime := now;
      stop := false;
      frameCount := 0;
      animals := [];
      videoWriter := NotOpened;
      lastMotionTime, lastRecognitionTime, lastFrameAt := now, now, now;
      stopReason := None;
      dequeued := [];
    }

    /** A poll of an empty queue: no frame is counted, and the session
        gives up when no frame has come for more than two seconds. */
    method PollEmpty(now: real)
      requires Valid() && !stop && camera.queue == []
      modifies this
      ensures Valid()
      ensures stop == GiveUp(lastFrameAt, now)
      ensures frameCount == old(frameCount) && dequeued == old(dequeued) && animals == old(animals)
      ensures videoWriter == old(videoWriter) && stopReason == old(stopReason)
      ensures lastMotionTime == old(lastMotionTime) && lastRecognitionTime == old(lastRecognitionTime)
      ensures lastFrameAt == old(lastFrameAt)
    {
      if GiveUp(lastFrameAt, now) {
        stop := true;
      }
    }

    /** One frame taken off the queue at clock reading `now`; `out` is what
        the network reports on it and `imHeight` by `imWidth` its size. */
    method Step(now: real, imHeight: int, imWidth: int, out: AnimalRecognition.ModelOutput)
      requires Valid() && !stop && camera.queue != [] && out.Parallel()
      modifies this, camera, camera.motionDetector
      ensures Valid()
      ensures camera.queue == old(camera.queue)[1..]
      ensures dequeued == old(dequeued) + [old(camera.queue)[0]]
      ensures frameCount == old(frameCount) + 1 && lastFrameAt == now
      ensures var m, d := camera.framesBetweenMotionDetection, camera.motionDetector;
              && (!Sampled(frameCount, m) ==> unchanged(d))
              && (Sampled(frameCount, m) ==> DetectorRanOn(d, old(camera.queue)[0].frame, old(d.previousFrame), old(d.motionDetected)))
              && lastMotionTime == if Sampled(frameCount, m) && old(d.previousFrame).Some? && d.motionDetected
                                   then now else old(lastMotionTime)
      ensures var recognized := RecognizerAnswer(camera.animalRecognizer, out, imHeight, imWidth);
              && animals == (if Sampled(frameCount, camera.framesBetweenRecognition) then recognized else old(animals))
              && lastRecognitionTime == (if Sampled(frameCount, camera.framesBetweenRecognition) && recognized != []
                                         then now else old(lastRecognitionTime))
              && (videoWriter.NotOpened? <==>
                    old(videoWriter).NotOpened? && !(Sampled(frameCount, camera.framesBetweenRecognition) && recognized != []))
      ensures videoWriter.NotOpened? ==>
                !stop && stopReason.None? && camera.stopConditionMet == old(camera.stopConditionMet)
      ensures !videoWriter.NotOpened? ==>
                var sample := old(camera.queue)[0];
                && videoWriter.frames == old(videoWriter).Written()
                                         + [AnimalRecognition.Annotated(sample.frame, AnimalRecognition.MarksOf(animals))]
                && stopReason == StopDecision(now - startTime >= camera.recordingDuration,
                                              sample.time - lastRecognitionTime >= camera.timeout,
                                              sample.time - lastMotionTime >= camera.timeout)
                && (stop <==> stopReason.Some?)
                && (stop ==> camera.stopConditionMet && videoWriter.Released?)
                && (!stop ==> camera.stopConditionMet == old(camera.stopConditionMet) && videoWriter.Open?)
    {
      var sample := TakeFrame(now, imHeight, imWidth, out);
      if !videoWriter.NotOpened? {
        ghost var written := videoWriter.Written();
        WriteFrame(sample, now);
        WrittenTailExtends(written, old(dequeued), videoWriter.frames[|written|], sample);
        assert videoWriter.Written() == written + [videoWriter.frames[|written|]];
      }
    }

    /** The first half of a step: take the next sample off the queue, count
        it, run the sampled detectors and open the writer on the first
        recognition. */
    method TakeFrame(now: real, imHeight: int, imWidth: int, out: AnimalRecognition.ModelOutput) returns (sample: Sample)
      requires camera.Valid() && camera.queue != [] && out.Parallel()
      modifies this, camera, camera.motionDetector
      ensures sample == old(camera.queue)[0]
      ensures camera.queue == old(camera.queue)[1..] && camera.stopConditionMet == old(camera.stopConditionMet)
      ensures dequeued == old(dequeued) + [sample]
      ensures frameCount == old(frameCount) + 1 && lastFrameAt == now
      ensures var m, d := camera.framesBetweenMotionDetection, camera.motionDetector;
              && (!Sampled(frameCount, m) ==> unchanged(d))
              && (Sampled(frameCount, m) ==> DetectorRanOn(d, sample.frame, old(d.previousFrame), old(d.motionDetected)))
              && lastMotionTime == if Sampled(frameCount, m) && old(d.previousFrame).Some? && d.motionDetected
                                   then now else old(lastMotionTime)
      ensures var recognized := RecognizerAnswer(camera.animalRecognizer, out, imHeight, imWidth);
              && animals == (if Sampled(frameCount, camera.framesBetweenRecognition) then recognized else old(animals))
              && lastRecognitionTime == (if Sampled(frameCount, camera.framesBetweenRecognition) && recognized != []
                                         then now else old(lastRecognitionTime))
              && videoWriter == if old(videoWriter).NotOpened? && Sampled(frameCount, camera.framesBetweenRecognition) && recognized != []
                                then Open([]) else old(videoWriter)
      ensures stop == old(stop) && stopReason == old(stopReason)
    {
      sample := camera.queue[0];
      camera.queue := camera.queue[1..];
      dequeued := dequeued + [sample];
      frameCount := frameCount + 1;
      lastFrameAt := now;

      SampleMotion(sample.frame, now);
      SampleRecognition(now, imHeight, imWidth, out);
    }

    /** Motion detection on every `frames_between_motion_detection`-th frame:
        a detection moves the motion timer to `now`. */
    method SampleMotion(frame: Image, now: real)
      requires camera.Valid()
      modifies this, camera.motionDetector
      ensures var m, d := camera.framesBetweenMotionDetection, camera.motionDetector;
              && (!Sampled(frameCount, m) ==> unchanged(d))
              && (Sampled(frameCount, m) ==> DetectorRanOn(d, frame, old(d.previousFrame), old(d.motionDetected)))
              && lastMotionTime == if Sampled(frameCount, m) && old(d.previousFrame).Some? && d.motionDetected
                                   then now else old(lastMotionTime)
      ensures frameCount == old(frameCount) && dequeued == old(dequeued) && lastFrameAt == old(lastFrameAt)
      ensures animals == old(animals) && lastRecognitionTime == old(lastRecognitionTime)
      ensures videoWriter == old(videoWriter) && stop == old(stop) && stopReason == old(stopReason)
    {
      if Sampled(frameCount, camera.framesBetweenMotionDetection) {
        var motionDetected := camera.motionDetector.DetectMotion(frame);
        if motionDetected {
          lastMotionTime := now;
        }
      }
    }

    /** Recognition on every `frames_between_recognition`-th frame: its
        answer replaces the boxes drawn, and a non-empty answer moves the
        recognition timer to `now` and opens the writer if it is not open. */
    method SampleRecognition(now: real, imHeight: int, imWidth: int, out: AnimalRecognition.ModelOutput)
      requires camera.Valid() && out.Parallel()
      modifies this
      ensures var recognized := RecognizerAnswer(camera.animalRecognizer, out, imHeight, imWidth);
              && animals == (if Sampled(frameCount, camera.framesBetweenRecognition) then recognized else old(animals))
              && lastRecognitionTime == (if Sampled(frameCount, camera.framesBetweenRecognition) && recognized != []
                                         then now else old(lastRecognitionTime))
              && videoWriter == if old(videoWriter).NotOpened? && Sampled(frameCount, camera.framesBetweenRecognition) && recognized != []
                                then Open([]) else old(videoWriter)
      ensures frameCount == old(frameCount) && dequeued == old(dequeued) && lastFrameAt == old(lastFrameAt)
      ensures lastMotionTime == old(lastMotionTime) && stop == old(stop) && stopReason == old(stopReason)
    {
      if Sampled(frameCount, camera.framesBetweenRecognition) {
        animals := camera.animalRecognizer.RecognizeAnimal(imHeight, imWidth, out);
        if |animals| > 0 {
          lastRecognitionTime := now;
          if videoWriter.NotOpened? {
            videoWriter := Open([]);
          }
        }
      }
    }

    /** Writes the annotated frame to the open writer and applies the stop
        policy to it: on a stop, the stop event is set and the writer
        released. */
    method WriteFrame(sample: Sample, now: real)
      requires camera.Valid() && !stop && videoWriter.Open? && stopReason.None?
      modifies this, camera
      ensures !videoWriter.NotOpened?
      ensures videoWriter.frames == old(videoWriter.frames)
                                   + [AnimalRecognition.Annotated(sample.frame, AnimalRecognition.MarksOf(animals))]
      ensures stopReason == StopDecision(now - startTime >= camera.recordingDuration,
                                         sample.time - lastRecognitionTime >= camera.timeout,
                                         sample.time - lastMotionTime >= camera.timeout)
      ensures stop <==> stopReason.Some?
      ensures stop ==> camera.stopConditionMet && videoWriter.Released?
      ensures !stop ==> camera.stopConditionMet == old(camera.stopConditionMet) && videoWriter.Open?
      ensures camera.queue == old(camera.queue)
      ensures frameCount == old(frameCount) && dequeued == old(dequeued) && animals == old(animals)
      ensures lastMotionTime == old(lastMotionTime) && lastRecognitionTime == old(lastRecognitionTime)
      ensures lastFrameAt == old(lastFrameAt)
    {
      var frame := AnimalRecognition.Annotated(sample.frame, AnimalRecognition.MarksOf(animals));
      videoWriter := Open(videoWriter.frames + [frame]);

      var elapsedTimeCondition := now - startTime >= camera.recordingDuration;
      var recogCondition := sample.time - lastRecognitionTime >= camera.timeout;
      var motionCondition := sample.time - lastMotionTime >= camera.timeout;
      if elapsedTimeCondition || motionCondition || recogCondition {
        camera.stopConditionMet := true;
        videoWriter := Released(videoWriter.frames);
        stop := true;
        if motionCondition {
          stopReason := Some(MotionTimeout);
        } else if elapsedTimeCondition {
          stopReason := Some(DurationCap);
        } else {
          stopReason := Some(RecognitionTimeout);
        }
      }
    }
  }
}

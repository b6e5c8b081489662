# picam core, modelled in Dafny

This project models the core of picam, a Raspberry Pi camera. The camera
watches a low-resolution stream for motion. On motion it starts a
recording session. A producer loop captures full-size frames into a
queue at the target frame rate. A consumer loop takes frames off the
queue, runs motion detection and animal recognition on a stride of them,
and opens a video writer on the first recognition. It then writes every
frame with its boxes drawn and stops on a duration cap or on a motion or
recognition timeout. A separate class keeps a catalog of videos in an
SQLite table. Nothing in the program writes recordings to it: the camera
stores a database path but never creates the catalog.

The project has six modules, one file each:

- `Wrappers` (wrappers.dfy): `Option` and `Result`.
- `PyStr` (py_str.dfy): the Python string operations the recognizer uses.
  The label-map parser uses `strip()` and `split(',')`. The detection
  filter uses `lower()` and the substring test `in`.
- `MotionDetection` (motion_detection.dfy): the `MotionDetector` class.
  It covers the seeding of the running-average background, the stored
  status, `reset`, the binary threshold at `int(255 * sensitivity)` and the
  "some contour larger than `min_area`" rule. The OpenCV image operations
  are a `Vision` record of functions. They are uninterpreted, so every
  property holds for every choice of them.
- `AnimalRecognition` (animal_recognition.dfy): the `AnimalRecognizer`
  class. It covers the label map built from the lines of the
  class-descriptions file, the filter over the network's raw outputs and the
  argument handling of `draw_bounding_box`.
- `Catalog` (video_database.dfy): the `VideoDatabase` class over a map from
  video id to row.
- `Camera` (rich_camera.dfy): `capture_frame`, one pass of
  `run_motion_detection`, the producer `record_frames` and the consumer
  `process_frames`. The consumer is a `RecordingSession` class whose fields
  are the loop's variables, with one method per loop iteration (`Step` for a
  frame taken off the queue, `PollEmpty` for an empty queue).

Times are `real` clock readings passed in as arguments. Each capture of
the producer is a `Shot` value. It holds the camera's frame, or none when
the camera yields none. It also holds the clock reading and whether the
consumer had set the stop event by then.

The give-up on an empty queue, like the source, does not set the stop
event. The producer is therefore not told to stop when the consumer gives
up.

## Model

| member | source | states |
|---|---|---|
| `Camera.CaptureFrame` | rich_camera.py:81-88 | Fails exactly when the camera yields no frame. Otherwise it returns that frame with the clock reading taken after capturing it. |
| `Camera.RichCamera.constructor` | rich_camera.py:26-62 | The defaults are a 300 s duration cap, a 15 s timeout, 30 frames per second, recognition every 4th frame and motion detection every frame. The recognizer gets the camera's keywords (default `["man"]`) and threshold (0.3). Both components start fresh, the queue is empty and the stop event is clear. |
| `Camera.RichCamera.RecordFrames` | rich_camera.py:111-131 | Enqueues every captured frame in order, including the one captured in the iteration that sees the stop event. It then clears the event and stops. A failed capture ends the loop with nothing enqueued for it. The sleeps made are exactly the pacing sleeps of the captures that did not see the event. |
| `Camera.RichCamera.Produce` | rich_camera.py:118-131 | One iteration. It raises iff the capture fails. Otherwise it enqueues the sample. The stop event is seen iff it was set before or during the capture, and seeing it clears it. Otherwise it returns the sleep `time_per_frame - gap`, when that is positive, and 0 otherwise. |
| `Camera.PacingSleep` | rich_camera.py:128-129 | The sleep is never negative. It is positive iff the gap since the previous capture is shorter than the frame interval, and then the gap plus the sleep is exactly one frame interval. |
| `Camera.SamplesOf` | rich_camera.py:118-121 | The producer puts exactly one sample on the queue per capture. |
| `Camera.Sleeps` | rich_camera.py:128-131 | The producer sleeps once per capture that did not see the stop event. |
| `Camera.SampleAt` | rich_camera.py:118-121 | Queue entry `j` of a producer run is capture `j`'s frame with its own clock reading. |
| `Camera.SleepAt` | rich_camera.py:128-131 | Sleep `j` is measured from the previous capture's time, or from the start for the first one; `start_time`, reassigned at rich_camera.py:131, moves to each capture's time. |
| `Camera.PacingKeepsFrameInterval` | rich_camera.py:128-131 | Each gap plus the sleep after it spans at least one frame interval, and exactly one when a sleep was needed. No sleep happens iff the gap already reached the interval. |
| `Camera.WatchStep` | rich_camera.py:90-109 | The pass ends in `WatchCaptureFailed` iff the low-resolution capture fails, and then nothing changes. The producer runs iff the low-resolution detector reports motion, so never on the seeding call. A producer run that ends by seeing the stop event leaves the event clear and is followed by a detector reset. After any other pass the detector holds the seeded or updated background, and its status is the motion it reported (unchanged by a seeding call). A producer run that raises (`ProducerCaptureFailed`) also ends the watcher, since `record_frames` runs on the watcher's thread without a `try`; it skips the reset and leaves the event as it was. A producer run also states how it ended: a failed capture at the first capture without a frame, a seen stop event only after at least one frame was queued and only with the event set before or at the last capture, or the captures given running out after all of them were queued; every capture before the last queued one had a frame and did not see the event. |
| `Camera.SampledCountIsQuotient` | rich_camera.py:157-166 | A stage run on frames whose count is a multiple of its stride runs on exactly `n / stride` of the first `n` frames. With the defaults that is every frame for motion and every 4th frame for recognition. |
| `Camera.StopDecision` | rich_camera.py:186-201 | The session stops iff one of the three conditions holds. Exactly one reason is reported, with priority motion timeout, then duration cap, then recognition timeout. |
| `Camera.GiveUpAsWritten` | rich_camera.py:147 | The empty-queue test as written: more than two seconds since the session started. This predicate has no contract; the lemma below shows what it does. |
| `Camera.GiveUp` | rich_camera.py:147-148 | The empty-queue test as intended: more than two seconds since the last frame was taken, or since the start before the first. This predicate has no contract; `PollEmpty` states it. |
| `Camera.GiveUpAsWrittenEndsLiveSession` | rich_camera.py:146-149 | The empty-queue test as written ends a session whose last frame was taken 0.1 s earlier. |
| `Camera.WrittenTailExtends` | rich_camera.py:178-183 | Writing the frame just taken keeps the written frames equal to the latest frames taken, in order. |
| `Camera.RecordingSession.constructor` | rich_camera.py:134-142 | A session starts with no frames counted, no boxes, no writer, and both timers at the start time. |
| `Camera.RecordingSession.PollEmpty` | rich_camera.py:146-151 | An empty queue counts no frame and changes nothing but `stop`. The session gives up iff more than two seconds have passed since the last frame was taken. This is the corrected test of the finding below, not line 147 as written, which measures from the session start. |
| `Camera.RecordingSession.Step` | rich_camera.py:144-201 | One frame taken off the queue. The count grows by exactly one and the detectors run on the sampled frames only. On a sampled frame the detector's background and its status are determined by that frame: the first call seeds the background and keeps the status, later calls store whether a contour area exceeds `min_area`. The motion timer moves only on a sampled detection that reports motion. The recognition timer moves only on a sampled non-empty recognition, and the boxes change only on recognition frames. The writer opens once, at the first non-empty recognition. Before that nothing is written and no stop is taken. Once it is open, the annotated frame is written and the session stops iff `StopDecision` gives a reason; a stop sets the event and releases the writer. |
| `Camera.RecordingSession.TakeFrame` | rich_camera.py:153-175 | Takes the head of the queue and counts it. It runs the sampled detectors, leaving the detector's background and status as determined by that frame, and opens the writer on the first non-empty recognition. |
| `Camera.RecordingSession.SampleMotion` | rich_camera.py:157-163 | On every `frames_between_motion_detection`-th frame the detector runs on the frame: the first call seeds the background and keeps the status, later calls fold the frame into the background and store whether some contour area exceeds `min_area`. The motion timer moves to now iff it reports motion. On other frames the detector is untouched. |
| `Camera.RecordingSession.SampleRecognition` | rich_camera.py:166-175 | On every `frames_between_recognition`-th frame the recognizer's answer replaces the boxes. A non-empty answer moves the recognition timer and opens a writer that is not yet open. |
| `Camera.RecordingSession.WriteFrame` | rich_camera.py:178-201 | Appends the frame with the current boxes drawn to the writer. It then applies the stop policy. |
| `MotionDetection.AsFloat` | motion_detection.py:22 | The seed background is the smoothed image, pixel by pixel, as reals. |
| `MotionDetection.Trunc` | motion_detection.py:32 | Python's `int()` truncates toward zero. |
| `MotionDetection.TruncWithinOne` | motion_detection.py:32 | `int(x)` is within one of `x` and never on the other side of zero. |
| `MotionDetection.ThresholdLevel` | motion_detection.py:32 | The level is `255 * sensitivity` truncated toward zero. |
| `MotionDetection.DefaultThresholdLevel` | motion_detection.py:6-32 | With the default sensitivity 0.2 the level is 51. |
| `MotionDetection.Binarize` | motion_detection.py:32 | A pixel becomes 255 iff it is strictly above the level, and 0 otherwise. |
| `MotionDetection.AnyAreaAbove` | motion_detection.py:37 | Motion iff some contour's area is strictly greater than `min_area`. |
| `MotionDetection.MotionDetector.constructor` | motion_detection.py:6-11 | A fresh detector has sensitivity 0.2, minimum area 500 and weight 0.5. It has no background and status false. |
| `MotionDetection.MotionDetector.DetectMotion` | motion_detection.py:13-39 | With no background the call seeds it, returns false and leaves the status alone. Otherwise it folds the frame into the background. It then returns, and stores, whether some contour area of the thresholded, dilated difference exceeds `min_area`. Either way a background is set afterwards. |
| `MotionDetection.MotionDetector.GetMotionStatus` | motion_detection.py:41-42 | Returns the stored status. |
| `MotionDetection.MotionDetector.Reset` | motion_detection.py:44-46 | Clears the background and the status. |
| `MotionDetection.ResetThenDetect` | motion_detection.py:21-46 | After `reset`, the next call reports no motion, the status stays false, and that call seeds the background. |
| `AnimalRecognition.AnimalRecognizer.constructor` | animal_recognition.py:9-22 | The default keywords are `["cat", "man"]` and the default threshold is 0.3. The model is loaded and the label map is read from the file's lines. |
| `AnimalRecognition.AnimalRecognizer.LoadClassNameMap` | animal_recognition.py:29-40 | The label map is the fold of the lines' entries in file order. Nothing else changes. |
| `AnimalRecognition.ParseLine` | animal_recognition.py:34-38 | An entry that a line adds is the text before and the text after the only comma of the stripped line. |
| `AnimalRecognition.ParseLineEntry` | animal_recognition.py:34-38 | A line adds `id -> name` iff its stripped text is `id,name` with no other comma. |
| `AnimalRecognition.ParseLineRejects` | animal_recognition.py:34-35 | A line adds nothing iff its stripped text is not two comma-free parts joined by one comma. |
| `AnimalRecognition.ParsedLines` | animal_recognition.py:33-34 | One parse result per line of the file. |
| `AnimalRecognition.ParsedLineAt` | animal_recognition.py:33-34 | Parse result `i` is what line `i` adds. |
| `AnimalRecognition.ClassNameMapSnoc` | animal_recognition.py:33-38 | Reading one more line adds its entry, if it has one, to the map built so far. |
| `AnimalRecognition.FoldSnoc` | animal_recognition.py:36-38 | Folding one more entry adds it over what was there. |
| `AnimalRecognition.FoldKeys` | animal_recognition.py:35-38 | An id is a key of the folded map iff some entry sets it. |
| `AnimalRecognition.FoldLastWins` | animal_recognition.py:36-38 | The last entry that sets an id decides its value. |
| `AnimalRecognition.ClassNameMapKeys` | animal_recognition.py:29-39 | An id is in the label map iff some line of the file defines it. |
| `AnimalRecognition.ClassNameMapLastWins` | animal_recognition.py:33-38 | For a duplicate id, the last line that defines it decides its name. |
| `AnimalRecognition.AnimalRecognizer.RecognizeAnimal` | animal_recognition.py:43-89 | With no model the answer is `[]`. Otherwise it is the filter's result over all outputs, with at most one detection per output. |
| `AnimalRecognition.Kept` | animal_recognition.py:74-81 | The test that decides whether one detection is kept. This predicate has no contract; `KeptIff` states what it means. |
| `AnimalRecognition.KeptIff` | animal_recognition.py:74-81 | A detection is kept iff its score is strictly above the threshold, its raw class name maps to a non-empty name, and some keyword occurs in the lowercased name. The second `lower()` at line 81 changes nothing. |
| `AnimalRecognition.ToDetection` | animal_recognition.py:82-87 | Scales a kept detection's box from fractions of the image to pixels of the original frame. This function has no contract; `PixelBoxWithinAPixel` states what it means. |
| `AnimalRecognition.PixelBoxWithinAPixel` | animal_recognition.py:85-87 | The emitted position and size are the exact pixel values cut toward zero: each is within one pixel and never on the other side of zero. |
| `AnimalRecognition.Filtered` | animal_recognition.py:72-89 | The list built by the loop has no more entries than the outputs looked at. |
| `AnimalRecognition.KeptIndices` | animal_recognition.py:73-81 | The positions kept are increasing and in range. A position is kept iff its score is strictly above the threshold, its label is known and non-empty, and some keyword is a substring of the lowercased label. |
| `AnimalRecognition.FilteredIsKeptInOrder` | animal_recognition.py:72-89 | The answer is exactly the kept detections, one per kept position, in model order. It has no more entries than there are outputs. |
| `AnimalRecognition.FilteredSound` | animal_recognition.py:73-87 | Every detection returned carries a non-empty lowercase label that matches a keyword and comes from an output whose score passed the threshold. |
| `AnimalRecognition.MarksOf` | animal_recognition.py:100-104 | Each box gets two marks in box order: its rectangle, then its label ten pixels above the top edge. |
| `AnimalRecognition.AnimalRecognizer.DrawBoundingBox` | animal_recognition.py:91-105 | A single tuple is drawn as a one-box list and a list is drawn box by box. Any other argument is a `ValueError`. |
| `PyStr.IndexOf` | animal_recognition.py:34 | The first position of the separator, or the length when there is none. |
| `PyStr.Strip` | animal_recognition.py:34 | `strip()` gives a string no longer than its input that neither starts nor ends with whitespace. |
| `PyStr.Split` | animal_recognition.py:34 | `split(',')` gives at least one piece and at most one more than the length of the string. |
| `PyStr.StripLeftSpec` | animal_recognition.py:34 | `lstrip` keeps a suffix, cuts only whitespace and leaves no leading whitespace. |
| `PyStr.StripRightSpec` | animal_recognition.py:34 | `rstrip` keeps a prefix, cuts only whitespace and leaves no trailing whitespace. |
| `PyStr.StripIsTrimmedSlice` | animal_recognition.py:34 | `strip()` keeps a slice, with only whitespace cut on each side, that neither starts nor ends with whitespace. |
| `PyStr.SplitJoinsBack` | animal_recognition.py:34 | `split` gives at least one piece, no piece holds the separator, and joining the pieces gives the input back. |
| `PyStr.SplitJoin` | animal_recognition.py:34 | Splitting inverts joining pieces that hold no separator. |
| `PyStr.SplitInTwo` | animal_recognition.py:34-35 | A string splits into exactly two pieces iff it holds exactly one separator, and the pieces are what stands either side of it. |
| `PyStr.Lower` | animal_recognition.py:76 | `lower()` keeps the length and lowers each character. |
| `PyStr.LowerIdempotent` | animal_recognition.py:76-81 | Lowering an already lowered name changes nothing, and only the empty string lowers to the empty string. |
| `Catalog.InsertedAnimals` | video_database.py:67 | Missing or empty animals are stored as NULL. A non-empty set is stored as its text. |
| `Catalog.ReadAnimals` | video_database.py:86 | The animals read back are `None` iff the column is NULL or holds the text of `None`. Otherwise they are the stored set. |
| `Catalog.EntryOf` | video_database.py:82-88 | The entry read back carries the row's columns, with the animals column evaluated. |
| `Catalog.Lookup` | video_database.py:75-90 | A read finds the entry iff the id is in the table. |
| `Catalog.UpdateRow` | video_database.py:107-125 | An update by id keeps the set of ids and every other row. An unknown id changes nothing. |
| `Catalog.VideoDatabase.constructor` | video_database.py:25-55 | Opening the catalog keeps exactly the rows already in the database file, because the table is only created when it does not exist; a new file gives an empty table. |
| `Catalog.VideoDatabase.InsertVideo` | video_database.py:61-73 | Returns the new id iff the engine succeeds and the id is not yet taken, and adds exactly that row. Otherwise it returns `None` and the table is unchanged. |
| `Catalog.VideoDatabase.GetVideo` | video_database.py:75-93 | Returns the entry iff the id is present and the engine succeeds. Otherwise it returns `None`. |
| `Catalog.VideoDatabase.UpdateVideo` | video_database.py:95-105 | Overwrites the filename, animals (as `str(animals)`), duration and start time of that row only. The id is kept. |
| `Catalog.VideoDatabase.UpdateVideoAnimals` | video_database.py:107-117 | Sets only the animals column of that row, to `str(animals)` whatever it is. |
| `Catalog.VideoDatabase.UpdateVideoDuration` | video_database.py:119-129 | Sets only the duration column of that row. |
| `Catalog.VideoDatabase.DeleteVideo` | video_database.py:131-139 | Removes exactly the row with that id and leaves every other row as it was. |
| `Catalog.VideoDatabase.GetAllVideos` | video_database.py:141-157 | Returns one entry per row, each row exactly once, each equal to what `get_video` returns for it. On an engine error it returns `[]`. |
| `Catalog.InsertThenLookup` | video_database.py:61-88 | Reading an inserted row gives back what was inserted, except that empty animals read back as `None`. |
| `Catalog.UpdateAnimalsThenLookup` | video_database.py:107-117 | After `update_video_animals`, a read gives back exactly the animals passed in, and the other columns are unchanged. |
| `Catalog.EmptyAnimalsAsymmetry` | video_database.py:61-113 | Inserting an empty set reads back `None`. Updating to an empty set reads back the empty set. |

## Left out

- Threads and their interleaving. The producer and consumer do not run concurrently here. `WatchStep` runs the producer to completion and does not start the consumer. The consumer setting the stop event during a producer run is the `eventSet` flag of each `Shot`.
- `Camera.WatchStep`: one pass of `run_motion_detection`'s endless loop, not the loop itself. Its 0.1 s sleep and the feed start are left out.
- `Camera.RichCamera.RecordFrames`: runs over a finite list of captures. `ScriptEnded` is the list running out, which the endless source loop never does.
- `Camera.RecordingSession.Step`: all `time.time()` readings within one frame are one argument `now`. In the source, the motion and recognition timers take fresh readings after each stage.
- `Camera.RichCamera.constructor`: requires a non-zero frame rate. With zero, Python raises `ZeroDivisionError` only later, in `record_frames`.
- Clocks and sleeping in general. `time.time()` readings are arguments and `time.sleep` is not performed; the producer's sleeps are returned.
- The queue is not cleared between sessions, as in the source. Frames left over from one session are consumed by the next.
- Prints and the timing statistics of `process_frames` (recognition and detection durations and their averages).
- The video writer. It is a value that is not opened, open with the frames written so far, or released. File names, codec and `create_video_writer` are left out. The source passes the `time` module as its start time.
- The source calls `draw_bounding_boxes`, a method `AnimalRecognizer` does not define. The model draws the boxes with `draw_bounding_box`'s marks, as intended.
- `frames_to_recognize` is set but never used. `run_motion_detection`'s check for a missing frame cannot run, because `capture_frame` raises first.
- OpenCV image processing (colour conversion, blur, running average, difference, dilation, contours) is uninterpreted. So is drawing: a frame with boxes is the frame plus the list of marks drawn on it.
- TensorFlow model loading and inference. The network's outputs (boxes, scores, raw class names) are the `ModelOutput` argument. The frame's height and width are arguments. Box coordinates are reals, not 32-bit floats.
- `PyStr.Lower`: lowers ASCII letters only. Python's `lower()` also maps non-ASCII letters.
- File I/O. The class-descriptions file is given as its lines. The byte decoding of the raw class names is left out.
- SQLite. The engine failing is the `dbError` argument. `uuid.uuid4()` is the `newId` argument. A duplicate id is a primary-key violation that makes the insert fail. The connection, cursor, commit and rollback are left out. The `animals` column holds NULL or `str(value)`, and `eval` of that text gives the value back.
- `Catalog.VideoDatabase.GetAllVideos`: the order of the rows is not stated, because SQLite does not fix it for `SELECT *`.
- `VideoEntry.to_dict`, and `VideoEntry.__repr__`, which reads attributes the class does not have.

## Findings

| source | as written | input that shows it | evidently intended | confidence | as-written member | corrected member |
|---|---|---|---|---|---|---|
| rich_camera.py:147-149 | The empty-queue give-up compares the clock with the session's start time. Its comment says "no frames for 2 seconds". | A session started at 0.0 takes a frame at 2.4 and finds the queue empty at 2.5. The session ends although a frame arrived 0.1 s earlier. | Give up when no frame has been taken off the queue for more than 2 seconds, counting from the start before the first frame. | not executed | `Camera.GiveUpAsWritten`, `Camera.GiveUpAsWrittenEndsLiveSession` | `Camera.GiveUp`, `Camera.RecordingSession.PollEmpty` |

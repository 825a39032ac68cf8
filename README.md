# mse-gpu-robot: a verified model of the control and bookkeeping logic

This project models the logic of a small target-following robot car:

- A vision server reads frames from a webcam or a video file. It classifies three fixed 224-pixel crops of each 320-pixel-wide frame and publishes one JSON record per frame. Each record holds the three zone probabilities, the center one as the target, the JPEG image as base64, and the frame rate.
- Two alternative controllers on the car subscribe to those records:
  - a three-zone controller turns the probabilities into a steering/throttle command through a threshold and an ordered decision table;
  - a single-zone controller drives only the throttle, using two thresholds with a dead band between them.
- Two dataset scripts prepare training data:
  - one balances the two class folders (`cible`, `nocible`) and splits each class 80/20/0;
  - the other splits 70/15/15 without balancing.

  In both, the split is done by symbolic links into `train/`, `val/` and `test/`.

The files are:

| file | module | models |
|---|---|---|
| `wire.dfy` | `Wire` | the JSON record, its keys and values |
| `racecar.dfy` | `Racecar` | the car's two command fields |
| `zone_controller.dfy` | `ZoneController` | `02-jetson/03-controller-class.py` |
| `throttle_controller.dfy` | `ThrottleController` | `02-jetson/03-controller.py` |
| `frames.dfy` | `Frames` | images, Python slicing, crop, flip, BGR to RGB |
| `vision_server.dfy` | `VisionServer` | `main` of `01-inference/01-PC-vision_server.py` and of `01-inference/01-PC-vision_server-trt.py` |
| `dataset_split.dfy` | `DatasetSplit` | `data/splitTrainTestVal.py` and `splitTrainTestVal.py` |
| `pipeline.dfy` | `Pipeline` | how server records meet the controllers |
| `arithmetic.dfy` | `Arithmetic` | facts about Euclidean division used by the proofs |

How the model represents the source:

- **Controllers.** The controllers write the fields of a `Car` object. Their loop step, loop and SIGINT handler are module-level methods that take the car and modify its fields.
  - The three-zone step writes the command computed by the pure function `Decide`.
  - The single-zone step keeps the source's if/elif and writes the throttle only outside the dead band. It is proved to leave the throttle that the pure function `NextThrottle` gives.
- **Controller loops.** The `while True` loops of the controllers run over a finite inbox of messages: the messages that arrive before SIGINT. A message the Python code could not index (a missing key, a value of the wrong kind) raises an exception. That ends the program with the car still holding its last command. The model returns the number of messages handled before that point.
- **Server loop.** The vision server's loop is modelled twice:
  - as a state machine (`VisionServer.Step`, `VisionServer.Run`) with proved replay properties;
  - as imperative code over a `Capture` and a `Publisher` object (`VisionServer.ServeLoop`).

  The imperative loop is proved to publish exactly what the state machine publishes.
- **Server collaborators.** The classifier, the resize, the JPEG/base64 encoding and the clock are parameters of the server. The k-th clock reading is `clock(k)`.
- **Frame shape.** The resize to 320 x 224 is stated as the predicate `VisionServer.ResizesToCam`. The lemmas about the exact crop windows assume it.
- **Classifier output.** The classifier returns a real, and no range is assumed.
- **Both servers.** The two PC servers have the same `main` apart from how the model is loaded, so one set of members covers both. The table below cites the PyTorch file. In `01-inference/01-PC-vision_server-trt.py` the same code sits at these lines:
  - source selection at 70-76;
  - opening the capture at 78-82;
  - the crop offsets at 93-97;
  - the loop with its rewind and break at 99-112;
  - the frame rate at 122-125;
  - the crops and the two classification loops at 131-156;
  - the record at 163-169;
  - the release at 171-174.
- **Dataset folders.** A folder is a set of file names, and the split directories are a set of (split, class) pairs. The entries in those directories form a map from link path to link target.
- **Shuffling.** `os.listdir` followed by `random.shuffle` is an arbitrary enumeration of the folder's set: a duplicate-free sequence with the same elements. It is passed in as a parameter.
- **Ratios.** A split ratio is a whole percentage, and `int(total * ratio)` is `total * percent / 100`.

Behaviour of the source that the proofs make explicit:

- With left and right active and center inactive, the three-zone controller makes a hard left. The first matching branch wins.
- `THRESHOLD_LOST` (three-zone) and `THRESHOLD` (single-zone) are declared but no decision reads them. The single-zone rule uses the literals 0.7 and 0.4.
- The single-zone controller never writes the steering, not even in its SIGINT handler.
- A missing class folder counts as empty when balancing, so balancing then deletes every file of the other class.
- With the 80/20/0 ratios the test split still receives the rounding remainder: one file whenever the total is not a multiple of five.
- Linking removes any existing entry first, so running the split again with the same order changes nothing. Links left by an earlier run in a different split are never removed.

## Model

| member | source | states |
|---|---|---|
| Racecar.Car.constructor | 02-jetson/03-controller-class.py:22 | the car starts with the driver's initial command |
| ZoneController.ReadZones | 02-jetson/03-controller-class.py:43-49 | the three probabilities are read exactly when `probs` is an object holding `left`, `center` and `right`, and they are those three values |
| ZoneController.ThresholdIsStrict | 02-jetson/03-controller-class.py:52-54 | a zone is active only strictly above 0.60; probabilities at or below it in all zones stop the car |
| ZoneController.Decide | 02-jetson/03-controller-class.py:64-89 | throttle 0 iff no zone is active; a straight command moves at `SPEED_FORWARD`; steers left iff left is active unless center and right both are; steers right iff right is active and left is not; a hard turn iff center is lost while a side sees the target; steering in {-0.6, -0.3, 0, 0.3, 0.6}, throttle in {0, 0.14} |
| ZoneController.DecideFollowsTable | 02-jetson/03-controller-class.py:64-89 | the decision chain equals the eight-row table written out independently; left and right without center is a hard left |
| ZoneController.Step | 02-jetson/03-controller-class.py:43-89 | a readable message writes both fields with the decision for its zones; a malformed one raises before any field is written |
| ZoneController.Handled | 02-jetson/03-controller-class.py:41-49 | the handled prefix is the longest run of readable messages: all before it are readable, the one after it is not |
| ZoneController.Run | 02-jetson/03-controller-class.py:41-89 | the loop handles exactly that prefix and leaves the car on the command decided for the last handled message, or untouched if none was handled |
| ZoneController.SignalHandler | 02-jetson/03-controller-class.py:25-29 | SIGINT sets throttle 0 and steering straight whatever the previous command |
| ThrottleController.NextThrottle | 02-jetson/03-controller.py:39-46 | a decisive sample (above 0.7 or below 0.4) sets 0 or `SPEED_NORMAL`, 0 iff above 0.7; a sample in [0.4, 0.7] keeps the previous throttle |
| ThrottleController.DeadBandHolds | 02-jetson/03-controller.py:39-46 | a run of dead-band samples leaves the throttle where it started |
| ThrottleController.LastDecisiveSampleWins | 02-jetson/03-controller.py:39-46 | after any run of samples the throttle is the one set by the last decisive sample |
| ThrottleController.SettlesAfterDecisiveSample | 02-jetson/03-controller.py:39-46 | once one decisive sample has been seen the throttle stays in {0, 0.13} |
| ThrottleController.ReadTarget | 02-jetson/03-controller.py:32-34 | the target is read exactly when `prob_target` is present and numeric, and it is that number |
| ThrottleController.Handled | 02-jetson/03-controller.py:30-34 | the handled prefix is the longest run of messages with a readable target |
| ThrottleController.Step | 02-jetson/03-controller.py:30-46 | a readable message moves the throttle by the dead-band rule; steering is never written |
| ThrottleController.Run | 02-jetson/03-controller.py:30-46 | the final throttle is the dead-band fold of the handled targets from the initial throttle; steering is unchanged |
| ThrottleController.SignalHandler | 02-jetson/03-controller.py:15-18 | SIGINT sets throttle 0 and leaves the steering as it was |
| Frames.PySlice | 01-inference/01-PC-vision_server.py:141-143 | Python slicing clamps both bounds: inside the row it is the plain slice; otherwise it is the in-range part, of length min(hi, len) - lo when positive and empty otherwise, element j being s[lo + j] |
| Frames.CropAt | 01-inference/01-PC-vision_server.py:141-143 | a crop keeps every row of the image |
| Frames.Mirror | 01-inference/01-PC-vision_server.py:123-124 | the horizontal flip keeps the number of rows and the width of every row |
| Frames.MirrorIsInvolution | 01-inference/01-PC-vision_server.py:123-124 | flipping twice gives back the image |
| Frames.ToRgb | 01-inference/01-PC-vision_server.py:135 | the colour conversion keeps the number of rows and the width of every row, and each pixel holds the source pixel's channels with the first and last exchanged |
| Frames.ToRgbIsInvolution | 01-inference/01-PC-vision_server.py:135 | converting twice gives back the image |
| Frames.Window | 01-inference/01-PC-vision_server.py:141-143 | the window at x of a full-width image has its rows, each exactly 224 pixels |
| Frames.CropInsideFrame | 01-inference/01-PC-vision_server.py:141-143 | a window inside a 320-wide frame yields exactly the 224 columns from its offset in every row: the crop is the window |
| Frames.MirrorReflectsCrop | 01-inference/01-PC-vision_server.py:120-143 | in a mirrored frame the crop at x is the reversed crop at 320-224-x of the original: left and right crops swap, center maps onto itself |
| VisionServer.SelectSource | 01-inference/01-PC-vision_server.py:73-79 | a camera is chosen iff the input is non-empty and all digits; otherwise the input is the file path, verbatim |
| VisionServer.CameraNumberRoundTrip | 01-inference/01-PC-vision_server.py:75-76 | the decimal spelling of every camera number selects that camera |
| VisionServer.NonDigitInputsAreFiles | 01-inference/01-PC-vision_server.py:73-79 | "demo.mp4", "-1" and "" are files; "0" is camera 0 |
| VisionServer.CropWindowsInsideFrame | 01-inference/01-PC-vision_server.py:96-100 | the three offsets are keyed left/center/right; each window lies inside the 320 width; the right window ends at the last column; the offsets are symmetric |
| VisionServer.ZoneProbs | 01-inference/01-PC-vision_server.py:141-158 | the map has exactly the keys left, center, right, each holding the classifier's value on its own crop |
| VisionServer.ClassifyZones | 01-inference/01-PC-vision_server.py:138-158 | the two loops (collect crops in order, classify and store by index) build exactly that map |
| VisionServer.Fps | 01-inference/01-PC-vision_server.py:127-130 | the rate is never negative, is 0 iff dt <= 0, and otherwise is the inverse of dt |
| VisionServer.PublishIsWellFormed | 01-inference/01-PC-vision_server.py:165-170 | each record has exactly the keys probs, prob_target, image_b64, jetson_fps; probs is the zone map of the prepared frame; prob_target equals its center value; the image is the encoding of the prepared frame; the rate is that of the interval since the previous frame |
| VisionServer.PreparedFrameHasCamShape | 01-inference/01-PC-vision_server.py:120-135 | after the resize to 320 x 224, the optional flip and the colour conversion, the image has 224 rows of 320 pixels |
| VisionServer.ServedCropsAreWindows | 01-inference/01-PC-vision_server.py:141-143 | each of the three crops of a served frame is the exact 224 x 224 window at its offset |
| VisionServer.Step | 01-inference/01-PC-vision_server.py:103-171 | an iteration publishes one record iff the loop runs and a frame is left; the loop stops iff a camera has no frame left; earlier records are kept |
| VisionServer.StaysStopped | 01-inference/01-PC-vision_server.py:113-115 | after the break no later iteration changes anything |
| VisionServer.StepKeepsCounters | 01-inference/01-PC-vision_server.py:104-129 | each iteration keeps the bookkeeping: one clock reading per record plus one, position within the source, camera position equal to the record count, file position equal to it modulo the frame count, a file never leaves the loop |
| VisionServer.StepKeepsRecords | 01-inference/01-PC-vision_server.py:104-171 | each iteration keeps every record equal to the one its index calls for |
| VisionServer.RunKeepsInv | 01-inference/01-PC-vision_server.py:93-171 | the bookkeeping and the records hold after any number of iterations, with `last_time` the clock reading of the latest record |
| VisionServer.FileReplaysFrames | 01-inference/01-PC-vision_server.py:107-112 | a file is never left: record i shows frame i modulo the file's length, rate measured between clock readings i and i+1 |
| VisionServer.CameraStopsAfterLastFrame | 01-inference/01-PC-vision_server.py:113-115 | a camera loop runs while frames remain and stops at the first failed read, with exactly one record per frame delivered |
| VisionServer.CameraRecordShowsFrame | 01-inference/01-PC-vision_server.py:104-171 | camera record i shows frame i itself |
| VisionServer.Capture.constructor | 01-inference/01-PC-vision_server.py:81 | a capture opens on its source, positioned at the first frame, not released |
| VisionServer.Capture.Read | 01-inference/01-PC-vision_server.py:104 | a read succeeds iff a frame is left, returns that frame and advances; a failed read does not move |
| VisionServer.Capture.Rewind | 01-inference/01-PC-vision_server.py:111 | rewinding goes back to frame 0 |
| VisionServer.Capture.Release | 01-inference/01-PC-vision_server.py:176 | the capture is released |
| VisionServer.Publisher.constructor | 01-inference/01-PC-vision_server.py:67-69 | a new socket has sent nothing |
| VisionServer.Publisher.Send | 01-inference/01-PC-vision_server.py:171 | sending appends the record to what was sent |
| VisionServer.BuildRecord | 01-inference/01-PC-vision_server.py:120-170 | the resize, flip, rate, colour conversion, classification loops and encoding build the record the state machine publishes |
| VisionServer.Iteration | 01-inference/01-PC-vision_server.py:104-171 | one pass of the loop body performs one state-machine step: it sends what the step publishes and moves capture, `last_time` and the running flag as the step does |
| VisionServer.ServeLoop | 01-inference/01-PC-vision_server.py:102-176 | the loop sends exactly the records of the state machine run for the same number of iterations, and the capture is released on every way out |
| VisionServer.Serve | 01-inference/01-PC-vision_server.py:73-176 | the capture is opened on the selected source; a source that cannot be opened returns at once, sending nothing and releasing nothing; otherwise the records of the loop are sent and the capture released |
| DatasetSplit.Bounds | data/splitTrainTestVal.py:88-90 | 0 <= train_end <= val_end <= total; train_end is the floor of the exact train share; val_end is the floor of the exact train-plus-val share or one less, so it can fall short of the exact share by almost two (19 files at 70/15/15 give 15 against 16.15) |
| DatasetSplit.FloorsOfSum | data/splitTrainTestVal.py:89-90 | two floors add up to the floor of the sum or one less |
| DatasetSplit.PortionsFit | data/splitTrainTestVal.py:88-90 | two floored portions whose percentages add up to at most 100 fit in the total |
| DatasetSplit.Slices | data/splitTrainTestVal.py:93-97 | the three slices concatenate to the shuffled list, with train and val of the floored sizes and test the rest |
| DatasetSplit.SlicesPartition | data/splitTrainTestVal.py:93-97 | every file of the list is in exactly one of train, val and test |
| DatasetSplit.TestGetsRoundingRemainder | data/splitTrainTestVal.py:88-97 | for any file list, with 80/20/0 the test slice has one file when the total is not a multiple of five and none otherwise |
| DatasetSplit.TestShareOfDefaultRatios | splitTrainTestVal.py:38-47 | with 70/15/15 the test slice, everything after val, has at least as many files as val and at most two more |
| DatasetSplit.BalanceEqualizes | data/splitTrainTestVal.py:29-57 | after balancing both classes have the smaller count; the larger keeps only files it had; the other class is untouched |
| DatasetSplit.MissingClassEmptiesOther | data/splitTrainTestVal.py:19-27 | with the cible folder missing, balancing empties nocible |
| DatasetSplit.RemoveFiles | data/splitTrainTestVal.py:55-57 | the deletion loop removes exactly the listed names from the folder and nothing else |
| DatasetSplit.Balance | data/splitTrainTestVal.py:13-60 | equal counts change nothing; otherwise the larger folder keeps the first `target` names of its shuffled list; the number removed is the larger count minus the smaller |
| DatasetSplit.SplitDirs | data/splitTrainTestVal.py:63-67 | there are 3 x 2 split/class directories |
| DatasetSplit.CreateDirectoryStructure | data/splitTrainTestVal.py:63-67 | the nested loops add every train/val/test x cible/nocible directory, keep existing ones, and change nothing else |
| DatasetSplit.LinkAllSpec | data/splitTrainTestVal.py:101-109 | linking a list creates `split/cls/name` for each listed name, pointing at `cls/name`, replacing any entry there, and keeps every other entry |
| DatasetSplit.LinkSplitsSpec | data/splitTrainTestVal.py:100-109 | linking the three slices of a class creates exactly the links of its slices, each pointing at its file |
| DatasetSplit.LinkClassSpec | data/splitTrainTestVal.py:72-109 | a missing class folder is skipped; an existing one gets the links of its slices |
| DatasetSplit.NewLinkNamesAFile | data/splitTrainTestVal.py:79-97 | a link is only made for a file of its class folder |
| DatasetSplit.SplitLinksSpec | data/splitTrainTestVal.py:70-109 | after the split an entry exists iff it existed before or is the link of a file in its slice; new links point at their file; all other entries are unchanged |
| DatasetSplit.EveryFileInExactlyOneSplit | data/splitTrainTestVal.py:93-109 | this run gives each file of an existing class folder a new link in exactly one split, and that link points at it; stale links from earlier runs are kept |
| DatasetSplit.SplitIsIdempotent | data/splitTrainTestVal.py:105-109 | because existing entries are removed before linking, repeating the split with the same order leaves the links as they are |
| DatasetSplit.LinkFiles | data/splitTrainTestVal.py:101-109 | the inner loop leaves the links that the linking function describes |
| DatasetSplit.SplitClass | data/splitTrainTestVal.py:86-109 | one class's shuffled list is cut at `train_end` and `val_end` and its slices are linked in the order train, val, test |
| DatasetSplit.SplitDataset | data/splitTrainTestVal.py:70-113 | the split leaves the links described above, skipping a missing class folder, and changes neither the folders nor the directories |
| DatasetSplit.BalancedClassesSplitAlike | data/splitTrainTestVal.py:116-126 | after balancing, both existing classes get slices of equal sizes in train, val and test |
| DatasetSplit.PrepareBalancedDataset | data/splitTrainTestVal.py:116-128 | the balancing script leaves balanced folders, all split directories, and the 80/20/0 links of the balanced folders |
| DatasetSplit.PrepareDataset | splitTrainTestVal.py:66-74 | the other script keeps the folders and leaves all split directories and the 70/15/15 links |
| Pipeline.WellFormedRecordIsReadable | 01-inference/01-PC-vision_server.py:165-170 | a record of the server's shape gives the three-zone controller the three probabilities and the single-zone controller the center one |
| Pipeline.ServedRecordsAreWellFormed | 01-inference/01-PC-vision_server.py:103-171 | every record the loop publishes, from a camera or a file, has that shape |
| Pipeline.ControllersHandleServedRecords | 02-jetson/03-controller-class.py:41-49 | fed any selection of the server's records, in any order and with repeats, neither controller meets a message it cannot read |
| Pipeline.ServedZonesComeFromWindows | 01-inference/01-PC-vision_server.py:141-167 | with the resize to 320 x 224, the zones a controller reads are the classifier's values on the exact windows at columns 0, 48 and 96 |
| Pipeline.ServedCommandFollowsCrops | 01-inference/01-PC-vision_server.py:141-167 | the zones a controller reads from a record are the classifier's values on the three crops of the prepared frame, and the target is the center one |

## Left out

- ZMQ transport. The publish/subscribe sockets are a list of sent records on one side and an inbox on the other. Message loss, queueing and subscriber timing are not modelled.
- Concurrency. The SIGINT handler interrupts the loop at an arbitrary point. The model treats it as a separate method, and the loops as running over what arrives before it.
- ML inference. Model loading, preprocessing, tensors, softmax and TensorRT are left out. The classifier is a parameter from image to real.
- Image and encoding operations. `cv2.resize`, JPEG encoding and base64 are parameters, not modelled operations. Only the output shape of the resize is modelled, by `VisionServer.ResizesToCam`, not the interpolation.
- Wall clock and randomness. `time.time()` is the parameter `clock`, and `random.seed(42)`/`random.shuffle` are arbitrary enumerations.
- Logging. `print` output and argument parsing are left out. `--mirror` is a boolean, `--input` a string.
- Filesystem details. The model keeps only the regular files of each class folder, the split directories and the entries in them. It leaves out non-file entries, absolute paths, and a `dst` that is a directory. It also leaves out every failure of `os.remove`/`os.symlink`. The linking operations require the split directory to exist, which both scripts ensure by creating the directory structure first.
- The Jetson-side producers, the web viewers and the dataset collector are not part of this model.
- VisionServer.SelectSource: `str.isdigit` also accepts non-ASCII digits; the model accepts only `0`-`9`.
- ZoneController.Decide: probabilities are exact reals and the thresholds exact decimals. The model does not reason about IEEE double rounding.
- ThrottleController.NextThrottle: probabilities are exact reals and the thresholds exact decimals. The model does not reason about IEEE double rounding.
- VisionServer.Fps: `1.0 / dt` is exact real division, not IEEE division.
- DatasetSplit.Bounds: `int(total * ratio)` is the exact floor of a whole percentage. A floating-point product that lands just below an integer would make the Python cut one smaller.
- ZoneController.ReadZones: `probs` entries are always numbers. A string or null entry, which would raise at the comparison, is not modelled. Nor is a record that is not a JSON object.
- ZoneController.ReadZones: JSON `true`/`false` entries are not representable, because `Wire.Value` has no boolean variant. Python compares them as 1 and 0 without raising, so such a record would be handled.
- ThrottleController.ReadTarget: a JSON `true`/`false` `prob_target` is not representable, because `Wire.Value` has no boolean variant. Python compares it as 1 or 0 without raising, so it would stop the car or set cruise speed.
- VisionServer.ServeLoop: `while True` is bounded by the number of iterations before the keyboard interrupt.
- VisionServer.Serve: the capture's frames are fixed when it opens. A live camera's frames are whatever it delivers before it fails.

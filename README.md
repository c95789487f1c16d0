# Face tracking in inaFaceGender, modelled in Dafny

inaFaceGender classifies the faces found in video frames. To avoid running
the face detector on every frame, `TrackerDetector` keeps one dlib
correlation tracker per face.

- Every frame, the trackers are propagated, and lost trackers are dropped.
- On some frames the detector runs. Its boxes are matched greedily against
  the live trackers, which are then replaced by one fresh tracker per box.
- Every live tracker is reported as a `(box, id)` pair.

The video pipeline then collects one info row and one face image per
detection. It sends the images to the gender classifier in batches of
`batch_len`.

This project models that core in Dafny and proves what it guarantees.

| file | module | models |
|---|---|---|
| `wrappers.dfy` | `Wrappers` | `Option` |
| `geometry.dfy` | `Geometry` | integer boxes, the intersection area, the overlap ratio of `Tracker.iou`, the in-frame test |
| `correlation.dfy` | `Correlation` | the dlib correlation tracker as an oracle (`Primitive`): its state is its position and everything fed to it since `start_track` |
| `face_tracker.dfy` | `FaceTracker` | `Tracker`: the value-level steps (`UpdateStep`, `ProbeStep`) and the class with its fields `last_frame`, `t`, `update_val`, `tid` |
| `tracker_table.dfy` | `TrackerTable` | `TrackerList`: the dictionary as a `Table` (key order, states, counter), `update` as `Propagate` and `ingest_detection` as `Ingest`, and the class holding real `Tracker` objects |
| `scheduling.dfy` | `Scheduling` | `TrackerDetector.__call__` as `DetectStep`, the class, and the frame loop that drives it |
| `batching.dfy` | `Batching` | the image-batching loop of `GenderVideo.__call__` and `GenderTracking.__call__` |

## How the model reads the source

- **Imperative parts stay imperative.** `Tracker`, `TrackerList` and
  `TrackerDetector` are classes whose fields are those of the Python
  objects. Each method is proved against a pure function of the old state:
  - `Tracker.Update` against `UpdateStep`;
  - `TrackerList.Update` against `Propagate`;
  - `TrackerList.IngestDetection` against `Ingest`;
  - `TrackerDetector.Call` against `DetectStep`;
  - `Drive`, the frame loop of `GenderTracking.__call__` that calls the
    detector on each frame, against `Run`.

  The properties are then lemmas about those functions. The Python loops
  are `while` loops. `TrackerList.Update` iterates over a snapshot of the
  keys and deletes from the dictionary. The matching loop keeps `to_remove`
  and `to_add`, and updates the counter `i`. The batching loop slices the
  buffer.
- **Dictionary order.** Python dictionaries iterate in insertion order. That
  order decides the argmax tie-break and the order of the reported rows, so
  the list keeps `order: seq<int>` beside the map `d`.
- **The dlib tracker** is an oracle `Primitive(relocate)`. `relocate` maps a
  tracker state, a frame and an optional guess box to a new position and a
  quality. Frames are compared by their token. This reads the intent of
  `frame != self.last_frame` (face_tracking.py:48). On numpy arrays, `!=`
  compares element by element, and `if` on the resulting array raises
  `ValueError` for any frame of more than one pixel. The line is listed below
  with the other misread names.
- **The overlap ratio is modelled as written.** It is
  `inter / (inter + area(pos) + area(bb))`, which is not standard IoU. When
  the denominator is 0 (both boxes empty), Python raises
  `ZeroDivisionError` at face_tracking.py:45; the model gives 0 there
  instead (see "Left out").
  - `RatioAtMostThird` proves that it never exceeds 1/3, so the `> 0.5` test
    in `ingest_detection` never succeeds.
  - `IngestFoldSpawns`, `IngestRenumbers` and `DetectStepDetects` spell out
    the consequence. Every detection frame discards all old ids and numbers
    the boxes with fresh consecutive ids.
  - Matching against old ids is still modelled in full (`ScoreFold`,
    `Claim`, `ChooseId`), so the general lemmas hold for any ratio.
- **`update_val` is never set by the constructor.** A tracker built on a frame
  and updated again on that same frame reads a missing attribute; Python
  raises `AttributeError`. The model keeps the memo as an `Option`.
  - `Stale` names that case.
  - `TrackerList.Update` returns `ok == false` with the loop stopped where
    it raised.
  - `TrackerDetector.Call` returns `Raised(StaleUpdate)`, without counting
    the frame.
  - The exception leaves `GenderTracking.__call__`, so `Run` and `Drive`
    stop at the first call that raises.
- **A detection period of 0** makes `iframe % detection_period` raise
  `ZeroDivisionError`. This happens after the update: the model returns
  `Raised(ZeroPeriod)` with the updated table. For a non-zero period,
  detection runs iff the remainder is non-zero. Dafny's `%` is Euclidean,
  but it is zero exactly when Python's is, so the branch taken is the same.
- **Misnamed references are modelled by their evident meaning.**
  - In face_tracking.py:114, 119, 123 and 124, `tl` means `self.tl`.
  - In face_tracking.py:118, `self.face_detector` means `self.detector`.
  - In face_tracking.py:61, `frame.shape` means the `frame_shape` argument,
    read as (height, width, channels).
  - In face_tracking.py:48, `frame != self.last_frame` means "a different
    frame", compared by token.

  As written, each misnamed reference would raise `NameError` or
  `AttributeError` on first use. The comparison at line 48 would raise
  `ValueError`.
- **Detector output.** `int(x)` on the detector's float corners truncates
  toward zero (`Trunc`). Tracker positions are integer boxes, so the
  `int(...)` in `intersect_area` is the identity in the model.
- **Batching.** Each detection arrives already preprocessed, as its info
  row paired with its face image. The classifier is a recorder of the
  batches it receives. `batch_len > 0` is required: with `batch_len <= 0`
  the `while len(lbatch_img) > batch_len` loop never ends on a non-empty
  buffer. `Batching.Analyse` also models `GenderTracking.__call__`, whose
  loop (inaFaceGender/inaFaceGender.py:257-290, in particular 271-284) has
  the same shape as `GenderVideo.__call__`'s.

## Model

| member | source | states |
|---|---|---|
| Geometry.Ratio | inaFaceGender/face_tracking.py:42-45 | the overlap ratio as written: the intersection area over the intersection plus both areas; 0 when that sum is 0 |
| Geometry.InFrame | inaFaceGender/face_tracking.py:59-63 | at least one pixel in frame: `right > 0`, `left < width`, `top < height`, `bottom > 0` |
| Geometry.Area | inaFaceGender/face_tracking.py:40 | a box has positive area iff it is proper (non-negative area otherwise 0) |
| Geometry.InterAreaBounded | inaFaceGender/face_tracking.py:37-40 | the intersection area is at most the area of either box |
| Geometry.InterAreaSymmetric | inaFaceGender/face_tracking.py:40 | `bb.intersect(pos)` and `pos.intersect(bb)` have the same area |
| Geometry.RatioAtMostThird | inaFaceGender/face_tracking.py:45 | the ratio `inter / (inter + areaA + areaB)` lies in [0, 1/3] for all boxes |
| Geometry.RatioNeverAboveHalf | inaFaceGender/face_tracking.py:89 | the `iou(bb) > 0.5` test is false for every tracker position and box |
| Geometry.RatioSymmetric | inaFaceGender/face_tracking.py:42-45 | the ratio does not depend on which box is the tracker's |
| Geometry.RatioDisjoint | inaFaceGender/face_tracking.py:42-45 | boxes separated along one axis have ratio 0 |
| Geometry.RatioSelf | inaFaceGender/face_tracking.py:42-45 | a proper box has ratio exactly 1/3 with itself (where IoU would give 1) |
| Geometry.InFrameIffOverlap | inaFaceGender/face_tracking.py:59-63 | for a proper box and a non-empty frame, the four-comparison test holds iff the box shares positive area with the frame |
| FaceTracker.UpdateStep | inaFaceGender/face_tracking.py:47-51 | `update(frame)`: on a new frame token, one primitive update whose quality is memoised with the frame; on the same token, the memo, absent if never set |
| FaceTracker.ProbeStep | inaFaceGender/face_tracking.py:53-57 | `tracking_quality(frame, bb)`: the quality of a guided update towards `bb`, then a restart on `bb` |
| FaceTracker.Stale | inaFaceGender/face_tracking.py:47-51 | the memo is read on the same frame before any update set it |
| FaceTracker.UpdateSameFrame | inaFaceGender/face_tracking.py:47-51 | on the last frame's token, update leaves the state unchanged and returns the memo, without calling the primitive |
| FaceTracker.UpdateNewFrame | inaFaceGender/face_tracking.py:47-51 | on a new frame, update feeds the primitive once, without a guess, records the frame, and returns and memoises the quality |
| FaceTracker.UpdateIdempotent | inaFaceGender/face_tracking.py:47-51 | repeating update on the same frame returns the same value and changes nothing |
| FaceTracker.UpdateFailsIffStale | inaFaceGender/face_tracking.py:31-51 | update has no value iff the frame is the last one and the memo was never set, and then nothing changes |
| FaceTracker.ProbeRebinds | inaFaceGender/face_tracking.py:53-57 | after `tracking_quality(frame, bb)` the primitive is restarted on `bb` in `frame` with empty history, and the memo fields are untouched |
| FaceTracker.Tracker.constructor | inaFaceGender/face_tracking.py:31-35 | a new tracker is started on `bb` in `frame`, has no memo and carries `tid` |
| FaceTracker.Tracker.IntersectArea | inaFaceGender/face_tracking.py:37-40 | the area the position shares with `bb`, bounded by both areas |
| FaceTracker.Tracker.Iou | inaFaceGender/face_tracking.py:42-45 | the ratio of the tracked position and `bb` as `Geometry.Ratio` defines it |
| FaceTracker.Tracker.IsInFrame | inaFaceGender/face_tracking.py:59-63 | true iff `right > 0`, `left < width`, `top < height` and `bottom > 0`; equivalently, for a proper box in a non-empty frame, positive overlap with the frame |
| FaceTracker.Tracker.Update | inaFaceGender/face_tracking.py:47-51 | the fields and the result are those `UpdateStep` gives from the old fields |
| FaceTracker.Tracker.TrackingQuality | inaFaceGender/face_tracking.py:53-57 | the fields and the quality are those `ProbeStep` gives; the tracker then sits at `bb` |
| TrackerTable.Survives | inaFaceGender/face_tracking.py:76 | the update gives a quality not below 7 and the updated position is in frame |
| TrackerTable.PruneStep | inaFaceGender/face_tracking.py:76-77 | one key of the loop: update, then delete the key when its quality is below 7 or it left the frame, or stop on a raising update; no other entry changes |
| TrackerTable.PruneFold | inaFaceGender/face_tracking.py:75-77 | the loop over the snapshot `list(self.d)`, a tracker outside the snapshot keeps its state |
| TrackerTable.Propagate | inaFaceGender/face_tracking.py:73-77 | `TrackerList.update` on the table: the new table and whether the loop completed |
| TrackerTable.FirstArgmax | inaFaceGender/face_tracking.py:90 | `np.argmax`: an index of the input |
| TrackerTable.ScoreOf | inaFaceGender/face_tracking.py:89 | one candidate's score: its probe quality when the ratio exceeds 0.5, else 0 |
| TrackerTable.Rebound | inaFaceGender/face_tracking.py:89 | one candidate's state after scoring: restarted on the box when probed |
| TrackerTable.ScoreFold | inaFaceGender/face_tracking.py:89 | the comprehension `rmscore`: one score per candidate, in pool order, with each probe applied before the next candidate |
| TrackerTable.IngestStep | inaFaceGender/face_tracking.py:89-99 | one box: score the pool, claim the id `Claim` picks and drop it from the pool, or else allocate the counter's id |
| TrackerTable.IngestFold | inaFaceGender/face_tracking.py:88-99 | the loop over the boxes, one id added per box |
| TrackerTable.SpawnAll | inaFaceGender/face_tracking.py:95-98 | `to_add`: each added key bound to a tracker started on its box |
| TrackerTable.Ingest | inaFaceGender/face_tracking.py:79-100 | `ingest_detection`: `self.d = to_add`, with the counter the pass left |
| TrackerTable.PruneFoldChar | inaFaceGender/face_tracking.py:75-77 | the loop over the key snapshot completes iff no tracker is stale; then a key is kept iff its tracker survives (quality at least 7 and still in frame), and each kept tracker holds its updated state |
| TrackerTable.PruneFoldOrder | inaFaceGender/face_tracking.py:75-77 | deleting keeps the relative insertion order of the keys left |
| TrackerTable.PruneFoldStuck | inaFaceGender/face_tracking.py:75-77 | once an update raised, the rest of the loop does nothing |
| TrackerTable.PropagateChar | inaFaceGender/face_tracking.py:73-77 | `update` keeps exactly the survivors, adds no id, keeps the counter and the key order, keeps the table well formed, and fails exactly when some tracker is stale |
| TrackerTable.FirstArgmaxIsFirstMax | inaFaceGender/face_tracking.py:90 | `np.argmax` picks an index of maximal value with every earlier value strictly smaller |
| TrackerTable.Claim | inaFaceGender/face_tracking.py:90-91 | a claimed position is a valid index of the scores |
| TrackerTable.ClaimRule | inaFaceGender/face_tracking.py:90-93 | no candidate is claimed iff every score is at most 7; otherwise the claimed one scores above 7 and is the first candidate of maximal score |
| TrackerTable.ScoreFoldStates | inaFaceGender/face_tracking.py:89 | computing `rmscore` rebinds exactly the candidates whose ratio exceeds 0.5, through `tracking_quality`, and leaves every other tracker as it was |
| TrackerTable.ScoreFoldScores | inaFaceGender/face_tracking.py:89 | the j-th score is the j-th candidate's probe quality when its ratio exceeds 0.5, else 0 |
| TrackerTable.ScoreFoldAllZero | inaFaceGender/face_tracking.py:89 | as no ratio exceeds 0.5, every score is 0 and no tracker is probed |
| TrackerTable.IngestStepInv | inaFaceGender/face_tracking.py:88-99 | one box keeps the matching invariant: the pool is a duplicate-free list of the unclaimed old ids; each added key is a claimed old id or an id allocated in this pass; the counter grows by one per allocation |
| TrackerTable.IngestChar | inaFaceGender/face_tracking.py:79-100 | afterwards there are exactly as many live trackers as boxes, under distinct keys, the j-th key in insertion order bound to a tracker started on the j-th box in this frame, and the table is well formed |
| TrackerTable.IngestOk | inaFaceGender/face_tracking.py:84-100 | the new dictionary is well formed (distinct keys, all below the counter) with one key per box |
| TrackerTable.IngestIds | inaFaceGender/face_tracking.py:84-100 | every live key is a claimed old id or an id allocated in the pass, the counter never decreases, every id between the old and new counter is live, and the counter grew by the number of boxes that claimed no old id |
| TrackerTable.IngestFoldSpawns | inaFaceGender/face_tracking.py:88-99 | with the ratio as written, no box claims an old id: the pool and the old trackers stay as they were, and the j-th box gets id `i + j` |
| TrackerTable.IngestRenumbers | inaFaceGender/face_tracking.py:79-100 | so ingestion renumbers: the counter grows by the number of boxes, the j-th key is the old counter plus j, and no old id survives |
| TrackerTable.TableSize | inaFaceGender/face_tracking.py:70 | a well-formed dictionary has as many entries as listed keys |
| TrackerTable.TrackerList.constructor | inaFaceGender/face_tracking.py:69-71 | an empty dictionary with counter 0 |
| TrackerTable.TrackerList.Update | inaFaceGender/face_tracking.py:73-77 | the new dictionary and the completion flag are `Propagate` of the old one; the trackers kept are the same objects; the list stays valid |
| TrackerTable.TrackerList.UpdateKey | inaFaceGender/face_tracking.py:76-77 | one key's update and possible deletion take the list to the next step of the loop |
| TrackerTable.TrackerList.Scores | inaFaceGender/face_tracking.py:89 | the comprehension's scores and the trackers' states after it are those of `ScoreFold` |
| TrackerTable.TrackerList.ChooseId | inaFaceGender/face_tracking.py:89-99 | the key chosen, the pool left and the counter are those of one matching step, with the old trackers mirroring its states |
| TrackerTable.TrackerList.AddTracker | inaFaceGender/face_tracking.py:95-98 | `to_add` gains one newly allocated tracker under a key it did not hold, started on the box; its other entries are unchanged, and it holds no tracker of the old dictionary |
| TrackerTable.TrackerList.MatchOne | inaFaceGender/face_tracking.py:88-99 | one iteration of the loop over the boxes keeps `to_remove`, `to_add` and the counter in step with the pass; every entry of `to_add` is an old entry or a newly allocated tracker |
| TrackerTable.TrackerList.MatchBoxes | inaFaceGender/face_tracking.py:84-99 | after the loop over the boxes, `to_add` holds exactly the trackers `SpawnAll` describes, under the ids the pass handed out, with the counter where the pass left it; all its trackers are newly allocated |
| TrackerTable.TrackerList.IngestDetection | inaFaceGender/face_tracking.py:79-100 | the new dictionary is `Ingest` of the old one, and every tracker in it is newly allocated |
| Scheduling.ToBox | inaFaceGender/face_tracking.py:118 | `dlib.rectangle(*[int(x) for x in e[0]])`: each corner truncated toward zero |
| Scheduling.RowsOf | inaFaceGender/face_tracking.py:123-126 | one `(position, id)` row per listed key, in that order |
| Scheduling.Rows | inaFaceGender/face_tracking.py:122-126 | `lret`, in dictionary order |
| Scheduling.Schedule | inaFaceGender/face_tracking.py:117-129 | after the update: raise on a zero period; detect and ingest iff `iframe % detection_period != 0`; report; count the frame |
| Scheduling.DetectStep | inaFaceGender/face_tracking.py:113-129 | `__call__`: update first and raise if an update raised, then `Schedule` |
| Scheduling.Trunc | inaFaceGender/face_tracking.py:118 | `int(x)` truncates toward zero: the result is the integer between 0 and `x` closest to `x` |
| Scheduling.ToBoxes | inaFaceGender/face_tracking.py:118 | one box per detection |
| Scheduling.RowsOfAt | inaFaceGender/face_tracking.py:123-126 | the j-th row is the j-th key with its tracker's position |
| Scheduling.RowsChar | inaFaceGender/face_tracking.py:122-126 | the rows report every live id exactly once, each with its tracker's position |
| Scheduling.DetectStepFaults | inaFaceGender/face_tracking.py:113-128 | a call raises the stale-value error iff some tracker is stale, and the zero-period error iff none is and the period is 0; a raising call does not count the frame, a returning one counts it once; the table stays well formed |
| Scheduling.DetectStepReports | inaFaceGender/face_tracking.py:122-126 | a returning call reports exactly the live trackers after the call, each with its position |
| Scheduling.DetectStepSkips | inaFaceGender/face_tracking.py:113-117 | when `iframe % period == 0` the detector is not used: the kept trackers are exactly the survivors of the update and no id is allocated |
| Scheduling.IngestRows | inaFaceGender/face_tracking.py:119-126 | after ingestion the rows are the boxes in order under consecutive ids from the old counter |
| Scheduling.ScheduleDetects | inaFaceGender/face_tracking.py:117-126 | when `iframe % period != 0`, after the update, the report lists the detector's boxes under ids from the counter on, and every live key is new |
| Scheduling.DetectStepDetects | inaFaceGender/face_tracking.py:113-128 | when `iframe % period != 0`, a returning call reports one row per detected box, `(box_j, i + j)`; the counter grows by the number of boxes; no old id survives |
| Scheduling.TrackerDetector.constructor | inaFaceGender/face_tracking.py:105-111 | stores the detector and the period, with an empty tracker list and `iframe == 0` |
| Scheduling.TrackerDetector.Positions | inaFaceGender/face_tracking.py:122-126 | `lret` is `Rows` of the list |
| Scheduling.TrackerDetector.Proceed | inaFaceGender/face_tracking.py:117-129 | after the update, the list, `iframe` and the result are those `Schedule` gives; every tracker held afterwards was held before or is newly allocated |
| Scheduling.TrackerDetector.Refresh | inaFaceGender/face_tracking.py:117-119 | when `iframe % period != 0` the list becomes `Ingest` of the old list with the detector's boxes, otherwise it is unchanged; every tracker held afterwards was held before or is newly allocated |
| Scheduling.TrackerDetector.Call | inaFaceGender/face_tracking.py:113-129 | the list, `iframe` and the result are those `DetectStep` gives from the old state; every tracker held afterwards was held before or is newly allocated |
| Scheduling.DetectStepKeeps | inaFaceGender/face_tracking.py:113-129 | a call keeps the table well formed and counts the frame iff it returns |
| Scheduling.Run | inaFaceGender/inaFaceGender.py:263-265 | the detector called on each frame in turn from a well-formed table, stopping at the first raise; the table stays well formed |
| Scheduling.RunFirst | inaFaceGender/inaFaceGender.py:263-265 | a run is the call on the first frame followed, unless it raised, by the run on the remaining frames from the state that call left |
| Scheduling.RunShape | inaFaceGender/inaFaceGender.py:263-265 | a run gives at most one result per frame; all results but the last are reports; it covers every frame unless its last result is a raise; the frame count grows by the number of reports |
| Scheduling.Advance | inaFaceGender/inaFaceGender.py:263-265 | one turn of the loop: the call's result is the first result of the run; unless it raised, the rest of the run continues from the state it left; every tracker held afterwards was held before or is newly allocated |
| Scheduling.Drive | inaFaceGender/inaFaceGender.py:263-265 | calling the same detector on each frame until one raises yields the results, list and `iframe` of `Run`; the trackers each call allocates stay within what the loop may modify |
| Batching.Concat | inaFaceGender/inaFaceGender.py:192-199 | the images the classifier received, batch after batch |
| Batching.InfoRows | inaFaceGender/inaFaceGender.py:189 | one info row per detection of a frame, in order |
| Batching.ImagesOf | inaFaceGender/inaFaceGender.py:190 | one face image per detection of a frame, in order |
| Batching.Infos | inaFaceGender/inaFaceGender.py:180-190 | `linfo` after the frames |
| Batching.Images | inaFaceGender/inaFaceGender.py:180-190 | every image appended to `lbatch_img`, frame after frame |
| Batching.Collect | inaFaceGender/inaFaceGender.py:182-190 | each detection of a frame appends its row to `linfo` and its image to `lbatch_img`, in order |
| Batching.Drain | inaFaceGender/inaFaceGender.py:192-195 | every batch sent holds exactly `batch_len` images; the batches then the buffer left make up the buffer before, in order; at most `batch_len` images are left; a non-empty buffer is never emptied (`>`, so a full batch waits) |
| Batching.OneFrame | inaFaceGender/inaFaceGender.py:182-195 | one frame appends its rows, and the batches sent plus the buffer are the old ones plus the frame's images |
| Batching.Flush | inaFaceGender/inaFaceGender.py:197-199 | the remainder is sent iff it is non-empty, and the batches then form a batching (full batches, a non-empty last one) |
| Batching.Analyse | inaFaceGender/inaFaceGender.py:174-202 | `linfo` is every detection's row in order; the batches concatenate to every appended image in order; as many images are classified as rows collected; the empty-result branch is taken iff no batch was sent iff no frame has a face |
| Batching.Lockstep | inaFaceGender/inaFaceGender.py:189-190 | the rows and the images are those of the same detections, so the j-th row belongs to the j-th image |
| Batching.ImagesEmpty | inaFaceGender/inaFaceGender.py:201-202 | no image is appended iff no frame has a detection |
| Batching.BatchCount | inaFaceGender/inaFaceGender.py:192-199 | the number of classifier calls is the number of images divided by `batch_len`, rounded up |

## Left out

- The dlib correlation tracker's internals (`start_track`, `update`, `get_position`): an oracle function of the tracker's whole history stands for them.
- dlib's rectangle conventions (inclusive corners, so that `area()` is `(w + 1) * (h + 1)`): the model uses a plain non-negative area on integer boxes.
- Floating-point tracker positions: positions are integer boxes. `iou` divides by dlib's unrounded float area of the position; the model uses the integer area of the same box.
- The face detector, `Dlib68FaceAlignment`, `preprocess_face`, the gender classifier and `average_results`: these are foreign calls and neural models. The detector is a function of the frame returning float corners; the classifier is a recorder of batches; a preprocessed detection is an opaque (row, image) pair.
- Video and file I/O (`video_iterator`, `imread_rgb`), frame subsampling (`analysisFPS2subsamp_coeff`) and verbose printing.
- pandas DataFrame assembly (`from_records`, `concat`, the empty DataFrame's columns): only whether the empty-result branch is taken is modelled.
- The detector's tuple fields other than the box, and the attributes `face_id`, `detect_conf` and `track_conf` that `GenderTracking.__call__` (inaFaceGender/inaFaceGender.py:271) reads from the `(box, id)` tuples `TrackerDetector` returns: rows are opaque values.
- Geometry.Ratio: when both boxes are empty the source raises `ZeroDivisionError` (face_tracking.py:45); the model gives 0. dlib tracker positions are never empty in practice, and 0 is what the ratio's use needs (it is only compared with 0.5).
- Tracking qualities are exact reals, so IEEE NaN is not modelled. A NaN quality would make `q < 7` false at face_tracking.py:76, so the tracker would survive, and `np.argmax` at face_tracking.py:90 would return the first NaN.
- Scheduling.TrackerDetector.Call: other `TrackerDetector` objects sharing the same tracker list are not modelled; each detector owns its list.

# Attendance tracking: verified model of the decision core

This project is a Dafny model of the decision logic of an attendance-tracking system. The system has two services:

- The **facial service** decides whether a selfie or a short video shows a live person. It does this by:
  - fusing three anti-spoofing classifiers;
  - checking a video for replayed (duplicate) frames, head directions and face size;
  - voting over per-frame verdicts.

  It also does the box geometry around face detection and checks the JWT on each request.
- The **backend** keeps one active face feature per user and records check-ins and check-outs. A user may check in once and check out once per day, and a check-out needs a check-in on the same day.

Neural networks, SSIM, image and video decoding, HTTP and the database are outside the model. Their outputs are inputs to the model, and a database table is a sequence that the services reassign. Python floats are modelled as `real`. Python's `int()` is `Numeric.Trunc`, which truncates toward zero, and `round(x, 2)` is `Numeric.Round2`, which rounds half to even. `str.split()`, `str.split(sep)`, `str.find`, `str.startswith` and `str.lower` are modelled over `seq<char>` in module `Text`.

Module layout, one module per source component:

| module | source component |
|---|---|
| `AntiSpoof` | `AntiSpoofClassifier` (single-image fusion) |
| `FaceRecognition` | `FaceRecognition.detect_biggest_face` / `detect_faces` |
| `BoxGenerator` | `RandomBoundingBoxGenerator` (regeneration rule only) |
| `VideoLiveness` | `DetectSpoofVideo`: a class whose fields are the detector's result fields |
| `FaceLandmark` | `Face_Landmark.crop_image_with_padding` and the box post-processing in `predict` |
| `AntiSpoofPredict` | `Detection.get_bbox`, `CropImage._get_new_box`, `AntiSpoofPredict._load_model` key renaming |
| `AuthJwt` | `JWTError`, `request_handle` |
| `CustomVerifier` | the four claim verifiers |
| `JwtVerifier` | `JWTVerifier.verify` and `__getheader` |
| `FeatureService` | `FeatureService`: a class over an in-memory feature table |
| `RecordService` | `RecordService`: a class over an in-memory attendance table |
| `Upload` | `allowed_file` |
| `Wrappers`, `Numeric`, `Text` | `Option`/`Result`, Python numerics, Python string methods |

## Model

| member | source | states |
|---|---|---|
| AntiSpoof.ForwardSilent | facial-service/app/controller/facial_service/algorithm.py:159-168 | Live lies between the two class-1 scores. Live and spoof together carry half of the two triples' total mass. Two probability triples give a probability pair. |
| AntiSpoof.ForwardFinetune | facial-service/app/controller/facial_service/algorithm.py:170-174 | Each class score lies between the two runs' scores. Two probability pairs give a probability pair. |
| AntiSpoof.DeepfakeBranch | facial-service/app/controller/facial_service/algorithm.py:198-202 | With the deepfake flag off, the branch is `[1, 0]`. With the flag on, it is the model's output. |
| AntiSpoof.Forward | facial-service/app/controller/facial_service/algorithm.py:177-207 | No branch outputs exist exactly when no face was detected. |
| AntiSpoof.Gate | facial-service/app/controller/facial_service/algorithm.py:229 | Passing the gate means every branch clears its own threshold, so the three live scores together exceed the sum of the thresholds. |
| AntiSpoof.LiveScore | facial-service/app/controller/facial_service/algorithm.py:228 | The fused live score is a multiple of 0.01 within half a hundredth of the mean of the three branch live scores, and lies in [0, 1] when they do. |
| AntiSpoof.Fuse | facial-service/app/controller/facial_service/algorithm.py:228-238 | The verdict is LIVE iff all three branch thresholds pass (the AND-gate), and SPOOF otherwise. The score is at least 0.7 and is exactly `max(live_score, 0.7)` for LIVE and `max(1 - live_score, 0.7)` for SPOOF: it is one of the two and at least both. The error code is empty. |
| AntiSpoof.Predict | facial-service/app/controller/facial_service/algorithm.py:209-240 | The error code is NO_FACE iff no face was detected, and then the label is empty and the score is 0. Otherwise the result is the fusion of the branch outputs: empty error code, score at least 0.7, LIVE iff the gate passes. |
| AntiSpoof.OneBranchVetoes | facial-service/app/controller/facial_service/algorithm.py:228-238 | Any single branch at or below its threshold forces SPOOF. |
| AntiSpoof.LoweringOneBranchFlipsVerdict | facial-service/app/controller/facial_service/algorithm.py:228-238 | Lowering only the silent branch of a LIVE input below its threshold turns the verdict into SPOOF. A LIVE input passed the other two thresholds. |
| AntiSpoof.DisabledDeepfakeNeverVetoes | facial-service/app/controller/facial_service/algorithm.py:198-199 | With the flag off, LIVE iff the fine-tune and silent branches both pass. |
| AntiSpoof.ScoreIsAConfidence | facial-service/app/controller/facial_service/algorithm.py:228-237 | When every branch outputs probabilities, the reported score lies in [0.7, 1]. |
| AntiSpoof.FloorOnLiveSide | facial-service/app/controller/facial_service/algorithm.py:229-233 | An undecided 0.5 live score is reported as the 0.7 floor. |
| FaceRecognition.BiggestFaceIsUnique | facial-service/app/controller/facial_service/algorithm.py:59-66 | At most one index satisfies "first box of strictly largest truncated area, else 0". |
| FaceRecognition.BiggestFaceIndex | facial-service/app/controller/facial_service/algorithm.py:59-66 | The loop returns the first box whose `int(x2-x1)*int(y2-y1)` exceeds every earlier area and is not exceeded by any later one. If no area is positive, it returns 0. |
| FaceRecognition.DetectBiggestFace | facial-service/app/controller/facial_service/algorithm.py:53-70 | A failed detection raises "face not found". An empty box list raises IndexError. Otherwise the result is the keypoints of the biggest face. |
| FaceRecognition.Boxes | facial-service/app/controller/facial_service/algorithm.py:59-61 | Projects the detected faces onto their boxes, element by element. |
| FaceRecognition.LargeFacesExact | facial-service/app/controller/facial_service/algorithm.py:78-85 | A face is kept iff it was detected and both of its sides exceed the minimum face size. |
| FaceRecognition.DetectFaces | facial-service/app/controller/facial_service/algorithm.py:72-88 | The result is an error iff detection failed. Otherwise it is the size-filtered faces in order, never more than were detected. |
| BoxGenerator.RandomBoundingBoxGenerator.constructor | facial-service/app/controller/facial_service/algorithm.py:91-94 | Starts with no boxes and no generation time. |
| BoxGenerator.RandomBoundingBoxGenerator.GetBoundingBoxes | facial-service/app/controller/facial_service/algorithm.py:130-143 | Regenerates exactly when the boxes are unset or expired, and otherwise keeps both fields. `expires_in` is the truncated time left: non-negative when nothing was regenerated, and at least `int(interval)` right after a regeneration. |
| VideoLiveness.SubsampleLength | facial-service/app/controller/facial_service/algorithm.py:404-413 | Keeping every `skip`-th frame yields ceil(n / skip) frames. |
| VideoLiveness.SubsampleAt | facial-service/app/controller/facial_service/algorithm.py:404-413 | The k-th kept frame is the captured frame at index k·skip. |
| VideoLiveness.Subsample | facial-service/app/controller/facial_service/algorithm.py:404-413 | Never keeps more frames than were captured, and the first captured frame is always kept. |
| VideoLiveness.DetectSpoofVideo.DecodeVideo | facial-service/app/controller/facial_service/algorithm.py:404-413 | The counting loop returns exactly the frames whose 0-based index is a multiple of `frame_skip`, in order. |
| VideoLiveness.Sampled | facial-service/app/controller/facial_service/algorithm.py:448-449 | The sampled frames are as many as the chosen indices. |
| VideoLiveness.PickedPairs | facial-service/app/controller/facial_service/algorithm.py:286-288 | One frame pair is formed per random draw. |
| VideoLiveness.ClassifyPair | facial-service/app/controller/facial_service/algorithm.py:288-301 | INVALID_SIZE iff the two frames differ in height or width. DUPLICATE only above the duplicate threshold and always there; DIFFERENT only below the different threshold; TRUE only between the two. |
| VideoLiveness.Verdicts | facial-service/app/controller/facial_service/algorithm.py:286-304 | Never more verdicts than drawn pairs; the first pair is always compared and its verdict comes first. |
| VideoLiveness.SimilarityValid | facial-service/app/controller/facial_service/algorithm.py:305-310 | A valid list has exactly NUMBER_CHECK_DUPLICATE verdicts, none INVALID_SIZE, and holds a TRUE verdict when non-empty. |
| VideoLiveness.VerdictsFrom | facial-service/app/controller/facial_service/algorithm.py:286-304 | Unfolds the pair loop one step: a verdict is recorded, and the loop goes on only if that verdict is not INVALID_SIZE. |
| VideoLiveness.VerdictsSplit | facial-service/app/controller/facial_service/algorithm.py:286-304 | Until an INVALID_SIZE is recorded, the verdict list of a run is the concatenation of the lists of its parts. |
| VideoLiveness.VerdictsShape | facial-service/app/controller/facial_service/algorithm.py:286-304 | There is at most one verdict per pair, in order, each being the pair's classification. Only the last verdict can be INVALID_SIZE, and a list cut short ends with one. |
| VideoLiveness.SizeMismatchInvalidates | facial-service/app/controller/facial_service/algorithm.py:288-310 | Any pair of mismatched size records INVALID_SIZE and makes the check invalid. |
| VideoLiveness.StaticReplayInvalid | facial-service/app/controller/facial_service/algorithm.py:291-310 | If every pair scores above the duplicate threshold, the check is invalid (no TRUE verdicts). |
| VideoLiveness.AllDuplicate | facial-service/app/controller/facial_service/algorithm.py:288-296 | Same-size pairs above the duplicate threshold are all DUPLICATE. |
| VideoLiveness.ValidMeansAllCompared | facial-service/app/controller/facial_service/algorithm.py:306-310 | A valid result means every drawn pair was compared and all had matching sizes. |
| VideoLiveness.DetectSpoofVideo.CompareDrawnPairs | facial-service/app/controller/facial_service/algorithm.py:286-304 | The early-exit loop stores exactly the verdict list of the drawn pairs. |
| VideoLiveness.DetectSpoofVideo.CheckSimilarityImages | facial-service/app/controller/facial_service/algorithm.py:278-311 | Stores the verdicts of the randomly drawn pairs. The result is valid iff there is no INVALID_SIZE, exactly NUMBER_CHECK_DUPLICATE verdicts were recorded, and the TRUE count is at least half of them. |
| VideoLiveness.DirectionOf | facial-service/app/controller/facial_service/algorithm.py:334-341 | FRONTAL iff the truncated right angle is in 35..56 and the truncated left angle is in 35..57. Otherwise LEFT iff right < left, else RIGHT. |
| VideoLiveness.Reached | facial-service/app/controller/facial_service/algorithm.py:329-333 | The loop reaches the first frame without a face (where the source's thread dies), or the end. |
| VideoLiveness.Directions | facial-service/app/controller/facial_service/algorithm.py:330-342 | One direction per examined frame. |
| VideoLiveness.LastFrontal | facial-service/app/controller/facial_service/algorithm.py:334-342 | The stored frame is one of the examined frames, and it is the last one when that frame is FRONTAL. |
| VideoLiveness.LastFrontalIsLast | facial-service/app/controller/facial_service/algorithm.py:334-342 | The stored frontal frame is absent iff no frame was FRONTAL. Otherwise it is the frame of the last FRONTAL verdict. |
| VideoLiveness.Enough | facial-service/app/controller/facial_service/algorithm.py:346-351 | Enough iff FRONTAL, LEFT and RIGHT each occur, which takes at least three examined frames. |
| VideoLiveness.StillHeadNotEnough | facial-service/app/controller/facial_service/algorithm.py:346-351 | A head that stays frontal never gives "enough directions". |
| VideoLiveness.DetectSpoofVideo.CheckFaceDirection | facial-service/app/controller/facial_service/algorithm.py:320-352 | Stores the directions and the last frontal frame of the frames examined. "Enough" means all three labels occur and the loop completed. |
| VideoLiveness.AreaRatiosAppend | facial-service/app/controller/facial_service/algorithm.py:361-371 | The area ratios of concatenated frame lists are the concatenated ratios. |
| VideoLiveness.AreaRatios | facial-service/app/controller/facial_service/algorithm.py:361-371 | At most one ratio per frame: one per frame when every frame has a face, none when no frame does. |
| VideoLiveness.FacelessFrameSkipped | facial-service/app/controller/facial_service/algorithm.py:363-366 | A frame without a face contributes no ratio. |
| VideoLiveness.AreaRatiosCount | facial-service/app/controller/facial_service/algorithm.py:361-371 | There is exactly one ratio per frame with a detected face. |
| VideoLiveness.AreaRatiosAtLeast | facial-service/app/controller/facial_service/algorithm.py:361-371 | If every detected face is at least t of its frame, every recorded ratio is at least t. |
| VideoLiveness.CloseFacesNotTooFar | facial-service/app/controller/facial_service/algorithm.py:361-374 | If every detected face is at least t of its frame, the mean ratio does not trigger FACE_TOO_FAR for threshold t. |
| VideoLiveness.NoFaceAnywhereIsNotTooFar | facial-service/app/controller/facial_service/algorithm.py:374 | With no face in any frame, the mean is NaN, and the comparison `NaN < threshold` does not report FACE_TOO_FAR. |
| VideoLiveness.DetectSpoofVideo.CheckFaceArea | facial-service/app/controller/facial_service/algorithm.py:354-374 | Stores the mean of the face-to-frame area ratios over the frames with a face, with the frame area taken from the first frame. |
| VideoLiveness.Labels | facial-service/app/controller/facial_service/algorithm.py:376-382 | One label per checked frame. |
| VideoLiveness.Scores | facial-service/app/controller/facial_service/algorithm.py:376-382 | One score per checked frame. |
| VideoLiveness.DetectSpoofVideo.DetectSpoofing | facial-service/app/controller/facial_service/algorithm.py:376-382 | Appends each checked frame's classifier label and score to the two result lists. |
| VideoLiveness.DetectSpoofVideo.RunChecks | facial-service/app/controller/facial_service/algorithm.py:454-469 | After the four checks, each result field holds its check's result. Without pose check, the direction fields keep their earlier values. |
| VideoLiveness.AreaThreshold | facial-service/app/controller/facial_service/algorithm.py:482-485 | Any non-zero pose flag, not only 1, selects the pose threshold; 0 selects the no-pose threshold. |
| VideoLiveness.LiveFraction | facial-service/app/controller/facial_service/algorithm.py:505-506 | The live fraction lies in [0, 1]; it is 0 iff no frame is LIVE and 1 iff every frame is. |
| VideoLiveness.FuseVideo | facial-service/app/controller/facial_service/algorithm.py:482-515 | The first matching rule wins: invalid duplicates give SPOOF with score 1.0; a ratio below the threshold gives FACE_TOO_FAR; pose check 1 without enough directions gives NOT_ENOUGH_FACE_DIRECTION; otherwise LIVE iff the live fraction exceeds VOTE_THRESHOLD. The verdict is SPOOF iff the duplicate check failed or the vote was reached and lost. An error code comes with no label and score 0; a vote's score is the mean of all frame scores. |
| VideoLiveness.ReplayVetoBeatsFrameVotes | facial-service/app/controller/facial_service/algorithm.py:489-493 | A static replay is SPOOF with score 1.0 even when every frame was voted LIVE. |
| VideoLiveness.DetectSpoofVideo.constructor | facial-service/app/controller/facial_service/algorithm.py:243-259 | All result fields start empty, false or none. |
| VideoLiveness.DetectSpoofVideo.Predict | facial-service/app/controller/facial_service/algorithm.py:423-525 | Fewer than two decoded frames give DECODE_VIDEO_FALSE, with the other fields untouched. Otherwise it classifies the `min(NUM_FRAME_CHECK, n)` sampled frames, runs the four checks and returns the fused result. The upload image is the last frontal frame, else the first frame. Frontal-frame state persists when pose check is off. |
| FaceLandmark.PaddedContains | facial-service/app/gvision/face_detection/yolov8.py:40-47 | Padding by `int(side*padding)` on both sides contains the original box. |
| FaceLandmark.Squared | facial-service/app/gvision/face_detection/yolov8.py:50-60 | The shorter side is widened by the same margin on each side, which with the side bounds makes it `diff//2`. The result contains the box, keeps the longer side and is square up to one pixel. |
| FaceLandmark.Clamped | facial-service/app/gvision/face_detection/yolov8.py:63-66 | The clamped box lies inside the image, and a box already inside is unchanged. |
| FaceLandmark.Resquared | facial-service/app/gvision/face_detection/yolov8.py:69-82 | The shorter side is re-extended to the longer one. When the extension fits, the top (or left) edge stays put; otherwise the bottom (or right) edge sits on the image border. The other axis is unchanged. |
| FaceLandmark.CropBox | facial-service/app/gvision/face_detection/yolov8.py:35-88 | The final crop box lies within the image: 0 ≤ xmin, 0 ≤ ymin, xmax ≤ width, ymax ≤ height. |
| FaceLandmark.CropImageWithPadding | facial-service/app/gvision/face_detection/yolov8.py:31-95 | The step-by-step reassignment computes the crop box, which lies inside the image. |
| FaceLandmark.PadToSquare | facial-service/app/gvision/face_detection/yolov8.py:40-60 | The padding and squaring steps compute the squared padded box. |
| FaceLandmark.FitInImage | facial-service/app/gvision/face_detection/yolov8.py:62-88 | Clamp, re-square, clamp again: the result lies inside the image. |
| FaceLandmark.SquareInsideUnchanged | facial-service/app/gvision/face_detection/yolov8.py:35-88 | A square box inside the image, with padding 0, is returned unchanged. |
| FaceLandmark.FittingCropIsSquare | facial-service/app/gvision/face_detection/yolov8.py:50-88 | When the squared box fits, the crop is that square and contains the original box. |
| FaceLandmark.AdjustBox | facial-service/app/gvision/face_detection/yolov8.py:123-126 | The top edge becomes `int(y1 - 0.13*height)`, floored at 0: for t = y1 - 0.13·height ≥ 0 it is the integer in (t-1, t], and 0 when t < 0. The bottom edge is floored at 0. The x edges are truncated. |
| FaceLandmark.RaisedTopNotLower | facial-service/app/gvision/face_detection/yolov8.py:124-125 | For a non-negative height, raising the top never moves it down. |
| FaceLandmark.Predict | facial-service/app/gvision/face_detection/yolov8.py:97-136 | Returns nothing when there is no prediction or no box (or on the keypoint IndexError). Otherwise it returns the adjusted first box and the first keypoint set. |
| AntiSpoofPredict.ArgMaxConfidence | facial-service/app/gvision/face_anti_spoof/anti_spoof_predict.py:43 | `argmax` gives the first row of maximal confidence. |
| AntiSpoofPredict.ArgMaxIsFirstMaximum | facial-service/app/gvision/face_anti_spoof/anti_spoof_predict.py:43 | The first maximal row is the only index `argmax` can return. |
| AntiSpoofPredict.PixelBox | facial-service/app/gvision/face_anti_spoof/anti_spoof_predict.py:44-46 | The box is `[left, top, right-left+1, bottom-top+1]` in pixels, so an ordered detection has sides of at least 1. |
| AntiSpoofPredict.GetBbox | facial-service/app/gvision/face_anti_spoof/anti_spoof_predict.py:29-51 | No detection, or a single one (which `squeeze()` flattens so that `out[:, 2]` cannot index it), is an error. With two or more, there is a box iff some confidence exceeds 0.3, and it is the pixel box of the first highest-confidence detection. |
| AntiSpoofPredict.BestBox | facial-service/app/gvision/face_anti_spoof/anti_spoof_predict.py:43-51 | On a non-empty detection list, there is a box iff some confidence exceeds 0.3, and it is the pixel box of the first highest-confidence detection. |
| AntiSpoofPredict.WeakerRowAfterIgnored | facial-service/app/gvision/face_anti_spoof/anti_spoof_predict.py:43-51 | Appending a weaker detection does not change the result. |
| AntiSpoofPredict.WeakerRowBeforeIgnored | facial-service/app/gvision/face_anti_spoof/anti_spoof_predict.py:43-51 | Prepending a weaker detection does not change the result. |
| AntiSpoofPredict.EffectiveScale | facial-service/app/gvision/face_anti_spoof/anti_spoof_predict.py:116 | The scale is `min(scale, (h-1)/box_h, (w-1)/box_w)`, so the scaled box fits within (w-1)×(h-1). |
| AntiSpoofPredict.Centred | facial-service/app/gvision/face_anti_spoof/anti_spoof_predict.py:118-125 | The scaled box has the scaled sides and the original box's centre. |
| AntiSpoofPredict.ShiftInside | facial-service/app/gvision/face_anti_spoof/anti_spoof_predict.py:127-141 | Overflow on either side shifts the box back without changing its size. An interval already inside is unchanged. |
| AntiSpoofPredict.GetNewBox | facial-service/app/gvision/face_anti_spoof/anti_spoof_predict.py:110-144 | Returns the truncated corners of the scaled, centred, shifted box. For a positive box, they lie in [0, w-1]×[0, h-1]. |
| AntiSpoofPredict.NewBoxKeepsCentre | facial-service/app/gvision/face_anti_spoof/anti_spoof_predict.py:118-141 | If no shift is needed, the new box keeps the original centre. |
| AntiSpoofPredict.NewBoxOrdered | facial-service/app/gvision/face_anti_spoof/anti_spoof_predict.py:116-141 | The new box's corners are ordered. |
| AntiSpoofPredict.AsMap | facial-service/app/gvision/face_anti_spoof/anti_spoof_predict.py:74-78 | The keys of the loaded dictionary are exactly the keys of the entries. |
| AntiSpoofPredict.LoadStateDict | facial-service/app/gvision/face_anti_spoof/anti_spoof_predict.py:69-80 | An empty state dict raises StopIteration. If the first key contains `module.`, every key loses its first 7 characters. Otherwise the dict is loaded unchanged. |
| AntiSpoofPredict.ModulePrefixFound | facial-service/app/gvision/face_anti_spoof/anti_spoof_predict.py:71-72 | A key saved by a data-parallel wrapper is recognised. |
| AntiSpoofPredict.RenamedUndoesPrefix | facial-service/app/gvision/face_anti_spoof/anti_spoof_predict.py:75-78 | Stripping undoes the `module.` prefix: the loaded dictionary equals the unwrapped one, values included. |
| AuthJwt.NewJWTError | facial-service/app/controller/facial_service/auth_jwt.py:6-11 | The status defaults to 401 and the headers to none. |
| AuthJwt.Repr | facial-service/app/controller/facial_service/auth_jwt.py:13-14 | `repr` is `JWTError: ` followed by the error text. |
| AuthJwt.ToString | facial-service/app/controller/facial_service/auth_jwt.py:16-17 | `str` is the error text, then `. `, then the description. |
| AuthJwt.ToDict | facial-service/app/controller/facial_service/auth_jwt.py:16-24 | The dict carries the status, `error + '. ' + description` (the `__str__` text) and empty data. |
| AuthJwt.HandleValue | facial-service/app/controller/facial_service/auth_jwt.py:38-47 | An empty split raises IndexError. An unknown scheme (case-insensitive) is rejected before the count checks. One part gives "Token missing" and more than two give "Token contains spaces". Success iff exactly two parts with a known scheme, returning them in their original case. |
| AuthJwt.RequestHandle | facial-service/app/controller/facial_service/auth_jwt.py:27-36 | A truthy header value is parsed. Otherwise a truthy body value is parsed. With neither, the result is `(None, None)`. |
| AuthJwt.HeaderTakesPrecedence | facial-service/app/controller/facial_service/auth_jwt.py:31-34 | With a non-empty header, the body value is irrelevant. |
| AuthJwt.SchemeAndTokenParse | facial-service/app/controller/facial_service/auth_jwt.py:32-47 | "scheme token" with a known scheme round-trips to `(scheme, token)`. |
| AuthJwt.HandleErrorsAre401 | facial-service/app/controller/facial_service/auth_jwt.py:19-45 | Every JWT error raised by the parser is a 401 whose message starts with "Invalid JWT header. ". |
| CustomVerifier.RequestGlobals.constructor | facial-service/app/utils/jwt/custom_verifier.py:49 | `g.sub` starts unset. |
| CustomVerifier.ClaimAudCustomVerify | facial-service/app/utils/jwt/custom_verifier.py:18-24 | The early-return loop accepts iff the audience is one of the pieces of `aud` split on the separator. A missing `aud` raises KeyError and an empty separator raises ValueError. |
| CustomVerifier.AcceptedAudienceIsWholePiece | facial-service/app/utils/jwt/custom_verifier.py:21-23 | An accepted audience is a whole piece: it never contains the separator. |
| CustomVerifier.SoleAudienceAccepted | facial-service/app/utils/jwt/custom_verifier.py:21-23 | An `aud` equal to the audience (separator-free) is accepted. |
| CustomVerifier.KidOutcome | facial-service/app/utils/jwt/custom_verifier.py:28-33 | True iff the header `kid` starts with the claims' `client_id`. A missing `client_id` raises KeyError. |
| CustomVerifier.AlgOutcome | facial-service/app/utils/jwt/custom_verifier.py:37-42 | True iff the key's `alg` equals the header's `alg`. An error iff either is missing. |
| CustomVerifier.ScopeOutcome | facial-service/app/utils/jwt/custom_verifier.py:46-54 | True iff some element of `scp` is among the allowed scopes, so an empty `scp` gives false. |
| CustomVerifier.ScopeCustomVerify | facial-service/app/utils/jwt/custom_verifier.py:46-54 | Records `sub` in `g` before looking at the scopes, then runs the scope search. |
| CustomVerifier.CustomVerify | facial-service/app/utils/jwt/custom_verifier.py:13-54 | Dispatches to the configured verifier. Only the scope verifier writes `g.sub`. |
| JwtVerifier.FirstSegment | facial-service/app/utils/jwt/jwt_verifier.py:27 | The header segment is the prefix before the first `.`: it contains no `.` and is followed by a `.` or the end. |
| JwtVerifier.FirstPieceIsPrefix | facial-service/app/utils/jwt/jwt_verifier.py:27 | The first piece of a dotted join is its prefix up to the first dot. |
| JwtVerifier.PadCount | facial-service/app/utils/jwt/jwt_verifier.py:28 | `(-len) mod 4` is in 0..3, makes the length a multiple of 4, and is 0 for a multiple of 4. |
| JwtVerifier.PaddedSegment | facial-service/app/utils/jwt/jwt_verifier.py:28 | The padded segment is the segment followed by 0..3 `=` characters, with length a multiple of 4. |
| JwtVerifier.PaddingIdempotent | facial-service/app/utils/jwt/jwt_verifier.py:28 | Padding an already padded segment changes nothing. |
| JwtVerifier.RunAcceptsIffAllAccept | facial-service/app/utils/jwt/jwt_verifier.py:18-21 | The verifier chain is true iff every verifier returns true, and an empty chain is true. |
| JwtVerifier.RunStopsAtFirstFailure | facial-service/app/utils/jwt/jwt_verifier.py:18-20 | A non-accepting run reports the outcome of the first verifier that did not return true. |
| JwtVerifier.JWTVerifier.constructor | facial-service/app/utils/jwt/jwt_verifier.py:8-10 | Keeps the key store and the verifier list. |
| JwtVerifier.JWTVerifier.Verify | facial-service/app/utils/jwt/jwt_verifier.py:12-30 | Header, key-lookup and deserialization failures propagate as errors and leave `g` alone. Otherwise the result is the in-order, stop-at-first-false run of the verifiers. |
| FeatureService.CheckFaceSpoofing | backend-flask/app/services/feature_service.py:12-28 | Passes iff the HTTP call succeeded, `success` is truthy and `error_code` is `''`. Otherwise it raises. |
| FeatureService.ExtractFaceFeatures | backend-flask/app/services/feature_service.py:30-46 | Raises when `success` is falsy. Otherwise it returns `data.normalized_feature` (a KeyError when absent). |
| FeatureService.ParseAll | backend-flask/app/services/feature_service.py:82 | The parse succeeds iff every comma-separated piece parses, and then yields one value per piece, in order. |
| FeatureService.ParseFeature | backend-flask/app/services/feature_service.py:82 | A parsed feature has one value per comma-separated piece, at least one. A string without a comma parses iff `float()` accepts it whole, giving a one-element vector. |
| FeatureService.Deactivated | backend-flask/app/services/feature_service.py:84-88 | All of the user's rows become inactive. Other users' rows and the row count are unchanged. |
| FeatureService.ActiveFeature | backend-flask/app/services/feature_service.py:65-70 | None iff the user has no active row. Otherwise it is an active row of that user. |
| FeatureService.RegisterKeepsOneActive | backend-flask/app/services/feature_service.py:84-98 | Deactivate-then-append keeps "at most one active feature per user". Afterwards the new row is the user's only active feature and is what lookup finds. |
| FeatureService.FeatureService.constructor | backend-flask/app/services/feature_service.py:8-10 | The similarity threshold defaults to 0.5. |
| FeatureService.FeatureService.RegisterFace | backend-flask/app/services/feature_service.py:72-104 | Runs the spoof check first. Any failure leaves the table unchanged (rollback). Success iff spoof check, extraction and parsing succeed, and then the table is the deactivated old table plus one new active row. |
| FeatureService.FeatureService.VerifyFace | backend-flask/app/services/feature_service.py:106-131 | A spoof failure propagates. No active feature gives "No registered face found". An extraction error propagates. Success iff spoof check, lookup, extraction and the similarity computation all succeed; it then returns the similarity to the stored vector and `similarity >= threshold`. |
| RecordService.DateOf | backend-flask/app/services/record_service.py:25-29 | The date is the day number containing the instant in the given time zone. |
| RecordService.Rejection | backend-flask/app/services/record_service.py:23-51 | IN is refused iff an IN record (of any status) exists today. OUT is refused as "already checked out" if an OUT exists, else as "must check in" iff no IN exists. Other types are never refused. |
| RecordService.Status | backend-flask/app/services/record_service.py:53-63 | SUCCESS iff similarity ≥ threshold and distance ≤ max distance, else FAILED. |
| RecordService.HasRecordOnGrows | backend-flask/app/services/record_service.py:26-30 | Appending a record never hides an existing one. |
| RecordService.AdmittedRecordKeepsConsistency | backend-flask/app/services/record_service.py:44-67 | An admitted record keeps the table consistent: at most one IN and one OUT per user per day, and every OUT has an IN on its day. |
| RecordService.RejectionAsWritten | backend-flask/app/services/record_service.py:23-30 | The as-written rule, which compares a stored UTC date with the local date, agrees with the corrected rule when the server runs on UTC. |
| RecordService.SecondCheckInSameDayAsWritten | backend-flask/app/services/record_service.py:25-58 | In UTC+7, two check-ins on the same local day are both accepted as written, and the table breaks the one-IN-per-day rule. |
| RecordService.SecondCheckInSameDayRefused | backend-flask/app/services/record_service.py:44-45 | The corrected rule refuses that second check-in with "Already checked in today". |
| RecordService.InsertByTime | backend-flask/app/services/record_service.py:21 | Inserting adds exactly one record to the multiset and nothing else. |
| RecordService.InsertKeepsSorted | backend-flask/app/services/record_service.py:21 | Insertion keeps the list ordered by check time. |
| RecordService.SortByTime | backend-flask/app/services/record_service.py:21 | The result is ordered by check time and is a permutation of the input. |
| RecordService.OnDate | backend-flask/app/services/record_service.py:18-20 | Keeps exactly the user's records dated on the given day, each as many times as it occurs in the table, and nothing else. |
| RecordService.RecordService.constructor | backend-flask/app/services/record_service.py:9-11 | The maximum distance defaults to 5000. |
| RecordService.RecordService.HasCheckedInToday | backend-flask/app/services/record_service.py:23-30 | True iff one of the user's IN records falls on the server's local date of now; any such record is less than a day away from now. |
| RecordService.RecordService.HasCheckedOutToday | backend-flask/app/services/record_service.py:32-39 | True iff one of the user's OUT records falls on the server's local date of now; any such record is less than a day away from now. |
| RecordService.RecordService.GetDailyRecords | backend-flask/app/services/record_service.py:13-21 | Returns exactly the user's records on the given date (default today), each as many times as it occurs in the table, sorted by check time. |
| RecordService.RecordService.CreateAttendanceRecord | backend-flask/app/services/record_service.py:41-69 | The three refusals come in source order, and a refusal adds nothing. An accepted request appends exactly one record with the given fields, the current time and the computed status. Consistency of the table is preserved. |
| RecordService.RecordService.ProcessAttendance | backend-flask/app/services/record_service.py:71-89 | A face-verification error propagates with the table unchanged. After a successful verification the request fails iff `create_attendance_record` refuses it, with that refusal. On success the appended record carries the user, the current time, the type, the verified similarity, the distance, the device and the computed status. `is_valid` plays no part. |
| RecordService.VerifiedFaceMayStillFail | backend-flask/app/services/record_service.py:53-63 | SUCCESS implies the face matched. A matching face that is too far away is still FAILED. |
| Upload.LastIndexOf | backend-flask/app/extensions.py:89 | `rsplit('.', 1)` cuts at the last `.`: none iff there is no `.`. |
| Upload.Extension | backend-flask/app/extensions.py:89 | The extension is the dot-free text after the last `.`. |
| Upload.ExtensionOfJoin | backend-flask/app/extensions.py:89 | The extension of `stem + "." + ext` is `ext`. |
| Upload.AllowedFile | backend-flask/app/extensions.py:85-89 | An accepted name contains a dot, and the text after its last dot has 3 or 4 characters, so the name has at least 4. |
| Upload.AllowedFileOfJoin | backend-flask/app/extensions.py:85-89 | `stem.ext` is allowed iff lower-cased `ext` is png, jpg or jpeg. |
| Upload.NoDotRefused | backend-flask/app/extensions.py:88 | A name without `.` is refused. |
| Upload.UpperCaseAfterLastDotAccepted | backend-flask/app/extensions.py:89 | `a.tar.PNG` is accepted. |
| Upload.TrailingDotRefused | backend-flask/app/extensions.py:89 | `file.` is refused. |
| Upload.BareExtensionRefused | backend-flask/app/extensions.py:88 | `png` is refused. |
| Numeric.Trunc | facial-service/app/controller/facial_service/algorithm.py:63 | Python `int()` on a float truncates toward zero. |
| Numeric.Round2 | facial-service/app/controller/facial_service/algorithm.py:228 | `round(x, 2)` is a multiple of 0.01 within half a hundredth of x, an exact tie going to the even multiple, and keeps [0, 1] in [0, 1]. |
| Text.Lower | facial-service/app/controller/facial_service/auth_jwt.py:40 | Lower-cases character by character. |
| Text.Find | facial-service/app/utils/jwt/jwt_verifier.py:27 | The first occurrence of a substring, or none when it never occurs. |
| Text.JoinSplitOn | backend-flask/app/services/feature_service.py:82 | Joining `s.split(sep)` with `sep` rebuilds `s`. |
| Text.SplitOnPiecesAvoidSep | facial-service/app/utils/jwt/custom_verifier.py:21 | No piece of `s.split(sep)` contains the separator. |
| Text.WordsWellFormed | facial-service/app/controller/facial_service/auth_jwt.py:32 | Every piece of `str.split()` is non-empty and contains no whitespace. |
| Text.WordsOfJoinSpace | facial-service/app/controller/facial_service/auth_jwt.py:32 | Splitting words joined by single blanks gives the words back. |

## Left out

- Neural-network inference is left out: MiniFASNet, the fine-tuned ResNet, the deepfake model, YOLO and the feature extractor. Their outputs are inputs of the model, and the per-frame classifier is a function parameter.
- SSIM, `calculate_angle`'s arccos, `cv2` resizing and colour conversion, and image/video decoding and encoding are left out. SSIM scores and angles are inputs. `decode_video` keeps only its frame-index selection, and the captured frames are given.
- `resize_image_to_640`, `calculate_angle` and the timing logs are not modelled.
- Python floats are modelled as exact reals. `round` and `int` are modelled as exact operations, and float representation error is not captured.
- The four threads of `DetectSpoofVideo.predict` run sequentially in `VideoLiveness.DetectSpoofVideo.RunChecks`. They write disjoint fields and are all joined before fusion. Interleavings are not modelled.
- `random.sample` and `random.randint` are not modelled as randomness. The sampled indices and the drawn frame pairs are arguments, constrained to what the source can draw.
- `time.time`, `datetime.now` and `datetime.utcnow` become a `now` argument. The server's time zone is the `utcOffset` field.
- `RandomBoundingBoxGenerator.generate_bounding_boxes` is random. The freshly generated boxes are an argument, and only the regenerate-when-unset-or-expired rule and `expires_in` are modelled.
- HTTP calls, Flask request objects, JSON and base64 decoding are left out. A service response is a value with its status, `success`, `error_code` and `normalized_feature`. The JWKS key store, `json.loads` of the header, and `deserialize` are function parameters.
- Database sessions are modelled as sequences that the services reassign. `commit` is the reassignment and `rollback` keeps the old sequence. Concurrent requests and transaction isolation are not modelled.
- `calculate_similarity` (float parsing, dot product, rounding) is a partial function parameter of the feature service: `None` stands for the exception it raises. `float()` is a partial parsing parameter.
- `JWTVerifier.shutdown`, `get_client_id`, the JWKS storage and its scheduler are not part of this model: they are network plumbing.
- The HTTP controllers, app factories, Redis blocklist, user management and bcrypt are not part of this model.
- `Text.Lower` lowers ASCII letters and KELVIN SIGN only. That is exact wherever the result is compared with the ASCII names png/jpg/jpeg and jwt/token/bearer, but not for arbitrary Unicode.
- VideoLiveness.DetectSpoofVideo.Predict requires `NUM_FRAME_CHECK >= 2`. With a smaller setting, the source's diagnostic print of `frame_upload[1]` raises IndexError. That crash is not modelled.
- AntiSpoofPredict.BestBox requires a non-empty detector output. AntiSpoofPredict.GetBbox, which calls it, turns the empty and single-detection outputs into errors first.
- VideoLiveness.Subsample, VideoLiveness.DetectSpoofVideo.DecodeVideo and VideoLiveness.DetectSpoofVideo.Predict require a non-zero `FRAME_SKIP`. With 0, `frame_count % frame_skip` (algorithm.py:410) raises ZeroDivisionError; that crash is not modelled.
- AntiSpoofPredict.GetNewBox requires non-zero box sides, where the source divides by them (ZeroDivisionError).
- FaceLandmark.CropImageWithPadding models the box arithmetic only. The image slice, and `cv2.resize` raising on an empty crop, are left out.
- VideoLiveness.DetectSpoofVideo.CompareDrawnPairs returns at the first INVALID_SIZE instead of breaking out of the loop. The stored list is the same.
- VideoLiveness.DetectSpoofVideo.CheckFaceDirection does not model the TypeError that ends the source's thread at the first frame without a face. It models the effect: the loop stops there with the fields as written so far.
- RecordService.RecordService.GetDailyRecords, CreateAttendanceRecord and the `HasChecked…Today` predicates date stored records in the server's time zone. That is the corrected rule of the finding below. `RejectionAsWritten` keeps the as-written rule.

## Findings

| source | as written | input that shows it | evidently intended | confidence | as-written member | corrected member |
|---|---|---|---|---|---|---|
| backend-flask/app/services/record_service.py:25-58 | Records are stored with `datetime.utcnow()`, but "today" is the server's local `datetime.now().date()`, compared against the UTC date of the stored time. | Server in UTC+7: a check-in at 23:00 UTC on day D (06:00 local on D+1), then a second one 30 minutes later. The first record's UTC date is D, the local date is D+1, so no IN is found "today" and both are accepted, giving two INs on one local day. | Compare the stored instant and "now" in the same time zone, so there is at most one IN per user per day. | not executed | RecordService.SecondCheckInSameDayAsWritten | RecordService.SecondCheckInSameDayRefused |

# HoloLens grocery object detection: the pipeline core in Dafny

The app runs on a HoloLens. It photographs what the wearer looks at, sends each photo to a
remote object-detection service, and pins a label and a coloured box on every recognised
product. The colour shows the product's Nutri-Score grade. A tap on a box opens a panel with
the product's nutrition table.

This project models the core of that app:

- **The pipeline.** It is a four-stage handoff: capture, serialise, analyse and place.
  Each stage has a queue and an `Empty`/`Refill` flag pair.
- **Placement.** Each detection is unprojected into a world ray; the app also has a
  fallback path for frames without a camera pose. Both rays are modelled as the source
  writes them and as corrected (see "## Findings"); placement uses the corrected ones.
- **Deduplication and smoothing.** A detection that overlaps a registered box is not
  placed again; above 50 % overlap the registered box is smoothed towards it.
- **The product catalog** and the grade colours.
- **The request body** in its wire format.
- **The calibration result.**
- **Tap-to-inspect.**

Modules and their files:

| file | module | what it holds |
|---|---|---|
| `common.dfy` | `Common` | `Option` and `byte`. |
| `linear.dfy` | `Linear` | Vectors and 4 x 4 matrices over the reals. |
| `records.dfy` | `Records` | The data records that pass between stages. |
| `numerals.dfy` | `Numerals` | Decimal numerals and `Int32.TryParse`. |
| `catalog.dfy` | `Catalog` | `GetProductNutri` with its 46 products, and `GetNutriColor`. |
| `projection.dfy` | `Projection` | Image, quad and world coordinates; both `GetFinalPosition` overloads. |
| `dedup.dfy` | `Dedup` | `IsBoxNew` as a function, with float division by zero. |
| `placement.dfy` | `Scene` | `FinaliseLabel`, `CreateNewBox`, `CreateNewLabel` and `CalculateBoxScale` as functions of the registry of placed objects. |
| `base64.dfy` | `Base64` | Base64 per section 4 of RFC 4648, with its decoder. |
| `serializer.dfy` | `Serializer` | The JSON envelope, UTF-8, and the request element. |
| `calibration.dfy` | `Calibration` | `ValuesForCalibration`, over arrays. |
| `handoff.dfy` | `Handoff` | The whole pipeline as a pure state machine, with its invariant and the stall findings. |
| `pipeline.dfy` | `Components` | The four MonoBehaviours as classes whose methods update their fields in place. `App` wires them together, and each of its event methods is proved to perform the matching `Handoff` transition. |
| `panel.dfy` | `Panel` | `NutritionalData`, as a class over the scene's registry. |

External inputs are parameters of the model:

- **Raycasts.** Unity's `Physics.Raycast` against the spatial map is an oracle `Raycast`.
  It maps an origin, a direction and a range to an optional hit point.
- **The world.** The analysis quad's transform, the head position stored when the quad was
  placed, and the quad renderer's normalised size come in as a `World` value.
- **The clock.** The stopwatches become one millisecond clock, `now`.
- **The network reply.** The server's response is the event `Response(Option<Outputs>)`.
- **Buffers.** Every `Queue` is a `seq`.
- **Arithmetic.** Floats are mathematical reals. In the overlap scores of `IsBoxNew`, where
  the divisor can be zero, division follows IEEE (infinities and NaN).

## Model

| member | source | states |
|---|---|---|
| Catalog.Truncate | Scripts/SceneOrganizer.cs:550 | the `(int)` cast of the class id truncates toward zero: the result is within one of the input, on the zero side |
| Catalog.GetProductNutri | Scripts/SceneOrganizer.cs:546-1339 | a known class id yields a record whose `id` is the decimal numeral of the truncated id (a positive 32-bit value) and whose label is one of the grades A-E; an unknown id yields the record with nothing set |
| Catalog.Case | Scripts/SceneOrganizer.cs:550-1336 | the body of the `switch`: the catalogued record for each case label and nothing for the `default` branch; `Catalog.CatalogWellFormed` states what every case holds |
| Catalog.CatalogWellFormed | Scripts/SceneOrganizer.cs:550-1336 | every catalog case sets all fields, carries its own case label as the id numeral and grades the product A-E (checked case by case, two ids at a time) |
| Catalog.GetNutriColor | Scripts/SceneOrganizer.cs:1345-1361 | grades A-E get a non-white colour at alpha 0.8; any other string, including null, gets white |
| Catalog.GradeColorsDistinct | Scripts/SceneOrganizer.cs:1345-1361 | different grades map to different colours, so the colour identifies the grade |
| Catalog.ProductIdRoundTrip | Scripts/SceneOrganizer.cs:291 | the id written into a box name parses back (with `Int32.TryParse`) to the truncated class id it came from |
| Numerals.TryParseInt32 | Scripts/NutritionalData.cs:67 | a parsed value is within the 32-bit range; a null name never parses |
| Numerals.DecimalStringDigits | Scripts/SceneOrganizer.cs:553 | an id numeral is a non-empty digit string whose value is the id |
| Numerals.ParseDecimalRoundTrip | Scripts/NutritionalData.cs:67 | `TryParse` of the numeral of any non-negative 32-bit id yields that id |
| Projection.ImageToQuad | Scripts/SceneOrganizer.cs:285-327 | a normalised image point maps into the unit quad centred at the origin, in its plane |
| Projection.LabelLocalPosition | Scripts/SceneOrganizer.cs:321 | the label's local position is the quad point of the box's upper left corner (left, top) |
| Projection.BoxLocalPosition | Scripts/SceneOrganizer.cs:290 | the box's local position is the quad point of the lower right corner (right, bottom) |
| Projection.LocalPositionsEncodeCorners | Scripts/SceneOrganizer.cs:285-327 | quad and image coordinates are mutually inverse, and the two local positions are the two corners |
| Projection.LabelUpperLeftOfBox | Scripts/SceneOrganizer.cs:285-327 | for a well-formed box the label is left of and above the box in the quad |
| Projection.ProjectedPosition | Scripts/SceneOrganizer.cs:372 | image coordinates map to clip coordinates in [-1, 1] (y flipped) at depth 1 |
| Projection.DirectionAtDepth | Scripts/SceneOrganizer.cs:376-379 | the unprojected direction satisfies the projection's first two rows at the given depth and is a direction (w = 0) |
| Projection.UnprojectAsWritten | Scripts/SceneOrganizer.cs:374-379 | as written, the depth is the reciprocal of `cameraToWorld.m22` |
| Projection.Unproject | Scripts/SceneOrganizer.cs:374-379 | corrected: the depth is the reciprocal of `projection.m22`, the projection's depth entry |
| Projection.UnprojectRoundTrip | Scripts/SceneOrganizer.cs:371-379 | projecting the corrected unprojection gives back the clip-space point of the pixel |
| Projection.AsWrittenDepthMisses | Scripts/SceneOrganizer.cs:374 | for a camera turned about its y axis, the as-written unprojection does not project back to its pixel, while the corrected one does |
| Projection.CameraRay | Scripts/SceneOrganizer.cs:381-385 | the ray starts at the camera position (the translation column of cameraToWorld) |
| Projection.DirectionIgnoresTranslation | Scripts/SceneOrganizer.cs:384-385 | the ray direction does not depend on where the camera stands |
| Projection.CentreCastsForward | Scripts/SceneOrganizer.cs:371-385 | an example: with an identity pose and a centred projection, the image centre casts straight along the view axis |
| Projection.Cast | Scripts/SceneOrganizer.cs:388-398 | a hit returns the oracle's point; a miss returns false with the zero vector |
| Projection.GetFinalPosition | Scripts/SceneOrganizer.cs:369-399 | the world position is the 30 m raycast from the camera position along the corrected unprojected direction, zero on a miss |
| Projection.GetFinalPositionAsWritten | Scripts/SceneOrganizer.cs:369-399 | the same cast with the as-written depth |
| Projection.FallbackRay | Scripts/SceneOrganizer.cs:346-354 | corrected: the ray starts at the head and one direction-length along it is the object, as the doc comment says |
| Projection.FallbackRayAsWritten | Scripts/SceneOrganizer.cs:354 | as written, the ray starts at the head and takes the object's world position as its direction |
| Projection.GetFallbackPosition | Scripts/SceneOrganizer.cs:351-364 | the fallback placement is the raycast along the corrected fallback ray, zero on a miss |
| Projection.FallbackRayThroughTarget | Scripts/SceneOrganizer.cs:348 | the corrected fallback ray passes through the object |
| Projection.AsWrittenFallbackMisses | Scripts/SceneOrganizer.cs:201-202 | head (1,0,0) and object (0,1,0): the as-written ray never passes through the object |
| Projection.UnprojectionsAgree | Scripts/SceneOrganizer.cs:374 | the as-written and the corrected unprojection give the same direction exactly when the pose's `m22` equals the projection's |
| Projection.GetFallbackPositionAsWritten | Scripts/SceneOrganizer.cs:351-364 | as written, the fallback hits exactly when the cast from the head along the object's position hits, and then lands where it does, zero on a miss |
| Projection.FallbackRaysAgree | Scripts/SceneOrganizer.cs:201-202 | the as-written and the corrected fallback rays coincide exactly when the head is at the world origin |
| Dedup.Quotient | Scripts/SceneOrganizer.cs:470-519 | float division: the exact quotient for a non-zero divisor, never a finite value for a zero one |
| Dedup.Times | Scripts/SceneOrganizer.cs:526-537 | float multiplication agrees with real multiplication on finite values |
| Dedup.OverlapMeaning | Scripts/SceneOrganizer.cs:470-491 | for a proper new interval the overlap score is 1 on containment, and otherwise the shared length over the new length; it is negative exactly when the intervals are apart, and never above 1 |
| Dedup.Compare | Scripts/SceneOrganizer.cs:466-537 | a duplicate has non-negative overlap on both axes and an overlap product above 0.1; it is merged exactly when the product is above 0.5 |
| Dedup.EdgesOf | Scripts/SceneOrganizer.cs:454-459 | the +1 shift keeps the candidate's width and height: right minus left and top minus bottom are those of the corners |
| Dedup.XOverlap | Scripts/SceneOrganizer.cs:470-491 | for a proper new extent the horizontal score is finite, at most 1, and negative exactly when the extents are apart |
| Dedup.YOverlap | Scripts/SceneOrganizer.cs:498-519 | the same for the vertical score |
| Dedup.Overlap | Scripts/SceneOrganizer.cs:470-491 | the branch code shared by both axes (horizontally at :470-491, vertically at :498-519): full overlap gives 1, otherwise the signed shared length over the new length; `Dedup.OverlapMeaning` ties it to the independent Min/Max reading |
| Dedup.Smooth | Scripts/SceneOrganizer.cs:529-531 | the moving average moves one sixth of the way from the tracked value to the observation |
| Dedup.SmoothFixpoint | Scripts/SceneOrganizer.cs:529-531 | observing the tracked value leaves it unchanged |
| Dedup.Merge | Scripts/SceneOrganizer.cs:526-533 | a merge keeps the registered box's name and colour and its label's text |
| Dedup.InQuadFrame | Scripts/SceneOrganizer.cs:288-289 | a world scale re-expressed under the (2.5, 1.4, 1) analysis quad: multiplying back by the quad's scale gives the world scale |
| Dedup.SmoothInQuadFrame | Scripts/SceneOrganizer.cs:531 | smoothing world scales and smoothing the quad-relative `localScale`s give the same result |
| Dedup.AfterDuplicate | Scripts/SceneOrganizer.cs:526-537 | after the first duplicate the result is not new, lengths are kept, names, colours and texts are kept, and only that entry may change |
| Dedup.IsBoxNewMeaning | Scripts/SceneOrganizer.cs:450-540 | new exactly when every registered entry is apart from the candidate, and then the registry is untouched; otherwise the result is the first duplicate's merge-or-keep |
| Dedup.IsBoxNewFrom | Scripts/SceneOrganizer.cs:464-539 | the scan from any index keeps the registry's length, and a new candidate leaves it untouched |
| Dedup.IsBoxNew | Scripts/SceneOrganizer.cs:450-540 | the whole scan keeps the registry's length, and a new candidate leaves it untouched |
| Dedup.IsBoxNewFromMeaning | Scripts/SceneOrganizer.cs:464-539 | the same for the scan resumed at any index past entries that were all apart |
| Dedup.IsBoxNewChangesAtMostOne | Scripts/SceneOrganizer.cs:464-539 | the scan changes at most one entry, and keeps every name, colour and text |
| Dedup.SamePlaceIsNotNew | Scripts/SceneOrganizer.cs:464-539 | a candidate at exactly a registered entry's corners is a merging duplicate of it and is not new |
| Dedup.SkipApart | Scripts/SceneOrganizer.cs:492-524 | entries the candidate is apart from are skipped without effect |
| Dedup.AppendedIsAbsorbed | Scripts/SceneOrganizer.cs:464-539 | once a new entry is appended, the same candidate again is absorbed by it and changes nothing |
| Scene.BoxScale | Scripts/SceneOrganizer.cs:256-266 | the box depth is the sizer 0.008; a zero-width box has zero x scale and a zero-height box zero y scale |
| Scene.Corners | Scripts/SceneOrganizer.cs:169-213 | with world data each corner hits exactly when the raycast from the camera position along the corrected unprojection of its pixel hits; without it, exactly when the raycast from the head towards the corner's quad point hits; a miss lands at zero |
| Scene.CornersAgree | Scripts/SceneOrganizer.cs:183-202 | the corners the source computes (`Scene.CornersAsWritten`) are the corrected ones whenever the pose's `m22` equals the projection's, or, without a pose, the head is at the origin |
| Scene.PlaceableAsWritten | Scripts/SceneOrganizer.cs:374-379 | a pose and projection the source's unprojection divides by without a zero divisor |
| Scene.CornersAsWritten | Scripts/SceneOrganizer.cs:183-202 | as written, with world data each corner hits exactly when the raycast from the camera along the `cameraToWorld.m22` unprojection hits; without, exactly when the raycast from the head along the object's position hits; a miss lands at zero |
| Scene.Candidate | Scripts/SceneOrganizer.cs:155-213 | a detection yields a candidate exactly when both corrected corner casts hit; its label carries the product's grade text, its box the product id, the grade colour and the computed scale, kept as the box's world scale |
| Scene.FinaliseFrom | Scripts/SceneOrganizer.cs:149-245 | the loop from any index keeps boxes and labels paired |
| Scene.FinaliseLabel | Scripts/SceneOrganizer.cs:144-251 | placing a result keeps boxes and labels paired |
| Scene.ProcessedCount | Scripts/SceneOrganizer.cs:149-244 | the loop looks at the leading run of detections scoring above 0.8 and stops at the first that does not |
| Scene.AdmitKeepsConsistent | Scripts/SceneOrganizer.cs:224-238 | admitting one candidate keeps the registry paired and consistent (each box coloured by its label's grade, named exactly when its label has a text) and grows it by at most one |
| Scene.Admit | Scripts/SceneOrganizer.cs:224-238 | the registry stays paired; it grows by one exactly when `IsBoxNew` says the candidate is new, keeping the old entries in front, and otherwise keeps its length |
| Scene.FinaliseFromKeeps | Scripts/SceneOrganizer.cs:149-245 | the loop from any index keeps the registry paired and consistent, never drops an entry, and adds at most one per remaining detection |
| Scene.FinaliseLabelKeeps | Scripts/SceneOrganizer.cs:144-251 | the same for placing a whole result |
| Scene.FinaliseFromPrefix | Scripts/SceneOrganizer.cs:153-244 | detections after the first low score have no effect on the loop |
| Scene.FinaliseLabelStopsAtFirstLowScore | Scripts/SceneOrganizer.cs:148-244 | placing a result is placing its leading above-threshold run |
| Scene.SortedScoresExample | Scripts/SceneOrganizer.cs:148-244 | an example: with scores 0.95, 0.9, 0.5, 0.99 the last detection is never looked at |
| Scene.FinaliseFromBlind | Scripts/SceneOrganizer.cs:183-213 | when no raycast hits, the loop from any index places nothing |
| Scene.NoHitPlacesNothing | Scripts/SceneOrganizer.cs:183-213 | when no raycast hits, placing a result leaves the registry as it was |
| Scene.SingleDetection | Scripts/SceneOrganizer.cs:144-251 | a single placeable detection above the threshold ends up as `IsBoxNew` admits it |
| Scene.RepeatedDetectionIsAbsorbed | Scripts/SceneOrganizer.cs:450-540 | when a single-detection result added an entry, placing the same result again changes nothing |
| Base64.CharOf | Scripts/ImageSerializer.cs:89 | each 6-bit value maps to a character of the base64 alphabet |
| Base64.ValueOf | Scripts/ImageSerializer.cs:89 | exactly the alphabet characters have a 6-bit value, and that value maps back to the character |
| Base64.ValueOfCharOf | Scripts/ImageSerializer.cs:89 | every 6-bit value is decoded back from its character |
| Base64.EncodeGroup | Scripts/ImageSerializer.cs:89 | three bytes encode as four alphabet characters |
| Base64.Encode | Scripts/ImageSerializer.cs:89 | the text is a whole number of four-character groups, empty exactly for no bytes |
| Base64.GroupRoundTrip | Scripts/ImageSerializer.cs:89 | decoding the four characters of a group gives back its three bytes |
| Base64.EncodeLength | Scripts/ImageSerializer.cs:89 | the encoding has four characters per started three bytes |
| Base64.EncodeAlphabet | Scripts/ImageSerializer.cs:89 | the encoding holds only alphabet characters, with padding only in the last two positions |
| Base64.DecodeEncode | Scripts/ImageSerializer.cs:89 | decoding the encoding gives back the bytes |
| Serializer.Utf8Char | Scripts/ImageSerializer.cs:94 | a character encodes as 1 to 4 bytes, one byte with its own value exactly when it is ASCII |
| Serializer.Utf8 | Scripts/ImageSerializer.cs:94 | the encoding has at least one byte per character |
| Serializer.Utf8OfAscii | Scripts/ImageSerializer.cs:94 | ASCII text encodes byte for byte and reads back unchanged |
| Serializer.RequestJson | Scripts/ImageSerializer.cs:90-92 | the JSON document is the fixed prefix `{"inputs":[{"b64":"`, the payload and the fixed suffix `"}]}` |
| Serializer.PayloadOfRequestJson | Scripts/ImageSerializer.cs:90-92 | the payload is recovered from the document when it needs no escaping |
| Serializer.Base64IsPlainText | Scripts/ImageSerializer.cs:89-92 | base64 text is ASCII and needs no JSON escaping |
| Serializer.SerializeRequest | Scripts/ImageSerializer.cs:94-103 | the element has world data exactly when both matrices were obtained, and then carries them; without a pose the projection is not tried and stays zero |
| Serializer.RawRequest | Scripts/ImageSerializer.cs:89-93 | the body's bytes read back as ASCII are exactly the JSON document around the image's base64 text |
| Serializer.RequestCarriesImage | Scripts/ImageSerializer.cs:81-94 | decoding the request body (UTF-8, JSON, base64) gives back exactly the frame's image bytes |
| Calibration.ValuesForCalibration | Scripts/ImageAnalyser.cs:178-203 | the nested loops fill the arrays with the nine grid rows, in order |
| Calibration.CalibrationOutputs | Scripts/ImageAnalyser.cs:178-203 | the calibration result has nine detections and no world data |
| Calibration.CalibrationRows | Scripts/ImageAnalyser.cs:184-200 | row 3l + h is grid cell (l, h), scoring 0.99 with class 16 |
| Calibration.CalibrationBoxesInImage | Scripts/ImageAnalyser.cs:184-198 | every calibration box is a proper rectangle inside the image |
| Calibration.CalibrationAllPlaced | Scripts/ImageAnalyser.cs:193 | all nine rows clear the placement threshold, so placement looks at each |
| Handoff.WithWorldData | Scripts/ImageAnalyser.cs:131-140 | a result keeps its detections and carries world data exactly when its request did, and then that request's matrices |
| Handoff.CaptureUpdate | Scripts/ImageCapture.cs:112-122 | capture's `Update` changes the state exactly when a frame is wanted and no capture is active; it then lowers refill, raises active and, with a ready camera, starts photo mode; the photo buffer is untouched |
| Handoff.OnCameraCreated | Scripts/ImageCapture.cs:83-87 | the camera is ready and capture inactive, so the next capture tick starts photo mode when a frame is wanted |
| Handoff.OnPhotoModeStarted | Scripts/ImageCapture.cs:140-143 | the photo is under way: delivering any usable frame is now enabled; buffer and active flag are untouched |
| Handoff.OnCapturedPhotoToMemory | Scripts/ImageCapture.cs:148-164 | the frame is appended to the photo buffer, the buffer is marked non-empty, one more frame is counted and the stop callback is pending |
| Handoff.OnPhotoModeStopped | Scripts/ImageCapture.cs:159-163 | the camera is ready and capture inactive, so the next capture tick starts photo mode when a frame is wanted |
| Handoff.OnFocusLost | Scripts/ImageCapture.cs:171-185 | a created camera is disposed, after which no photo callback is enabled; it clears active unless the camera was already gone; the queues are untouched |
| Handoff.SerializerUpdate | Scripts/ImageSerializer.cs:50-64 | the serializer acts exactly when it wants input and a frame is waiting; the frame then moves from the buffer's front into the coroutine, capture is re-armed and the serializer's refill lowered |
| Handoff.ResumeSerializeRequest | Scripts/ImageSerializer.cs:73-111 | the frame's request element is appended, the request buffer marked non-empty, the coroutine finished and one more frame counted as disposed |
| Handoff.AnalyserUpdate | Scripts/ImageAnalyser.cs:59-76 | the analyser acts only with its gate open, restarting the stopwatch; with a request waiting it moves the front request into flight, re-arms the serializer and lowers its own refill |
| Handoff.OnResponseSucceeded | Scripts/ImageAnalyser.cs:122-148 | the result, stamped with its request's pose, is appended to the output buffer, which is marked non-empty; nothing stays in flight and the refill flag is untouched |
| Handoff.OnResponseFailedAsWritten | Scripts/ImageAnalyser.cs:149-157 | as written: nothing in flight, no result and the refill flag left as it was; the rest gate reopens only after more than 2000 ms |
| Handoff.OnResponseFailed | Scripts/ImageAnalyser.cs:149-157 | corrected: the same 2000 ms rest, with the analyser asking for input again |
| Handoff.OnResponse | Scripts/ImageAnalyser.cs:121-157 | the branch on `outputs != null`: the request leaves flight, a result is enqueued exactly when the service sent outputs, and a failure leaves the queue alone and re-arms the analyser |
| Handoff.SceneUpdate | Scripts/SceneOrganizer.cs:86-104 | results are only moved, from the output buffer to the placement list in order; it acts exactly when a result is waiting, and then marks the buffer empty and re-arms the analyser |
| Handoff.ResumeFinaliseLabel | Scripts/SceneOrganizer.cs:144-251 | the oldest pending result is placed and dropped from the list, the registry stays paired, and the output buffer and its flags are untouched |
| Handoff.Step | Scripts/ImageAnalyser.cs:59-157 | one engine event of the corrected machine; an event that is not pending changes nothing; covers every handler: ImageCapture.cs lines 66-183, ImageSerializer.cs lines 50-111, ImageAnalyser.cs lines 59-157 and SceneOrganizer.cs lines 86-251 |
| Handoff.StepAsWritten | Scripts/ImageAnalyser.cs:149-157 | the program as written differs from the corrected machine only on an enabled failed reply, and there only in leaving `outputsBufferRefill` as it was |
| Handoff.Run | Scripts/ImageAnalyser.cs:59-157 | a sequence of events of the corrected machine, applied in order; covers every handler: ImageCapture.cs lines 66-183, ImageSerializer.cs lines 50-111, ImageAnalyser.cs lines 59-157 and SceneOrganizer.cs lines 86-251 |
| Handoff.RunAsWritten | Scripts/ImageAnalyser.cs:59-157 | a sequence of events as written, applied in order; covers every handler: ImageCapture.cs lines 66-183, ImageSerializer.cs lines 50-111, ImageAnalyser.cs lines 59-157 and SceneOrganizer.cs lines 86-251 |
| Handoff.InitialInv | Scripts/ImageCapture.cs:44-59 | the field initialisers satisfy the pipeline invariant |
| Handoff.InvMeaning | Scripts/ImageCapture.cs:112-164 | under the invariant each queue holds at most one item, each `Empty` flag is exact, a `Refill` flag is up only with its queue empty and nothing under way, and every captured frame is waiting, being serialised or disposed; this holds already for the program as written (`InvAsWritten`, which only bounds the result tokens by one) |
| Handoff.CaptureStepsKeepInv | Scripts/ImageCapture.cs:83-185 | capture's `Update`, the camera callbacks and focus loss keep the as-written invariant and the number of result tokens |
| Handoff.SerializerStepsKeepInv | Scripts/ImageSerializer.cs:50-111 | the serializer's `Update` and the resumed coroutine keep the as-written invariant and the number of result tokens |
| Handoff.AnalyserStepsKeepInv | Scripts/ImageAnalyser.cs:59-157 | the analyser's `Update` and either response of the corrected machine keep the as-written invariant and the number of result tokens |
| Handoff.OnResponseFailedAsWrittenKeepsInv | Scripts/ImageAnalyser.cs:149-157 | the failure branch as written keeps the as-written invariant but loses the one result token, leaving none |
| Handoff.SceneStepsKeepInv | Scripts/SceneOrganizer.cs:86-251 | the scene's `Update` and the resumed placement keep the as-written invariant and the number of result tokens |
| Handoff.CaptureUpdateKeepsInv | Scripts/ImageCapture.cs:112-122 | capture's `Update` keeps the as-written invariant and the number of result tokens |
| Handoff.OnCameraCreatedKeepsInv | Scripts/ImageCapture.cs:83-87 | the camera callback keeps the as-written invariant and the number of result tokens |
| Handoff.OnPhotoModeStartedKeepsInv | Scripts/ImageCapture.cs:140-143 | the photo-mode callback, which starts a capture, keeps the as-written invariant and the number of result tokens |
| Handoff.OnCapturedKeepsInv | Scripts/ImageCapture.cs:149-164 | queueing a usable frame into the empty photo buffer keeps the as-written invariant and the number of result tokens |
| Handoff.OnPhotoModeStoppedKeepsInv | Scripts/ImageCapture.cs:159-163 | the stop callback keeps the as-written invariant and the number of result tokens |
| Handoff.OnFocusLostKeepsInv | Scripts/ImageCapture.cs:171-185 | focus loss keeps the as-written invariant and the number of result tokens |
| Handoff.AdvanceClockKeepsInv | Scripts/ImageAnalyser.cs:61 | time passing keeps the as-written invariant and the number of result tokens |
| Handoff.SerializerUpdateKeepsInv | Scripts/ImageSerializer.cs:50-64 | the serializer taking the one buffered frame keeps the as-written invariant and the number of result tokens |
| Handoff.ResumeSerializeKeepsInv | Scripts/ImageSerializer.cs:73-111 | queueing the serialised request into the empty request buffer keeps the as-written invariant and the number of result tokens |
| Handoff.AnalyserUpdateKeepsInv | Scripts/ImageAnalyser.cs:59-76 | the analyser taking the one buffered request keeps the as-written invariant and the number of result tokens |
| Handoff.OnResponseKeepsInv | Scripts/ImageAnalyser.cs:122-157 | either reply, with the corrected failure branch, keeps the as-written invariant and the number of result tokens |
| Handoff.SceneUpdateKeepsInv | Scripts/SceneOrganizer.cs:86-104 | the scene taking the one buffered result keeps the as-written invariant and the number of result tokens |
| Handoff.ResumeFinaliseKeepsInv | Scripts/SceneOrganizer.cs:144-251 | placing the oldest pending result keeps the as-written invariant and the number of result tokens |
| Handoff.StepKeepsTokens | Scripts/ImageAnalyser.cs:59-157 | every event of the corrected machine keeps the as-written invariant and the number of result tokens; covers every handler: ImageCapture.cs lines 66-183, ImageSerializer.cs lines 50-111, ImageAnalyser.cs lines 59-157 and SceneOrganizer.cs lines 86-251 |
| Handoff.StepKeepsInv | Scripts/ImageAnalyser.cs:59-157 | every event of the corrected machine keeps the invariant; covers every handler: ImageCapture.cs lines 66-183, ImageSerializer.cs lines 50-111, ImageAnalyser.cs lines 59-157 and SceneOrganizer.cs lines 86-251 |
| Handoff.RunKeepsInv | Scripts/ImageAnalyser.cs:59-157 | every run of events of the corrected machine keeps the invariant; covers every handler: ImageCapture.cs lines 66-183, ImageSerializer.cs lines 50-111, ImageAnalyser.cs lines 59-157 and SceneOrganizer.cs lines 86-251 |
| Handoff.ReachableInv | Scripts/ImageCapture.cs:44-183 | every state the corrected machine reaches satisfies the invariant; starts from the field initialisers of all four components, those of ImageCapture.cs at lines 44-59, and covers every handler: ImageCapture.cs lines 66-183, ImageSerializer.cs lines 50-111, ImageAnalyser.cs lines 59-157 and SceneOrganizer.cs lines 86-251 |
| Handoff.StepAsWrittenKeepsInv | Scripts/ImageAnalyser.cs:122-157 | every event as written keeps the as-written invariant and never adds a result token; it removes one exactly on an enabled failed reply |
| Handoff.RunAsWrittenKeepsInv | Scripts/ImageAnalyser.cs:59-157 | every run of events as written keeps the as-written invariant and never adds a result token; covers every handler: ImageCapture.cs lines 66-183, ImageSerializer.cs lines 50-111, ImageAnalyser.cs lines 59-157 and SceneOrganizer.cs lines 86-251 |
| Handoff.ReachableInvAsWritten | Scripts/ImageCapture.cs:44-183 | every state the program as written reaches satisfies the as-written invariant, and the full invariant exactly when the analyser is not stalled; starts from the field initialisers of all four components, those of ImageCapture.cs at lines 44-59, and covers every handler: ImageCapture.cs lines 66-183, ImageSerializer.cs lines 50-111, ImageAnalyser.cs lines 59-157 and SceneOrganizer.cs lines 86-251 |
| Handoff.NeverStalled | Scripts/ImageAnalyser.cs:149-157 | with the corrected failure branch the analyser is never left without a wanted input, a request in flight or a result waiting |
| Handoff.RetryAfterFailure | Scripts/ImageAnalyser.cs:156 | after a failure the analyser starts again exactly when more than 2000 ms have passed and a request is waiting |
| Handoff.RestAfterSuccess | Scripts/ImageAnalyser.cs:147 | after a success taken by the scene, it starts again exactly when more than 200 ms have passed and a request is waiting |
| Handoff.AsWrittenFailureStalls | Scripts/ImageAnalyser.cs:149-157 | as written, one failed response leaves the analyser stalled |
| Handoff.AsWrittenStallIsPermanent | Scripts/ImageAnalyser.cs:61 | a stalled analyser stays stalled after any event |
| Handoff.AsWrittenStallForever | Scripts/ImageAnalyser.cs:61 | a stalled analyser stays stalled after any run |
| Handoff.FirstRequestQueuedState | Scripts/ImageCapture.cs:83-164 | trace support: from start-up, one capture and one serialisation leave a request waiting with the analyser ready |
| Handoff.FirstFailureStalls | Scripts/ImageAnalyser.cs:149-157 | as written, with a request waiting, 201 ms of rest, the analyser's start and a failed reply leave it stalled |
| Handoff.FirstFrameFailsRun | Scripts/ImageAnalyser.cs:59-76 | trace support: the start-up trace of the first frame ends in the state the last two lemmas describe |
| Handoff.AsWrittenStallFromStart | Scripts/ImageAnalyser.cs:149-157 | as written, if the first reply fails, no analysis ever starts again, whatever follows |
| Components.ImageCapture.constructor | Scripts/ImageCapture.cs:44-59 | the capture starts active, with an empty buffer that wants a frame, and the camera being created |
| Components.ImageCapture.OnCameraCreated | Scripts/ImageCapture.cs:83-87 | the camera is ready and capture no longer active; nothing else changes |
| Components.ImageCapture.TakePhoto | Scripts/ImageCapture.cs:128-144 | a ready camera is asked for photo mode; without a camera nothing changes |
| Components.ImageCapture.Update | Scripts/ImageCapture.cs:112-122 | a wanted frame with no capture under way lowers refill, raises active and takes a photo; otherwise nothing changes |
| Components.ImageCapture.OnPhotoModeStarted | Scripts/ImageCapture.cs:140-143 | photo mode is on and the photo is being taken; nothing else changes |
| Components.ImageCapture.OnCapturedPhotoToMemory | Scripts/ImageCapture.cs:149-164 | the frame is enqueued, the buffer marked non-empty and photo mode left |
| Components.ImageCapture.OnPhotoModeStopped | Scripts/ImageCapture.cs:159-163 | the camera is ready again and capture no longer active |
| Components.ImageCapture.OnApplicationFocus | Scripts/ImageCapture.cs:171-185 | on focus loss the camera is disposed and active cleared; without a camera nothing changes |
| Components.ImageSerializer.Update | Scripts/ImageSerializer.cs:50-64 | with refill up and a frame waiting, the frame moves into the coroutine and capture is re-armed; otherwise nothing changes |
| Components.ImageSerializer.ResumeSerializeRequest | Scripts/ImageSerializer.cs:73-111 | the frame's request element is enqueued, the buffer marked non-empty and the frame disposed |
| Components.ImageAnalyser.Update | Scripts/ImageAnalyser.cs:59-76 | after more than 200 ms of rest with input wanted and available, the stopwatch restarts, a request is taken and the serializer re-armed |
| Components.ImageAnalyser.OnResponse | Scripts/ImageAnalyser.cs:122-157 | a result is stamped with its request's pose and enqueued; a failure sets an 1800 ms longer rest and re-arms the analyser |
| Components.SceneOrganizer.Update | Scripts/SceneOrganizer.cs:86-104 | a waiting result moves into placement and the analyser is re-armed |
| Components.SceneOrganizer.IsBoxNew | Scripts/SceneOrganizer.cs:450-540 | the in-place scan returns and leaves exactly what `Dedup.IsBoxNew` describes |
| Components.SceneOrganizer.PlaceDetection | Scripts/SceneOrganizer.cs:155-238 | one loop iteration, with the corrected corner casts, leaves the registry as admitting the detection's candidate would, or unchanged on a miss; the box's scale is kept as its world scale |
| Components.SceneOrganizer.ResumeFinaliseLabel | Scripts/SceneOrganizer.cs:144-251 | the loop with `break` and `continue`, with the corrected corner casts, leaves the registry `Scene.FinaliseLabel` describes and drops the result from the pending list |
| Components.App.constructor | Scripts/ImageCapture.cs:44-59 | the wired components start in the machine's initial state |
| Components.App.Elapse | Scripts/ImageAnalyser.cs:61 | time passing is the machine's clock step |
| Components.App.CaptureTick | Scripts/ImageCapture.cs:112-122 | a capture frame tick on the objects is the machine's capture step |
| Components.App.SerializerTick | Scripts/ImageSerializer.cs:50-64 | a serializer frame tick on the objects is the machine's serializer step |
| Components.App.AnalyserTick | Scripts/ImageAnalyser.cs:59-76 | an analyser frame tick on the objects is the machine's analyser step |
| Components.App.SceneTick | Scripts/SceneOrganizer.cs:86-104 | a scene frame tick on the objects is the machine's scene step |
| Components.App.CameraCreated | Scripts/ImageCapture.cs:83-87 | the camera callback on the objects is the machine's step |
| Components.App.PhotoModeStarted | Scripts/ImageCapture.cs:140-143 | the photo-mode callback on the objects is the machine's step |
| Components.App.PhotoCaptured | Scripts/ImageCapture.cs:149-164 | the photo callback on the objects is the machine's step |
| Components.App.PhotoModeStopped | Scripts/ImageCapture.cs:159-163 | the stop callback on the objects is the machine's step |
| Components.App.FocusLost | Scripts/ImageCapture.cs:171-185 | focus loss on the objects is the machine's step |
| Components.App.SerializeResumed | Scripts/ImageSerializer.cs:73-111 | the resumed serialisation on the objects is the machine's step |
| Components.App.Response | Scripts/ImageAnalyser.cs:122-157 | a server reply on the objects is the machine's step |
| Components.App.PlacementResumed | Scripts/SceneOrganizer.cs:144-251 | the resumed placement on the objects is the machine's step |
| Components.App.Dispatch | Scripts/ImageAnalyser.cs:59-157 | every engine event on the objects is exactly the corrected machine's step, and keeps its invariant; covers every handler: ImageCapture.cs lines 66-183, ImageSerializer.cs lines 50-111, ImageAnalyser.cs lines 59-157 and SceneOrganizer.cs lines 86-251 |
| Components.App.DispatchUpdate | Scripts/ImageCapture.cs:112-122 | a frame tick of one component, time passing or focus loss on the objects is exactly the machine's step; covers the four `Update` methods, at ImageCapture.cs lines 112-122, ImageSerializer.cs lines 50-64, ImageAnalyser.cs lines 59-76 and SceneOrganizer.cs lines 86-103, and `OnApplicationFocus` at ImageCapture.cs lines 171-183 |
| Components.App.DispatchCompletion | Scripts/ImageCapture.cs:128-169 | the completion of a pending asynchronous call on the objects is exactly the machine's step, and one not pending changes nothing; covers the camera callbacks at ImageCapture.cs lines 74-91 and 128-169, the serializer coroutine at ImageSerializer.cs lines 73-111, the reply at ImageAnalyser.cs lines 81-157 and placement at SceneOrganizer.cs lines 144-251 |
| Panel.SelectFrom | Scripts/NutritionalData.cs:58-97 | the search returns the first entry from the index on that contains the cursor and has a parsable name, and none exactly when there is no such entry |
| Panel.Contains | Scripts/NutritionalData.cs:63 | the hit test is inclusive on all four sides, between the label's upper left and the box's lower right corner |
| Panel.ViewOf | Scripts/NutritionalData.cs:72-91 | the panel shows the product's calories, sugar, fat, protein and fibre, each coloured by its own grade, and its GTIN and name |
| Panel.Select | Scripts/NutritionalData.cs:58-97 | the selected entry contains the cursor and has a parsable name, no earlier entry qualifies, and there is no selection exactly when no entry qualifies |
| Panel.TapShowsPlacedProduct | Scripts/NutritionalData.cs:67-70 | tapping a box placed for a catalogued class shows that class's product |
| Panel.NutritionalPanel.constructor | Scripts/NutritionalData.cs:19-29 | the panel starts hidden |
| Panel.NutritionalPanel.OrganizeNutriPanel | Scripts/NutritionalData.cs:51-100 | the loop shows the selected entry's product and opens the panel, or changes nothing |
| Panel.NutritionalPanel.TapHandler | Scripts/NutritionalData.cs:35-46 | an open panel only closes; a closed one opens on a selection and otherwise stays closed |

## Left out

- Network: the web request to the prediction endpoint, its JSON reply parsing (Scripts/ImageAnalyser.cs:81-119), `RequestGrpc` and `DebugLogResponse` are I/O; the reply enters only as the `Response` event.
- Rendering: the loading icon, the cursor colours, the text meshes' font size and colour, and `Instantiate`/`Destroy` are scene-graph effects with no bearing on what is placed.
- Box parenting: `CreateNewBox` parents the box to the current analysis quad after setting its scale (Scripts/SceneOrganizer.cs:288-289), so the `localScale` the source reads and smooths (Scripts/SceneOrganizer.cs:531) is relative to the quad's (2.5, 1.4, 1) scale. The model keeps the box's world scale instead (`Dedup.Box.scale`). With the box's and the quad's rotations aligned the two differ by the fixed factor `Dedup.InQuadFrame`, which `Dedup.SmoothInQuadFrame` shows the moving average respects. A quad turned against the box, which would skew the local scale, is not modelled.
- Quad placement: `PlaceAnalysisLabel` (Scripts/SceneOrganizer.cs:109-139) creates a new analysis quad on each call, re-points `quad` at it and stores the head position; no quad is destroyed, so earlier quads, and the boxes and labels parented to them, stay where they were. The model takes the current quad, the head position and the quad renderer's size as the `World` value given when placement resumes, so it does not capture that a later photo can replace the quad and head position before an earlier result is placed.
- Timing logs: only the analyser's stopwatch gates work and is modelled; the other stages' stopwatches, their timestamps (including the one `FinaliseLabel` writes at Scripts/SceneOrganizer.cs:250) and every `Debug.Log` only feed log lines.
- Floating point: floats are mathematical reals, so `0.8f` is taken as 0.8 and rounding is not modelled; division by zero is modelled IEEE-style where `IsBoxNew` can divide by zero.
- Projection.Unproject: requires non-zero `m00`, `m11` and `m22` on the projection (`UsableProjection`), on the assumption that the camera never supplies a degenerate projection, rather than modelling infinite directions.
- Corners: placement follows the corrected geometry of the Findings below. With a pose, the depth is divided by `projection.m22`, where Scripts/SceneOrganizer.cs:374 divides by `cameraToWorld.m22`. Without a pose, the fallback ray runs from the head towards the object, where Scripts/SceneOrganizer.cs:201-202 passes the object's position as the direction. The source's own corners are `Scene.CornersAsWritten`, and `Scene.CornersAgree` proves the two agree exactly where the rays coincide. A pose with `cameraToWorld.m22 = 0`, which the source divides by, is not modelled.
- Candidate: states its candidate through the corrected corners of `Scene.Corners`, not the source's `Scene.CornersAsWritten`, and gives the box its world scale rather than the source's quad-relative `localScale` (see "Box parenting").
- PlaceDetection: places through the corrected corners of `Scene.Corners`, so it matches the source only where `Scene.CornersAgree` applies; the box it registers carries its world scale (see "Box parenting").
- ResumeFinaliseLabel: likewise places every detection through the corrected corners of `Scene.Corners`.
- Raycasts: `Physics.Raycast` against the spatial map is an oracle parameter; the physics itself is not modelled.
- Focus loss: the model assumes that Unity delivers no photo-mode or capture callback after `OnApplicationFocus(false)` has disposed the camera, so such callbacks are not events. Were the capture callback delivered, the source would enqueue the frame and clear `photoFrameBufferEmpty` (Scripts/ImageCapture.cs:156-157) before calling `StopPhotoModeAsync` on the null camera (Scripts/ImageCapture.cs:159), and that is not modelled. `CancelInvoke` has nothing to cancel in this pipeline.
- IsBoxNew overload: the unused `IsBoxNew(Vector3, Vector3, Vector3)` (Scripts/SceneOrganizer.cs:407-441) is never called and is not modelled.
- Result arrays: `Outputs` keeps the three response arrays as one sequence of rows, so a reply whose arrays have different lengths, which would throw when indexed, is not modelled.
- Serializer.SerializeRequest: a matrix that `TryGet...` did not obtain is modelled as the zero matrix of a fresh `Matrix4x4`; what Unity writes to the out-parameter on failure is not modelled.
- Serializer.RequestJson: general JSON string escaping is not modelled, because the payload is always base64 text, which needs none (`Serializer.Base64IsPlainText`).
- Scene.FinaliseLabel: its own contract states only that boxes and labels stay paired; what it places is stated by `Scene.FinaliseLabelKeeps`, `Scene.FinaliseLabelStopsAtFirstLowScore`, `Scene.NoHitPlacesNothing` and the other lemmas beside it.
- Scene.FinaliseFrom: likewise, its properties are stated by `Scene.FinaliseFromKeeps`, `Scene.FinaliseFromPrefix` and `Scene.FinaliseFromBlind`.
- Components.ImageAnalyser.OnResponse: implements the corrected failure branch, which re-arms the analyser; the as-written branch is kept as `Handoff.OnResponseFailedAsWritten` and `Handoff.StepAsWritten`.
- Panel.NutritionalPanel.constructor: the texts the panel prefab starts with are a constructor parameter; gesture recognition is input and is modelled by calling `TapHandler` with the cursor position.
- Loading icon: Scripts/LoadingIcon.cs only animates an icon and is not part of this model.

## Findings

| source | as written | input that shows it | evidently intended | confidence | as-written member | corrected member |
|---|---|---|---|---|---|---|
| Scripts/ImageAnalyser.cs:149-157 | the failure branch sets the timestamp 1800 ms ahead but leaves `outputsBufferRefill` false, and only `SceneOrganizer.Update` (on a successful result) sets it again | start-up, one photo, one serialisation, 201 ms, the analyser starts, the server reply fails: no analysis ever starts again | "hibernate the detection for 2sec" and then resume: the failure branch also sets `outputsBufferRefill` back to true | not executed | Handoff.AsWrittenStallFromStart | Handoff.RetryAfterFailure |
| Scripts/SceneOrganizer.cs:374 | the unprojection depth is `projPos.z / cameraToWorld.m22`, an entry of the camera pose | a camera turned 53° about its y axis (`m00 = m22 = 0.6`, `m02 = -m20 = 0.8`), identity projection, pixel (0.75, 0.5): the direction does not project back to the pixel | divide by `projection.m22`, the projection's depth entry | not executed | Projection.AsWrittenDepthMisses | Projection.UnprojectRoundTrip |
| Scripts/SceneOrganizer.cs:201-202 | the fallback passes the object's world position as the ray direction from the head | head at (1, 0, 0), object at (0, 1, 0): the ray never reaches the object | "Cast a ray from the user's head to the current position of the object": direction = object position minus head position | not executed | Projection.AsWrittenFallbackMisses | Projection.FallbackRayThroughTarget |

# Sign-language assistant: chatbot intent engine and recogniser bookkeeping

This project models two parts of a sign-language recognition assistant in Dafny.

The first part is the web front end's chatbot, `findResponse`. It:
- lower-cases and trims the message;
- scans twelve weighted keyword patterns, matching whole words only;
- falls back to the response key whose name is most similar to the message (by normalised Levenshtein distance) when the similarity exceeds 0.4;
- returns a fixed fallback text when neither stage applies.

The model includes the rolling-array edit distance, the similarity ratio, the follow-up suggestions, and a fixed random pick.

The second part is the back end's bookkeeping around its three recognisers:
- the number model's landmark normalisation and the label it reports;
- the alphabet model's safe crop;
- the word model's sliding window, frame counter and confidence gate;
- the camera's insert-once model cache and its last-prediction status.

The machine-learning libraries, the video device and the image processing are not modelled. Their results are inputs to the model.

Modules, one per file:
- `Wrappers` (`wrappers.dfy`): `Option`.
- `Numbers` (`numbers.dfy`): `Min` and `Max` of naturals.
- `TextNorm` (`text.dfy`): `toLowerCase().trim()`.
- `Levenshtein` (`levenshtein.dfy`): the edit distance, defined recursively and computed with a rolling array.
- `TextSimilarity` (`similarity.dfy`): `calculateSimilarity`.
- `Intents` (`intents.dfy`): the pattern table, whole-word matching, both selection stages, `findResponse` and the suggestions.
- `Scenarios` (`scenarios.dfy`): concrete messages and the responses they get.
- `Landmarks` (`landmarks.dfy`): `pre_process_landmark`, the number model's label and the alphabet crop.
- `WordModels` (`word_model.dfy`): `WordModel.predict`.
- `Cameras` (`camera.dfy`): `Camera.set_model`, `get_frame` and `get_status`.

Assumptions the model makes:
- A string is a sequence of Dafny characters, which are Unicode scalar values. For text inside the Basic Multilingual Plane one character is one UTF-16 code unit, as JavaScript's `charAt` and `length` see it. Characters outside it differ; see "## Left out".
- Lower-casing covers ASCII letters only.
- Trimming removes exactly the ECMAScript WhiteSpace and LineTerminator characters.
- Pattern weights are the source's weights multiplied by 100, as naturals.
- Similarities and landmark ratios are exact `real` values.
- `Math.random()` is a parameter `rand` in [0, 1). The chosen index is `Floor(rand * n)`.
- Response texts are opaque. A response is `Variant(key, index)` or `Fallback`.

## Model

| member | source | states |
|---|---|---|
| TextNorm.LowerSpec | dupu/frontend/src/components/Chatbot.jsx:6-7 | lower-casing maps each character on its own, leaves no upper-case letter, and changes nothing in a string that has none |
| TextNorm.TrimSpec | dupu/frontend/src/components/Chatbot.jsx:6-7 | `trim()` returns the slice left after dropping whitespace on both ends; everything dropped is whitespace, and the slice neither starts nor ends with whitespace |
| TextNorm.TrimOfTrimmed | dupu/frontend/src/components/Chatbot.jsx:6-7 | trimming a string with non-whitespace ends changes nothing |
| TextNorm.NormalizeIdempotent | dupu/frontend/src/components/Chatbot.jsx:151 | normalising twice is normalising once, so the similarity stage re-normalising the already normalised message is harmless |
| Levenshtein.LevenshteinDistance | dupu/frontend/src/components/Chatbot.jsx:20-39 | the rolling-array computation returns exactly the recursive edit distance |
| Levenshtein.FillRow | dupu/frontend/src/components/Chatbot.jsx:23-36 | one pass of the inner loop turns row l1-1 of the distance table into row l1 |
| Levenshtein.CellInner | dupu/frontend/src/components/Chatbot.jsx:28-33 | the table recurrence the inner loop applies: equal characters copy the diagonal, otherwise one plus the least of the three neighbours |
| Levenshtein.CellBorder | dupu/frontend/src/components/Chatbot.jsx:23-26 | the first row and the first column of the table are the prefix lengths |
| Levenshtein.DistanceToEmpty | dupu/frontend/src/components/Chatbot.jsx:20-39 | the distance to the empty string is the other string's length |
| Levenshtein.DistanceBounds | dupu/frontend/src/components/Chatbot.jsx:20-39 | the distance lies between the difference of the lengths and the longer length |
| Levenshtein.DistanceZeroIff | dupu/frontend/src/components/Chatbot.jsx:20-39 | the distance is 0 exactly when the strings are equal |
| Levenshtein.DistanceSymmetric | dupu/frontend/src/components/Chatbot.jsx:20-39 | the distance does not depend on the order of the strings |
| TextSimilarity.CalculateSimilarity | dupu/frontend/src/components/Chatbot.jsx:5-18 | the method computes the similarity function, using the rolling-array distance |
| TextSimilarity.RatioValue | dupu/frontend/src/components/Chatbot.jsx:11-17 | for different strings the score is (L - d) / L, with L the longer length; on a tie the first string counts as the shorter, which symmetry makes immaterial |
| TextSimilarity.SimilarityValue | dupu/frontend/src/components/Chatbot.jsx:5-17 | the score equals (L - d) / L of the normalised strings when they differ; it lies in [0, 1] and is 1 exactly when the normalised strings are equal |
| TextSimilarity.SimilaritySymmetric | dupu/frontend/src/components/Chatbot.jsx:5-17 | the score does not depend on the order of the two arguments |
| Intents.MatchesFromSpec | dupu/frontend/src/components/Chatbot.jsx:172 | the character-by-character comparison holds exactly when the slice of the message equals the rest of the alternative |
| Intents.WholeWordAtIsRegexMatch | dupu/frontend/src/components/Chatbot.jsx:154-165 | for an alternative that starts and ends with a word character, a whole-word occurrence is exactly a match of `\bw\b` |
| Intents.WholeWordFromSpec | dupu/frontend/src/components/Chatbot.jsx:172 | the scan finds a whole-word occurrence exactly when one exists at or after the start position |
| Intents.AnyAlternativeFromSpec | dupu/frontend/src/components/Chatbot.jsx:172 | the scan over alternatives succeeds exactly when some alternative occurs as a whole word |
| Intents.FiresIsRegexTest | dupu/frontend/src/components/Chatbot.jsx:172 | a pattern whose alternatives are word-like fires exactly when its regular expression `test` holds |
| Intents.PatternsWordLike | dupu/frontend/src/components/Chatbot.jsx:154-165 | every alternative in the table starts and ends with a word character |
| Intents.PatternIsRegex | dupu/frontend/src/components/Chatbot.jsx:154-172 | every pattern of the table fires exactly when its regular expression matches |
| Intents.OneWordFires | dupu/frontend/src/components/Chatbot.jsx:172 | on a message that is one word, a pattern fires exactly when the message is one of its alternatives |
| Intents.BestPatternUnique | dupu/frontend/src/components/Chatbot.jsx:168-178 | at most one pattern is the best one (it fires, has strictly the greatest weight among firing patterns, and is the earliest on a tie) |
| Intents.MatchPattern | dupu/frontend/src/components/Chatbot.jsx:168-178 | the scan over all twelve patterns yields none exactly when no pattern fires, and otherwise the best pattern |
| Intents.KeyScores | dupu/frontend/src/components/Chatbot.jsx:188-189 | one similarity per key, in the order the keys are declared |
| Intents.ScanDone | dupu/frontend/src/components/Chatbot.jsx:185-194 | a completed scan holds none exactly when no score exceeds the threshold, and otherwise the first index of the greatest score above it |
| Intents.ClosestKeyUnique | dupu/frontend/src/components/Chatbot.jsx:185-194 | the closest key above the threshold is unique |
| Intents.ScoreKey | dupu/frontend/src/components/Chatbot.jsx:189 | the computed similarity of the message to a key is that key's score |
| Intents.ClosestKey | dupu/frontend/src/components/Chatbot.jsx:185-194 | the scan over the keys yields none exactly when no key exceeds 0.4, and otherwise the earliest key of greatest similarity |
| Intents.PickIndex | dupu/frontend/src/components/Chatbot.jsx:182 | `Math.floor(Math.random() * n)` is an index in [0, n) |
| Intents.FindResponse | dupu/frontend/src/components/Chatbot.jsx:150-202 | the response is valid; if a pattern fires, it is a variant of the best pattern's key; otherwise it is a variant of the closest key above 0.4; it is the fixed fallback exactly when neither stage applies |
| Intents.ContextualSuggestions | dupu/frontend/src/components/Chatbot.jsx:223-233 | always four suggestions; with the camera on and a non-empty model name, they are the accuracy prompt, the "About" prefix followed by the model name and " model", the pro-tips prompt and the switch-models prompt, in that order; otherwise the fixed onboarding list |
| Scenarios.HelpIsAUseCase | dupu/frontend/src/components/Chatbot.jsx:156-178 | "help" is already normalised; of all patterns exactly the use-case and troubleshooting ones fire on it, and the heavier use-case pattern is the best |
| Scenarios.ModelsIsAModelsQuestion | dupu/frontend/src/components/Chatbot.jsx:158-178 | "models" is already normalised; of all patterns exactly the models pattern fires on it, and it is the best |
| Scenarios.UseCaseAndTroubleshootFire | dupu/frontend/src/components/Chatbot.jsx:154-165 | of the twelve patterns, exactly the use-case and the troubleshooting pattern fire on "help" |
| Scenarios.OnlyModelsFires | dupu/frontend/src/components/Chatbot.jsx:154-165 | of the twelve patterns, exactly the models pattern fires on "models" |
| Scenarios.ModelsIsOneWholeWord | dupu/frontend/src/components/Chatbot.jsx:158 | "model" is no whole word of "models", and "models" is one, so the models pattern fires through its "models" alternative |
| Scenarios.TieGoesToTheEarlierPattern | dupu/frontend/src/components/Chatbot.jsx:155-178 | "about models" fires both 0.95 patterns, and the earlier one, about, is kept |
| Scenarios.NoPatternForTips | dupu/frontend/src/components/Chatbot.jsx:154-165 | "tips" fires no pattern, since "tip" is not a whole word of it |
| Scenarios.NoPatternForAccuracy | dupu/frontend/src/components/Chatbot.jsx:154-165 | "accuracy" fires no pattern, since "accu" is not a whole word of it |
| Scenarios.NameNormal | dupu/frontend/src/components/Chatbot.jsx:98-148 | every key's text is already lower-case and trimmed |
| Scenarios.KeyTextIsClosest | dupu/frontend/src/components/Chatbot.jsx:185-194 | a message equal to a key's text scores 1 against that key and less against every other, so that key is the closest |
| Scenarios.BlankMessage | dupu/frontend/src/components/Chatbot.jsx:150-201 | a message that is blank after trimming fires no pattern and is close to no key |
| Scenarios.ReplyByPattern | dupu/frontend/src/components/Chatbot.jsx:180-183 | a message whose best pattern is b is answered from b's key |
| Scenarios.ReplyToKeyText | dupu/frontend/src/components/Chatbot.jsx:185-199 | a message that fires no pattern and normalises to a key's text (for example "tips") is answered from that key |
| Scenarios.ReplyToBlank | dupu/frontend/src/components/Chatbot.jsx:201 | a blank message gets the fixed fallback |
| Landmarks.FlattenSpec | dupu/backend/model_utils.py:77 | flattening gives two values per point, x before y |
| Landmarks.MaxAbsSpec | dupu/backend/model_utils.py:78 | the maximum bounds every absolute value and is attained by one of them |
| Landmarks.PreProcessLandmark | dupu/backend/model_utils.py:69-82 | the in-place translation loop followed by flattening and normalising computes the normalisation function; there is no result for an empty list, on which `max` raises; the input is a value and is not changed |
| Landmarks.PreProcessedShape | dupu/backend/model_utils.py:72-81 | n points give 2n values in the order x0, y0, x1, y1, ...; each is the coordinate relative to point 0 divided by the largest magnitude (0 when that is 0); the first two values are 0 |
| Landmarks.PreProcessedRange | dupu/backend/model_utils.py:78-81 | every value lies in [-1, 1]; all are 0 exactly when every point equals point 0; otherwise some value is 1 or -1 |
| Landmarks.PreProcessedTranslation | dupu/backend/model_utils.py:71-76 | shifting every point by the same amount does not change the features |
| Landmarks.PreProcessedScale | dupu/backend/model_utils.py:75-81 | multiplying every coordinate by a positive whole factor does not change the features |
| Landmarks.NumberLabel | dupu/backend/model_utils.py:84-126 | without a classifier the label is "Error"; with one it is "Error" only if the last hand's prediction was "Error", and it is empty exactly when no hand is seen or the last hand's label is empty |
| Landmarks.NumberPredict | dupu/backend/model_utils.py:85-126 | the loop over the hands, where each hand overwrites the label and a raising classifier gives "?", reports the specified label |
| Landmarks.CropBounds | dupu/backend/model_utils.py:152-155 | 0 <= y1, y2 <= height, 0 <= x1 and x2 <= width; the crop selects exactly those pixels of the box widened by 20 on every side that lie in the image |
| Landmarks.CropEmptyIff | dupu/backend/model_utils.py:152-159 | the crop is non-empty exactly when the widened box and the image share a pixel |
| WordModels.Window | dupu/backend/model_utils.py:231 | the window keeps min(n, 30) frames |
| WordModels.WindowIsSuffix | dupu/backend/model_utils.py:231 | the window is the suffix of that length |
| WordModels.WindowSlide | dupu/backend/model_utils.py:230-231 | appending a frame grows the window until it holds 30 frames and then drops the oldest; the new frame is always last |
| WordModels.ArgMaxIsFirstMax | dupu/backend/model_utils.py:240 | `np.argmax` returns the first index of the largest value |
| WordModels.FirstMaxUnique | dupu/backend/model_utils.py:240 | that index is unique |
| WordModels.InferenceSchedule | dupu/backend/model_utils.py:234-238 | while the window holds one frame per frame seen, the network runs exactly on frames 30, 35, 40, ... |
| WordModels.WordModel.constructor | dupu/backend/model_utils.py:189-204 | empty window, counter 0, empty label, confidence 0.0 |
| WordModels.WordModel.Predict | dupu/backend/model_utils.py:212-256 | the new frame is appended and the window is capped at 30; the counter grows by exactly 1; the label and confidence change only when the counter is a multiple of 5, the window is full, the best score exceeds 0.7 and indexes an action, and then become that action and score; the result is the remembered label, or none when `np.argmax` raises on an empty output; the invariant holds that the label is empty or a known action |
| WordModels.WordModel.Infer | dupu/backend/model_utils.py:239-249 | the gated update of the label and confidence |
| WordModels.WarmUp | dupu/backend/model_utils.py:234-256 | a fresh model shows the empty label on each of its first 29 frames |
| Cameras.Loaded | dupu/backend/camera.py:30-43 | set_model adds an entry exactly when the type is known and not cached, storing the constructor's outcome (none when it raised); existing entries never change |
| Cameras.LoadedTwice | dupu/backend/camera.py:30-45 | a second set_model of the same type reuses the cached entry and ignores the second construction |
| Cameras.UnknownType | dupu/backend/camera.py:30-45 | an unknown type adds no entry and resolves to no recogniser |
| Cameras.ConstructedAtMostOnce | dupu/backend/camera.py:30-40 | over any series of set_model calls each type is constructed at most once, and never when it is already cached or unknown |
| Cameras.ReplayKeeps | dupu/backend/camera.py:30 | a cached entry survives any series of later calls |
| Cameras.FailedLoadIsFinal | dupu/backend/camera.py:41-45 | a constructor that raised is cached as none and never retried; the type keeps resolving to no recogniser |
| Cameras.Camera.constructor | dupu/backend/camera.py:5-12 | empty cache, no model type, no current model, empty last prediction |
| Cameras.Camera.SetModel | dupu/backend/camera.py:26-45 | always records the type; the cache becomes the loaded cache; the current model is `models.get(type)`; the invariant (only known types cached, current model matches the selected type) holds |
| Cameras.Camera.GetFrame | dupu/backend/camera.py:47-68 | an unavailable camera gives no frame and "Camera Error"; a failed read gives no frame and ""; in both cases the last prediction is unchanged; otherwise a frame and the current model's prediction ("" without a model or when predict raised), which becomes the last prediction |
| Cameras.Camera.GetStatus | dupu/backend/camera.py:70-71 | returns the last prediction |
| Cameras.StatusAfterFrame | dupu/backend/camera.py:47-71 | after a successfully read frame the status is that frame's prediction; otherwise it is what it was before |
| Cameras.SelectUntrainedNumberModel | dupu/backend/camera.py:26-71 | a fresh camera with the number model selected and a recogniser without a trained classifier: for any series of successfully read frames, whatever hands each shows, every frame reports "Error", and so does the status afterwards |

## Left out

- The React user interface is not modelled. This covers rendering, the `setTimeout` delays, the message log, the question counter, and the handlers `handleSendMessage`, `handleQuickQuestion` and `clearHistory`. These are UI state, not intent logic.
- Speech recognition and synthesis are not modelled. They are browser APIs.
- Emoji stripping in `handleQuickQuestion` (`Chatbot.jsx:266-267`) is not modelled. It is a regular expression over UTF-16 surrogates, and it runs before `findResponse` is called.
- TextNorm: a character outside the Basic Multilingual Plane (an emoji such as U+1F600) is one character in the model but two UTF-16 code units in JavaScript. For messages holding such characters, the lengths, Levenshtein distances and similarities of the model differ from JavaScript's. For example, "tips" followed by three U+1F600 is 4/7 similar to "tips" here, but 4/10 = 0.4 in JavaScript, which is not above the threshold.
- Cameras: calls are modelled as sequential. The Flask server is threaded, so two overlapping `set_model` calls for the same type can both pass the cache test and both construct a recogniser, and a `get_frame` can interleave with `set_model`. ConstructedAtMostOnce and the cache lemmas hold for sequential calls only.
- `App.jsx`, `app.py`, `ControlPanel.jsx`, `PredictionHistory.jsx` and `VideoFeed.jsx` are not part of this model. They hold HTTP calls, polling, Flask routes, the MJPEG stream and presentation only.
- Full Unicode `toLowerCase` is not modelled. Only ASCII letters are lower-cased; other characters are kept. Trimming uses the exact ECMAScript whitespace set.
- The response texts and the fallback text are not modelled. They are opaque: a response is a key and a variant index.
- The `system` template text is left out for the same reason.
- LevenshteinDistance: JavaScript grows `costs` on demand. The model pre-allocates an array of |s2| + 1 entries. Every entry is written before it is read, so the values agree.
- The machine-learning and vision libraries are not modelled. These are mediapipe hand tracking, the KNN and Keras classifiers, cvzone, and the OpenCV drawing, flipping, colour conversion, resizing and JPEG encoding. Their outcomes are parameters:
  - the per-hand KNN outcome;
  - the network output vector;
  - a recogniser constructor's result;
  - the frame read;
  - a recogniser's prediction.
- `calc_landmark_list` (floating-point pixel scaling) is not modelled. Landmarks are given as integer pixels.
- The alphabet model's resize gaps (`math.ceil(k*w)` and the white canvas) are not modelled. They are floating-point image arithmetic.
- Landmarks.PreProcessed: Python divides in floating point. The model divides exactly over `real`. When the maximum is 0 the source yields the integer 0, which the model writes as 0.0.
- Landmarks.CropBounds: the model states the bounds as integers. A box lying entirely more than 20 pixels above or left of the image would give a negative end bound, which a numpy slice counts from the other end. That case is not modelled.
- WordModels.WordModel.Predict: the keypoint extraction (126 zero-padded coordinates for up to two hands) and the drawing are not modelled. The keypoints are an input. Confidence values are exact reals rather than float32.
- WordModels.WordModel: `actions` is a constructor argument. Listing and sorting the dataset folder (or falling back to an empty list) is I/O and is not modelled.
- Cameras.Camera: the video device is not modelled. `ensure_camera_open` and `release` are reduced to the `deviceOpen` parameter of `GetFrame`, and the encoded JPEG is reduced to whether a frame is returned.
- Cameras.Camera: the Python truthiness test on the current model is modelled as "a recogniser is present". Recogniser objects are always truthy.
- Console output (`print`) is not modelled.

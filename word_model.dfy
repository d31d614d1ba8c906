/**
 * The frame bookkeeping of the word model (`WordModel.predict`): a sliding
 * window of the last 30 keypoint vectors, a frame counter that runs the
 * network on every fifth frame once the window is full, and a remembered
 * label that changes only on a confident prediction of a known action.
 * The keypoint extraction and the network are outside the model: the
 * keypoints of the frame and the network's output vector are inputs.
 */
module WordModels {
  import opened Wrappers
  import opened Numbers

  /** `sequence_length`: the number of frames the network looks at. */
  const SequenceLength: nat := 30

  /** `threshold`: the confidence a prediction must exceed to be shown. */
  const Threshold: real := 0.7

  /** The network runs on every `InferencePeriod`-th frame. */
  const InferencePeriod: nat := 5

  /** The 126 keypoint coordinates of one frame. */
  type Keypoints = seq<real>

  /** `sequence[-sequence_length:]`: the most recent frames, at most
      `SequenceLength` of them. */
  function Window(frames: seq<Keypoints>): (w: seq<Keypoints>)
    ensures |w| == Min(|frames|, SequenceLength)
  {
    if |frames| <= SequenceLength then frames else frames[|frames| - SequenceLength..]
  }

  /** The window is the suffix of that length. */
  lemma WindowIsSuffix(frames: seq<Keypoints>)
    ensures Window(frames) == frames[|frames| - |Window(frames)|..]
  {
  }

  /** Appending a frame to a window grows it until it is full and then drops
      the oldest frame; the new frame is always the last one. */
  lemma WindowSlide(window: seq<Keypoints>, keypoints: Keypoints)
    requires |window| <= SequenceLength
    ensures Window(window + [keypoints]) ==
      (if |window| < SequenceLength then window + [keypoints] else window[1..] + [keypoints])
    ensures var w := Window(window + [keypoints]);
      |w| == Min(|window| + 1, SequenceLength) && w[|w| - 1] == keypoints
  {
    if |window| == SequenceLength {
      assert (window + [keypoints])[1..] == window[1..] + [keypoints];
    }
  }

  /** `np.argmax`: the first index holding the largest value. */
  function ArgMax(res: seq<real>): (i: nat)
    requires |res| > 0
    ensures i < |res|
    decreases |res|
  {
    if |res| == 1 then 0
    else
      var k := ArgMax(res[..|res| - 1]);
      if res[|res| - 1] > res[k] then |res| - 1 else k
  }

  /** `i` holds the largest value of `res`, and no earlier index does. */
  predicate IsFirstMax(res: seq<real>, i: int) {
    0 <= i < |res|
    && (forall j :: 0 <= j < |res| ==> res[j] <= res[i])
    && (forall j :: 0 <= j < i ==> res[j] < res[i])
  }

  lemma {:induction false} ArgMaxIsFirstMax(res: seq<real>)
    requires |res| > 0
    ensures IsFirstMax(res, ArgMax(res))
    decreases |res|
  {
    if |res| > 1 {
      var init := res[..|res| - 1];
      ArgMaxIsFirstMax(init);
      assert forall j :: 0 <= j < |init| ==> res[j] == init[j];
    }
  }

  /** The first maximum is unique, so it is what `np.argmax` returns. */
  lemma FirstMaxUnique(res: seq<real>, i: int)
    requires IsFirstMax(res, i)
    ensures i == ArgMax(res)
  {
    ArgMaxIsFirstMax(res);
  }

  /** The network runs on this frame: the counter is a multiple of the
      period and the window is full. */
  predicate InferenceRuns(frameCounter: nat, window: seq<Keypoints>) {
    frameCounter % InferencePeriod == 0 && |window| == SequenceLength
  }

  /** The network's output leads to a new label: its best score exceeds the
      threshold and its index names one of the actions. (`np.argmax` raises
      on an empty output, so an empty output never does.) */
  predicate Accepts(res: seq<real>, actions: seq<string>) {
    |res| > 0 && res[ArgMax(res)] > Threshold && ArgMax(res) < |actions|
  }

  /** While the window holds one frame per frame seen (as it does from the
      start), the network runs on frames 30, 35, 40, ... and on no other. */
  lemma InferenceSchedule(frameCounter: nat, window: seq<Keypoints>)
    requires |window| == Min(frameCounter, SequenceLength)
    ensures InferenceRuns(frameCounter, window) <==>
      frameCounter >= SequenceLength && frameCounter % InferencePeriod == 0
  {
  }

  /** A word-sign recogniser. `actions` is the list of known words (the
      sorted dataset folder names, or empty when the folder is missing). */
  class WordModel {
    const actions: seq<string>
    var sequence: seq<Keypoints>
    var frameCounter: nat
    var lastLabel: string
    var lastConfidence: real

    /** The window holds one frame per frame seen, up to its capacity; the
        remembered label is either the initial empty one, or a known action
        that was predicted with a confidence above the threshold. */
    predicate Valid()
      reads this
    {
      |sequence| == Min(frameCounter, SequenceLength) && LabelValid()
    }

    predicate LabelValid()
      reads this
    {
      (lastLabel == "" && lastConfidence == 0.0)
      || (lastLabel in actions && lastConfidence > Threshold)
    }

    constructor (actions: seq<string>)
      ensures Valid()
      ensures this.actions == actions && sequence == [] && frameCounter == 0
      ensures lastLabel == "" && lastConfidence == 0.0
    {
      this.actions := actions;
      sequence := [];
      frameCounter := 0;
      lastLabel := "";
      lastConfidence := 0.0;
    }

    /** `predict` on one frame with keypoints `keypoints`; `res` is what the
        network outputs for the updated window, read only on the frames the
        network runs on. The result is the label shown, or `None` when
        `np.argmax` raises on an empty output. */
    method Predict(keypoints: Keypoints, res: seq<real>) returns (r: Option<string>)
      requires Valid()
      modifies this
      ensures Valid()
      ensures sequence == Window(old(sequence) + [keypoints])
      ensures frameCounter == old(frameCounter) + 1
      ensures InferenceRuns(frameCounter, sequence) && Accepts(res, actions) ==>
        lastLabel == actions[ArgMax(res)] && lastConfidence == res[ArgMax(res)]
      ensures !(InferenceRuns(frameCounter, sequence) && Accepts(res, actions)) ==>
        lastLabel == old(lastLabel) && lastConfidence == old(lastConfidence)
      ensures r == if InferenceRuns(frameCounter, sequence) && res == [] then None else Some(lastLabel)
    {
      WindowSlide(sequence, keypoints);
      sequence := Window(sequence + [keypoints]);
      frameCounter := frameCounter + 1;
      if frameCounter % InferencePeriod == 0 && |sequence| == SequenceLength {
        var raised := Infer(res);
        if raised {
          return None;
        }
      }
      r := Some(lastLabel);
    }

    /** The inference step of `predict`: the best-scoring action becomes the
        label when its score exceeds the threshold. `raised` reports that
        `np.argmax` raised on an empty output. */
    method Infer(res: seq<real>) returns (raised: bool)
      requires LabelValid()
      modifies this`lastLabel, this`lastConfidence
      ensures LabelValid()
      ensures raised <==> res == []
      ensures Accepts(res, actions) ==> lastLabel == actions[ArgMax(res)] && lastConfidence == res[ArgMax(res)]
      ensures !Accepts(res, actions) ==> lastLabel == old(lastLabel) && lastConfidence == old(lastConfidence)
    {
      if res == [] {
        return true;
      }
      var bestIdx := ArgMax(res);
      var confidence := res[bestIdx];
      if confidence > Threshold && |actions| > bestIdx {
        lastLabel, lastConfidence := actions[bestIdx], confidence;
      }
      return false;
    }
  }

  /** During the first 29 frames the network never runs, so a fresh model
      shows the empty label. */
  method WarmUp(actions: seq<string>, frames: seq<Keypoints>, outputs: seq<seq<real>>)
    returns (labels: seq<Option<string>>)
    requires |outputs| == |frames| < SequenceLength
    ensures |labels| == |frames| && forall i :: 0 <= i < |labels| ==> labels[i] == Some("")
  {
    var model := new WordModel(actions);
    labels := [];
    var i := 0;
    while i < |frames|
      invariant 0 <= i <= |frames|
      invariant model.Valid() && model.frameCounter == i
      invariant model.lastLabel == "" && model.lastConfidence == 0.0
      invariant |labels| == i && forall j :: 0 <= j < i ==> labels[j] == Some("")
    {
      var r := model.Predict(frames[i], outputs[i]);
      labels := labels + [r];
      i := i + 1;
    }
  }
}

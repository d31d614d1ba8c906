/**
 * The camera's model cache and status bookkeeping (`Camera` in the backend).
 * The recognisers themselves are opaque values of a type `M`; whether a
 * recogniser's constructor raised, whether the video device is open, whether
 * a frame could be read and what a recogniser predicts on it are inputs.
 */
module Cameras {
  import opened Wrappers
  import Landmarks

  /** The cache: a recogniser per model type, `None` for one whose
      constructor raised. */
  type Cache<M> = map<string, Option<M>>

  /** The model types `set_model` knows how to construct. */
  predicate IsKnownType(t: string) {
    t == "number" || t == "alphabet" || t == "word"
  }

  /** `models.get(t)`. */
  function ModelFor<M>(models: Cache<M>, t: string): Option<M> {
    if t in models then models[t] else None
  }

  /** `set_model(t)` constructs a recogniser exactly when the type is known
      and not cached yet. */
  predicate Constructs<M>(models: Cache<M>, t: string) {
    t !in models && IsKnownType(t)
  }

  /** The cache after `set_model(t)`, where `built` is what constructing the
      recogniser gave (`None` when the constructor raised). Entries already
      cached never change, only a known type is ever added, and `built` is
      stored exactly when a construction takes place. */
  function Loaded<M>(models: Cache<M>, t: string, built: Option<M>): (r: Cache<M>)
    ensures r.Keys == if Constructs(models, t) then models.Keys + {t} else models.Keys
    ensures forall k :: k in models ==> r[k] == models[k]
    ensures Constructs(models, t) ==> r[t] == built
  {
    if Constructs(models, t) then models[t := built] else models
  }

  /** A second `set_model` of the same type reuses the cached entry: whatever
      the second construction would give is ignored, and the type resolves to
      the first outcome. */
  lemma LoadedTwice<M>(models: Cache<M>, t: string, first: Option<M>, second: Option<M>)
    ensures Loaded(Loaded(models, t, first), t, second) == Loaded(models, t, first)
    ensures Constructs(models, t) ==> ModelFor(Loaded(Loaded(models, t, first), t, second), t) == first
  {
  }

  /** An unknown type adds no entry and resolves to no recogniser. */
  lemma UnknownType<M>(models: Cache<M>, t: string, built: Option<M>)
    requires !IsKnownType(t) && forall k :: k in models ==> IsKnownType(k)
    ensures Loaded(models, t, built) == models
    ensures ModelFor(Loaded(models, t, built), t) == None
  {
  }

  /** The cache after a series of `set_model` calls, each with the outcome
      its construction would give. */
  function Replay<M>(models: Cache<M>, calls: seq<(string, Option<M>)>): Cache<M>
    decreases |calls|
  {
    if calls == [] then models else Replay(Loaded(models, calls[0].0, calls[0].1), calls[1..])
  }

  /** How many of the calls construct a recogniser of type `t`. */
  function Constructions<M>(models: Cache<M>, calls: seq<(string, Option<M>)>, t: string): nat
    decreases |calls|
  {
    if calls == [] then 0
    else
      (if calls[0].0 == t && Constructs(models, t) then 1 else 0)
      + Constructions(Loaded(models, calls[0].0, calls[0].1), calls[1..], t)
  }

  /** Each type is constructed at most once over any series of calls, never
      when it is already cached and never when it is unknown. */
  lemma {:induction false} ConstructedAtMostOnce<M>(models: Cache<M>, calls: seq<(string, Option<M>)>, t: string)
    ensures Constructions(models, calls, t) <= 1
    ensures t in models || !IsKnownType(t) ==> Constructions(models, calls, t) == 0
    decreases |calls|
  {
    if calls != [] {
      var next := Loaded(models, calls[0].0, calls[0].1);
      ConstructedAtMostOnce(next, calls[1..], t);
      if calls[0].0 == t && Constructs(models, t) {
        assert t in next;
      }
    }
  }

  /** A cached entry survives any series of later calls. */
  lemma {:induction false} ReplayKeeps<M>(models: Cache<M>, calls: seq<(string, Option<M>)>, t: string)
    requires t in models
    ensures t in Replay(models, calls) && Replay(models, calls)[t] == models[t]
    decreases |calls|
  {
    if calls != [] {
      ReplayKeeps(Loaded(models, calls[0].0, calls[0].1), calls[1..], t);
    }
  }

  /** A recogniser whose constructor raised is cached as `None` and never
      retried: whatever later calls happen, its type resolves to no
      recogniser. */
  lemma FailedLoadIsFinal<M>(models: Cache<M>, t: string, later: seq<(string, Option<M>)>)
    requires Constructs(models, t)
    ensures ModelFor(Replay(Loaded(models, t, None), later), t) == None
    ensures Constructions(Loaded(models, t, None), later, t) == 0
  {
    ReplayKeeps(Loaded(models, t, None), later, t);
    ConstructedAtMostOnce(Loaded(models, t, None), later, t);
  }

  /** The prediction of a successfully read frame: the current recogniser's,
      or empty when there is none or its `predict` raised. */
  function FramePrediction<M>(current: Option<M>, predicted: Option<string>): string {
    if current.Some? && predicted.Some? then predicted.value else ""
  }

  class Camera<M> {
    var models: Cache<M>
    var modelType: Option<string>
    var currentModel: Option<M>
    var lastPrediction: string

    /** Only known types are cached, and the current recogniser is the one
        cached for the selected type. */
    ghost predicate Valid()
      reads this
    {
      (forall t :: t in models ==> IsKnownType(t))
      && currentModel == (if modelType.Some? then ModelFor(models, modelType.value) else None)
    }

    constructor ()
      ensures Valid()
      ensures models == map[] && modelType == None && currentModel == None && lastPrediction == ""
    {
      models := map[];
      modelType := None;
      currentModel := None;
      lastPrediction := "";
    }

    /** `set_model(modelType)`; `built` is what constructing the recogniser
        would give, consulted only when a construction takes place. */
    method SetModel(modelType: string, built: Option<M>)
      requires Valid()
      modifies this`models, this`modelType, this`currentModel
      ensures Valid()
      ensures this.modelType == Some(modelType)
      ensures models == Loaded(old(models), modelType, built)
      ensures currentModel == ModelFor(models, modelType)
    {
      this.modelType := Some(modelType);
      if modelType !in models {
        if modelType == "number" {
          models := models["number" := built];
        } else if modelType == "alphabet" {
          models := models["alphabet" := built];
        } else if modelType == "word" {
          models := models["word" := built];
        }
      }
      currentModel := ModelFor(models, modelType);
    }

    /** `get_frame`: `deviceOpen` says whether the device is open once
        `ensure_camera_open` has run, `readOk` whether a frame was read, and
        `predicted` what the current recogniser's `predict` gives on it
        (`None` when it raised). `frame` says whether an encoded frame is
        returned. */
    method GetFrame(deviceOpen: bool, readOk: bool, predicted: Option<string>)
      returns (frame: bool, prediction: string)
      requires Valid()
      modifies this`lastPrediction
      ensures Valid()
      ensures !deviceOpen ==> !frame && prediction == "Camera Error" && lastPrediction == old(lastPrediction)
      ensures deviceOpen && !readOk ==> !frame && prediction == "" && lastPrediction == old(lastPrediction)
      ensures deviceOpen && readOk ==>
        frame && prediction == FramePrediction(currentModel, predicted) && lastPrediction == prediction
    {
      if !deviceOpen {
        return false, "Camera Error";
      }
      if !readOk {
        return false, "";
      }
      prediction := "";
      if currentModel.Some? {
        if predicted.Some? {
          prediction := predicted.value;
        }
      }
      lastPrediction := prediction;
      frame := true;
    }

    /** `get_status`: the prediction of the last frame read successfully. */
    method GetStatus() returns (status: string)
      ensures status == lastPrediction
    {
      status := lastPrediction;
    }
  }

  /** After a frame is read, the status is that frame's prediction; when the
      frame could not be read, the status is what it was before. */
  method StatusAfterFrame<M>(camera: Camera<M>, deviceOpen: bool, readOk: bool, predicted: Option<string>)
    returns (prediction: string, status: string)
    requires camera.Valid()
    modifies camera
    ensures deviceOpen && readOk ==> status == prediction
    ensures !(deviceOpen && readOk) ==> status == old(camera.lastPrediction)
  {
    var frame;
    frame, prediction := camera.GetFrame(deviceOpen, readOk, predicted);
    status := camera.GetStatus();
  }

  /** A fresh camera whose number recogniser has no trained classifier: once
      the number model is selected, every frame read reports "Error",
      whatever hands each frame shows. `frames` holds the hand outcomes of
      each frame read and `predictions` what each read returned. */
  method SelectUntrainedNumberModel<M>(recogniser: M, frames: seq<seq<Landmarks.KnnOutcome>>)
    returns (camera: Camera<M>, predictions: seq<string>)
    ensures camera.modelType == Some("number") && camera.currentModel == Some(recogniser)
    ensures |predictions| == |frames|
    ensures forall i :: 0 <= i < |predictions| ==> predictions[i] == "Error"
    ensures frames != [] ==> camera.lastPrediction == "Error"
  {
    camera := new Camera();
    camera.SetModel("number", Some(recogniser));
    predictions := [];
    for i := 0 to |frames|
      invariant camera.Valid() && fresh(camera)
      invariant camera.modelType == Some("number") && camera.currentModel == Some(recogniser)
      invariant |predictions| == i && forall j :: 0 <= j < i ==> predictions[j] == "Error"
      invariant i > 0 ==> camera.lastPrediction == "Error"
    {
      var reported := Landmarks.NumberPredict(false, frames[i]);
      var frame, prediction := camera.GetFrame(true, true, Some(reported));
      predictions := predictions + [prediction];
    }
  }
}

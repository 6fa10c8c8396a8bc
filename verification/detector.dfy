/**
 * The bookkeeping around the classifier (`ChigemotsuDetector`): the class
 * names, the label chosen for a model output, the failure returns of
 * `process_image` and the detection counters.
 */
module Detector {
  import opened Common

  /** The class names used when the configuration has none. */
  const DefaultClassNames: seq<string> := ["chige", "motsu", "other"]

  /** The label reported for an index outside the class-name list. */
  const UnknownLabel: string := "unknown"

  /** `config.get("model", {}).get("class_names", DefaultClassNames)`. */
  function ClassNamesFromConfig(configured: Option<seq<string>>): (names: seq<string>)
    ensures configured.None? ==> names == DefaultClassNames
    ensures configured.Some? ==> names == configured.value
  {
    match configured
    case None => DefaultClassNames
    case Some(names) => names
  }

  /** `np.argmax`: the first index holding a maximal score. */
  function ArgMax(scores: seq<real>): (k: nat)
    requires |scores| > 0
    ensures k < |scores|
    ensures forall i :: 0 <= i < |scores| ==> scores[i] <= scores[k]
    ensures forall i :: 0 <= i < k ==> scores[i] < scores[k]
  {
    if |scores| == 1 then 0
    else
      var k := ArgMax(scores[..|scores| - 1]);
      if scores[|scores| - 1] > scores[k] then |scores| - 1 else k
  }

  /** The class name for a predicted index, "unknown" when it is out of range. */
  function LabelFor(classNames: seq<string>, index: nat): (name: string)
    ensures index < |classNames| ==> name == classNames[index]
    ensures index >= |classNames| ==> name == UnknownLabel
  {
    if index >= |classNames| then UnknownLabel else classNames[index]
  }

  /** The result dictionary of `predict`; inference time and `is_cat` are left out. */
  datatype Prediction = Prediction(className: string, confidence: real, scores: seq<real>)

  /**
   * `predict` after the model has run: `output` is the post-processed
   * score row (`None` when the interpreter raised). The predicted class is
   * the first maximal score, the confidence is that score. An empty row
   * makes `np.argmax` raise, which `predict` turns into `None`.
   */
  function Predict(classNames: seq<string>, output: Option<seq<real>>): (r: Option<Prediction>)
    ensures r.Some? <==> output.Some? && output.value != []
    ensures r.Some? ==>
              exists k :: 0 <= k < |output.value| &&
                (forall i :: 0 <= i < |output.value| ==> output.value[i] <= output.value[k]) &&
                (forall i :: 0 <= i < k ==> output.value[i] < output.value[k]) &&
                r.value.confidence == output.value[k] &&
                r.value.className == LabelFor(classNames, k) &&
                r.value.scores == output.value
  {
    match output
    case None => None
    case Some(scores) =>
      if scores == [] then None
      else
        var k := ArgMax(scores);
        Some(Prediction(LabelFor(classNames, k), scores[k], scores))
  }

  /** The snapshot `get_stats` returns; the runtime and start time are left out. */
  datatype DetectionStats = DetectionStats(totalDetections: nat, chigeCount: nat, motsuCount: nat)

  /** `ChigemotsuDetector`: its class names and its `detection_stats` counters. */
  class ChigemotsuDetector {
    const classNames: seq<string>
    var totalDetections: nat
    var chigeCount: nat
    var motsuCount: nat

    /** Every chige or motsu detection is also counted in the total. */
    ghost predicate Valid()
      reads this
    {
      chigeCount + motsuCount <= totalDetections
    }

    /** `__init__` after the configuration is read: default class names, zero counters. */
    constructor (configuredClassNames: Option<seq<string>>)
      ensures Valid()
      ensures classNames == ClassNamesFromConfig(configuredClassNames)
      ensures totalDetections == 0 && chigeCount == 0 && motsuCount == 0
    {
      classNames := ClassNamesFromConfig(configuredClassNames);
      totalDetections, chigeCount, motsuCount := 0, 0, 0;
    }

    /**
     * `process_image`: `None` (the source returns False) when the file is
     * missing, when preprocessing fails, or when prediction fails.
     */
    function ProcessImage(fileExists: bool, preprocessed: bool, output: Option<seq<real>>): (r: Option<Prediction>)
      reads this
      ensures !fileExists || !preprocessed ==> r.None?
      ensures fileExists && preprocessed ==> r == Predict(classNames, output)
    {
      if !fileExists then None
      else if !preprocessed then None
      else Predict(classNames, output)
    }

    /** `_update_stats`: one more detection, and one more chige or motsu for those classes. */
    method UpdateStats(className: string)
      requires Valid()
      modifies this
      ensures Valid()
      ensures totalDetections == old(totalDetections) + 1
      ensures chigeCount == old(chigeCount) + (if className == "chige" then 1 else 0)
      ensures motsuCount == old(motsuCount) + (if className == "motsu" then 1 else 0)
    {
      totalDetections := totalDetections + 1;
      if className == "chige" {
        chigeCount := chigeCount + 1;
      } else if className == "motsu" {
        motsuCount := motsuCount + 1;
      }
    }

    /** `get_stats`: the counters, whose chige and motsu parts never exceed the total. */
    function GetStats(): (s: DetectionStats)
      requires Valid()
      reads this
      ensures s.chigeCount + s.motsuCount <= s.totalDetections
      ensures s == DetectionStats(totalDetections, chigeCount, motsuCount)
    {
      DetectionStats(totalDetections, chigeCount, motsuCount)
    }
  }
}

/**
 * `ChigemotsuPipeline`: the decision procedure that runs on every motion
 * image (detect, compare with the threshold, check the switch and the
 * recent-notification guard, notify the two cats, record the detection)
 * with its three counters, and the choice of system notification text.
 * The detector, the LINE notifier and the recent-notification query are
 * inputs: their answers are parameters.
 */
module Pipeline {
  import opened Common
  import opened DetectionStore
  import opened Detector

  /** The `model.threshold` used when the configuration has none. */
  const DefaultThreshold: real := 0.75

  /** The window of the recent-notification guard, in minutes. */
  const SuppressionMinutes: int := 5

  /** The configuration values the pipeline reads. */
  datatype PipelineConfig = PipelineConfig(threshold: Option<real>, notificationEnabled: Option<bool>)

  function ThresholdOf(config: PipelineConfig): real {
    match config.threshold
    case Some(t) => t
    case None => DefaultThreshold
  }

  function NotificationEnabledOf(config: PipelineConfig): bool {
    match config.notificationEnabled
    case Some(b) => b
    case None => true
  }

  /** The classes a LINE notification is sent for. */
  predicate IsCat(className: string) {
    className == "chige" || className == "motsu"
  }

  /**
   * How one image ends: whether a detection row was stored (the call then
   * returns True), whether the notifier was called, and whether it
   * reported success (which bumps `notification_sent`).
   */
  datatype Outcome = Outcome(recorded: bool, notifierCalled: bool, notified: bool)

  /**
   * The branches of `process_motion_image` once the counters are bumped.
   * `detection` is the detector's answer (`None` when it failed),
   * `recentNotified` the answer of `get_recent_notification` (`None` when
   * that call raised), `sendSucceeds` the notifier's answer and
   * `storeSucceeds` whether `add_detection` returned rather than raised.
   */
  function Decide(threshold: real, notificationEnabled: bool, detection: Option<Prediction>,
                  recentNotified: Option<bool>, sendSucceeds: bool, storeSucceeds: bool): (outcome: Outcome)
    ensures outcome.recorded <==>
              detection.Some? && storeSucceeds &&
              !(detection.value.confidence >= threshold && notificationEnabled && recentNotified.None?)
    ensures outcome.notifierCalled <==>
              detection.Some? && detection.value.confidence >= threshold && notificationEnabled &&
              recentNotified == Some(false) && IsCat(detection.value.className)
    ensures outcome.notified <==> outcome.notifierCalled && sendSucceeds
  {
    match detection
    case None => Outcome(false, false, false)
    case Some(d) =>
      if d.confidence < threshold then Outcome(storeSucceeds, false, false)
      else if !notificationEnabled then Outcome(storeSucceeds, false, false)
      else match recentNotified
        case None => Outcome(false, false, false)
        case Some(true) => Outcome(storeSucceeds, false, false)
        case Some(false) =>
          if IsCat(d.className) then Outcome(storeSucceeds, true, sendSucceeds)
          else Outcome(storeSucceeds, false, false)
  }

  /** Below the threshold nothing is sent and the row is stored unflagged, whatever else holds. */
  lemma LowConfidenceRecordedSilently(threshold: real, enabled: bool, d: Prediction,
                                      recent: Option<bool>, sendSucceeds: bool)
    requires d.confidence < threshold
    ensures Decide(threshold, enabled, Some(d), recent, sendSucceeds, true) == Outcome(true, false, false)
  {
  }

  /** A recent notification for the class suppresses the send; the row is still stored. */
  lemma RecentNotificationSuppresses(threshold: real, enabled: bool, d: Prediction, sendSucceeds: bool)
    ensures !Decide(threshold, enabled, Some(d), Some(true), sendSucceeds, true).notifierCalled
    ensures Decide(threshold, enabled, Some(d), Some(true), sendSucceeds, true).recorded
  {
  }

  /**
   * A storage failure after a successful send: the notification went out
   * and is counted, but the call returns False and no row records it, so
   * a later guard over the table cannot see it.
   */
  lemma StorageFailureAfterSend(threshold: real, d: Prediction)
    requires d.confidence >= threshold && IsCat(d.className)
    ensures Decide(threshold, true, Some(d), Some(false), true, false) == Outcome(false, true, true)
  {
  }

  /**
   * As written, the recent-notification query raises (the store defines no
   * such method), so every confident detection with notifications on ends
   * with nothing recorded and nothing sent.
   */
  lemma QueryFailureLosesConfidentDetections(threshold: real, enabled: bool, d: Prediction,
                                             sendSucceeds: bool, storeSucceeds: bool)
    requires d.confidence >= threshold && enabled
    ensures Decide(threshold, enabled, Some(d), None, sendSucceeds, storeSucceeds) == Outcome(false, false, false)
  {
  }

  /** The input that shows it: a "chige" at 0.9 under the default threshold is lost. */
  lemma ConfidentChigeLostAsWritten()
    ensures Decide(DefaultThreshold, true, Some(Prediction("chige", 0.9, [0.9, 0.1])), None, true, true) ==
              Outcome(false, false, false)
  {
  }

  /** The system notifications `send_system_notification` can send. */
  datatype SystemMessage =
    | CustomMessage(text: string)
    | StartupMessage
    | ErrorMessage
    | SummaryMessage(totalProcessed: nat, successfulDetections: nat, notificationSent: nat)

  /** The counters of `pipeline_stats` (`runtime_hours` and `start_time` are left out). */
  datatype PipelineStats = PipelineStats(totalProcessed: nat, successfulDetections: nat, notificationSent: nat)

  /**
   * The message `send_system_notification` sends: a non-empty custom
   * message wins; otherwise the type picks a fixed text, and the summary
   * carries the counters. An unknown type sends nothing (`None`).
   */
  function SelectSystemMessage(messageType: string, customMessage: Option<string>, stats: PipelineStats)
    : (m: Option<SystemMessage>)
    ensures customMessage.Some? && customMessage.value != "" ==> m == Some(CustomMessage(customMessage.value))
    ensures m.None? <==>
              (customMessage.None? || customMessage.value == "") &&
              messageType != "startup" && messageType != "error" && messageType != "summary"
    ensures m.Some? && m.value.SummaryMessage? ==>
              messageType == "summary" &&
              m.value == SummaryMessage(stats.totalProcessed, stats.successfulDetections, stats.notificationSent)
  {
    if customMessage.Some? && customMessage.value != "" then Some(CustomMessage(customMessage.value))
    else if messageType == "startup" then Some(StartupMessage)
    else if messageType == "error" then Some(ErrorMessage)
    else if messageType == "summary" then
      Some(SummaryMessage(stats.totalProcessed, stats.successfulDetections, stats.notificationSent))
    else None
  }

  /** `ChigemotsuPipeline` with its detection store and `pipeline_stats` counters. */
  class ChigemotsuPipeline {
    const threshold: real
    const notificationEnabled: bool
    const db: Store
    var totalProcessed: nat
    var successfulDetections: nat
    var notificationSent: nat

    /** Every notification belongs to a successful detection, and every detection to a processed image. */
    ghost predicate Valid()
      reads this, db
    {
      notificationSent <= successfulDetections <= totalProcessed && db.Valid()
    }

    /**
     * `__init__` after the configuration is read: the store opened on the
     * table earlier runs left (`existing`, with the AUTOINCREMENT counter
     * `counter`) and zero counters.
     */
    constructor (config: PipelineConfig, existing: seq<Row>, counter: nat)
      requires ValidTable(existing, counter)
      ensures Valid() && fresh(db)
      ensures threshold == ThresholdOf(config) && notificationEnabled == NotificationEnabledOf(config)
      ensures db.rows == existing && db.nextId == counter
      ensures totalProcessed == 0 && successfulDetections == 0 && notificationSent == 0
    {
      threshold := ThresholdOf(config);
      notificationEnabled := NotificationEnabledOf(config);
      db := new Store(existing, counter);
      totalProcessed, successfulDetections, notificationSent := 0, 0, 0;
    }

    /**
     * `process_motion_image` at time `now`: counts the image, then follows
     * `Decide`; a recorded outcome appends exactly one row whose flag says
     * whether the notification went out. A raising `add_detection`
     * (`storeSucceeds` false) appends nothing and returns False, with the
     * counters already bumped.
     */
    method ProcessMotionImage(imagePath: string, detection: Option<Prediction>, recentNotified: Option<bool>,
                              sendSucceeds: bool, storeSucceeds: bool, now: int)
      returns (ok: bool, notifierCalled: bool)
      requires Valid()
      modifies this, db
      ensures Valid()
      ensures var outcome := Decide(threshold, notificationEnabled, detection, recentNotified,
                                    sendSucceeds, storeSucceeds);
              ok == outcome.recorded &&
              notifierCalled == outcome.notifierCalled &&
              totalProcessed == old(totalProcessed) + 1 &&
              successfulDetections == old(successfulDetections) + (if detection.Some? then 1 else 0) &&
              notificationSent == old(notificationSent) + (if outcome.notified then 1 else 0) &&
              (outcome.recorded ==>
                 db.rows == old(db.rows) + [Row(old(db.nextId), now, detection.value.className,
                                                detection.value.confidence, Some(imagePath), outcome.notified)] &&
                 db.nextId == old(db.nextId) + 1) &&
              (!outcome.recorded ==> db.rows == old(db.rows) && db.nextId == old(db.nextId))
    {
      totalProcessed := totalProcessed + 1;
      notifierCalled := false;
      if detection.None? {
        return false, false;
      }
      var d := detection.value;
      successfulDetections := successfulDetections + 1;
      var isNotified := false;
      if d.confidence >= threshold && notificationEnabled {
        if recentNotified.None? {
          return false, false;
        }
        if !recentNotified.value && IsCat(d.className) {
          notifierCalled := true;
          if sendSucceeds {
            notificationSent := notificationSent + 1;
            isNotified := true;
          }
        }
      }
      if storeSucceeds {
        db.AddDetection(d.className, d.confidence, imagePath, isNotified, now);
      }
      ok := storeSucceeds;
    }

    /**
     * `process_motion_image` with the guard answered by the store's own
     * query, `get_recent_high_confidence_detection(class_name, threshold,
     * minutes=5)`: every detection is recorded unless the write fails, and
     * a cat is notified exactly when no detection of its class at or above
     * the threshold lies in the last five minutes of the table, earlier
     * runs' rows included.
     */
    method ProcessMotionImageWithStore(imagePath: string, detection: Option<Prediction>, sendSucceeds: bool,
                                       storeSucceeds: bool, now: int)
      returns (ok: bool, notifierCalled: bool)
      requires Valid()
      modifies this, db
      ensures Valid()
      ensures ok <==> detection.Some? && storeSucceeds
      ensures notifierCalled <==>
                detection.Some? && detection.value.confidence >= threshold && notificationEnabled &&
                IsCat(detection.value.className) &&
                !RecentHighConfidence(old(db.rows), detection.value.className, threshold, SuppressionMinutes, now)
      ensures totalProcessed == old(totalProcessed) + 1
      ensures successfulDetections == old(successfulDetections) + (if detection.Some? then 1 else 0)
      ensures notificationSent == old(notificationSent) + (if notifierCalled && sendSucceeds then 1 else 0)
      ensures ok ==>
                db.rows == old(db.rows) + [Row(old(db.nextId), now, detection.value.className,
                                               detection.value.confidence, Some(imagePath),
                                               notifierCalled && sendSucceeds)] &&
                db.nextId == old(db.nextId) + 1
      ensures !ok ==> db.rows == old(db.rows) && db.nextId == old(db.nextId)
    {
      var recent := false;
      if detection.Some? {
        recent := db.GetRecentHighConfidenceDetection(detection.value.className, threshold, SuppressionMinutes, now);
      }
      ok, notifierCalled := ProcessMotionImage(imagePath, detection, Some(recent), sendSucceeds, storeSucceeds, now);
    }

    /** `get_pipeline_stats` without the runtime. */
    function GetPipelineStats(): (s: PipelineStats)
      reads this, db
      requires Valid()
      ensures s.notificationSent <= s.successfulDetections <= s.totalProcessed
    {
      PipelineStats(totalProcessed, successfulDetections, notificationSent)
    }

    /**
     * `send_system_notification`: sends the selected message through the
     * notifier, whose answer is `sendSucceeds`; an unknown type is refused
     * before anything is sent.
     */
    method SendSystemNotification(messageType: string, customMessage: Option<string>, sendSucceeds: bool)
      returns (ok: bool, sent: Option<SystemMessage>)
      requires Valid()
      ensures sent == SelectSystemMessage(messageType, customMessage, GetPipelineStats())
      ensures ok <==> sent.Some? && sendSucceeds
    {
      sent := SelectSystemMessage(messageType, customMessage, GetPipelineStats());
      ok := sent.Some? && sendSucceeds;
    }
  }
}

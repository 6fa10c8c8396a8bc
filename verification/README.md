# chigemotsu-monitor in Dafny

A verified model of the decision logic of chigemotsu-monitor. The system watches a garden camera and tells apart two cats: "chige", a calico, and "motsu", a black-and-white cat. The model covers:

- the SQLite detection log, with its suppression query and daily aggregations;
- the pipeline that decides, per motion image, whether to push a LINE notification and what to record;
- the arithmetic and text of the daily summary;
- the Cloudflare R2 key/URL codec and the retention rule;
- the LINE payload builder and its bounded retry loop with exponential backoff;
- the detector's class-name lookup and counters.

Time is in integer seconds. `now` and the local midnight `todayStart` are parameters. SQL comparisons on ISO timestamps become integer comparisons. Confidences are `real`. State the code updates in place becomes class fields: the detection table is the `seq<Row>` field `rows` of `DetectionStore.Store`, with the AUTOINCREMENT counter `nextId`; the `pipeline_stats` dictionary becomes the three `nat` counters of `Pipeline.ChigemotsuPipeline`; the detector's `stats` dictionary becomes the `nat` counters of `Detector.ChigemotsuDetector`. The `messages` list that `_send_line_message` appends to is a local `seq` of the method `LineNotifier.BuildImageMessages`. The outside world answers through parameters:

- the TFLite output;
- file existence and size;
- the MD5 digest;
- S3 success or failure;
- the HTTP response to each attempt;
- the `get_recent_notification` answer.

Files:

| file | module | models |
|---|---|---|
| `common.dfy` | `Common` | `Option`, `Result` |
| `strings.dfy` | `Strings` | the Python string operations the scripts use: `in`, `startswith`, `split(sep)[1]`, `lstrip("./")`, `Path(p).name`, `str(n)`, `int(s)` |
| `detection_store.dfy` | `DetectionStore` | `DetectionDBManager` (scripts/db_manager.py) as class `Store` |
| `pipeline.dfy` | `Pipeline` | `ChigemotsuPipeline` (scripts/chigemotsu_pipeline.py) |
| `daily_summary.dfy` | `DailySummary` | the counts and message of scripts/send_daily_summary.py |
| `r2_uploader.dfy` | `R2` | `R2Uploader` (scripts/r2_uploader.py) |
| `line_notifier.dfy` | `LineNotifier` | `LineImageNotifier` (scripts/line_image_notifier.py) |
| `detector.dfy` | `Detector` | `ChigemotsuDetector` bookkeeping (scripts/integrated_detection.py) |

## Model

| member | source | states |
|---|---|---|
| DetectionStore.CountWhere | scripts/db_manager.py:95-100 | a `COUNT(*)` never exceeds the number of rows |
| DetectionStore.CountWhereAppend | scripts/db_manager.py:39-56 | appending one row raises a count by one exactly when the new row matches the clause |
| DetectionStore.CountWherePositive | scripts/db_manager.py:76-79 | `count > 0` holds iff some row matches, which is how the suppression query turns a count into a boolean |
| DetectionStore.CountWhereMonotone | scripts/db_manager.py:95-100 | a clause implied by another counts at least as many rows, so notified rows never outnumber today's rows |
| DetectionStore.RecentHighConfidence | scripts/db_manager.py:58-79 | true iff some row has the same class, confidence ≥ threshold and timestamp strictly after now − minutes; `is_notified` plays no part |
| DetectionStore.RecentWindowMonotone | scripts/db_manager.py:71-76 | a check true for m minutes stays true for any wider window at the same `now` |
| DetectionStore.RecentThresholdMonotone | scripts/db_manager.py:76 | a check true at a threshold stays true at any lower threshold |
| DetectionStore.RecentIgnoresNonMatchingRow | scripts/db_manager.py:76 | a new row of another class, below the threshold, or at or before the window start never changes the answer |
| DetectionStore.RecentAfterMatchingRow | scripts/db_manager.py:76 | once a matching row is stored, the check is true |
| DetectionStore.StatsSummary | scripts/db_manager.py:81-105 | `total_processed` counts rows at or after midnight; `notification_sent` counts those flagged as notified; hence `notification_sent ≤ total_processed` |
| DetectionStore.BumpProperties | scripts/db_manager.py:120-125 | adding one row to a group-by result adds its key, raises the value sum by one, keeps keys distinct and changes only that key's value |
| DetectionStore.Lookup | scripts/db_manager.py:125 | `dict.get(key)` finds a value iff the key is among the keys |
| DetectionStore.GetOr | scripts/send_daily_summary.py:34-36 | `dict.get(key, default)`: the stored value if the key is present, else the default |
| DetectionStore.GroupCountSince | scripts/db_manager.py:109-125 | the `GROUP BY class_name` result has distinct keys, as a dict built from it must |
| DetectionStore.GroupCountSinceCounts | scripts/db_manager.py:120-125 | the `GROUP BY class_name` result sums to the number of today's rows and gives each class its count |
| DetectionStore.DailyStats | scripts/db_manager.py:107-125 | a class is a key iff some row at or after midnight has it; its value is that positive count; the values sum to `total_processed` |
| DetectionStore.SetNotified | tests/unit/test_db_manager.py:136-142 | the flag of every row with the id is overwritten; all other rows and fields are unchanged |
| DetectionStore.SetNotifiedIdempotent | tests/unit/test_db_manager.py:136-142 | setting the same flag twice is the same as once |
| DetectionStore.Store.constructor | scripts/db_manager.py:9-37 | opens the table with the rows and AUTOINCREMENT counter earlier runs left, keeping both as they are; a fresh file is the empty table with first id 1 |
| DetectionStore.Store.AddDetection | scripts/db_manager.py:39-56 | exactly one row with the given class, confidence, image path, flag and the current time is appended; earlier rows are unchanged; the id counter advances, so ids increase strictly |
| DetectionStore.Store.GetRecentHighConfidenceDetection | scripts/db_manager.py:58-79 | the suppression query over the stored rows; reading it changes nothing |
| DetectionStore.Store.GetPipelineStatsSummary | scripts/db_manager.py:81-105 | the two counts over the stored rows, with `notification_sent ≤ total_processed ≤` the number of rows |
| DetectionStore.Store.GetDailyStats | scripts/db_manager.py:107-125 | the per-class counts over the stored rows: distinct keys, positive values, summing to `total_processed` |
| DetectionStore.Store.RegisterDetectionWithSuppression | tests/unit/test_db_manager.py:111-134 | checks first, then appends one row flagged `not exists`; returns that flag and a fresh id greater than every earlier id |
| DetectionStore.Store.UpdateNotificationStatus | tests/unit/test_db_manager.py:136-142 | reports whether the id exists and overwrites only that row's flag |
| Pipeline.Decide | scripts/chigemotsu_pipeline.py:114-198 | a row is recorded iff detection succeeded, the write did not raise, and the guard query was either not reached or answered; the notifier is called iff confidence ≥ threshold, notifications are on, the guard answered "no recent notification" and the class is chige or motsu; the send counts as notified iff, in addition, it succeeded |
| Pipeline.LowConfidenceRecordedSilently | scripts/chigemotsu_pipeline.py:133-137 | below the threshold nothing is sent and the row is recorded unflagged |
| Pipeline.RecentNotificationSuppresses | scripts/chigemotsu_pipeline.py:147-150 | a recent notification for the class suppresses the send; the row is still recorded, unflagged |
| Pipeline.QueryFailureLosesConfidentDetections | scripts/chigemotsu_pipeline.py:147 | when the guard query raises, every detection at or above the threshold with notifications on records nothing and sends nothing |
| Pipeline.StorageFailureAfterSend | scripts/chigemotsu_pipeline.py:166-198 | a successful send followed by a raising `add_detection` is counted as sent, but the call returns False and no row records it |
| Pipeline.ConfidentChigeLostAsWritten | scripts/chigemotsu_pipeline.py:147 | a chige detection at 0.9 under the default threshold of 0.75 is lost when the guard query raises |
| Pipeline.SelectSystemMessage | scripts/chigemotsu_pipeline.py:212-242 | a non-empty custom message wins; otherwise startup, error or summary pick the text, and the summary carries the counters; an unknown type selects nothing |
| Pipeline.ChigemotsuPipeline.constructor | scripts/chigemotsu_pipeline.py:64-77 | the store holds the rows earlier runs left in logs/detection.db; all counters start at 0; the threshold defaults to 0.75 and notifications default to enabled |
| Pipeline.ChigemotsuPipeline.ProcessMotionImage | scripts/chigemotsu_pipeline.py:96-198 | `total_processed` grows by one per call; `successful_detections` grows iff detection succeeded; `notification_sent` grows iff the send succeeded, even when the later write raises; a recorded outcome appends exactly one row carrying that flag, and any other appends none; `notification_sent ≤ successful_detections ≤ total_processed` is preserved |
| Pipeline.ChigemotsuPipeline.ProcessMotionImageWithStore | scripts/db_manager.py:58-79 | with the guard answered by the store's suppression query, every detection is recorded unless the write raises, taking the next id and advancing the counter (both unchanged otherwise), and `successful_detections` rises by one per detection; a cat is notified iff confidence ≥ threshold, notifications are on and no same-class row at or above the threshold lies in the last 5 minutes |
| Pipeline.ChigemotsuPipeline.GetPipelineStats | scripts/chigemotsu_pipeline.py:297-307 | the counters satisfy `notification_sent ≤ successful_detections ≤ total_processed` |
| Pipeline.ChigemotsuPipeline.SendSystemNotification | scripts/chigemotsu_pipeline.py:200-249 | the selected message is sent; an unknown type without a custom message returns False and sends nothing; otherwise the result is the notifier's |
| DailySummary.Counts | scripts/send_daily_summary.py:34-37 | chige, motsu and other read their keys and default to 0; the total is the sum of all values; an empty map yields all zeros |
| DailySummary.TotalSplitsByName | scripts/send_daily_summary.py:34-37 | the total equals chige + motsu + other plus the counts of every other class |
| DailySummary.SumUnnamedZero | scripts/send_daily_summary.py:37 | the counts of other classes sum to 0 iff every such class has count 0 |
| DailySummary.TotalCoversNamedCounts | scripts/send_daily_summary.py:34-37 | total ≥ chige + motsu + other |
| DailySummary.OnlyNamedClassesTotal | scripts/send_daily_summary.py:34-37 | the total equals chige + motsu + other when those are the only keys |
| DailySummary.NamedSumMeansOnlyNamedClasses | scripts/send_daily_summary.py:34-37 | with positive counts, a total equal to chige + motsu + other means those are the only keys |
| DailySummary.SummaryLines | scripts/send_daily_summary.py:42-50 | nine lines, with the chige, motsu, other and total lines at positions 3-6 in that order, each carrying its count |
| DailySummary.JoinLines | scripts/send_daily_summary.py:42-50 | the joined text starts with the first line |
| DailySummary.JoinLinesContainsLine | scripts/send_daily_summary.py:42-50 | every line appears in the joined text |
| DailySummary.SummaryMessage | scripts/send_daily_summary.py:42-50 | the message contains the chige, motsu, other and total count lines, each with its count |
| DailySummary.CountLineReadsBack | scripts/send_daily_summary.py:45-48 | the number between a count line's caption and its "回" suffix reads back as the count |
| R2.NewUploader | scripts/r2_uploader.py:39-54 | fails with "configuration missing" iff account_id, access_key_id, secret_access_key or bucket_name is missing or empty; then fails iff the bucket is unreachable; otherwise keeps the settings |
| R2.UploadImage | scripts/r2_uploader.py:180-233 | a missing file, then a file over 10·1024·1024 bytes, is refused before any upload; success returns the public URL of `chigemotsu/chigemotsu_{timestamp}_{hash8}.jpg` |
| R2.EndpointUrl | scripts/r2_uploader.py:56-57 | the endpoint starts with "https://" and the account id reads back from it |
| R2.Hash8 | scripts/r2_uploader.py:194-195 | the first eight characters of the digest, or all of a shorter one |
| R2.UploadFileName | scripts/r2_uploader.py:193-195 | the file name starts with "chigemotsu_" and ends with ".jpg" |
| R2.UploadKey | scripts/r2_uploader.py:193-196 | every uploaded key starts with `chigemotsu/`, followed by the file name |
| R2.PublicBase | scripts/r2_uploader.py:219-226 | a custom domain wins; otherwise the public URL base; otherwise the account's r2.dev address |
| R2.PublicUrl | scripts/r2_uploader.py:219-226 | the URL is the base, a slash, then the key |
| R2.UploadTimeOfKey | scripts/r2_uploader.py:301-306 | a file name without "_" has no upload time (the IndexError the loop skips) |
| R2.UploadTimeOfUploadKey | scripts/r2_uploader.py:193-196 | splitting an uploaded key's file name on "_" and parsing field 1 gives back the upload timestamp |
| R2.KeyOfUrlOrKey | scripts/r2_uploader.py:239-248 | an argument not starting with "http" is the key verbatim |
| R2.DeleteImage | scripts/r2_uploader.py:235-257 | True iff a key was extracted and the delete succeeded |
| R2.HostSeparatorFirstAfterScheme | scripts/r2_uploader.py:240-241 | after "https://", the first occurrence of "host/" is the one at index 8 |
| R2.DevSeparatorFirstAfterScheme | scripts/r2_uploader.py:244-246 | after "https://", the first occurrence of "pub-<account>.r2.dev/" is the one at index 8 |
| R2.KeyOfCustomDomainUrl | scripts/r2_uploader.py:239-241 | with a custom domain that is a host name, the key is recovered from `https://{domain}/{key}` |
| R2.KeyOfPublicBaseUrl | scripts/r2_uploader.py:242-243 | with only a public URL base, which starts with "http", the key is recovered from `{base}/{key}` |
| R2.KeyOfDevUrl | scripts/r2_uploader.py:244-246 | with neither, the key is recovered from the `https://pub-{account}.r2.dev/{key}` fallback |
| R2.KeyOfPublicUrl | scripts/r2_uploader.py:239-248 | deleting by the public URL of a key recovers that key under every precedence case, provided the key has no separator in it, the custom domain is a host name, and a public URL base starts with "http" |
| R2.ListImages | scripts/r2_uploader.py:259-288 | one entry per listed object, with its key and size and a URL built by the same precedence rule as the upload; a failed listing yields nothing |
| R2.ListedUrlsDeleteTheirKeys | scripts/r2_uploader.py:268-273 | the URL of every listed object deletes that object |
| R2.UploadFileNameHasNoSlash | scripts/r2_uploader.py:193-195 | an uploaded file name has no '/', so it is the base name of its key |
| R2.UploadFileNameTimeField | scripts/r2_uploader.py:302-306 | field 1 of the uploaded file name split on "_" is the decimal timestamp, whatever the 8 hex digits of the hash |
| R2.Cutoff | scripts/r2_uploader.py:293-294 | the cutoff lies before `now` iff the maximum age is positive, and never after it for a non-negative age |
| R2.IsExpired | scripts/r2_uploader.py:301-308 | a key without an upload time never expires |
| R2.KeysWhereLength | scripts/r2_uploader.py:299-308 | the scan collects at most one key per image |
| R2.ExpiredKeys | scripts/r2_uploader.py:299-308 | never more keys than images; the keys are characterised by `R2.ExpiredKeysExact` |
| R2.KeysWhereAppend | scripts/r2_uploader.py:299 | the scan of a listing distributes over concatenation, so keys are collected in listing order |
| R2.KeysWhereExact | scripts/r2_uploader.py:299-308 | a key is collected iff its image is selected |
| R2.ExpiredKeysExact | scripts/r2_uploader.py:299-308 | exactly the keys whose file name parses to a time before the cutoff; keys that do not parse are skipped |
| R2.DeletedBeforeFailure | scripts/r2_uploader.py:309-324 | the deletions done before a delete raises: an in-order prefix of the expired keys none of which failed, stopping at the first that did |
| R2.DeletedBeforeFailureSkips | scripts/r2_uploader.py:309-312 | successful deletions before the rest leave the rest's outcome unchanged |
| R2.ExpiredKeysStep | scripts/r2_uploader.py:299-308 | scanning one more image adds its key exactly when its parsed time is before the cutoff |
| R2.FailureEndsDeletions | scripts/r2_uploader.py:309-324 | a delete that raises on an expired image leaves exactly the keys deleted before it, and fewer than all expired keys |
| R2.NoFailureDeletesAll | scripts/r2_uploader.py:299-321 | with no failing delete, every expired key is deleted |
| R2.CleanupOldImages | scripts/r2_uploader.py:290-324 | deletes the expired images in listing order until one delete raises; returns their number when all succeeded, else 0 |
| R2.GetBucketStats | scripts/r2_uploader.py:326-340 | total_images is the number of listed images, the total size is the sum of their sizes, and the endpoint is the account's |
| R2.BucketStatsOfListing | scripts/r2_uploader.py:326-340 | over `list_images`, the stats count one image per listed object and the listing's bytes; a failed listing reports zero images and zero bytes |
| R2.ListedSizes | scripts/r2_uploader.py:332 | the summed sizes of the listed images are the listing's bytes |
| LineNotifier.CredentialsPath | scripts/line_image_notifier.py:100-106 | an absolute path is used unchanged; a relative one that names a file lies inside the configuration directory |
| LineNotifier.CredentialsPathResolves | scripts/line_image_notifier.py:100-106 | an absolute path is used unchanged; a relative one loses its maximal leading run of '.' and '/' characters and is joined to the configuration directory |
| LineNotifier.CurrentDirPrefixIgnored | scripts/line_image_notifier.py:100-103 | "./name" resolves to `name` inside the configuration directory, as the default `./config/line_credentials.json` does |
| LineNotifier.ParentDirPrefixIgnored | scripts/line_image_notifier.py:100-103 | "../name" also resolves to `name` inside the configuration directory, never above it |
| LineNotifier.StripLeading | scripts/line_image_notifier.py:103 | stripping removes exactly a leading run of '.' and '/' characters |
| LineNotifier.Recipient | scripts/line_image_notifier.py:205-206 | a given user id is used; otherwise the configured `line_user_id` |
| LineNotifier.BuildImageMessages | scripts/line_image_notifier.py:211-225 | a text entry comes first exactly when the message is non-empty, and the list always ends with one image entry whose two URLs equal the image URL |
| LineNotifier.Backoff | scripts/line_image_notifier.py:263-266 | one sleep per failed attempt except the last |
| LineNotifier.BackoffDoubles | scripts/line_image_notifier.py:266 | attempt a sleeps 2^a seconds |
| LineNotifier.BackoffTotal | scripts/line_image_notifier.py:263-266 | the sleeps before giving up after n + 1 failures total 2^n − 1 seconds |
| LineNotifier.PostWithRetry | scripts/line_image_notifier.py:236-273 | returns True iff one of the first retry_count attempts gets 200, stopping at the first; at most max(retry_count, 0) attempts, so none for 0; every failure gets the backoff sleep except the last attempt's |
| LineNotifier.Deliver | scripts/line_image_notifier.py:203-273 | a missing recipient or token sends nothing and returns False; a missing endpoint returns False; otherwise the result is that of the retry loop |
| LineNotifier.SendLineMessage | scripts/line_image_notifier.py:189-273 | the payload goes to the resolved recipient with the image message list; True iff everything is configured and some attempt gets 200 |
| LineNotifier.SendMessage | scripts/line_image_notifier.py:453-521 | the effective `send_message` pushes exactly one text message, with the same success condition |
| LineNotifier.SendImageNotification | scripts/line_image_notifier.py:137-187 | an upload that yields no URL returns False without contacting LINE; the cleanup runs iff the send succeeded, and its outcome never changes the result |
| Detector.ClassNamesFromConfig | scripts/integrated_detection.py:96-98 | the configured class names, else chige, motsu, other |
| Detector.ArgMax | scripts/integrated_detection.py:333 | the index of a maximal score, the first such index |
| Detector.LabelFor | scripts/integrated_detection.py:336-343 | an in-range index maps to its class name; an out-of-range one maps to "unknown" |
| Detector.Predict | scripts/integrated_detection.py:333-343 | a result exists iff the model produced a non-empty score row; its confidence is the first maximal score, as `np.argmax` picks it (every earlier score is strictly lower), and its class is that index's label |
| Detector.ChigemotsuDetector.constructor | scripts/integrated_detection.py:96-107 | the default class names apply and all counters start at 0 |
| Detector.ChigemotsuDetector.ProcessImage | scripts/integrated_detection.py:364-395 | a missing file or a failed preprocessing gives no result; otherwise the prediction |
| Detector.ChigemotsuDetector.UpdateStats | scripts/integrated_detection.py:397-404 | total_detections grows by exactly 1; chige_count or motsu_count grows only for that class; chige + motsu ≤ total is preserved |
| Detector.ChigemotsuDetector.GetStats | scripts/integrated_detection.py:406-416 | the counters, with chige_count + motsu_count ≤ total_detections |
| Strings.Find | scripts/r2_uploader.py:240-246 | the leftmost occurrence, or none when there is no occurrence at all |
| Strings.Contains | scripts/r2_uploader.py:240-242 | `sub in s` holds iff `sub` occurs at some index |
| Strings.StartsWith | scripts/r2_uploader.py:239 | `s.startswith(p)` holds iff `p` occurs at index 0 |
| Strings.FindFrom | scripts/r2_uploader.py:240-246 | the leftmost occurrence of the separator at or after a position, or none at all |
| Strings.FindExtends | scripts/r2_uploader.py:241-246 | an occurrence in a prefix stays the first occurrence when text is appended |
| Strings.FindCharAfter | scripts/r2_uploader.py:303 | in `a + c + b` with `c` not in `a`, the first `c` is at index `|a|` |
| Strings.FindCharAbsent | scripts/r2_uploader.py:303 | a character absent from the text is not found |
| Strings.SplitSecond | scripts/r2_uploader.py:303-305 | `split(sep)[1]` exists iff the separator is non-empty and occurs; the field never contains the separator |
| Strings.PrefixBeforeFirst | scripts/r2_uploader.py:303-305 | the text before the first separator contains none |
| Strings.SplitSecondOfFields | scripts/r2_uploader.py:303-305 | splitting `a c b c …` on a character `c` absent from `a` and `b` gives `b` as field 1 |
| Strings.SplitAfterChar | scripts/r2_uploader.py:303-305 | after a first field free of the separator character, field 1 is read off the rest |
| Strings.SplitSecondAfter | scripts/r2_uploader.py:303-305 | `(prefix + sep + rest).split(sep)[1]` is `rest` up to its first separator, when the first separator is the one after `prefix` |
| Strings.LStripDotSlash | scripts/line_image_notifier.py:103 | the result is a suffix that does not start with '.' or '/', and everything removed was '.' or '/' |
| Strings.BaseName | scripts/r2_uploader.py:302 | `Path(p).name` contains no '/' |
| Strings.BaseNameOfChild | scripts/r2_uploader.py:302 | the name of `dir/name` is `name` |
| Strings.NatToString | scripts/r2_uploader.py:193 | a non-empty string of digits without a leading zero |
| Strings.DigitsValueOfNatToString | scripts/r2_uploader.py:303-306 | the digits of `str(n)` read back as `n` |
| Strings.ParseInt | scripts/r2_uploader.py:306 | `int(s)` succeeds iff `s` is a non-empty digit string with an optional sign; a negative value needs a '-' |
| Strings.ParseIntOfNatToString | scripts/r2_uploader.py:303-306 | `int(str(n)) == n` for every natural number `n` |

## Findings

| source | as written | input that shows it | evidently intended | confidence | as-written member | corrected member |
|---|---|---|---|---|---|---|
| scripts/chigemotsu_pipeline.py:147 | calls `self.db_manager.get_recent_notification(class_name, minutes=5)`, which `DetectionDBManager` in scripts/db_manager.py does not define; the AttributeError is caught at lines 196-198 | a "chige" detection at confidence 0.9 with notifications enabled: the call returns False, records no row and sends no notification; the same holds for every detection at or above the threshold | the store's `get_recent_high_confidence_detection(class_name, threshold, minutes=5)`, whose time-limit test in tests/unit/test_db_manager.py:73-87 is named `test_get_recent_notification_time_limit` | medium, not executed | Pipeline.QueryFailureLosesConfidentDetections | Pipeline.ChigemotsuPipeline.ProcessMotionImageWithStore |

The as-written behaviour is `Pipeline.ChigemotsuPipeline.ProcessMotionImage` with the guard's answer as a parameter, where `None` means the call raised. `Pipeline.ConfidentChigeLostAsWritten` is the concrete input. `ProcessMotionImageWithStore` answers the guard from the store itself, and every detection is then recorded.

## Notes on the code as modelled

- The code does not check that a confidence lies in [0, 1]: nothing in scripts/db_manager.py or scripts/chigemotsu_pipeline.py rejects one outside it. The model takes any real number.
- Rows are stamped with naive local time (`datetime.now().isoformat()`), not UTC. The model does not convert timezones.
- `register_detection_with_suppression` and `update_notification_status` are exercised in tests/unit/test_db_manager.py:111-142 but not defined in scripts/db_manager.py. They are modelled sequentially, as those tests describe.
- `_update_stats` (scripts/integrated_detection.py:397-404) is modelled, but nothing in scripts/ calls it: its definition is the only occurrence of the name. The detector's counters therefore stay at zero in a running system.
- `add_detection` runs after the send (scripts/chigemotsu_pipeline.py:183-184). When it raises, the handler at lines 196-198 returns False with no row stored, after `total_processed`, `successful_detections` and possibly `notification_sent` were bumped. A notification sent in that run leaves no row for the next run's suppression check to find (`Pipeline.StorageFailureAfterSend`).
- Every run of `main` (scripts/chigemotsu_pipeline.py:313-329) builds a new pipeline, which reopens logs/detection.db with `CREATE TABLE IF NOT EXISTS`. The store's constructor therefore takes the rows and id counter earlier runs left behind.
- In `send_image_notification`, `cleanup_old_images` returns an int. A non-zero result makes `len(cleaned)` raise a TypeError. The surrounding handler catches it, so the result is unaffected, as the model states.

## Left out

- SQLite connections, the schema's index DDL and SQL text: the table is a sequence of rows.
- Timezones and ISO-8601 string ordering: time is an integer number of seconds.
- Cross-process atomicity and locking: nothing in the code implements them, and the register-and-decide model is sequential only.
- Image preprocessing, quantisation, softmax and TFLite interpreter calls: floating-point numerics in a foreign runtime. The model's score row is an input.
- HTTP calls to LINE, boto3/S3 calls, MD5 hashing, `time.time`, `time.sleep`, file existence and size checks: all are parameters.
- JSON configuration loading, the package-resource branches of `_load_config`, logging setup, the argparse `main` functions, and the `test_notification` and `test_pipeline` helpers.
- Float formatting of confidence percentages (`send_detection_notification`, scripts/line_image_notifier.py:275-306) and of `total_size_mb` and `runtime_hours`. Message timestamps are parameters or omitted.
- The earlier duplicate `send_message` and `send_message_with_image` definitions (scripts/line_image_notifier.py:336-438), which Python replaces with the later ones. The later `send_message_with_image` (line 523) only forwards to `_send_line_message`, which is `LineNotifier.SendLineMessage`.
- `get_storage_stats` only forwards to `get_bucket_stats`.
- `last_modified` in `list_images`, the `max_keys` cap on listings, and the listing `Prefix` filter.
- `Strings.ParseInt` accepts an optional sign and ASCII digits only. Python's `int()` also accepts surrounding whitespace, underscores between digits and non-ASCII digits. Keys produced by `upload_image` never contain any of these.
- `Strings.BaseName` does not normalise `.` and `..` components as `pathlib` would.
- R2.CleanupOldImages: `now` is an integer, while `time.time()` is a float. The comparison `file_time < cutoff_time` of an integer upload time against a fractional cutoff agrees with the integer comparison only when the fraction is dropped.
- R2.KeyOfPublicUrl: the round trip is proved only for keys that do not contain the split separator. For other keys `split(...)[1]` returns a shorter string, as it does in Python.
- LineNotifier.PostWithRetry: the `timeout` argument of each POST is not modelled. A timeout is one of the failed attempts given by the response parameter.
- LineNotifier.CredentialsPath: the path is built by `JoinPath` as `dir + "/" + name` in every case. `pathlib` drops a `.` directory and does not double a root `/`, so for a configuration in the working directory the model yields `./x` where Python yields `x`. Both strings name the same file, but they are different strings.

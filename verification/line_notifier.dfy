/**
 * The logic of `LineImageNotifier`: where the LINE credentials file is
 * looked up, the push payload, the bounded retry loop with exponential
 * backoff, and the control flow of `send_image_notification` and
 * `send_message`. HTTP responses, the R2 upload and the clock are inputs.
 */
module LineNotifier {
  import opened Common
  import opened Strings

  // ---------------------------------------------------------------------
  // Credentials path (line_image_notifier.py:81-106)
  // ---------------------------------------------------------------------

  /** The credentials file used when the `line` section names none. */
  const DefaultCredentialsFile: string := "./config/line_credentials.json"

  /** `os.path.isabs` on POSIX. */
  predicate IsAbsolute(path: string) {
    StartsWith(path, "/")
  }

  /**
   * The credentials path: an absolute `credentialsFile` is used as it is;
   * a relative one is stripped of its leading '.' and '/' characters and
   * joined to the directory of the configuration file.
   */
  function CredentialsPath(configDir: string, credentialsFile: string): (path: string)
    ensures IsAbsolute(credentialsFile) ==> path == credentialsFile
    ensures !IsAbsolute(credentialsFile) && LStripDotSlash(credentialsFile) != "" ==>
              StartsWith(path, configDir + "/")
  {
    if IsAbsolute(credentialsFile) then credentialsFile
    else JoinPath(configDir, LStripDotSlash(credentialsFile))
  }

  /**
   * An absolute path is kept; a relative one resolves to the directory
   * joined with what follows its maximal run of '.' and '/' characters.
   */
  lemma CredentialsPathResolves(configDir: string, credentialsFile: string)
    ensures IsAbsolute(credentialsFile) ==> CredentialsPath(configDir, credentialsFile) == credentialsFile
    ensures !IsAbsolute(credentialsFile) ==>
              exists k :: 0 <= k <= |credentialsFile| &&
                (forall i :: 0 <= i < k ==> IsDotOrSlash(credentialsFile[i])) &&
                (k < |credentialsFile| ==> !IsDotOrSlash(credentialsFile[k])) &&
                CredentialsPath(configDir, credentialsFile) == JoinPath(configDir, credentialsFile[k..])
  {
    var rest := LStripDotSlash(credentialsFile);
    var k := |credentialsFile| - |rest|;
    assert credentialsFile[k..] == rest;
    if k < |credentialsFile| {
      assert credentialsFile[k] == rest[0];
    }
  }

  /** `Path(dir) / name` for a name that is not absolute; an empty name adds nothing. */
  function JoinPath(dir: string, name: string): string {
    if name == "" then dir else dir + "/" + name
  }

  /** "./name", the form of the default file, resolves to `name` inside the configuration directory. */
  lemma CurrentDirPrefixIgnored(configDir: string, name: string)
    requires name != [] && !IsDotOrSlash(name[0])
    ensures CredentialsPath(configDir, "./" + name) == configDir + "/" + name
  {
    var f := "./" + name;
    assert f[..1] == ['.'];
    assert f[2..] == name;
    StripLeading(f, 2, name);
  }

  /**
   * `lstrip` removes a character set, not a prefix: "../name" also resolves
   * to `name` inside the configuration directory, not beside it.
   */
  lemma ParentDirPrefixIgnored(configDir: string, name: string)
    requires name != [] && !IsDotOrSlash(name[0])
    ensures CredentialsPath(configDir, "../" + name) == configDir + "/" + name
  {
    var f := "../" + name;
    assert f[..1] == ['.'];
    assert f[3..] == name;
    StripLeading(f, 3, name);
  }

  /** A relative path made of `k` dots and slashes followed by `rest` resolves to `rest`. */
  lemma {:induction false} StripLeading(f: string, k: nat, rest: string)
    requires k <= |f| && f[k..] == rest && (rest == [] || !IsDotOrSlash(rest[0]))
    requires forall i :: 0 <= i < k ==> IsDotOrSlash(f[i])
    ensures LStripDotSlash(f) == rest
    decreases k
  {
    if k > 0 {
      assert f[1..][k - 1..] == rest;
      StripLeading(f[1..], k - 1, rest);
    } else {
      assert f == rest;
    }
  }

  // ---------------------------------------------------------------------
  // Payload (line_image_notifier.py:204-228, 467-480)
  // ---------------------------------------------------------------------

  datatype LineMessage =
    | TextMessage(text: string)
    | ImageMessage(originalContentUrl: string, previewImageUrl: string)

  /** The JSON body of a push request. */
  datatype Payload = Payload(to: string, messages: seq<LineMessage>)

  /** The `line` section of the configuration after the credentials are merged in. */
  datatype LineSettings = LineSettings(
    lineUserId: Option<string>,
    accessToken: Option<string>,
    apiUrl: Option<string>,
    retryCount: Option<int>)

  /** The number of attempts when `retry_count` is not configured. */
  const DefaultRetryCount: int := 3

  function RetryCount(settings: LineSettings): int {
    match settings.retryCount
    case Some(n) => n
    case None => DefaultRetryCount
  }

  /** The addressee: the given user, else the configured one (`None` is the KeyError). */
  function Recipient(settings: LineSettings, userId: Option<string>): (to: Option<string>)
    ensures userId.Some? ==> to == userId
    ensures userId.None? ==> to == settings.lineUserId
  {
    if userId.Some? then userId else settings.lineUserId
  }

  /** The message list of an image notification. */
  predicate IsImageMessageList(messages: seq<LineMessage>, imageUrl: string, message: string) {
    |messages| == (if message != "" then 2 else 1) &&
    (message != "" ==> messages[0] == TextMessage(message)) &&
    messages[|messages| - 1] == ImageMessage(imageUrl, imageUrl)
  }

  /** Builds the messages of `_send_line_message`: the text first if there is one, then the image. */
  method BuildImageMessages(imageUrl: string, message: string) returns (messages: seq<LineMessage>)
    ensures IsImageMessageList(messages, imageUrl, message)
  {
    messages := [];
    if message != "" {
      messages := messages + [TextMessage(message)];
    }
    messages := messages + [ImageMessage(imageUrl, imageUrl)];
  }

  // ---------------------------------------------------------------------
  // Retry loop (line_image_notifier.py:235-273)
  // ---------------------------------------------------------------------

  /** What one POST produced: an HTTP status, or a `requests.RequestException`. */
  datatype Response = Status(code: int) | ConnectionError

  predicate IsSuccess(r: Response) {
    r == Status(200)
  }

  /** Some attempt among the first `retryCount` is answered with 200. */
  predicate Delivered(respond: nat -> Response, retryCount: int) {
    exists a: nat :: a < retryCount && IsSuccess(respond(a))
  }

  function Pow2(n: nat): nat {
    if n == 0 then 1 else 2 * Pow2(n - 1)
  }

  /** The sleeps after the first `n` failed attempts: 1, 2, 4, ... seconds. */
  function Backoff(n: int): (sleeps: seq<nat>)
    ensures |sleeps| == (if n <= 0 then 0 else n)
  {
    if n <= 0 then [] else Backoff(n - 1) + [Pow2(n - 1)]
  }

  /** The `a`-th sleep lasts `2^a` seconds. */
  lemma {:induction false} BackoffDoubles(n: int)
    ensures forall a :: 0 <= a < |Backoff(n)| ==> Backoff(n)[a] == Pow2(a)
  {
    if n > 0 {
      BackoffDoubles(n - 1);
    }
  }

  function Sum(s: seq<nat>): nat {
    if s == [] then 0 else Sum(s[..|s| - 1]) + s[|s| - 1]
  }

  lemma SumSnoc(s: seq<nat>, x: nat)
    ensures Sum(s + [x]) == Sum(s) + x
  {
    assert (s + [x])[..|s|] == s;
  }

  function Min(a: int, b: int): int {
    if a <= b then a else b
  }

  /**
   * The `for attempt in range(retry_count)` loop: attempt `a` gets
   * `respond(a)`; the first 200 ends the loop with true; a failed attempt
   * other than the last sleeps `2^a` seconds. `attempts` counts the POSTs
   * and `sleeps` lists the sleeps in order.
   */
  method PostWithRetry(retryCount: int, respond: nat -> Response)
    returns (ok: bool, attempts: nat, sleeps: seq<nat>)
    ensures ok <==> Delivered(respond, retryCount)
    ensures attempts <= (if retryCount <= 0 then 0 else retryCount)
    ensures ok ==> attempts >= 1 && IsSuccess(respond(attempts - 1)) &&
                   forall a: nat :: a < attempts - 1 ==> !IsSuccess(respond(a))
    ensures !ok ==> attempts == (if retryCount <= 0 then 0 else retryCount)
    ensures ok ==> sleeps == Backoff(attempts - 1)
    ensures !ok ==> sleeps == Backoff(retryCount - 1)
  {
    ok, attempts, sleeps := false, 0, [];
    var attempt: nat := 0;
    while attempt < retryCount
      invariant retryCount > 0 ==> attempt <= retryCount
      invariant retryCount <= 0 ==> attempt == 0
      invariant attempts == attempt
      invariant forall a: nat :: a < attempt ==> !IsSuccess(respond(a))
      invariant sleeps == Backoff(Min(attempt, retryCount - 1))
    {
      attempts := attempts + 1;
      var response := respond(attempt);
      if IsSuccess(response) {
        ok := true;
        return;
      }
      if attempt < retryCount - 1 {
        sleeps := sleeps + [Pow2(attempt)];
      }
      attempt := attempt + 1;
    }
  }

  /** The sleeps before giving up after `n + 1` failures total `2^n - 1` seconds. */
  lemma {:induction false} BackoffTotal(n: nat)
    ensures Sum(Backoff(n)) == Pow2(n) - 1
  {
    if n > 0 {
      var prev := Backoff(n - 1);
      SumSnoc(prev, Pow2(n - 1));
      BackoffTotal(n - 1);
    }
  }

  /** Everything the request needs is configured: recipient, token and endpoint. */
  predicate CanSend(settings: LineSettings, userId: Option<string>) {
    Recipient(settings, userId).Some? && settings.accessToken.Some? && settings.apiUrl.Some?
  }

  /**
   * The part `_send_line_message` and `send_message` share: resolve the
   * recipient and token (a missing one is a KeyError, so false), build the
   * payload, and run the retry loop; a missing `api_url` raises on the first
   * attempt, so false.
   */
  method Deliver(settings: LineSettings, userId: Option<string>, messages: seq<LineMessage>,
                 respond: nat -> Response)
    returns (ok: bool, payload: Option<Payload>, attempts: nat)
    ensures payload.Some? <==> Recipient(settings, userId).Some? && settings.accessToken.Some?
    ensures payload.Some? ==> payload.value == Payload(Recipient(settings, userId).value, messages)
    ensures ok <==> CanSend(settings, userId) && Delivered(respond, RetryCount(settings))
    ensures attempts <= (if RetryCount(settings) <= 0 then 0 else RetryCount(settings))
    ensures !CanSend(settings, userId) ==> attempts == 0
  {
    var to := Recipient(settings, userId);
    if to.None? || settings.accessToken.None? {
      return false, None, 0;
    }
    payload := Some(Payload(to.value, messages));
    var retryCount := RetryCount(settings);
    if retryCount > 0 && settings.apiUrl.None? {
      return false, payload, 0;
    }
    var sleeps;
    ok, attempts, sleeps := PostWithRetry(retryCount, respond);
  }

  /** `_send_line_message`: an optional text and the image, pushed with retries. */
  method SendLineMessage(settings: LineSettings, imageUrl: string, message: string,
                         userId: Option<string>, respond: nat -> Response)
    returns (ok: bool, payload: Option<Payload>)
    ensures ok <==> CanSend(settings, userId) && Delivered(respond, RetryCount(settings))
    ensures payload.Some? <==> Recipient(settings, userId).Some? && settings.accessToken.Some?
    ensures payload.Some? ==>
              payload.value.to == Recipient(settings, userId).value &&
              IsImageMessageList(payload.value.messages, imageUrl, message)
  {
    var messages := BuildImageMessages(imageUrl, message);
    var attempts;
    ok, payload, attempts := Deliver(settings, userId, messages, respond);
  }

  /** `send_message` (the later of its definitions): exactly one text message. */
  method SendMessage(settings: LineSettings, message: string, userId: Option<string>,
                     respond: nat -> Response)
    returns (ok: bool, payload: Option<Payload>)
    ensures ok <==> CanSend(settings, userId) && Delivered(respond, RetryCount(settings))
    ensures payload.Some? <==> Recipient(settings, userId).Some? && settings.accessToken.Some?
    ensures payload.Some? ==>
              payload.value.to == Recipient(settings, userId).value &&
              payload.value.messages == [TextMessage(message)]
  {
    var attempts;
    ok, payload, attempts := Deliver(settings, userId, [TextMessage(message)], respond);
  }

  /**
   * `send_image_notification`. `uploadedUrl` is what `upload_image`
   * returned (`None` when it raised); an empty or missing URL ends the call
   * with false before LINE is contacted. After a successful push the old
   * images are cleaned up; whatever the cleanup does (`cleanupRaises`) is
   * caught and logged, so it cannot change the result.
   */
  method SendImageNotification(settings: LineSettings, uploadedUrl: Option<string>, message: string,
                               userId: Option<string>, respond: nat -> Response, cleanupRaises: bool)
    returns (ok: bool, payload: Option<Payload>, cleanupRan: bool)
    ensures uploadedUrl.None? || uploadedUrl.value == "" ==> !ok && payload.None? && !cleanupRan
    ensures ok <==> uploadedUrl.Some? && uploadedUrl.value != "" &&
                    CanSend(settings, userId) && Delivered(respond, RetryCount(settings))
    ensures cleanupRan <==> ok
    ensures payload.Some? ==> IsImageMessageList(payload.value.messages, uploadedUrl.value, message)
  {
    if uploadedUrl.None? || uploadedUrl.value == "" {
      return false, None, false;
    }
    ok, payload := SendLineMessage(settings, uploadedUrl.value, message, userId, respond);
    cleanupRan := false;
    if ok {
      cleanupRan := true;
      if cleanupRaises {
        // logged as a warning; the result stays `ok`
      }
    }
  }
}

/**
 * The pure logic of `R2Uploader`: configuration validation, the object key
 * and public URL of an upload, the key a URL is deleted under, the
 * retention rule of `cleanup_old_images` and the bucket totals. The S3 API,
 * the clock, the file system and MD5 are parameters.
 */
module R2 {
  import opened Common
  import opened Strings

  /** The `r2` section of the configuration; a missing entry is `None`. */
  datatype R2Config = R2Config(
    accountId: Option<string>,
    accessKeyId: Option<string>,
    secretAccessKey: Option<string>,
    bucketName: Option<string>,
    publicUrlBase: Option<string>,
    customDomain: Option<string>)

  /** Python truthiness of an optional string: present and non-empty. */
  predicate Truthy(o: Option<string>) {
    o.Some? && o.value != ""
  }

  /** The string, or "" when absent: both are falsy, the only way the source tests them. */
  function OrEmpty(o: Option<string>): string {
    match o
    case Some(s) => s
    case None => ""
  }

  /**
   * A constructed uploader. `publicUrlBase` and `customDomain` are "" when
   * not configured.
   */
  datatype Uploader = Uploader(
    accountId: string,
    accessKeyId: string,
    secretAccessKey: string,
    bucketName: string,
    publicUrlBase: string,
    customDomain: string)

  /** The four required settings are non-empty. */
  predicate ValidUploader(u: Uploader) {
    u.accountId != "" && u.accessKeyId != "" && u.secretAccessKey != "" && u.bucketName != ""
  }

  datatype R2Error =
    | ConfigurationMissing   // ValueError("Cloudflare R2 configuration missing")
    | BucketAccessFailed     // ValueError from head_bucket
    | ImageNotFound          // FileNotFoundError
    | FileTooLarge           // ValueError("File size too large (max 10MB)")
    | UploadFailed           // Exception("R2 upload failed: ...")

  /**
   * `R2Uploader.__init__` after the configuration is read: fails when any
   * of account_id, access_key_id, secret_access_key or bucket_name is
   * missing or empty, then when the bucket cannot be reached.
   */
  function NewUploader(cfg: R2Config, bucketReachable: bool): (r: Result<Uploader, R2Error>)
    ensures r == Err(ConfigurationMissing) <==>
              !(Truthy(cfg.accountId) && Truthy(cfg.accessKeyId) &&
                Truthy(cfg.secretAccessKey) && Truthy(cfg.bucketName))
    ensures r.Ok? <==> r != Err(ConfigurationMissing) && bucketReachable
    ensures r.Ok? ==>
              ValidUploader(r.value) &&
              r.value.accountId == cfg.accountId.value && r.value.bucketName == cfg.bucketName.value &&
              r.value.publicUrlBase == OrEmpty(cfg.publicUrlBase) &&
              r.value.customDomain == OrEmpty(cfg.customDomain)
  {
    if !(Truthy(cfg.accountId) && Truthy(cfg.accessKeyId) &&
         Truthy(cfg.secretAccessKey) && Truthy(cfg.bucketName)) then
      Err(ConfigurationMissing)
    else if !bucketReachable then
      Err(BucketAccessFailed)
    else
      Ok(Uploader(cfg.accountId.value, cfg.accessKeyId.value, cfg.secretAccessKey.value,
                  cfg.bucketName.value, OrEmpty(cfg.publicUrlBase), OrEmpty(cfg.customDomain)))
  }

  /** The S3-compatible endpoint of the account, from which the account id reads back. */
  function EndpointUrl(u: Uploader): (r: string)
    ensures StartsWith(r, "https://") && |r| == |u.accountId| + 33
    ensures r[8..8 + |u.accountId|] == u.accountId
  {
    "https://" + u.accountId + ".r2.cloudflarestorage.com"
  }

  /** The folder every uploaded object is stored under. */
  const KeyFolder: string := "chigemotsu"

  /** The largest file `upload_image` accepts: 10 MiB. */
  const MaxUploadBytes: nat := 10 * 1024 * 1024

  /** `hexdigest()[:8]`: the first eight digits, or all of a shorter digest. */
  function Hash8(md5Hex: string): (r: string)
    ensures |r| == if |md5Hex| <= 8 then |md5Hex| else 8
    ensures r == md5Hex[..|r|]
  {
    if |md5Hex| <= 8 then md5Hex else md5Hex[..8]
  }

  /** `chigemotsu_{timestamp}_{hash8}.jpg`. */
  function UploadFileName(timestamp: nat, md5Hex: string): (r: string)
    ensures StartsWith(r, "chigemotsu_")
    ensures |r| >= 4 && r[|r| - 4..] == ".jpg"
  {
    "chigemotsu" + "_" + NatToString(timestamp) + "_" + Hash8(md5Hex) + ".jpg"
  }

  /** `chigemotsu/{filename}`: every uploaded key lies in the `chigemotsu/` folder. */
  function UploadKey(timestamp: nat, md5Hex: string): (r: string)
    ensures StartsWith(r, "chigemotsu/")
    ensures r[11..] == UploadFileName(timestamp, md5Hex)
  {
    var key := KeyFolder + "/" + UploadFileName(timestamp, md5Hex);
    assert key[..11] == "chigemotsu/";
    key
  }

  /**
   * The base of public URLs: the custom domain if set, else the public URL
   * base if set, else the account's r2.dev address.
   */
  function PublicBase(u: Uploader): (r: string)
    ensures u.customDomain != "" ==> r == "https://" + u.customDomain
    ensures u.customDomain == "" && u.publicUrlBase != "" ==> r == u.publicUrlBase
    ensures u.customDomain == "" && u.publicUrlBase == "" ==> r == "https://pub-" + u.accountId + ".r2.dev"
  {
    if u.customDomain != "" then "https://" + u.customDomain
    else if u.publicUrlBase != "" then u.publicUrlBase
    else "https://pub-" + u.accountId + ".r2.dev"
  }

  /** The public URL of an object, as `upload_image` and `list_images` both build it. */
  function PublicUrl(u: Uploader, key: string): (r: string)
    ensures StartsWith(r, PublicBase(u) + "/")
    ensures r[|PublicBase(u)| + 1..] == key
  {
    PublicBase(u) + "/" + key
  }

  /**
   * `upload_image`: refuses a missing file, then a file over 10 MiB, before
   * any upload; otherwise stores the file under a key of the form
   * `chigemotsu/chigemotsu_{timestamp}_{hash8}.jpg` and returns its public
   * URL. `now` is `int(time.time())`, `md5Hex` the file's MD5 digest.
   */
  function UploadImage(u: Uploader, fileExists: bool, fileSize: nat, now: nat, md5Hex: string,
                       uploadSucceeds: bool): (r: Result<string, R2Error>)
    ensures !fileExists ==> r == Err(ImageNotFound)
    ensures fileExists && fileSize > MaxUploadBytes ==> r == Err(FileTooLarge)
    ensures r.Ok? <==> fileExists && fileSize <= MaxUploadBytes && uploadSucceeds
    ensures r.Ok? ==> r.value == PublicUrl(u, UploadKey(now, md5Hex))
  {
    if !fileExists then Err(ImageNotFound)
    else if fileSize > MaxUploadBytes then Err(FileTooLarge)
    else if !uploadSucceeds then Err(UploadFailed)
    else Ok(PublicUrl(u, UploadKey(now, md5Hex)))
  }

  // ---------------------------------------------------------------------
  // delete_image (r2_uploader.py:235-257)
  // ---------------------------------------------------------------------

  /**
   * The key `delete_image` deletes: a URL (anything starting with "http")
   * is cut at the first configured address found in it, taking the second
   * field of the split; anything else is the key itself. `None` is the
   * IndexError raised when the separator is not in the URL.
   */
  function KeyOfUrlOrKey(u: Uploader, urlOrKey: string): (r: Option<string>)
    ensures !StartsWith(urlOrKey, "http") ==> r == Some(urlOrKey)
  {
    if StartsWith(urlOrKey, "http") then
      if u.customDomain != "" && Contains(urlOrKey, u.customDomain) then
        SplitSecond(urlOrKey, u.customDomain + "/")
      else if u.publicUrlBase != "" && Contains(urlOrKey, u.publicUrlBase) then
        SplitSecond(urlOrKey, u.publicUrlBase + "/")
      else
        SplitSecond(urlOrKey, "pub-" + u.accountId + ".r2.dev/")
    else Some(urlOrKey)
  }

  /**
   * `delete_image`: the key deleted, or `None` when it returns False (no
   * key could be extracted, or the S3 delete failed).
   */
  function DeleteImage(u: Uploader, urlOrKey: string, deleteSucceeds: bool): (deleted: Option<string>)
    ensures deleted.Some? <==> KeyOfUrlOrKey(u, urlOrKey).Some? && deleteSucceeds
    ensures deleted.Some? ==> deleted == KeyOfUrlOrKey(u, urlOrKey)
  {
    match KeyOfUrlOrKey(u, urlOrKey)
    case None => None
    case Some(key) => if deleteSucceeds then Some(key) else None
  }

  /** The separator the URL of `u` is split on when deleting. */
  function Separator(u: Uploader): string {
    if u.customDomain != "" then u.customDomain + "/"
    else if u.publicUrlBase != "" then u.publicUrlBase + "/"
    else "pub-" + u.accountId + ".r2.dev/"
  }

  /** A host name: no '/' and no ':'. */
  predicate IsHostName(host: string) {
    host != [] && forall i :: 0 <= i < |host| ==> host[i] != '/' && host[i] != ':'
  }

  lemma OccursAtHere(s: string, sep: string, k: nat)
    requires k + |sep| <= |s| && s[k..k + |sep|] == sep
    ensures OccursAt(s, sep, k) && Contains(s, sep)
  {
    assert OccursAt(s, sep, k);
  }

  /** One mismatching character rules out an occurrence. */
  lemma NotOccursAt(s: string, sep: string, j: nat, t: nat)
    requires t < |sep| && j + t < |s| && s[j + t] != sep[t]
    ensures !OccursAt(s, sep, j)
  {
    if j + |sep| <= |s| {
      assert s[j..j + |sep|][t] == s[j + t];
    }
  }

  /** After "https://", the first "host/" is the one that follows it. */
  lemma HostSeparatorFirstAfterScheme(host: string)
    requires IsHostName(host)
    ensures Find("https://" + (host + "/"), host + "/") == Some(8)
  {
    var sep := host + "/";
    var s := "https://" + sep;
    var n := |sep|;
    assert s[8..8 + n] == sep;
    assert s[..8] == "https://";
    forall j | 0 <= j < 8
      ensures !OccursAt(s, sep, j)
    {
      if j >= 6 {
        NotOccursAt(s, sep, j, 0);
      } else if j + n - 1 >= 5 {
        NotOccursAt(s, sep, j, 5 - j);
      } else {
        NotOccursAt(s, sep, j, n - 1);
      }
    }
    FindIsFirst(s, sep, 8);
  }

  /** After "https://", the first "pub-<account>.r2.dev/" is the one that follows it. */
  lemma DevSeparatorFirstAfterScheme(account: string)
    ensures var sep := "pub-" + account + ".r2.dev/";
            Find("https://" + sep, sep) == Some(8)
  {
    var sep := "pub-" + account + ".r2.dev/";
    var s := "https://" + sep;
    assert s[8..8 + |sep|] == sep;
    assert s[..8] == "https://";
    forall j | 0 <= j < 8
      ensures !OccursAt(s, sep, j)
    {
      if j == 3 {
        NotOccursAt(s, sep, j, 1);
      } else {
        NotOccursAt(s, sep, j, 0);
      }
    }
    FindIsFirst(s, sep, 8);
  }

  /** A custom-domain URL splits back into its key. */
  lemma KeyOfCustomDomainUrl(u: Uploader, key: string)
    requires u.customDomain != "" && IsHostName(u.customDomain)
    requires Find(key, u.customDomain + "/") == None
    ensures KeyOfUrlOrKey(u, PublicUrl(u, key)) == Some(key)
  {
    var host := u.customDomain;
    var url := PublicUrl(u, key);
    assert url == "https://" + (host + "/") + key;
    assert url[..4] == "http";
    OccursAtHere(url, host, 8);
    HostSeparatorFirstAfterScheme(host);
    SplitSecondAfter("https://", host + "/", key);
  }

  /** A URL under the public URL base splits back into its key. */
  lemma KeyOfPublicBaseUrl(u: Uploader, key: string)
    requires u.customDomain == "" && u.publicUrlBase != "" && StartsWith(u.publicUrlBase, "http")
    requires Find(key, u.publicUrlBase + "/") == None
    ensures KeyOfUrlOrKey(u, PublicUrl(u, key)) == Some(key)
  {
    var base := u.publicUrlBase;
    var sep := base + "/";
    var url := PublicUrl(u, key);
    assert url == [] + sep + key;
    assert url[..4] == base[..4];
    OccursAtHere(url, base, 0);
    assert sep[0..|sep|] == sep;
    FindIsFirst([] + sep, sep, 0);
    SplitSecondAfter([], sep, key);
  }

  /** A fallback r2.dev URL splits back into its key. */
  lemma KeyOfDevUrl(u: Uploader, key: string)
    requires u.customDomain == "" && u.publicUrlBase == ""
    requires Find(key, "pub-" + u.accountId + ".r2.dev/") == None
    ensures KeyOfUrlOrKey(u, PublicUrl(u, key)) == Some(key)
  {
    var sep := "pub-" + u.accountId + ".r2.dev/";
    var url := PublicUrl(u, key);
    assert url == "https://" + sep + key;
    assert url[..4] == "http";
    DevSeparatorFirstAfterScheme(u.accountId);
    SplitSecondAfter("https://", sep, key);
  }

  /**
   * Deleting by public URL deletes the key the URL was built from, provided
   * the key does not itself contain the separator the URL is split on, the
   * custom domain is a host name and a public URL base starts with "http"
   * (otherwise `delete_image` takes the URL for a key).
   */
  lemma KeyOfPublicUrl(u: Uploader, key: string)
    requires u.customDomain != "" ==> IsHostName(u.customDomain)
    requires u.customDomain == "" && u.publicUrlBase != "" ==> StartsWith(u.publicUrlBase, "http")
    requires Find(key, Separator(u)) == None
    ensures KeyOfUrlOrKey(u, PublicUrl(u, key)) == Some(key)
  {
    if u.customDomain != "" {
      KeyOfCustomDomainUrl(u, key);
    } else if u.publicUrlBase != "" {
      KeyOfPublicBaseUrl(u, key);
    } else {
      KeyOfDevUrl(u, key);
    }
  }

  // ---------------------------------------------------------------------
  // list_images, cleanup_old_images, get_bucket_stats (r2_uploader.py:259-344)
  // ---------------------------------------------------------------------

  /** An object of the bucket listing: its key and size in bytes. */
  datatype StoredObject = StoredObject(key: string, size: nat)

  /** An entry of `list_images`; `last_modified` is left out. */
  datatype ImageInfo = ImageInfo(key: string, url: string, size: nat)

  /**
   * `list_images`: one entry per listed object, with the public URL built
   * by the same rule as `upload_image`. A failed listing (`None`) yields [].
   */
  function ListImages(u: Uploader, listing: Option<seq<StoredObject>>): (images: seq<ImageInfo>)
    ensures listing.None? ==> images == []
    ensures listing.Some? ==> |images| == |listing.value|
    ensures listing.Some? ==> forall i :: 0 <= i < |images| ==>
              images[i].key == listing.value[i].key && images[i].size == listing.value[i].size &&
              images[i].url == PublicUrl(u, images[i].key)
  {
    match listing
    case None => []
    case Some(objects) =>
      seq(|objects|, i requires 0 <= i < |objects| =>
        ImageInfo(objects[i].key, PublicUrl(u, objects[i].key), objects[i].size))
  }

  /** Every listed URL deletes the object it was listed for (when its key has no separator). */
  lemma ListedUrlsDeleteTheirKeys(u: Uploader, listing: seq<StoredObject>, i: nat)
    requires ValidUploader(u)
    requires u.customDomain != "" ==> IsHostName(u.customDomain)
    requires u.customDomain == "" && u.publicUrlBase != "" ==> StartsWith(u.publicUrlBase, "http")
    requires i < |listing| && Find(listing[i].key, Separator(u)) == None
    ensures KeyOfUrlOrKey(u, ListImages(u, Some(listing))[i].url) == Some(listing[i].key)
  {
    KeyOfPublicUrl(u, listing[i].key);
  }

  /**
   * The upload time `cleanup_old_images` reads from a key:
   * `int(Path(key).name.split("_")[1])`, `None` when that raises.
   */
  function UploadTimeOfKey(key: string): (r: Option<int>)
    ensures !Contains(BaseName(key), "_") ==> r.None?
  {
    match SplitSecond(BaseName(key), "_")
    case None => None
    case Some(field) => ParseInt(field)
  }

  predicate IsHexDigit(c: char) {
    ('0' <= c <= '9') || ('a' <= c <= 'f')
  }

  /** An upload's file name has no '/', so it is the name of its key. */
  lemma UploadFileNameHasNoSlash(t: nat, md5Hex: string)
    requires forall i :: 0 <= i < |md5Hex| ==> IsHexDigit(md5Hex[i])
    ensures '/' !in UploadFileName(t, md5Hex)
  {
    var digits := NatToString(t);
    var hash := Hash8(md5Hex);
    var name := UploadFileName(t, md5Hex);
    assert name == "chigemotsu_" + digits + "_" + hash + ".jpg";
    forall i | 0 <= i < |name|
      ensures name[i] != '/'
    {
      if 11 <= i < 11 + |digits| {
        assert name[i] == digits[i - 11] && IsDigit(digits[i - 11]);
      } else if 12 + |digits| <= i < |name| - 4 {
        assert name[i] == hash[i - 12 - |digits|];
      }
    }
  }

  /** Field 1 of an upload's file name split on "_" is its timestamp. */
  lemma UploadFileNameTimeField(t: nat, md5Hex: string)
    ensures SplitSecond(UploadFileName(t, md5Hex), "_") == Some(NatToString(t))
  {
    var digits := NatToString(t);
    assert '_' !in digits by {
      forall i | 0 <= i < |digits|
        ensures digits[i] != '_'
      {
        assert IsDigit(digits[i]);
      }
    }
    assert '_' !in "chigemotsu";
    SplitSecondOfFields("chigemotsu", '_', digits, Hash8(md5Hex), ".jpg");
  }

  /** The key of an upload at time `t` reads back as `t`. */
  lemma UploadTimeOfUploadKey(t: nat, md5Hex: string)
    requires forall i :: 0 <= i < |md5Hex| ==> IsHexDigit(md5Hex[i])
    ensures UploadTimeOfKey(UploadKey(t, md5Hex)) == Some(t)
  {
    UploadFileNameHasNoSlash(t, md5Hex);
    BaseNameOfChild(KeyFolder, UploadFileName(t, md5Hex));
    UploadFileNameTimeField(t, md5Hex);
    ParseIntOfNatToString(t);
  }

  /** The seconds in one day, for `max_age_days * 24 * 3600`. */
  const SecondsPerDay: int := 24 * 3600

  /** The instant before which `cleanup_old_images` deletes. */
  function Cutoff(now: int, maxAgeDays: int): (r: int)
    ensures r < now <==> maxAgeDays > 0
    ensures maxAgeDays >= 0 ==> r <= now
  {
    now - maxAgeDays * SecondsPerDay
  }

  /** An image whose key carries an upload time before the cutoff. */
  predicate IsExpired(image: ImageInfo, cutoff: int)
    ensures UploadTimeOfKey(image.key).None? ==> !IsExpired(image, cutoff)
  {
    UploadTimeOfKey(image.key).Some? && UploadTimeOfKey(image.key).value < cutoff
  }

  /** The keys of the images `keep` selects, in listing order. */
  function KeysWhere(images: seq<ImageInfo>, keep: ImageInfo -> bool): seq<string> {
    if images == [] then []
    else (if keep(images[0]) then [images[0].key] else []) + KeysWhere(images[1..], keep)
  }

  lemma {:induction false} KeysWhereAppend(a: seq<ImageInfo>, b: seq<ImageInfo>, keep: ImageInfo -> bool)
    ensures KeysWhere(a + b, keep) == KeysWhere(a, keep) + KeysWhere(b, keep)
  {
    if a == [] {
      assert a + b == b;
    } else {
      assert (a + b)[0] == a[0] && (a + b)[1..] == a[1..] + b;
      KeysWhereAppend(a[1..], b, keep);
    }
  }

  /** At most one key per image is collected. */
  lemma {:induction false} KeysWhereLength(images: seq<ImageInfo>, keep: ImageInfo -> bool)
    ensures |KeysWhere(images, keep)| <= |images|
  {
    if images != [] {
      KeysWhereLength(images[1..], keep);
    }
  }

  /** Exactly the selected images' keys are collected. */
  lemma {:induction false} KeysWhereExact(images: seq<ImageInfo>, keep: ImageInfo -> bool)
    ensures forall k :: k in KeysWhere(images, keep) ==>
              exists i :: 0 <= i < |images| && images[i].key == k && keep(images[i])
    ensures forall i :: 0 <= i < |images| && keep(images[i]) ==> images[i].key in KeysWhere(images, keep)
  {
    if images != [] {
      KeysWhereExact(images[1..], keep);
      forall k | k in KeysWhere(images, keep)
        ensures exists i :: 0 <= i < |images| && images[i].key == k && keep(images[i])
      {
        if k in KeysWhere(images[1..], keep) {
          var j :| 0 <= j < |images[1..]| && images[1..][j].key == k && keep(images[1..][j]);
          assert images[j + 1] == images[1..][j];
        } else {
          assert images[0].key == k && keep(images[0]);
        }
      }
      forall i | 0 <= i < |images| && keep(images[i])
        ensures images[i].key in KeysWhere(images, keep)
      {
        if i > 0 {
          assert images[1..][i - 1] == images[i];
        }
      }
    }
  }

  /** The keys of the expired images, in listing order. */
  function ExpiredKeys(images: seq<ImageInfo>, cutoff: int): (r: seq<string>)
    ensures |r| <= |images|
  {
    KeysWhereLength(images, (image: ImageInfo) => IsExpired(image, cutoff));
    KeysWhere(images, (image: ImageInfo) => IsExpired(image, cutoff))
  }

  /** Exactly the expired images' keys are collected; unparsable and recent ones never are. */
  lemma ExpiredKeysExact(images: seq<ImageInfo>, cutoff: int)
    ensures forall k :: k in ExpiredKeys(images, cutoff) ==>
              exists i :: 0 <= i < |images| && images[i].key == k && IsExpired(images[i], cutoff)
    ensures forall i :: 0 <= i < |images| && IsExpired(images[i], cutoff) ==> images[i].key in ExpiredKeys(images, cutoff)
  {
    KeysWhereExact(images, (image: ImageInfo) => IsExpired(image, cutoff));
  }

  /** The longest prefix of `keys` none of whose deletions fails. */
  function DeletedBeforeFailure(keys: seq<string>, failing: set<string>): (done: seq<string>)
    ensures |done| <= |keys| && done == keys[..|done|]
    ensures forall k :: k in done ==> k !in failing
    ensures |done| < |keys| ==> keys[|done|] in failing
  {
    if keys == [] || keys[0] in failing then []
    else [keys[0]] + DeletedBeforeFailure(keys[1..], failing)
  }

  lemma {:induction false} DeletedBeforeFailureSkips(done: seq<string>, rest: seq<string>, failing: set<string>)
    requires forall k :: k in done ==> k !in failing
    ensures DeletedBeforeFailure(done + rest, failing) == done + DeletedBeforeFailure(rest, failing)
  {
    if done == [] {
      assert done + rest == rest;
    } else {
      assert done[0] in done;
      assert (done + rest)[0] == done[0] && (done + rest)[1..] == done[1..] + rest;
      DeletedBeforeFailureSkips(done[1..], rest, failing);
    }
  }

  /** Scanning one more image adds its key exactly when it is expired. */
  lemma ExpiredKeysStep(images: seq<ImageInfo>, i: nat, cutoff: int)
    requires i < |images|
    ensures ExpiredKeys(images[..i + 1], cutoff) ==
              ExpiredKeys(images[..i], cutoff) + (if IsExpired(images[i], cutoff) then [images[i].key] else [])
  {
    assert images[..i + 1] == images[..i] + [images[i]];
    KeysWhereAppend(images[..i], [images[i]], (image: ImageInfo) => IsExpired(image, cutoff));
    assert [images[i]][1..] == [];
  }

  /** A failing delete of an expired image ends the deletions with the keys scanned before it. */
  lemma FailureEndsDeletions(images: seq<ImageInfo>, i: nat, cutoff: int, failing: set<string>)
    requires i < |images| && IsExpired(images[i], cutoff) && images[i].key in failing
    requires forall k :: k in ExpiredKeys(images[..i], cutoff) ==> k !in failing
    ensures DeletedBeforeFailure(ExpiredKeys(images, cutoff), failing) == ExpiredKeys(images[..i], cutoff)
    ensures |ExpiredKeys(images[..i], cutoff)| < |ExpiredKeys(images, cutoff)|
  {
    var keep := (image: ImageInfo) => IsExpired(image, cutoff);
    assert images == images[..i] + images[i..];
    KeysWhereAppend(images[..i], images[i..], keep);
    assert images[i..] == [images[i]] + images[i + 1..];
    KeysWhereAppend([images[i]], images[i + 1..], keep);
    assert [images[i]][1..] == [];
    var done := ExpiredKeys(images[..i], cutoff);
    var rest := ExpiredKeys(images[i..], cutoff);
    assert rest[0] == images[i].key;
    DeletedBeforeFailureSkips(done, rest, failing);
    assert done + [] == done;
  }

  /** With no failing key, every key is deleted. */
  lemma NoFailureDeletesAll(keys: seq<string>, failing: set<string>)
    requires forall k :: k in keys ==> k !in failing
    ensures DeletedBeforeFailure(keys, failing) == keys
  {
    DeletedBeforeFailureSkips(keys, [], failing);
    assert keys + [] == keys;
  }

  /**
   * `cleanup_old_images` over a listing: deletes, in order, each image whose
   * key parses to an upload time before `now - maxAgeDays` days, skipping
   * keys that do not parse, and returns how many it deleted. A delete that
   * raises (its key in `failing`) ends the loop, and the call returns 0
   * with the earlier deletions done.
   */
  method CleanupOldImages(images: seq<ImageInfo>, now: int, maxAgeDays: int, failing: set<string>)
    returns (deletedCount: nat, deleted: seq<string>)
    ensures deleted == DeletedBeforeFailure(ExpiredKeys(images, Cutoff(now, maxAgeDays)), failing)
    ensures deletedCount ==
              if |deleted| == |ExpiredKeys(images, Cutoff(now, maxAgeDays))| then |deleted| else 0
  {
    var cutoff := Cutoff(now, maxAgeDays);
    deletedCount, deleted := 0, [];
    var i := 0;
    while i < |images|
      invariant 0 <= i <= |images|
      invariant deleted == ExpiredKeys(images[..i], cutoff)
      invariant deletedCount == |deleted|
      invariant forall k :: k in deleted ==> k !in failing
    {
      ExpiredKeysStep(images, i, cutoff);
      // `file_time < cutoff_time`, where a key that does not parse is skipped
      if IsExpired(images[i], cutoff) {
        if images[i].key in failing {
          FailureEndsDeletions(images, i, cutoff, failing);
          deletedCount := 0;
          return;
        }
        deleted := deleted + [images[i].key];
        deletedCount := deletedCount + 1;
      }
      i := i + 1;
    }
    assert images[..i] == images;
    NoFailureDeletesAll(deleted, failing);
  }

  /** The dictionary `get_bucket_stats` returns; the size is in bytes (the MB division is left out). */
  datatype BucketStats = BucketStats(totalImages: nat, totalSize: nat, bucketName: string,
                                     accountId: string, endpointUrl: string)

  function SumSizes(images: seq<ImageInfo>): nat {
    if images == [] then 0 else images[0].size + SumSizes(images[1..])
  }

  /** `get_bucket_stats`: the number of listed images and the sum of their sizes. */
  function GetBucketStats(u: Uploader, images: seq<ImageInfo>): (s: BucketStats)
    ensures s.totalImages == |images| && s.totalSize == SumSizes(images)
    ensures s.endpointUrl == EndpointUrl(u)
  {
    BucketStats(|images|, SumSizes(images), u.bucketName, u.accountId, EndpointUrl(u))
  }

  /** The bytes of a listing: the sum of its objects' sizes. */
  function ListedBytes(objects: seq<StoredObject>): nat {
    if objects == [] then 0 else objects[0].size + ListedBytes(objects[1..])
  }

  /**
   * `get_bucket_stats` over `list_images`: one image per listed object and
   * the listing's bytes; a failed listing (which `list_images` turns into
   * []) reports zero images and zero bytes rather than the empty dict.
   */
  lemma BucketStatsOfListing(u: Uploader, listing: Option<seq<StoredObject>>)
    ensures var s := GetBucketStats(u, ListImages(u, listing));
            s.totalImages == (if listing.None? then 0 else |listing.value|) &&
            s.totalSize == (if listing.None? then 0 else ListedBytes(listing.value))
  {
    if listing.Some? {
      ListedSizes(u, listing.value);
    }
  }

  lemma {:induction false} ListedSizes(u: Uploader, objects: seq<StoredObject>)
    ensures SumSizes(ListImages(u, Some(objects))) == ListedBytes(objects)
  {
    if objects != [] {
      ListedSizes(u, objects[1..]);
      assert ListImages(u, Some(objects))[1..] == ListImages(u, Some(objects[1..]));
    }
  }
}

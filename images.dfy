/** Image URL construction of src/lib/images.ts: storage paths become URLs
    on the image host, full URLs pass through, and an update timestamp is
    appended as a cache-busting `v` parameter. */
module Images {
  import opened Wrappers
  import opened Strings

  const DefaultImagesUrl: string := "https://images.lblauncher.com"

  /** `NEXT_PUBLIC_R2_IMAGES_URL || default`: an unset or empty variable
      falls back to the default host. */
  function ImagesBaseUrl(env: Option<string>): (url: string)
    ensures env.Some? && env.value != "" ==> url == env.value
    ensures env.None? || env.value == "" ==> url == DefaultImagesUrl
    ensures url != ""
  {
    if env.Some? && env.value != "" then env.value else DefaultImagesUrl
  }

  predicate IsFullUrl(path: string)
  {
    StartsWith(path, "http://") || StartsWith(path, "https://")
  }

  /** The storage path without one leading `/`. */
  function CleanPath(path: string): (clean: string)
    ensures StartsWith(path, "/") ==> [path[0]] + clean == path
    ensures !StartsWith(path, "/") ==> clean == path
  {
    if StartsWith(path, "/") then path[1..] else path
  }

  /** `getImageUrl(path, updatedAt)`. `timestamp` renders
      `new Date(updatedAt).getTime()` as text and `baseUrl` is the image host;
      both are parameters of the model. */
  function GetImageUrl(path: Option<string>, updatedAt: Option<string>,
                       baseUrl: string, timestamp: string -> string): (r: Option<string>)
    ensures r.None? <==> path.None? || path.value == ""
    ensures r.Some? && IsFullUrl(path.value) ==>
      if updatedAt.None? || updatedAt.value == "" then r.value == path.value
      else r.value == path.value + (if Contains(path.value, "?") then "&" else "?") + "v=" + timestamp(updatedAt.value)
    ensures r.Some? && !IsFullUrl(path.value) ==>
      if updatedAt.None? || updatedAt.value == "" then r.value == baseUrl + "/" + CleanPath(path.value)
      else r.value == baseUrl + "/" + CleanPath(path.value) + "?v=" + timestamp(updatedAt.value)
  {
    if path.None? || path.value == "" then None
    else
      var p := path.value;
      var stamped := updatedAt.Some? && updatedAt.value != "";
      if IsFullUrl(p) then
        if stamped then
          Some(p + (if Contains(p, "?") then "&" else "?") + "v=" + timestamp(updatedAt.value))
        else Some(p)
      else
        var url := baseUrl + "/" + CleanPath(p);
        if stamped then Some(url + "?v=" + timestamp(updatedAt.value)) else Some(url)
  }

  /** A URL is only ever extended: a full URL keeps itself as a prefix and a
      storage path keeps the host and its own cleaned path. */
  lemma {:induction false} ResultExtendsInput(path: string, updatedAt: Option<string>,
                                              baseUrl: string, timestamp: string -> string)
    requires path != ""
    ensures var r := GetImageUrl(Some(path), updatedAt, baseUrl, timestamp).value;
      if IsFullUrl(path) then StartsWith(r, path)
      else StartsWith(r, baseUrl + "/" + CleanPath(path))
  {
    var prefix := if IsFullUrl(path) then path else baseUrl + "/" + CleanPath(path);
    if updatedAt.None? || updatedAt.value == "" {
      assert GetImageUrl(Some(path), updatedAt, baseUrl, timestamp).value == prefix + [];
      ConcatStartsWith(prefix, []);
    } else {
      var sep := if IsFullUrl(path) then (if Contains(path, "?") then "&" else "?") else "?";
      var tail := sep + "v=" + timestamp(updatedAt.value);
      assert GetImageUrl(Some(path), updatedAt, baseUrl, timestamp).value == prefix + tail;
      ConcatStartsWith(prefix, tail);
    }
  }

  lemma ConcatStartsWith(a: string, b: string)
    ensures StartsWith(a + b, a)
  {
    assert (a + b)[..|a|] == a;
  }

  /** A leading slash on a storage path makes no difference. */
  lemma LeadingSlashIgnored(path: string, updatedAt: Option<string>,
                            baseUrl: string, timestamp: string -> string)
    requires path != "" && !IsFullUrl(path) && !StartsWith(path, "/")
    ensures GetImageUrl(Some("/" + path), updatedAt, baseUrl, timestamp)
         == GetImageUrl(Some(path), updatedAt, baseUrl, timestamp)
  {
    var slashed := "/" + path;
    assert StartsWith(slashed, "/") by { assert slashed[..1] == "/"; }
    assert slashed[1..] == path;
    assert !IsFullUrl(slashed) by {
      assert slashed[0] == '/';
    }
  }

  /** A stored path on the default host, with its slash dropped. */
  lemma StoredPathExample(timestamp: string -> string)
    ensures GetImageUrl(Some("/a.png"), None, ImagesBaseUrl(None), timestamp)
         == Some("https://images.lblauncher.com/a.png")
  {
    var slashed := "/a.png";
    assert slashed[..1] == "/" && slashed[1..] == "a.png";
    assert slashed[0] != "http://"[0] && slashed[0] != "https://"[0];
    assert !IsFullUrl(slashed) && CleanPath(slashed) == "a.png";
    assert DefaultImagesUrl + "/" + "a.png" == "https://images.lblauncher.com/a.png";
  }

  /** A stored path with an update time gets a `?v=` parameter. */
  lemma StampedPathExample(timestamp: string -> string)
    requires timestamp("2024") == "17"
    ensures GetImageUrl(Some("a.png"), Some("2024"), ImagesBaseUrl(None), timestamp)
         == Some("https://images.lblauncher.com/a.png?v=17")
  {
    var rel := "a.png";
    assert rel[0] != "/"[0] && rel[0] != "http://"[0] && rel[0] != "https://"[0];
    assert !IsFullUrl(rel) && CleanPath(rel) == rel;
    assert DefaultImagesUrl + "/" + rel + "?v=" + "17"
        == "https://images.lblauncher.com/a.png?v=17";
  }

  /** A full URL that already has a query string gets `&v=`. */
  lemma StampedFullUrlExample(timestamp: string -> string)
    requires timestamp("2024") == "17"
    ensures GetImageUrl(Some("https://cdn.example/a.jpg?w=1"), Some("2024"), ImagesBaseUrl(None), timestamp)
         == Some("https://cdn.example/a.jpg?w=1&v=17")
  {
    var full := "https://cdn.example/a.jpg?w=1";
    assert full[..8] == "https://";
    assert OccursAt(full, "?", 25);
    ContainsIffOccurs(full, "?");
    assert IsFullUrl(full) && Contains(full, "?");
    assert full + "&" + "v=" + "17" == "https://cdn.example/a.jpg?w=1&v=17";
  }

  /** An empty path yields no URL, whatever the timestamp. */
  lemma EmptyPathExample(timestamp: string -> string)
    ensures GetImageUrl(Some(""), Some("2024"), ImagesBaseUrl(None), timestamp) == None
  {
  }
}

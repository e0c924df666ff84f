/** The client-side release hook of src/hooks/useGitHubRelease.ts: the
    fetch-and-sum of `fetchAllReleases` (the two upstream answers are inputs),
    the download links picked from the latest release, and the operating
    system guessed from the user agent. */
module GitHubRelease {
  import opened Wrappers
  import opened Strings
  import opened Releases

  /** `fetchAllReleases`: a non-ok latest release throws "Failed to fetch
      latest release"; a non-ok release list counts as 0 downloads. */
  method FetchAllReleases(latest: Fetched<Release>, all: Fetched<seq<Release>>)
    returns (r: Result<AllReleasesData, string>)
    ensures r.Err? <==> latest.NotOk?
    ensures r.Err? ==> r.error == "Failed to fetch latest release"
    ensures r.Ok? ==> r.value.latest == latest.body
    ensures r.Ok? ==> r.value.totalDownloads == if all.Success? then TotalDownloads(all.body) else 0
  {
    if latest.NotOk? {
      return Err("Failed to fetch latest release");
    }
    var totalDownloads := 0;
    if all.Success? {
      totalDownloads := CountDownloads(all.body);
    }
    return Ok(AllReleasesData(latest.body, totalDownloads));
  }

  /** The index of the first asset whose name ends with `suffix`
      (`assets.find((a) => a.name.endsWith(suffix))`). */
  function FirstWithSuffix(assets: seq<Asset>, suffix: string): (k: Option<nat>)
    ensures k.None? <==> forall i :: 0 <= i < |assets| ==> !EndsWith(assets[i].name, suffix)
    ensures k.Some? ==> k.value < |assets| && EndsWith(assets[k.value].name, suffix)
    ensures k.Some? ==> forall i :: 0 <= i < k.value ==> !EndsWith(assets[i].name, suffix)
  {
    if assets == [] then None
    else if EndsWith(assets[0].name, suffix) then Some(0)
    else
      match FirstWithSuffix(assets[1..], suffix)
      case None => None
      case Some(k) => Some(k + 1)
  }

  /** `url` is the URL of the first asset whose name ends with `suffix`, and
      is null when no asset does. */
  ghost predicate FirstMatchUrl(assets: seq<Asset>, suffix: string, url: Option<string>)
  {
    && (url.None? <==> forall i :: 0 <= i < |assets| ==> !EndsWith(assets[i].name, suffix))
    && (url.Some? ==> exists k :: 0 <= k < |assets| && EndsWith(assets[k].name, suffix)
                                 && assets[k].browserDownloadUrl == url.value
                                 && forall i :: 0 <= i < k ==> !EndsWith(assets[i].name, suffix))
  }

  /** `found?.browser_download_url ?? null`. */
  function DownloadUrl(assets: seq<Asset>, suffix: string): (url: Option<string>)
    ensures FirstMatchUrl(assets, suffix, url)
  {
    match FirstWithSuffix(assets, suffix)
    case None => None
    case Some(k) => Some(assets[k].browserDownloadUrl)
  }

  datatype DownloadLinks = DownloadLinks(
    windows: Option<string>,
    macos: Option<string>,
    linux: Option<string>,
    version: Option<string>,
    publishedAt: Option<string>,
    totalDownloads: int)

  const WindowsSuffix: string := "Setup.exe"
  const MacSuffix: string := ".dmg"
  const LinuxSuffix: string := ".AppImage"

  /** The displayed version: the tag with its first "v" removed, wherever it
      occurs. */
  function VersionOf(tagName: string): (version: string)
    ensures 'v' !in tagName ==> version == tagName
    ensures 'v' in tagName ==>
      var i := FirstIndex(tagName, 'v');
      version == tagName[..i] + tagName[i + 1..]
  {
    if 'v' in tagName then
      RemoveFirstAtFirstIndex(tagName, 'v');
      RemoveFirst(tagName, 'v')
    else
      RemoveFirst(tagName, 'v')
  }

  /** `getDownloadLinks`: without data every link is null and the count 0;
      with data each link is the first asset with its platform's suffix
      (case-sensitive), the version is the tag with its first "v" removed, and
      the date and count pass through. */
  function GetDownloadLinks(data: Option<AllReleasesData>): (links: DownloadLinks)
    ensures data.None? ==> links == DownloadLinks(None, None, None, None, None, 0)
    ensures data.Some? ==>
      var release := data.value.latest;
      && FirstMatchUrl(release.assets, WindowsSuffix, links.windows)
      && FirstMatchUrl(release.assets, MacSuffix, links.macos)
      && FirstMatchUrl(release.assets, LinuxSuffix, links.linux)
      && links.version.Some?
      && ('v' !in release.tagName ==> links.version.value == release.tagName)
      && ('v' in release.tagName ==>
            var i := FirstIndex(release.tagName, 'v');
            links.version.value == release.tagName[..i] + release.tagName[i + 1..])
      && links.publishedAt == Some(release.publishedAt)
      && links.totalDownloads == data.value.totalDownloads
  {
    match data
    case None => DownloadLinks(None, None, None, None, None, 0)
    case Some(AllReleasesData(release, totalDownloads)) =>
      var assets := release.assets;
      DownloadLinks(
        DownloadUrl(assets, WindowsSuffix),
        DownloadUrl(assets, MacSuffix),
        DownloadUrl(assets, LinuxSuffix),
        Some(VersionOf(release.tagName)),
        Some(release.publishedAt),
        totalDownloads)
  }

  /** Which platform suffixes the launcher's published file names carry. */
  lemma ExampleNameSuffixes()
    ensures EndsWith("LittleBitLauncher-Setup.exe", WindowsSuffix)
    ensures !EndsWith("LittleBitLauncher-Setup.exe", MacSuffix) && !EndsWith("LittleBitLauncher-Setup.exe", LinuxSuffix)
    ensures !EndsWith("LittleBitLauncher.dmg", WindowsSuffix) && EndsWith("LittleBitLauncher.dmg", MacSuffix)
    ensures !EndsWith("LittleBitLauncher.dmg", LinuxSuffix)
    ensures !EndsWith("LittleBitLauncher.AppImage", WindowsSuffix) && !EndsWith("LittleBitLauncher.AppImage", MacSuffix)
    ensures EndsWith("LittleBitLauncher.AppImage", LinuxSuffix)
    ensures !EndsWith("notes.txt", WindowsSuffix) && !EndsWith("notes.txt", MacSuffix) && !EndsWith("notes.txt", LinuxSuffix)
  {
    assert "LittleBitLauncher-Setup.exe"[18..] == WindowsSuffix;
    assert "LittleBitLauncher-Setup.exe"[24] != MacSuffix[1];
    assert "LittleBitLauncher-Setup.exe"[18] != LinuxSuffix[0];
    assert "LittleBitLauncher.dmg"[12] != WindowsSuffix[0];
    assert "LittleBitLauncher.dmg"[17..] == MacSuffix;
    assert "LittleBitLauncher.dmg"[12] != LinuxSuffix[0];
    assert "LittleBitLauncher.AppImage"[17] != WindowsSuffix[0];
    assert "LittleBitLauncher.AppImage"[22] != MacSuffix[0];
    assert "LittleBitLauncher.AppImage"[17..] == LinuxSuffix;
    assert "notes.txt"[0] != WindowsSuffix[0];
    assert "notes.txt"[6] != MacSuffix[1];
  }

  /** The assets of a typical release: release notes, then the Windows
      installer, the disk image and the AppImage. */
  function ExampleAssets(): seq<Asset>
  {
    [Asset("notes.txt", "n", 0), Asset("LittleBitLauncher-Setup.exe", "w", 0),
     Asset("LittleBitLauncher.dmg", "m", 0), Asset("LittleBitLauncher.AppImage", "l", 0)]
  }

  /** Each platform's suffix picks its own asset out of `ExampleAssets`. */
  lemma ExampleAssetIndices()
    ensures FirstWithSuffix(ExampleAssets(), WindowsSuffix) == Some(1)
    ensures FirstWithSuffix(ExampleAssets(), MacSuffix) == Some(2)
    ensures FirstWithSuffix(ExampleAssets(), LinuxSuffix) == Some(3)
  {
    WindowsIndex();
    MacIndex();
    LinuxIndex();
  }

  lemma WindowsIndex()
    ensures FirstWithSuffix(ExampleAssets(), WindowsSuffix) == Some(1)
  {
    var a := ExampleAssets();
    ExampleNameSuffixes();
    assert a[1..][0] == a[1];
  }

  lemma MacIndex()
    ensures FirstWithSuffix(ExampleAssets(), MacSuffix) == Some(2)
  {
    var a := ExampleAssets();
    ExampleNameSuffixes();
    assert FirstWithSuffix(a[2..], MacSuffix) == Some(0);
    assert a[1..][1..] == a[2..];
  }

  lemma LinuxIndex()
    ensures FirstWithSuffix(ExampleAssets(), LinuxSuffix) == Some(3)
  {
    var a := ExampleAssets();
    ExampleNameSuffixes();
    assert FirstWithSuffix(a[3..], LinuxSuffix) == Some(0);
    assert a[2..][1..] == a[3..];
    assert FirstWithSuffix(a[2..], LinuxSuffix) == Some(1);
    assert a[1..][1..] == a[2..];
  }

  /** The classification of a typical release: the installer, the disk image
      and the AppImage fill one slot each, the release notes fill none, and
      "v1.2.0" displays as "1.2.0". */
  lemma ClassificationExample()
    ensures GetDownloadLinks(Some(AllReleasesData(Release("v1.2.0", "t", ExampleAssets()), 7)))
         == DownloadLinks(Some("w"), Some("m"), Some("l"), Some("1.2.0"), Some("t"), 7)
  {
    ExampleAssetIndices();
    VersionExample();
  }

  /** A leading "v" is dropped from the tag; a tag without one is kept. */
  lemma VersionExample()
    ensures VersionOf("v1.2.0") == "1.2.0"
    ensures VersionOf("1.2.0") == "1.2.0"
  {
    assert "v1.2.0"[0] == 'v';
    assert FirstIndex("v1.2.0", 'v') == 0;
    assert "v1.2.0"[1..] == "1.2.0";
    var t := "1.2.0";
    assert t[0] != 'v' && t[1] != 'v' && t[2] != 'v' && t[3] != 'v' && t[4] != 'v';
    assert 'v' !in t;
  }

  /** A release whose only asset is an unrelated file has no download link,
      and a tag without "v" is its own version. */
  lemma UnrelatedAssetExample()
    ensures GetDownloadLinks(Some(AllReleasesData(Release("1.2.0", "t", [Asset("notes.txt", "n", 0)]), 7)))
         == DownloadLinks(None, None, None, Some("1.2.0"), Some("t"), 7)
  {
    ExampleNameSuffixes();
  }

  datatype OperatingSystem = Windows | MacOS | Linux | Unknown

  /** `detectOS`, with `navigator.userAgent` as a parameter (`None` when there
      is no `navigator`): the lower-cased agent is tested for "win", then
      "mac", then "linux". */
  function DetectOS(userAgent: Option<string>): (os: OperatingSystem)
    ensures userAgent.None? ==> os == Unknown
    ensures userAgent.Some? ==>
      var ua := ToLower(userAgent.value);
      && (os == Windows <==> Contains(ua, "win"))
      && (os == MacOS <==> !Contains(ua, "win") && Contains(ua, "mac"))
      && (os == Linux <==> !Contains(ua, "win") && !Contains(ua, "mac") && Contains(ua, "linux"))
      && (os == Unknown <==> !Contains(ua, "win") && !Contains(ua, "mac") && !Contains(ua, "linux"))
  {
    match userAgent
    case None => Unknown
    case Some(agent) =>
      var ua := ToLower(agent);
      if Contains(ua, "win") then Windows
      else if Contains(ua, "mac") then MacOS
      else if Contains(ua, "linux") then Linux
      else Unknown
  }

  /** Detection ignores ASCII case and puts "win" first: an agent mentioning
      "Windows" is Windows whatever else it mentions. */
  lemma DetectOSPriority(agent: string, i: nat)
    requires OccursAt(ToLower(agent), "win", i)
    ensures DetectOS(Some(agent)) == Windows
    ensures DetectOS(Some(ToLower(agent))) == Windows
  {
    ContainsIffOccurs(ToLower(agent), "win");
    ToLowerIdempotent(agent);
  }
}

/** The GitHub release records shared by the release hook and the release
    route, and the download aggregation both of them perform. */
module Releases {

  /** A downloadable file attached to a release. */
  datatype Asset = Asset(name: string, browserDownloadUrl: string, downloadCount: int)

  /** The release fields the site reads. */
  datatype Release = Release(tagName: string, publishedAt: string, assets: seq<Asset>)

  /** An upstream HTTP answer: `ok` with its parsed JSON body, or a non-success
      status (whose body is never read). */
  datatype Fetched<T> = Success(body: T) | NotOk(status: int)

  /** The `{latest, totalDownloads}` record both layers produce. */
  datatype AllReleasesData = AllReleasesData(latest: Release, totalDownloads: int)

  /** The sum of `download_count` over `assets`. */
  function AssetDownloads(assets: seq<Asset>): int
  {
    if assets == [] then 0
    else AssetDownloads(assets[..|assets| - 1]) + assets[|assets| - 1].downloadCount
  }

  /** The sum of `download_count` over every asset of every release. */
  function TotalDownloads(releases: seq<Release>): int
  {
    if releases == [] then 0
    else TotalDownloads(releases[..|releases| - 1]) + AssetDownloads(releases[|releases| - 1].assets)
  }

  /** Every asset of every release, in order. */
  function AllAssets(releases: seq<Release>): seq<Asset>
  {
    if releases == [] then [] else releases[0].assets + AllAssets(releases[1..])
  }

  lemma {:induction false} AssetDownloadsConcat(a: seq<Asset>, b: seq<Asset>)
    ensures AssetDownloads(a + b) == AssetDownloads(a) + AssetDownloads(b)
    decreases |b|
  {
    if b == [] {
      assert a + b == a;
    } else {
      assert (a + b)[..|a + b| - 1] == a + b[..|b| - 1];
      AssetDownloadsConcat(a, b[..|b| - 1]);
    }
  }

  lemma {:induction false} TotalDownloadsCons(r: Release, rest: seq<Release>)
    ensures TotalDownloads([r] + rest) == AssetDownloads(r.assets) + TotalDownloads(rest)
    decreases |rest|
  {
    if rest == [] {
      assert [r] + rest == [r];
      assert [r][..0] == [];
    } else {
      var init := rest[..|rest| - 1];
      assert ([r] + rest)[..|rest|] == [r] + init;
      TotalDownloadsCons(r, init);
    }
  }

  /** The nested per-release sum equals the flat sum over all assets of all
      releases: no asset is skipped or counted twice. */
  lemma {:induction false} TotalIsFlatSum(releases: seq<Release>)
    ensures TotalDownloads(releases) == AssetDownloads(AllAssets(releases))
    decreases |releases|
  {
    if releases != [] {
      assert releases == [releases[0]] + releases[1..];
      TotalDownloadsCons(releases[0], releases[1..]);
      TotalIsFlatSum(releases[1..]);
      AssetDownloadsConcat(releases[0].assets, AllAssets(releases[1..]));
    }
  }

  /** The `for (const release of releases) for (const asset of release.assets)
      totalDownloads += asset.download_count` loop. */
  method CountDownloads(releases: seq<Release>) returns (total: int)
    ensures total == TotalDownloads(releases)
  {
    total := 0;
    var i := 0;
    while i < |releases|
      invariant 0 <= i <= |releases|
      invariant total == TotalDownloads(releases[..i])
    {
      var assets := releases[i].assets;
      var j := 0;
      while j < |assets|
        invariant 0 <= j <= |assets|
        invariant total == TotalDownloads(releases[..i]) + AssetDownloads(assets[..j])
      {
        assert assets[..j + 1][..j] == assets[..j];
        total := total + assets[j].downloadCount;
        j := j + 1;
      }
      assert assets[..j] == assets;
      assert releases[..i + 1][..i] == releases[..i];
      i := i + 1;
    }
    assert releases[..i] == releases;
  }
}

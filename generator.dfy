/** The generator script itself: the process-wide error list, the release
    filter loop, the asset classification loop, and the main workflow. */
module AllVersions {
  import opened Text
  import opened Releases
  import opened Render

  /** The state the script keeps while it runs. */
  class Generator {
    /** The process-wide list of asset URLs whose check failed, in the order
        they were checked. */
    var errors: seq<string>

    /** Whether a URL answers without an error status; the network request
        behind it is outside the model. */
    const checkUrl: string -> bool

    /** The script starts with an empty error list. */
    constructor (checkUrl: string -> bool)
      ensures this.checkUrl == checkUrl
      ensures errors == []
    {
      this.checkUrl := checkUrl;
      errors := [];
    }

    /** Checks an asset's download URL: "PASSED" when it is reachable;
        otherwise "Fail", and the URL is appended to the error list. */
    method GetAssetData(asset: Asset) returns (url: string, check: Status)
      modifies this
      ensures url == asset.downloadUrl
      ensures check == Passed <==> checkUrl(url)
      ensures errors == if checkUrl(url) then old(errors) else old(errors) + [url]
    {
      url := asset.downloadUrl;
      if checkUrl(url) {
        check := Passed;
      } else {
        check := Fail;
        errors := errors + [url];
      }
    }

    /** Builds the record of one release: every asset whose lower-cased name
        names an operating system is checked and written to its slot. */
    method GetReleaseData(release: Release) returns (data: Record)
      modifies this
      ensures data == ReleaseData(release, checkUrl)
      ensures errors == old(errors) + AssetErrors(release.assets, checkUrl)
    {
      data := EmptyRecord(release);
      var assets := release.assets;
      for i := 0 to |assets|
        invariant data == ClassifyAll(EmptyRecord(release), assets[..i], checkUrl)
        invariant errors == old(errors) + AssetErrors(assets[..i], checkUrl)
      {
        var asset := assets[i];
        ClassifyPrefix(EmptyRecord(release), assets, i, checkUrl);
        ConcatAssoc(old(errors), AssetErrors(assets[..i], checkUrl), AssetError(asset, checkUrl));
        var name := ToLower(asset.name);
        var key := ArchKey(name);
        if Contains(name, LinuxMarker) {
          var url, check := GetAssetData(asset);
          data := data.(assets := data.assets.Set(Lin, key, Filled(url, check)));
        } else if Contains(name, MacMarker) {
          var url, check := GetAssetData(asset);
          data := data.(assets := data.assets.Set(Mac, key, Filled(url, check)));
        } else if Contains(name, WindowsMarker) {
          var url, check := GetAssetData(asset);
          data := data.(assets := data.assets.Set(Win, key, Filled(url, check)));
        }
      }
      assert assets[..|assets|] == assets;
    }

    /** Keeps the releases whose name contains the product name, in the order
        given, and builds a record for each. */
    method GetVersions(releases: seq<Release>) returns (result: seq<Record>)
      modifies this
      ensures result == Versions(releases, checkUrl)
      ensures errors == old(errors) + VersionErrors(releases, checkUrl)
    {
      result := [];
      for i := 0 to |releases|
        invariant result == Versions(releases[..i], checkUrl)
        invariant errors == old(errors) + VersionErrors(releases[..i], checkUrl)
      {
        var release := releases[i];
        VersionsPrefix(releases, i, checkUrl);
        if Contains(release.name, ProductName) {
          ConcatAssoc(old(errors), VersionErrors(releases[..i], checkUrl), AssetErrors(release.assets, checkUrl));
          var data := GetReleaseData(release);
          result := result + [data];
        }
      }
      assert releases[..|releases|] == releases;
    }

    /** The main workflow: the table of all kept releases without markers, and
        the table of the first kept release with markers. With no kept release
        the script fails when it takes the first one; `None` stands for that. */
    method Run(releases: seq<Release>) returns (allDownloads: string, latestDownloads: Option<string>)
      modifies this
      ensures allDownloads == Table(Versions(releases, checkUrl), false)
      ensures latestDownloads.None? <==> Versions(releases, checkUrl) == []
      ensures latestDownloads.Some? ==>
        latestDownloads.value == Chunk(Versions(releases, checkUrl)[0], true)
      ensures errors == old(errors) + VersionErrors(releases, checkUrl)
    {
      var versions := GetVersions(releases);
      allDownloads := GenerateTableContents(versions, false);
      if |versions| == 0 {
        latestDownloads := None;
      } else {
        var latest := GenerateTableContents([versions[0]], true);
        TableOfOne(versions[0], true);
        latestDownloads := Some(latest);
      }
    }
  }

  /** The latest-version table is the chunk, with region markers, of the first
      release in API order whose name contains the product name. */
  lemma LatestIsFirstKeptRelease(releases: seq<Release>, checkUrl: string -> bool)
    requires Versions(releases, checkUrl) != []
    ensures |KeptIndices(releases)| > 0
    ensures var i := KeptIndices(releases)[0];
      i < |releases| && IsKept(releases[i]) &&
      (forall k :: 0 <= k < i ==> !IsKept(releases[k])) &&
      Table([Versions(releases, checkUrl)[0]], true) == Chunk(ReleaseData(releases[i], checkUrl), true)
  {
    FirstVersionIsFirstKept(releases, checkUrl);
    TableOfOne(Versions(releases, checkUrl)[0], true);
  }
}

/** Releases, their assets, the per-release record the generator builds, and the
    reference definitions of the release filter and the asset classifier. The
    imperative code that computes these values step by step is in module
    AllVersions; this module says what it must compute. */
module Releases {
  import opened Text

  datatype Option<T> = None | Some(value: T)

  /** A downloadable file attached to a release. */
  datatype Asset = Asset(name: string, downloadUrl: string)

  /** A release as the hosting API lists it: display name, tag, release-notes
      page and assets, in the order the API returns them. */
  datatype Release = Release(name: string, tagName: string, htmlUrl: string, assets: seq<Asset>)

  datatype Os = Win | Lin | Mac
  datatype Arch = Arm | X86

  /** Outcome of the reachability check of one URL: "PASSED" or "Fail". */
  datatype Status = Passed | Fail

  /** One (OS, architecture) slot of a record: `{}` until an asset is classified
      into it, then the asset's URL and the status of its check. */
  datatype Slot = Empty | Filled(url: string, check: Status)

  /** The "arm" and "x86" slots of one operating system. */
  datatype OsAssets = OsAssets(arm: Slot, x86: Slot) {
    function Get(arch: Arch): Slot {
      match arch
      case Arm => arm
      case X86 => x86
    }

    function Set(arch: Arch, s: Slot): (r: OsAssets)
      ensures r.Get(arch) == s
      ensures forall a :: a != arch ==> r.Get(a) == Get(a)
    {
      match arch
      case Arm => this.(arm := s)
      case X86 => this.(x86 := s)
    }
  }

  /** The `assets` part of a record: one pair of slots per operating system. */
  datatype Assets = Assets(win: OsAssets, lin: OsAssets, mac: OsAssets) {
    function Of(os: Os): OsAssets {
      match os
      case Win => win
      case Lin => lin
      case Mac => mac
    }

    function Get(os: Os, arch: Arch): Slot {
      Of(os).Get(arch)
    }

    /** Writes one slot; every other slot keeps its value. */
    function Set(os: Os, arch: Arch, s: Slot): (r: Assets)
      ensures r.Get(os, arch) == s
      ensures forall o, a :: (o != os || a != arch) ==> r.Get(o, a) == Get(o, a)
    {
      match os
      case Win => this.(win := win.Set(arch, s))
      case Lin => this.(lin := lin.Set(arch, s))
      case Mac => this.(mac := mac.Set(arch, s))
    }
  }

  /** What the generator keeps of one release: its tag, its release-notes link
      and its classified assets. */
  datatype Record = Record(version: string, releaseNotes: string, assets: Assets)

  const ProductName := "TypeDB"
  const LinuxMarker := "typedb-all-linux"
  const MacMarker := "typedb-all-mac"
  const WindowsMarker := "typedb-all-windows"
  const ArmMarker := "arm64"
  const X86Marker := "x86_64"

  /** The release filter: a release is processed when its display name contains
      the product name (case-sensitive). */
  predicate IsKept(r: Release) {
    Contains(r.name, ProductName)
  }

  /** The architecture key of a lower-cased asset name. The test for "x86_64"
      picks the same key as the fall-back, so the key is "arm" exactly when the
      name mentions "arm64". */
  function ArchKey(name: string): (k: Arch)
    ensures k == Arm <==> Contains(name, ArmMarker)
    ensures k == X86 <==> !Contains(name, ArmMarker)
  {
    if Contains(name, ArmMarker) then Arm
    else if Contains(name, X86Marker) then X86
    else X86
  }

  /** The operating system of a lower-cased asset name: linux is tested first,
      then mac, then windows; a name with none of the markers has none. */
  function ClassifyOs(name: string): Option<Os> {
    if Contains(name, LinuxMarker) then Some(Lin)
    else if Contains(name, MacMarker) then Some(Mac)
    else if Contains(name, WindowsMarker) then Some(Win)
    else None
  }

  /** The priority of the OS markers, stated case by case. */
  lemma ClassifyOsPriority(name: string)
    ensures ClassifyOs(name) == Some(Lin) <==> Contains(name, LinuxMarker)
    ensures ClassifyOs(name) == Some(Mac) <==> !Contains(name, LinuxMarker) && Contains(name, MacMarker)
    ensures ClassifyOs(name) == Some(Win) <==>
      !Contains(name, LinuxMarker) && !Contains(name, MacMarker) && Contains(name, WindowsMarker)
    ensures ClassifyOs(name) == None <==>
      !Contains(name, LinuxMarker) && !Contains(name, MacMarker) && !Contains(name, WindowsMarker)
  {
  }

  /** The slot an asset is written to, judged on its lower-cased file name;
      `None` when the name matches no operating system. */
  function SlotOf(a: Asset): Option<(Os, Arch)> {
    var name := ToLower(a.name);
    match ClassifyOs(name)
    case None => None
    case Some(os) => Some((os, ArchKey(name)))
  }

  /** The status recorded for a URL, given the reachability oracle. */
  function StatusOf(url: string, checkUrl: string -> bool): (s: Status)
    ensures s == Passed <==> checkUrl(url)
  {
    if checkUrl(url) then Passed else Fail
  }

  /** An asset that is classified and whose URL fails the check. */
  predicate FailsCheck(a: Asset, checkUrl: string -> bool) {
    SlotOf(a).Some? && !checkUrl(a.downloadUrl)
  }

  /** The record a release starts from: its tag, its release notes, every slot empty. */
  function EmptyRecord(r: Release): (d: Record)
    ensures d.version == r.tagName && d.releaseNotes == r.htmlUrl
    ensures forall os, arch :: d.assets.Get(os, arch) == Empty
  {
    var none := OsAssets(Empty, Empty);
    Record(r.tagName, r.htmlUrl, Assets(none, none, none))
  }

  /** The effect of one asset on the record being built. */
  function ApplyAsset(d: Record, a: Asset, checkUrl: string -> bool): Record {
    match SlotOf(a)
    case None => d
    case Some((os, arch)) =>
      d.(assets := d.assets.Set(os, arch, Filled(a.downloadUrl, StatusOf(a.downloadUrl, checkUrl))))
  }

  /** The URLs one asset adds to the error list. */
  function AssetError(a: Asset, checkUrl: string -> bool): seq<string> {
    if FailsCheck(a, checkUrl) then [a.downloadUrl] else []
  }

  /** One asset writes only its own slot, with its own URL and status; the
      version, the release notes and all other slots are kept. An asset
      matching no operating system changes nothing and reports no error. */
  lemma ApplyAssetFrame(d: Record, a: Asset, checkUrl: string -> bool)
    ensures ApplyAsset(d, a, checkUrl).version == d.version
    ensures ApplyAsset(d, a, checkUrl).releaseNotes == d.releaseNotes
    ensures SlotOf(a).None? ==> ApplyAsset(d, a, checkUrl) == d && AssetError(a, checkUrl) == []
    ensures SlotOf(a).Some? ==>
      var (os, arch) := SlotOf(a).value;
      ApplyAsset(d, a, checkUrl).assets.Get(os, arch) == Filled(a.downloadUrl, StatusOf(a.downloadUrl, checkUrl)) &&
      forall o, r :: (o != os || r != arch) ==> ApplyAsset(d, a, checkUrl).assets.Get(o, r) == d.assets.Get(o, r)
  {
  }

  /** The record after the given assets were classified in order. */
  function ClassifyAll(d: Record, assets: seq<Asset>, checkUrl: string -> bool): Record
    decreases |assets|
  {
    if assets == [] then d
    else ApplyAsset(ClassifyAll(d, assets[..|assets| - 1], checkUrl), assets[|assets| - 1], checkUrl)
  }

  /** The URLs the given assets add to the error list, in order. */
  function AssetErrors(assets: seq<Asset>, checkUrl: string -> bool): seq<string>
    decreases |assets|
  {
    if assets == [] then []
    else AssetErrors(assets[..|assets| - 1], checkUrl) + AssetError(assets[|assets| - 1], checkUrl)
  }

  /** The record built for one release. */
  function ReleaseData(r: Release, checkUrl: string -> bool): Record {
    ClassifyAll(EmptyRecord(r), r.assets, checkUrl)
  }

  /** The records built for the kept releases, in input order. */
  function Versions(rs: seq<Release>, checkUrl: string -> bool): seq<Record>
    decreases |rs|
  {
    if rs == [] then []
    else
      var last := rs[|rs| - 1];
      Versions(rs[..|rs| - 1], checkUrl) + (if IsKept(last) then [ReleaseData(last, checkUrl)] else [])
  }

  /** The URLs added to the error list while the releases are processed. */
  function VersionErrors(rs: seq<Release>, checkUrl: string -> bool): seq<string>
    decreases |rs|
  {
    if rs == [] then []
    else
      var last := rs[|rs| - 1];
      VersionErrors(rs[..|rs| - 1], checkUrl) + (if IsKept(last) then AssetErrors(last.assets, checkUrl) else [])
  }

  /** One more release extends the records and the error list of the prefix. */
  lemma VersionsPrefix(rs: seq<Release>, i: nat, checkUrl: string -> bool)
    requires i < |rs|
    ensures Versions(rs[..i + 1], checkUrl) ==
      Versions(rs[..i], checkUrl) + (if IsKept(rs[i]) then [ReleaseData(rs[i], checkUrl)] else [])
    ensures VersionErrors(rs[..i + 1], checkUrl) ==
      VersionErrors(rs[..i], checkUrl) + (if IsKept(rs[i]) then AssetErrors(rs[i].assets, checkUrl) else [])
  {
    assert rs[..i + 1][..i] == rs[..i];
  }

  /** One more asset extends the record and the error list of the prefix. */
  lemma ClassifyPrefix(d: Record, assets: seq<Asset>, i: nat, checkUrl: string -> bool)
    requires i < |assets|
    ensures ClassifyAll(d, assets[..i + 1], checkUrl) == ApplyAsset(ClassifyAll(d, assets[..i], checkUrl), assets[i], checkUrl)
    ensures AssetErrors(assets[..i + 1], checkUrl) == AssetErrors(assets[..i], checkUrl) + AssetError(assets[i], checkUrl)
  {
    assert assets[..i + 1][..i] == assets[..i];
  }

  /** The positions of the kept releases: increasing, and holding exactly the
      indices of the releases whose name contains the product name. */
  function KeptIndices(rs: seq<Release>): (ix: seq<nat>)
    ensures forall j :: 0 <= j < |ix| ==> ix[j] < |rs|
    ensures forall j, k :: 0 <= j < k < |ix| ==> ix[j] < ix[k]
    ensures forall i :: 0 <= i < |rs| ==> (i in ix <==> IsKept(rs[i]))
    decreases |rs|
  {
    if rs == [] then []
    else KeptIndices(rs[..|rs| - 1]) + (if IsKept(rs[|rs| - 1]) then [|rs| - 1] else [])
  }

  /** The filter keeps exactly the releases named after the product, in input
      order, and builds one record for each. */
  lemma {:induction false} VersionsAreKeptReleases(rs: seq<Release>, checkUrl: string -> bool)
    ensures |Versions(rs, checkUrl)| == |KeptIndices(rs)| <= |rs|
    ensures forall j :: 0 <= j < |Versions(rs, checkUrl)| ==>
      Versions(rs, checkUrl)[j] == ReleaseData(rs[KeptIndices(rs)[j]], checkUrl)
    decreases |rs|
  {
    if rs != [] {
      var init := rs[..|rs| - 1];
      VersionsAreKeptReleases(init, checkUrl);
      forall j | 0 <= j < |KeptIndices(init)|
        ensures rs[KeptIndices(init)[j]] == init[KeptIndices(init)[j]]
      {
      }
    }
  }

  /** The first record is built from the first release whose name contains the
      product name: every release before it is filtered out. */
  lemma FirstVersionIsFirstKept(rs: seq<Release>, checkUrl: string -> bool)
    requires Versions(rs, checkUrl) != []
    ensures |KeptIndices(rs)| > 0
    ensures var i := KeptIndices(rs)[0];
      i < |rs| && IsKept(rs[i]) &&
      (forall k :: 0 <= k < i ==> !IsKept(rs[k])) &&
      Versions(rs, checkUrl)[0] == ReleaseData(rs[i], checkUrl)
  {
    VersionsAreKeptReleases(rs, checkUrl);
    var ix := KeptIndices(rs);
    assert ix[0] in ix;
    forall k | 0 <= k < ix[0] ensures k !in ix {
      forall m | 0 <= m < |ix| ensures ix[m] != k {
        if m > 0 {
          assert ix[0] < ix[m];
        }
      }
    }
  }

  /** The index of the last asset written to slot (os, arch), or -1 if none is. */
  function LastIndexFor(assets: seq<Asset>, os: Os, arch: Arch): (j: int)
    ensures -1 <= j < |assets|
    ensures j >= 0 ==> SlotOf(assets[j]) == Some((os, arch))
    ensures forall k :: j < k < |assets| ==> SlotOf(assets[k]) != Some((os, arch))
    decreases |assets|
  {
    if assets == [] then -1
    else if SlotOf(assets[|assets| - 1]) == Some((os, arch)) then |assets| - 1
    else LastIndexFor(assets[..|assets| - 1], os, arch)
  }

  /** Classification leaves in each slot the last asset written to it (later
      assets overwrite earlier ones); a slot no asset is written to keeps its
      starting value. Version and release notes are never changed. */
  lemma {:induction false} ClassifyAllSlot(d: Record, assets: seq<Asset>, os: Os, arch: Arch, checkUrl: string -> bool)
    ensures ClassifyAll(d, assets, checkUrl).version == d.version
    ensures ClassifyAll(d, assets, checkUrl).releaseNotes == d.releaseNotes
    ensures var j := LastIndexFor(assets, os, arch);
      ClassifyAll(d, assets, checkUrl).assets.Get(os, arch) ==
        if j < 0 then d.assets.Get(os, arch)
        else Filled(assets[j].downloadUrl, StatusOf(assets[j].downloadUrl, checkUrl))
    decreases |assets|
  {
    if assets != [] {
      ClassifyAllSlot(d, assets[..|assets| - 1], os, arch, checkUrl);
    }
  }

  /** The slot of a release's record holds its last asset of that OS and
      architecture, or is empty when the release has none. */
  lemma ReleaseDataSlot(r: Release, os: Os, arch: Arch, checkUrl: string -> bool)
    ensures ReleaseData(r, checkUrl).version == r.tagName
    ensures ReleaseData(r, checkUrl).releaseNotes == r.htmlUrl
    ensures var j := LastIndexFor(r.assets, os, arch);
      ReleaseData(r, checkUrl).assets.Get(os, arch) ==
        if j < 0 then Empty
        else Filled(r.assets[j].downloadUrl, StatusOf(r.assets[j].downloadUrl, checkUrl))
  {
    ClassifyAllSlot(EmptyRecord(r), r.assets, os, arch, checkUrl);
  }

  /** The error list gets exactly the URLs of the classified assets whose check
      fails, and no more entries than there are assets. */
  lemma {:induction false} AssetErrorsAreFailures(assets: seq<Asset>, checkUrl: string -> bool)
    ensures |AssetErrors(assets, checkUrl)| <= |assets|
    ensures forall u :: u in AssetErrors(assets, checkUrl) <==>
      exists j :: 0 <= j < |assets| && FailsCheck(assets[j], checkUrl) && assets[j].downloadUrl == u
    decreases |assets|
  {
    if assets != [] {
      var init := assets[..|assets| - 1];
      AssetErrorsAreFailures(init, checkUrl);
      forall u | u in AssetErrors(assets, checkUrl)
        ensures exists j :: 0 <= j < |assets| && FailsCheck(assets[j], checkUrl) && assets[j].downloadUrl == u
      {
        if u in AssetErrors(init, checkUrl) {
          var j :| 0 <= j < |init| && FailsCheck(init[j], checkUrl) && init[j].downloadUrl == u;
          assert assets[j] == init[j];
        } else {
          assert FailsCheck(assets[|assets| - 1], checkUrl);
        }
      }
      forall u | exists j :: 0 <= j < |assets| && FailsCheck(assets[j], checkUrl) && assets[j].downloadUrl == u
        ensures u in AssetErrors(assets, checkUrl)
      {
        var j :| 0 <= j < |assets| && FailsCheck(assets[j], checkUrl) && assets[j].downloadUrl == u;
        if j < |init| {
          assert init[j] == assets[j];
        }
      }
    }
  }

  /** A slot whose status is "Fail" holds a URL that is on the error list. */
  lemma FailedSlotIsReported(r: Release, os: Os, arch: Arch, checkUrl: string -> bool)
    requires ReleaseData(r, checkUrl).assets.Get(os, arch).Filled?
    requires ReleaseData(r, checkUrl).assets.Get(os, arch).check == Fail
    ensures ReleaseData(r, checkUrl).assets.Get(os, arch).url in AssetErrors(r.assets, checkUrl)
  {
    ReleaseDataSlot(r, os, arch, checkUrl);
    AssetErrorsAreFailures(r.assets, checkUrl);
    var j := LastIndexFor(r.assets, os, arch);
    assert FailsCheck(r.assets[j], checkUrl);
  }

  /** The URLs on the error list are exactly those of the failing classified
      assets of the kept releases: every one of them failed its check, and a
      release that is filtered out adds nothing. */
  lemma {:induction false} VersionErrorsAreFailures(rs: seq<Release>, checkUrl: string -> bool)
    ensures forall u :: u in VersionErrors(rs, checkUrl) ==> !checkUrl(u)
    ensures forall u :: u in VersionErrors(rs, checkUrl) <==>
      exists i, j :: 0 <= i < |rs| && IsKept(rs[i]) && 0 <= j < |rs[i].assets| &&
        FailsCheck(rs[i].assets[j], checkUrl) && rs[i].assets[j].downloadUrl == u
    decreases |rs|
  {
    if rs != [] {
      var init := rs[..|rs| - 1];
      var last := rs[|rs| - 1];
      VersionErrorsAreFailures(init, checkUrl);
      AssetErrorsAreFailures(last.assets, checkUrl);
      forall u | u in VersionErrors(rs, checkUrl)
        ensures exists i, j :: (0 <= i < |rs| && IsKept(rs[i]) && 0 <= j < |rs[i].assets| &&
          FailsCheck(rs[i].assets[j], checkUrl) && rs[i].assets[j].downloadUrl == u)
      {
        if u in VersionErrors(init, checkUrl) {
          var i, j :| 0 <= i < |init| && IsKept(init[i]) && 0 <= j < |init[i].assets| &&
            FailsCheck(init[i].assets[j], checkUrl) && init[i].assets[j].downloadUrl == u;
          assert rs[i] == init[i];
        } else {
          var j :| 0 <= j < |last.assets| && FailsCheck(last.assets[j], checkUrl) && last.assets[j].downloadUrl == u;
          assert rs[|rs| - 1].assets[j] == last.assets[j];
        }
      }
      forall u | exists i, j :: (0 <= i < |rs| && IsKept(rs[i]) && 0 <= j < |rs[i].assets| &&
          FailsCheck(rs[i].assets[j], checkUrl) && rs[i].assets[j].downloadUrl == u)
        ensures u in VersionErrors(rs, checkUrl)
      {
        var i, j :| 0 <= i < |rs| && IsKept(rs[i]) && 0 <= j < |rs[i].assets| &&
          FailsCheck(rs[i].assets[j], checkUrl) && rs[i].assets[j].downloadUrl == u;
        if i < |init| {
          assert init[i] == rs[i];
        }
      }
    }
  }

  /** The positions of the classified assets whose check fails: increasing,
      and holding exactly those indices. */
  function FailIndices(assets: seq<Asset>, checkUrl: string -> bool): (ix: seq<nat>)
    ensures forall j :: 0 <= j < |ix| ==> ix[j] < |assets|
    ensures forall j, k :: 0 <= j < k < |ix| ==> ix[j] < ix[k]
    ensures forall i :: 0 <= i < |assets| ==> (i in ix <==> FailsCheck(assets[i], checkUrl))
    decreases |assets|
  {
    if assets == [] then []
    else FailIndices(assets[..|assets| - 1], checkUrl) + (if FailsCheck(assets[|assets| - 1], checkUrl) then [|assets| - 1] else [])
  }

  /** The error list of a release holds, position by position, the URL of each
      failing classified asset in asset order: exactly one entry per such
      asset, so a URL shared by two failing assets is listed twice. */
  lemma {:induction false} AssetErrorsFollowFailIndices(assets: seq<Asset>, checkUrl: string -> bool)
    ensures |AssetErrors(assets, checkUrl)| == |FailIndices(assets, checkUrl)|
    ensures forall k :: 0 <= k < |AssetErrors(assets, checkUrl)| ==>
      AssetErrors(assets, checkUrl)[k] == assets[FailIndices(assets, checkUrl)[k]].downloadUrl
    decreases |assets|
  {
    if assets != [] {
      var init := assets[..|assets| - 1];
      AssetErrorsFollowFailIndices(init, checkUrl);
      forall k | 0 <= k < |FailIndices(init, checkUrl)|
        ensures assets[FailIndices(init, checkUrl)[k]] == init[FailIndices(init, checkUrl)[k]]
      {
      }
    }
  }
}

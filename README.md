# TypeDB all-versions table generator, modelled in Dafny

The generator (`TypeDB/.all-versions-generator.py`) reads the list of releases
that a release-hosting API returns. It keeps those whose name contains
"TypeDB". For each kept release it sorts the downloadable assets into
per-OS and per-architecture slots, checking each slot's URL on the way, and
renders two AsciiDoc table fragments:

- the table of all kept versions;
- the table of the latest version, with `// tag::os[]` / `// end::os[]`
  region markers.

URLs that fail the check are collected in a process-wide error list.

The model has four modules:

- `Text` (text.dfy): the two string operations the script uses. These are
  Python's `p in s`, proved equal to "p occurs at some index of s", and
  `str.lower()`.
- `Releases` (releases.dfy): the data model and the reference definitions.
  - Data: `Release`, `Asset`, and the per-release `Record` with its nested
    `assets` table of `Slot`s. A slot is `Empty` (the source's `{}`) or
    `Filled(url, check)`.
  - Reference definitions: the release filter, the architecture and OS
    classifiers, and the effect of each asset on a record. The ones over
    sequences are folds (`Versions`, `ClassifyAll`, `AssetErrors`,
    `VersionErrors`) with lemmas about them.
- `Render` (render.dfy): the AsciiDoc renderer. `Table` says what text a list
  of records renders to. `GenerateTableContents` builds that text by
  appending in nested loops, like the source does.
- `AllVersions` (generator.dfy): class `Generator`.
  - Its field `errors` is the global `ERRORS` list.
  - Its constant `checkUrl` is the URL-reachability oracle that stands for
    `check_url`.
  - Its methods `GetAssetData`, `GetReleaseData` and `GetVersions` follow the
    source's loops. Each is proved to compute the reference definition and
    to append exactly the reference errors to `errors`.
  - `Run` is the main workflow without the file writes.

Three behaviours of the script are easy to miss; the model follows the code:

- The x86 link is rendered for every OS cell even when its slot is empty. It
  is printed as `{}[x86_64]`.
- A URL enters the error list once per failing classified asset. A URL used
  by two failing assets appears twice (`Releases.AssetErrorsFollowFailIndices`).
- An asset whose slot is later overwritten still leaves its failure on the
  error list, even though that asset no longer occupies any slot.

## Model

| member | source | states |
|---|---|---|
| `Text.ContainsIffOccurs` | TypeDB/.all-versions-generator.py:21 | the substring test used for every name match holds exactly when the pattern occurs at some index of the text |
| `Text.ToLower` | TypeDB/.all-versions-generator.py:69 | the lower-cased name has the same length and no upper-case letter; every other character is kept, and every letter is replaced by its lower-case form |
| `Releases.ArchKey` | TypeDB/.all-versions-generator.py:70 | the key is "arm" exactly when the lower-cased name contains "arm64" and "x86" otherwise, so the "x86_64" test never changes the outcome |
| `Releases.ClassifyOsPriority` | TypeDB/.all-versions-generator.py:71-76 | linux, then mac, then windows: each OS is chosen exactly when its marker occurs and no earlier marker does; with no marker there is no OS |
| `Releases.StatusOf` | TypeDB/.all-versions-generator.py:84-87 | the status is "PASSED" exactly when the URL check succeeds, otherwise "Fail" |
| `Releases.EmptyRecord` | TypeDB/.all-versions-generator.py:31-66 | a new record carries the release's tag and release-notes link, and every one of its six slots is empty |
| `Releases.ApplyAssetFrame` | TypeDB/.all-versions-generator.py:68-76 | an asset writes only its own (OS, arch) slot, with its URL and status; version, release notes and the other slots are kept; an asset matching no OS changes nothing and adds no error |
| `Releases.LastIndexFor` | TypeDB/.all-versions-generator.py:68-76 | the index it gives is that of an asset mapped to the slot, and no later asset maps to it; -1 when no asset does |
| `Releases.ClassifyAllSlot` | TypeDB/.all-versions-generator.py:68-76 | after any sequence of assets, each slot holds the last asset mapped to it (last one wins), or its starting value if none; version and release notes never change |
| `Releases.ReleaseDataSlot` | TypeDB/.all-versions-generator.py:29-77 | a release's record has the release's tag and notes link, and each slot holds the release's last asset of that OS and arch with its status, or is empty |
| `Releases.AssetErrorsAreFailures` | TypeDB/.all-versions-generator.py:83-89 | a URL is among those a release adds to the error list exactly when some classified asset of the release has that URL and fails its check |
| `Releases.FailIndices` | TypeDB/.all-versions-generator.py:68-76 | the positions it gives are increasing and are exactly those of the classified assets whose check fails |
| `Releases.AssetErrorsFollowFailIndices` | TypeDB/.all-versions-generator.py:68-89 | the error entries of a release are, position by position, the URLs of its failing classified assets in asset order: one entry per such asset, none for any other |
| `Releases.FailedSlotIsReported` | TypeDB/.all-versions-generator.py:68-89 | a slot whose status is "Fail" holds a URL that is on the error list |
| `Releases.VersionErrorsAreFailures` | TypeDB/.all-versions-generator.py:20-26 | every URL on the run's error list failed its check, and a URL is on it exactly when a failing classified asset of a kept release has it; filtered-out releases add nothing |
| `Releases.KeptIndices` | TypeDB/.all-versions-generator.py:20-26 | the kept positions are strictly increasing and are exactly the indices of releases whose name contains "TypeDB" (case-sensitive) |
| `Releases.VersionsAreKeptReleases` | TypeDB/.all-versions-generator.py:17-26 | the result has one record per kept release, in input order, each built from that release; never more records than releases |
| `Releases.FirstVersionIsFirstKept` | TypeDB/.all-versions-generator.py:20-26 | the first record comes from the first release named after the product; every release before it was filtered out |
| `Render.GenerateTableContents` | TypeDB/.all-versions-generator.py:92-111 | the rendered text equals the table of the records, for either setting of `tags` |
| `Render.AppendChunk` | TypeDB/.all-versions-generator.py:96-110 | one outer pass appends exactly the record's chunk: header line, then its three cells |
| `Render.AppendCell` | TypeDB/.all-versions-generator.py:98-110 | one inner pass appends exactly that OS's cell, with the status words collected on the way |
| `Render.TableAppend` | TypeDB/.all-versions-generator.py:94-95 | rendering a concatenation of lists renders each list in turn, so the text is the in-order concatenation of the chunks and the empty list renders to "" |
| `Render.TableOfOne` | TypeDB/.all-versions-generator.py:138 | a one-record list renders to that record's chunk |
| `Render.ChunkLayout` | TypeDB/.all-versions-generator.py:96-97 | a chunk is the header line (the release-notes link labelled with the version in brackets) followed by exactly three cells, mac, lin, win, in that order |
| `Render.CellTagging` | TypeDB/.all-versions-generator.py:98-110 | the tagged and untagged cells differ only by the opening marker right after the leading "| " and the closing marker after the links line; the x86_64 link is always present |
| `Render.ArmPartIffFilled` | TypeDB/.all-versions-generator.py:104-106 | the " / url[arm64]" link and the second status word appear exactly when the arm slot is filled |
| `AllVersions.Generator.constructor` | TypeDB/.all-versions-generator.py:7 | the error list starts empty |
| `AllVersions.Generator.GetAssetData` | TypeDB/.all-versions-generator.py:80-89 | returns the asset's URL and "PASSED" iff the check succeeds; on failure appends exactly that URL to the end of the error list, on success leaves the list unchanged |
| `AllVersions.Generator.GetReleaseData` | TypeDB/.all-versions-generator.py:29-77 | the record built in place equals the reference record of the release, and the error list grows by exactly the release's failing classified URLs, in asset order |
| `AllVersions.Generator.GetVersions` | TypeDB/.all-versions-generator.py:15-26 | the result equals the records of the kept releases in input order, and the error list grows by exactly their failures |
| `AllVersions.Generator.Run` | TypeDB/.all-versions-generator.py:127-138 | all-versions text is the untagged table of the kept releases; the latest text is the tagged chunk of the first kept release, and is absent exactly when no release is kept |
| `AllVersions.LatestIsFirstKeptRelease` | TypeDB/.all-versions-generator.py:129-138 | the latest-version table renders, with markers, the first release in API order whose name contains "TypeDB" |

## Left out

- Network I/O is not modelled. This covers the HTTP GET of the release list
  (`get_versions`, line 18), the HEAD request of `check_url` (lines 10-12),
  and `print_json` (lines 120-124).
  - The release list is a given `seq<Release>`.
  - `check_url` is the oracle `Generator.checkUrl: string -> bool`, assumed
    to give the same answer for the same URL during a run.
- JSON decoding (`response.json()`, line 19) is a library call. Releases and
  assets are given as datatypes holding only the fields the script reads.
- File writes are not modelled (`write_file` and the `try/except IOError`
  blocks, lines 114-117 and 132-143). `Run` returns the two texts instead.
- Console output is not modelled: the "processed"/"IGNORED" lines (22, 25),
  the write confirmations, and the final loop that prints each error
  (145-146). The error list itself is modelled.
- `Run` models the `IndexError` at line 138 as `latestDownloads == None`.
  When no release is kept, the source raises that error and stops, after
  writing the all-versions file.
- Text.ToLower: lowers ASCII letters only. Python's `str.lower()` also
  lowers non-ASCII letters; the markers the classifier looks for are ASCII.

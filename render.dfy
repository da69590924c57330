/** The AsciiDoc table renderer: `Table` says what text a list of records
    renders to, `GenerateTableContents` builds it piece by piece. */
module Render {
  import opened Text
  import opened Releases

  /** The operating systems in column order: mac, then linux, then windows. */
  const OsOrder: seq<Os> := [Mac, Lin, Win]

  /** The key an operating system has in the record and in the region markers. */
  function OsKey(os: Os): string {
    match os
    case Mac => "mac"
    case Lin => "lin"
    case Win => "win"
  }

  /** A slot's URL as it is printed; an empty slot prints as `{}`. */
  function UrlText(s: Slot): string {
    match s
    case Empty => "{}"
    case Filled(url, _) => url
  }

  /** A slot's status as it is printed; an empty slot prints as `{}`. */
  function CheckText(s: Slot): string {
    match s
    case Empty => "{}"
    case Filled(_, Passed) => "PASSED"
    case Filled(_, Fail) => "Fail"
  }

  /** The first row line of a record: its release-notes link labelled with its version. */
  function Header(v: Record): string {
    "\n| " + v.releaseNotes + "[" + v.version + "]\n"
  }

  /** The x86 link of one OS; it is rendered even when the slot is empty. */
  function X86Link(o: OsAssets): string {
    UrlText(o.x86) + "[x86_64]"
  }

  /** The arm link of one OS, after " / ", only when the arm slot is filled. */
  function ArmLink(o: OsAssets): string {
    if o.arm.Filled? then " / " + o.arm.url + "[arm64]" else ""
  }

  /** The status words of one OS: the x86 slot's, then the arm slot's when that
      slot is filled. */
  function CheckStatus(o: OsAssets): string {
    if o.arm.Filled? then CheckText(o.x86) + " " + CheckText(o.arm) else CheckText(o.x86)
  }

  function CheckLine(o: OsAssets): string {
    "// Check: " + CheckStatus(o) + "\n"
  }

  function TagOpen(os: Os): string {
    "\n// tag::" + OsKey(os) + "[]\n"
  }

  function TagClose(os: Os): string {
    "// end::" + OsKey(os) + "[]\n"
  }

  /** The table cell of one OS; with `tags`, its links are bracketed by the
      OS's region markers. */
  function Cell(v: Record, os: Os, tags: bool): string {
    var o := v.assets.Of(os);
    "| " + (if tags then TagOpen(os) else "") + X86Link(o) + ArmLink(o) + "\n"
    + (if tags then TagClose(os) else "") + CheckLine(o)
  }

  /** The cells of the given operating systems, in order. */
  function Cells(v: Record, oss: seq<Os>, tags: bool): string
    decreases |oss|
  {
    if oss == [] then ""
    else Cells(v, oss[..|oss| - 1], tags) + Cell(v, oss[|oss| - 1], tags)
  }

  /** The rows of one record: its header, then its mac, linux and windows cells. */
  function Chunk(v: Record, tags: bool): string {
    Header(v) + Cells(v, OsOrder, tags)
  }

  /** The table text of a list of records: their chunks, in order. */
  function Table(vs: seq<Record>, tags: bool): string
    decreases |vs|
  {
    if vs == [] then ""
    else Table(vs[..|vs| - 1], tags) + Chunk(vs[|vs| - 1], tags)
  }

  /** The renderer: appends, per record, its header line and then, for mac,
      linux and windows, the cell text. */
  method GenerateTableContents(versions: seq<Record>, tags: bool) returns (result: string)
    ensures result == Table(versions, tags)
  {
    result := "";
    for i := 0 to |versions|
      invariant result == Table(versions[..i], tags)
    {
      TablePrefix(versions, i + 1, tags);
      result := AppendChunk(result, versions[i], tags);
    }
    TablePrefix(versions, |versions|, tags);
  }

  /** One pass of the renderer's outer loop: appends the header line of
      `version`, then its mac, linux and windows cells. */
  method AppendChunk(result: string, version: Record, tags: bool) returns (out: string)
    ensures out == result + Chunk(version, tags)
  {
    out := result + Header(version);
    var osKeys := [Mac, Lin, Win];
    CellsPrefix(version, 0, tags);
    ConcatAssoc(result, Header(version), "");
    for j := 0 to |osKeys|
      invariant out == result + Header(version) + Cells(version, OsOrder[..j], tags)
    {
      var os := osKeys[j];
      CellsPrefix(version, j + 1, tags);
      ConcatAssoc(result + Header(version), Cells(version, OsOrder[..j], tags), Cell(version, os, tags));
      out := AppendCell(out, version, os, tags);
    }
    CellsPrefix(version, |OsOrder|, tags);
    ConcatAssoc(result, Header(version), Cells(version, OsOrder, tags));
  }

  /** The cells of the first `j` operating systems in column order. */
  lemma CellsPrefix(v: Record, j: nat, tags: bool)
    requires j <= |OsOrder|
    ensures j == 0 ==> Cells(v, OsOrder[..j], tags) == ""
    ensures 0 < j ==> Cells(v, OsOrder[..j], tags) == Cells(v, OsOrder[..j - 1], tags) + Cell(v, OsOrder[j - 1], tags)
    ensures j == |OsOrder| ==> OsOrder[..j] == OsOrder
  {
    if 0 < j {
      assert OsOrder[..j][..j - 1] == OsOrder[..j - 1];
    }
  }

  /** The table of the first `i` records extends that of the first `i - 1`. */
  lemma TablePrefix(vs: seq<Record>, i: nat, tags: bool)
    requires i <= |vs|
    ensures 0 < i ==> Table(vs[..i], tags) == Table(vs[..i - 1], tags) + Chunk(vs[i - 1], tags)
    ensures i == |vs| ==> vs[..i] == vs
  {
    if 0 < i {
      assert vs[..i][..i - 1] == vs[..i - 1];
    }
  }

  /** One pass of the renderer's inner loop: appends the cell of `os` to `result`
      piece by piece, collecting the status words on the way. */
  method AppendCell(result: string, version: Record, os: Os, tags: bool) returns (out: string)
    ensures out == result + Cell(version, os, tags)
  {
    var assets := version.assets.Of(os);
    // `cell` is the text appended so far, grouped as in Cell.
    ghost var cell := "| ";
    out := result + "| ";
    ghost var open := if tags then TagOpen(os) else "";
    ConcatAssoc(result, cell, open);
    if tags {
      out := out + TagOpen(os);
    }
    cell := cell + open;
    ConcatAssoc(result, cell, X86Link(assets));
    out, cell := out + X86Link(assets), cell + X86Link(assets);
    var urlCheckStatus := CheckText(assets.x86);
    ConcatAssoc(result, cell, ArmLink(assets));
    if assets.arm.Filled? {
      out := out + ArmLink(assets);
      urlCheckStatus := urlCheckStatus + " " + CheckText(assets.arm);
    }
    cell := cell + ArmLink(assets);
    ConcatAssoc(result, cell, "\n");
    out, cell := out + "\n", cell + "\n";
    ghost var close := if tags then TagClose(os) else "";
    ConcatAssoc(result, cell, close);
    if tags {
      out := out + TagClose(os);
    }
    cell := cell + close;
    ConcatAssoc(result, cell, "// Check: " + urlCheckStatus + "\n");
    out, cell := out + ("// Check: " + urlCheckStatus + "\n"), cell + ("// Check: " + urlCheckStatus + "\n");
  }

  /** Rendering a concatenation renders each part in turn; in particular the
      empty list renders to the empty text. */
  lemma {:induction false} TableAppend(a: seq<Record>, b: seq<Record>, tags: bool)
    ensures Table(a + b, tags) == Table(a, tags) + Table(b, tags)
    decreases |b|
  {
    if b == [] {
      assert a + b == a;
      ConcatAssoc(Table(a, tags), "", "");
    } else {
      var b0 := b[..|b| - 1];
      assert (a + b)[..|a + b| - 1] == a + b0;
      assert (a + b)[|a + b| - 1] == b[|b| - 1];
      TableAppend(a, b0, tags);
      ConcatAssoc(Table(a, tags), Table(b0, tags), Chunk(b[|b| - 1], tags));
    }
  }

  /** A list of one record renders to that record's chunk. */
  lemma TableOfOne(v: Record, tags: bool)
    ensures Table([v], tags) == Chunk(v, tags)
  {
    assert [v][..0] == [];
  }

  /** A record renders to its header line, then exactly three cells: mac,
      linux, windows. */
  lemma ChunkLayout(v: Record, tags: bool)
    ensures Chunk(v, tags) == Header(v) + Cell(v, Mac, tags) + Cell(v, Lin, tags) + Cell(v, Win, tags)
  {
    CellsPrefix(v, 0, tags);
    CellsPrefix(v, 1, tags);
    CellsPrefix(v, 2, tags);
    CellsPrefix(v, 3, tags);
    ConcatThree(Header(v), Cells(v, OsOrder[..1], tags), Cells(v, OsOrder[..2], tags), Cells(v, OsOrder, tags),
      Cell(v, Mac, tags), Cell(v, Lin, tags), Cell(v, Win, tags));
  }

  /** Three appends to the empty text, then appended to `h`. */
  lemma ConcatThree(h: string, x1: string, x2: string, x3: string, a: string, b: string, c: string)
    requires x1 == "" + a && x2 == x1 + b && x3 == x2 + c
    ensures h + x3 == h + a + b + c
  {
    assert x1 == a;
    ConcatAssoc(h, a, b);
    ConcatAssoc(h, a + b, c);
  }

  /** The region markers are the only difference between a tagged and an
      untagged cell: the opening marker follows "| " and the closing marker
      follows the line of links, which always holds the x86_64 link. */
  lemma CellTagging(v: Record, os: Os)
    ensures var o := v.assets.Of(os);
      Cell(v, os, false) == "| " + X86Link(o) + ArmLink(o) + "\n" + CheckLine(o)
    ensures var o := v.assets.Of(os);
      Cell(v, os, true) == "| " + TagOpen(os) + X86Link(o) + ArmLink(o) + "\n" + TagClose(os) + CheckLine(o)
  {
  }

  /** The " / ... [arm64]" link and the second status word appear exactly when
      the arm slot is filled. */
  lemma ArmPartIffFilled(o: OsAssets)
    ensures ArmLink(o) != "" <==> o.arm.Filled?
    ensures CheckStatus(o) != CheckText(o.x86) <==> o.arm.Filled?
  {
    if o.arm.Filled? {
      assert |CheckStatus(o)| > |CheckText(o.x86)|;
    }
  }
}

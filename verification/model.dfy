/** model.go: the configured hosts and file entries with their selection
    flags, the start of Config.init, and the two numbered listings that the
    menu prints (Hosts.String and Files.String). */
module Model {
  import opened Text
  import opened Lib

  /** A remote machine. isSelected is not part of the JSON document, so it
      starts false and only the menu changes it. */
  datatype Host = Host(name: string, ip: string, port: string, user: string,
                       password: string, isSelected: bool)

  /** A copy instruction: local source path to remote destination path. */
  datatype FileEntry = FileEntry(name: string, src: string, dest: string, isSelected: bool)

  /** Config: the two ordered lists. The lists themselves never change after
      loading; the menu updates the entries in place. */
  class Config {
    const hosts: array<Host>
    const files: array<FileEntry>

    /** The state right after decoding: every entry unselected. */
    constructor (hs: seq<Host>, fs: seq<FileEntry>)
      ensures fresh(hosts) && fresh(files)
      ensures hosts.Length == |hs| && files.Length == |fs|
      ensures forall i :: 0 <= i < |hs| ==> hosts[i] == hs[i].(isSelected := false)
      ensures forall i :: 0 <= i < |fs| ==> files[i] == fs[i].(isSelected := false)
    {
      hosts := new Host[|hs|](i requires 0 <= i < |hs| => hs[i].(isSelected := false));
      files := new FileEntry[|fs|](i requires 0 <= i < |fs| => fs[i].(isSelected := false));
    }
  }

  datatype ConfigError =
    | PathNotSetup
    | NotFound(path: string)
    | CannotOpen(path: string)
    | CannotDecode(path: string)

  /** Loaded(path): the configuration was read from path. */
  datatype LoadResult = Loaded(path: string) | LoadFailed(error: ConfigError)

  /** Config.init, as far as the choice of file goes: an empty path is an
      error before anything is looked up; a path that does not exist is
      replaced by the value of RFS_CONFIG (envPath). openOk and decodeOk say
      whether opening and JSON-decoding the chosen file succeed. */
  function LoadConfig(path: string, envPath: string, fs: FileSystem,
                      openOk: bool, decodeOk: bool): (r: LoadResult)
    ensures path == "" ==> r == LoadFailed(PathNotSetup)
    ensures r.Loaded? ==> PathExists(fs, r.path) && openOk && decodeOk
    ensures r.Loaded? ==> r.path == (if PathExists(fs, path) then path else envPath)
    ensures path != "" && PathExists(fs, path) && openOk && decodeOk ==> r == Loaded(path)
    ensures path != "" && !PathExists(fs, path) && !PathExists(fs, envPath)
            ==> r == LoadFailed(NotFound(envPath))
  {
    if path == "" then LoadFailed(PathNotSetup)
    else
      var chosen := if !PathExists(fs, path) then envPath else path;
      if !PathExists(fs, chosen) then LoadFailed(NotFound(chosen))
      else if !openOk then LoadFailed(CannotOpen(chosen))
      else if !decodeOk then LoadFailed(CannotDecode(chosen))
      else Loaded(chosen)
  }

  // ---------------------------------------------------------------------
  // Listings

  /** uiLine: fifty dashes and a newline. */
  const UiLine: string := "--------------------------------------------------\n"

  /** The marker column's text: "*" for a selected entry. */
  function Marker(selected: bool): string
  {
    if selected then "*" else ""
  }

  /** The host listing's heading ("%2s%d. %s\n" with "", 1, "Select Hosts"),
      a rule, the column titles ("%3s  %3s %-25s %-15s\n" with "*", "No.",
      "Name", "IP") and a rule. */
  function HostsHeader(): (r: string)
    ensures |r| > 18 && r[|r| - 1] == '\n'
  {
    "  1. Select Hosts\n" + UiLine
    + "  *  No. Name                      IP             \n"
    + UiLine
  }

  /** The file listing's heading, a rule, two lines of column titles
      ("%3s  %3s  %-20s %s\n" with "*", "No.", "Name", "Source File Path",
      then with blanks and "Destination File Path") and a rule. */
  function FilesHeader(): (r: string)
    ensures |r| > 18 && r[|r| - 1] == '\n'
  {
    "  2. Select Files\n" + UiLine
    + "  *  No.  Name                 Source File Path\n"
    + "                               Destination File Path\n"
    + UiLine
  }

  /** The number column: %2d of the 1-based position. */
  function Label(position: nat): string
  {
    PadLeft(NatToString(position), 2)
  }

  /** The marker column, w wide: "*" right-aligned for a selected entry. */
  function MarkerColumn(selected: bool, w: nat): (r: string)
    requires w >= 1
    ensures |r| == w
    ensures forall k :: 0 <= k < w - 1 ==> r[k] == ' '
    ensures r[w - 1] == '*' <==> selected
  {
    PadShapes(Marker(selected), w);
    PadLeft(Marker(selected), w)
  }

  /** A numbered row: three columns of lead, " [", the number column, "] "
      and the rest. */
  function Row(lead: string, n: nat, rest: string): (r: string)
    requires |lead| == 3
    ensures |r| >= 3 + |rest| && r[..3] == lead
  {
    lead + " [" + Label(n) + "] " + rest
  }

  /** Name and address columns of a host row: "%-25s %15s\n". */
  function HostColumns(h: Host): string
  {
    PadRight(h.name, 25) + " " + PadLeft(h.ip, 15) + "\n"
  }

  /** The row of the i-th host (from 0): "%3s [%2d] %-25s %15s\n" with the
      marker, i + 1, the name and the address. */
  function HostRow(i: nat, h: Host): (r: string)
    ensures |r| > 3 && r[..2] == "  " && (r[2] == '*' <==> h.isSelected)
  {
    var m := MarkerColumn(h.isSelected, 3);
    assert m[..2] == "  ";
    Row(m, i + 1, HostColumns(h))
  }

  /** Name and source columns of a file entry's first line: " %-20s %s\n". */
  function FileColumns(f: FileEntry): string
  {
    " " + PadRight(f.name, 20) + " " + f.src + "\n"
  }

  /** The first of the two lines of the j-th file entry (from 0):
      "  %1s [%2d]  %-20s %s\n" with the marker, j + 1, the name and the
      source path. */
  function FileFirstLine(j: nat, f: FileEntry): (r: string)
    ensures |r| > 3 && r[..2] == "  " && (r[2] == '*' <==> f.isSelected)
  {
    var m := MarkerColumn(f.isSelected, 1);
    var lead := "  " + m;
    assert |lead| == 3 && lead[..2] == "  " && lead[2] == m[0];
    var r := Row(lead, j + 1, FileColumns(f));
    assert r[..2] == lead[..2] && r[2] == lead[2];
    r
  }

  /** The second line of a file entry: "  %1s  %2s   %-20s %s\n\n" with
      blanks and the destination path, then an empty line. */
  function FileSecondLine(f: FileEntry): string
  {
    "                               " + f.dest + "\n\n"
  }

  /** Both lines of the j-th file entry. */
  function FileRow(j: nat, f: FileEntry): string
  {
    FileFirstLine(j, f) + FileSecondLine(f)
  }

  /** Every host row ends its line. */
  lemma HostRowEndsLine(i: nat, h: Host)
    ensures var r := HostRow(i, h); |r| > 0 && r[|r| - 1] == '\n'
  {
    var m := MarkerColumn(h.isSelected, 3);
    var front := m + " [" + Label(i + 1) + "] " + PadRight(h.name, 25) + " " + PadLeft(h.ip, 15);
    assert HostRow(i, h) == front + "\n";
  }

  /** The first line of a file entry ends with its source path, the second
      with its destination path followed by an empty line. */
  lemma FileRowShowsPaths(j: nat, f: FileEntry)
    ensures var r := FileFirstLine(j, f);
            |r| > |f.src| && r[|r| - 1 - |f.src|..] == f.src + "\n"
    ensures var r := FileSecondLine(f);
            |r| > |f.dest| + 1 && r[|r| - 2 - |f.dest|..] == f.dest + "\n\n"
    ensures var r := FileRow(j, f); |r| > 0 && r[|r| - 1] == '\n'
  {
    var m := MarkerColumn(f.isSelected, 1);
    var front := "  " + m + " [" + Label(j + 1) + "] " + " " + PadRight(f.name, 20) + " ";
    assert FileFirstLine(j, f) == front + (f.src + "\n");
    var blanks := "                               ";
    assert FileSecondLine(f) == blanks + (f.dest + "\n\n");
  }

  // ---------------------------------------------------------------------
  // Both listings have one shape: a header, one rendered row per entry in
  // list order, and an empty line.

  /** The rendered rows of the first n items, one after the other. */
  function RowsText<T>(items: seq<T>, n: nat, render: (nat, T) -> string): string
    requires n <= |items|
  {
    if n == 0 then [] else RowsText(items, n - 1, render) + render(n - 1, items[n - 1])
  }

  /** A listing: the header, every item's row and a final "\n". */
  function Listing<T>(header: string, items: seq<T>, render: (nat, T) -> string): (r: string)
    ensures |r| == |header| + |RowsText(items, |items|, render)| + 1 && r[|r| - 1] == '\n'
  {
    header + RowsText(items, |items|, render) + "\n"
  }

  /** Hosts.String: the host heading and one row per host. */
  function HostsListing(hs: seq<Host>): string
  {
    Listing(HostsHeader(), hs, HostRow)
  }

  /** Files.String: the file heading and two lines per entry. */
  function FilesListing(fs: seq<FileEntry>): string
  {
    Listing(FilesHeader(), fs, FileRow)
  }

  /** Hosts.String, as the source builds it: the rows are appended to a
      buffer one host at a time. It reads the flags and changes none. */
  method HostsString(hs: array<Host>) returns (s: string)
    ensures s == HostsListing(hs[..])
  {
    var buf := HostsHeader();
    for i := 0 to hs.Length
      invariant buf == HostsHeader() + RowsText(hs[..], i, HostRow)
    {
      AppendAssoc(HostsHeader(), RowsText(hs[..], i, HostRow), HostRow(i, hs[i]));
      buf := buf + HostRow(i, hs[i]);
    }
    s := buf + "\n";
  }

  /** Files.String, built the same way, writing each entry's two lines one
      after the other. */
  method FilesString(fs: array<FileEntry>) returns (s: string)
    ensures s == FilesListing(fs[..])
  {
    var buf := FilesHeader();
    for j := 0 to fs.Length
      invariant buf == FilesHeader() + RowsText(fs[..], j, FileRow)
    {
      var first := FileFirstLine(j, fs[j]);
      var second := FileSecondLine(fs[j]);
      AppendAssoc4(FilesHeader(), RowsText(fs[..], j, FileRow), first, second);
      buf := buf + first;
      buf := buf + second;
    }
    s := buf + "\n";
  }

  /** Appending to a buffer regroups the concatenation: the step each
      iteration of HostsString and FilesString takes. */
  lemma AppendAssoc(a: string, b: string, c: string)
    ensures a + b + c == a + (b + c)
  {
  }

  lemma AppendAssoc4(a: string, b: string, c: string, d: string)
    ensures a + b + c + d == a + (b + (c + d))
  {
  }

  /** The rows of the first m items begin the rows of the first n >= m. */
  lemma {:induction false} RowsPrefix<T>(items: seq<T>, m: nat, n: nat, render: (nat, T) -> string)
    requires m <= n <= |items|
    ensures |RowsText(items, m, render)| <= |RowsText(items, n, render)|
    ensures RowsText(items, n, render)[..|RowsText(items, m, render)|] == RowsText(items, m, render)
    decreases n
  {
    if m < n {
      RowsPrefix(items, m, n - 1, render);
    }
  }

  /** A listing holds one row per item, in list order: the i-th item's row
      comes right after the header and the rows of the items before it. */
  lemma ListingShowsRow<T>(header: string, items: seq<T>, i: nat, render: (nat, T) -> string)
    requires i < |items|
    ensures var lo := |header| + |RowsText(items, i, render)|;
            var row := render(i, items[i]);
            var r := Listing(header, items, render);
            lo + |row| <= |r| && r[lo..lo + |row|] == row
  {
    RowsPrefix(items, i + 1, |items|, render);
    Locate(header, RowsText(items, i, render), render(i, items[i]),
           RowsText(items, |items|, render), "\n");
  }

  /** A listing opens with its header, and when the header and the last row
      end their lines, it ends with an empty line. */
  lemma ListingFrame<T>(header: string, items: seq<T>, render: (nat, T) -> string)
    requires |header| > 0 && header[|header| - 1] == '\n'
    requires items != [] ==>
               var last := render(|items| - 1, items[|items| - 1]);
               |last| > 0 && last[|last| - 1] == '\n'
    ensures var r := Listing(header, items, render);
            r[..|header|] == header && r[|r| - 2] == '\n' && r[|r| - 1] == '\n'
  {
    var rows := RowsText(items, |items|, render);
    var r := Listing(header, items, render);
    assert r == header + (rows + "\n");
    if items != [] {
      var last := render(|items| - 1, items[|items| - 1]);
      assert rows == RowsText(items, |items| - 1, render) + last;
    }
  }

  /** When all begins with a + b, the text h + all + t holds b right after
      h + a. */
  lemma Locate(h: string, a: string, b: string, all: string, t: string)
    requires |a + b| <= |all| && all[..|a + b|] == a + b
    ensures var lo := |h| + |a|;
            lo + |b| <= |h + all + t| && (h + all + t)[lo..lo + |b|] == b
  {
    var w := h + all + t;
    assert w[|h| + |a|..|h| + |a| + |b|] == all[..|a + b|][|a|..];
  }

  /** The number column of the i-th host's row (from column 5, after the
      marker and " [") shows i + 1. */
  lemma HostRowShowsNumber(i: nat, h: Host)
    ensures var r := HostRow(i, h); var col := Label(i + 1);
            5 + |col| <= |r| && r[3..5] == " [" && r[5..5 + |col|] == col
  {
    RowShowsNumber(MarkerColumn(h.isSelected, 3), i + 1, HostColumns(h));
  }

  /** The first line of the j-th file entry shows j + 1 the same way. */
  lemma FileRowShowsNumber(j: nat, f: FileEntry)
    ensures var r := FileFirstLine(j, f); var col := Label(j + 1);
            5 + |col| <= |r| && r[3..5] == " [" && r[5..5 + |col|] == col
  {
    RowShowsNumber("  " + MarkerColumn(f.isSelected, 1), j + 1, FileColumns(f));
  }

  lemma RowShowsNumber(lead: string, n: nat, rest: string)
    requires |lead| == 3
    ensures var r := Row(lead, n, rest); var col := Label(n);
            5 + |col| <= |r| && r[3..5] == " [" && r[5..5 + |col|] == col
  {
    var col := Label(n);
    var r := Row(lead, n, rest);
    assert r == (lead + " [" + col) + ("] " + rest);
    assert r[3..5] == (lead + " [" + col)[3..5];
    assert r[5..5 + |col|] == (lead + " [" + col)[5..];
  }

  /** The number column reads back: with its padding trimmed it is what
      %d prints, and strconv.ParseInt turns it back into the number. */
  lemma LabelReadsBack(n: nat)
    requires 1 <= n <= MaxInt64
    ensures TrimSpace(Label(n)) == NatToString(n)
    ensures ParseInt(TrimSpace(Label(n))) == Some(n)
  {
    var digits := NatToString(n);
    var col := Label(n);
    assert col == Repeat(' ', |col| - |digits|) + digits;
    NatToStringIsToken(n);
    TrimLeftSpaces(|col| - |digits|, digits);
    assert TrimSpace(col) == digits;
    ParseIntOfNatToString(n);
  }
}

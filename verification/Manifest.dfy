/** Evidence manifests: printing one row per file, parsing the rows back, and comparing them with a tree. */
module Manifests {
  import opened Text
  import opened TextLines

  type Bytes = seq<bv8>

  const MANIFEST_NAME := "MANIFEST.sha256"

  const SKIP_DIR_NAMES := {".git", "__pycache__", ".pytest_cache"}

  /** A directory tree: the parts of its own path, and its files by their relative paths. */
  datatype Tree = Tree(root: seq<string>, files: map<string, Bytes>)

  /** What is computed elsewhere: hashes as hexadecimal text, numbers read from text, the file a relative path
      names, and the order in which paths are listed. */
  datatype Platform = Platform(
    digest: Bytes -> string,
    toInt: string -> Option<int>,
    locate: string -> string,
    order: set<string> -> seq<string>)

  datatype Row = Row(path: string, digest: string, size: int)

  predicate IsHexDigit(c: char) {
    IsDigit(c) || 'a' <= c <= 'f'
  }

  predicate AllHex(s: string) {
    forall i :: 0 <= i < |s| ==> IsHexDigit(s[i])
  }

  /** The parts of a path between its slashes. */
  function Parts(path: string): seq<string> {
    match Find(path, "/", 0)
    case None => [path]
    case Some(i) => [path[..i]] + Parts(path[i + 1..])
  }

  predicate Plain(path: string) {
    forall part :: part in Parts(path) ==> part !in {"", ".", ".."}
  }

  /** The platform does what is relied on here. */
  ghost predicate Sound(platform: Platform) {
    && (forall bytes :: AllHex(platform.digest(bytes)))
    && (forall n: nat :: platform.toInt(NatToString(n)) == Some(n))
    && (forall path :: Plain(path) ==> platform.locate(path) == path)
    && (forall s :: multiset(platform.order(s)) == multiset(s))
  }

  ghost predicate ValidTree(tree: Tree) {
    forall path :: path in tree.files ==> Plain(path)
  }

  /******* Which files count as evidence *******/

  predicate IsEvidence(root: seq<string>, path: string) {
    var parts := Parts(path);
    && parts[|parts| - 1] != MANIFEST_NAME
    && forall part :: part in root + parts ==> part !in SKIP_DIR_NAMES
  }

  /** The root itself lies in a directory whose files never count. */
  predicate RootIsSkipped(root: seq<string>) {
    exists part :: part in root && part in SKIP_DIR_NAMES
  }

  /** A copy of a tree elsewhere has the same evidence, unless just one of the two roots is skipped. */
  lemma EvidenceElsewhere(root: seq<string>, root': seq<string>, path: string)
    requires RootIsSkipped(root) <==> RootIsSkipped(root')
    ensures IsEvidence(root, path) <==> IsEvidence(root', path)
  {
    var parts := Parts(path);
    assert forall part :: part in root + parts <==> part in root || part in parts;
    assert forall part :: part in root' + parts <==> part in root' || part in parts;
  }

  lemma PartsOf(name: string)
    requires '/' !in name
    ensures Parts(name) == [name]
  {
    hide Find;
    forall k: nat ensures !OccursAt(name, "/", k) {
      if k + 1 <= |name| {
        assert name[k..k + 1][0] == name[k];
      }
    }
  }

  lemma PartsStep(path: string)
    ensures Parts(path) == match Find(path, "/", 0)
                           case None => [path]
                           case Some(i) => [path[..i]] + Parts(path[i + 1..])
  {
  }

  lemma FirstSlash(dir: string, name: string) returns (i: nat)
    requires '/' !in name
    ensures Find(dir + "/" + name, "/", 0) == Some(i) && i <= |dir|
    ensures Find(dir, "/", 0) == if i < |dir| then Some(i) else None
  {
    hide Find;
    var path := dir + "/" + name;
    assert OccursAt(path, "/", |dir|);
    i := Find(path, "/", 0).value;
    forall k | 0 <= k < |dir| ensures OccursAt(dir, "/", k) <==> OccursAt(path, "/", k) {
      assert dir[k..k + 1] == path[k..k + 1];
    }
  }

  lemma {:induction false} PartsBelow(dir: string, name: string)
    requires '/' !in name
    ensures Parts(dir + "/" + name) == Parts(dir) + [name]
    decreases |dir|
  {
    hide Find, Parts;
    var path := dir + "/" + name;
    var i := FirstSlash(dir, name);
    PartsStep(path);
    PartsStep(dir);
    if i < |dir| {
      assert path[i + 1..] == dir[i + 1..] + "/" + name && path[..i] == dir[..i];
      PartsBelow(dir[i + 1..], name);
      assert [dir[..i]] + (Parts(dir[i + 1..]) + [name]) == ([dir[..i]] + Parts(dir[i + 1..])) + [name];
    } else {
      assert path[i + 1..] == name && path[..i] == dir;
      PartsOf(name);
    }
  }

  /** A file counts unless it is called like the manifest, or one of the skipped names is its own or that of a
      directory above it. */
  lemma EvidenceIff(root: seq<string>, dir: string, name: string)
    requires '/' !in name
    ensures var skipped := {".git", "__pycache__", ".pytest_cache"};
            var counts := name != "MANIFEST.sha256" && name !in skipped
                          && forall part :: part in root ==> part !in skipped;
            && (IsEvidence(root, name) <==> counts)
            && (IsEvidence(root, dir + "/" + name) <==>
                  counts && forall part :: part in Parts(dir) ==> part !in skipped)
  {
    PartsOf(name);
    PartsBelow(dir, name);
    hide Parts;
    assert forall part :: part in root + [name] <==> part in root || part == name;
    assert forall part :: part in root + (Parts(dir) + [name]) <==> part in root || part in Parts(dir) || part == name;
  }

  function Tracked(tree: Tree): set<string> {
    set path | path in tree.files && IsEvidence(tree.root, path)
  }

  function Listing(platform: Platform, tree: Tree): seq<string> {
    platform.order(Tracked(tree))
  }

  lemma ListingIsTracked(platform: Platform, tree: Tree)
    requires Sound(platform)
    ensures forall path :: path in Listing(platform, tree) <==> path in Tracked(tree)
    ensures forall path :: path in Listing(platform, tree) ==> path in tree.files
  {
    hide IsEvidence, AllHex, Plain;
    var listing := Listing(platform, tree);
    assert multiset(listing) == multiset(Tracked(tree));
    assert forall path :: path in listing <==> path in multiset(listing);
  }

  /******* Printing *******/

  function RowOf(platform: Platform, tree: Tree, path: string): Row
    requires path in tree.files
  {
    Row(path, platform.digest(tree.files[path]), |tree.files[path]|)
  }

  function RowsOf(platform: Platform, tree: Tree, paths: seq<string>): (rows: seq<Row>)
    requires forall path :: path in paths ==> path in tree.files
    ensures |rows| == |paths|
    ensures forall i :: 0 <= i < |paths| ==> rows[i] == RowOf(platform, tree, paths[i])
  {
    if paths == [] then []
    else RowsOf(platform, tree, paths[..|paths| - 1]) + [RowOf(platform, tree, paths[|paths| - 1])]
  }

  function TotalBytes(tree: Tree, paths: seq<string>): nat
    requires forall path :: path in paths ==> path in tree.files
  {
    if paths == [] then 0
    else TotalBytes(tree, paths[..|paths| - 1]) + |tree.files[paths[|paths| - 1]]|
  }

  /** The total is that of the parts, wherever the listing is divided. */
  lemma {:induction false} BytesAddUp(tree: Tree, a: seq<string>, b: seq<string>)
    requires forall path :: path in a + b ==> path in tree.files
    requires forall path :: path in a ==> path in tree.files
    requires forall path :: path in b ==> path in tree.files
    ensures TotalBytes(tree, a + b) == TotalBytes(tree, a) + TotalBytes(tree, b)
    ensures |b| == 1 ==> TotalBytes(tree, b) == |tree.files[b[0]]|
  {
    if b == [] {
      assert a + b == a;
    } else {
      var n := |b| - 1;
      assert (a + b)[..|a| + n] == a + b[..n];
      BytesAddUp(tree, a, b[..n]);
      if n == 0 {
        assert b[..0] == [];
      }
    }
  }

  /** A row as it is printed and can be printed: the size is not negative and the digest is hexadecimal. */
  predicate Printable(row: Row) {
    row.size >= 0 && AllHex(row.digest)
  }

  function PrintRow(row: Row): string
    requires Printable(row)
  {
    row.path + "  " + row.digest + "  " + NatToString(row.size)
  }

  function PrintRows(rows: seq<Row>): (lines: seq<string>)
    requires forall i :: 0 <= i < |rows| ==> Printable(rows[i])
    ensures |lines| == |rows|
    ensures forall i :: 0 <= i < |rows| ==> lines[i] == PrintRow(rows[i])
  {
    if rows == [] then [] else PrintRows(rows[..|rows| - 1]) + [PrintRow(rows[|rows| - 1])]
  }

  /** The lines above the rows; an empty note is no note. */
  function Header(stamp: string, count: nat, bytes: nat, note: string): (header: seq<string>)
    ensures header != []
  {
    ["# " + MANIFEST_NAME,
     "# Generated: " + stamp + " by wutai-clinic evidence-manifest",
     "# Files: " + NatToString(count) + "  Total bytes: " + NatToString(bytes)] +
    (if note == "" then [] else ["# Note: " + note])
  }

  function ManifestText(header: seq<string>, rows: seq<Row>): string
    requires forall i :: 0 <= i < |rows| ==> Printable(rows[i])
  {
    Joined(header + [""] + PrintRows(rows)) + "\n"
  }

  /** The manifest of a tree, generated at `stamp`. */
  ghost function Generated(platform: Platform, tree: Tree, stamp: string, note: string): string
    requires Sound(platform)
  {
    ListingIsTracked(platform, tree);
    var listing := Listing(platform, tree);
    ManifestText(Header(stamp, |listing|, TotalBytes(tree, listing), note), RowsOf(platform, tree, listing))
  }

  lemma RowsArePrintable(platform: Platform, tree: Tree, paths: seq<string>)
    requires Sound(platform) && forall path :: path in paths ==> path in tree.files
    ensures forall i :: 0 <= i < |paths| ==> Printable(RowsOf(platform, tree, paths)[i])
  {
    hide AllHex, Plain;
  }

  /** The clock is only read when no stamp is given. */
  method GenerateManifestFile(platform: Platform, tree: Tree, note: string, generatedAt: string, now: string)
    returns (manifest: string, fileCount: nat, totalBytes: nat)
    requires Sound(platform)
    ensures manifest == Generated(platform, tree, if generatedAt != "" then generatedAt else now, note)
    ensures fileCount == |Listing(platform, tree)|
    ensures forall path :: path in Listing(platform, tree) ==> path in tree.files
    ensures totalBytes == TotalBytes(tree, Listing(platform, tree))
  {
    hide Sound, Listing, IsEvidence;
    ListingIsTracked(platform, tree);
    var listing := Listing(platform, tree);
    var rows: seq<Row> := [];
    totalBytes := 0;
    for i := 0 to |listing|
      invariant rows == RowsOf(platform, tree, listing[..i])
      invariant totalBytes == TotalBytes(tree, listing[..i])
    {
      assert listing[..i + 1][..i] == listing[..i];
      var size := |tree.files[listing[i]]|;
      totalBytes := totalBytes + size;
      rows := rows + [Row(listing[i], platform.digest(tree.files[listing[i]]), size)];
    }
    assert listing[..|listing|] == listing;
    RowsArePrintable(platform, tree, listing);
    var stamp := if generatedAt != "" then generatedAt else now;
    fileCount := |rows|;
    var header := Header(stamp, fileCount, totalBytes, note);
    manifest := Joined(header + [""] + PrintRows(rows)) + "\n";
  }

  /******* Parsing *******/

  datatype ParsedLine = Skipped | Entry(row: Row) | BadSize

  function ParseLine(platform: Platform, line: string): ParsedLine {
    var text := Strip(line);
    if text == "" || text[0] == '#' then Skipped
    else
      match SplitTwice(text)
      case None => Skipped
      case Some(parts) =>
        match platform.toInt(parts.2)
        case None => BadSize
        case Some(size) => Entry(Row(parts.0, parts.1, size))
  }

  /** The rows of the lines, or nothing when some size is not a number. */
  function Parse(platform: Platform, lines: seq<string>): Option<seq<Row>> {
    if lines == [] then Some([])
    else
      match Parse(platform, lines[..|lines| - 1])
      case None => None
      case Some(rows) =>
        match ParseLine(platform, lines[|lines| - 1])
        case Skipped => Some(rows)
        case Entry(row) => Some(rows + [row])
        case BadSize => None
  }

  function ParseText(platform: Platform, text: string): Option<seq<Row>> {
    Parse(platform, Lines(text))
  }

  function Both(a: Option<seq<Row>>, b: Option<seq<Row>>): Option<seq<Row>> {
    if a.Some? && b.Some? then Some(a.value + b.value) else None
  }

  lemma {:induction false} ParseAppend(platform: Platform, a: seq<string>, b: seq<string>)
    ensures Parse(platform, a + b) == Both(Parse(platform, a), Parse(platform, b))
  {
    hide ParseLine;
    if b == [] {
      assert a + b == a;
      assert Parse(platform, a).Some? ==> Parse(platform, a).value + [] == Parse(platform, a).value;
    } else {
      var init := b[..|b| - 1];
      ParseAppend(platform, a, init);
      assert (a + b)[..|a + b| - 1] == a + init;
      var line := ParseLine(platform, b[|b| - 1]);
      if line.Entry? && Parse(platform, a).Some? && Parse(platform, init).Some? {
        Associates(Parse(platform, a).value, Parse(platform, init).value, [line.row]);
      }
    }
  }

  lemma BothEqualSecond(a: Option<seq<Row>>, b: seq<Row>)
    ensures Both(a, Some(b)) == Some(b) <==> a == Some([])
  {
    if a == Some([]) {
      assert [] + b == b;
    } else if a.Some? {
      assert |a.value + b| == |a.value| + |b|;
    }
  }

  /** What a path must be like to survive: one line, that begins with neither whitespace nor `#`. */
  predicate Clean(path: string) {
    path != "" && OneLine(path) && !IsSpace(path[0]) && path[0] != '#'
  }

  lemma GapAfterStart(s: string)
    requires s != "" && !IsSpace(s[0]) && LastGap(s).Some?
    ensures LastGap(s).value > 0
  {
  }

  /** Every path that is read from a manifest is clean. */
  lemma ParsedLineIsClean(platform: Platform, line: string)
    requires OneLine(line) && ParseLine(platform, line).Entry?
    ensures Clean(ParseLine(platform, line).row.path)
  {
    hide LastGap, Strip, IsSpace;
    var text := Strip(line);
    var second := LastGap(text).value;
    GapAfterStart(text);
    GapAfterStart(text[..second]);
    var path := SplitTwice(text).value.0;
    assert path == text[..|path|];
  }

  lemma {:induction false} ParsedIsClean(platform: Platform, lines: seq<string>)
    requires forall i :: 0 <= i < |lines| ==> OneLine(lines[i])
    ensures Parse(platform, lines).Some? ==>
              forall i :: 0 <= i < |Parse(platform, lines).value| ==> Clean(Parse(platform, lines).value[i].path)
  {
    hide ParseLine, OneLine, Clean;
    if lines == [] {
    } else {
      ParsedIsClean(platform, lines[..|lines| - 1]);
      if ParseLine(platform, lines[|lines| - 1]).Entry? {
        ParsedLineIsClean(platform, lines[|lines| - 1]);
      }
    }
  }

  /******* Printing and parsing *******/

  lemma DigitsAreHex(s: string)
    requires AllDigits(s)
    ensures AllHex(s)
  {
  }

  lemma HexIsPlain(s: string)
    requires AllHex(s)
    ensures NoSpace(s) && OneLine(s) && forall i :: 0 <= i < |s| ==> !IsSpace(s[i])
  {
  }

  lemma OneLineAppend(a: string, b: string)
    ensures OneLine(a + b) <==> OneLine(a) && OneLine(b)
  {
    assert a == (a + b)[..|a|] && b == (a + b)[|a|..];
    assert forall i :: 0 <= i < |b| ==> (a + b)[|a| + i] == b[i];
  }

  lemma TwoSpaces()
    ensures OneLine("  ")
  {
  }

  /** A printed row is one line exactly when its path is. */
  lemma PrintedRowIsLine(row: Row)
    requires Printable(row)
    ensures OneLine(PrintRow(row)) <==> OneLine(row.path)
  {
    hide OneLine, AllHex, NatToString;
    var size := NatToString(row.size);
    DigitsAreHex(size);
    HexIsPlain(size);
    HexIsPlain(row.digest);
    assert OneLine("  ") by {
      TwoSpaces();
    }
    OneLineAppend(row.path, "  ");
    OneLineAppend(row.path + "  ", row.digest);
    OneLineAppend(row.path + "  " + row.digest, "  ");
    OneLineAppend(row.path + "  " + row.digest + "  ", size);
  }

  /** A row with a clean path is read back as it was printed, even when the path itself holds double spaces
      or ends in one. */
  lemma PrintedRowParses(platform: Platform, row: Row)
    requires Sound(platform) && Printable(row) && Clean(row.path)
    ensures ParseLine(platform, PrintRow(row)) == Entry(row)
  {
    hide Strip, SplitTwice, OneLine, NoSpace, AllHex, Plain, IsSpace;
    var size := NatToString(row.size);
    DigitsAreHex(size);
    HexIsPlain(size);
    HexIsPlain(row.digest);
    var line := PrintRow(row);
    assert line[0] == row.path[0] && line[|line| - 1] == size[|size| - 1];
    assert Strip(line) == line;
    SplitJoined(row.path, row.digest, size);
  }

  lemma {:induction false} PrintedRowsParse(platform: Platform, rows: seq<Row>)
    requires Sound(platform)
    requires forall i :: 0 <= i < |rows| ==> Printable(rows[i]) && Clean(rows[i].path)
    ensures Parse(platform, PrintRows(rows)) == Some(rows)
  {
    hide Sound, Printable, Clean, ParseLine, PrintRow;
    if rows == [] {
    } else {
      var n := |rows| - 1;
      PrintedRowsParse(platform, rows[..n]);
      PrintedRowParses(platform, rows[n]);
      assert PrintRows(rows)[..n] == PrintRows(rows[..n]);
      assert rows == rows[..n] + [rows[n]];
    }
  }

  /** The printed text parses as its header and its rows do, one after the other. */
  lemma ParsedInParts(platform: Platform, header: seq<string>, rows: seq<Row>)
    requires forall i :: 0 <= i < |rows| ==> Printable(rows[i])
    ensures ParseText(platform, ManifestText(header, rows)) ==
            Both(ParseText(platform, Terminated(header + [""])), ParseText(platform, Terminated(PrintRows(rows))))
  {
    hide Parse, Lines, Terminated, Joined, Printable;
    var top, lines := header + [""], PrintRows(rows);
    JoinedTerminated(top + lines);
    TerminatedAppend(top, lines);
    LinesOfParts(top, Terminated(lines));
    ParseAppend(platform, Lines(Terminated(top)), Lines(Terminated(lines)));
  }

  lemma CleanRowsParse(platform: Platform, rows: seq<Row>)
    requires Sound(platform)
    requires forall i :: 0 <= i < |rows| ==> Printable(rows[i]) && Clean(rows[i].path)
    ensures ParseText(platform, Terminated(PrintRows(rows))) == Some(rows)
  {
    hide Sound, Parse, Lines, Terminated, Printable, PrintRow;
    var lines := PrintRows(rows);
    forall i | 0 <= i < |lines| ensures OneLine(lines[i]) {
      PrintedRowIsLine(rows[i]);
    }
    LinesOfTerminated(lines, "");
    assert Terminated(lines) + "" == Terminated(lines);
    NoLines();
    assert lines + [] == lines;
    PrintedRowsParse(platform, rows);
  }

  /** Parsing a manifest gives back exactly the rows printed into it, if and only if every path is clean and
      the header holds no row of its own. */
  lemma RoundTripIff(platform: Platform, header: seq<string>, rows: seq<Row>)
    requires Sound(platform) && forall i :: 0 <= i < |rows| ==> Printable(rows[i])
    ensures ParseText(platform, ManifestText(header, rows)) == Some(rows) <==>
            && (forall i :: 0 <= i < |rows| ==> Clean(rows[i].path))
            && ParseText(platform, Terminated(header + [""])) == Some([])
  {
    hide Sound, Parse, Lines, Terminated, Joined, Printable, Clean, ManifestText, PrintRows;
    ParsedInParts(platform, header, rows);
    if forall i :: 0 <= i < |rows| ==> Clean(rows[i].path) {
      CleanRowsParse(platform, rows);
      BothEqualSecond(ParseText(platform, Terminated(header + [""])), rows);
    } else {
      ParsedIsClean(platform, Lines(ManifestText(header, rows)));
    }
  }

  /******* The header *******/

  /** A line that begins with `#` is no row. */
  lemma CommentIsSkipped(platform: Platform, line: string)
    requires line != "" && line[0] == '#'
    ensures ParseLine(platform, line) == Skipped
  {
    hide Strip, SplitTwice;
    StripKeepsStart(line);
  }

  lemma BlankIsSkipped(platform: Platform)
    ensures ParseLine(platform, "") == Skipped
  {
  }

  lemma {:induction false} CommentsAreSkipped(platform: Platform, lines: seq<string>)
    requires forall i :: 0 <= i < |lines| ==> lines[i] == "" || lines[i][0] == '#'
    ensures Parse(platform, lines) == Some([])
  {
    hide ParseLine;
    if lines == [] {
    } else {
      var n := |lines| - 1;
      CommentsAreSkipped(platform, lines[..n]);
      if lines[n] == "" {
        BlankIsSkipped(platform);
      } else {
        CommentIsSkipped(platform, lines[n]);
      }
    }
  }

  lemma GeneratorPart()
    ensures OneLine("# Generated: ") && OneLine(" by wutai-clinic evidence-manifest")
  {
  }

  lemma CountParts()
    ensures OneLine("# Files: ") && OneLine("  Total bytes: ")
  {
  }

  lemma NamePart()
    ensures OneLine("# " + MANIFEST_NAME)
  {
  }

  lemma FixedParts()
    ensures OneLine("# Generated: ") && OneLine(" by wutai-clinic evidence-manifest")
    ensures OneLine("# Files: ") && OneLine("  Total bytes: ") && OneLine("# " + MANIFEST_NAME)
  {
    hide OneLine;
    GeneratorPart();
    CountParts();
    NamePart();
  }

  lemma HeaderLines(stamp: string, count: nat, bytes: nat)
    requires OneLine(stamp)
    ensures OneLine("# Generated: " + stamp + " by wutai-clinic evidence-manifest")
    ensures OneLine("# Files: " + NatToString(count) + "  Total bytes: " + NatToString(bytes))
    ensures OneLine("# " + MANIFEST_NAME)
  {
    hide NatToString, AllHex, OneLine;
    var files, total := NatToString(count), NatToString(bytes);
    DigitsAreHex(files);
    DigitsAreHex(total);
    HexIsPlain(files);
    HexIsPlain(total);
    FixedParts();
    OneLineAppend("# Generated: ", stamp);
    OneLineAppend("# Generated: " + stamp, " by wutai-clinic evidence-manifest");
    OneLineAppend("# Files: ", files);
    OneLineAppend("# Files: " + files, "  Total bytes: ");
    OneLineAppend("# Files: " + files + "  Total bytes: ", total);
  }

  lemma NoteLine(note: string)
    requires OneLine(note)
    ensures OneLine("# Note: " + note) && OneLine("")
  {
  }

  /** A stamp and a note of one line each leave the header without rows. */
  lemma HeaderHoldsNoRow(platform: Platform, stamp: string, count: nat, bytes: nat, note: string)
    requires OneLine(stamp) && OneLine(note)
    ensures ParseText(platform, Terminated(Header(stamp, count, bytes, note) + [""])) == Some([])
  {
    hide Parse, Lines, Terminated, NatToString, OneLine;
    var lines := Header(stamp, count, bytes, note) + [""];
    HeaderLines(stamp, count, bytes);
    NoteLine(note);
    LinesOfTerminated(lines, "");
    assert Terminated(lines) + "" == Terminated(lines);
    NoLines();
    assert lines + [] == lines;
    CommentsAreSkipped(platform, lines);
  }

  lemma BothWithNothing(a: Option<seq<Row>>)
    ensures Both(a, Some([])) == a && Both(Some([]), a) == a
  {
    if a.Some? {
      assert a.value + [] == a.value && [] + a.value == a.value;
    }
  }

  lemma NoteAndBlank(last: string)
    ensures Terminated([last, ""]) == last + "\n" + "\n"
  {
    assert [last, ""][1..] == [""] && [""][1..] == [];
    assert Terminated([""]) == "\n";
  }

  lemma BlankLine()
    ensures Lines("\n") == [""]
  {
    assert LineEnd("\n") == 0;
    assert "\n"[AfterBreak("\n")..] == "";
  }

  /** The header line of a note is its first line, marked; the others are lines of their own. */
  lemma LaterLines(note: string) returns (first: string)
    ensures first != "" && first[0] == '#'
    ensures Lines(note + "\n") != [] && Lines("# Note: " + note + "\n") == [first] + Lines(note + "\n")[1..]
  {
    hide Lines, LineEnd;
    var s, t := note + "\n", "# Note: " + note + "\n";
    LineEndAtMost(s, |note|);
    var n := LineEnd(s);
    assert t == "# Note: " + s;
    assert t[..8 + n] == "# Note: " + s[..n];
    NoteLine(s[..n]);
    assert t[8 + n] == s[n];
    LineEndIs(t, 8 + n);
    LinesStep(s);
    LinesStep(t);
    assert t[AfterBreak(t)..] == s[AfterBreak(s)..];
    first := t[..8 + n];
    assert ([s[..n]] + Lines(s[AfterBreak(s)..]))[1..] == Lines(s[AfterBreak(s)..]);
  }

  /** The rows that a header holds are those on the lines of its note after the first; so it holds none
      exactly when these lines hold none. */
  lemma HeaderRowsAreOfNote(platform: Platform, stamp: string, count: nat, bytes: nat, note: string)
    requires OneLine(stamp) && note != ""
    ensures Lines(note + "\n") != []
    ensures ParseText(platform, Terminated(Header(stamp, count, bytes, note) + [""])) ==
            Parse(platform, Lines(note + "\n")[1..])
  {
    hide Parse, Lines, LineEnd, AfterBreak, Terminated, NatToString, OneLine;
    var top := Header(stamp, count, bytes, "");
    var last := "# Note: " + note;
    HeaderLines(stamp, count, bytes);
    assert Header(stamp, count, bytes, note) + [""] == top + [last, ""];
    TerminatedAppend(top, [last, ""]);
    LinesOfTerminated(top, Terminated([last, ""]));
    NoteAndBlank(last);
    LinesAppend(last, "\n");
    BlankLine();
    var rest := LaterLines(note);
    CommentsAreSkipped(platform, top + [rest]);
    assert Lines(last + "\n") == [rest] + Lines(note + "\n")[1..];
    var tail := Lines(note + "\n")[1..];
    assert top + ([rest] + tail + [""]) == (top + [rest]) + tail + [""];
    CommentsAreSkipped(platform, [""]);
    ParseAppend(platform, (top + [rest]) + tail, [""]);
    ParseAppend(platform, top + [rest], tail);
    BothWithNothing(Parse(platform, tail));
  }

  lemma TerminatedPair(note: string, tail: string)
    ensures Terminated(["# Note: " + (note + "\n" + tail), ""]) == Terminated(["# Note: " + note] + [tail, ""])
  {
    var x, y := "# Note: " + (note + "\n" + tail), "# Note: " + note;
    assert [x, ""][1..] == [""] && ([y] + [tail, ""])[1..] == [tail, ""] && [tail, ""][1..] == [""];
    assert x == y + "\n" + tail;
    Associates(y + "\n", tail, "\n");
    Associates(y + "\n", tail + "\n", Terminated([""]));
  }

  lemma TerminatedNote(top: seq<string>, note: string, tail: string)
    ensures Terminated(top + ["# Note: " + (note + "\n" + tail), ""]) ==
            Terminated(top + ["# Note: " + note] + [tail, ""])
  {
    hide Terminated;
    var a, b := ["# Note: " + (note + "\n" + tail), ""], ["# Note: " + note] + [tail, ""];
    Associates(top, ["# Note: " + note], [tail, ""]);
    TerminatedAppend(top, a);
    TerminatedAppend(top, b);
    TerminatedPair(note, tail);
  }

  lemma RowAndBlank(platform: Platform, line: string)
    requires ParseLine(platform, line).Entry?
    ensures Parse(platform, [line, ""]) == Some([ParseLine(platform, line).row])
  {
    hide ParseLine;
    BlankIsSkipped(platform);
    var row := ParseLine(platform, line).row;
    assert Parse(platform, [line]) == Some([row]) by {
      assert [line][..0] == [] && [] + [row] == [row];
      assert Parse(platform, []) == Some([]);
    }
    assert [line, ""][..1] == [line] && [line, ""][1] == "";
  }

  /** Without that a note can add a row: what follows a line feed in it is read as any other line. */
  lemma NoteMayHoldRow(platform: Platform, stamp: string, count: nat, bytes: nat, note: string, row: Row)
    requires Sound(platform) && OneLine(stamp) && OneLine(note) && Printable(row) && Clean(row.path)
    ensures ParseText(platform, Terminated(Header(stamp, count, bytes, note + "\n" + PrintRow(row)) + [""]))
            == Some([row])
  {
    hide Sound, Parse, ParseLine, Lines, Terminated, NatToString, OneLine, Printable, PrintRow;
    var tail := PrintRow(row);
    var top := Header(stamp, count, bytes, "") + ["# Note: " + note];
    var whole := Header(stamp, count, bytes, note + "\n" + tail) + [""];
    HeaderLines(stamp, count, bytes);
    NoteLine(note);
    assert OneLine(row.path);
    PrintedRowIsLine(row);
    var lines := top + [tail, ""];
    TerminatedNote(Header(stamp, count, bytes, ""), note, tail);
    assert whole == Header(stamp, count, bytes, "") + ["# Note: " + (note + "\n" + tail), ""];
    LinesOfTerminated(lines, "");
    assert Terminated(lines) + "" == Terminated(lines);
    NoLines();
    assert lines + [] == lines;
    CommentsAreSkipped(platform, top);
    ParseAppend(platform, top, [tail, ""]);
    PrintedRowParses(platform, row);
    RowAndBlank(platform, tail);
    BothEqualSecond(Some([]), [row]);
  }

  /******* Verifying *******/

  /** The rows by path; a path named twice is expected as its last row says. */
  function Expected(rows: seq<Row>): map<string, Row> {
    if rows == [] then map[]
    else Expected(rows[..|rows| - 1])[rows[|rows| - 1].path := rows[|rows| - 1]]
  }

  predicate Exists(platform: Platform, tree: Tree, path: string) {
    platform.locate(path) in tree.files
  }

  predicate Differs(platform: Platform, tree: Tree, path: string, digest: string) {
    Exists(platform, tree, path) && platform.digest(tree.files[platform.locate(path)]) != digest
  }

  datatype Report =
    | ManifestMissing
    | SizeNotANumber
    | Report(ok: bool, expectedCount: nat, mismatched: set<string>, missing: set<string>, untracked: set<string>)

  function MissingAmong(platform: Platform, tree: Tree, paths: set<string>): set<string> {
    set path | path in paths && !Exists(platform, tree, path)
  }

  function DifferingAmong(platform: Platform, tree: Tree, expected: map<string, Row>, paths: set<string>): set<string>
    requires paths <= expected.Keys
  {
    set path | path in paths && Differs(platform, tree, path, expected[path].digest)
  }

  function Verified(platform: Platform, tree: Tree, manifest: Option<string>): Report {
    if manifest.None? then ManifestMissing
    else
      match ParseText(platform, manifest.value)
      case None => SizeNotANumber
      case Some(rows) =>
        var expected := Expected(rows);
        var mismatched := DifferingAmong(platform, tree, expected, expected.Keys);
        var missing := MissingAmong(platform, tree, expected.Keys);
        var untracked := Tracked(tree) - expected.Keys;
        Report(mismatched == {} && missing == {} && untracked == {}, |expected|, mismatched, missing, untracked)
  }

  /** A path is expected as the last of its rows says. */
  lemma {:induction false} ExpectedIsLast(rows: seq<Row>, path: string)
    ensures path in Expected(rows) <==> exists row :: row in rows && row.path == path
    ensures path in Expected(rows) ==>
              exists k :: 0 <= k < |rows| && rows[k] == Expected(rows)[path] && rows[k].path == path
                && forall j :: k < j < |rows| ==> rows[j].path != path
  {
    if rows != [] {
      var last := |rows| - 1;
      ExpectedIsLast(rows[..last], path);
      assert rows == rows[..last] + [rows[last]];
      if rows[last].path != path && path in Expected(rows[..last]) {
        var k :| 0 <= k < last && rows[..last][k] == Expected(rows[..last])[path] && rows[..last][k].path == path
                 && forall j :: k < j < last ==> rows[..last][j].path != path;
        forall j | k < j < |rows| ensures rows[j].path != path {
          if j < last {
            assert rows[..last][j].path != path;
          }
        }
        assert rows[k] == Expected(rows)[path];
      }
    }
  }

  /** What the report says of any manifest that can be read, path by path. */
  lemma ReportSays(platform: Platform, tree: Tree, manifest: string, path: string)
    requires ParseText(platform, manifest).Some?
    ensures var report, rows := Verified(platform, tree, Some(manifest)), ParseText(platform, manifest).value;
            var named, found := exists row :: row in rows && row.path == path, platform.locate(path) in tree.files;
            && report.Report?
            && (path in report.missing <==> named && !found)
            && (path in report.mismatched <==>
                  exists k :: 0 <= k < |rows| && rows[k].path == path && found
                    && (forall j :: k < j < |rows| ==> rows[j].path != path)
                    && platform.digest(tree.files[platform.locate(path)]) != rows[k].digest)
            && (path in report.untracked <==> path in tree.files && IsEvidence(tree.root, path) && !named)
            && (report.ok <==> report.missing == {} && report.mismatched == {} && report.untracked == {})
  {
    hide ParseText, IsEvidence, Expected;
    ExpectedIsLast(ParseText(platform, manifest).value, path);
  }

  /** One size that is no number fails the whole reading. */
  lemma {:induction false} SizeErrorEnds(platform: Platform, lines: seq<string>, n: nat)
    requires n <= |lines| && Parse(platform, lines[..n]).None?
    ensures Parse(platform, lines).None?
  {
    hide Parse;
    assert lines == lines[..n] + lines[n..];
    ParseAppend(platform, lines[..n], lines[n..]);
  }

  method ReadManifest(platform: Platform, text: string) returns (expected: Option<map<string, Row>>)
    ensures ParseText(platform, text).None? ==> expected == None
    ensures ParseText(platform, text).Some? ==> expected == Some(Expected(ParseText(platform, text).value))
  {
    hide ParseLine;
    var lines := Lines(text);
    var found: map<string, Row> := map[];
    for i := 0 to |lines|
      invariant Parse(platform, lines[..i]).Some? && found == Expected(Parse(platform, lines[..i]).value)
    {
      assert lines[..i + 1][..i] == lines[..i];
      match ParseLine(platform, lines[i]) {
        case Skipped =>
        case Entry(row) => found := found[row.path := row];
        case BadSize =>
          SizeErrorEnds(platform, lines, i + 1);
          return None;
      }
    }
    assert lines[..|lines|] == lines;
    return Some(found);
  }

  lemma NothingAmong(platform: Platform, tree: Tree, expected: map<string, Row>)
    ensures MissingAmong(platform, tree, {}) == {} && DifferingAmong(platform, tree, expected, {}) == {}
  {
  }

  lemma OneMore(platform: Platform, tree: Tree, expected: map<string, Row>, paths: set<string>, path: string)
    requires paths <= expected.Keys && path in expected
    ensures MissingAmong(platform, tree, paths + {path}) ==
            MissingAmong(platform, tree, paths) + if Exists(platform, tree, path) then {} else {path}
    ensures DifferingAmong(platform, tree, expected, paths + {path}) ==
            DifferingAmong(platform, tree, expected, paths) +
            if Differs(platform, tree, path, expected[path].digest) then {path} else {}
  {
    hide Exists, Differs;
  }

  /** Goes through the expected files, in any order. */
  method CompareFiles(platform: Platform, tree: Tree, expected: map<string, Row>)
    returns (mismatched: set<string>, missing: set<string>)
    ensures mismatched == DifferingAmong(platform, tree, expected, expected.Keys)
    ensures missing == MissingAmong(platform, tree, expected.Keys)
  {
    hide MissingAmong, DifferingAmong;
    mismatched, missing := {}, {};
    var paths, done := expected.Keys, {};
    NothingAmong(platform, tree, expected);
    while paths != {}
      invariant paths <= expected.Keys && done == expected.Keys - paths
      invariant missing == MissingAmong(platform, tree, done)
      invariant mismatched == DifferingAmong(platform, tree, expected, done)
      decreases paths
    {
      var path :| path in paths;
      OneMore(platform, tree, expected, done, path);
      if !Exists(platform, tree, path) {
        missing := missing + {path};
      } else if platform.digest(tree.files[platform.locate(path)]) != expected[path].digest {
        mismatched := mismatched + {path};
      }
      paths, done := paths - {path}, done + {path};
    }
    assert done == expected.Keys;
  }

  method VerifyManifestFile(platform: Platform, tree: Tree, manifest: Option<string>) returns (report: Report)
    ensures report == Verified(platform, tree, manifest)
  {
    hide ParseText, Tracked, Expected, MissingAmong, DifferingAmong;
    if manifest.None? {
      return ManifestMissing;
    }
    var read := ReadManifest(platform, manifest.value);
    if read.None? {
      return SizeNotANumber;
    }
    var expected := read.value;
    var mismatched, missing := CompareFiles(platform, tree, expected);
    var untracked := Tracked(tree) - expected.Keys;
    var ok := mismatched == {} && missing == {} && untracked == {};
    report := Report(ok, |expected|, mismatched, missing, untracked);
  }

  /** Of rows with different paths each is expected as it is. */
  lemma {:induction false} ExpectedOfRows(platform: Platform, tree: Tree, paths: seq<string>)
    requires forall path :: path in paths ==> path in tree.files
    ensures var expected := Expected(RowsOf(platform, tree, paths));
            && (forall path :: path in expected <==> path in paths)
            && (forall path :: path in paths ==> expected[path] == RowOf(platform, tree, path))
  {
    if paths == [] {
    } else {
      var n := |paths| - 1;
      ExpectedOfRows(platform, tree, paths[..n]);
      assert RowsOf(platform, tree, paths)[..n] == RowsOf(platform, tree, paths[..n]);
      assert paths == paths[..n] + [paths[n]];
    }
  }

  ghost predicate CleanTree(tree: Tree) {
    forall path :: path in Tracked(tree) ==> Clean(path)
  }

  /** A generated manifest is read back as the rows of its tree. */
  lemma GeneratedParses(platform: Platform, tree: Tree, stamp: string, note: string)
    requires Sound(platform) && CleanTree(tree) && OneLine(stamp) && OneLine(note)
    ensures forall path :: path in Listing(platform, tree) ==> path in tree.files
    ensures ParseText(platform, Generated(platform, tree, stamp, note)) ==
            Some(RowsOf(platform, tree, Listing(platform, tree)))
  {
    hide Sound, Clean, OneLine, Printable, Parse, ParseText, ManifestText, Header, Listing, Tracked, TotalBytes;
    ListingIsTracked(platform, tree);
    var listing := Listing(platform, tree);
    RowsArePrintable(platform, tree, listing);
    HeaderHoldsNoRow(platform, stamp, |listing|, TotalBytes(tree, listing), note);
    RoundTripIff(platform, Header(stamp, |listing|, TotalBytes(tree, listing), note),
                 RowsOf(platform, tree, listing));
  }

  lemma RowsAreLines(rows: seq<Row>)
    requires forall i :: 0 <= i < |rows| ==> Printable(rows[i]) && Clean(rows[i].path)
    ensures OneLineEach(PrintRows(rows))
  {
    hide Printable, PrintRow, OneLine;
    forall i | 0 <= i < |rows| ensures OneLine(PrintRow(rows[i])) {
      PrintedRowIsLine(rows[i]);
    }
  }

  lemma BlankIsOneLine()
    ensures OneLineEach([""])
  {
  }

  lemma LinesOfManifest(header: seq<string>, rows: seq<Row>)
    requires OneLineEach(header)
    requires forall i :: 0 <= i < |rows| ==> Printable(rows[i]) && Clean(rows[i].path)
    ensures Lines(ManifestText(header, rows)) == header + [""] + PrintRows(rows)
  {
    hide Lines, Printable, Clean, PrintRows, Joined, OneLineEach;
    RowsAreLines(rows);
    BlankIsOneLine();
    AppendOneLines(header, [""]);
    AppendOneLines(header + [""], PrintRows(rows));
    LinesOfJoined(header + [""] + PrintRows(rows));
  }

  /** A manifest, line by line: its header with the number of the files and the total of their bytes, an empty
      line, and one row for each tracked file. */
  lemma GeneratedLines(platform: Platform, tree: Tree, stamp: string, note: string)
    requires Sound(platform) && CleanTree(tree) && OneLine(stamp) && OneLine(note)
    ensures forall path :: path in Listing(platform, tree) <==> path in Tracked(tree)
    ensures |Listing(platform, tree)| == |Tracked(tree)|
    ensures var listing := Listing(platform, tree);
            var rows := RowsOf(platform, tree, listing);
            && (forall i :: 0 <= i < |rows| ==> Printable(rows[i]))
            && Lines(Generated(platform, tree, stamp, note)) ==
               ["# MANIFEST.sha256", "# Generated: " + stamp + " by wutai-clinic evidence-manifest",
                "# Files: " + NatToString(|listing|) + "  Total bytes: " + NatToString(TotalBytes(tree, listing))]
               + (if note == "" then [] else ["# Note: " + note]) + [""] + PrintRows(rows)
  {
    hide Clean, OneLine, Printable, ManifestText, TotalBytes, IsEvidence, Lines, PrintRows, NatToString, AllHex, Plain;
    ListingIsTracked(platform, tree);
    var listing := Listing(platform, tree);
    assert multiset(listing) == multiset(Tracked(tree)) && |multiset(listing)| == |multiset(Tracked(tree))|;
    RowsArePrintable(platform, tree, listing);
    HeaderLines(stamp, |listing|, TotalBytes(tree, listing));
    NoteLine(note);
    assert "# " + MANIFEST_NAME == "# MANIFEST.sha256";
    assert OneLineEach(Header(stamp, |listing|, TotalBytes(tree, listing), note));
    LinesOfManifest(Header(stamp, |listing|, TotalBytes(tree, listing), note), RowsOf(platform, tree, listing));
  }

  /** The evidence file is in both trees, with contents of different hashes. */
  predicate Changed(platform: Platform, before: Tree, after: Tree, path: string) {
    && path in Tracked(before) && path in Tracked(after)
    && platform.digest(before.files[path]) != platform.digest(after.files[path])
  }

  /** Whether a file listed before is still there, and unchanged, read off the tracked files alone. */
  lemma StillThere(platform: Platform, before: Tree, after: Tree, path: string)
    requires Sound(platform) && ValidTree(before) && (RootIsSkipped(before.root) <==> RootIsSkipped(after.root))
              && path in Tracked(before)
    ensures Exists(platform, after, path) <==> path in Tracked(after)
    ensures Differs(platform, after, path, platform.digest(before.files[path])) <==>
              Changed(platform, before, after, path)
  {
    hide AllHex, IsEvidence, Plain, RootIsSkipped;
    EvidenceElsewhere(before.root, after.root, path);
    assert platform.locate(path) == path;
  }

  function ChangedIn(platform: Platform, before: Tree, after: Tree): set<string> {
    set path | path in Tracked(before) && Changed(platform, before, after, path)
  }

  /** What verification reports when each tracked file is expected with its hash. */
  lemma DifferencesOf(platform: Platform, before: Tree, after: Tree, expected: map<string, Row>)
    requires Sound(platform) && ValidTree(before) && (RootIsSkipped(before.root) <==> RootIsSkipped(after.root))
    requires expected.Keys == Tracked(before)
    requires forall path :: path in expected ==> expected[path] == RowOf(platform, before, path)
    ensures MissingAmong(platform, after, expected.Keys) == Tracked(before) - Tracked(after)
    ensures DifferingAmong(platform, after, expected, expected.Keys) == ChangedIn(platform, before, after)
  {
    hide Sound, ValidTree, Exists, Differs, Changed, IsEvidence;
    forall path | path in Tracked(before)
      ensures Exists(platform, after, path) <==> path in Tracked(after)
      ensures Differs(platform, after, path, expected[path].digest) <==> Changed(platform, before, after, path)
    {
      StillThere(platform, before, after, path);
      assert expected[path].digest == RowOf(platform, before, path).digest;
    }
  }

  /** Verifying a later tree against the manifest of an earlier one reports exactly the differences. */
  lemma VerificationIsExact(platform: Platform, before: Tree, after: Tree, stamp: string, note: string)
    requires Sound(platform) && CleanTree(before) && OneLine(stamp) && OneLine(note)
    requires ValidTree(before) && (RootIsSkipped(before.root) <==> RootIsSkipped(after.root))
    ensures var missing, untracked := Tracked(before) - Tracked(after), Tracked(after) - Tracked(before);
            var changed := ChangedIn(platform, before, after);
            Verified(platform, after, Some(Generated(platform, before, stamp, note))) ==
            Report(changed == {} && missing == {} && untracked == {}, |Tracked(before)|, changed, missing, untracked)
  {
    hide Sound, ValidTree, CleanTree, OneLine, ParseText, Generated, Expected, Tracked, Listing, MissingAmong,
      DifferingAmong, ChangedIn, RowOf;
    GeneratedParses(platform, before, stamp, note);
    ListingIsTracked(platform, before);
    var listing := Listing(platform, before);
    ExpectedOfRows(platform, before, listing);
    var expected := Expected(RowsOf(platform, before, listing));
    assert expected.Keys == Tracked(before);
    DifferencesOf(platform, before, after, expected);
  }

  /** Verification passes if and only if the same evidence files are there, with the same hashes. */
  lemma PassesIffUnchanged(platform: Platform, before: Tree, after: Tree, stamp: string, note: string)
    requires Sound(platform) && CleanTree(before) && OneLine(stamp) && OneLine(note)
    requires ValidTree(before) && (RootIsSkipped(before.root) <==> RootIsSkipped(after.root))
    ensures Verified(platform, after, Some(Generated(platform, before, stamp, note))).Report?
    ensures Verified(platform, after, Some(Generated(platform, before, stamp, note))).ok <==>
            && Tracked(before) == Tracked(after)
            && forall path :: path in Tracked(before) ==>
                 platform.digest(before.files[path]) == platform.digest(after.files[path])
  {
    hide Sound, ValidTree, CleanTree, OneLine, Verified, Generated, IsEvidence;
    VerificationIsExact(platform, before, after, stamp, note);
    if Tracked(before) == Tracked(after) {
      if path :| path in ChangedIn(platform, before, after) {
        assert Changed(platform, before, after, path);
      } else {
        forall path | path in Tracked(before)
          ensures platform.digest(before.files[path]) == platform.digest(after.files[path])
        {
          assert path !in ChangedIn(platform, before, after);
        }
      }
    } else {
      var missing, untracked := Tracked(before) - Tracked(after), Tracked(after) - Tracked(before);
      assert missing == {} && untracked == {} ==> Tracked(before) == Tracked(after);
    }
  }

  lemma {:induction false} ExpectedIsClean(rows: seq<Row>, path: string)
    requires forall i :: 0 <= i < |rows| ==> Clean(rows[i].path)
    ensures path in Expected(rows) ==> Clean(path)
  {
    hide Clean;
    if rows == [] {
    } else {
      ExpectedIsClean(rows[..|rows| - 1], path);
    }
  }

  /** A tree passes against its own manifest exactly when all its evidence paths are clean: a path that begins
      with `#` or whitespace, or holds a line break, is reported as untracked at once. */
  lemma OwnManifestPassesIff(platform: Platform, tree: Tree, stamp: string, note: string)
    requires Sound(platform) && ValidTree(tree) && OneLine(stamp) && OneLine(note)
    ensures var report := Verified(platform, tree, Some(Generated(platform, tree, stamp, note)));
            report.Report? && report.ok <==> CleanTree(tree)
  {
    hide Sound, ValidTree, OneLine, Clean, Generated, IsEvidence, Parse, Lines, Expected, MissingAmong,
      DifferingAmong, Tracked;
    if CleanTree(tree) {
      PassesIffUnchanged(platform, tree, tree, stamp, note);
    } else {
      var path :| path in Tracked(tree) && !Clean(path);
      var text := Generated(platform, tree, stamp, note);
      ParsedIsClean(platform, Lines(text));
      if ParseText(platform, text).Some? {
        var rows := ParseText(platform, text).value;
        ExpectedIsClean(rows, path);
        assert path in Tracked(tree) - Expected(rows).Keys;
      }
    }
  }

  /** A tree of one empty file whose name begins with `#`. */
  function HashTree(): Tree {
    Tree([], map["#a" := []])
  }

  lemma OnePart()
    ensures Parts("#a") == ["#a"]
  {
    hide Find;
    forall i: nat | i < 2 ensures !OccursAt("#a", "/", i) {
      assert "#a"[i..i + 1][0] == "#a"[i];
    }
  }

  lemma EmptyLine()
    ensures OneLine("")
  {
  }

  /** It fails against its own manifest. */
  lemma HashTreeFails(platform: Platform, stamp: string)
    requires Sound(platform) && OneLine(stamp)
    ensures var report := Verified(platform, HashTree(), Some(Generated(platform, HashTree(), stamp, "")));
            !(report.Report? && report.ok)
  {
    hide Sound, Verified, Generated, Find, OneLine;
    OnePart();
    var tree := HashTree();
    assert IsEvidence(tree.root, "#a");
    assert "#a" in Tracked(tree) && !Clean("#a");
    EmptyLine();
    OwnManifestPassesIff(platform, tree, stamp, "");
  }
}

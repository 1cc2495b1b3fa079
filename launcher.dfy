/**
 * examples/main.py: the launcher.  It lists the runnable scripts, gives
 * each an `Application` whose name, icon and description come from its
 * first three lines or from its file name, numbers them in creation order,
 * and on start-up hands over to the script named in /ramfs/launch.txt.
 */
module Launcher {
  import opened Wrappers
  import opened Text

  /** The `icons` table: icon key to its glyph in the symbol font. */
  const ICONS: map<string, string> := map[
    "travel" := "\U{E6CA}",
    "bomb" := "\U{F568}",
    "lightbulb" := "\U{E0F0}",
    "deployed-code" := "\U{F720}",
    "photo-library" := "\U{E413}",
    "joystick" := "\U{F5EE}",
    "monitoring" := "\U{F190}",
    "timer" := "\U{E425}",
    "description" := "\U{E873}",
    "schedule" := "\U{E8B5}"
  ]

  /** str.upper() on one character: ASCII lower-case letters become upper-case. */
  function Upper(c: char): (u: char)
    ensures 'a' <= c <= 'z' ==> 'A' <= u <= 'Z' && u as int == c as int - 32
    ensures !('a' <= c <= 'z') ==> u == c
  {
    if 'a' <= c <= 'z' then (c as int - 32) as char else c
  }

  /** w[0].upper() + w[1:] */
  function Capitalize(w: string): (r: string)
    requires |w| > 0
    ensures |r| == |w| && r[0] == Upper(w[0]) && r[1..] == w[1..]
    ensures NoSpace(w) ==> NoSpace(r)
  {
    [Upper(w[0])] + w[1..]
  }

  function CapitalizeAll(ws: seq<string>): (r: seq<string>)
    requires Words(ws)
    ensures Words(r) && |r| == |ws|
    ensures forall i :: 0 <= i < |ws| ==> r[i] == Capitalize(ws[i])
  {
    seq(|ws|, i requires 0 <= i < |ws| => Capitalize(ws[i]))
  }

  /** file[:-3] */
  function Stem(file: string): (s: string)
  {
    if |file| >= 3 then file[..|file| - 3] else ""
  }

  /** .replace("_", " ") */
  function Underscores(s: string): (r: string)
    ensures |r| == |s| && '_' !in r
    ensures forall i :: 0 <= i < |s| && s[i] == '_' ==> r[i] == ' '
    ensures forall i :: 0 <= i < |s| && s[i] != '_' ==> r[i] == s[i]
  {
    seq(|s|, i requires 0 <= i < |s| => if s[i] == '_' then ' ' else s[i])
  }

  /** The name of a script without a `# NAME` header: its file name as capitalised words. */
  function DefaultName(file: string): (name: string)
    ensures Split(name) == CapitalizeAll(Split(Underscores(Stem(file))))
  {
    SplitJoin(CapitalizeAll(Split(Underscores(Stem(file)))));
    Join(CapitalizeAll(Split(Underscores(Stem(file)))))
  }

  /**
   * The default name reads back as the words of the file name, without
   * its ".py" and with "_" as a separator, each with its first letter in
   * upper case and the rest unchanged.
   */
  lemma DefaultNameWords(file: string)
    ensures var ws := Split(Underscores(Stem(file)));
      var name := Split(DefaultName(file));
      |name| == |ws| &&
      forall i :: 0 <= i < |ws| ==> name[i][0] == Upper(ws[i][0]) && name[i][1..] == ws[i][1..]
  {
    var ws := Split(Underscores(Stem(file)));
    SplitJoin(CapitalizeAll(ws));
  }

  /** f.readline(): the text up to and including the first newline, and what follows. */
  function ReadLine(s: string): (r: (string, string))
    ensures r.0 + r.1 == s
    ensures '\n' !in s ==> r.0 == s
  {
    if |s| == 0 then ("", "")
    else if s[0] == '\n' then ("\n", s[1..])
    else
      var r := ReadLine(s[1..]);
      assert s == [s[0]] + s[1..];
      ([s[0]] + r.0, r.1)
  }

  /** When there is a newline, the line read ends with the first one. */
  lemma {:induction false} ReadLineEnds(s: string)
    requires '\n' in s
    ensures var line := ReadLine(s).0;
      |line| > 0 && line[|line| - 1] == '\n' && '\n' !in line[..|line| - 1]
  {
    if s[0] != '\n' {
      assert s == [s[0]] + s[1..];
      ReadLineEnds(s[1..]);
      var r := ReadLine(s[1..]);
      var line := [s[0]] + r.0;
      assert line[..|line| - 1] == [s[0]] + r.0[..|r.0| - 1];
    }
  }

  /** [f.readline().strip() for _ in range(3)] */
  function HeaderLines(content: string): (lines: seq<string>)
    ensures |lines| == 3
  {
    var (l0, r0) := ReadLine(content);
    var (l1, r1) := ReadLine(r0);
    var (l2, _) := ReadLine(r1);
    [Strip(l0), Strip(l1), Strip(l2)]
  }

  lemma ReadLineOf(line: string, rest: string)
    requires '\n' !in line
    ensures ReadLine(line + "\n" + rest) == (line + "\n", rest)
  {
    var s := line + "\n" + rest;
    var r := ReadLine(s);
    assert s[|line|] == '\n';
    ReadLineEnds(s);
    assert r.0 == s[..|r.0|];
    assert s[..|line| + 1] == line + "\n";
  }

  /** The header is the first three lines, stripped; whatever follows them plays no part. */
  lemma HeaderLinesOf(l0: string, l1: string, l2: string, rest: string)
    requires '\n' !in l0 && '\n' !in l1 && '\n' !in l2
    ensures HeaderLines(l0 + "\n" + (l1 + "\n" + (l2 + "\n" + rest))) == [Strip(l0), Strip(l1), Strip(l2)]
  {
    var r1 := l1 + "\n" + (l2 + "\n" + rest);
    ReadLineOf(l0, r1);
    ReadLineOf(l1, l2 + "\n" + rest);
    ReadLineOf(l2, rest);
    StripNewline(l0);
    StripNewline(l1);
    StripNewline(l2);
  }

  /** What the launcher shows for a script. */
  datatype Header = Header(name: string, icon: string, description: string)

  const ICON_TAG := "# ICON "
  const NAME_TAG := "# NAME "
  const DESC_TAG := "# DESC "

  /** One header line: an icon line looks up its key (a missing key is an error), a name or description line sets that field. */
  function ApplyLine(icons: map<string, string>, h: Header, line: string): (r: Option<Header>)
    ensures r.None? <==> StartsWith(line, ICON_TAG) && Strip(line[7..]) !in icons
    ensures r.Some? ==> r.value.icon == if StartsWith(line, ICON_TAG) then icons[Strip(line[7..])] else h.icon
    ensures r.Some? ==> r.value.name == if StartsWith(line, NAME_TAG) then line[7..] else h.name
    ensures r.Some? ==> r.value.description == if StartsWith(line, DESC_TAG) then line[7..] else h.description
  {
    var h1 :=
      if StartsWith(line, ICON_TAG) then
        var key := Strip(line[7..]);
        if key in icons then Some(h.(icon := icons[key])) else None
      else Some(h);
    match h1
    case None => None
    case Some(h2) =>
      var h3 := if StartsWith(line, NAME_TAG) then h2.(name := line[7..]) else h2;
      Some(if StartsWith(line, DESC_TAG) then h3.(description := line[7..]) else h3)
  }

  /** The header lines applied in order. */
  function ApplyLines(icons: map<string, string>, h: Header, lines: seq<string>): (r: Option<Header>)
    ensures r.Some? ==> r.value.icon == h.icon || r.value.icon in icons.Values
    decreases |lines|
  {
    if |lines| == 0 then Some(h)
    else
      match ApplyLine(icons, h, lines[0])
      case None => None
      case Some(h1) => ApplyLines(icons, h1, lines[1..])
  }

  /** The defaults Application.__init__ starts from. */
  function Defaults(file: string): Header
  {
    Header(DefaultName(file), "description", "")
  }

  /** Every icon line of the header names a key of the table. */
  predicate IconsKnown(icons: map<string, string>, lines: seq<string>)
  {
    forall k :: 0 <= k < |lines| && StartsWith(lines[k], ICON_TAG) ==> Strip(lines[k][7..]) in icons
  }

  /** The header fails exactly when one of its lines names an icon the table does not have. */
  lemma {:induction false} HeaderFails(icons: map<string, string>, h: Header, lines: seq<string>)
    ensures ApplyLines(icons, h, lines).None? <==> !IconsKnown(icons, lines)
    decreases |lines|
  {
    if |lines| > 0 {
      match ApplyLine(icons, h, lines[0])
      case None =>
      case Some(h1) =>
        var rest := lines[1..];
        HeaderFails(icons, h1, rest);
        if exists k :: 0 <= k < |lines| && StartsWith(lines[k], ICON_TAG) && Strip(lines[k][7..]) !in icons {
          var k :| 0 <= k < |lines| && StartsWith(lines[k], ICON_TAG) && Strip(lines[k][7..]) !in icons;
          assert k > 0 && rest[k - 1] == lines[k];
        }
        if exists k :: 0 <= k < |rest| && StartsWith(rest[k], ICON_TAG) && Strip(rest[k][7..]) !in icons {
          var k :| 0 <= k < |rest| && StartsWith(rest[k], ICON_TAG) && Strip(rest[k][7..]) !in icons;
          assert rest[k] == lines[k + 1];
        }
    }
  }

  /** The name comes from the last `# NAME ` line, or stays as it was when there is none. */
  lemma {:induction false} LastNameWins(icons: map<string, string>, h: Header, lines: seq<string>, k: int)
    requires ApplyLines(icons, h, lines).Some?
    requires k == -1 || (0 <= k < |lines| && StartsWith(lines[k], NAME_TAG))
    requires forall j :: k < j < |lines| ==> !StartsWith(lines[j], NAME_TAG)
    ensures ApplyLines(icons, h, lines).value.name == if k == -1 then h.name else lines[k][7..]
    decreases |lines|
  {
    if |lines| > 0 {
      var h1 := ApplyLine(icons, h, lines[0]).value;
      var rest := lines[1..];
      assert forall j :: 0 <= j < |rest| ==> rest[j] == lines[j + 1];
      LastNameWins(icons, h1, rest, if k <= 0 then -1 else k - 1);
    }
  }

  /** The description comes from the last `# DESC ` line, or stays as it was when there is none. */
  lemma {:induction false} LastDescriptionWins(icons: map<string, string>, h: Header, lines: seq<string>, k: int)
    requires ApplyLines(icons, h, lines).Some?
    requires k == -1 || (0 <= k < |lines| && StartsWith(lines[k], DESC_TAG))
    requires forall j :: k < j < |lines| ==> !StartsWith(lines[j], DESC_TAG)
    ensures ApplyLines(icons, h, lines).value.description == if k == -1 then h.description else lines[k][7..]
    decreases |lines|
  {
    if |lines| > 0 {
      var h1 := ApplyLine(icons, h, lines[0]).value;
      var rest := lines[1..];
      assert forall j :: 0 <= j < |rest| ==> rest[j] == lines[j + 1];
      LastDescriptionWins(icons, h1, rest, if k <= 0 then -1 else k - 1);
    }
  }

  /**
   * The icon is the glyph of the key on the last `# ICON ` line, or stays
   * as it was (the key "description" for a fresh application) when there
   * is none.
   */
  lemma {:induction false} LastIconWins(icons: map<string, string>, h: Header, lines: seq<string>, k: int)
    requires ApplyLines(icons, h, lines).Some?
    requires k == -1 || (0 <= k < |lines| && StartsWith(lines[k], ICON_TAG))
    requires forall j :: k < j < |lines| ==> !StartsWith(lines[j], ICON_TAG)
    ensures k == -1 ==> ApplyLines(icons, h, lines).value.icon == h.icon
    ensures k >= 0 ==> Strip(lines[k][7..]) in icons && ApplyLines(icons, h, lines).value.icon == icons[Strip(lines[k][7..])]
    decreases |lines|
  {
    if |lines| > 0 {
      var h1 := ApplyLine(icons, h, lines[0]).value;
      var rest := lines[1..];
      assert forall j :: 0 <= j < |rest| ==> rest[j] == lines[j + 1];
      LastIconWins(icons, h1, rest, if k <= 0 then -1 else k - 1);
    }
  }

  /** The class attribute Application.count. */
  class Counter {
    var count: int

    constructor()
      ensures count == 0
    {
      count := 0;
    }
  }

  class Application {
    const index: int
    const name: string
    const icon: string
    const description: string
    const file: string

    constructor(index: int, h: Header, file: string)
      ensures this.index == index && name == h.name && icon == h.icon && description == h.description
      ensures this.file == file
    {
      this.index := index;
      name := h.name;
      icon := h.icon;
      description := h.description;
      this.file := file;
    }

    /**
     * Application.__init__: takes the next index from the counter, then
     * applies the header, the script's first lines as HeaderLines reads
     * them; an unknown icon key is the KeyError the source raises, after
     * the counter has moved on.
     */
    static method Create(icons: map<string, string>, counter: Counter, file: string, header: seq<string>)
      returns (app: Option<Application>)
      modifies counter
      ensures counter.count == old(counter.count) + 1
      ensures app.None? <==> !IconsKnown(icons, header)
      ensures app.Some? ==>
        (fresh(app.value) && app.value.index == old(counter.count) && app.value.file == file &&
         Some(HeaderOf(app.value)) == ApplyLines(icons, Defaults(file), header))
    {
      var index := counter.count;
      counter.count := counter.count + 1;
      var h := ReadHeader(icons, Defaults(file), header);
      HeaderFails(icons, Defaults(file), header);
      if h.None? {
        return None;
      }
      var a := new Application(index, h.value, file);
      app := Some(a);
    }
  }

  /** The loop over the header lines in Application.__init__. */
  method ReadHeader(icons: map<string, string>, h0: Header, header: seq<string>) returns (r: Option<Header>)
    ensures r == ApplyLines(icons, h0, header)
  {
    var h := h0;
    for i := 0 to |header|
      invariant ApplyLines(icons, h0, header) == ApplyLines(icons, h, header[i..])
    {
      var line := header[i];
      assert header[i..][1..] == header[i + 1..];
      if StartsWith(line, ICON_TAG) {
        var key := Strip(line[7..]);
        if key !in icons {
          return None;
        }
        h := h.(icon := icons[key]);
      }
      if StartsWith(line, NAME_TAG) {
        h := h.(name := line[7..]);
      }
      if StartsWith(line, DESC_TAG) {
        h := h.(description := line[7..]);
      }
    }
    assert header[|header|..] == [];
    r := Some(h);
  }

  /** A file the launcher offers: a .py script other than main.py and secrets.py. */
  predicate Offered(f: string)
  {
    EndsWith(f, ".py") && f != "main.py" && f != "secrets.py"
  }

  /** The scripts the launcher offers, in listing order. */
  function LauncherFiles(listing: seq<string>): (files: seq<string>)
    ensures |files| <= |listing|
    ensures forall f :: f in files <==> f in listing && Offered(f)
    ensures forall f :: multiset(files)[f] == if Offered(f) then multiset(listing)[f] else 0
  {
    if |listing| == 0 then []
    else
      var f := listing[0];
      assert listing == [f] + listing[1..];
      (if Offered(f) then [f] else []) + LauncherFiles(listing[1..])
  }

  /** The filter keeps the listing's order: it distributes over concatenation. */
  lemma {:induction false} LauncherFilesAppend(a: seq<string>, b: seq<string>)
    ensures LauncherFiles(a + b) == LauncherFiles(a) + LauncherFiles(b)
    decreases |a|
  {
    if |a| == 0 {
      assert a + b == b;
    } else {
      var head := if Offered(a[0]) then [a[0]] else [];
      assert (a + b)[0] == a[0] && (a + b)[1..] == a[1..] + b;
      LauncherFilesAppend(a[1..], b);
      assert LauncherFiles(a) == head + LauncherFiles(a[1..]);
      ListAssoc(head, LauncherFiles(a[1..]), LauncherFiles(b));
    }
  }

  /** One file is kept exactly when it qualifies. */
  lemma LauncherFilesOne(f: string)
    ensures LauncherFiles([f]) == if Offered(f) then [f] else []
  {
  }

  /** The name, icon and description an application shows. */
  function HeaderOf(a: Application): Header
  {
    Header(a.name, a.icon, a.description)
  }

  /**
   * apps is the icons list for the scripts files with header lines
   * headers: one application per script, in order, numbered on from
   * first, each showing its header applied to the defaults.
   */
  predicate Listed(icons: map<string, string>, files: seq<string>, headers: seq<seq<string>>, apps: seq<Application>, first: int)
    requires |headers| == |files|
  {
    |apps| == |files| &&
    forall i :: 0 <= i < |files| ==>
      apps[i].index == first + i && apps[i].file == files[i] &&
      ApplyLines(icons, Defaults(files[i]), headers[i]) == Some(HeaderOf(apps[i]))
  }

  lemma ListedSnoc(icons: map<string, string>, files: seq<string>, headers: seq<seq<string>>, apps: seq<Application>, first: int,
                   file: string, header: seq<string>, a: Application)
    requires |headers| == |files| && Listed(icons, files, headers, apps, first)
    requires a.index == first + |files| && a.file == file
    requires ApplyLines(icons, Defaults(file), header) == Some(HeaderOf(a))
    ensures Listed(icons, files + [file], headers + [header], apps + [a], first)
  {
    var fs, hs, xs := files + [file], headers + [header], apps + [a];
    forall i | 0 <= i < |fs|
      ensures xs[i].index == first + i && xs[i].file == fs[i]
      ensures ApplyLines(icons, Defaults(fs[i]), hs[i]) == Some(HeaderOf(xs[i]))
    {
      if i < |files| {
        assert xs[i] == apps[i] && fs[i] == files[i] && hs[i] == headers[i];
      }
    }
  }

  /** Every script of a list that was built has only known icon keys. */
  lemma ListedKnown(icons: map<string, string>, files: seq<string>, headers: seq<seq<string>>, apps: seq<Application>, first: int)
    requires |headers| == |files| && Listed(icons, files, headers, apps, first)
    ensures forall i :: 0 <= i < |files| ==> IconsKnown(icons, headers[i])
  {
    forall i | 0 <= i < |files|
      ensures IconsKnown(icons, headers[i])
    {
      HeaderFails(icons, Defaults(files[i]), headers[i]);
    }
  }

  /**
   * The icons list: one Application per script, in listing order, with
   * indices counting on from the counter; the first unknown icon key stops
   * the whole list.
   */
  method CreateAll(icons: map<string, string>, counter: Counter, files: seq<string>, headers: seq<seq<string>>)
    returns (apps: Option<seq<Application>>)
    requires |headers| == |files|
    modifies counter
    ensures (forall i :: 0 <= i < |files| ==> IconsKnown(icons, headers[i])) ==>
      apps.Some? && counter.count == old(counter.count) + |files|
    ensures apps.Some? ==> forall i :: 0 <= i < |files| ==> IconsKnown(icons, headers[i])
    ensures apps.Some? ==> Listed(icons, files, headers, apps.value, old(counter.count))
  {
    ghost var first := counter.count;
    var made: seq<Application> := [];
    for i := 0 to |files|
      invariant counter.count == first + i
      invariant Listed(icons, files[..i], headers[..i], made, first)
    {
      var app := Application.Create(icons, counter, files[i], headers[i]);
      if app.None? {
        assert !IconsKnown(icons, headers[i]);
        return None;
      }
      var a := app.value;
      ListedSnoc(icons, files[..i], headers[..i], made, first, files[i], headers[i], a);
      assert files[..i + 1] == files[..i] + [files[i]] && headers[..i + 1] == headers[..i] + [headers[i]];
      made := made + [a];
    }
    assert files[..|files|] == files && headers[..|files|] == headers;
    ListedKnown(icons, files, headers, made, first);
    apps := Some(made);
  }

  /**
   * The start-up check: the first line of launch.txt (None when the file
   * cannot be opened) names a script to hand over to when it ends in ".py";
   * the result is the module name.
   */
  function LaunchTarget(launchFile: Option<string>): (target: Option<string>)
    ensures target.Some? ==> launchFile.Some? && EndsWith(ReadLine(launchFile.value).0, ".py")
  {
    var result := match launchFile case None => "" case Some(content) => ReadLine(content).0;
    if EndsWith(result, ".py") then Some(result[..|result| - 3]) else None
  }

  /**
   * Application.launch writes the script's file name to launch.txt; on the
   * next start the check hands over to that script's module.
   */
  lemma LaunchRoundTrip(file: string)
    requires EndsWith(file, ".py") && '\n' !in file
    ensures LaunchTarget(Some(file)) == Some(Stem(file))
  {}
}

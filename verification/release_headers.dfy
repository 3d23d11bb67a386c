/**
  What the generated `_headers`, `robots.txt` and `_redirects` of
  scripts/build_public.py mean to the host that serves a bundle: the files are
  read back as path blocks and rules, whatever functions wrote them.
*/
module ReleaseHeaders {
  import opened Common
  import opened ReleaseFiles
  import opened Text

  // ---- Reading `_headers` ----

  /** The response headers for the paths that match a pattern. */
  datatype Block = Block(pattern: string, headers: seq<string>)

  /** An indented line is a header of the block it stands in, any other line starts
      a block. */
  function Blocks(lines: seq<string>): seq<Block> {
    if lines == [] then []
    else
      var n := |lines| - 1;
      var before, line := Blocks(lines[..n]), lines[n];
      if before != [] && "  " <= line then
        var block := before[|before| - 1];
        before[..|before| - 1] + [block.(headers := block.headers + [line[2..]])]
      else
        before + [Block(line, [])]
  }

  function ReadHeaders(text: string): seq<Block> { Blocks(Lines(text)) }

  function WithHeader(blocks: seq<Block>, header: string): seq<Block>
    requires blocks != []
  {
    var block := blocks[|blocks| - 1];
    blocks[..|blocks| - 1] + [block.(headers := block.headers + [header])]
  }

  lemma OneMoreHeader(lines: seq<string>, header: string)
    requires Blocks(lines) != []
    ensures Blocks(lines + ["  " + header]) == WithHeader(Blocks(lines), header)
  {
    var line := "  " + header;
    assert (lines + [line])[..|lines|] == lines && line[2..] == header;
  }

  lemma OneMoreBlock(lines: seq<string>, pattern: string)
    requires pattern != "" && pattern[0] != ' '
    ensures Blocks(lines + [pattern]) == Blocks(lines) + [Block(pattern, [])]
  {
    assert (lines + [pattern])[..|lines|] == lines;
  }

  /** How a block is written. */
  function BlockLines(pattern: string, headers: seq<string>): seq<string> { [pattern] + Indented(headers) }

  function Indented(headers: seq<string>): seq<string> {
    seq(|headers|, i requires 0 <= i < |headers| => "  " + headers[i])
  }

  /** Written blocks read back in order. */
  lemma {:induction false} BlockRead(lines: seq<string>, pattern: string, headers: seq<string>)
    requires pattern != "" && pattern[0] != ' '
    ensures Blocks(lines + BlockLines(pattern, headers)) == Blocks(lines) + [Block(pattern, headers)]
    decreases |headers|
  {
    hide Blocks;
    if headers == [] {
      OneMoreBlock(lines, pattern);
      assert lines + BlockLines(pattern, headers) == lines + [pattern];
    } else {
      var n := |headers| - 1;
      BlockRead(lines, pattern, headers[..n]);
      OneMoreHeader(lines + BlockLines(pattern, headers[..n]), headers[n]);
      assert lines + BlockLines(pattern, headers) == lines + BlockLines(pattern, headers[..n]) + ["  " + headers[n]];
      assert headers == headers[..n] + [headers[n]];
    }
  }

  // ---- What a bundle's `_headers` says ----

  function DoNotIndex(): string { Header("X-Robots-Tag", "noindex, nofollow, noarchive") }

  function CacheForever(): string { Header("Cache-Control", "public, max-age=31536000, immutable") }

  function CacheNever(): string { Header("Cache-Control", "public, max-age=0, must-revalidate") }

  /** The policy of every path. */
  function Everywhere(r: Rules, indexed: bool): seq<string> {
    [Header("Content-Security-Policy", r.csp), Header("Permissions-Policy", r.permissions),
     Header("X-Content-Type-Options", "nosniff"), Header("Referrer-Policy", "no-referrer"),
     Header("X-Frame-Options", "DENY")] + if indexed then [] else [DoNotIndex()]
  }

  function PagesHost(): string { "https://webmelee.pages.dev/*" }

  function VersionHost(): string { "https://:version." + "webmelee.pages.dev/*" }

  function HostLines(mode: Mode): seq<string> {
    if mode != Production then []
    else BlockLines(PagesHost(), [DoNotIndex()]) + BlockLines(VersionHost(), [DoNotIndex()])
  }

  function CacheLines(): seq<string> {
    BlockLines("/assets/*", [CacheForever()]) + BlockLines("/licenses/*", [CacheNever()])
  }

  lemma EverywhereLines(r: Rules, indexed: bool)
    ensures BlockLines("/*", Everywhere(r, indexed))
         == ["/*", "  " + Header("Content-Security-Policy", r.csp), "  " + Header("Permissions-Policy", r.permissions),
             "  " + Header("X-Content-Type-Options", "nosniff"), "  " + Header("Referrer-Policy", "no-referrer"),
             "  " + Header("X-Frame-Options", "DENY")]
            + if indexed then [] else ["  " + NoIndex()]
  {
    hide Header;
  }

  lemma OneHeaderLines(pattern: string, header: string)
    ensures BlockLines(pattern, [header]) == [pattern, "  " + header]
  {
  }

  lemma LinesOfPolicy(r: Rules, mode: Mode, index: bool)
    ensures HeaderLines(r, mode, index)
         == BlockLines("/*", Everywhere(r, mode != Preview && index)) + HostLines(mode) + CacheLines()
  {
    hide Header, BlockLines, Everywhere;
    EverywhereLines(r, mode != Preview && index);
    OneHeaderLines(PagesHost(), DoNotIndex());
    OneHeaderLines(VersionHost(), DoNotIndex());
    OneHeaderLines("/assets/*", CacheForever());
    OneHeaderLines("/licenses/*", CacheNever());
  }

  function HostBlocks(mode: Mode): seq<Block> {
    if mode != Production then [] else [Block(PagesHost(), [DoNotIndex()]), Block(VersionHost(), [DoNotIndex()])]
  }

  function CacheBlocks(): seq<Block> { [Block("/assets/*", [CacheForever()]), Block("/licenses/*", [CacheNever()])] }

  lemma Patterns()
    ensures PagesHost() != "" && PagesHost()[0] == 'h' && VersionHost() != "" && VersionHost()[0] == 'h'
    ensures |PagesHost()| == 28 && |VersionHost()| == 37
  {
  }

  lemma HostRead(lines: seq<string>, mode: Mode)
    ensures Blocks(lines + HostLines(mode)) == Blocks(lines) + HostBlocks(mode)
  {
    hide Blocks, BlockLines, DoNotIndex, PagesHost, VersionHost;
    Patterns();
    BlockRead(lines, PagesHost(), [DoNotIndex()]);
    BlockRead(lines + BlockLines(PagesHost(), [DoNotIndex()]), VersionHost(), [DoNotIndex()]);
    Associate(lines, BlockLines(PagesHost(), [DoNotIndex()]), BlockLines(VersionHost(), [DoNotIndex()]));
    assert lines + [] == lines;
  }

  lemma CacheRead(lines: seq<string>)
    ensures Blocks(lines + CacheLines()) == Blocks(lines) + CacheBlocks()
  {
    hide Blocks, BlockLines, CacheForever, CacheNever;
    BlockRead(lines, "/assets/*", [CacheForever()]);
    BlockRead(lines + BlockLines("/assets/*", [CacheForever()]), "/licenses/*", [CacheNever()]);
    Associate(lines, BlockLines("/assets/*", [CacheForever()]), BlockLines("/licenses/*", [CacheNever()]));
  }

  /** The policies a builder is given are one line each, as the repository's are. */
  predicate PoliciesFit(r: Rules) { OneLine(r.csp) && OneLine(r.permissions) }

  lemma PolicyRead(r: Rules, mode: Mode, index: bool)
    requires PoliciesFit(r)
    ensures ReadHeaders(Headers(r, mode, index))
         == [Block("/*", Everywhere(r, mode != Preview && index))] + HostBlocks(mode) + CacheBlocks()
  {
    hide Everywhere, BlockLines, HostLines, CacheLines, HostBlocks, CacheBlocks, HeaderLines, Joined, Blocks;
    var top := BlockLines("/*", Everywhere(r, mode != Preview && index));
    LinesOfPolicy(r, mode, index);
    PolicyOneLine(r, mode, index);
    SplitJoined(HeaderLines(r, mode, index));
    NoBlocks();
    BlockRead([], "/*", Everywhere(r, mode != Preview && index));
    assert [] + top == top;
    HostRead(top, mode);
    CacheRead(top + HostLines(mode));
  }

  lemma NoBlocks()
    ensures Blocks([]) == []
  {
  }

  // ---- What that means ----

  /** The headers that the blocks with this pattern set. */
  function HeadersFor(blocks: seq<Block>, pattern: string): seq<string> {
    if blocks == [] then []
    else (if blocks[0].pattern == pattern then blocks[0].headers else []) + HeadersFor(blocks[1..], pattern)
  }

  lemma {:induction false} HeadersJoin(a: seq<Block>, b: seq<Block>, pattern: string)
    ensures HeadersFor(a + b, pattern) == HeadersFor(a, pattern) + HeadersFor(b, pattern)
  {
    if a == [] {
      assert a + b == b;
    } else {
      HeadersJoin(a[1..], b, pattern);
      assert (a + b)[1..] == a[1..] + b;
      var first := if a[0].pattern == pattern then a[0].headers else [];
      Associate(first, HeadersFor(a[1..], pattern), HeadersFor(b, pattern));
    }
  }

  lemma OneBlock(block: Block, pattern: string)
    ensures HeadersFor([block], pattern) == if block.pattern == pattern then block.headers else []
  {
    assert [block][1..] == [];
  }

  lemma PatternsDiffer()
    ensures |"/*"| == 2 && |"/assets/*"| == 9 && |"/licenses/*"| == 11
  {
  }

  lemma HostHeaders(mode: Mode, pattern: string)
    ensures HeadersFor(HostBlocks(mode), pattern)
         == if mode == Production && (pattern == PagesHost() || pattern == VersionHost()) then [DoNotIndex()] else []
  {
    hide DoNotIndex, PagesHost, VersionHost, HeadersFor;
    Patterns();
    NothingFor(pattern);
    if mode == Production {
      var a, b := Block(PagesHost(), [DoNotIndex()]), Block(VersionHost(), [DoNotIndex()]);
      assert HostBlocks(mode) == [a] + [b];
      HeadersJoin([a], [b], pattern);
      OneBlock(a, pattern);
      OneBlock(b, pattern);
    }
  }

  lemma NothingFor(pattern: string)
    ensures HeadersFor([], pattern) == []
  {
  }

  lemma CacheHeaders(pattern: string)
    ensures HeadersFor(CacheBlocks(), pattern)
         == if pattern == "/assets/*" then [CacheForever()] else if pattern == "/licenses/*" then [CacheNever()] else []
  {
    hide CacheForever, CacheNever, HeadersFor;
    PatternsDiffer();
    var a, b := Block("/assets/*", [CacheForever()]), Block("/licenses/*", [CacheNever()]);
    assert CacheBlocks() == [a] + [b];
    HeadersJoin([a], [b], pattern);
    OneBlock(a, pattern);
    OneBlock(b, pattern);
  }

  /** What each pattern is served with: a bundle may be indexed only as the indexed
      production site, never on its preview hosts. */
  lemma ServedWith(r: Rules, mode: Mode, index: bool, pattern: string)
    requires PoliciesFit(r)
    ensures HeadersFor(ReadHeaders(Headers(r, mode, index)), pattern) ==
              if pattern == "/*" then Everywhere(r, mode != Preview && index)
              else if pattern == "/assets/*" then [CacheForever()]
              else if pattern == "/licenses/*" then [CacheNever()]
              else if mode == Production && (pattern == PagesHost() || pattern == VersionHost()) then [DoNotIndex()]
              else []
  {
    hide Everywhere, HostBlocks, CacheBlocks, HeadersFor, ReadHeaders, Headers, DoNotIndex, PagesHost, VersionHost,
         CacheForever, CacheNever;
    PolicyRead(r, mode, index);
    PatternsDiffer();
    Patterns();
    var top := Block("/*", Everywhere(r, mode != Preview && index));
    HeadersJoin([top], HostBlocks(mode), pattern);
    HeadersJoin([top] + HostBlocks(mode), CacheBlocks(), pattern);
    OneBlock(top, pattern);
    HostHeaders(mode, pattern);
    CacheHeaders(pattern);
  }

  /** The name of a header line, up to its colon. */
  function NameOf(line: string): (name: string)
    ensures name <= line && ':' !in name
  {
    if line == "" || line[0] == ':' then "" else [line[0]] + NameOf(line[1..])
  }

  /** Its value, behind the colon and a space. */
  function ValueOf(line: string): string {
    var n := |NameOf(line)| + 2;
    if n <= |line| then line[n..] else ""
  }

  lemma {:induction false} NameRead(name: string, rest: string)
    requires ':' !in name
    ensures NameOf(name + ":" + rest) == name
  {
    if name == "" {
    } else {
      NameRead(name[1..], rest);
      assert (name + ":" + rest)[1..] == name[1..] + ":" + rest;
    }
  }

  lemma HeaderRead(name: string, value: string)
    requires ':' !in name
    ensures NameOf(Header(name, value)) == name && ValueOf(Header(name, value)) == value
  {
    hide NameOf;
    assert ": " == ":" + " ";
    assert Header(name, value) == name + ":" + (" " + value);
    NameRead(name, " " + value);
  }

  predicate ForbidsIndexing(header: string) {
    NameOf(header) == "X-Robots-Tag" && ValueOf(header) == "noindex, nofollow, noarchive"
  }

  predicate Unlisted(headers: seq<string>) { exists h :: h in headers && ForbidsIndexing(h) }

  lemma RobotsTag()
    ensures ':' !in "X-Robots-Tag" && ForbidsIndexing(DoNotIndex())
  {
    HeaderRead("X-Robots-Tag", "noindex, nofollow, noarchive");
  }

  lemma OtherTags1()
    ensures ':' !in "Content-Security-Policy" && "Content-Security-Policy" != "X-Robots-Tag"
    ensures ':' !in "Permissions-Policy" && "Permissions-Policy" != "X-Robots-Tag"
  {
    assert "Content-Security-Policy"[0] == 'C' && "Permissions-Policy"[0] == 'P' && "X-Robots-Tag"[0] == 'X';
  }

  lemma OtherTags2()
    ensures ':' !in "X-Content-Type-Options" && "X-Content-Type-Options" != "X-Robots-Tag"
    ensures ':' !in "Referrer-Policy" && "Referrer-Policy" != "X-Robots-Tag"
    ensures ':' !in "X-Frame-Options" && "X-Frame-Options" != "X-Robots-Tag"
  {
    assert "X-Content-Type-Options"[2] == 'C' && "X-Frame-Options"[2] == 'F' && "X-Robots-Tag"[2] == 'R';
    assert "Referrer-Policy"[0] == 'R' && "X-Robots-Tag"[0] == 'X';
  }

  lemma OtherHeader(name: string, value: string)
    requires ':' !in name && name != "X-Robots-Tag"
    ensures !ForbidsIndexing(Header(name, value))
  {
    HeaderRead(name, value);
  }

  lemma EverywhereUnlisted(r: Rules, indexed: bool)
    ensures Unlisted(Everywhere(r, indexed)) <==> !indexed
  {
    hide Header, DoNotIndex, ForbidsIndexing;
    RobotsTag();
    OtherTags1();
    OtherTags2();
    OtherHeader("Content-Security-Policy", r.csp);
    OtherHeader("Permissions-Policy", r.permissions);
    OtherHeader("X-Content-Type-Options", "nosniff");
    OtherHeader("Referrer-Policy", "no-referrer");
    OtherHeader("X-Frame-Options", "DENY");
    var headers := Everywhere(r, indexed);
    assert !indexed ==> headers[5] == DoNotIndex();
  }

  lemma OnlyUnlisted()
    ensures Unlisted([DoNotIndex()]) && !Unlisted([])
  {
    hide DoNotIndex, ForbidsIndexing;
    RobotsTag();
    assert [DoNotIndex()][0] == DoNotIndex();
  }

  /** Every page forbids indexing exactly in a preview or when it was not asked to
      be indexed; the preview hosts of the production site forbid it always. */
  lemma IndexedExactly(r: Rules, mode: Mode, index: bool)
    requires PoliciesFit(r)
    ensures var blocks := ReadHeaders(Headers(r, mode, index));
            && (Unlisted(HeadersFor(blocks, "/*")) <==> mode == Preview || !index)
            && (Unlisted(HeadersFor(blocks, PagesHost())) <==> mode == Production)
            && (Unlisted(HeadersFor(blocks, VersionHost())) <==> mode == Production)
  {
    hide Headers, ReadHeaders, HeadersFor, Everywhere, DoNotIndex, PagesHost, VersionHost, Unlisted;
    Patterns();
    PatternsDiffer();
    PathsNotHosts();
    ServedWith(r, mode, index, "/*");
    ServedWith(r, mode, index, PagesHost());
    ServedWith(r, mode, index, VersionHost());
    EverywhereUnlisted(r, mode != Preview && index);
    OnlyUnlisted();
  }

  lemma PathsNotHosts()
    ensures "/*"[0] == '/' && "/assets/*"[0] == '/' && "/licenses/*"[0] == '/'
  {
  }

  // ---- `robots.txt` and `_redirects` ----

  /** The rules of `robots.txt`: its lines but comments. */
  function Directives(lines: seq<string>): seq<string> {
    if lines == [] then []
    else (if Comment(lines[0]) then [] else [lines[0]]) + Directives(lines[1..])
  }

  predicate Comment(line: string) { line != "" && line[0] == '#' }

  lemma RulesOf(comment: string, agent: string, rule: string)
    requires Comment(comment) && !Comment(agent) && !Comment(rule)
    ensures Directives([comment, agent, rule]) == [agent, rule]
  {
    hide Comment;
    assert [comment, agent, rule][1..] == [agent, rule] && [agent, rule][1..] == [rule] && [rule][1..] == [];
    assert Directives([rule]) == [rule];
    assert Directives([agent, rule]) == [agent] + [rule];
  }

  /** All robots are shut out exactly in a preview or when the bundle was not asked
      to be indexed, and let in otherwise. */
  lemma RobotsExactly(mode: Mode, index: bool)
    ensures Directives(Lines(Robots(mode, index)))
         == ["User-agent: *", if mode == Preview || !index then "Disallow: /" else "Allow: /"]
  {
    hide Directives, Joined, OneLine;
    RobotsOneLine(mode, index);
    SplitJoined(RobotLines(mode, index));
    var lines := RobotLines(mode, index);
    RulesOf(lines[0], lines[1], lines[2]);
    assert lines == [lines[0], lines[1], lines[2]];
  }

  lemma {:induction false} OnlyComments(lines: seq<string>)
    requires forall l :: l in lines ==> Comment(l)
    ensures Directives(lines) == []
  {
    hide Comment;
    if lines == [] {
    } else {
      assert Comment(lines[0]);
      OnlyComments(lines[1..]);
    }
  }

  /** Only production has a `_redirects`, and it redirects nothing: it cannot turn
      into a fallback for unknown paths. */
  lemma NoRedirectRules(mode: Mode)
    ensures Redirects(mode).Some? <==> mode == Production
    ensures mode == Production ==> Directives(Lines(Redirects(mode).value)) == []
  {
    hide Directives, Joined, RedirectLines;
    RedirectsOneLine();
    SplitJoined(RedirectLines());
    RedirectComments();
    OnlyComments(RedirectLines());
  }

  lemma RedirectComments()
    ensures forall l :: l in RedirectLines() ==> Comment(l)
  {
  }

  // ---- No generated line breaks ----

  lemma ShortEndings()
    ensures OneLine("/*") && OneLine("  ") && OneLine("/assets/*") && OneLine("/licenses/*") && OneLine(": ")
  {
  }

  lemma PagesHostEnding()
    ensures OneLine(PagesHost())
  {
  }

  lemma VersionHostEnding()
    ensures OneLine(VersionHost())
  {
    VersionHostParts();
    OneLineJoin("https://:version.", "webmelee.pages.dev/*");
  }

  lemma VersionHostParts()
    ensures OneLine("https://:version.") && OneLine("webmelee.pages.dev/*")
  {
  }

  lemma NameEndings1()
    ensures OneLine("Content-Security-Policy") && OneLine("Permissions-Policy")
  {
  }

  lemma NameEndings2()
    ensures OneLine("X-Robots-Tag")
  {
  }

  lemma NameEndings()
    ensures OneLine("Content-Security-Policy") && OneLine("Permissions-Policy") && OneLine("X-Robots-Tag")
  {
    hide OneLine;
    NameEndings1();
    NameEndings2();
  }

  lemma OtherNameEndings1()
    ensures OneLine("X-Content-Type-Options") && OneLine("Referrer-Policy")
  {
  }

  lemma OtherNameEndings2()
    ensures OneLine("X-Frame-Options") && OneLine("Cache-Control")
  {
  }

  lemma OtherNameEndings()
    ensures OneLine("X-Content-Type-Options") && OneLine("Referrer-Policy") && OneLine("X-Frame-Options")
    ensures OneLine("Cache-Control")
  {
    hide OneLine;
    OtherNameEndings1();
    OtherNameEndings2();
  }

  lemma ValueEndings1()
    ensures OneLine("nosniff") && OneLine("no-referrer") && OneLine("DENY")
  {
  }

  lemma ValueEndings2()
    ensures OneLine("noindex, nofollow, noarchive")
  {
  }

  lemma ValueEndings()
    ensures OneLine("nosniff") && OneLine("no-referrer") && OneLine("DENY") && OneLine("noindex, nofollow, noarchive")
  {
    hide OneLine;
    ValueEndings1();
    ValueEndings2();
  }

  lemma ForeverEnding()
    ensures OneLine("public, max-age=31536000, immutable")
  {
  }

  lemma NeverEnding()
    ensures OneLine("public, max-age=0, must-revalidate")
  {
  }

  lemma OneLineJoin(a: string, b: string)
    requires OneLine(a) && OneLine(b)
    ensures OneLine(a + b)
  {
  }

  lemma HeaderOneLine(name: string, value: string)
    requires OneLine(name) && OneLine(value)
    ensures OneLine(Header(name, value)) && OneLine("  " + Header(name, value))
  {
    hide OneLine;
    ShortEndings();
    OneLineJoin(name, ": ");
    OneLineJoin(name + ": ", value);
    OneLineJoin("  ", Header(name, value));
  }

  lemma PolicyOneLine(r: Rules, mode: Mode, index: bool)
    requires PoliciesFit(r)
    ensures forall l :: l in HeaderLines(r, mode, index) ==> OneLine(l)
  {
    hide OneLine, Header;
    ShortEndings();
    PagesHostEnding();
    VersionHostEnding();
    NameEndings();
    OtherNameEndings();
    ValueEndings();
    ForeverEnding();
    NeverEnding();
    HeaderOneLine("Content-Security-Policy", r.csp);
    HeaderOneLine("Permissions-Policy", r.permissions);
    HeaderOneLine("X-Content-Type-Options", "nosniff");
    HeaderOneLine("Referrer-Policy", "no-referrer");
    HeaderOneLine("X-Frame-Options", "DENY");
    HeaderOneLine("X-Robots-Tag", "noindex, nofollow, noarchive");
    HeaderOneLine("Cache-Control", "public, max-age=31536000, immutable");
    HeaderOneLine("Cache-Control", "public, max-age=0, must-revalidate");
  }

  lemma ClosedEndings1()
    ensures OneLine("# Draft preview: ") && OneLine("never index this bundle.")
  {
  }

  lemma ClosedEndings2()
    ensures OneLine("User-agent: *") && OneLine("Disallow: /")
  {
  }

  lemma ClosedEndings3()
    ensures OneLine("Allow: /")
  {
  }

  lemma ClosedEndings()
    ensures OneLine("# Draft preview: ") && OneLine("never index this bundle.")
    ensures OneLine("User-agent: *") && OneLine("Disallow: /") && OneLine("Allow: /")
  {
    hide OneLine;
    ClosedEndings1();
    ClosedEndings2();
    ClosedEndings3();
  }

  lemma OpenEndings1()
    ensures OneLine("# The apex production host is ")
  {
  }

  lemma OpenEndings2()
    ensures OneLine("indexable; Pages preview hosts ")
  {
  }

  lemma OpenEndings3()
    ensures OneLine("are blocked by _headers.")
  {
  }

  lemma OpenEndings()
    ensures OneLine("# The apex production host is ") && OneLine("indexable; Pages preview hosts ")
    ensures OneLine("are blocked by _headers.")
  {
    hide OneLine;
    OpenEndings1();
    OpenEndings2();
    OpenEndings3();
  }

  lemma ThreeJoined(a: string, b: string, c: string)
    requires OneLine(a) && OneLine(b) && OneLine(c)
    ensures OneLine(a + b) && OneLine(a + b + c)
  {
    hide OneLine;
    OneLineJoin(a, b);
    OneLineJoin(a + b, c);
  }

  lemma RobotsOneLine(mode: Mode, index: bool)
    ensures forall l :: l in RobotLines(mode, index) ==> OneLine(l)
  {
    hide OneLine;
    ClosedEndings();
    OpenEndings();
    OneLineJoin("# Draft preview: ", "never index this bundle.");
    ThreeJoined("# The apex production host is ", "indexable; Pages preview hosts ", "are blocked by _headers.");
  }

  lemma RedirectEndings1()
    ensures OneLine("# Host redirects are ") && OneLine("configured with ")
  {
  }

  lemma RedirectEndings2()
    ensures OneLine("Cloudflare Bulk Redirects.") && OneLine("# Sources: www.webmelee.gg/ ")
  {
  }

  lemma RedirectEndings3()
    ensures OneLine("and webmelee.pages.dev/")
  {
  }

  lemma RedirectEndings()
    ensures OneLine("# Host redirects are ") && OneLine("configured with ") && OneLine("Cloudflare Bulk Redirects.")
    ensures OneLine("# Sources: www.webmelee.gg/ ") && OneLine("and webmelee.pages.dev/")
  {
    hide OneLine;
    RedirectEndings1();
    RedirectEndings2();
    RedirectEndings3();
  }

  lemma TargetEndings1()
    ensures OneLine("# Target: https://webmelee.gg/; ")
  {
  }

  lemma TargetEndings2()
    ensures OneLine("status: 301")
  {
  }

  lemma TargetEndings3()
    ensures OneLine("# Enable subpath matching, ") && OneLine("preserve path suffix ")
  {
  }

  lemma TargetEndings()
    ensures OneLine("# Target: https://webmelee.gg/; ") && OneLine("status: 301")
    ensures OneLine("# Enable subpath matching, ") && OneLine("preserve path suffix ")
  {
    hide OneLine;
    TargetEndings1();
    TargetEndings2();
    TargetEndings3();
  }

  lemma OtherEndings1()
    ensures OneLine("and preserve query string.")
  {
  }

  lemma OtherEndings2()
    ensures OneLine("# Leave include subdomains ")
  {
  }

  lemma OtherEndings3()
    ensures OneLine("disabled so preview hosts ") && OneLine("remain separate.")
  {
  }

  lemma OtherEndings()
    ensures OneLine("and preserve query string.") && OneLine("# Leave include subdomains ")
    ensures OneLine("disabled so preview hosts ") && OneLine("remain separate.")
  {
    hide OneLine;
    OtherEndings1();
    OtherEndings2();
    OtherEndings3();
  }

  lemma RedirectsOneLine()
    ensures forall l :: l in RedirectLines() ==> OneLine(l)
  {
    hide OneLine;
    RedirectEndings();
    TargetEndings();
    OtherEndings();
    ThreeJoined("# Host redirects are ", "configured with ", "Cloudflare Bulk Redirects.");
    OneLineJoin("# Sources: www.webmelee.gg/ ", "and webmelee.pages.dev/");
    OneLineJoin("# Target: https://webmelee.gg/; ", "status: 301");
    ThreeJoined("# Enable subpath matching, ", "preserve path suffix ", "and preserve query string.");
    ThreeJoined("# Leave include subdomains ", "disabled so preview hosts ", "remain separate.");
  }
}

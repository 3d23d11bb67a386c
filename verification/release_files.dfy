/**
  scripts/build_public.py, maintenance profile: the settings of a public bundle,
  the files that make it up, and the order in which they are listed.  Page
  templates, text rules, UTF-8 and SHA-256 are parameters.
*/
module ReleaseFiles {
  import opened Common
  import opened Sorting
  import opened Text

  // ---- Paths ----

  /** The components of a relative path. */
  type Path = seq<string>

  /** as_posix() */
  function Rel(p: Path): string {
    if p == [] then "" else if |p| == 1 then p[0] else p[0] + "/" + Rel(p[1..])
  }

  predicate Proper(p: Path) { p != [] && forall c :: c in p ==> c != "" && '/' !in c }

  /** The order of Path objects: by components. */
  predicate PathLess(p: Path, q: Path) { Lex(p, q, StrLess) }

  /** The order of their names as strings. */
  predicate RelLess(p: Path, q: Path) { StrLess(Rel(p), Rel(q)) }

  /** At the first component that differs, p's is a proper prefix of q's, p goes
      on below it, and q's goes on with a character before the slash. */
  predicate Crossing(p: Path, q: Path) {
    && p != [] && q != []
    && if p[0] == q[0] then Crossing(p[1..], q[1..])
       else |p| > 1 && p[0] < q[0] && q[0][|p[0]|] < '/'
  }

  const CHAR_LESS: (char, char) -> bool := (x: char, y: char) => x < y

  lemma {:induction false} LexSamePrefix(a: string, x: string, y: string)
    ensures StrLess(a + x, a + y) == StrLess(x, y)
  {
    if a == "" {
      assert a + x == x && a + y == y;
    } else {
      LexSamePrefix(a[1..], x, y);
      assert (a + x)[1..] == a[1..] + x && (a + y)[1..] == a[1..] + y;
    }
  }

  /** Strings that differ before either ends are ordered by what differs. */
  lemma {:induction false} LexDiffers(a: string, b: string, x: string, y: string)
    requires !(a <= b) && !(b <= a)
    ensures StrLess(a + x, b + y) == StrLess(a, b)
  {
    if a[0] == b[0] {
      assert a == [a[0]] + a[1..] && b == [b[0]] + b[1..];
      LexDiffers(a[1..], b[1..], x, y);
      assert (a + x)[1..] == a[1..] + x && (b + y)[1..] == b[1..] + y;
    }
  }

  lemma LexProperPrefix(a: string, b: string)
    requires a < b
    ensures StrLess(a, b) && !StrLess(b, a)
  {
    assert b == a + b[|a|..] && a == a + "";
    LexSamePrefix(a, "", b[|a|..]);
    LexSamePrefix(a, b[|a|..], "");
  }

  lemma LexIrreflexiveString(a: string)
    ensures !StrLess(a, a)
  {
    LexIrreflexive(a, CHAR_LESS);
    LexSamePrefix(a, "", "");
    assert a + "" == a;
  }

  function Below(p: Path): string
    requires p != []
  {
    if |p| == 1 then "" else "/" + Rel(p[1..])
  }

  lemma BelowStarts(p: Path)
    requires p != []
    ensures Below(p) == "" <==> |p| == 1
    ensures |p| > 1 ==> Below(p)[0] == '/'
  {
    hide Rel;
  }

  lemma RelParts(p: Path)
    requires p != []
    ensures Rel(p) == p[0] + Below(p)
  {
    if |p| == 1 { assert p[0] + "" == p[0]; }
    else { assert p[0] + "/" + Rel(p[1..]) == p[0] + ("/" + Rel(p[1..])); }
  }

  lemma FirstCharDecides(a: string, b: string)
    ensures a == "" && b != "" ==> StrLess(a, b) && !StrLess(b, a)
    ensures a != "" && b != "" && a[0] != b[0] ==> (StrLess(a, b) <==> a[0] < b[0])
  {
  }

  lemma FirstComponentDecides(p: Path, q: Path)
    requires p != [] && q != [] && p[0] != q[0]
    ensures PathLess(p, q) == StrLess(p[0], q[0])
  {
    hide StrLess;
  }

  /** Where one component is a proper prefix of the other. */
  lemma PrefixOrder(p: Path, q: Path)
    requires Proper(p) && Proper(q) && p[0] < q[0]
    ensures PathLess(p, q) && !PathLess(q, p)
    ensures RelLess(p, q) <==> !Crossing(p, q)
    ensures RelLess(q, p) <==> Crossing(p, q)
  {
    hide StrLess, PathLess, Rel, Below;
    var rest := q[0][|p[0]|..];
    BelowStarts(p);
    LexProperPrefix(p[0], q[0]);
    FirstComponentDecides(p, q);
    FirstComponentDecides(q, p);
    RelParts(p);
    RelParts(q);
    assert q[0] == p[0] + rest;
    assert Rel(q) == p[0] + (rest + Below(q));
    LexSamePrefix(p[0], Below(p), rest + Below(q));
    LexSamePrefix(p[0], rest + Below(q), Below(p));
    assert q[0] in q && rest[0] in q[0];
    assert (rest + Below(q))[0] == rest[0] == q[0][|p[0]|];
    FirstCharDecides(Below(p), rest + Below(q));
    FirstCharDecides(rest + Below(q), Below(p));
  }

  lemma SameFirst(p: Path, q: Path)
    requires p != [] && q != [] && p[0] == q[0]
    ensures RelLess(p, q) == StrLess(Below(p), Below(q))
    ensures PathLess(p, q) == PathLess(p[1..], q[1..])
  {
    hide StrLess;
    RelParts(p);
    RelParts(q);
    LexSamePrefix(p[0], Below(p), Below(q));
  }

  lemma EmptyPathFirst(p: Path)
    ensures !PathLess(p, []) && (PathLess([], p) <==> p != [])
  {
  }

  /** Where one path ends at the shared first component. */
  lemma SameButShort(p: Path, q: Path)
    requires Proper(p) && Proper(q) && p[0] == q[0] && (|p| == 1 || |q| == 1)
    ensures PathLess(p, q) == RelLess(p, q) && !Crossing(p, q) && !Crossing(q, p)
  {
    hide StrLess, Rel, PathLess, RelLess;
    SameFirst(p, q);
    if |p| == 1 {
      assert p[1..] == [] && Below(p) == "";
      EmptyPathFirst(q[1..]);
      if |q| == 1 {
        assert Below(q) == "";
        LexIrreflexiveString("");
      } else {
        FirstCharDecides(Below(p), Below(q));
      }
    } else {
      assert q[1..] == [] && Below(q) == "";
      EmptyPathFirst(p[1..]);
      FirstCharDecides(Below(q), Below(p));
    }
  }

  /** Sorting by components and sorting by name order two paths alike exactly when
      neither crosses the other. */
  lemma {:induction false} OrdersAgreeExactly(p: Path, q: Path)
    requires Proper(p) && Proper(q)
    ensures PathLess(p, q) == RelLess(p, q) <==> !Crossing(p, q) && !Crossing(q, p)
  {
    hide StrLess, Rel;
    if p[0] == q[0] {
      SameFirst(p, q);
      if |p| > 1 && |q| > 1 {
        LexSamePrefix("/", Rel(p[1..]), Rel(q[1..]));
        assert forall c :: c in p[1..] ==> c in p;
        assert forall c :: c in q[1..] ==> c in q;
        OrdersAgreeExactly(p[1..], q[1..]);
      } else {
        SameButShort(p, q);
      }
    } else if p[0] <= q[0] {
      PrefixOrder(p, q);
    } else if q[0] <= p[0] {
      PrefixOrder(q, p);
    } else {
      RelParts(p);
      RelParts(q);
      LexDiffers(p[0], q[0], Below(p), Below(q));
    }
  }

  lemma PathStrictTotal()
    ensures StrictTotal(PathLess)
  {
    StrLessStrictTotal();
    LexStrictTotal(StrLess);
    var less := (a: Path, b: Path) => Lex(a, b, StrLess);
    assert forall a, b :: PathLess(a, b) == less(a, b);
  }

  // ---- Settings ----

  datatype Mode = Preview | Production | OtherMode

  const DEFAULT_OPERATOR := "DRAFT PREVIEW \U{2014} OPERATOR NOT SET"
  const DEFAULT_CONTACT := "preview-contact@example.invalid"

  /** The approved source and everything the model does not look into.  `page`
      substitutes a page's placeholders and may refuse; `sha` is the hexadecimal
      digest; the text rules judge a stripped value; `clean` is what the auditor
      demands of the text of one file. */
  datatype Rules = Rules(css: Bytes, js: Bytes, legal: Bytes, csp: string, permissions: string,
                         page: (string, Mode, string, string, string, string) -> Option<Bytes>, utf8: string -> Bytes,
                         sha: Bytes -> string, operatorOk: string -> bool, contactOk: string -> bool,
                         draft: (string, string) -> bool, clean: (Settings, Path, Bytes) -> bool)
  {
    ghost predicate Valid() { forall b :: |sha(b)| == 64 && forall c :: c in sha(b) ==> HexDigit(c) }
  }

  datatype Settings = Settings(mode: Mode, operator: string, contact: string, index: bool)

  predicate HexDigit(c: char) { '0' <= c <= '9' || 'a' <= c <= 'f' }

  /** _validate_value */
  function Value(given: string, ok: string -> bool): Result<string> {
    var value := Strip(given);
    if value == "" || |value| > 200 || !ok(value) then Rejected else Ok(value)
  }

  /** `value or default` */
  function OrDefault(given: Option<string>, default: string): string {
    if given.None? || given.value == "" then default else given.value
  }

  /** _config */
  function Configure(r: Rules, mode: Mode, operator: Option<string>,
                     contact: Option<string>): Result<(string, string)> {
    if mode == OtherMode || (mode == Production && (operator.None? || contact.None?)) then Rejected
    else
      var o := Value(OrDefault(operator, DEFAULT_OPERATOR), r.operatorOk);
      var c := Value(OrDefault(contact, DEFAULT_CONTACT), r.contactOk);
      if o.Rejected? || c.Rejected? || (mode == Production && r.draft(o.value, c.value)) then Rejected
      else Ok((o.value, c.value))
  }

  /** What _config returns it accepts again, unchanged. */
  lemma ConfigureTwice(r: Rules, mode: Mode, operator: Option<string>, contact: Option<string>)
    requires Configure(r, mode, operator, contact).Ok?
    ensures var both := Configure(r, mode, operator, contact).value;
            Configure(r, mode, Some(both.0), Some(both.1)) == Ok(both)
  {
    hide Strip;
    StripTwice(OrDefault(operator, DEFAULT_OPERATOR));
    StripTwice(OrDefault(contact, DEFAULT_CONTACT));
  }

  // ---- The texts that depend on mode and index flag ----

  function Header(name: string, value: string): string { name + ": " + value }

  function NoIndex(): string { Header("X-Robots-Tag", "noindex, nofollow, noarchive") }

  function HeaderLines(r: Rules, mode: Mode, index: bool): seq<string> {
    ["/*",
     "  " + Header("Content-Security-Policy", r.csp),
     "  " + Header("Permissions-Policy", r.permissions),
     "  " + Header("X-Content-Type-Options", "nosniff"),
     "  " + Header("Referrer-Policy", "no-referrer"),
     "  " + Header("X-Frame-Options", "DENY")]
    + (if mode == Preview || !index then ["  " + NoIndex()] else [])
    + (if mode == Production then
         ["https://webmelee.pages.dev/*", "  " + NoIndex(),
          "https://:version." + "webmelee.pages.dev/*", "  " + NoIndex()]
       else [])
    + ["/assets/*", "  " + Header("Cache-Control", "public, max-age=31536000, immutable")]
    + ["/licenses/*", "  " + Header("Cache-Control", "public, max-age=0, must-revalidate")]
  }

  function Headers(r: Rules, mode: Mode, index: bool): string { Joined(HeaderLines(r, mode, index)) }

  /** Comments only: the host's redirects are configured elsewhere. */
  function RedirectLines(): seq<string> {
    ["# Host redirects are " + "configured with " + "Cloudflare Bulk Redirects.",
     "# Sources: www.webmelee.gg/ " + "and webmelee.pages.dev/",
     "# Target: https://webmelee.gg/; " + "status: 301",
     "# Enable subpath matching, " + "preserve path suffix " + "and preserve query string.",
     "# Leave include subdomains " + "disabled so preview hosts " + "remain separate."]
  }

  function Redirects(mode: Mode): Option<string> {
    if mode != Production then None else Some(Joined(RedirectLines()))
  }

  function RobotLines(mode: Mode, index: bool): seq<string> {
    if mode == Preview || !index then
      ["# Draft preview: " + "never index this bundle.", "User-agent: *", "Disallow: /"]
    else
      ["# The apex production host is " + "indexable; Pages preview hosts " + "are blocked by _headers.",
       "User-agent: *", "Allow: /"]
  }

  function Robots(mode: Mode, index: bool): string { Joined(RobotLines(mode, index)) }

  /** The index flag counts in production only: a preview is never indexed. */
  lemma PreviewIgnoresIndex(r: Rules, index: bool)
    ensures Headers(r, Preview, index) == Headers(r, Preview, false)
    ensures Robots(Preview, index) == Robots(Preview, false)
  {
    hide Joined, HeaderLines;
    SameHeaderLines(r, index);
  }

  lemma SameHeaderLines(r: Rules, index: bool)
    ensures HeaderLines(r, Preview, index) == HeaderLines(r, Preview, false)
  {
    hide NoIndex, Header;
  }

  // ---- The bundle ----

  function Pages(): seq<string> {
    ["index.html", "terms.html", "privacy.html", "copyright.html", "notices.html", "404.html"]
  }

  /** An asset is named after its content. */
  function AssetPath(r: Rules, data: Bytes, extension: string): Path
    requires r.Valid()
  {
    ["assets", "site." + r.sha(data)[..16] + "." + extension]
  }

  function CssPath(r: Rules): Path
    requires r.Valid()
  {
    AssetPath(r, r.css, "css")
  }

  function JsPath(r: Rules): Path
    requires r.Valid()
  {
    AssetPath(r, r.js, "js")
  }

  function LegalPath(): Path { ["licenses", "runtime-third-party.txt"] }

  function HeadersPath(): Path { ["_headers"] }

  function RedirectsPath(): Path { ["_redirects"] }

  function RobotsPath(): Path { ["robots.txt"] }

  /** One file to write; no data when making it raises. */
  datatype Item = Item(path: Path, data: Option<Bytes>)

  function PageData(r: Rules, s: Settings, name: string): Option<Bytes>
    requires r.Valid()
  {
    r.page(name, s.mode, s.operator, s.contact, "/" + Rel(CssPath(r)), "/" + Rel(JsPath(r)))
  }

  function PageItems(r: Rules, s: Settings, names: seq<string>): seq<Item>
    requires r.Valid()
  {
    seq(|names|, i requires 0 <= i < |names| => Item([names[i]], PageData(r, s, names[i])))
  }

  function AssetItems(r: Rules): seq<Item>
    requires r.Valid()
  {
    [Item(CssPath(r), Some(r.css)), Item(JsPath(r), Some(r.js))]
  }

  function TextItems(r: Rules, s: Settings): seq<Item> {
    [Item(LegalPath(), Some(r.legal)), Item(HeadersPath(), Some(r.utf8(Headers(r, s.mode, s.index))))]
    + (if Redirects(s.mode).Some? then [Item(RedirectsPath(), Some(r.utf8(Redirects(s.mode).value)))] else [])
    + [Item(RobotsPath(), Some(r.utf8(Robots(s.mode, s.index))))]
  }

  /** What the builder writes, in order, before the inventory. */
  function Items(r: Rules, s: Settings): seq<Item>
    requires r.Valid()
  {
    AssetItems(r) + PageItems(r, s, Pages()) + TextItems(r, s)
  }

  predicate Writable(items: seq<Item>) { forall i :: 0 <= i < |items| ==> items[i].data.Some? }

  /** The files once all items are written. */
  function Laid(items: seq<Item>): map<Path, Bytes>
    requires Writable(items)
  {
    if items == [] then map[]
    else
      var last := items[|items| - 1];
      Laid(items[..|items| - 1])[last.path := last.data.value]
  }

  // ---- Where the files of a bundle can be ----

  /** At the root under neither an `a` nor an `l`, or right below the two
      directories. */
  predicate Placed(p: Path) {
    || (|p| == 1 && p[0] != "" && '/' !in p[0] && p[0][0] != 'a' && p[0][0] != 'l')
    || (|p| == 2 && p[0] in ["assets", "licenses"] && p[1] != "" && '/' !in p[1])
  }

  lemma PlacedProper(p: Path)
    requires Placed(p)
    ensures Proper(p)
  {
    if |p| == 2 {
      assert '/' !in "assets" && '/' !in "licenses";
      assert forall c :: c in p ==> c == p[0] || c == p[1];
    }
  }

  lemma SingleNeverCrosses(p: Path, q: Path)
    requires |p| <= 1
    ensures !Crossing(p, q)
  {
  }

  lemma PlacedNeverCross(p: Path, q: Path)
    requires Placed(p) && Placed(q)
    ensures !Crossing(p, q)
  {
    if |p| == 2 {
      assert "assets"[0] == 'a' && "licenses"[0] == 'l';
      if p[0] == q[0] {
        SingleNeverCrosses(p[1..], q[1..]);
      } else {
        assert p[0][0] != q[0][0];
      }
    } else {
      SingleNeverCrosses(p, q);
    }
  }

  /** On such paths the two orders are one. */
  lemma PlacedOrder(paths: seq<Path>)
    requires forall p :: p in paths ==> Placed(p)
    ensures Sort(paths, PathLess) == Sort(paths, RelLess)
  {
    hide Placed, Crossing, PathLess, RelLess;
    forall p, q | p in paths && q in paths ensures PathLess(p, q) == RelLess(p, q) {
      PlacedProper(p);
      PlacedProper(q);
      PlacedNeverCross(p, q);
      PlacedNeverCross(q, p);
      OrdersAgreeExactly(p, q);
    }
    SortAgrees(paths, PathLess, RelLess);
  }

  // ---- The bundle as a map ----

  function ItemPaths(items: seq<Item>): seq<Path> { seq(|items|, i requires 0 <= i < |items| => items[i].path) }

  lemma {:induction false} LaidLookup(items: seq<Item>)
    requires Writable(items) && Distinct(ItemPaths(items))
    ensures forall p :: p in Laid(items) <==> p in ItemPaths(items)
    ensures forall i :: 0 <= i < |items| ==>
              items[i].path in Laid(items) && Laid(items)[items[i].path] == items[i].data.value
  {
    if items == [] {
    } else {
      var n := |items| - 1;
      var before := items[..n];
      assert ItemPaths(items) == ItemPaths(before) + [items[n].path];
      assert ItemPaths(before) == ItemPaths(items)[..n];
      LaidLookup(before);
      forall i | 0 <= i < n ensures items[i].path != items[n].path {
        assert ItemPaths(items)[i] == items[i].path && ItemPaths(items)[n] == items[n].path;
      }
      assert forall i :: 0 <= i < n ==> before[i] == items[i];
    }
  }

  /** The tree is the bundle exactly when it has the bundle's paths and each of
      them its content. */
  lemma LaidExactly(items: seq<Item>, files: map<Path, Bytes>)
    requires Distinct(ItemPaths(items)) && forall p :: p in files <==> p in ItemPaths(items)
    ensures (Writable(items) && files == Laid(items))
       <==> forall i :: 0 <= i < |items| ==> items[i].path in files && items[i].data == Some(files[items[i].path])
  {
    hide Laid, ItemPaths, Distinct;
    if Writable(items) {
      LaidLookup(items);
      if forall i :: 0 <= i < |items| ==> items[i].path in files && items[i].data == Some(files[items[i].path]) {
        forall p | p in files ensures files[p] == Laid(items)[p] {
          PathOfItem(items, p);
        }
        assert files.Keys == Laid(items).Keys;
      }
    }
  }

  lemma PathOfItem(items: seq<Item>, p: Path)
    requires p in ItemPaths(items)
    ensures exists i :: 0 <= i < |items| && items[i].path == p
  {
    var i :| 0 <= i < |items| && ItemPaths(items)[i] == p;
  }

  // ---- The paths of a bundle ----

  function PagePaths(): seq<Path> { seq(|Pages()|, i requires 0 <= i < |Pages()| => [Pages()[i]]) }

  function TextPaths(mode: Mode): seq<Path> {
    [LegalPath(), HeadersPath()] + (if mode == Production then [RedirectsPath()] else []) + [RobotsPath()]
  }

  lemma PagesDiffer()
    ensures Distinct(PagePaths())
    ensures forall p :: p in PagePaths() ==> |p| == 1 && p[0] != "" && p[0][0] in "itpcn4" && '/' !in p[0]
  {
    PageLetters();
    hide Pages;
    assert "itpcn4"[0] == 'i' && "itpcn4"[1] == 't' && "itpcn4"[2] == 'p' && "itpcn4"[3] == 'c' && "itpcn4"[4] == 'n';
    forall i | 0 <= i < 6 ensures PagePaths()[i] == [Pages()[i]] {}
  }

  lemma PageLetters()
    ensures |Pages()| == 6 && forall i :: 0 <= i < 6 ==>
                Pages()[i] != "" && '/' !in Pages()[i] && Pages()[i][0] == "itpcn4"[i]
  {
  }

  lemma TextsDiffer(mode: Mode)
    ensures Distinct(TextPaths(mode))
    ensures forall p :: p in TextPaths(mode) ==>
              p == LegalPath() || (|p| == 1 && p[0] != "" && (p[0][0] == '_' || p[0][0] == 'r') && '/' !in p[0])
  {
    assert HeadersPath()[0][1] == 'h' && RedirectsPath()[0][1] == 'r' && RobotsPath()[0][0] == 'r';
    assert |LegalPath()| == 2;
  }

  lemma AssetPlaced(r: Rules, data: Bytes, extension: string)
    requires r.Valid() && '/' !in extension
    ensures Placed(AssetPath(r, data, extension)) && |AssetPath(r, data, extension)[1]| == 22 + |extension|
  {
    var hash := r.sha(data)[..16];
    assert forall c :: c in hash ==> c in r.sha(data);
    assert '/' !in hash && '/' !in "site." && '/' !in ".";
  }

  lemma AssetsDiffer(r: Rules)
    requires r.Valid()
    ensures CssPath(r) != JsPath(r) && Placed(CssPath(r)) && Placed(JsPath(r))
    ensures |CssPath(r)| == 2 == |JsPath(r)| && CssPath(r)[0] == "assets" == JsPath(r)[0]
  {
    hide Placed;
    AssetPlaced(r, r.css, "css");
    AssetPlaced(r, r.js, "js");
  }

  /** Root files, the two assets and the notice: what an auditor expects. */
  function Expected(css: Path, js: Path, mode: Mode): seq<Path> { [css, js] + PagePaths() + TextPaths(mode) }

  lemma ItemPathsJoin(a: seq<Item>, b: seq<Item>)
    ensures ItemPaths(a + b) == ItemPaths(a) + ItemPaths(b)
  {
  }

  lemma ItemsAt(r: Rules, s: Settings)
    requires r.Valid()
    ensures ItemPaths(Items(r, s)) == Expected(CssPath(r), JsPath(r), s.mode)
  {
    hide AssetItems, PageItems, TextItems, ItemPaths, CssPath, JsPath, Pages, PagePaths, TextPaths;
    AssetItemsAt(r);
    PageItemsAt(r, s);
    TextItemsAt(r, s);
    ItemPathsJoin(AssetItems(r), PageItems(r, s, Pages()));
    ItemPathsJoin(AssetItems(r) + PageItems(r, s, Pages()), TextItems(r, s));
  }

  lemma AssetItemsAt(r: Rules)
    requires r.Valid()
    ensures ItemPaths(AssetItems(r)) == [CssPath(r), JsPath(r)]
  {
    hide CssPath, JsPath;
  }

  lemma PageItemsAt(r: Rules, s: Settings)
    requires r.Valid()
    ensures ItemPaths(PageItems(r, s, Pages())) == PagePaths()
  {
    hide Pages, PageData;
  }

  lemma TextItemsAt(r: Rules, s: Settings)
    ensures ItemPaths(TextItems(r, s)) == TextPaths(s.mode)
  {
    hide Headers, Robots, Redirects, LegalPath, HeadersPath, RedirectsPath, RobotsPath;
    RedirectsWhen(s.mode);
  }

  lemma RedirectsWhen(mode: Mode)
    ensures Redirects(mode).Some? <==> mode == Production
  {
  }

  lemma ExpectedDistinct(css: Path, js: Path, mode: Mode)
    requires css != js && Placed(css) && Placed(js) && |css| == 2 == |js| && css[0] == "assets" == js[0]
    ensures Distinct(Expected(css, js, mode))
    ensures forall p :: p in Expected(css, js, mode) ==> Placed(p)
  {
    hide PagePaths, TextPaths, LegalPath, Distinct, Placed;
    PagesDiffer();
    TextsDiffer(mode);
    LegalPlaced();
    forall p | p in PagePaths() + TextPaths(mode) ensures Placed(p) && p[0] != "assets" {
      if p != LegalPath() { RootPlaced(p); }
    }
    TwoDistinct(css, js);
    DistinctJoin([css, js], PagePaths());
    forall p | p in [css, js] + PagePaths() ensures p !in TextPaths(mode) {
      if p in PagePaths() { assert p != LegalPath(); }
    }
    DistinctJoin([css, js] + PagePaths(), TextPaths(mode));
  }

  lemma TwoDistinct(a: Path, b: Path)
    requires a != b
    ensures Distinct([a, b])
  {
  }

  lemma RootPlaced(p: Path)
    requires |p| == 1 && p[0] != "" && p[0][0] in "itpcn4_r" && '/' !in p[0]
    ensures Placed(p) && p[0] != "assets"
  {
    assert "assets"[0] == 'a';
  }

  lemma LegalPlaced()
    ensures Placed(LegalPath()) && |LegalPath()| == 2 && LegalPath()[0] != "assets"
  {
    assert "licenses"[0] == 'l' && "assets"[0] == 'a';
    assert '/' !in "runtime-third-party.txt" && "runtime-third-party.txt" != "";
  }

  lemma DistinctJoin(a: seq<Path>, b: seq<Path>)
    requires Distinct(a) && Distinct(b) && forall p :: p in a ==> p !in b
    ensures Distinct(a + b)
  {
    forall i, j | 0 <= i < j < |a + b| ensures (a + b)[i] != (a + b)[j] {
      if i < |a| <= j { assert a[i] in a && b[j - |a|] in b; }
    }
  }

  lemma BundleDistinct(r: Rules, s: Settings)
    requires r.Valid()
    ensures Distinct(ItemPaths(Items(r, s)))
    ensures forall p :: p in ItemPaths(Items(r, s)) ==> Placed(p)
  {
    hide Items, ItemPaths, Expected, CssPath, JsPath, Placed;
    AssetsDiffer(r);
    ItemsAt(r, s);
    ExpectedDistinct(CssPath(r), JsPath(r), s.mode);
  }
}

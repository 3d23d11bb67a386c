/**
  scripts/build_public.py, maintenance profile: what the settings and the files
  of a bundle are, said without the steps that make them.
*/
module ReleaseContents {
  import opened Common
  import opened ReleaseAudit
  import opened ReleaseFiles
  import opened Text

  // ---- Settings ----

  predicate Blank(s: string) { forall c :: c in s ==> IsSpace(c) }

  predicate Tight(s: string) { s != "" && !IsSpace(s[0]) && !IsSpace(s[|s| - 1]) }

  lemma {:induction false} StripLead(lead: string, s: string)
    requires Blank(lead)
    ensures Strip(lead + s) == Strip(s)
  {
    if lead == "" {
      assert lead + s == s;
    } else {
      assert lead == [lead[0]] + lead[1..];
      assert lead + s == [lead[0]] + (lead[1..] + s);
      StripDropsFirst(lead[0], lead[1..] + s);
      StripLead(lead[1..], s);
    }
  }

  lemma {:induction false} StripTrail(s: string, trail: string)
    requires Blank(trail)
    ensures Strip(s + trail) == Strip(s)
  {
    if trail == "" {
      assert s + trail == s;
    } else {
      var n := |trail| - 1;
      assert s + trail == (s + trail[..n]) + [trail[n]];
      StripDropsLast(s + trail[..n], trail[n]);
      StripTrail(s, trail[..n]);
    }
  }

  lemma {:induction false} LStripBlank(s: string) returns (lead: string)
    ensures Blank(lead) && s == lead + LStrip(s)
  {
    if s != "" && IsSpace(s[0]) {
      hide IsSpace;
      var rest := LStripBlank(s[1..]);
      lead := [s[0]] + rest;
      assert LStrip(s) == LStrip(s[1..]);
      assert s == [s[0]] + (rest + LStrip(s));
    } else {
      lead := "";
    }
  }

  lemma {:induction false} RStripBlank(s: string) returns (trail: string)
    ensures Blank(trail) && s == RStrip(s) + trail
  {
    if s != "" && IsSpace(s[|s| - 1]) {
      hide IsSpace;
      var n := |s| - 1;
      var rest := RStripBlank(s[..n]);
      trail := rest + [s[n]];
      assert RStrip(s) == RStrip(s[..n]);
      assert s == (RStrip(s) + rest) + [s[n]];
    } else {
      trail := "";
    }
  }

  /** The text is the value between blanks. */
  ghost predicate Framed(text: string, value: string) {
    exists lead, trail :: Blank(lead) && Blank(trail) && text == lead + value + trail
  }

  lemma StripFramed(text: string)
    ensures Framed(text, Strip(text))
  {
    hide LStrip, RStrip, Blank;
    var lead := LStripBlank(text);
    var trail := RStripBlank(LStrip(text));
    assert text == lead + Strip(text) + trail;
  }

  lemma FramedStrip(text: string, value: string)
    requires Tight(value) && Framed(text, value)
    ensures Strip(text) == value
  {
    hide LStrip, RStrip, Strip, Blank;
    var lead, trail :| Blank(lead) && Blank(trail) && text == lead + value + trail;
    StripTrail(lead + value, trail);
    StripLead(lead, value);
    StripOfTrimmed(value);
  }

  lemma StripExactly(text: string, value: string)
    requires value != ""
    ensures Strip(text) == value <==> Tight(value) && Framed(text, value)
  {
    hide Strip, Framed, IsSpace;
    StripTrims(text);
    StripFramed(text);
    if Tight(value) && Framed(text, value) { FramedStrip(text, value); }
  }

  /** What was given, or the default for nothing or the empty text, stands for
      this value. */
  ghost predicate Settles(given: Option<string>, default: string, allowed: string -> bool, value: string) {
    && Framed(if given == None || given == Some("") then default else given.value, value)
    && Tight(value) && |value| <= 200 && allowed(value)
  }

  lemma ValueSettles(given: Option<string>, default: string, allowed: string -> bool, value: string)
    ensures Value(OrDefault(given, default), allowed) == Ok(value) <==> Settles(given, default, allowed, value)
  {
    hide Strip, Framed;
    if value != "" { StripExactly(OrDefault(given, default), value); }
  }

  /** Which settings are accepted, and as which values: production wants both
      given and neither a draft. */
  lemma ConfigureExactly(r: Rules, mode: Mode, operator: Option<string>, contact: Option<string>, o: string, c: string)
    ensures Configure(r, mode, operator, contact) == Ok((o, c)) <==>
            && (mode == Preview || mode == Production)
            && Settles(operator, "DRAFT PREVIEW \U{2014} OPERATOR NOT SET", r.operatorOk, o)
            && Settles(contact, "preview-contact@example.invalid", r.contactOk, c)
            && (mode == Production ==> operator.Some? && contact.Some? && !r.draft(o, c))
  {
    hide Value, OrDefault, Settles;
    ValueSettles(operator, DEFAULT_OPERATOR, r.operatorOk, o);
    ValueSettles(contact, DEFAULT_CONTACT, r.contactOk, c);
  }

  // ---- Files ----

  /** The names of a bundle, besides those of its two assets. */
  predicate FixedName(mode: Mode, p: Path) {
    || p == ["index.html"] || p == ["terms.html"] || p == ["privacy.html"]
    || p == ["copyright.html"] || p == ["notices.html"] || p == ["404.html"]
    || p == ["licenses", "runtime-third-party.txt"]
    || p == ["_headers"] || p == ["robots.txt"] || (mode == Production && p == ["_redirects"])
  }

  predicate Page(name: string) {
    || name == "index.html" || name == "terms.html" || name == "privacy.html"
    || name == "copyright.html" || name == "notices.html" || name == "404.html"
  }

  lemma PagesNamed(name: string)
    ensures name in Pages() <==> Page(name)
  {
    var pages := Pages();
    assert pages[0] == "index.html" && pages[1] == "terms.html" && pages[2] == "privacy.html";
    assert pages[3] == "copyright.html" && pages[4] == "notices.html" && pages[5] == "404.html";
  }

  lemma PagePathsNamed(p: Path)
    ensures p in PagePaths() <==> |p| == 1 && Page(p[0])
  {
    hide Page, Pages;
    if |p| == 1 {
      PagesNamed(p[0]);
      if p[0] in Pages() {
        var i :| 0 <= i < |Pages()| && Pages()[i] == p[0];
        assert PagePaths()[i] == p;
      }
    }
  }

  lemma NamesFixed(mode: Mode, p: Path)
    ensures p in PagePaths() + TextPaths(mode) <==> FixedName(mode, p)
  {
    PagePathsNamed(p);
    assert p in PagePaths() + TextPaths(mode) <==> p in PagePaths() || p in TextPaths(mode);
    if |p| == 1 { assert p == [p[0]]; }
  }

  predicate Holds(files: map<Path, Bytes>, p: Path, data: Bytes) { p in files && files[p] == data }

  /** The path of an asset that a page can refer to. */
  function Link(p: Path): string { "/" + Rel(p) }

  /** The files of a bundle and what is in each: two assets named by their
      digests, six pages that refer to them, the notice and the control files. */
  lemma BundleContents(r: Rules, s: Settings, css: Path, js: Path)
    requires r.Valid() && Writable(Items(r, s))
    requires css == ["assets", "site." + r.sha(r.css)[..16] + ".css"]
    requires js == ["assets", "site." + r.sha(r.js)[..16] + ".js"]
    ensures var files := Laid(Items(r, s));
            && (forall p :: p in files <==> p == css || p == js || FixedName(s.mode, p))
            && Holds(files, css, r.css) && Holds(files, js, r.js)
            && (forall name :: Page(name) ==>
                  var page := r.page(name, s.mode, s.operator, s.contact, Link(css), Link(js));
                  page.Some? && Holds(files, [name], page.value))
            && Holds(files, ["licenses", "runtime-third-party.txt"], r.legal)
            && Holds(files, ["_headers"], r.utf8(Headers(r, s.mode, s.index)))
            && Holds(files, ["robots.txt"], r.utf8(Robots(s.mode, s.index)))
            && (s.mode == Production ==> Holds(files, ["_redirects"], r.utf8(Joined(RedirectLines()))))
  {
    hide Items, Laid, ItemPaths, Writable, Distinct, Pages, PagePaths, TextPaths, FixedName, Page, Headers, Robots,
         RedirectLines, Joined, r.Valid;
    var items := Items(r, s);
    AssetsNamed(r, css, js);
    BundleDistinct(r, s);
    ItemsAt(r, s);
    LaidLookup(items);
    var files := Laid(items);
    forall p ensures p in files <==> p == css || p == js || FixedName(s.mode, p) {
      NamesFixed(s.mode, p);
      ExpectedMembers(css, js, s.mode, p);
    }
    AssetsLaid(r, s);
    TextsLaid(r, s);
    forall name | Page(name)
      ensures var page := r.page(name, s.mode, s.operator, s.contact, Link(css), Link(js));
              page.Some? && Holds(files, [name], page.value)
    {
      PageLaid(r, s, name);
    }
  }

  lemma AssetsNamed(r: Rules, css: Path, js: Path)
    requires r.Valid()
    requires css == ["assets", "site." + r.sha(r.css)[..16] + ".css"]
    requires js == ["assets", "site." + r.sha(r.js)[..16] + ".js"]
    ensures css == CssPath(r) && js == JsPath(r)
  {
    assert css[1] == "site." + r.sha(r.css)[..16] + "." + "css";
    assert js[1] == "site." + r.sha(r.js)[..16] + "." + "js";
  }

  lemma ExpectedMembers(css: Path, js: Path, mode: Mode, p: Path)
    ensures p in Expected(css, js, mode) <==> p == css || p == js || p in PagePaths() + TextPaths(mode)
  {
    hide PagePaths, TextPaths;
    var fixed := PagePaths() + TextPaths(mode);
    assert Expected(css, js, mode) == [css, js] + fixed;
  }

  lemma Lookup(items: seq<Item>, i: nat)
    requires Writable(items) && Distinct(ItemPaths(items)) && i < |items|
    ensures items[i].path in Laid(items) && Some(Laid(items)[items[i].path]) == items[i].data
  {
    hide Distinct, ItemPaths;
    LaidLookup(items);
  }

  lemma AssetsLaid(r: Rules, s: Settings)
    requires r.Valid() && Writable(Items(r, s))
    ensures var files := Laid(Items(r, s));
            && CssPath(r) in files && files[CssPath(r)] == r.css && JsPath(r) in files && files[JsPath(r)] == r.js
  {
    hide PageItems, TextItems, Laid, Writable, Pages, CssPath, JsPath, ItemPaths;
    BundleDistinct(r, s);
    var items := Items(r, s);
    assert items[0] == AssetItems(r)[0] && items[1] == AssetItems(r)[1];
    Lookup(items, 0);
    Lookup(items, 1);
  }

  lemma PageLaid(r: Rules, s: Settings, name: string)
    requires r.Valid() && Writable(Items(r, s)) && Page(name)
    ensures [name] in Laid(Items(r, s)) && PageData(r, s, name) == Some(Laid(Items(r, s))[[name]])
  {
    hide AssetItems, TextItems, Laid, Writable, Pages, Page, PageData, ItemPaths;
    PagesNamed(name);
    BundleDistinct(r, s);
    var i :| 0 <= i < |Pages()| && Pages()[i] == name;
    var items, at := Items(r, s), |AssetItems(r)| + i;
    assert items[at] == PageItems(r, s, Pages())[i];
    Lookup(items, at);
  }

  lemma TextsLaid(r: Rules, s: Settings)
    requires r.Valid() && Writable(Items(r, s))
    ensures var files := Laid(Items(r, s));
            && LegalPath() in files && files[LegalPath()] == r.legal
            && HeadersPath() in files && files[HeadersPath()] == r.utf8(Headers(r, s.mode, s.index))
            && RobotsPath() in files && files[RobotsPath()] == r.utf8(Robots(s.mode, s.index))
            && (s.mode == Production ==>
                  RedirectsPath() in files && files[RedirectsPath()] == r.utf8(Joined(RedirectLines())))
  {
    hide AssetItems, PageItems, Laid, Writable, Pages, Headers, Robots, RedirectLines, Joined, LegalPath, HeadersPath,
         RobotsPath, RedirectsPath, ItemPaths;
    BundleDistinct(r, s);
    var items, at, texts := Items(r, s), |AssetItems(r) + PageItems(r, s, Pages())|, TextItems(r, s);
    forall k | 0 <= k < |texts|
      ensures texts[k].path in Laid(items) && Some(Laid(items)[texts[k].path]) == texts[k].data
    {
      assert items[at + k] == texts[k];
      Lookup(items, at + k);
    }
    assert texts[0].path == LegalPath() && texts[1].path == HeadersPath();
    assert texts[|texts| - 1].path == RobotsPath();
    if s.mode == Production { assert texts[2].path == RedirectsPath(); }
  }

  // ---- Paths as the auditor reads them ----

  lemma {:induction false} RelCharacters(p: Path, c: char)
    requires p != []
    ensures c in Rel(p) <==> (c == '/' && |p| > 1) || exists k :: 0 <= k < |p| && c in p[k]
  {
    if |p| > 1 {
      RelCharacters(p[1..], c);
      if exists k :: 0 <= k < |p| - 1 && c in p[1..][k] {
        var k :| 0 <= k < |p| - 1 && c in p[1..][k];
        assert c in p[k + 1];
      }
      assert forall k :: 1 <= k < |p| ==> p[k] == p[1..][k - 1];
      assert c in Rel(p) <==> c in p[0] || c == '/' || c in Rel(p[1..]);
    }
  }

  /** A path of the directory walk is safe exactly when its name has no backslash
      and no NUL, does not begin with a dot, and no component is a dot or two. */
  lemma SafeRelExactly(p: Path)
    requires Proper(p)
    ensures SafeRel(p) <==>
            && '\\' !in Rel(p) && '\0' !in Rel(p) && |Rel(p)| > 0 && Rel(p)[0] != '.' && Rel(p)[0] != '/'
            && "." !in p && ".." !in p
  {
    RelCharacters(p, '\\');
    RelCharacters(p, '\0');
    assert p[0] in p;
    FirstOfRel(p);
    assert forall k :: 0 <= k < |p| ==> p[k] in p;
  }

  lemma FirstOfRel(p: Path)
    requires p != [] && p[0] != ""
    ensures |Rel(p)| > 0 && Rel(p)[0] == p[0][0]
  {
  }

  /** The pattern assets/site.[0-9a-f]{16}.<extension> */
  lemma AssetExactly(p: Path, extension: string)
    ensures IsAsset(p, extension) <==>
            exists h: string :: |h| == 16 && (forall c :: c in h ==> '0' <= c <= '9' || 'a' <= c <= 'f')
                                && p == ["assets", "site." + h + "." + extension]
  {
    if IsAsset(p, extension) {
      var h := p[1][5..21];
      assert p[1] == p[1][..5] + h + [p[1][21]] + p[1][22..];
      assert p == ["assets", "site." + h + "." + extension];
    }
    if h: string :| |h| == 16 && (forall c :: c in h ==> '0' <= c <= '9' || 'a' <= c <= 'f')
                    && p == ["assets", "site." + h + "." + extension]
    {
      var name := "site." + h + "." + extension;
      assert name[5..21] == h && name[22..] == extension && name[..5] == "site.";
    }
  }
}

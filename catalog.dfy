/** The art catalog list: which entries a line shows, which of them are
    marked as referenced in the piece, and the HTML fragment of each entry.
    `escapeHtml` works through the DOM; here it is the parameter `escape`,
    and the properties that depend on it assume only that its output holds
    no '<'. */
module Catalog {

  datatype Option<T> = None | Some(value: T) {
    predicate IsFailure() { None? }
    function PropagateFailure<U>(): Option<U> requires None? { None }
    function Extract(): T requires Some? { value }
  }

  /** One record of the catalog JSON; an absent field is None, and
      `isReference` is the truthiness of that field. */
  datatype Entry = Entry(station: Option<string>, artist: Option<string>, title: Option<string>,
                         url: Option<string>, isReference: bool)

  /** Catalog JSON: line identifier to its ordered list of records. */
  type CatalogData = map<string, seq<Entry>>

  const DanFlavinRef: Entry :=
    Entry(Some("Grand Central-42 St"), Some("Dan Flavin"), None,
          Some("https://www.instagram.com/p/C7mjDhXM1fZ/?hl=en"), true)
  const SolLeWittStation: string := "59 St-Columbus Circle"
  const SolLeWittArtist: string := "Sol LeWitt"

  predicate IsReference(entry: Entry, line: string) {
    if entry.isReference then true
    else if line == "123" && entry.station == Some(SolLeWittStation) && entry.artist == Some(SolLeWittArtist) then true
    else false
  }

  /** A flagged entry is a reference on every line; an unflagged one only on
      line '123', and only for the exact Sol LeWitt station and artist. */
  lemma ReferenceRule(entry: Entry, line: string)
    ensures entry.isReference ==> IsReference(entry, line)
    ensures !entry.isReference && line != "123" ==> !IsReference(entry, line)
    ensures !entry.isReference ==>
              (IsReference(entry, line) <==>
                 line == "123" && entry.station == Some("59 St-Columbus Circle") &&
                 entry.artist == Some("Sol LeWitt"))
  {
  }

  /** `data[line] || []`. */
  function Lookup(data: CatalogData, line: string): seq<Entry> {
    if line in data then data[line] else []
  }

  /** The items renderList shows for a line. */
  function Items(line: string, data: CatalogData): seq<Entry> {
    var items := Lookup(data, line);
    if line == "456" then [DanFlavinRef] + items else items
  }

  /** Line '456' shows the Dan Flavin reference first and then its own
      entries in order; every other line shows exactly its own entries, or
      nothing when the catalog has none. */
  lemma ItemsOfLine(line: string, data: CatalogData)
    ensures line == "456" ==>
              |Items(line, data)| == |Lookup(data, line)| + 1 &&
              Items(line, data)[0] == DanFlavinRef && IsReference(Items(line, data)[0], line) &&
              forall i :: 0 <= i < |Lookup(data, line)| ==> Items(line, data)[i + 1] == Lookup(data, line)[i]
    ensures line != "456" ==> Items(line, data) == (if line in data then data[line] else [])
  {
  }

  /** With an empty catalog, line '456' still shows exactly one item, a
      reference, and every other line shows none. */
  lemma EmptyCatalog(line: string)
    ensures line == "456" ==> Items(line, map[]) == [DanFlavinRef] && IsReference(DanFlavinRef, line)
    ensures line != "456" ==> Items(line, map[]) == []
  {
  }

  /** The text escapeHtml receives: an absent field becomes the empty text. */
  function TextOf(field: Option<string>): string {
    if field.Some? then field.value else ""
  }

  /** `entry.url` is truthy: present and not empty. */
  predicate HasUrl(entry: Entry) {
    entry.url.Some? && entry.url.value != ""
  }

  /** The badge of a referenced entry. It is written as two literals, the
      opening tag and then the text with the closing tag, only to keep the
      proofs that read it back small. */
  const BadgeMarkup: string := " <span class=\"reference-badge\">" + "Referenced in piece</span>"

  /** The fragment renderList emits for one entry. */
  function Fragment(entry: Entry, line: string, escape: string -> string): string {
    var ref := IsReference(entry, line);
    var refClass := if ref then " art-item-reference" else "";
    var refLabel := if ref then BadgeMarkup else "";
    var href := if HasUrl(entry) then " href=\"" + entry.url.value + "\" target=\"_blank\" rel=\"noopener noreferrer\"" else "";
    var tag := if HasUrl(entry) then "a" else "span";
    var station := escape(TextOf(entry.station));
    var artist := escape(TextOf(entry.artist));
    var title := escape(TextOf(entry.title));
    "<" + tag + " class=\"art-item" + refClass + "\"" + (if tag == "a" then href else "") + ">" +
      "<span class=\"art-station\">" + station + "</span> " +
      "<span class=\"art-artist\">" + artist + "</span>, " +
      "<span class=\"art-title\">" + title + "</span>" + refLabel +
    "</" + tag + ">"
  }

  /** `items.map(fragment).join('')`. */
  function Join(items: seq<Entry>, line: string, escape: string -> string): string {
    if items == [] then "" else Fragment(items[0], line, escape) + Join(items[1..], line, escape)
  }

  /** The markup renderList assigns to the list container. */
  function RenderList(line: string, data: CatalogData, escape: string -> string): string {
    Join(Items(line, data), line, escape)
  }

  /** Joining is concatenation, fragment by fragment, in order. */
  lemma {:induction false} JoinAppend(a: seq<Entry>, b: seq<Entry>, line: string, escape: string -> string)
    ensures Join(a + b, line, escape) == Join(a, line, escape) + Join(b, line, escape)
    decreases |a|
  {
    if a == [] {
      assert a + b == b;
    } else {
      assert (a + b)[0] == a[0];
      assert (a + b)[1..] == a[1..] + b;
      JoinAppend(a[1..], b, line, escape);
    }
  }

  /** The rendered list is empty exactly when the line has no items. */
  lemma RenderEmptyIff(line: string, data: CatalogData, escape: string -> string)
    ensures RenderList(line, data, escape) == "" <==> Items(line, data) == []
    ensures RenderList(line, map[], escape) == "" <==> line != "456"
  {
    var items := Items(line, data);
    if items != [] {
      assert |Fragment(items[0], line, escape)| > 0;
    }
    if line == "456" {
      assert |Fragment(DanFlavinRef, line, escape)| > 0;
    }
  }

  // A reader for the markup emitted above: it recovers, from a fragment, the
  // tag, whether the reference class is present, the link target, the three
  // texts and whether the badge is present.

  /** The text before the first c, and the rest starting at that c. */
  function Before(s: string, c: char): (r: Option<(string, string)>)
    ensures r.Some? ==> c !in r.value.0 && s == r.value.0 + r.value.1 &&
                        |r.value.1| > 0 && r.value.1[0] == c
    ensures r.None? ==> c !in s
  {
    if s == [] then None
    else if s[0] == c then Some(([], s))
    else
      assert s == [s[0]] + s[1..];
      match Before(s[1..], c)
      case None => None
      case Some(split) => Some(([s[0]] + split.0, split.1))
  }

  lemma {:induction false} BeforeFirst(a: string, c: char, b: string)
    requires c !in a && |b| > 0 && b[0] == c
    ensures Before(a + b, c) == Some((a, b))
  {
    var s := a + b;
    if a == [] {
      assert s == b;
    } else {
      assert s[0] == a[0] != c;
      assert s[1..] == a[1..] + b;
      BeforeFirst(a[1..], c, b);
      assert [a[0]] + a[1..] == a;
    }
  }

  function Expect(s: string, lit: string): (r: Option<string>)
    ensures r.Some? <==> lit <= s
    ensures r.Some? ==> s == lit + r.value
  {
    if lit <= s then Some(s[|lit|..]) else None
  }

  lemma ExpectPrefix(lit: string, t: string)
    ensures Expect(lit + t, lit) == Some(t)
  {
    assert lit <= lit + t;
    assert (lit + t)[|lit|..] == t;
  }

  const RefClass: string := " art-item-reference"
  const LinkOpen: string := " href=\""
  const LinkClose: string := "\" target=\"_blank\" rel=\"noopener noreferrer\""

  /** What the reader recovers from an opening tag. */
  datatype OpenTag = OpenTag(tag: string, reference: bool, href: Option<string>)

  /** The href, target and rel attributes, or nothing. */
  function ParseLink(s: string): Option<(Option<string>, string)> {
    if LinkOpen <= s then
      var (url, r0) :- Before(s[|LinkOpen|..], '"');
      var r1 :- Expect(r0, LinkClose);
      Some((Some(url), r1))
    else Some((None, s))
  }

  /** The class attribute, with or without the reference class. */
  function ParseClass(s: string): Option<(bool, string)> {
    var r0 :- Expect(s, " class=\"art-item");
    var reference := RefClass <= r0;
    var r1 := if reference then r0[|RefClass|..] else r0;
    var r2 :- Expect(r1, "\"");
    Some((reference, r2))
  }

  function ParseOpen(s: string): Option<(OpenTag, string)> {
    var r0 :- Expect(s, "<");
    var (tag, r1) :- Before(r0, ' ');
    var (reference, r2) :- ParseClass(r1);
    var (href, r3) :- ParseLink(r2);
    var r4 :- Expect(r3, ">");
    Some((OpenTag(tag, reference, href), r4))
  }

  /** The station, artist and title spans. */
  function ParseTexts(s: string): Option<((string, string, string), string)> {
    var (station, r0) :- ParseSpan(s, "<span class=\"art-station\">", "</span> ");
    var (artist, r1) :- ParseSpan(r0, "<span class=\"art-artist\">", "</span>, ");
    var (title, r2) :- ParseSpan(r1, "<span class=\"art-title\">", "</span>");
    Some(((station, artist, title), r2))
  }

  /** An opening literal, a text without '<', and a closing literal. */
  function ParseSpan(s: string, open: string, close: string): Option<(string, string)> {
    var r0 :- Expect(s, open);
    var (text, r1) :- Before(r0, '<');
    var r2 :- Expect(r1, close);
    Some((text, r2))
  }

  /** The optional badge and the closing tag. */
  function ParseClose(s: string, tag: string): Option<(bool, string)> {
    var badge := BadgeMarkup <= s;
    var r0 := if badge then s[|BadgeMarkup|..] else s;
    var r1 :- Expect(r0, "</");
    var r2 :- Expect(r1, tag);
    var r3 :- Expect(r2, ">");
    Some((badge, r3))
  }

  /** What the reader recovers from one fragment. */
  datatype Item = Item(tag: string, reference: bool, href: Option<string>,
                       station: string, artist: string, title: string, badge: bool)

  function ParseFragment(s: string): Option<(Item, string)> {
    var (open, r0) :- ParseOpen(s);
    var (texts, r1) :- ParseTexts(r0);
    var (badge, r2) :- ParseClose(r1, open.tag);
    Some((Item(open.tag, open.reference, open.href, texts.0, texts.1, texts.2, badge), r2))
  }

  function ParseList(s: string): Option<seq<Item>>
    decreases |s|
  {
    if s == [] then Some([])
    else
      var (item, rest) :- ParseFragment(s);
      if |rest| < |s| then
        var more :- ParseList(rest);
        Some([item] + more)
      else None
  }

  lemma LinkRoundTrip(url: Option<string>, t: string)
    requires url.Some? ==> '"' !in url.value
    requires |t| > 0 && t[0] == '>'
    ensures var link := if url.Some? then LinkOpen + url.value + LinkClose else "";
            ParseLink(link + t) == Some((url, t))
  {
    if url.Some? {
      var s := LinkOpen + url.value + LinkClose + t;
      assert s == LinkOpen + (url.value + (LinkClose + t));
      ExpectPrefix(LinkOpen, url.value + (LinkClose + t));
      BeforeFirst(url.value, '"', LinkClose + t);
      ExpectPrefix(LinkClose, t);
    } else {
      assert "" + t == t;
      NotPrefix(LinkOpen, t);
    }
  }

  lemma NotPrefix(lit: string, s: string)
    requires |lit| > 0 && |s| > 0 && lit[0] != s[0]
    ensures !(lit <= s)
  {
  }

  lemma ClassRoundTrip(reference: bool, t: string)
    requires |t| > 0 && (t[0] == ' ' || t[0] == '>')
    ensures var refClass := if reference then RefClass else "";
            ParseClass(" class=\"art-item" + refClass + "\"" + t) == Some((reference, t))
  {
    var refClass := if reference then RefClass else "";
    var t1 := "\"" + t;
    assert " class=\"art-item" + refClass + "\"" + t == " class=\"art-item" + (refClass + t1);
    ExpectPrefix(" class=\"art-item", refClass + t1);
    if reference {
      ExpectPrefix(RefClass, t1);
    } else {
      assert refClass + t1 == t1;
      NotPrefix(RefClass, t1);
    }
    ExpectPrefix("\"", t);
  }

  /** Regrouping an opening tag around its name. */
  lemma OpenLayout(lt: string, tag: string, cls: string, refClass: string, quote: string, link: string,
                   gt: string, t: string)
    ensures lt + tag + cls + refClass + quote + link + gt + t ==
            lt + (tag + (cls + refClass + quote + (link + (gt + t))))
  {
  }

  lemma OpenRoundTrip(tag: string, reference: bool, url: Option<string>, t: string)
    requires ' ' !in tag
    requires url.Some? ==> '"' !in url.value
    ensures var refClass := if reference then RefClass else "";
            var link := if url.Some? then LinkOpen + url.value + LinkClose else "";
            ParseOpen("<" + tag + " class=\"art-item" + refClass + "\"" + link + ">" + t) ==
              Some((OpenTag(tag, reference, url), t))
  {
    var refClass := if reference then RefClass else "";
    var link := if url.Some? then LinkOpen + url.value + LinkClose else "";
    var t3 := ">" + t;
    var t2 := link + t3;
    var t1 := " class=\"art-item" + refClass + "\"" + t2;
    var s := "<" + tag + " class=\"art-item" + refClass + "\"" + link + ">" + t;
    assert s == "<" + (tag + t1) by {
      OpenLayout("<", tag, " class=\"art-item", refClass, "\"", link, ">", t);
    }
    assert Expect(s, "<") == Some(tag + t1) by {
      ExpectPrefix("<", tag + t1);
    }
    assert Before(tag + t1, ' ') == Some((tag, t1)) by {
      BeforeFirst(tag, ' ', t1);
    }
    assert ParseClass(t1) == Some((reference, t2)) by {
      assert t2[0] == (if url.Some? then ' ' else '>');
      ClassRoundTrip(reference, t2);
    }
    assert ParseLink(t2) == Some((url, t3)) by {
      LinkRoundTrip(url, t3);
    }
    assert Expect(t3, ">") == Some(t) by {
      ExpectPrefix(">", t);
    }
  }

  lemma SpanRoundTrip(open: string, text: string, close: string, t: string)
    requires '<' !in text && |close| > 0 && close[0] == '<'
    ensures ParseSpan(open + text + close + t, open, close) == Some((text, t))
  {
    assert open + text + close + t == open + (text + (close + t));
    ExpectPrefix(open, text + (close + t));
    BeforeFirst(text, '<', close + t);
    ExpectPrefix(close, t);
  }

  lemma TextsRoundTrip(station: string, artist: string, title: string, t: string)
    requires '<' !in station && '<' !in artist && '<' !in title
    ensures ParseTexts("<span class=\"art-station\">" + station + "</span> " +
                       "<span class=\"art-artist\">" + artist + "</span>, " +
                       "<span class=\"art-title\">" + title + "</span>" + t) ==
              Some(((station, artist, title), t))
  {
    var t1 := "<span class=\"art-title\">" + title + "</span>" + t;
    var t0 := "<span class=\"art-artist\">" + artist + "</span>, " + t1;
    assert "<span class=\"art-station\">" + station + "</span> " +
           "<span class=\"art-artist\">" + artist + "</span>, " +
           "<span class=\"art-title\">" + title + "</span>" + t ==
           "<span class=\"art-station\">" + station + "</span> " + t0;
    SpanRoundTrip("<span class=\"art-station\">", station, "</span> ", t0);
    SpanRoundTrip("<span class=\"art-artist\">", artist, "</span>, ", t1);
    SpanRoundTrip("<span class=\"art-title\">", title, "</span>", t);
  }

  lemma CloseRoundTrip(badge: bool, tag: string, t: string)
    ensures var refLabel := if badge then BadgeMarkup else "";
            ParseClose(refLabel + "</" + tag + ">" + t, tag) == Some((badge, t))
  {
    var refLabel := if badge then BadgeMarkup else "";
    var t2 := ">" + t;
    var t1 := tag + t2;
    var t0 := "</" + t1;
    assert refLabel + "</" + tag + ">" + t == refLabel + t0;
    if badge {
      ExpectPrefix(BadgeMarkup, t0);
    } else {
      assert refLabel + t0 == t0;
      assert BadgeMarkup[0] == ' ';
      assert t0[0] == '<';
      NotPrefix(BadgeMarkup, t0);
    }
    ExpectPrefix("</", t1);
    ExpectPrefix(tag, t2);
    ExpectPrefix(">", t);
  }

  /** What one entry must read back as: an `a` exactly when it has a url,
      with the unescaped url as link target; the escaped station, artist and
      title; and the reference class and badge exactly for references. */
  function Expected(entry: Entry, line: string, escape: string -> string): Item {
    Item(if HasUrl(entry) then "a" else "span", IsReference(entry, line),
         if HasUrl(entry) then Some(entry.url.value) else None,
         escape(TextOf(entry.station)), escape(TextOf(entry.artist)), escape(TextOf(entry.title)),
         IsReference(entry, line))
  }

  /** The entry's texts escape to no '<', and its url holds no '"'. */
  predicate Renderable(entry: Entry, escape: string -> string) {
    '<' !in escape(TextOf(entry.station)) && '<' !in escape(TextOf(entry.artist)) &&
    '<' !in escape(TextOf(entry.title)) && (HasUrl(entry) ==> '"' !in entry.url.value)
  }

  /** Regrouping a fragment into its opening tag, texts and closing part. */
  lemma FragmentLayout(tag: string, refClass: string, link: string, station: string, artist: string,
                       title: string, refLabel: string, rest: string)
    ensures ("<" + tag + " class=\"art-item" + refClass + "\"" + link + ">" +
               "<span class=\"art-station\">" + station + "</span> " +
               "<span class=\"art-artist\">" + artist + "</span>, " +
               "<span class=\"art-title\">" + title + "</span>" + refLabel +
             "</" + tag + ">") + rest ==
            "<" + tag + " class=\"art-item" + refClass + "\"" + link + ">" +
              ("<span class=\"art-station\">" + station + "</span> " +
               "<span class=\"art-artist\">" + artist + "</span>, " +
               "<span class=\"art-title\">" + title + "</span>" +
               (refLabel + "</" + tag + ">" + rest))
  {
  }

  /** Reading a fragment back recovers its entry's tag, reference class, link
      target, escaped texts and badge, and leaves what follows it untouched. */
  lemma FragmentRoundTrip(entry: Entry, line: string, escape: string -> string, rest: string)
    requires Renderable(entry, escape)
    ensures ParseFragment(Fragment(entry, line, escape) + rest) == Some((Expected(entry, line, escape), rest))
  {
    var ref := IsReference(entry, line);
    var refClass := if ref then RefClass else "";
    var refLabel := if ref then BadgeMarkup else "";
    var url := if HasUrl(entry) then Some(entry.url.value) else None;
    var link := if url.Some? then LinkOpen + url.value + LinkClose else "";
    var tag := if HasUrl(entry) then "a" else "span";
    var station := escape(TextOf(entry.station));
    var artist := escape(TextOf(entry.artist));
    var title := escape(TextOf(entry.title));
    var close := refLabel + "</" + tag + ">" + rest;
    var texts := "<span class=\"art-station\">" + station + "</span> " +
                 "<span class=\"art-artist\">" + artist + "</span>, " +
                 "<span class=\"art-title\">" + title + "</span>" + close;
    var open := "<" + tag + " class=\"art-item" + refClass + "\"" + link + ">" + texts;
    assert link == (if tag == "a" then LinkOpen + entry.url.value + LinkClose else "");
    assert Fragment(entry, line, escape) ==
      "<" + tag + " class=\"art-item" + refClass + "\"" + link + ">" +
        "<span class=\"art-station\">" + station + "</span> " +
        "<span class=\"art-artist\">" + artist + "</span>, " +
        "<span class=\"art-title\">" + title + "</span>" + refLabel +
      "</" + tag + ">";
    FragmentLayout(tag, refClass, link, station, artist, title, refLabel, rest);
    OpenRoundTrip(tag, ref, url, texts);
    TextsRoundTrip(station, artist, title, close);
    CloseRoundTrip(ref, tag, rest);
  }

  function ExpectedList(items: seq<Entry>, line: string, escape: string -> string): (r: seq<Item>)
    ensures |r| == |items|
  {
    if items == [] then [] else [Expected(items[0], line, escape)] + ExpectedList(items[1..], line, escape)
  }

  /** Reading the joined markup back gives one item per entry, in order. */
  lemma {:induction false} JoinRoundTrip(items: seq<Entry>, line: string, escape: string -> string)
    requires forall i :: 0 <= i < |items| ==> Renderable(items[i], escape)
    ensures ParseList(Join(items, line, escape)) == Some(ExpectedList(items, line, escape))
    decreases |items|
  {
    if items != [] {
      var f := Fragment(items[0], line, escape);
      var rest := Join(items[1..], line, escape);
      FragmentRoundTrip(items[0], line, escape, rest);
      assert f[0] == '<';
      assert |rest| < |f + rest|;
      JoinRoundTrip(items[1..], line, escape);
    }
  }

  /** The rendered list reads back as exactly one item per shown entry, in
      order: its tag is `a` exactly when the entry has a url, its attributes
      carry the url unescaped, its texts are the escaped fields, and its class
      and badge mark it exactly when the entry is a reference. */
  lemma RenderListRoundTrip(line: string, data: CatalogData, escape: string -> string)
    requires forall i :: 0 <= i < |Items(line, data)| ==> Renderable(Items(line, data)[i], escape)
    ensures ParseList(RenderList(line, data, escape)) == Some(ExpectedList(Items(line, data), line, escape))
  {
    JoinRoundTrip(Items(line, data), line, escape);
  }

  /** The url of the Dan Flavin reference holds no '"'. */
  lemma NoQuoteInUrl()
    ensures HasUrl(DanFlavinRef) && '"' !in DanFlavinRef.url.value
  {
    var host, path := "https://www.instagram.com", "/p/C7mjDhXM1fZ/?hl=en";
    assert '"' !in host && '"' !in path;
    assert DanFlavinRef.url.value == host + path;
  }

  /** For an empty catalog, the markup rendered for line '456' reads back as
      exactly one entry: an `a` linking to the Dan Flavin post, with the
      reference class and the "Referenced in piece" badge. */
  lemma EmptyCatalogBadge(escape: string -> string)
    requires forall s :: '<' !in escape(s)
    ensures var r := ParseList(RenderList("456", map[], escape));
            r.Some? && |r.value| == 1 && r.value[0].tag == "a" && r.value[0].href == DanFlavinRef.url &&
            r.value[0].reference && r.value[0].badge
  {
    EmptyCatalog("456");
    NoQuoteInUrl();
    RenderListRoundTrip("456", map[], escape);
    assert ExpectedList([DanFlavinRef], "456", escape) == [Expected(DanFlavinRef, "456", escape)];
  }

  /** Read back, a fragment is an `a` with the url as link target exactly
      when the entry has a url, and a `span` without one otherwise; it
      carries the reference class and the badge exactly when the entry is a
      reference on that line; its texts are the escaped fields (an absent
      one escapes the empty text). */
  lemma FragmentFields(entry: Entry, line: string, escape: string -> string)
    requires Renderable(entry, escape)
    ensures ParseFragment(Fragment(entry, line, escape)).Some?
    ensures var item := ParseFragment(Fragment(entry, line, escape)).value.0;
            (item.tag == "a" <==> HasUrl(entry)) &&
            (item.tag == "span" <==> !HasUrl(entry)) &&
            (item.href.Some? <==> HasUrl(entry)) &&
            (HasUrl(entry) ==> item.href == entry.url) &&
            (item.reference <==> IsReference(entry, line)) &&
            (item.badge <==> IsReference(entry, line)) &&
            item.station == escape(TextOf(entry.station)) &&
            item.artist == escape(TextOf(entry.artist)) &&
            item.title == escape(TextOf(entry.title))
  {
    FragmentRoundTrip(entry, line, escape, "");
    assert Fragment(entry, line, escape) + "" == Fragment(entry, line, escape);
  }
}

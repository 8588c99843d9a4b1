/** The Confluence page content built from the captured dashboards
    (services/confluence.py:59-121, and the older confluence.py:51-89).
    `html.escape` is an abstract function `esc` supplied by the caller; the
    page fetch and update calls are replaced by their inputs and results. */
module Report {
  import opened Wrappers
  import opened Text
  import opened TimeArgs
  import opened Dashboard
  import opened Manifest
  import opened Legacy
  import Urls
  import Capture

  // ---------------------------------------------------------------------------
  // Page structure and its storage-format text

  /** `<p><a href="{href}">{text}</a></p>` */
  datatype Line = Line(href: string, text: string)

  /** One window of one panel: a link paragraph and an image paragraph. */
  datatype Entry = Entry(href: string, text: string, image: string)

  /** One panel: an h3 and an expand macro holding its entries. */
  datatype PanelSection = PanelSection(row: string, entries: seq<Entry>)

  /** One dashboard: an h2, its dashboard links, and (in the services
      version) an expand macro holding its panels. */
  datatype DashSection = DashSection(title: string, lines: seq<Line>, panels: seq<PanelSection>)

  function OpenExpand(title: string): string {
    "<ac:structured-macro ac:name=\"expand\">\n"
    + "  <ac:parameter ac:name=\"title\">" + title + "</ac:parameter>\n"
    + "  <ac:rich-text-body>\n"
  }

  const CloseExpand := "  </ac:rich-text-body>\n</ac:structured-macro>\n"

  /** The image paragraph; the older generator writes no width. */
  function ImageTag(width: Option<int>, file: string): string {
    "    <p><ac:image" + (if width.Some? then " ac:width=\"" + IntToString(width.value) + "\"" else "")
    + "><ri:attachment ri:filename=\"" + file + "\" /></ac:image></p>\n"
  }

  function RenderEntries(es: seq<Entry>, width: Option<int>): string
    decreases |es|
  {
    if |es| == 0 then ""
    else "    <p><a href=\"" + es[0].href + "\">" + es[0].text + "</a></p>\n" + ImageTag(width, es[0].image)
         + RenderEntries(es[1..], width)
  }

  function RenderPanels(ps: seq<PanelSection>, width: Option<int>): string
    decreases |ps|
  {
    if |ps| == 0 then ""
    else "<h3>" + ps[0].row + "</h3>\n" + OpenExpand(ps[0].row) + RenderEntries(ps[0].entries, width) + CloseExpand
         + RenderPanels(ps[1..], width)
  }

  function RenderLines(ls: seq<Line>): string
    decreases |ls|
  {
    if |ls| == 0 then ""
    else "<p><a href=\"" + ls[0].href + "\">" + ls[0].text + "</a></p>\n" + RenderLines(ls[1..])
  }

  /** The services layout: the dashboard's panels sit inside an outer expand. */
  function RenderPage(page: seq<DashSection>, width: int): string
    decreases |page|
  {
    if |page| == 0 then ""
    else
      var d := page[0];
      "<h2>" + d.title + "</h2>\n" + RenderLines(d.lines)
      + OpenExpand(d.title) + RenderPanels(d.panels, Some(width)) + CloseExpand
      + RenderPage(page[1..], width)
  }

  /** The older layout: no dashboard links and no outer expand. */
  function RenderLegacyPage(page: seq<DashSection>): string
    decreases |page|
  {
    if |page| == 0 then ""
    else "<h2>" + page[0].title + "</h2>\n" + RenderPanels(page[0].panels, None) + RenderLegacyPage(page[1..])
  }

  /** The dashboards are written one after another, in order: rendering a
      concatenation of sections concatenates their texts. */
  lemma {:induction false} RenderPageAppend(a: seq<DashSection>, b: seq<DashSection>, width: int)
    ensures RenderPage(a + b, width) == RenderPage(a, width) + RenderPage(b, width)
    decreases |a|
  {
    if |a| == 0 {
      assert a + b == b;
    } else {
      var ab := a + b;
      assert ab[0] == a[0] && ab[1..] == a[1..] + b;
      RenderPageAppend(a[1..], b, width);
    }
  }

  /** The same for the older layout. */
  lemma {:induction false} RenderLegacyPageAppend(a: seq<DashSection>, b: seq<DashSection>)
    ensures RenderLegacyPage(a + b) == RenderLegacyPage(a) + RenderLegacyPage(b)
    decreases |a|
  {
    if |a| == 0 {
      assert a + b == b;
    } else {
      var ab := a + b;
      assert ab[0] == a[0] && ab[1..] == a[1..] + b;
      RenderLegacyPageAppend(a[1..], b);
    }
  }

  // ---------------------------------------------------------------------------
  // Building a page, stopping at the first exception

  /** Python's `xs[i]` on a list of strings. */
  function Index(xs: seq<string>, i: int): (r: Result<string>)
    ensures r.Success? <==> PyIndex(|xs|, i).Some?
    ensures r.Success? ==> r.value == xs[PyIndex(|xs|, i).value]
    ensures r.Failure? ==> r.error.IndexError?
  {
    match PyIndex(|xs|, i)
    case None => Failure(IndexError("list index out of range"))
    case Some(k) => Success(xs[k])
  }

  /** `html.escape(panel.links[id_time])`: an empty link slot raises
      AttributeError inside `html.escape`. */
  function PanelLink(p: Panel, t: Timestamp): (r: Result<string>)
    ensures r.Success? <==> PyIndex(|p.links|, t.id).Some? && p.links[PyIndex(|p.links|, t.id).value].Some?
    ensures PyIndex(|p.links|, t.id).None? ==> r.Failure? && r.error.IndexError?
    ensures PyIndex(|p.links|, t.id).Some? && r.Failure? ==> r.error.AttributeError?
    ensures r.Success? ==> Some(r.value) == p.links[PyIndex(|p.links|, t.id).value]
  {
    match PyIndex(|p.links|, t.id)
    case None => Failure(IndexError("list index out of range"))
    case Some(k) =>
      match p.links[k]
      case None => Failure(AttributeError("'NoneType' object has no attribute 'replace'"))
      case Some(l) => Success(l)
  }

  /** The period on a dashboard line: the escaped tag when it is non-empty,
      else `Test <id+1>` when there are several windows, else nothing. */
  function DashPeriod(esc: string -> string, t: Timestamp, many: bool): string {
    if Truthy(t.tag) then " " + esc(t.tag.value) + " "
    else if many then " Test " + IntToString(t.id + 1) + " "
    else " "
  }

  /** The text of a panel entry: with several windows the tag or
      `Test <id+1>` and the human-readable window; with one, the row title. */
  function PanelText(esc: string -> string, t: Timestamp, many: bool, row: string): string {
    if many then
      (if Truthy(t.tag) then esc(t.tag.value) + " " else "Test " + IntToString(t.id + 1) + " ")
      + t.startHuman + " - " + t.endHuman
    else row
  }

  function DashLineOf(esc: string -> string, u: Uploader, title: string, many: bool, t: Timestamp): (r: Result<Line>)
    ensures r.Success? <==> PyIndex(|u.fullLinks|, t.id).Some?
    ensures r.Failure? ==> r.error.IndexError?
    ensures r.Success? ==> r.value.href == esc(u.fullLinks[PyIndex(|u.fullLinks|, t.id).value])
    ensures r.Success? ==> r.value.text == title + DashPeriod(esc, t, many) + t.startHuman + " - " + t.endHuman
  {
    var link :- Index(u.fullLinks, t.id);
    Success(Line(esc(link), title + DashPeriod(esc, t, many) + t.startHuman + " - " + t.endHuman))
  }

  function EntryOf(esc: string -> string, name: string, p: Panel, row: string, many: bool, t: Timestamp): (r: Result<Entry>)
    ensures r.Success? <==> PanelLink(p, t).Success?
    ensures r.Failure? ==> r == Failure(PanelLink(p, t).error)
    ensures r.Success? ==> r.value.href == esc(PanelLink(p, t).value)
    ensures r.Success? ==> r.value.image == esc(Urls.ChartFileName(name, p.id, t.id))
    ensures r.Success? ==> r.value.text == PanelText(esc, t, many, row)
  {
    var link :- PanelLink(p, t);
    Success(Entry(esc(link), PanelText(esc, t, many, row), esc(Urls.ChartFileName(name, p.id, t.id))))
  }

  /** One panel's section: one entry per window, in window order. */
  function PanelSectionOf(esc: string -> string, name: string, ts: seq<Timestamp>, many: bool, p: Panel): (r: Result<PanelSection>)
    ensures r.Success? <==> forall i | 0 <= i < |ts| :: PanelLink(p, ts[i]).Success?
    ensures r.Success? ==> r.value.row == esc(p.title) && |r.value.entries| == |ts|
    ensures r.Success? ==> forall i | 0 <= i < |ts| ::
              && r.value.entries[i].image == esc(Urls.ChartFileName(name, p.id, ts[i].id))
              && r.value.entries[i].href == esc(PanelLink(p, ts[i]).value)
              && r.value.entries[i].text == PanelText(esc, ts[i], many, esc(p.title))
    ensures r.Failure? ==> exists i | 0 <= i < |ts| :: PanelLink(p, ts[i]) == Failure(r.error)
  {
    var row := esc(p.title);
    var f := t => EntryOf(esc, name, p, row, many, t);
    var entries :- MapResult(ts, f);
    Success(PanelSection(row, entries))
  }

  /** One dashboard's section: the dashboard lines first, then the panels,
      so a missing dashboard link is reported before any panel link. */
  function DashSectionOf(esc: string -> string, ts: seq<Timestamp>, u: Uploader): (r: Result<DashSection>)
    ensures r.Success? <==>
              && (forall i | 0 <= i < |ts| :: PyIndex(|u.fullLinks|, ts[i].id).Some?)
              && (forall j, i | 0 <= j < |u.panels| && 0 <= i < |ts| :: PanelLink(u.panels[j], ts[i]).Success?)
    ensures r.Success? ==> r.value.title == esc(u.name) && |r.value.lines| == |ts| && |r.value.panels| == |u.panels|
    ensures r.Success? ==> forall j | 0 <= j < |u.panels| ::
              Success(r.value.panels[j]) == PanelSectionOf(esc, u.name, ts, |ts| > 1, u.panels[j])
    ensures r.Success? ==> forall i | 0 <= i < |ts| ::
              Success(r.value.lines[i]) == DashLineOf(esc, u, esc(u.name), |ts| > 1, ts[i])
  {
    var title := esc(u.name);
    var many := |ts| > 1;
    var line := t => DashLineOf(esc, u, title, many, t);
    var lines :- MapResult(ts, line);
    var section := p => PanelSectionOf(esc, u.name, ts, many, p);
    var panels :- MapResult(u.panels, section);
    Success(DashSection(title, lines, panels))
  }

  /** The services `update_page_content` loop over the dashboards. */
  function ServicesPage(esc: string -> string, configs: seq<Uploader>, ts: seq<Timestamp>): (r: Result<seq<DashSection>>)
    ensures r.Success? <==> forall c | 0 <= c < |configs| :: DashSectionOf(esc, ts, configs[c]).Success?
    ensures r.Success? ==> |r.value| == |configs|
    ensures r.Success? ==> forall c | 0 <= c < |configs| :: DashSectionOf(esc, ts, configs[c]) == Success(r.value[c])
  {
    var f := u => DashSectionOf(esc, ts, u);
    MapResult(configs, f)
  }

  /** Every image in the services page names the chart file, by its
      `name__panel__window.png` name, of that dashboard, panel and window. */
  lemma ImagesAreCharts(esc: string -> string, configs: seq<Uploader>, ts: seq<Timestamp>, c: nat, j: nat, i: nat)
    requires ServicesPage(esc, configs, ts).Success?
    requires c < |configs| && j < |configs[c].panels| && i < |ts|
    ensures var page := ServicesPage(esc, configs, ts).value;
      && j < |page[c].panels| && i < |page[c].panels[j].entries|
      && page[c].panels[j].entries[i].image
         == esc(Urls.ChartFileName(configs[c].name, configs[c].panels[j].id, ts[i].id))
  {
    var page := ServicesPage(esc, configs, ts).value;
    assert Success(page[c].panels[j]) == PanelSectionOf(esc, configs[c].name, ts, |ts| > 1, configs[c].panels[j]);
  }

  /** The image of panel j at window i is the escaped base name of the
      file that the capture task for that panel and window writes into the
      dashboard's charts directory, whenever that task wrote one. */
  lemma ImagesShowWrittenCharts(esc: string -> string, configs: seq<Uploader>, ts: seq<Timestamp>, c: nat, j: nat, i: nat,
                                g: Capture.Target, encode: Urls.Params -> string, w: Capture.TaskWorld)
    requires ServicesPage(esc, configs, ts).Success?
    requires c < |configs| && j < |configs[c].panels| && i < |ts|
    requires g.name == configs[c].name && g.chartsPath == configs[c].chartsPath
    requires Capture.DownloadChart(g, encode, configs[c].panels[j], ts[i], w).file.Some?
    ensures var page := ServicesPage(esc, configs, ts).value;
      var base := Urls.ChartFileName(configs[c].name, configs[c].panels[j].id, ts[i].id);
      && j < |page[c].panels| && i < |page[c].panels[j].entries|
      && page[c].panels[j].entries[i].image == esc(base)
      && Capture.DownloadChart(g, encode, configs[c].panels[j], ts[i], w).file == Some(Join(configs[c].chartsPath, base))
  {
    ImagesAreCharts(esc, configs, ts, c, j, i);
  }

  /** Within one dashboard, two entries show the same attachment only when
      they are for the same panel id and the same window id. */
  lemma ImagesDistinct(esc: string -> string, configs: seq<Uploader>, ts: seq<Timestamp>,
                       c: nat, j1: nat, i1: nat, j2: nat, i2: nat)
    requires forall a: string, b: string :: esc(a) == esc(b) ==> a == b
    requires ServicesPage(esc, configs, ts).Success?
    requires c < |configs| && j1 < |configs[c].panels| && j2 < |configs[c].panels| && i1 < |ts| && i2 < |ts|
    ensures var page := ServicesPage(esc, configs, ts).value;
      page[c].panels[j1].entries[i1].image == page[c].panels[j2].entries[i2].image ==>
        configs[c].panels[j1].id == configs[c].panels[j2].id && ts[i1].id == ts[i2].id
  {
    ImagesAreCharts(esc, configs, ts, c, j1, i1);
    ImagesAreCharts(esc, configs, ts, c, j2, i2);
    var u := configs[c];
    var a := Urls.ChartFileName(u.name, u.panels[j1].id, ts[i1].id);
    var b := Urls.ChartFileName(u.name, u.panels[j2].id, ts[i2].id);
    if esc(a) == esc(b) {
      Urls.ChartFileNameInjective(u.name, u.panels[j1].id, ts[i1].id, u.panels[j2].id, ts[i2].id);
    }
  }

  /** A manifest loaded back from YAML has only empty link slots, so the
      services page cannot be built from it: some link lookup raises. */
  lemma ReloadedConfigCannotReport(esc: string -> string, configs: seq<Uploader>, ts: seq<Timestamp>,
                                   d: ManifestDoc, c: nat)
    requires c < |configs| && Load(d).Success? && configs[c] == Load(d).value
    requires |ts| > 0
    ensures ServicesPage(esc, configs, ts).Failure?
  {
    var u := configs[c];
    var p := u.panels[0];
    assert forall k | 0 <= k < |p.links| :: p.links[k].None?;
    assert !PanelLink(p, ts[0]).Success?;
  }

  // ---------------------------------------------------------------------------
  // The page body

  const Placeholder := "%%%graphs%%%"

  /** The page as fetched and as written back. */
  datatype WikiPage = WikiPage(title: string, body: string)

  /** The services update: the title is kept; the generated content replaces
      every `%%%graphs%%%` in the old body, or the whole body when there is
      none. */
  function ServicesUpdate(page: WikiPage, content: string): (r: WikiPage)
    ensures r.title == page.title
    ensures !Contains(page.body, Placeholder) ==> r.body == content
  {
    if Contains(page.body, Placeholder) then WikiPage(page.title, ReplaceAll(page.body, Placeholder, content))
    else WikiPage(page.title, content)
  }

  /** A page with one placeholder keeps everything around it. */
  lemma OnePlaceholder(page: WikiPage, content: string, i: nat)
    requires OccursAt(page.body, Placeholder, i)
    requires forall j | 0 <= j < i :: !OccursAt(page.body, Placeholder, j)
    requires forall j | i + |Placeholder| <= j :: !OccursAt(page.body, Placeholder, j)
    ensures ServicesUpdate(page, content).body
            == page.body[..i] + content + page.body[i + |Placeholder|..]
  {
    ContainsIff(page.body, Placeholder);
    ReplaceUnique(page.body, Placeholder, content, i);
  }

  /** The services generator end to end. */
  function ServicesReport(esc: string -> string, configs: seq<Uploader>, ts: seq<Timestamp>, width: int,
                          page: WikiPage): (r: Result<WikiPage>)
    ensures r.Success? <==> ServicesPage(esc, configs, ts).Success?
    ensures r.Success? ==> r.value == ServicesUpdate(page, RenderPage(ServicesPage(esc, configs, ts).value, width))
  {
    var sections :- ServicesPage(esc, configs, ts);
    Success(ServicesUpdate(page, RenderPage(sections, width)))
  }

  // ---------------------------------------------------------------------------
  // The older generator (confluence.py)

  /** The tag when non-empty, else `Test <id+1>`, whatever the number of
      windows. */
  function LegacyPeriod(t: LegacyTime): string {
    if Truthy(t.tag) then t.tag.value else "Test " + IntToString(t.id + 1)
  }

  /** `/download/attachments/<page_id>/<image_name>` */
  function AttachmentLink(pageId: int, image: string): (r: string)
    ensures EndsWith(r, "/" + image)
  {
    "/download/attachments/" + IntToString(pageId) + "/" + image
  }

  function LegacyEntry(name: string, pageId: int, p: LegacyPanel, t: LegacyTime): Entry {
    var image := Urls.ChartFileName(name, p.id, t.id);
    Entry(AttachmentLink(pageId, image), p.title + " - " + LegacyPeriod(t), image)
  }

  function LegacyPanelSection(name: string, pageId: int, ts: seq<LegacyTime>, p: LegacyPanel): (r: PanelSection)
    ensures r.row == p.title && |r.entries| == |ts|
    ensures forall i | 0 <= i < |ts| :: r.entries[i] == LegacyEntry(name, pageId, p, ts[i])
  {
    PanelSection(p.title, seq(|ts|, i requires 0 <= i < |ts| => LegacyEntry(name, pageId, p, ts[i])))
  }

  /** The older `update_page_content` loop: it cannot raise, and titles are
      not escaped. */
  function LegacyPageOf(configs: seq<LegacyConfig>, ts: seq<LegacyTime>, pageId: int): (r: seq<DashSection>)
    ensures |r| == |configs|
    ensures forall c | 0 <= c < |configs| ::
              && r[c].title == configs[c].dashTitle && r[c].lines == []
              && |r[c].panels| == |configs[c].panels|
              && forall j | 0 <= j < |configs[c].panels| ::
                   r[c].panels[j] == LegacyPanelSection(configs[c].name, pageId, ts, configs[c].panels[j])
  {
    seq(|configs|, c requires 0 <= c < |configs| =>
      DashSection(configs[c].dashTitle, [],
        seq(|configs[c].panels|, j requires 0 <= j < |configs[c].panels| =>
          LegacyPanelSection(configs[c].name, pageId, ts, configs[c].panels[j]))))
  }

  /** The older update replaces the whole body and keeps the title. */
  function LegacyUpdate(page: WikiPage, content: string): (r: WikiPage)
    ensures r.title == page.title && r.body == content
  {
    WikiPage(page.title, content)
  }

  function LegacyReport(configs: seq<LegacyConfig>, ts: seq<LegacyTime>, pageId: int, page: WikiPage): WikiPage {
    LegacyUpdate(page, RenderLegacyPage(LegacyPageOf(configs, ts, pageId)))
  }

  /** In the older page, every entry links to the attachment it shows, and
      that attachment is the chart file of its dashboard, panel and window. */
  lemma LegacyLinksShowImage(configs: seq<LegacyConfig>, ts: seq<LegacyTime>, pageId: int, c: nat, j: nat, i: nat)
    requires c < |configs| && j < |configs[c].panels| && i < |ts|
    ensures var e := LegacyPageOf(configs, ts, pageId)[c].panels[j].entries[i];
      && e.image == Urls.ChartFileName(configs[c].name, configs[c].panels[j].id, ts[i].id)
      && e.href == AttachmentLink(pageId, e.image)
      && EndsWith(e.href, "/" + e.image)
  {
  }

  /** The two generators label a window alike when there are several
      windows: the services panel label is the older label followed by a
      space and the human-readable window, and the dashboard-line period is
      the older label between spaces (taking `html.escape` as the identity). */
  lemma PeriodsAgree(t: Timestamp)
    ensures PanelText(s => s, t, true, "") == LegacyPeriod(Strip(t)) + " " + t.startHuman + " - " + t.endHuman
    ensures DashPeriod(s => s, t, true) == " " + LegacyPeriod(Strip(t)) + " "
  {
  }

  /** With a single window the two generators differ: the services entry is
      labelled with the row title alone, the older one with `Test 1` or the
      tag. */
  lemma SingleWindowLabels(esc: string -> string, t: Timestamp, row: string)
    ensures PanelText(esc, t, false, row) == row
    ensures DashPeriod(esc, t, false) == (if Truthy(t.tag) then " " + esc(t.tag.value) + " " else " ")
  {
  }

  /** With several untagged windows, each gets its own label. */
  lemma UntaggedLabelsDistinct(esc: string -> string, a: Timestamp, b: Timestamp)
    requires !Truthy(a.tag) && !Truthy(b.tag) && a.id != b.id
    ensures DashPeriod(esc, a, true) != DashPeriod(esc, b, true)
  {
    var sa := IntToString(a.id + 1);
    var sb := IntToString(b.id + 1);
    IntToStringInjective(a.id + 1, b.id + 1);
    var pa := DashPeriod(esc, a, true);
    var pb := DashPeriod(esc, b, true);
    assert pa == " Test " + sa + " " && pb == " Test " + sb + " ";
    Infix(" Test ", sa, " ");
    Infix(" Test ", sb, " ");
  }
}

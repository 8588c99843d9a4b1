/** The root-level variant of the tool (args_parser.py, grafana.py), modelled
    only where it differs from the services/ code: windows carry no
    human-readable times and no zone, there are no upload folders, panels
    carry no links, and the download step stops after resolving the
    dashboard and its panels. */
module Legacy {
  import opened Wrappers
  import opened Text
  import opened TimeArgs
  import opened Dashboard
  import Urls
  import Capture

  // ---------------------------------------------------------------------------
  // Arguments (args_parser.py)

  /** `GrafanaTime`: tag, id and the raw instants. */
  datatype LegacyTime = LegacyTime(tag: Option<string>, id: int, start: int, end: int)

  /** `GrafanaTime(timestamp_str, id_time)`: the tag, then `&from=`, then
      `&to=`; a missing instant is Python's IndexError on `findall(...)[0]`. */
  function ParseLegacyTime(s: string, id: nat): (r: Result<LegacyTime>)
    ensures MarkedNumber(s, "&from=").None? ==> r == Failure(IndexError("&from="))
    ensures MarkedNumber(s, "&from=").Some? && MarkedNumber(s, "&to=").None? ==> r == Failure(IndexError("&to="))
    ensures r.Success? <==> MarkedNumber(s, "&from=").Some? && MarkedNumber(s, "&to=").Some?
  {
    var tag := TimeTag(s);
    match MarkedNumber(s, "&from=")
    case None => Failure(IndexError("&from="))
    case Some(start) =>
      match MarkedNumber(s, "&to=")
      case None => Failure(IndexError("&to="))
      case Some(end) => Success(LegacyTime(tag, id, start, end))
  }

  /** The fields the two variants share. */
  function Strip(t: Timestamp): LegacyTime {
    LegacyTime(t.tag, t.id, t.start, t.end)
  }

  /** With a known zone, the legacy window parser accepts exactly the windows
      the services parser accepts, raises the same exceptions, and reads the
      same tag, id and instants. */
  lemma LegacyTimeAgrees(s: string, id: nat, zoneName: string, format: real -> string)
    ensures ParseLegacyTime(s, id).Success? <==> ParseTimestamp(s, id, zoneName, Some(format)).Success?
    ensures ParseLegacyTime(s, id).Success? ==>
              ParseLegacyTime(s, id).value == Strip(ParseTimestamp(s, id, zoneName, Some(format)).value)
    ensures ParseLegacyTime(s, id).Failure? ==>
              ParseLegacyTime(s, id).error == ParseTimestamp(s, id, zoneName, Some(format)).error
  {
  }

  /** The legacy ArgsParser: windows parsed with ids from 0, then login,
      password, config file and "at least one window" validated in that
      order; there is no upload-folder alternative. */
  function LegacyParseArgs(login: Option<string>, password: Option<string>, configFile: string, configExists: bool,
                           timestamps: seq<string>): (r: Result<seq<LegacyTime>>)
    ensures r.Success? ==> |r.value| == |timestamps| && |timestamps| > 0
    ensures r.Success? ==> forall i | 0 <= i < |r.value| :: r.value[i].id == i
    ensures r.Success? ==> !Blank(login) && !Blank(password) && configExists
  {
    var ts :- ParseEach(timestamps, 0, ParseLegacyTime);
    var _ :- Validate(login, password, configFile, configExists, |ts| > 0, None);
    Success(ts)
  }

  /** Element-wise, the legacy list is the services list with the
      human-readable times dropped, provided both parse. */
  lemma ParseEachAgrees(strs: seq<string>, first: nat, zoneName: string, format: real -> string)
    ensures ParseEach(strs, first, ParseLegacyTime).Success?
            <==> ParseFrom(strs, first, zoneName, Some(format)).Success?
    ensures ParseEach(strs, first, ParseLegacyTime).Success? ==>
              var l := ParseEach(strs, first, ParseLegacyTime).value;
              var s := ParseFrom(strs, first, zoneName, Some(format)).value;
              |l| == |s| && forall i | 0 <= i < |l| :: l[i] == Strip(s[i])
  {
    var l := ParseEach(strs, first, ParseLegacyTime);
    var s := ParseFrom(strs, first, zoneName, Some(format));
    forall i | 0 <= i < |strs|
      ensures ParseLegacyTime(strs[i], first + i).Success?
              <==> ParseTimestamp(strs[i], first + i, zoneName, Some(format)).Success?
    {
      LegacyTimeAgrees(strs[i], first + i, zoneName, format);
    }
    if l.Success? {
      forall i | 0 <= i < |strs|
        ensures l.value[i] == Strip(s.value[i])
      {
        LegacyTimeAgrees(strs[i], first + i, zoneName, format);
      }
    }
  }

  /** Without upload folders, the legacy arguments succeed exactly when the
      services arguments do, and give the same windows minus the
      human-readable times. */
  lemma LegacyArgsAgree(a: CliArgs, format: real -> string)
    requires a.uploadFolders.None? && a.timestamps.Some?
    ensures var l := LegacyParseArgs(a.login, a.password, a.configFile, a.configExists, a.timestamps.value);
      var s := ParseArgs(a, Some(format));
      && (l.Success? <==> s.Success?)
      && (l.Success? ==> |l.value| == |s.value| && forall i | 0 <= i < |l.value| :: l.value[i] == Strip(s.value[i]))
  {
    ParseEachAgrees(a.timestamps.value, 0, a.tz, format);
  }

  /** The legacy tool cannot run without windows: with valid credentials and
      config, an empty list is still rejected. */
  lemma LegacyNeedsWindows(login: Option<string>, password: Option<string>, configFile: string)
    requires !Blank(login) && !Blank(password)
    ensures LegacyParseArgs(login, password, configFile, true, []) == Failure(ValueError("timestamps"))
  {
  }

  // ---------------------------------------------------------------------------
  // Dashboard access (grafana.py)

  /** The legacy `Panel` dataclass: no link slots. */
  datatype LegacyPanel = LegacyPanel(id: int, kind: string, title: string)

  /** The legacy `get_panels` after a successful fetch. */
  function LegacyPanels(raw: seq<RawPanel>): (r: seq<LegacyPanel>)
    ensures |r| == |Flatten(raw)|
    ensures forall i | 0 <= i < |r| ::
              r[i] == LegacyPanel(Flatten(raw)[i].id, Flatten(raw)[i].kind, Flatten(raw)[i].title.GetOr("Row"))
  {
    var leaves := Flatten(raw);
    seq(|leaves|, i requires 0 <= i < |leaves| => LegacyPanel(leaves[i].id, leaves[i].kind, leaves[i].title.GetOr("Row")))
  }

  /** The two variants see the same panels: the legacy list is the services
      list with the link slots dropped. */
  lemma LegacyPanelsAgree(raw: seq<RawPanel>, count: nat)
    ensures |LegacyPanels(raw)| == |PanelsOf(raw, count)|
    ensures forall i | 0 <= i < |LegacyPanels(raw)| ::
              var p := PanelsOf(raw, count)[i];
              LegacyPanels(raw)[i] == LegacyPanel(p.id, p.kind, p.title)
  {
  }

  /** What the legacy `download_charts` leaves behind. */
  datatype LegacyDownload = LegacyDownload(uid: string, url: string, panels: seq<LegacyPanel>)

  /** The legacy `download_charts`: the dashboard is resolved by exact title,
      its panels are fetched, and nothing else happens (the chart loop is
      commented out). */
  function LegacyDownloadCharts(searchStatus: int, hits: seq<SearchHit>, dashTitle: string,
                                panelStatus: int, raw: seq<RawPanel>): (r: Result<LegacyDownload>)
    ensures ResolveDashboard(searchStatus, hits, dashTitle).Failure? ==>
              r == Failure(ResolveDashboard(searchStatus, hits, dashTitle).error)
    ensures ResolveDashboard(searchStatus, hits, dashTitle).Success? ==>
              (r.Success? <==> panelStatus == 200)
    ensures ResolveDashboard(searchStatus, hits, dashTitle).Success? && panelStatus != 200 ==>
              r.error.ConnectionError?
    ensures r.Success? ==>
              && (r.value.uid, r.value.url) == ResolveDashboard(searchStatus, hits, dashTitle).value
              && r.value.panels == LegacyPanels(raw)
  {
    var found :- ResolveDashboard(searchStatus, hits, dashTitle);
    if panelStatus != 200 then Failure(ConnectionError("dashboard details"))
    else Success(LegacyDownload(found.0, found.1, LegacyPanels(raw)))
  }

  /** The legacy `GrafanaConfig` fields the report reads. */
  datatype LegacyConfig = LegacyConfig(name: string, dashTitle: string, panels: seq<LegacyPanel>)

  // ---------------------------------------------------------------------------
  // One chart (`download_chart`)

  /** What the outside world answers one chart task: the status of the
      render call in render mode; in browser mode whether `self.browser` is
      set, the fragments `get_panel_data_sources` finds (None when that GET
      raised) and the two screenshot attempts. */
  datatype LegacyWorld = LegacyWorld(renderStatus: int, hasBrowser: bool, sources: Option<seq<string>>,
                                     first: Capture.Attempt, second: Capture.Attempt)

  /** The render request sent (URL and params), if any, and the file written. */
  datatype LegacyChartWrite = LegacyChartWrite(request: Option<(string, Urls.Params)>, file: Option<string>)

  /** `os.path.join(self.charts_path, f'{name}__{panel_id}__{id_time}.png')`. */
  function LegacyChartPath(name: string, chartsPath: string, p: LegacyPanel, t: LegacyTime): string {
    Join(chartsPath, Urls.ChartFileName(name, p.id, t.id))
  }

  /** The root-level `download_chart`. Render mode sends `build_panel_url`'s
      params unchanged (`viewPanel` included) to
      `<host>/render/d-solo/<uid>/<dashboard url>` and writes the file iff
      the answer is 200. Browser mode hands the same params to
      `take_screenshot`; without a browser the `AttributeError` is caught
      inside both attempts and nothing is written. */
  function LegacyDownloadChart(c: Urls.LinkSettings, render: bool, uid: string, dashUrl: string,
                               name: string, chartsPath: string, encode: Urls.Params -> string,
                               p: LegacyPanel, t: LegacyTime, w: LegacyWorld): (r: LegacyChartWrite)
    ensures render ==>
              r.request == Some((Urls.LegacyRenderUrl(c.host, uid, dashUrl), Urls.PanelParams(c, p.id, t.start, t.end)))
    ensures render ==> Urls.Lookup(r.request.value.1, "viewPanel") == Some(IntToString(p.id))
    ensures render ==> (r.file.Some? <==> w.renderStatus == 200)
    ensures !render ==> r.request.None?
    ensures !render ==>
              (r.file.Some? <==>
                 w.hasBrowser && w.sources.Some?
                 && Capture.BrowserTask(Urls.WithQuery(c.host + dashUrl, encode, Urls.PanelParams(c, p.id, t.start, t.end)),
                                        w.sources.value, w.first, w.second).fileWritten)
    ensures r.file.Some? ==> r.file.value == LegacyChartPath(name, chartsPath, p, t)
  {
    var params := Urls.PanelParams(c, p.id, t.start, t.end);
    var path := LegacyChartPath(name, chartsPath, p, t);
    if render then
      Urls.PanelParamsIds(c, p.id, t.start, t.end);
      LegacyChartWrite(Some((Urls.LegacyRenderUrl(c.host, uid, dashUrl), params)),
                       if w.renderStatus == 200 then Some(path) else None)
    else
      var finalUrl := Urls.WithQuery(c.host + dashUrl, encode, params);
      var written := w.hasBrowser && w.sources.Some?
                     && Capture.LegacyScreenshotWrites(finalUrl, w.sources.value, w.first, w.second);
      LegacyChartWrite(None, if written then Some(path) else None)
  }

  /** The two render requests differ in `viewPanel`: the root-level one
      keeps it, the services one deletes it before adding the size and
      timeout; every other key of the panel params reaches both. */
  lemma LegacyRenderKeepsViewPanel(c: Urls.LinkSettings, uid: string, dashUrl: string, name: string,
                                   chartsPath: string, encode: Urls.Params -> string,
                                   p: LegacyPanel, t: LegacyTime, w: LegacyWorld, k: string)
    requires k != "viewPanel" && k != "width" && k != "height" && k != "timeout"
    ensures var legacy := LegacyDownloadChart(c, true, uid, dashUrl, name, chartsPath, encode, p, t, w).request.value.1;
      var services := Urls.RenderParams(c, Urls.PanelParams(c, p.id, t.start, t.end));
      && Urls.Lookup(legacy, "viewPanel") == Some(IntToString(p.id))
      && services.Success?
      && Urls.Lookup(services.value, "viewPanel").None?
      && Urls.Lookup(services.value, k) == Urls.Lookup(legacy, k)
  {
    var ps := Urls.PanelParams(c, p.id, t.start, t.end);
    Urls.PanelParamsShape(c, p.id, t.start, t.end);
    Urls.PanelParamsIds(c, p.id, t.start, t.end);
    Urls.RenderParamsContents(c, ps, k);
  }
}

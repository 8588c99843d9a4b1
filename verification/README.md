# GrafConflux core, modelled in Dafny

GrafConflux captures Grafana dashboards as PNG charts for one or more time
windows and publishes them on a Confluence page. This project models the
decision logic of that tool as pure Dafny functions and proves properties
about it:

- **Windows and arguments.** Parsing a time window given on the command line
  (`[<tag>__]&from=<digits>&to=<digits>`): its tag, its instants, and the
  millisecond rule for human-readable times. Validating the command line, with
  the exceptions in the order the code raises them (`TimeArgs`).
- **Dashboards and panels.** Resolving a dashboard by exact title, flattening
  the nested panel tree, and building fresh `Panel`s with one empty link slot
  per window (`Dashboard`).
- **Links and file names.** The query parameters of panel, dashboard and render
  links, modelled as an insertion-ordered dict. Also the render URL and the
  chart file name `<name>__<panel_id>__<id_time>.png` (`Urls`).
- **Authentication.** Choosing between disabled, domain, login/password and
  token authentication (`Auth`).
- **Capture.** The `is_200` scan and the readiness predicate of the
  network-wait loop. Also the fullscreen-then-plain screenshot fallback, the
  render branch, and the panel-major task order over panels and windows
  (`Capture`, `Order`).
- **Manifests.** The per-dashboard manifest written after capture and loaded
  back for a later upload. Also the listing of `.yaml` manifests in an upload
  folder (`Manifest`).
- **The multi-run merge.** The `transform_grafana_configs` fold over upload
  folders and manifests (`Merge`):
  - shared Python objects are modelled as references into a heap of loaded
    manifests, so aliasing through `extend`, `append` and `+=` is explicit;
  - dashboard and snapshot links are concatenated;
  - timestamp ids are shifted;
  - panel links of later runs are appended to the first run's panels;
  - chart files are renamed by their trailing timestamp id.
- **The upload path.** Loading every manifest of every upload folder and
  merging only when more than one folder is given (`Upload`).
- **The Confluence page.** The page content built from the captured
  dashboards, for both the `services/` generator and the older root-level one,
  and the `%%%graphs%%%` placeholder substitution (`Report`).
- **The root-level variant.** Only where it differs from `services/`: no
  human-readable times or zone, panels without links, a download step that
  stops after resolving panels, and a per-chart `download_chart` that sends
  the panel parameters to the render endpoint unchanged (`Legacy`).

Python exceptions are values of a `Result` type (`Wrappers`). Calls into code
that is not modelled become parameters:

- the clock: `now`;
- HTML escaping: `esc`;
- URL encoding: `encode`;
- time-zone formatting: `format`;
- the YAML a path holds: `docs`;
- the file system: `Fs`;
- browser request logs: `Request`.

Acquisition writes link slots from worker threads. Each task writes only its
own `(panel, window)` slot, so `Capture.Acquire` models the tasks as run one
after another, and `Capture.DownloadAll` runs `Capture.DownloadChart` as each
task.

## Model

| member | source | states |
|---|---|---|
| Wrappers.MapResult | main.py:81-85 | Building a list where each element may raise succeeds exactly when every element succeeds; the result holds each element's value in order; on failure the error is that of the first failing element, all earlier ones having succeeded |
| Wrappers.FlatMapResult | main.py:77-85 | The nested loading loop succeeds exactly when every folder loads, holds exactly the items of all folders, and on failure raises the first folder's exception, all earlier folders having loaded |
| Wrappers.FlatMapResultAppend | main.py:77-85 | The loop keeps folder order: over a concatenation of folder lists it yields the first list's items followed by the second's |
| Wrappers.FlatMapResultSingle | main.py:77-85 | Over one folder, the loop yields exactly that folder's result |
| Text.HeadBefore | services/args_parser.py:35-37 | `s.split(sep)[0]`: when `sep` occurs, the result followed by `sep` is a prefix of `s` and `sep` occurs nowhere earlier; otherwise the result is `s` itself |
| Text.ReplaceUnique | main.py:163-164 | `str.replace` on a string with exactly one occurrence of the pattern rewrites that occurrence and keeps the text before and after it |
| Text.ReplaceAbsent | main.py:163-164 | `str.replace` leaves a string without the pattern unchanged |
| Text.ReplaceAll | main.py:163-164 | `str.replace`, scanning left to right; replacing a pattern by one of the same length keeps the length |
| Text.NormalizeIsPointwise | main.py:114-122 | The two chained `replace` calls of the folder match turn every `\` and `/` into `_` and keep every other character and the length |
| Text.DigitsValueOfNatToString | services/args_parser.py:44-45 | `int(str(n)) == n` for every non-negative n |
| Text.NatToStringOfDigitsValue | main.py:160-164 | `str(int(s)) == s` for a digit string exactly when it has no leading zero (or is "0"), so a zero-padded id is not found again by the rename |
| Text.IntToStringInjective | services/grafana.py:401 | Distinct integers print as distinct strings, and equal ones as equal strings |
| Text.NatToStringLength | services/args_parser.py:47-55 | `len(str(n)) <= k` exactly when `n < 10**k`, which turns the "more than ten digits" test into a numeric bound |
| Text.Join | main.py:180 | `os.path.join` of two components: an absolute second part replaces the first; otherwise the result starts with the first part and ends with the second, with one `/` added between them exactly when the first part is non-empty and does not end in `/` |
| Text.PyIndex | services/confluence.py:80 | Python list indexing accepts exactly the indices from `-len` to `len-1`, and a negative index counts from the end |
| TimeArgs.TimeTag | services/args_parser.py:35-37 | The tag is absent exactly when the window contains no `__`; otherwise it is the text before the first `__` |
| TimeArgs.FirstMarked | services/args_parser.py:44-45 | The leftmost match of `marker\d+` at or after a position: it is a match, no earlier position matches, and None means no position matches at all |
| TimeArgs.DigitRun | services/args_parser.py:44-45 | The greedy `\d+` run: every character of the run is a digit and the character after it is not |
| TimeArgs.HumanSeconds | services/args_parser.py:47-55 | A raw instant of more than ten decimal digits is read as milliseconds and divided by 1000; any other is read as seconds |
| TimeArgs.ParseTimestamp | services/args_parser.py:33-64 | An unknown zone raises first, then a missing `&from=` digit run, then a missing `&to=`; on success the window keeps the given id, the tag, and the first digit runs after each marker, and both human-readable times are the zone's formatting of the instant read as milliseconds when it has more than ten digits |
| TimeArgs.TagOfFormatted | services/args_parser.py:35-37 | A window written as `<tag>__&from=…&to=…` yields exactly that tag when the tag holds no `__` and does not end in `_` (so `load_test` is read back); without a tag it yields none |
| TimeArgs.TagReadsBackIff | services/args_parser.py:35-37 | Conversely, a tag holding `__` or ending in `_` is not read back: the first `__` then falls inside the tag or straddles its end |
| TimeArgs.FromOfLayout | services/args_parser.py:44 | In a window laid out as prefix, `&from=`, digits, `&to=`, digits, the start instant is the value of the first digit string |
| TimeArgs.ToOfLayout | services/args_parser.py:45 | In the same layout the end instant is the value of the second digit string |
| TimeArgs.FormatWindow | services/args_parser.py:35-45 | The window layout the parser reads, `[<tag>__]&from=<n>&to=<m>`; no contract of its own, `TimeArgs.ParseFormattedWindow` states the round trip |
| TimeArgs.ParseFormattedWindow | services/args_parser.py:33-64 | Parsing a window written in the documented format, with a tag that is read back and holds no `&`, gives back its tag, both instants, the id it was given and the formatted human times (round trip) |
| TimeArgs.ParseEach | services/args_parser.py:109-111 | Windows are numbered from the given id in argument order; parsing succeeds exactly when every window parses; the first failing window's exception is raised |
| TimeArgs.Validate | services/args_parser.py:115-129 | Login, password, config file and "some window or some upload folder" are checked in that order; it succeeds exactly when all four hold, and each failure raises the exception of the first failing check |
| TimeArgs.ParseArgs | services/args_parser.py:108-113 | Parsed windows carry ids 0..n-1 and there is one per window argument |
| TimeArgs.ParseErrorsComeFirst | services/args_parser.py:108-113 | A malformed window is reported even when the login is missing, because parsing runs before validation |
| TimeArgs.ParseArgsValid | services/args_parser.py:108-129 | With well-formed windows the arguments are accepted exactly when login, password and config file are valid, and the result is the parsed windows |
| Dashboard.NewPanel | services/grafana.py:27-35 | A new panel keeps its id, type and title and has one empty link slot per window |
| Dashboard.Flatten | services/grafana.py:370-381 | Flattening yields only leaf panels |
| Dashboard.FlattenAppend | services/grafana.py:370-381 | Flattening distributes over concatenation, so document order is kept |
| Dashboard.FlattenLength | services/grafana.py:370-381 | Flattening keeps exactly the leaves: one output element per leaf of the tree |
| Dashboard.FlattenIdempotent | services/grafana.py:370-381 | Flattening an already flat list changes nothing, so flattening twice equals flattening once |
| Dashboard.FlattenFlat | services/grafana.py:370-381 | A list without groups is its own flattening |
| Dashboard.FlattenIterative | services/grafana.py:370-381 | A work-list traversal without recursion computes the same depth-first leaves as the recursive extraction |
| Dashboard.PanelsOf | services/grafana.py:364-368 | One panel per leaf in order, keeping id and type, titled 'Row' when the leaf has no title, with one empty slot per window |
| Dashboard.GetPanels | services/grafana.py:352-368 | A non-200 dashboard fetch raises ConnectionError; otherwise the result is the fresh panels of the flattened tree (`PanelsOf`): one per leaf, in order, with its id and type, its title or 'Row', and one empty slot per window |
| Dashboard.ResolveDashboard | services/grafana.py:335-350 | A non-200 search raises ConnectionError; otherwise the result is the uid and url of the first hit whose title equals the configured title, and no such hit raises ValueError |
| Dashboard.FirstTitleMatch | services/grafana.py:346-350 | The scan succeeds exactly when some hit has the exact title, and it returns the earliest such hit |
| Manifest.Save | services/grafana.py:301-314 | The manifest records name, charts path, links, windows and panels as given; `snapshot_urls` is written exactly when the snapshot list is non-empty |
| Manifest.Rebuild | services/grafana.py:50-55 | Panels rebuilt from manifest entries keep id, type and title and get one empty link slot per window |
| Manifest.Load | services/grafana.py:46-66 | Loading checks `panels[0]`, then `snapshot_urls`, then `timestamps[0]` and raises the first failure; on success every field is kept except the panel links, which are rebuilt empty |
| Manifest.LoadAfterSave | services/grafana.py:46-66 | A saved manifest loads exactly when it has panels, windows and at least one snapshot; everything survives the round trip except the captured panel links |
| Manifest.NoSnapshotsNoReload | services/grafana.py:57-58 | A run without snapshots writes a manifest that cannot be loaded for upload: KeyError on `snapshot_urls` |
| Manifest.StoredLinksIgnored | services/grafana.py:51-55 | Two manifests that differ only in their stored panel links load identically |
| Manifest.ListDir | main.py:207 | Listing succeeds exactly for existing directories; a missing one raises FileNotFoundError |
| Manifest.YamlPaths | main.py:204-213 | A path is returned exactly when it joins the folder with a listed entry that ends in `.yaml` and is a regular file; there are at most as many as entries; `Manifest.YamlPathsAppend` states their order |
| Manifest.YamlPathsAppend | main.py:204-213 | The paths keep listing order: a concatenated listing yields the paths of each part, in order |
| Manifest.YamlPathsSingle | main.py:204-213 | One entry yields its joined path exactly when it is a regular `.yaml` file |
| Manifest.GetYamlFiles | main.py:204-213 | Fails exactly for a missing folder; otherwise yields the `.yaml` regular files of its listing |
| Order.Grid | services/grafana.py:165-171 | The nested panel/window loop submits exactly panels × windows tasks |
| Order.GridOrder | services/grafana.py:165-171 | The task for (panel i, window j) is at position `i * m + j`: panel-major order |
| Order.GridAt | services/grafana.py:165-171 | Position k of the loop order holds the pair (k / m, k % m) |
| Order.GridInjective | main.py:112-113 | No (folder, manifest) pair is visited twice by the nested merge loop |
| Order.GridFirstRow | main.py:112-113 | The visits of the first folder are exactly the first |manifests| positions, one per manifest in order |
| Urls.Put | services/grafana.py:450-455 | `dict.update` with one key: that key now maps to the value, every other key is unchanged, a new key goes to the end, an existing key keeps its position, and keys stay unique |
| Urls.Del | services/grafana.py:409 | `del d[k]` raises KeyError exactly when the key is absent; otherwise it removes only that key and the other keys keep their values |
| Urls.PutAll | services/grafana.py:453-455 | Updating with several pairs keeps existing keys in place and keeps keys unique |
| Urls.PutAllLookup | services/grafana.py:453-455 | After the updates a key maps to the last value written for it, or to its old value when no update mentions it |
| Urls.VarParams | services/grafana.py:454-455 | Each dashboard variable k becomes the parameter `var-k` with its value, in order |
| Urls.VarParamsLastValue | services/grafana.py:453-455 | The last value given for variable k is the last value of `var-k` |
| Urls.VarParamsOtherKey | services/grafana.py:453-455 | A key outside the `var-` namespace is never written by the variables |
| Urls.PutAllVarsOther | services/grafana.py:453-455 | The variables cannot overwrite orgId, panelId, viewPanel, from, to, theme or tz |
| Urls.PanelParams | services/grafana.py:436-457 | `__build_panel_url`'s params: the fixed head, `tz` when set, then the `var-` entries; it has no contract of its own, and its contents are stated by the four `Urls.PanelParams*` lemmas below |
| Urls.PanelHeadShape | services/grafana.py:440-451 | The panel parameters before variables start with orgId, panelId, viewPanel, from, to, theme, followed by tz exactly when a non-empty zone is configured |
| Urls.PanelBaseValues | services/grafana.py:441-448 | The fixed parameters hold the org id, the panel id twice, the raw window bounds and 'light' or 'dark' by the theme flag, and no tz |
| Urls.PanelHeadValues | services/grafana.py:441-451 | The tz parameter is present exactly when a non-empty zone is configured, and adding it changes no other parameter |
| Urls.PanelParamsShape | services/grafana.py:436-457 | The panel parameters are a dict (unique keys) whose first six keys are orgId, panelId, viewPanel, from, to, theme |
| Urls.PanelParamsIds | services/grafana.py:441-444 | After the variables, orgId, panelId and viewPanel still hold the org and panel id |
| Urls.PanelParamsWindow | services/grafana.py:445-451 | After the variables, from, to, theme and tz still hold the window, the theme and the zone |
| Urls.PanelParamsVars | services/grafana.py:453-455 | Each dashboard variable k appears as `var-k` with its last value |
| Urls.RenderParams | services/grafana.py:407-412 | Building the render parameters fails (KeyError) exactly when `viewPanel` is missing |
| Urls.RenderParamsContents | services/grafana.py:409-412 | The render parameters drop `viewPanel`, set width, height and timeout to the configured values, and keep every other panel parameter |
| Urls.RenderParamsOfPanel | services/grafana.py:404-409 | Deleting `viewPanel` never fails on parameters built for a panel |
| Urls.DashParams | services/grafana.py:320-329 | `__get_full_links`' params for one window; it has no contract of its own, and `Urls.DashParamsContents` states its contents |
| Urls.DashParamsContents | services/grafana.py:321-329 | Dashboard link parameters hold orgId, from and to as given and no panelId or theme, whatever the variables |
| Urls.FullLinks | services/grafana.py:316-333 | One dashboard link per window, in window order, each the dashboard URL with that window's parameters |
| Urls.PanelLink | services/grafana.py:404-405 | `final_url` is the dashboard URL, `?`, and the encoded panel parameters of that panel and window |
| Urls.RenderUrl | services/grafana.py:414 | For a dashboard path `/d<rest>` the render URL is `<host>/render/d-solo<rest>` |
| Urls.LegacyRenderUrl | grafana.py:210 | The older render URL starts with `<host>/render/d-solo/<uid>/` and ends with the whole dashboard path |
| Urls.ChartFileName | services/grafana.py:401 | A chart file name starts with the dashboard name and `__` and ends with `__<id_time>.png` |
| Urls.ChartFileNameParts | services/grafana.py:401 | The chart file name is the dashboard name, `__`, `<panel_id>__<id_time>` and `.png` |
| Urls.ChartFileNameInjective | services/grafana.py:401 | Within one dashboard, two (panel, window) pairs get the same file name exactly when they are the same pair |
| Auth.ChooseAuth | services/grafana.py:117-131 | Disabled auth does nothing; otherwise domain, then a complete login/password pair, then a token are tried in order; the login is the wiki login before `@`; and it raises ValueError exactly when none applies |
| Auth.UserHasNoAt | services/grafana.py:122 | The user derived from the wiki login contains no `@` |
| Auth.Authenticate | services/grafana.py:113-144 | Succeeds exactly when a method is chosen and, for a login POST, the POST answers 200; a non-200 POST raises ConnectionError and a failed choice raises its ValueError |
| Auth.DomainTakesPrecedence | services/grafana.py:121-123 | With domain auth on, configured credentials and token make no difference |
| Auth.TokenOnlyWithoutCredentials | services/grafana.py:124-129 | A bearer token is used only when auth is on, domain is off and no complete login/password pair is set |
| Capture.Is200 | services/grafana.py:507-510 | The `is_200` scan is true only if the log holds a request to the URL answered 200; when it raises, it is AttributeError and the log holds an unanswered request to that URL |
| Capture.Is200Answered | services/grafana.py:507-510 | When every request to the URL has a response, the scan is exactly "some request to the URL answered 200" |
| Capture.Matching | services/grafana.py:548-553 | Every request kept contains the fragment and comes from the log, and every request of the log that contains it is kept |
| Capture.MatchingAppend | services/grafana.py:548-553 | The inner comprehension keeps log order and multiplicity: a request appended to the log is appended to the matches exactly when its URL contains the fragment |
| Capture.MatchingAll | services/grafana.py:548-553 | When every request contains the fragment, the matches are the whole log, in order |
| Capture.Matched | services/grafana.py:548-553 | The collected responses come from the log, each contains some fragment, and every request containing a fragment is collected; for one fragment they are exactly its matches |
| Capture.MatchedAppend | services/grafana.py:548-553 | `responses` is fragment-major: the responses for a concatenation of fragment lists are those for the first list followed by those for the second |
| Capture.AllOk | services/grafana.py:559 | `is_all_200_ok` is true exactly when every collected response has status 200; it raises AttributeError only when one has no response |
| Capture.Ready | services/grafana.py:554-561 | One poll raises only AttributeError; when it does not raise, it is ready exactly when every request containing some fragment contains every fragment and answered 200 |
| Capture.UnansweredFirstRaises | services/grafana.py:554-559 | Log order is observable: two matching requests with the unanswered one first make the poll raise |
| Capture.RefusedFirstNotReady | services/grafana.py:554-559 | The same two requests with a refused answer first make the poll report "not ready" without raising |
| Capture.MatchedReadyIff | services/grafana.py:548-561 | The collected list is all 200 and fully downloaded exactly when every request containing any fragment contains all of them and answered 200 |
| Capture.ReadyOnLog | services/grafana.py:548-562 | With every response in, a poll is ready exactly when the log meets the condition stated on requests |
| Capture.ReadyWhenNothingMatches | services/grafana.py:548-562 | As coded, a poll in which no request contains any fragment is ready at once |
| Capture.NotReadyWithPartialMatch | services/grafana.py:554-562 | As coded, a request containing one fragment but not another keeps the poll from ever being ready |
| Capture.MatchedEmpty | services/grafana.py:548-553 | When no request contains any fragment, nothing is collected |
| Capture.Poll | services/grafana.py:547-567 | The wait ends at the first ready poll, raises at the first poll that raises, and reaches the deadline only when every poll is not ready |
| Capture.Wait | services/grafana.py:539-569 | An empty fragment list sleeps the full timeout; otherwise readiness is decided poll by poll as above |
| Capture.TryAttempt | services/grafana.py:505-517 | An attempt fails exactly when the URL was not answered 200; it captures exactly when, in addition, the wait ends without raising and the screenshot is saved |
| Capture.BrowserTask | services/grafana.py:499-537 | The file is written exactly when the fullscreen or the plain attempt captures; the plain attempt runs only when the fullscreen one does not capture; any link written is one of the two URLs |
| Capture.BrowserTaskLinkAnswered | services/grafana.py:512-531 | A link is recorded only for a URL that the corresponding log shows answering 200 |
| Capture.RenderTask | services/grafana.py:407-431 | Without a render response nothing happens; the file is written exactly when the render answered 200 and a link was recorded; fullscreen is preferred over the plain link |
| Capture.LegacyScreenshotWrites | grafana.py:278-313 | The older screenshot path writes the file in exactly the same cases as the services one |
| Capture.DownloadChart | services/grafana.py:383-434 | A task whose window has no slot in the panel's links stores nothing and writes no file (the assignment raises IndexError first); otherwise it writes into its slot only `final_url` of that panel and window or its `&fullscreen` form, and writes a file only at `<charts_path>/<name>__<panel_id>__<id_time>.png` after recording a link; in render mode it requests the render URL with the render parameters and decides as the render branch, and in browser mode it decides as the two screenshot attempts, writing nothing without a browser or when the data-source fetch raises |
| Capture.Acquire | services/grafana.py:162-173 | After all tasks, panels keep id, type, title and slot count, and each slot (i, j) holds what task (i, j) wrote, or its old value if the task wrote nothing |
| Capture.DownloadAll | services/grafana.py:162-173 | Running `__download_chart` for every panel and window: each slot (i, j) holds what that task wrote or its old value; for fresh panels every filled slot holds panel i's link for window j, plain or fullscreen; the files written are exactly those the tasks wrote, each at the chart path of a panel and window that has a slot |
| Capture.AcquireFresh | services/grafana.py:27-35 | For freshly built panels, every slot after acquisition holds exactly what its own task wrote (None when it wrote nothing) |
| Capture.DataSourceUrls | services/grafana.py:584-588 | A data-source URL is kept exactly when the source has one; none is invented; a single source yields its URL or nothing |
| Capture.DataSourceUrlsAppend | services/grafana.py:584-588 | The comprehension keeps the data sources' order: filtering a concatenation concatenates the filtered parts |
| Merge.Matches | main.py:114-122 | The folder test: the normalised folder occurs in the normalised charts path; no contract of its own, `Text.NormalizeIsPointwise` states the normalisation |
| Merge.MatchesSeparatorBlind | main.py:114-122 | Charts paths that agree once `\`, `/` and `_` are read alike match exactly the same folders |
| Merge.Refs | main.py:138-139 | Extending with a manifest's list adds references to its items 0..n-1 in order, sharing the objects |
| Merge.FirstRoot | main.py:141-145 | The inner search finds the first merged panel with the same id, or none when no merged panel has it |
| Merge.ExtendLinks | main.py:144 | `root_panel.links.extend(panel.links)` appends the incoming links to the root panel (doubling them when both are the same object) and changes no other panel |
| Merge.ExtendPanels | main.py:141-145 | The panel loop of a later folder changes only panel links: names, paths, lists and all timestamps are unchanged |
| Merge.BumpIds | main.py:147-149 | Every timestamp of the visited manifest has its id raised by the offset; no other manifest changes |
| Merge.DigitsBefore | main.py:160 | The digit run ending at a position is all digits and is maximal to the left |
| Merge.Renamed | main.py:160-164 | Renaming a later run's chart raises AttributeError exactly when the name has no trailing `__<digits>.png` |
| Merge.DestName | main.py:157-164 | Charts of the first folder keep their name; later folders' charts are renamed |
| Merge.CopyLoop | main.py:154-169 | The copy loop fails exactly when some entry cannot be named; it makes at most one copy per entry and copies only regular files |
| Merge.CopyLoopContents | main.py:154-169 | After a successful loop every entry was named, and the copies are exactly the (source, destination) pairs of the entries that are regular files |
| Merge.CopyCharts | main.py:151-169 | Copying the first folder's charts never fails; a later folder's copy fails exactly when some entry lacks the `__<digits>.png` suffix; otherwise the copies are exactly the regular files under their merged names |
| Merge.Shifted | main.py:141-149 | A later folder's visit appends panel links and shifts that manifest's timestamp ids by the name's counter; other manifests' timestamps are untouched |
| Merge.Absorb | main.py:125-149 | Everything a matched visit does before copying: only the visited name's entry changes; the first folder leaves the manifests untouched; and every reference stays valid |
| Merge.ChartCopies | main.py:151-169 | A missing chart folder raises FileNotFoundError; otherwise the copies are those of its listing |
| Merge.Visit | main.py:114-171 | A manifest outside the folder leaves the state unchanged; a matched one succeeds exactly when its charts copy, advances its name's counter by its timestamp count, and leaves other names alone |
| Merge.Advance | main.py:171 | `timestamps_count[name] += n`: only that name's counter moves, by n, and the copies made are appended |
| Merge.VisitEffect | main.py:127-171 | A matched manifest of a name appends its snapshot links, dashboard links and timestamps and advances the counter; panels are appended only from the first folder; other names are untouched |
| Merge.VisitLinks | main.py:134-135 | A visit appends the manifest's dashboard links to its name's list exactly when it matches |
| Merge.VisitSnapshots | main.py:134 | A visit appends the manifest's snapshot links to its name's list exactly when it matches |
| Merge.VisitStamps | main.py:137-149 | A matched visit adds references to all its timestamps and advances the counter by their number |
| Merge.VisitOther | main.py:125-171 | A visit leaves every other name's entry unchanged |
| Merge.VisitNames | main.py:125-132 | The names after a visit are the old ones, plus the visited manifest's name when it matches |
| Merge.VisitShiftsIds | main.py:147-149 | A matched visit from a later folder shifts that manifest's ids by the count before the visit; from the first folder it shifts nothing |
| Merge.Run | main.py:112-171 | The fold over visits keeps every merged reference valid and never changes a manifest's name, charts path, dashboard or snapshot links, or list lengths |
| Merge.RunFullLinks | main.py:112-135 | The fold appends to a name's dashboard links exactly those of every matched manifest of that name, in visit order |
| Merge.RunSnapshots | main.py:112-134 | The fold appends to a name's snapshot links exactly those of every matched manifest of that name, in visit order |
| Merge.RunCounts | main.py:112-171 | The fold advances a name's counter and timestamp list by the timestamps of every matched manifest of that name, and its panel list by those matched from the first folder |
| Merge.VisitKeepsSequential | main.py:147-149 | A visit keeps every name's timestamps numbered 0, 1, 2, ..., provided the visited manifest was not merged before |
| Merge.RunKeepsNumbering | main.py:112-171 | When no manifest is merged twice, the fold keeps every name's timestamps numbered 0, 1, 2, ... |
| Merge.Start | main.py:104-110 | The merge starts with no names, no copies, and every loaded manifest in the heap |
| Merge.Visits | main.py:112-113 | The visits are (folder, manifest) pairs in folder-major order, all in range |
| Merge.GridVisitsDistinct | main.py:112-113 | When each manifest is matched by one folder at most, no two matched visits concern the same manifest |
| Merge.GridFirstFolderNames | main.py:112-113 | When the first folder matches at most one manifest per name, no first-folder visit repeats an earlier matched name |
| Merge.MergedIdsSequential | main.py:112-171 | From manifests numbered from zero, each matched by one folder at most and with distinct names in the first folder, every merged name's timestamps are numbered 0, 1, 2, ... |
| Merge.Adopt | main.py:175-183 | Building the merged uploader raises IndexError exactly when the name has no panels or no timestamps; otherwise it holds the merged lists and the charts path under the new root |
| Merge.Consolidate | main.py:173-183 | The loop over merged names fails (IndexError) exactly when some name fails; otherwise there is one uploader per merged name |
| Merge.MergedDoc | main.py:185-190 | The manifest written for a merged name carries every field of the merged uploader and always `snapshot_urls` |
| Merge.MergedReloads | main.py:185-190 | A merged manifest can be loaded back, with the same name, charts path, windows and snapshots, and rebuilt empty panel links |
| Merge.JsonPairs | main.py:193-199 | The `.json` regular files directly in an upload folder are copied to the new root under their own names, and nothing else is |
| Merge.JsonCopies | main.py:192-199 | The final loop fails exactly when some upload folder is missing; otherwise its copies are the `.json` files of all folders; `Merge.JsonCopiesAppend` states their order |
| Merge.JsonCopiesAppend | main.py:192-199 | The copies are made folder by folder in the given order, so a later folder's same-named `.json` is copied after an earlier one's |
| Merge.JsonCopiesSingle | main.py:192-199 | One existing folder contributes exactly its own `.json` copies |
| Merge.NewRoot | main.py:100-101 | The merged folder's name ends with `<test_id>__<time>` |
| Merge.Transform | main.py:99-201 | A successful merge is the fold from the start state, then consolidation of every name, then the JSON copies; the copies are the chart copies followed by the JSON copies |
| Merge.TransformEntry | main.py:173-183 | Each merged uploader has its own name, its charts under the new root, and the lists collected for its name by the fold |
| Merge.TransformLinks | main.py:134-183 | A merged uploader's dashboard links are those of every matched manifest of its name, in visit order |
| Merge.TransformSnapshots | main.py:134-183 | A merged uploader's snapshot links are those of every matched manifest of its name, in visit order |
| Merge.TransformCounts | main.py:137-183 | A merged uploader has as many timestamps as all matched manifests of its name together, and as many panels as those matched by the first folder |
| Merge.TransformIds | main.py:137-171 | Without a manifest matched twice or a repeated name in the first folder, each merged uploader's timestamp ids are 0, 1, 2, ... |
| Merge.TrailingId | main.py:160 | The number `__(\d+)\.png$` captures; no contract of its own, the `Merge.TrailingId*` lemmas state what it finds |
| Merge.TrailingIdDigits | main.py:160 | The pattern `__(\d+)\.png$` finds the digit string between a `__`-terminated prefix and `.png` |
| Merge.TrailingIdAfter | main.py:160-162 | The number matched after a `__`-terminated prefix is the printed timestamp id |
| Merge.TrailingIdOfChart | main.py:160-162 | Every chart file this tool writes yields its own timestamp id to the rename pattern |
| Merge.RenumberSuffix | main.py:163-164 | On a chart file name, the rename's `replace` rewrites only the trailing `__<id>.png` |
| Merge.RenameChart | main.py:160-164 | A later run's chart for window t is copied under the name of window t + offset: same dashboard, same panel |
| Merge.RenamedFound | main.py:160-164 | When the pattern finds id n, the new name replaces `__<n>.png` by `__<n + offset>.png` |
| Upload.LoadFolder | main.py:79-85 | A folder loads exactly when it exists and every manifest in it loads; one uploader per manifest, in listing order |
| Upload.LoadAll | main.py:77-85 | All folders load exactly when each does, and the loaded uploaders are those of all folders together |
| Upload.LoadAllAppend | main.py:77-85 | Folder order is kept: loading a concatenation of folder lists yields the first list's uploaders followed by the second's |
| Upload.LoadAllSingle | main.py:77-85 | Loading a single folder is loading that folder's manifests in listing order |
| Upload.PrepareUpload | main.py:77-90 | A load failure is raised; with at most one folder the loaded dashboards are uploaded as they are; with several, the merge of them is uploaded |
| Upload.ChartDirs | main.py:92-93 | The directories whose files are attached, one `charts_path` per uploaded dashboard; no contract of its own, `Upload.MergedChartsUnderRoot` and `Upload.SingleFolderInPlace` state them |
| Upload.MergedChartsUnderRoot | main.py:87-93 | With several folders, the uploaded chart directories are exactly `os.path.join(new root, name)`, one per merged name; by `Text.Join` that is under the new root unless the name is absolute |
| Upload.SingleFolderInPlace | main.py:87-93 | With one folder, every uploaded chart directory is the charts path recorded in one of its manifests |
| Upload.FirstWindows | main.py:95-96 | The page windows are the first dashboard's; with no dashboard loaded this raises IndexError |
| Upload.FirstWindowsOfFirstFolder | main.py:77-85 | The first loaded dashboard's windows are those of the first manifest listed in the first upload folder, whatever the other folders hold |
| Upload.SingleFolderPageWindows | main.py:77-96 | With one upload folder nothing is merged, and the page's windows are those of that folder's first listed manifest |
| Upload.EmptyFolderHasNoWindows | main.py:77-96 | A single upload folder without manifests loads nothing and the page step raises IndexError |
| Legacy.ParseLegacyTime | args_parser.py:7-16 | The older window parser raises IndexError on a missing `&from=` or `&to=` digit run and otherwise succeeds |
| Legacy.Strip | args_parser.py:7-16 | The fields the older window class shares with the services one; no contract of its own, used by the agreement lemmas |
| Legacy.LegacyTimeAgrees | args_parser.py:7-16 | Given a known zone, the older and services window parsers accept the same windows, raise the same exceptions, and read the same tag, id and instants |
| Legacy.LegacyParseArgs | args_parser.py:50-70 | The older arguments yield one window per argument, ids 0..n-1, and are accepted only with login, password, config file and at least one window |
| Legacy.ParseEachAgrees | args_parser.py:50-52 | Element by element, the older window list is the services list without human-readable times, and one parses exactly when the other does |
| Legacy.LegacyArgsAgree | args_parser.py:50-70 | Without upload folders, the older and services arguments are accepted in the same cases and give the same windows |
| Legacy.LegacyNeedsWindows | args_parser.py:69-70 | The older tool rejects an empty window list even when everything else is valid |
| Legacy.LegacyPanels | grafana.py:154-170 | One older panel per leaf of the panel tree, titled 'Row' when untitled |
| Legacy.LegacyPanelsAgree | grafana.py:166-168 | The older and services variants see the same panels, apart from the link slots |
| Legacy.LegacyDownloadCharts | grafana.py:104-117 | The older download resolves the dashboard, fails with ConnectionError on a non-200 panel fetch, and otherwise records uid, url and panels without capturing anything |
| Legacy.LegacyDownloadChart | grafana.py:199-222 | The older `download_chart`: in render mode it requests `<host>/render/d-solo/<uid>/<dashboard url>` with the panel parameters unchanged, `viewPanel` included, and writes `<charts_path>/<name>__<panel_id>__<id_time>.png` exactly on status 200; in browser mode it sends nothing and writes that file exactly when a browser is set, the data sources were fetched and the two screenshot attempts capture |
| Legacy.LegacyRenderKeepsViewPanel | grafana.py:206-212 | The older render request keeps `viewPanel` while the services one (services/grafana.py:407-415) deletes it; every other panel parameter reaches both unchanged |
| Report.Index | services/confluence.py:80 | List indexing succeeds exactly for Python-valid indices and raises IndexError otherwise |
| Report.PanelLink | services/confluence.py:103 | Escaping a panel's link for a window raises IndexError for an id outside the slots and AttributeError for an empty slot; otherwise it uses that slot's link |
| Report.DashPeriod | services/confluence.py:73-78 | The period of a dashboard line; no contract of its own, `Report.PeriodsAgree` and `Report.SingleWindowLabels` state its cases |
| Report.PanelText | services/confluence.py:94-100 | The text of a panel entry; no contract of its own, `Report.PeriodsAgree`, `Report.SingleWindowLabels` and `Report.UntaggedLabelsDistinct` state its cases |
| Report.DashLineOf | services/confluence.py:71-81 | A dashboard line links to the window's dashboard link and reads title, period and both human-readable times |
| Report.EntryOf | services/confluence.py:94-105 | A panel entry fails exactly when its link does; otherwise it links to the escaped panel link and shows the chart file for that panel and window |
| Report.PanelSectionOf | services/confluence.py:87-108 | A panel section has one entry per window, in window order, and fails exactly when some window's link does |
| Report.DashSectionOf | services/confluence.py:66-111 | A dashboard section holds one line per window and one section per panel, and fails exactly when some line or panel does |
| Report.RenderPage | services/confluence.py:67-111 | The storage-format text of the services page tree; no contract of its own, `Report.RenderPageAppend` states its order |
| Report.RenderPageAppend | services/confluence.py:67-111 | The dashboards are written one after another: rendering a concatenation of sections concatenates their texts |
| Report.RenderLegacyPage | confluence.py:58-82 | The text of the older page tree; no contract of its own, `Report.RenderLegacyPageAppend` states its order |
| Report.RenderLegacyPageAppend | confluence.py:58-82 | The same holds for the older layout |
| Report.ServicesPage | services/confluence.py:67-111 | The page succeeds exactly when every dashboard's section does, with one section per dashboard in order |
| Report.ImagesAreCharts | services/confluence.py:102-105 | Every image on the page is the escaped `<name>__<panel_id>__<id_time>.png` of that dashboard, panel and window |
| Report.ImagesShowWrittenCharts | services/confluence.py:102-105 | The image of a panel at a window is the escaped base name of the file that the capture task for that panel and window wrote into the dashboard's charts directory |
| Report.ImagesDistinct | services/confluence.py:102-105 | With an injective escape, two entries of one dashboard show the same image only when they are for the same panel id and window id |
| Report.ReloadedConfigCannotReport | services/confluence.py:103 | A dashboard loaded back from a manifest has only empty link slots, so the services page raises for it |
| Report.ServicesUpdate | services/confluence.py:113-121 | The title is kept; without the placeholder, the body becomes the generated content |
| Report.OnePlaceholder | services/confluence.py:113-115 | In a body with one `%%%graphs%%%`, the content replaces it and everything around it is kept |
| Report.ServicesReport | services/confluence.py:59-121 | The services update succeeds exactly when the page content does, and writes the rendered content into the page |
| Report.AttachmentLink | confluence.py:77 | An older attachment link ends with `/<image name>` |
| Report.LegacyPanelSection | confluence.py:63-82 | An older panel section is titled with the raw panel title and has one entry per window, in order |
| Report.LegacyPageOf | confluence.py:58-82 | The older page has one section per dashboard, titled with the raw dashboard title, with no dashboard lines, and it cannot fail |
| Report.LegacyUpdate | confluence.py:84-89 | The older update keeps the title and replaces the whole body |
| Report.LegacyLinksShowImage | confluence.py:76-79 | In the older page, each entry links to the attachment it shows, which is that panel's chart for that window |
| Report.PeriodsAgree | services/confluence.py:73-97 | With several windows, the two generators label a window alike: its tag, or `Test <id+1>` |
| Report.SingleWindowLabels | services/confluence.py:76-100 | With a single window, the services entry is labelled only with its row title, and the dashboard line with the tag or nothing |
| Report.UntaggedLabelsDistinct | services/confluence.py:73-75 | With several untagged windows, distinct ids get distinct labels |

## Left out

- Network, browser and file I/O: HTTP sessions, Selenium, sleeps, clocks, thread pools, `os.makedirs`, `open`/`write` and `shutil.copy2`. Copies are modelled as (source, destination) pairs, browser logs as inputs, the clock as the string `now`, and the thread pool as sequential tasks writing disjoint slots.
- YAML text and `convert_to_dict`: a manifest is the record the dump and load carry. Null YAML values and manifests of the wrong shape are not modelled.
- `html.escape`, `urlencode`, the pytz zone lookup and `strftime` are abstract function parameters. Only the zone lookup's failure (an unknown zone) is modelled.
- Python's `\d` also matches non-ASCII digits; the model reads ASCII digits only.
- `take_snapshot` (the Share/Snapshot UI automation, services/grafana.py:187-290) is left out: it only drives the browser. Its outcome is the snapshot list `Manifest.Save` receives.
- `__get_panel_data_sources`: fetching the page and parsing `window.grafanaBootData` are left out; only its final filter (`Capture.DataSourceUrls`) is modelled.
- `__init_browser` and browser reuse per thread are left out. Whether a task has a browser is an input of `Capture.DownloadChart`; without one the task writes nothing.
- `load_grafana_config` and `GrafanaConfigDownloader` defaults: dashboard settings are the `LinkSettings` and `AuthSettings` records.
- `upload_charts` and `__upload_attachment`: `os.walk` and attachment upload are I/O. `Upload.ChartDirs` gives the directories they walk.
- `main`, `process_grafana_dashboard` and the exception handler that logs and exits are left out. The model returns each exception as a value instead.
- The Confluence call paths as wired:
  - services/confluence.py imports `GrafanaTime` and `GrafanaConfig`, which the services modules do not define;
  - main.py calls `update_page_content` with four arguments, but it takes three;
  - main.py calls `upload_charts` with two arguments, but it takes one.

  The page generators are modelled as functions of the values they would receive.
- Upload.FirstWindowsOfFirstFolder: speaks of the loaded list, which is the page's source only with one folder (`Upload.SingleFolderPageWindows`). With several folders main.py:87-88 rebinds the list to the merged one, whose first entry depends on the unspecified `set_names` order.
- TimeArgs.HumanSeconds: the instant is an exact `real`, so float rounding of the division is not modelled, and the zone formatting is an abstract total function, so `datetime.fromtimestamp` raising on an out-of-range instant is not modelled.
- Merge.Transform: the order of `set_names` is unspecified, so the merged uploaders are a map by name, and the page windows after a merge (`grafana_configs[0].timestamps`) are not modelled.
- Merge.RenameChart: requires that the dashboard name not contain ".png". For other names `replace` also rewrites earlier occurrences; `Merge.RenamedFound` covers every name.
- Merge.TransformIds: proved only when no manifest is matched by two folders and the first folder has at most one manifest per name. Otherwise ids may repeat, as the code does not prevent it.
- Text.Join: models `posixpath.join` only. On Windows `os.path.join` also treats `\` and drive letters as separators, which the model does not; the merge's `\`-to-`_` normalisation (`Merge.Matches`) is modelled separately.
- Capture.Wait: an empty poll sequence is read as a deadline passed before the first poll. The source always polls once before it checks the clock, and that first poll can raise; the model expects the caller to supply at least that poll.
- Capture.Ready: when a poll raises, the contract says it is AttributeError but does not name the unanswered request; `Capture.AllOk` states that for the collected list.
- Files copied before a merge step raises are not modelled: a failure carries only the exception.
- Legacy.LegacyDownloadCharts: the older `GrafanaConfig.panels` default of None is not modelled, and neither is the commented-out capture loop; one chart of that loop is `Legacy.LegacyDownloadChart`.
- Legacy.LegacyDownloadChart: a render call that raises is not modelled (nothing catches it there), and the render status is an input.
- Upload.MergedChartsUnderRoot: a dashboard name starting with `/` makes `os.path.join` return the name itself, so that directory is not under the merged root; the lemma states the joined path, which covers that case.
- Capture.TryAttempt: `saved` false stands for a `save_screenshot` that raised. Selenium's `save_screenshot` also returns False on an OSError without raising, after which the source keeps the link and does not try the plain URL; the model treats that outcome as a raise.
- The root-level `download_panel_charts`, `init_browser` and Chrome options are left out (browser set-up).

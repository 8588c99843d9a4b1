/** Chart capture decisions (services/grafana.py:162-171, 383-434, 499-569,
    584-588; grafana.py:199-222, 278-345). The browser's request log is an
    input: a sequence of requests, each with the status of its response, or
    no response yet. Sleeps and wall-clock deadlines become a finite
    sequence of log snapshots, one per poll. */
module Capture {
  import opened Wrappers
  import opened Text
  import opened TimeArgs
  import opened Dashboard
  import Urls

  /** A request seen by the browser; `status` is None while no response has
      arrived (`request.response is None`). */
  datatype Request = Request(url: string, status: Option<int>)

  // ---------------------------------------------------------------------------
  // `any(request.url == url and request.response.status_code == 200 ...)`

  /** The `is_200` scan: requests are visited in order; a request with the
      exact URL and no response raises AttributeError, a request with the
      exact URL and status 200 ends the scan with True. */
  function Is200(log: seq<Request>, url: string): (r: Result<bool>)
    decreases |log|
    ensures r == Success(true) ==> exists i | 0 <= i < |log| :: log[i].url == url && log[i].status == Some(200)
    ensures r.Failure? ==>
              r.error.AttributeError? && exists i | 0 <= i < |log| :: log[i].url == url && log[i].status.None?
  {
    if |log| == 0 then Success(false)
    else if log[0].url != url then Is200(log[1..], url)
    else if log[0].status.None? then Failure(AttributeError("'NoneType' object has no attribute 'status_code'"))
    else if log[0].status.value == 200 then Success(true)
    else Is200(log[1..], url)
  }

  /** When every request to the URL has a response, the scan is exactly
      "some request to that URL answered 200". */
  lemma {:induction false} Is200Answered(log: seq<Request>, url: string)
    requires forall i | 0 <= i < |log| :: log[i].url == url ==> log[i].status.Some?
    ensures Is200(log, url) == Success(exists i | 0 <= i < |log| :: log[i].url == url && log[i].status == Some(200))
    decreases |log|
  {
    if |log| > 0 {
      Is200Answered(log[1..], url);
      if log[0].url == url && log[0].status == Some(200) {
      } else {
        assert (exists i | 0 <= i < |log| :: log[i].url == url && log[i].status == Some(200))
           <==> (exists i | 0 <= i < |log[1..]| :: log[1..][i].url == url && log[1..][i].status == Some(200)) by {
          if exists i | 0 <= i < |log| :: log[i].url == url && log[i].status == Some(200) {
            var i :| 0 <= i < |log| && log[i].url == url && log[i].status == Some(200);
            assert i > 0 && log[1..][i - 1] == log[i];
          }
        }
      }
    }
  }

  // ---------------------------------------------------------------------------
  // The readiness predicate of `__wait_for_network_request`

  /** The requests whose URL contains the fragment, in log order. */
  function Matching(log: seq<Request>, part: string): (r: seq<Request>)
    decreases |log|
    ensures |r| <= |log|
    ensures forall k | 0 <= k < |r| :: r[k] in log && Contains(r[k].url, part)
    ensures forall k | 0 <= k < |log| :: Contains(log[k].url, part) ==> log[k] in r
  {
    if |log| == 0 then []
    else if Contains(log[0].url, part) then [log[0]] + Matching(log[1..], part)
    else Matching(log[1..], part)
  }

  /** `responses`: fragment-major, one entry per (fragment, request) pair
      whose URL contains the fragment. */
  function Matched(parts: seq<string>, log: seq<Request>): (r: seq<Request>)
    decreases |parts|
    ensures forall k | 0 <= k < |r| :: r[k] in log
    ensures forall k | 0 <= k < |r| :: exists i | 0 <= i < |parts| :: Contains(r[k].url, parts[i])
    ensures forall i, k | 0 <= i < |parts| && 0 <= k < |log| :: Contains(log[k].url, parts[i]) ==> log[k] in r
    ensures |parts| == 1 ==> r == Matching(log, parts[0])
  {
    if |parts| == 0 then []
    else
      var head := Matching(log, parts[0]);
      var rest := Matched(parts[1..], log);
      var r := head + rest;
      assert forall k | 0 <= k < |r| :: r[k] in log && exists i | 0 <= i < |parts| :: Contains(r[k].url, parts[i]) by {
        forall k | 0 <= k < |r|
          ensures r[k] in log && exists i | 0 <= i < |parts| :: Contains(r[k].url, parts[i])
        {
          if k < |head| {
            assert r[k] == head[k];
            assert Contains(r[k].url, parts[0]);
          } else {
            assert r[k] == rest[k - |head|];
            var i :| 0 <= i < |parts[1..]| && Contains(rest[k - |head|].url, parts[1..][i]);
            assert Contains(r[k].url, parts[i + 1]);
          }
        }
      }
      assert forall i, k | 0 <= i < |parts| && 0 <= k < |log| :: Contains(log[k].url, parts[i]) ==> log[k] in r by {
        forall i, k | 0 <= i < |parts| && 0 <= k < |log| && Contains(log[k].url, parts[i])
          ensures log[k] in r
        {
          if i == 0 {
            assert log[k] in head;
          } else {
            assert parts[1..][i - 1] == parts[i];
            assert log[k] in rest;
          }
        }
      }
      r
  }

  /** The filter keeps log order and multiplicity: a request appended to
      the log is appended to the matches exactly when it contains the
      fragment. */
  lemma {:induction false} MatchingAppend(log: seq<Request>, q: Request, part: string)
    ensures Matching(log + [q], part) == Matching(log, part) + (if Contains(q.url, part) then [q] else [])
    decreases |log|
  {
    if |log| == 0 {
      assert log + [q] == [q];
      assert [q][1..] == [];
    } else {
      assert (log + [q])[0] == log[0];
      assert (log + [q])[1..] == log[1..] + [q];
      MatchingAppend(log[1..], q, part);
    }
  }

  /** `responses` is fragment-major: the matches for a list of fragments
      are the matches for its first part followed by those for the rest. */
  lemma {:induction false} MatchedAppend(ps: seq<string>, qs: seq<string>, log: seq<Request>)
    ensures Matched(ps + qs, log) == Matched(ps, log) + Matched(qs, log)
    decreases |ps|
  {
    if |ps| == 0 {
      assert ps + qs == qs;
    } else {
      assert (ps + qs)[0] == ps[0];
      assert (ps + qs)[1..] == ps[1..] + qs;
      MatchedAppend(ps[1..], qs, log);
    }
  }

  /** Order is observable: two requests to one data source, the first
      still unanswered, make a poll raise... */
  lemma UnansweredFirstRaises(part: string, p: Request, q: Request)
    requires Contains(p.url, part) && Contains(q.url, part)
    requires p.status.None?
    ensures Ready([part], [p, q]).Failure?
  {
    MatchingAll([p, q], part);
    assert Matched([part], [p, q]) == [p, q];
    assert AllOk([p, q]).Failure?;
  }

  /** ... while the same two requests in the other order, the answered one
      refused, make it report "not ready" without raising. */
  lemma RefusedFirstNotReady(part: string, p: Request, q: Request)
    requires Contains(p.url, part) && Contains(q.url, part)
    requires q.status.Some? && q.status.value != 200
    ensures Ready([part], [q, p]) == Success(false)
  {
    MatchingAll([q, p], part);
    assert Matched([part], [q, p]) == [q, p];
    assert AllOk([q, p]) == Success(false);
  }

  /** When every request contains the fragment, all of them match. */
  lemma {:induction false} MatchingAll(log: seq<Request>, part: string)
    requires forall k | 0 <= k < |log| :: Contains(log[k].url, part)
    ensures Matching(log, part) == log
    decreases |log|
  {
    if |log| > 0 {
      MatchingAll(log[1..], part);
      assert [log[0]] + log[1..] == log;
    }
  }

  /** `is_all_download`: every matched URL contains every fragment. */
  predicate AllDownloaded(parts: seq<string>, matched: seq<Request>) {
    forall k, i | 0 <= k < |matched| && 0 <= i < |parts| :: Contains(matched[k].url, parts[i])
  }

  /** `is_all_200_ok`: `all` stops at the first response that is not 200; a
      missing response met before that raises AttributeError. */
  function AllOk(matched: seq<Request>): (r: Result<bool>)
    decreases |matched|
    ensures r == Success(true) <==> forall k | 0 <= k < |matched| :: matched[k].status == Some(200)
    ensures r.Failure? ==> r.error.AttributeError? && exists k | 0 <= k < |matched| :: matched[k].status.None?
  {
    if |matched| == 0 then Success(true)
    else if matched[0].status.None? then Failure(AttributeError("'NoneType' object has no attribute 'status_code'"))
    else if matched[0].status.value != 200 then Success(false)
    else
      var rest := AllOk(matched[1..]);
      assert (forall k | 0 <= k < |matched| :: matched[k].status == Some(200))
         <==> (forall k | 0 <= k < |matched[1..]| :: matched[1..][k].status == Some(200)) by {
        if forall k | 0 <= k < |matched[1..]| :: matched[1..][k].status == Some(200) {
          forall k | 0 <= k < |matched|
            ensures matched[k].status == Some(200)
          {
            if k > 0 {
              assert matched[k] == matched[1..][k - 1];
            }
          }
        }
      }
      rest
  }

  /** One poll of the wait loop: ready when all matched requests are
      downloaded and answered 200 (`is_all_200_ok and is_all_download`). */
  function Ready(parts: seq<string>, log: seq<Request>): (r: Result<bool>)
    ensures r.Failure? ==> r.error.AttributeError?
    ensures r.Success? ==> (r.value <==> ReadyOnRequests(parts, log))
  {
    var matched := Matched(parts, log);
    MatchedReadyIff(parts, log);
    var ok :- AllOk(matched);
    Success(ok && AllDownloaded(parts, matched))
  }

  /** The readiness condition stated on the log itself: every request
      that contains SOME fragment contains EVERY fragment and answered 200. */
  predicate ReadyOnRequests(parts: seq<string>, log: seq<Request>) {
    forall k | 0 <= k < |log| && (exists i | 0 <= i < |parts| :: Contains(log[k].url, parts[i])) ::
      (forall i | 0 <= i < |parts| :: Contains(log[k].url, parts[i])) && log[k].status == Some(200)
  }

  /** The matched list is all answered 200 and fully downloaded exactly when
      the log meets the readiness condition. */
  lemma MatchedReadyIff(parts: seq<string>, log: seq<Request>)
    ensures var matched := Matched(parts, log);
      (forall k | 0 <= k < |matched| :: matched[k].status == Some(200)) && AllDownloaded(parts, matched)
      <==> ReadyOnRequests(parts, log)
  {
    var matched := Matched(parts, log);
    if (forall k | 0 <= k < |matched| :: matched[k].status == Some(200)) && AllDownloaded(parts, matched) {
      forall k | 0 <= k < |log| && (exists i | 0 <= i < |parts| :: Contains(log[k].url, parts[i]))
        ensures (forall i | 0 <= i < |parts| :: Contains(log[k].url, parts[i])) && log[k].status == Some(200)
      {
        var i :| 0 <= i < |parts| && Contains(log[k].url, parts[i]);
        assert log[k] in matched;
      }
    }
    if ReadyOnRequests(parts, log) {
      forall k | 0 <= k < |matched|
        ensures matched[k].status == Some(200) && forall i | 0 <= i < |parts| :: Contains(matched[k].url, parts[i])
      {
        var m := matched[k];
        assert m in log;
      }
    }
  }

  /** With every response in, a poll is ready iff the log meets the
      readiness condition. */
  lemma ReadyOnLog(parts: seq<string>, log: seq<Request>)
    requires forall k | 0 <= k < |log| :: log[k].status.Some?
    ensures Ready(parts, log) == Success(ReadyOnRequests(parts, log))
  {
    var matched := Matched(parts, log);
    assert forall k | 0 <= k < |matched| :: matched[k].status.Some? by {
      forall k | 0 <= k < |matched|
        ensures matched[k].status.Some?
      {
        var m := matched[k];
        assert m in log;
      }
    }
    var all := AllOk(matched);
    assert all.Success?;
    assert all.value <==> all == Success(true);
    assert Ready(parts, log) == Success(all.value && AllDownloaded(parts, matched));
    MatchedReadyIff(parts, log);
  }

  /** As coded, a poll in which no request contains any fragment is ready. */
  lemma ReadyWhenNothingMatches(parts: seq<string>, log: seq<Request>)
    requires forall k, i | 0 <= k < |log| && 0 <= i < |parts| :: !Contains(log[k].url, parts[i])
    ensures Ready(parts, log) == Success(true)
  {
    MatchedEmpty(parts, log);
  }

  lemma {:induction false} MatchingEmpty(log: seq<Request>, part: string)
    requires forall k | 0 <= k < |log| :: !Contains(log[k].url, part)
    ensures Matching(log, part) == []
    decreases |log|
  {
    if |log| > 0 {
      MatchingEmpty(log[1..], part);
    }
  }

  lemma {:induction false} MatchedEmpty(parts: seq<string>, log: seq<Request>)
    requires forall k, i | 0 <= k < |log| && 0 <= i < |parts| :: !Contains(log[k].url, parts[i])
    ensures Matched(parts, log) == []
    decreases |parts|
  {
    if |parts| > 0 {
      MatchingEmpty(log, parts[0]);
      MatchedEmpty(parts[1..], log);
    }
  }

  /** As coded, a request carrying only one of two fragments keeps the poll
      from ever being ready, even when it answered 200. */
  lemma NotReadyWithPartialMatch(parts: seq<string>, log: seq<Request>, k: nat, a: nat, b: nat)
    requires k < |log| && a < |parts| && b < |parts|
    requires Contains(log[k].url, parts[a]) && !Contains(log[k].url, parts[b])
    ensures Ready(parts, log) != Success(true)
  {
    var matched := Matched(parts, log);
    assert log[k] in matched;
    var m :| 0 <= m < |matched| && matched[m] == log[k];
    assert !Contains(matched[m].url, parts[b]);
    assert !AllDownloaded(parts, matched);
    var all := AllOk(matched);
    assert all.Success? ==> Ready(parts, log) == Success(false);
  }

  // ---------------------------------------------------------------------------
  // Polling

  datatype WaitOutcome =
    | FullTimeout       // no fragments: sleep for the whole timeout
    | ReadyAt(poll: nat)
    | Deadline          // every poll before the deadline was not ready

  /** The first poll that is ready, or an error, or the deadline. */
  function Poll(ready: seq<Request> -> Result<bool>, polls: seq<seq<Request>>, from: nat): (r: Result<WaitOutcome>)
    requires from <= |polls|
    requires forall j | 0 <= j < from :: ready(polls[j]) == Success(false)
    decreases |polls| - from
    ensures r.Success? ==> r.value.ReadyAt? || r.value.Deadline?
    ensures r.Success? && r.value.ReadyAt? ==>
              from <= r.value.poll < |polls| && ready(polls[r.value.poll]) == Success(true)
              && forall j | 0 <= j < r.value.poll :: ready(polls[j]) == Success(false)
    ensures r == Success(Deadline) ==> forall j | 0 <= j < |polls| :: ready(polls[j]) == Success(false)
    ensures r.Failure? ==> exists j | from <= j < |polls| :: ready(polls[j]).Failure?
  {
    if from == |polls| then Success(Deadline)
    else
      match ready(polls[from])
      case Failure(e) => Failure(e)
      case Success(true) => Success(ReadyAt(from))
      case Success(false) => Poll(ready, polls, from + 1)
  }

  /** `__wait_for_network_request` (and the root-level
      `wait_for_network_request`) over the polls made before the deadline. */
  function Wait(parts: seq<string>, polls: seq<seq<Request>>): (r: Result<WaitOutcome>)
    ensures |parts| == 0 <==> r == Success(FullTimeout)
    ensures r.Success? && r.value.ReadyAt? ==>
              r.value.poll < |polls| && Ready(parts, polls[r.value.poll]) == Success(true)
              && forall j | 0 <= j < r.value.poll :: Ready(parts, polls[j]) == Success(false)
    ensures r == Success(Deadline) ==> forall j | 0 <= j < |polls| :: Ready(parts, polls[j]) == Success(false)
    ensures r.Failure? ==> exists j | 0 <= j < |polls| :: Ready(parts, polls[j]).Failure?
  {
    if |parts| == 0 then Success(FullTimeout) else Poll(log => Ready(parts, log), polls, 0)
  }

  // ---------------------------------------------------------------------------
  // One screenshot attempt and the two-step fallback

  /** What the browser shows for one attempt: the request log after loading
      the page, the polls of the wait, and whether `save_screenshot` worked. */
  datatype Attempt = Attempt(log: seq<Request>, polls: seq<seq<Request>>, saved: bool)

  datatype AttemptResult =
    | Failed            // no 200 for the URL (or the scan raised): link untouched
    | LinkedButFailed   // link written, then the wait raised or saving failed
    | Captured          // link written and screenshot saved

  /** One `try` block of `__take_screenshot`. A deadline does not fail the
      attempt: the screenshot is taken anyway. */
  function TryAttempt(url: string, parts: seq<string>, a: Attempt): (r: AttemptResult)
    ensures r != Failed <==> Is200(a.log, url) == Success(true)
    ensures r == Captured <==> Is200(a.log, url) == Success(true) && Wait(parts, a.polls).Success? && a.saved
  {
    match Is200(a.log, url)
    case Failure(_) => Failed
    case Success(false) => Failed
    case Success(true) =>
      if Wait(parts, a.polls).Success? && a.saved then Captured else LinkedButFailed
  }

  /** What a capture task leaves behind: the last value it wrote into its
      link slot (None if it wrote nothing) and whether the chart file was
      written. */
  datatype TaskOutcome = TaskOutcome(link: Option<string>, fileWritten: bool)

  /** `__take_screenshot`: the fullscreen URL first, the plain URL second. */
  function BrowserTask(finalUrl: string, parts: seq<string>, first: Attempt, second: Attempt): (r: TaskOutcome)
    ensures r.fileWritten <==>
              TryAttempt(finalUrl + "&fullscreen", parts, first) == Captured
              || TryAttempt(finalUrl, parts, second) == Captured
    ensures TryAttempt(finalUrl + "&fullscreen", parts, first) == Captured ==>
              r.link == Some(finalUrl + "&fullscreen")
    ensures TryAttempt(finalUrl + "&fullscreen", parts, first) != Captured ==>
              if TryAttempt(finalUrl, parts, second) != Failed then r.link == Some(finalUrl)
              else if TryAttempt(finalUrl + "&fullscreen", parts, first) == LinkedButFailed then r.link == Some(finalUrl + "&fullscreen")
              else r.link.None?
    ensures r.link.Some? ==> r.link.value in {finalUrl, finalUrl + "&fullscreen"}
  {
    var fs := finalUrl + "&fullscreen";
    var a1 := TryAttempt(fs, parts, first);
    if a1 == Captured then TaskOutcome(Some(fs), true)
    else
      var a2 := TryAttempt(finalUrl, parts, second);
      if a2 == Captured then TaskOutcome(Some(finalUrl), true)
      else if a2 == LinkedButFailed then TaskOutcome(Some(finalUrl), false)
      else if a1 == LinkedButFailed then TaskOutcome(Some(fs), false)
      else TaskOutcome(None, false)
  }

  /** A link is written only for a URL the log shows answering 200. */
  lemma BrowserTaskLinkAnswered(finalUrl: string, parts: seq<string>, first: Attempt, second: Attempt)
    ensures var r := BrowserTask(finalUrl, parts, first, second);
      r.link.Some? ==>
        (r.link.value == finalUrl + "&fullscreen" && Is200(first.log, r.link.value) == Success(true))
        || (r.link.value == finalUrl && Is200(second.log, r.link.value) == Success(true))
  {
  }

  /** The render branch of `__download_chart`. `renderStatus` is the status
      of the render call (None when it raised, ending the task);
      `fullscreenOk`/`plainOk` say whether the plain GETs returned without
      raising; a raise in the plain GET ends the task before the file is
      written. */
  function RenderTask(finalUrl: string, renderStatus: Option<int>, fullscreenOk: bool, plainOk: bool): (r: TaskOutcome)
    ensures renderStatus.None? ==> r == TaskOutcome(None, false)
    ensures renderStatus.Some? && fullscreenOk ==> r.link == Some(finalUrl + "&fullscreen")
    ensures renderStatus.Some? && !fullscreenOk && plainOk ==> r.link == Some(finalUrl)
    ensures r.fileWritten <==> renderStatus == Some(200) && (fullscreenOk || plainOk)
    ensures !r.fileWritten && r.link.Some? ==> renderStatus.Some? && renderStatus.value != 200
  {
    if renderStatus.None? then TaskOutcome(None, false)
    else if fullscreenOk then TaskOutcome(Some(finalUrl + "&fullscreen"), renderStatus.value == 200)
    else if plainOk then TaskOutcome(Some(finalUrl), renderStatus.value == 200)
    else TaskOutcome(None, false)
  }

  /** The root-level `take_screenshot` runs the same two attempts without
      recording links; it writes the file in exactly the cases the services
      version does. */
  function LegacyScreenshotWrites(finalUrl: string, parts: seq<string>, first: Attempt, second: Attempt): (written: bool)
    ensures written == BrowserTask(finalUrl, parts, first, second).fileWritten
  {
    TryAttempt(finalUrl + "&fullscreen", parts, first) == Captured
    || TryAttempt(finalUrl, parts, second) == Captured
  }

  // ---------------------------------------------------------------------------
  // One task: `__download_chart`

  /** What the code reads for every task of one dashboard: its link
      settings, the render flag, its name, the charts directory and the
      dashboard path found by `get_dashboard_uid`. */
  datatype Target = Target(c: Urls.LinkSettings, render: bool, name: string, chartsPath: string, dashUrl: string)

  /** What the outside world answers one task. Render mode: the status of
      the render call (None when it raised) and whether each plain GET
      returned. Browser mode: whether the thread has or can start a
      browser, the fragments `__get_panel_data_sources` finds (None when
      that GET raised) and the two attempts. */
  datatype TaskWorld = TaskWorld(
    renderStatus: Option<int>, fullscreenOk: bool, plainOk: bool,
    hasBrowser: bool, sources: Option<seq<string>>, first: Attempt, second: Attempt)

  /** What one task leaves behind: the render request it made (render mode
      only), the last value it wrote into its link slot and the path of the
      chart file it wrote. */
  datatype ChartWrite = ChartWrite(request: Option<(string, Urls.Params)>, link: Option<string>, file: Option<string>)

  /** The file a task writes: `os.path.join(charts_path, file_name)`. */
  function ChartPath(g: Target, p: Panel, t: Timestamp): string {
    Join(g.chartsPath, Urls.ChartFileName(g.name, p.id, t.id))
  }

  /** The slot `panel.links[timestamp.id_time]` exists. */
  predicate HasSlot(p: Panel, t: Timestamp) {
    PyIndex(|p.links|, t.id).Some?
  }

  /** `__download_chart` for one panel and one timestamp. Without a slot for
      the window, the link assignment raises IndexError: in render mode after
      the render call and before the file is opened (the `except` branch
      raises again), in browser mode inside both attempts, before the
      screenshot. Either way nothing is stored and no file is written. */
  function DownloadChart(g: Target, encode: Urls.Params -> string, p: Panel, t: Timestamp, w: TaskWorld): (r: ChartWrite)
    ensures r.link.Some? ==>
              || r.link.value == Urls.PanelLink(g.c, g.dashUrl, encode, p.id, t)
              || r.link.value == Urls.Fullscreen(Urls.PanelLink(g.c, g.dashUrl, encode, p.id, t))
    ensures r.file.Some? ==> r.file.value == ChartPath(g, p, t) && r.link.Some?
    ensures !HasSlot(p, t) ==> r.link.None? && r.file.None?
    ensures g.render ==>
              && r.request.Some? && r.request.value.0 == Urls.RenderUrl(g.c.host, g.dashUrl)
              && Urls.RenderParams(g.c, Urls.PanelParams(g.c, p.id, t.start, t.end)) == Success(r.request.value.1)
    ensures g.render && HasSlot(p, t) ==>
              var o := RenderTask(Urls.PanelLink(g.c, g.dashUrl, encode, p.id, t), w.renderStatus, w.fullscreenOk, w.plainOk);
              && r.link == o.link
              && (r.file.Some? <==> o.fileWritten)
    ensures !g.render ==> r.request.None?
    ensures !g.render && !(w.hasBrowser && w.sources.Some?) ==> r.link.None? && r.file.None?
    ensures !g.render && HasSlot(p, t) && w.hasBrowser && w.sources.Some? ==>
              var o := BrowserTask(Urls.PanelLink(g.c, g.dashUrl, encode, p.id, t), w.sources.value, w.first, w.second);
              && r.link == o.link
              && (r.file.Some? <==> o.fileWritten)
  {
    var finalUrl := Urls.PanelLink(g.c, g.dashUrl, encode, p.id, t);
    var path := ChartPath(g, p, t);
    if g.render then
      Urls.RenderParamsOfPanel(g.c, p.id, t.start, t.end);
      var ps := Urls.RenderParams(g.c, Urls.PanelParams(g.c, p.id, t.start, t.end)).value;
      var o := RenderTask(finalUrl, w.renderStatus, w.fullscreenOk, w.plainOk);
      if !HasSlot(p, t) then ChartWrite(Some((Urls.RenderUrl(g.c.host, g.dashUrl), ps)), None, None)
      else ChartWrite(Some((Urls.RenderUrl(g.c.host, g.dashUrl), ps)), o.link, if o.fileWritten then Some(path) else None)
    else if !w.hasBrowser || w.sources.None? || !HasSlot(p, t) then ChartWrite(None, None, None)
    else
      var o := BrowserTask(finalUrl, w.sources.value, w.first, w.second);
      ChartWrite(None, o.link, if o.fileWritten then Some(path) else None)
  }

  // ---------------------------------------------------------------------------
  // The links the tasks fill (tasks are submitted in `Order.Grid` order)

  /** The slot a write lands in: the value written, or the old value when
      the task wrote nothing. */
  function Overwrite(old_: Option<string>, written: Option<string>): Option<string> {
    if written.Some? then written else old_
  }

  /** Timestamps numbered by position, and every panel sized to them. */
  predicate Aligned(panels: seq<Panel>, ts: seq<Timestamp>) {
    && (forall j | 0 <= j < |ts| :: ts[j].id == j)
    && (forall i | 0 <= i < |panels| :: |panels[i].links| == |ts|)
  }

  /** Running every task in panel-major order, each writing only
      `panel.links[timestamp.id_time]`. `written(i, j)` is what task (i, j)
      wrote (None: nothing). An id outside the list raises IndexError in
      the worker, which the executor swallows: nothing is written. */
  method Acquire(panels: seq<Panel>, ts: seq<Timestamp>, written: (nat, nat) -> Option<string>)
    returns (out: seq<Panel>)
    ensures |out| == |panels|
    ensures forall i | 0 <= i < |panels| ::
              && out[i].id == panels[i].id && out[i].kind == panels[i].kind
              && out[i].title == panels[i].title
              && |out[i].links| == |panels[i].links|
    ensures Aligned(panels, ts) ==>
              forall i, j | 0 <= i < |panels| && 0 <= j < |ts| ::
                out[i].links[j] == Overwrite(panels[i].links[j], written(i, j))
  {
    out := panels;
    var i := 0;
    while i < |panels|
      invariant 0 <= i <= |panels|
      invariant |out| == |panels|
      invariant forall k | 0 <= k < |panels| ::
                  && out[k].id == panels[k].id && out[k].kind == panels[k].kind
                  && out[k].title == panels[k].title
                  && |out[k].links| == |panels[k].links|
      invariant forall k | i <= k < |panels| :: out[k] == panels[k]
      invariant Aligned(panels, ts) ==>
                  forall k, j | 0 <= k < i && 0 <= j < |ts| ::
                    out[k].links[j] == Overwrite(panels[k].links[j], written(k, j))
    {
      var j := 0;
      while j < |ts|
        invariant 0 <= j <= |ts|
        invariant |out| == |panels|
        invariant forall k | 0 <= k < |panels| ::
                    && out[k].id == panels[k].id && out[k].kind == panels[k].kind
                    && out[k].title == panels[k].title
                    && |out[k].links| == |panels[k].links|
        invariant forall k | i < k < |panels| :: out[k] == panels[k]
        invariant Aligned(panels, ts) ==>
                    forall k, s | 0 <= k < i && 0 <= s < |ts| ::
                      out[k].links[s] == Overwrite(panels[k].links[s], written(k, s))
        invariant Aligned(panels, ts) ==>
                    && (forall s | 0 <= s < j :: out[i].links[s] == Overwrite(panels[i].links[s], written(i, s)))
                    && (forall s | j <= s < |ts| :: out[i].links[s] == panels[i].links[s])
      {
        var slot := PyIndex(|out[i].links|, ts[j].id);
        var w := written(i, j);
        if slot.Some? && w.Some? {
          var p := out[i];
          out := out[i := p.(links := p.links[slot.value := w])];
        }
        j := j + 1;
      }
      i := i + 1;
    }
  }

  /** Task (i, j) of the grid: panel i at timestamp j. */
  function TaskWrite(g: Target, encode: Urls.Params -> string, panels: seq<Panel>, ts: seq<Timestamp>,
                     world: (nat, nat) -> TaskWorld, i: nat, j: nat): ChartWrite
  {
    if i < |panels| && j < |ts| then DownloadChart(g, encode, panels[i], ts[j], world(i, j))
    else ChartWrite(None, None, None)
  }

  /** Every slot of a freshly built panel is empty. */
  predicate Fresh(panels: seq<Panel>) {
    forall k | 0 <= k < |panels| :: forall s | 0 <= s < |panels[k].links| :: panels[k].links[s].None?
  }

  /** The task loop of `download_charts`: one `__download_chart` per (panel,
      timestamp) pair, `world(i, j)` being what the outside world answers
      task (i, j). Each slot ends up holding its own panel's link for its
      own window, plain or fullscreen; every file written is that of some
      panel and window. */
  method DownloadAll(g: Target, encode: Urls.Params -> string, panels: seq<Panel>, ts: seq<Timestamp>,
                     world: (nat, nat) -> TaskWorld)
    returns (out: seq<Panel>, files: set<string>)
    ensures |out| == |panels|
    ensures forall i | 0 <= i < |panels| ::
              && out[i].id == panels[i].id && out[i].kind == panels[i].kind
              && out[i].title == panels[i].title
              && |out[i].links| == |panels[i].links|
    ensures Aligned(panels, ts) ==>
              forall i, j | 0 <= i < |panels| && 0 <= j < |ts| ::
                out[i].links[j] == Overwrite(panels[i].links[j], TaskWrite(g, encode, panels, ts, world, i, j).link)
    ensures Aligned(panels, ts) && Fresh(panels) ==>
              forall i, j | 0 <= i < |panels| && 0 <= j < |ts| && out[i].links[j].Some? ::
                || out[i].links[j].value == Urls.PanelLink(g.c, g.dashUrl, encode, panels[i].id, ts[j])
                || out[i].links[j].value == Urls.Fullscreen(Urls.PanelLink(g.c, g.dashUrl, encode, panels[i].id, ts[j]))
    ensures forall f :: f in files <==>
              exists i, j | 0 <= i < |panels| && 0 <= j < |ts| :: TaskWrite(g, encode, panels, ts, world, i, j).file == Some(f)
    ensures forall i, j | 0 <= i < |panels| && 0 <= j < |ts| && TaskWrite(g, encode, panels, ts, world, i, j).file.Some? ::
              ChartPath(g, panels[i], ts[j]) in files
    ensures forall f | f in files :: exists i, j | 0 <= i < |panels| && 0 <= j < |ts| ::
              HasSlot(panels[i], ts[j]) && f == ChartPath(g, panels[i], ts[j])
  {
    var written := (i: nat, j: nat) => TaskWrite(g, encode, panels, ts, world, i, j).link;
    out := Acquire(panels, ts, written);
    files := set i: nat, j: nat | i < |panels| && j < |ts| && TaskWrite(g, encode, panels, ts, world, i, j).file.Some?
               :: TaskWrite(g, encode, panels, ts, world, i, j).file.value;
    if Aligned(panels, ts) && Fresh(panels) {
      forall i, j | 0 <= i < |panels| && 0 <= j < |ts| && out[i].links[j].Some?
        ensures || out[i].links[j].value == Urls.PanelLink(g.c, g.dashUrl, encode, panels[i].id, ts[j])
                || out[i].links[j].value == Urls.Fullscreen(Urls.PanelLink(g.c, g.dashUrl, encode, panels[i].id, ts[j]))
      {
        assert out[i].links[j] == Overwrite(panels[i].links[j], written(i, j));
        assert panels[i].links[j].None?;
      }
    }
  }

  /** Acquisition into freshly built panels: every slot holds exactly what
      its task wrote, and the slot stays None when the task wrote nothing. */
  lemma AcquireFresh(panels: seq<Panel>, ts: seq<Timestamp>, written: (nat, nat) -> Option<string>, out: seq<Panel>, i: nat, j: nat)
    requires Aligned(panels, ts)
    requires forall k | 0 <= k < |panels| :: forall s | 0 <= s < |ts| :: panels[k].links[s].None?
    requires |out| == |panels| && i < |panels| && j < |ts| && |out[i].links| == |ts|
    requires out[i].links[j] == Overwrite(panels[i].links[j], written(i, j))
    ensures out[i].links[j] == written(i, j)
  {
  }

  // ---------------------------------------------------------------------------
  // Data sources

  /** The final filter of `__get_panel_data_sources`: the `url` of each
      data source that has one, in order. */
  function DataSourceUrls(sources: seq<Option<string>>): (r: seq<string>)
    decreases |sources|
    ensures |r| <= |sources|
    ensures forall u :: u in r <==> Some(u) in sources
    ensures |sources| == 1 ==> r == (if sources[0].Some? then [sources[0].value] else [])
  {
    if |sources| == 0 then []
    else
      var rest := DataSourceUrls(sources[1..]);
      assert forall u :: Some(u) in sources <==> sources[0] == Some(u) || Some(u) in sources[1..] by {
        assert sources == [sources[0]] + sources[1..];
      }
      if sources[0].Some? then [sources[0].value] + rest else rest
  }

  /** The comprehension keeps the data sources' order: filtering a
      concatenation concatenates the filtered parts. */
  lemma {:induction false} DataSourceUrlsAppend(a: seq<Option<string>>, b: seq<Option<string>>)
    ensures DataSourceUrls(a + b) == DataSourceUrls(a) + DataSourceUrls(b)
    decreases |a|
  {
    if |a| == 0 {
      assert a + b == b;
    } else {
      assert (a + b)[0] == a[0];
      assert (a + b)[1..] == a[1..] + b;
      DataSourceUrlsAppend(a[1..], b);
    }
  }
}

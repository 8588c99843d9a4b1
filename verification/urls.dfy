/** Query parameters, panel and dashboard links, render URLs and chart file
    names (services/grafana.py:316-333, 401-457; grafana.py:203-245).
    A Python dict of query parameters is an ordered list of key/value pairs
    with dict semantics: updating a present key keeps its position.
    `urlencode` is an abstract function `encode` supplied by the caller. */
module Urls {
  import opened Wrappers
  import opened Text
  import opened TimeArgs

  type Params = seq<(string, string)>

  /** The value stored under `k`, if any (the first entry with that key). */
  function Lookup(ps: Params, k: string): Option<string>
    decreases |ps|
  {
    if |ps| == 0 then None
    else if ps[0].0 == k then Some(ps[0].1)
    else Lookup(ps[1..], k)
  }

  /** Keys in insertion order. */
  function Keys(ps: Params): seq<string> {
    seq(|ps|, i requires 0 <= i < |ps| => ps[i].0)
  }

  /** The dict invariant: no key occurs twice. */
  predicate UniqueKeys(ps: Params) {
    forall i, j | 0 <= i < j < |ps| :: ps[i].0 != ps[j].0
  }

  /** `d[k] = v` / `d.update({k: v})`. */
  function Put(ps: Params, k: string, v: string): (r: Params)
    decreases |ps|
    ensures Lookup(r, k) == Some(v)
    ensures forall k2 | k2 != k :: Lookup(r, k2) == Lookup(ps, k2)
    ensures Lookup(ps, k).None? ==> r == ps + [(k, v)]
    ensures Lookup(ps, k).Some? ==> |r| == |ps|
    ensures forall i | 0 <= i < |ps| :: r[i].0 == ps[i].0
    ensures UniqueKeys(ps) ==> UniqueKeys(r)
  {
    if |ps| == 0 then [(k, v)]
    else if ps[0].0 == k then [(k, v)] + ps[1..]
    else
      var rest := Put(ps[1..], k, v);
      [ps[0]] + rest
  }

  /** `del d[k]`: KeyError when the key is absent. */
  function Del(ps: Params, k: string): (r: Result<Params>)
    decreases |ps|
    ensures r.Failure? <==> Lookup(ps, k).None?
    ensures r.Failure? ==> r.error == KeyError(k)
    ensures r.Success? ==> forall j | 0 <= j < |r.value| :: r.value[j] in ps
    ensures r.Success? && UniqueKeys(ps) ==>
              && Lookup(r.value, k).None?
              && (forall k2 | k2 != k :: Lookup(r.value, k2) == Lookup(ps, k2))
              && UniqueKeys(r.value)
              && |r.value| == |ps| - 1
  {
    if |ps| == 0 then Failure(KeyError(k))
    else if ps[0].0 == k then
      assert UniqueKeys(ps) ==> Lookup(ps[1..], k).None? by {
        if UniqueKeys(ps) {
          LookupAbsent(ps[1..], k);
        }
      }
      Success(ps[1..])
    else
      var rest :- Del(ps[1..], k);
      assert ([ps[0]] + rest)[1..] == rest;
      Success([ps[0]] + rest)
  }

  lemma LookupAbsent(ps: Params, k: string)
    requires forall i | 0 <= i < |ps| :: ps[i].0 != k
    ensures Lookup(ps, k).None?
  {
  }

  /** Updates with each pair in turn, as a `for key, value in d.items()`
      loop over `params.update` does. */
  function PutAll(ps: Params, kvs: Params): (r: Params)
    decreases |kvs|
    ensures |r| >= |ps|
    ensures forall i | 0 <= i < |ps| :: i < |r| && r[i].0 == ps[i].0
    ensures UniqueKeys(ps) ==> UniqueKeys(r)
  {
    if |kvs| == 0 then ps else PutAll(Put(ps, kvs[0].0, kvs[0].1), kvs[1..])
  }

  /** The value a sequence of updates leaves for `k`: the last one wins. */
  function LastValue(kvs: Params, k: string): Option<string>
    decreases |kvs|
  {
    if |kvs| == 0 then None
    else
      match LastValue(kvs[1..], k)
      case Some(v) => Some(v)
      case None => if kvs[0].0 == k then Some(kvs[0].1) else None
  }

  lemma {:induction false} PutAllLookup(ps: Params, kvs: Params, k: string)
    ensures Lookup(PutAll(ps, kvs), k) == (if LastValue(kvs, k).Some? then LastValue(kvs, k) else Lookup(ps, k))
    decreases |kvs|
  {
    if |kvs| > 0 {
      PutAllLookup(Put(ps, kvs[0].0, kvs[0].1), kvs[1..], k);
    }
  }

  /** `f'var-{key}'` for each dashboard variable. */
  function VarParams(vars: Params): (r: Params)
    ensures |r| == |vars|
    ensures forall i | 0 <= i < |r| :: r[i] == ("var-" + vars[i].0, vars[i].1)
  {
    seq(|vars|, i requires 0 <= i < |vars| => ("var-" + vars[i].0, vars[i].1))
  }

  lemma {:induction false} VarParamsLastValue(vars: Params, k: string)
    ensures LastValue(VarParams(vars), "var-" + k) == LastValue(vars, k)
    decreases |vars|
  {
    if |vars| > 0 {
      assert VarParams(vars)[1..] == VarParams(vars[1..]);
      VarParamsLastValue(vars[1..], k);
      assert ("var-" + vars[0].0 == "var-" + k) <==> vars[0].0 == k by {
        if "var-" + vars[0].0 == "var-" + k {
          assert vars[0].0 == ("var-" + vars[0].0)[4..];
        }
      }
    }
  }

  /** A key outside the `var-` namespace is never set by the variables. */
  lemma {:induction false} VarParamsOtherKey(vars: Params, k: string)
    requires !StartsWith(k, "var-")
    ensures LastValue(VarParams(vars), k).None?
    decreases |vars|
  {
    if |vars| > 0 {
      assert VarParams(vars)[1..] == VarParams(vars[1..]);
      VarParamsOtherKey(vars[1..], k);
      assert StartsWith("var-" + vars[0].0, "var-");
    }
  }

  /** The variables leave every key outside the `var-` namespace alone. */
  lemma PutAllVarsOther(ps: Params, vars: Params, k: string)
    requires |k| < 4 || k[3] != '-'
    ensures Lookup(PutAll(ps, VarParams(vars)), k) == Lookup(ps, k)
  {
    assert !StartsWith(k, "var-") by {
      if |k| >= 4 {
        assert k[..4][3] != "var-"[3];
      }
    }
    VarParamsOtherKey(vars, k);
    PutAllLookup(ps, VarParams(vars), k);
  }

  /** The settings of a dashboard entry that shape its links. */
  datatype LinkSettings = LinkSettings(
    host: string,
    orgId: int,
    whiteTheme: bool,
    tz: Option<string>,
    vars: Option<Params>,
    width: int,
    height: int,
    timeout: int)

  function VarsOf(c: LinkSettings): Params {
    if c.vars.Some? then c.vars.value else []
  }

  /** `if self.config.tz:` — set and non-empty. */
  predicate HasTz(c: LinkSettings) {
    c.tz.Some? && |c.tz.value| > 0
  }

  /** The fixed head of the panel parameters. */
  function PanelBase(c: LinkSettings, panelId: int, from: int, to: int): Params {
    [ ("orgId", IntToString(c.orgId)),
      ("panelId", IntToString(panelId)),
      ("viewPanel", IntToString(panelId)),
      ("from", IntToString(from)),
      ("to", IntToString(to)),
      ("theme", if c.whiteTheme then "light" else "dark") ]
  }

  /** `__build_panel_url`'s params (and the root-level `build_panel_url`'s). */
  function PanelParams(c: LinkSettings, panelId: int, from: int, to: int): Params {
    PutAll(PanelHead(c, panelId, from, to), VarParams(VarsOf(c)))
  }

  /** The parameters before the dashboard variables are applied. */
  function PanelHead(c: LinkSettings, panelId: int, from: int, to: int): Params {
    var base := PanelBase(c, panelId, from, to);
    if HasTz(c) then Put(base, "tz", c.tz.value) else base
  }

  lemma PanelHeadShape(c: LinkSettings, panelId: int, from: int, to: int)
    ensures var h := PanelHead(c, panelId, from, to);
      && UniqueKeys(h)
      && |h| >= 6
      && Keys(h)[..6] == ["orgId", "panelId", "viewPanel", "from", "to", "theme"]
  {
    var base := PanelBase(c, panelId, from, to);
    var h := PanelHead(c, panelId, from, to);
    assert |"orgId"| == 5 && |"panelId"| == 7 && |"viewPanel"| == 9 && |"from"| == 4 && |"to"| == 2 && |"theme"| == 5;
    assert "orgId"[0] != "theme"[0];
    assert UniqueKeys(base);
    assert h == base || h == base + [("tz", c.tz.value)] by {
      if HasTz(c) {
        LookupAbsent(base, "tz");
      }
    }
    assert h[..6] == base;
    assert Keys(h)[..6] == Keys(base);
  }

  /** In a dict, each entry's key looks up that entry's value. */
  lemma {:induction false} LookupEntry(ps: Params, i: nat)
    requires UniqueKeys(ps) && i < |ps|
    ensures Lookup(ps, ps[i].0) == Some(ps[i].1)
    decreases i
  {
    if i > 0 {
      LookupEntry(ps[1..], i - 1);
    }
  }

  lemma PanelBaseValues(c: LinkSettings, panelId: int, from: int, to: int)
    ensures var b := PanelBase(c, panelId, from, to);
      && Lookup(b, "orgId") == Some(IntToString(c.orgId))
      && Lookup(b, "panelId") == Some(IntToString(panelId))
      && Lookup(b, "viewPanel") == Some(IntToString(panelId))
      && Lookup(b, "from") == Some(IntToString(from))
      && Lookup(b, "to") == Some(IntToString(to))
      && Lookup(b, "theme") == Some(if c.whiteTheme then "light" else "dark")
      && Lookup(b, "tz").None?
  {
    var base := PanelBase(c, panelId, from, to);
    assert |"orgId"| == 5 && |"panelId"| == 7 && |"viewPanel"| == 9 && |"from"| == 4 && |"to"| == 2 && |"theme"| == 5;
    assert "orgId"[0] != "theme"[0];
    assert UniqueKeys(base);
    LookupEntry(base, 0);
    LookupEntry(base, 1);
    LookupEntry(base, 2);
    LookupEntry(base, 3);
    LookupEntry(base, 4);
    LookupEntry(base, 5);
    LookupAbsent(base, "tz");
  }

  lemma PanelHeadValues(c: LinkSettings, panelId: int, from: int, to: int)
    ensures var h := PanelHead(c, panelId, from, to);
      && Lookup(h, "orgId") == Some(IntToString(c.orgId))
      && Lookup(h, "panelId") == Some(IntToString(panelId))
      && Lookup(h, "viewPanel") == Some(IntToString(panelId))
      && Lookup(h, "from") == Some(IntToString(from))
      && Lookup(h, "to") == Some(IntToString(to))
      && Lookup(h, "theme") == Some(if c.whiteTheme then "light" else "dark")
      && Lookup(h, "tz") == (if HasTz(c) then c.tz else None)
  {
    var base := PanelBase(c, panelId, from, to);
    PanelBaseValues(c, panelId, from, to);
    if HasTz(c) {
      var v := c.tz.value;
      assert |"tz"| == 2 && |"orgId"| == 5 && |"panelId"| == 7 && |"viewPanel"| == 9 && |"from"| == 4 && |"theme"| == 5;
      assert "tz"[1] != "to"[1];
      PutOther(base, "tz", v, "orgId");
      PutOther(base, "tz", v, "panelId");
      PutOther(base, "tz", v, "viewPanel");
      PutOther(base, "tz", v, "from");
      PutOther(base, "tz", v, "to");
      PutOther(base, "tz", v, "theme");
    }
  }

  /** The panel parameters: a dict whose first six keys are `orgId`,
      `panelId`, `viewPanel`, `from`, `to`, `theme`. */
  lemma PanelParamsShape(c: LinkSettings, panelId: int, from: int, to: int)
    ensures var r := PanelParams(c, panelId, from, to);
      && UniqueKeys(r)
      && |r| >= 6
      && Keys(r)[..6] == ["orgId", "panelId", "viewPanel", "from", "to", "theme"]
  {
    var h := PanelHead(c, panelId, from, to);
    PanelHeadShape(c, panelId, from, to);
    var r := PutAll(h, VarParams(VarsOf(c)));
    assert r == PanelParams(c, panelId, from, to);
    assert Keys(r)[..6] == Keys(h)[..6];
  }

  /** The identifying panel parameters: the organisation, and the panel id
      under both `panelId` and `viewPanel`, whatever the variables are. */
  lemma PanelParamsIds(c: LinkSettings, panelId: int, from: int, to: int)
    ensures var r := PanelParams(c, panelId, from, to);
      && Lookup(r, "orgId") == Some(IntToString(c.orgId))
      && Lookup(r, "panelId") == Some(IntToString(panelId))
      && Lookup(r, "viewPanel") == Some(IntToString(panelId))
  {
    var h := PanelHead(c, panelId, from, to);
    var r := PanelParams(c, panelId, from, to);
    assert Lookup(r, "orgId") == Some(IntToString(c.orgId)) by {
      PanelHeadValues(c, panelId, from, to);
      PutAllVarsOther(h, VarsOf(c), "orgId");
    }
    assert Lookup(r, "panelId") == Some(IntToString(panelId)) by {
      PanelHeadValues(c, panelId, from, to);
      PutAllVarsOther(h, VarsOf(c), "panelId");
    }
    assert Lookup(r, "viewPanel") == Some(IntToString(panelId)) by {
      PanelHeadValues(c, panelId, from, to);
      PutAllVarsOther(h, VarsOf(c), "viewPanel");
    }
  }

  /** The rest of the fixed panel parameters: the raw window bounds, the
      theme chosen by `white_theme`, and `tz` only when it is set. */
  lemma PanelParamsWindow(c: LinkSettings, panelId: int, from: int, to: int)
    ensures var r := PanelParams(c, panelId, from, to);
      && Lookup(r, "from") == Some(IntToString(from))
      && Lookup(r, "to") == Some(IntToString(to))
      && Lookup(r, "theme") == Some(if c.whiteTheme then "light" else "dark")
      && Lookup(r, "tz") == (if HasTz(c) then c.tz else None)
  {
    var h := PanelHead(c, panelId, from, to);
    var r := PanelParams(c, panelId, from, to);
    PanelHeadValues(c, panelId, from, to);
    assert r == PutAll(h, VarParams(VarsOf(c)));
    assert Lookup(r, "from") == Lookup(h, "from") by { PutAllVarsOther(h, VarsOf(c), "from"); }
    assert Lookup(r, "to") == Lookup(h, "to") by { PutAllVarsOther(h, VarsOf(c), "to"); }
    assert Lookup(r, "theme") == Lookup(h, "theme") by { PutAllVarsOther(h, VarsOf(c), "theme"); }
    assert Lookup(r, "tz") == Lookup(h, "tz") by { PutAllVarsOther(h, VarsOf(c), "tz"); }
  }

  /** Each dashboard variable `k` appears as `var-k`, the last value winning. */
  lemma PanelParamsVars(c: LinkSettings, panelId: int, from: int, to: int, k: string)
    requires LastValue(VarsOf(c), k).Some?
    ensures Lookup(PanelParams(c, panelId, from, to), "var-" + k) == LastValue(VarsOf(c), k)
  {
    VarParamsLastValue(VarsOf(c), k);
    PutAllLookup(PanelHead(c, panelId, from, to), VarParams(VarsOf(c)), "var-" + k);
  }

  /** The render call's parameters: `viewPanel` deleted, then width, height
      and timeout set. */
  function RenderParams(c: LinkSettings, ps: Params): (r: Result<Params>)
    ensures r.Failure? <==> Lookup(ps, "viewPanel").None?
  {
    match Del(ps, "viewPanel")
    case Failure(e) => Failure(e)
    case Success(without) =>
      var w := Put(without, "width", IntToString(c.width));
      var h := Put(w, "height", IntToString(c.height));
      Success(Put(h, "timeout", IntToString(c.timeout)))
  }

  /** The render parameters keep every panel parameter except `viewPanel`,
      and carry the configured width, height and timeout. */
  lemma RenderParamsContents(c: LinkSettings, ps: Params, k: string)
    requires UniqueKeys(ps) && Lookup(ps, "viewPanel").Some?
    ensures var r := RenderParams(c, ps);
      && r.Success?
      && UniqueKeys(r.value)
      && Lookup(r.value, "viewPanel").None?
      && Lookup(r.value, "width") == Some(IntToString(c.width))
      && Lookup(r.value, "height") == Some(IntToString(c.height))
      && Lookup(r.value, "timeout") == Some(IntToString(c.timeout))
      && (k != "viewPanel" && k != "width" && k != "height" && k != "timeout" ==>
            Lookup(r.value, k) == Lookup(ps, k))
  {
    var without := Del(ps, "viewPanel").value;
    var w := Put(without, "width", IntToString(c.width));
    var h := Put(w, "height", IntToString(c.height));
    var t := Put(h, "timeout", IntToString(c.timeout));
    assert RenderParams(c, ps) == Success(t);
    // The four keys differ in length, hence in value.
    assert |"viewPanel"| == 9 && |"width"| == 5 && |"height"| == 6 && |"timeout"| == 7;
    assert Lookup(t, "viewPanel").None? by {
      PutOther(without, "width", IntToString(c.width), "viewPanel");
      PutOther(w, "height", IntToString(c.height), "viewPanel");
      PutOther(h, "timeout", IntToString(c.timeout), "viewPanel");
    }
    assert Lookup(t, "width") == Some(IntToString(c.width)) by {
      PutOther(w, "height", IntToString(c.height), "width");
      PutOther(h, "timeout", IntToString(c.timeout), "width");
    }
    assert Lookup(t, "height") == Some(IntToString(c.height)) by {
      PutOther(h, "timeout", IntToString(c.timeout), "height");
    }
    if k != "viewPanel" && k != "width" && k != "height" && k != "timeout" {
      PutOther(without, "width", IntToString(c.width), k);
      PutOther(w, "height", IntToString(c.height), k);
      PutOther(h, "timeout", IntToString(c.timeout), k);
    }
  }

  /** Setting one key leaves the others' values alone. */
  lemma PutOther(ps: Params, k: string, v: string, k2: string)
    requires k2 != k
    ensures Lookup(Put(ps, k, v), k2) == Lookup(ps, k2)
  {
  }

  /** Deleting `viewPanel` never fails on the panel parameters. */
  lemma RenderParamsOfPanel(c: LinkSettings, panelId: int, from: int, to: int)
    ensures RenderParams(c, PanelParams(c, panelId, from, to)).Success?
  {
    PanelParamsIds(c, panelId, from, to);
  }

  /** `__get_full_links`' params: orgId, from, to, then the variables. */
  function DashParams(c: LinkSettings, from: int, to: int): Params {
    PutAll([("orgId", IntToString(c.orgId)), ("from", IntToString(from)), ("to", IntToString(to))],
           VarParams(VarsOf(c)))
  }

  lemma DashParamsContents(c: LinkSettings, from: int, to: int)
    ensures var r := DashParams(c, from, to);
      && Lookup(r, "orgId") == Some(IntToString(c.orgId))
      && Lookup(r, "from") == Some(IntToString(from))
      && Lookup(r, "to") == Some(IntToString(to))
      && Lookup(r, "panelId").None? && Lookup(r, "theme").None?
  {
    var base := [("orgId", IntToString(c.orgId)), ("from", IntToString(from)), ("to", IntToString(to))];
    assert UniqueKeys(base);
    LookupEntry(base, 0);
    LookupEntry(base, 1);
    LookupEntry(base, 2);
    LookupAbsent(base, "panelId");
    LookupAbsent(base, "theme");
    PutAllVarsOther(base, VarsOf(c), "orgId");
    PutAllVarsOther(base, VarsOf(c), "from");
    PutAllVarsOther(base, VarsOf(c), "to");
    PutAllVarsOther(base, VarsOf(c), "panelId");
    PutAllVarsOther(base, VarsOf(c), "theme");
  }

  /** `f"{url}?{urlencode(params)}"`. */
  function WithQuery(url: string, encode: Params -> string, ps: Params): string {
    url + "?" + encode(ps)
  }

  /** `__get_full_links`: one dashboard link per timestamp, in order. */
  function FullLinks(c: LinkSettings, dashUrl: string, encode: Params -> string, ts: seq<Timestamp>): (r: seq<string>)
    ensures |r| == |ts|
    ensures forall i | 0 <= i < |ts| ::
              r[i] == WithQuery(c.host + dashUrl, encode, DashParams(c, ts[i].start, ts[i].end))
  {
    seq(|ts|, i requires 0 <= i < |ts| =>
      WithQuery(c.host + dashUrl, encode, DashParams(c, ts[i].start, ts[i].end)))
  }

  /** The plain link of a panel at a timestamp: `final_url`. */
  function PanelLink(c: LinkSettings, dashUrl: string, encode: Params -> string, panelId: int, t: Timestamp): (r: string)
    ensures StartsWith(r, c.host + dashUrl + "?")
    ensures EndsWith(r, encode(PanelParams(c, panelId, t.start, t.end)))
  {
    var q := encode(PanelParams(c, panelId, t.start, t.end));
    StartsWithConcat(c.host + dashUrl + "?", q);
    EndsWithConcat(c.host + dashUrl + "?", q);
    WithQuery(c.host + dashUrl, encode, PanelParams(c, panelId, t.start, t.end))
  }

  /** The fullscreen variant `f"{final_url}&fullscreen"`. */
  function Fullscreen(url: string): string {
    url + "&fullscreen"
  }

  /** Python's `s[2:]`. */
  function DropTwo(s: string): string {
    if |s| <= 2 then "" else s[2..]
  }

  /** `f'{host}/render/d-solo{dashboard_url[2:]}'`: the dashboard path
      `/d/<uid>/<slug>` becomes `/render/d-solo/<uid>/<slug>`. */
  function RenderUrl(host: string, dashUrl: string): (r: string)
    ensures forall rest :: dashUrl == "/d" + rest ==> r == host + "/render/d-solo" + rest
  {
    host + "/render/d-solo" + DropTwo(dashUrl)
  }

  /** The root-level `f'{host}/render/d-solo/{uid}/{dashboard_url}'`. */
  function LegacyRenderUrl(host: string, uid: string, dashUrl: string): (r: string)
    ensures StartsWith(r, host + "/render/d-solo/" + uid + "/")
    ensures EndsWith(r, dashUrl)
  {
    host + "/render/d-solo/" + uid + "/" + dashUrl
  }

  /** `f'{name}__{panel_id}__{id_time}.png'`, shared by acquisition and
      both report generators. */
  function ChartFileName(name: string, panelId: int, idTime: int): (r: string)
    ensures StartsWith(r, name + "__")
    ensures EndsWith(r, "__" + IntToString(idTime) + ".png")
  {
    var ps := IntToString(panelId);
    var ts := IntToString(idTime);
    Regroup(name, "__", ps, "__", ts, ".png");
    StartsWithConcat(name + "__", ps + "__" + ts + ".png");
    EndsWithConcat(name + "__" + ps, "__" + ts + ".png");
    name + "__" + ps + "__" + ts + ".png"
  }

  predicate NoUnderscore(s: string) {
    forall i | 0 <= i < |s| :: s[i] != '_'
  }

  lemma IntToStringNoUnderscore(i: int)
    ensures NoUnderscore(IntToString(i))
  {
    var s := IntToString(i);
    if i >= 0 {
      assert AllDigits(NatToString(i));
    } else {
      assert AllDigits(NatToString(-i));
      assert s == "-" + NatToString(-i);
      forall k | 0 <= k < |s| ensures s[k] != '_' {
        if k > 0 {
          assert s[k] == NatToString(-i)[k - 1];
        }
      }
    }
  }

  /** The first underscore of `a + rest` is where `rest` starts. */
  lemma FirstUnderscore(a: string, rest: string)
    requires NoUnderscore(a) && |rest| > 0 && rest[0] == '_'
    ensures Find(a + rest, "_", 0) == Some(|a|)
  {
    var s := a + rest;
    assert OccursAt(s, "_", |a|) by {
      assert s[|a|..|a| + 1] == [rest[0]];
    }
    forall j | 0 <= j < |a|
      ensures !OccursAt(s, "_", j)
    {
      assert s[j..j + 1] == [a[j]];
    }
  }

  /** Splitting `a + "__" + b` at its only double underscore. */
  lemma SplitAtDoubleUnderscore(a: string, b: string, a2: string, b2: string)
    requires NoUnderscore(a) && NoUnderscore(b) && NoUnderscore(a2) && NoUnderscore(b2)
    requires a + "__" + b == a2 + "__" + b2
    ensures a == a2 && b == b2
  {
    var s := a + "__" + b;
    assert s == a + ("__" + b) && s == a2 + ("__" + b2);
    FirstUnderscore(a, "__" + b);
    FirstUnderscore(a2, "__" + b2);
    assert |a| == |a2|;
    assert a == s[..|a|] && a2 == s[..|a2|];
    assert b == s[|a| + 2..] && b2 == s[|a2| + 2..];
  }

  /** Equal strings with a common prefix and suffix have equal middles. */
  lemma StripAffixes(pre: string, m1: string, m2: string, suf: string)
    requires pre + m1 + suf == pre + m2 + suf
    ensures m1 == m2
  {
    var s := pre + m1 + suf;
    assert |m1| == |m2|;
    assert m1 == s[|pre|..|pre| + |m1|];
    assert m2 == (pre + m2 + suf)[|pre|..|pre| + |m2|];
  }

  /** The middle part of a chart file name: `<panel_id>__<id_time>`. */
  lemma ChartFileNameParts(name: string, p: int, t: int)
    ensures ChartFileName(name, p, t) == (name + "__") + (IntToString(p) + "__" + IntToString(t)) + ".png"
  {
  }

  /** Distinct (panel, timestamp) pairs of one dashboard get distinct
      chart files, so no task overwrites another's chart. */
  lemma ChartFileNameInjective(name: string, p1: int, t1: int, p2: int, t2: int)
    ensures ChartFileName(name, p1, t1) == ChartFileName(name, p2, t2) <==> p1 == p2 && t1 == t2
  {
    if ChartFileName(name, p1, t1) == ChartFileName(name, p2, t2) {
      ChartFileNameParts(name, p1, t1);
      ChartFileNameParts(name, p2, t2);
      StripAffixes(name + "__", IntToString(p1) + "__" + IntToString(t1), IntToString(p2) + "__" + IntToString(t2), ".png");
      IntToStringNoUnderscore(p1);
      IntToStringNoUnderscore(t1);
      IntToStringNoUnderscore(p2);
      IntToStringNoUnderscore(t2);
      SplitAtDoubleUnderscore(IntToString(p1), IntToString(t1), IntToString(p2), IntToString(t2));
      IntToStringInjective(p1, p2);
      IntToStringInjective(t1, t2);
    }
  }
}

/** The multi-run merge `transform_grafana_configs` (main.py:99-201) and the
    upload entry point's gate (main.py:67-96).

    The loaded manifests are Python objects that the merge mutates in place:
    timestamp ids are bumped and panel link lists extended. The model keeps
    them in a heap (`MergeState.heap`, indexed like `grafana_configs`) and
    the merged per-name lists hold references into it, so that a manifest
    matched by several folders is aliased exactly as in the code. */
module Merge {
  import opened Wrappers
  import opened Text
  import opened TimeArgs
  import opened Dashboard
  import opened Manifest
  import opened Order
  import Urls

  /** A reference to item `idx` of the panel or timestamp list of loaded
      manifest `cfg`. */
  datatype Ref = Ref(cfg: nat, idx: nat)

  /** What the five per-name dicts of the merge hold for one name
      (`timestamps_count`, `snapshot_urls`, `full_links`, `timestamps`,
      `panels`); they are always created together. */
  datatype Entry = Entry(
    counter: int,
    snapshots: seq<string>,
    fullLinks: seq<string>,
    stamps: seq<Ref>,
    panels: seq<Ref>)

  /** The loop state: the mutated manifests, the entries by name (the keys
      are `set_names`), and the copies made so far as (src, dst) pairs. */
  datatype MergeState = MergeState(heap: seq<Uploader>, entries: map<string, Entry>, copies: seq<(string, string)>)

  const Fresh := Entry(0, [], [], [], [])

  /** The entry of `name`, or the one `if name not in snapshot_urls` would
      create. */
  function At(st: MergeState, name: string): Entry {
    if name in st.entries then st.entries[name] else Fresh
  }

  /** `for k in range(n)`: references to items 0..n-1 of manifest `c`. */
  function Refs(c: nat, n: nat): (r: seq<Ref>)
    ensures |r| == n && forall k | 0 <= k < n :: r[k] == Ref(c, k)
  {
    seq(n, k requires 0 <= k < n => Ref(c, k))
  }

  // ---------------------------------------------------------------------------
  // Heap shape

  predicate PanelRefOk(heap: seq<Uploader>, r: Ref) {
    r.cfg < |heap| && r.idx < |heap[r.cfg].panels|
  }

  /** Every reference points at an existing timestamp. */
  predicate StampRefsOk(heap: seq<Uploader>, refs: seq<Ref>) {
    forall i | 0 <= i < |refs| :: refs[i].cfg < |heap| && refs[i].idx < |heap[refs[i].cfg].timestamps|
  }

  /** Every reference points at an existing panel. */
  predicate PanelRefsOk(heap: seq<Uploader>, refs: seq<Ref>) {
    forall i | 0 <= i < |refs| :: refs[i].cfg < |heap| && refs[i].idx < |heap[refs[i].cfg].panels|
  }

  /** Everything the merge never mutates is equal: names, paths, links,
      snapshots and list lengths. */
  predicate SameShape(a: seq<Uploader>, b: seq<Uploader>) {
    |a| == |b| &&
    forall c | 0 <= c < |a| ::
      && a[c].name == b[c].name && a[c].chartsPath == b[c].chartsPath
      && a[c].fullLinks == b[c].fullLinks && a[c].snapshotUrls == b[c].snapshotUrls
      && |a[c].panels| == |b[c].panels| && |a[c].timestamps| == |b[c].timestamps|
  }

  /** Every merged reference points into the heap. */
  predicate Valid(st: MergeState) {
    forall n | n in st.entries :: StampRefsOk(st.heap, st.entries[n].stamps) && PanelRefsOk(st.heap, st.entries[n].panels)
  }

  // ---------------------------------------------------------------------------
  // Matching and in-place updates

  /** A manifest belongs to an upload folder when its charts path, with `\`
      and `/` mapped to `_`, contains the folder mapped the same way. */
  predicate Matches(chartsPath: string, folder: string) {
    Contains(NormalizeSeparators(chartsPath), NormalizeSeparators(folder))
  }

  /** The folder test does not see which separator a charts path uses:
      paths that agree once `\` and `/` are read as `_` match the same folders. */
  lemma MatchesSeparatorBlind(a: string, b: string, folder: string)
    requires |a| == |b|
    requires forall i | 0 <= i < |a| :: SeparatorToUnderscore(a[i]) == SeparatorToUnderscore(b[i])
    ensures Matches(a, folder) <==> Matches(b, folder)
  {
    NormalizeIsPointwise(a);
    NormalizeIsPointwise(b);
    assert NormalizeSeparators(a) == NormalizeSeparators(b);
  }

  /** The first merged panel with the given id (`for root_panel in ...: if
      ...: break`). */
  function FirstRoot(heap: seq<Uploader>, roots: seq<Ref>, id: int): (r: Option<nat>)
    requires PanelRefsOk(heap, roots)
    ensures r.Some? ==> r.value < |roots| && heap[roots[r.value].cfg].panels[roots[r.value].idx].id == id
    ensures r.Some? ==> forall i | 0 <= i < r.value :: heap[roots[i].cfg].panels[roots[i].idx].id != id
    ensures r.None? ==> forall i | 0 <= i < |roots| :: heap[roots[i].cfg].panels[roots[i].idx].id != id
    decreases |roots|
  {
    if |roots| == 0 then None
    else if heap[roots[0].cfg].panels[roots[0].idx].id == id then Some(0)
    else
      match FirstRoot(heap, roots[1..], id)
      case None => None
      case Some(i) => Some(i + 1)
  }

  /** `root_panel.links.extend(panel.links)`; when both are the same object
      the list is doubled. */
  function ExtendLinks(heap: seq<Uploader>, root: Ref, src: Ref): (r: seq<Uploader>)
    requires PanelRefOk(heap, root) && PanelRefOk(heap, src)
    ensures SameShape(heap, r)
    ensures var p := heap[root.cfg].panels[root.idx];
      r[root.cfg].panels[root.idx] == p.(links := p.links + heap[src.cfg].panels[src.idx].links)
    ensures forall c | 0 <= c < |heap| :: r[c].timestamps == heap[c].timestamps
    ensures forall c, k | 0 <= c < |heap| && 0 <= k < |heap[c].panels| && Ref(c, k) != root ::
              r[c].panels[k] == heap[c].panels[k]
  {
    var u := heap[root.cfg];
    var p := u.panels[root.idx];
    var added := heap[src.cfg].panels[src.idx].links;
    heap[root.cfg := u.(panels := u.panels[root.idx := p.(links := p.links + added)])]
  }

  /** The panel loop of a later folder: each incoming panel extends the first
      merged panel with its id; a panel without one is dropped. */
  function ExtendPanels(heap: seq<Uploader>, roots: seq<Ref>, c: nat, k: nat): (r: seq<Uploader>)
    requires c < |heap| && k <= |heap[c].panels|
    requires PanelRefsOk(heap, roots)
    ensures SameShape(heap, r)
    ensures forall c' | 0 <= c' < |heap| :: r[c'].timestamps == heap[c'].timestamps
    decreases |heap[c].panels| - k
  {
    if k == |heap[c].panels| then heap
    else
      var id := heap[c].panels[k].id;
      match FirstRoot(heap, roots, id)
      case None => ExtendPanels(heap, roots, c, k + 1)
      case Some(i) =>
        var h := ExtendLinks(heap, roots[i], Ref(c, k));
        RefsKeepShape(heap, h, roots);
        ExtendPanels(h, roots, c, k + 1)
  }

  /** `timestamp.id_time += timestamps_count[name]` for every timestamp of
      manifest `c`. */
  function BumpIds(heap: seq<Uploader>, c: nat, off: int): (r: seq<Uploader>)
    requires c < |heap|
    ensures SameShape(heap, r)
    ensures forall k | 0 <= k < |heap[c].timestamps| ::
              r[c].timestamps[k] == heap[c].timestamps[k].(id := heap[c].timestamps[k].id + off)
    ensures forall c' | 0 <= c' < |heap| && c' != c :: r[c'] == heap[c']
    ensures r[c].panels == heap[c].panels
  {
    var u := heap[c];
    var ts := seq(|u.timestamps|, k requires 0 <= k < |u.timestamps| => u.timestamps[k].(id := u.timestamps[k].id + off));
    heap[c := u.(timestamps := ts)]
  }

  // ---------------------------------------------------------------------------
  // Chart file names

  /** The number `re.search(r'__(\d+)\.png$', entry)` captures, if any. `$`
      also matches just before a final newline. */
  function TrailingId(entry: string): (r: Option<nat>)
  {
    var e := if |entry| > 0 && entry[|entry| - 1] == '\n' then |entry| - 1 else |entry|;
    if e < 4 || entry[e - 4..e] != ".png" then None
    else IdBefore(entry, e - 4)
  }

  /** The `__(\d+)` part of the pattern, ending at `j`: a non-empty digit
      run preceded by "__". */
  function IdBefore(entry: string, j: nat): (r: Option<nat>)
    requires j <= |entry|
  {
    var d := DigitsBefore(entry, j);
    if d == j || d < 2 || entry[d - 2..d] != "__" then None
    else Some(DigitsValue(entry[d..j]))
  }

  /** The start of the maximal run of digits ending at `j`. */
  function DigitsBefore(s: string, j: nat): (d: nat)
    requires j <= |s|
    ensures d <= j && AllDigits(s[d..j])
    ensures d > 0 ==> !IsDigit(s[d - 1])
    decreases j
  {
    if j == 0 || !IsDigit(s[j - 1]) then j
    else
      var d := DigitsBefore(s, j - 1);
      assert s[d..j] == s[d..j - 1] + [s[j - 1]];
      d
  }

  /** The destination name of a chart copied from a later folder:
      `entry.replace(f'__{n}.png', f'__{n + offset}.png')`, where `n` is
      `int()` of the captured digits. No match raises AttributeError
      (`None.group`). */
  function Renamed(entry: string, offset: int): (r: Result<string>)
    ensures r.Failure? <==> TrailingId(entry).None?
    ensures r.Failure? ==> r.error.AttributeError?
  {
    match TrailingId(entry)
    case None => Failure(AttributeError("'NoneType' object has no attribute 'group'"))
    case Some(n) =>
      Success(ReplaceAll(entry, "__" + NatToString(n) + ".png", "__" + IntToString(n + offset) + ".png"))
  }

  /** The name a chart gets in the merged folder: unchanged for the first
      folder, renumbered for later ones. */
  function DestName(entry: string, first: bool, offset: int): (r: Result<string>)
    ensures first ==> r == Success(entry)
    ensures !first ==> r == Renamed(entry, offset)
  {
    if first then Success(entry) else Renamed(entry, offset)
  }

  /** The copy loop over one chart folder, for any way `dest` of naming the
      copy: the destination name is computed (and may raise) before
      `os.path.isfile`, so an entry that is not a file can still raise. */
  function CopyLoop(src: string, entries: seq<string>, dest: string -> Result<string>, dstDir: string,
                    files: set<string>): (r: Result<seq<(string, string)>>)
    decreases |entries|
    ensures r.Failure? <==> exists i | 0 <= i < |entries| :: dest(entries[i]).Failure?
    ensures r.Success? ==> |r.value| <= |entries|
    ensures r.Success? ==> forall k | 0 <= k < |r.value| :: r.value[k].0 in files
  {
    if |entries| == 0 then Success([])
    else
      var e := entries[0];
      var name :- dest(e);
      var rest :- CopyLoop(src, entries[1..], dest, dstDir, files);
      assert forall i | 0 <= i < |entries[1..]| :: entries[1..][i] == entries[i + 1];
      var srcPath := Join(src, e);
      if srcPath in files then Success([(srcPath, Join(dstDir, name))] + rest) else Success(rest)
  }

  /** The copies are exactly the listed entries that are regular files,
      each to its destination name, in listing order. */
  lemma {:induction false} CopyLoopContents(src: string, entries: seq<string>, dest: string -> Result<string>,
                                            dstDir: string, files: set<string>)
    requires CopyLoop(src, entries, dest, dstDir, files).Success?
    ensures forall k | 0 <= k < |entries| :: dest(entries[k]).Success?
    ensures forall pr :: pr in CopyLoop(src, entries, dest, dstDir, files).value <==>
              exists k | 0 <= k < |entries| ::
                Join(src, entries[k]) in files && pr == (Join(src, entries[k]), Join(dstDir, dest(entries[k]).value))
    decreases |entries|
  {
    if |entries| > 0 {
      var e := entries[0];
      var tail := entries[1..];
      CopyLoopContents(src, tail, dest, dstDir, files);
      assert forall k | 0 <= k < |tail| :: tail[k] == entries[k + 1];
      var out := CopyLoop(src, entries, dest, dstDir, files).value;
      var rest := CopyLoop(src, tail, dest, dstDir, files).value;
      var pr0 := (Join(src, e), Join(dstDir, dest(e).value));
      assert out == (if Join(src, e) in files then [pr0] else []) + rest;
      forall k | 0 <= k < |entries| ensures dest(entries[k]).Success? {
        if k > 0 {
          assert tail[k - 1] == entries[k];
        }
      }
      forall pr | pr in out
        ensures exists k | 0 <= k < |entries| ::
                  Join(src, entries[k]) in files && pr == (Join(src, entries[k]), Join(dstDir, dest(entries[k]).value))
      {
        if pr in rest {
          var k :| 0 <= k < |tail| && Join(src, tail[k]) in files
                   && pr == (Join(src, tail[k]), Join(dstDir, dest(tail[k]).value));
          assert entries[k + 1] == tail[k];
        } else {
          assert pr == pr0 && entries[0] == e;
        }
      }
      forall pr | exists k | 0 <= k < |entries| ::
                    Join(src, entries[k]) in files && pr == (Join(src, entries[k]), Join(dstDir, dest(entries[k]).value))
        ensures pr in out
      {
        var k :| 0 <= k < |entries| && Join(src, entries[k]) in files
                 && pr == (Join(src, entries[k]), Join(dstDir, dest(entries[k]).value));
        if k > 0 {
          assert tail[k - 1] == entries[k];
          assert pr in rest;
        }
      }
    }
  }

  /** The copy loop of the merge: charts of the first folder keep their
      names, later ones are renumbered; a later chart whose name the pattern
      does not match raises. */
  function CopyCharts(src: string, entries: seq<string>, first: bool, dstDir: string, offset: int,
                      files: set<string>): (r: Result<seq<(string, string)>>)
    ensures first ==> r.Success?
    ensures r.Failure? <==> !first && exists i | 0 <= i < |entries| :: TrailingId(entries[i]).None?
    ensures r.Success? ==> |r.value| <= |entries|
    ensures r.Success? ==> forall k | 0 <= k < |entries| :: DestName(entries[k], first, offset).Success?
    ensures r.Success? ==> forall pr :: pr in r.value <==>
              exists k | 0 <= k < |entries| ::
                Join(src, entries[k]) in files
                && pr == (Join(src, entries[k]), Join(dstDir, DestName(entries[k], first, offset).value))
  {
    var dest := e => DestName(e, first, offset);
    assert forall k | 0 <= k < |entries| :: dest(entries[k]) == DestName(entries[k], first, offset);
    var r := CopyLoop(src, entries, dest, dstDir, files);
    if r.Success? then CopyLoopContents(src, entries, dest, dstDir, files); r else r
  }

  // ---------------------------------------------------------------------------
  // One visit: folder `f`, manifest `c`

  /** Shape-preserving heap updates keep every reference valid. */
  lemma RefsKeepShape(a: seq<Uploader>, b: seq<Uploader>, refs: seq<Ref>)
    requires SameShape(a, b)
    ensures PanelRefsOk(a, refs) ==> PanelRefsOk(b, refs)
    ensures StampRefsOk(a, refs) ==> StampRefsOk(b, refs)
  {
  }

  lemma ValidKeepShape(st: MergeState, heap: seq<Uploader>)
    requires Valid(st) && SameShape(st.heap, heap)
    ensures Valid(st.(heap := heap))
  {
    forall n | n in st.entries
      ensures StampRefsOk(heap, st.entries[n].stamps) && PanelRefsOk(heap, st.entries[n].panels)
    {
      RefsKeepShape(st.heap, heap, st.entries[n].stamps);
      RefsKeepShape(st.heap, heap, st.entries[n].panels);
    }
  }

  /** The entry of `name` after a matched visit of manifest `c` from folder
      `f`, before the copies: snapshot urls, dashboard links and timestamps
      are appended; panels only for the first folder. */
  function Absorbed(e: Entry, cfg: Uploader, f: nat, c: nat): Entry {
    e.(snapshots := e.snapshots + cfg.snapshotUrls,
       fullLinks := e.fullLinks + cfg.fullLinks,
       stamps := e.stamps + Refs(c, |cfg.timestamps|),
       panels := if f == 0 then e.panels + Refs(c, |cfg.panels|) else e.panels)
  }

  /** The manifests after a matched visit from a later folder: links are
      merged into the panels already collected for the name, then the
      manifest's timestamp ids are shifted by the name's counter. */
  function Shifted(st: MergeState, e: Entry, c: nat): (r: seq<Uploader>)
    requires Valid(st) && c < |st.heap| && PanelRefsOk(st.heap, e.panels)
    ensures SameShape(st.heap, r)
    ensures forall k | 0 <= k < |st.heap[c].timestamps| ::
              r[c].timestamps[k] == st.heap[c].timestamps[k].(id := st.heap[c].timestamps[k].id + e.counter)
    ensures forall c' | 0 <= c' < |st.heap| && c' != c :: r[c'].timestamps == st.heap[c'].timestamps
  {
    BumpIds(ExtendPanels(st.heap, e.panels, c, 0), c, e.counter)
  }

  /** Everything a matched visit does before copying charts. */
  function Absorb(st: MergeState, f: nat, c: nat): (r: MergeState)
    requires Valid(st) && c < |st.heap|
    ensures Valid(r) && SameShape(st.heap, r.heap) && r.copies == st.copies
    ensures r.entries == st.entries[st.heap[c].name := Absorbed(At(st, st.heap[c].name), st.heap[c], f, c)]
    ensures f == 0 ==> r.heap == st.heap
    ensures f > 0 ==> r.heap == Shifted(st, At(st, st.heap[c].name), c)
  {
    var cfg := st.heap[c];
    var e := At(st, cfg.name);
    var heap := if f == 0 then st.heap else Shifted(st, e, c);
    AbsorbedValid(st, f, c, heap);
    MergeState(heap, st.entries[cfg.name := Absorbed(e, cfg, f, c)], st.copies)
  }

  lemma AbsorbedValid(st: MergeState, f: nat, c: nat, heap: seq<Uploader>)
    requires Valid(st) && c < |st.heap| && SameShape(st.heap, heap)
    ensures var name := st.heap[c].name;
      Valid(MergeState(heap, st.entries[name := Absorbed(At(st, name), st.heap[c], f, c)], st.copies))
  {
    var cfg := st.heap[c];
    var e := At(st, cfg.name);
    var e2 := Absorbed(e, cfg, f, c);
    ValidKeepShape(st, heap);
    assert StampRefsOk(heap, e.stamps) && PanelRefsOk(heap, e.panels);
    assert |heap[c].timestamps| == |cfg.timestamps| && |heap[c].panels| == |cfg.panels|;
    assert StampRefsOk(heap, e2.stamps) by {
      var refs := Refs(c, |cfg.timestamps|);
      assert e2.stamps == e.stamps + refs;
      assert forall i | |e.stamps| <= i < |e2.stamps| :: e2.stamps[i] == refs[i - |e.stamps|];
    }
    assert PanelRefsOk(heap, e2.panels) by {
      if f == 0 {
        var refs := Refs(c, |cfg.panels|);
        assert e2.panels == e.panels + refs;
        assert forall i | |e.panels| <= i < |e2.panels| :: e2.panels[i] == refs[i - |e.panels|];
      }
    }
  }

  /** The copy pairs for one matched manifest: its chart folder is listed
      (FileNotFoundError if missing) and each chart copied under the merged
      name. */
  function ChartCopies(cfg: Uploader, first: bool, offset: int, fs: Fs, newRoot: string): (r: Result<seq<(string, string)>>)
    ensures cfg.chartsPath !in fs.dirs ==> r == Failure(FileNotFoundError(cfg.chartsPath))
    ensures cfg.chartsPath in fs.dirs ==>
              r == CopyCharts(cfg.chartsPath, fs.dirs[cfg.chartsPath], first, Join(newRoot, cfg.name), offset, fs.files)
  {
    var entries :- ListDir(fs, cfg.chartsPath);
    CopyCharts(cfg.chartsPath, entries, first, Join(newRoot, cfg.name), offset, fs.files)
  }

  /** The body of the inner loop of `transform_grafana_configs` for folder
      index `f` and manifest `c`. */
  function Visit(st: MergeState, folders: seq<string>, f: nat, c: nat, fs: Fs, newRoot: string): (r: Result<MergeState>)
    requires Valid(st) && f < |folders| && c < |st.heap|
    ensures r.Success? ==> Valid(r.value) && SameShape(st.heap, r.value.heap)
    ensures !Matches(st.heap[c].chartsPath, folders[f]) ==> r == Success(st)
    ensures Matches(st.heap[c].chartsPath, folders[f]) ==>
              var cfg := st.heap[c];
              var st3 := Absorb(st, f, c);
              var e := At(st3, cfg.name);
              var copies := ChartCopies(cfg, f == 0, e.counter, fs, newRoot);
              && (r.Success? <==> copies.Success?)
              && (r.Success? ==> At(r.value, cfg.name) == e.(counter := e.counter + |cfg.timestamps|))
              && (r.Success? ==> forall n | n != cfg.name :: At(r.value, n) == At(st3, n))
  {
    var cfg := st.heap[c];
    if !Matches(cfg.chartsPath, folders[f]) then Success(st)
    else
      var st3 := Absorb(st, f, c);
      var e := At(st3, cfg.name);
      var copies :- ChartCopies(cfg, f == 0, e.counter, fs, newRoot);
      Success(Advance(st3, cfg.name, |cfg.timestamps|, copies))
  }

  /** `timestamps_count[name] += n` together with the copies made. */
  function Advance(st: MergeState, name: string, n: nat, copies: seq<(string, string)>): (r: MergeState)
    requires Valid(st)
    ensures Valid(r) && r.heap == st.heap && r.copies == st.copies + copies
    ensures At(r, name) == At(st, name).(counter := At(st, name).counter + n)
    ensures forall k | k != name :: At(r, k) == At(st, k)
  {
    var e := At(st, name);
    MergeState(st.heap, st.entries[name := e.(counter := e.counter + n)], st.copies + copies)
  }

  /** What one visit does to the entry of `name`: a matched manifest of that
      name appends its links, snapshots and timestamps and advances the
      counter by its timestamp count; its panels are appended only for the
      first folder. Other names are untouched. */
  lemma VisitEffect(st: MergeState, folders: seq<string>, f: nat, c: nat, fs: Fs, newRoot: string, name: string)
    requires Valid(st) && f < |folders| && c < |st.heap|
    requires Visit(st, folders, f, c, fs, newRoot).Success?
    ensures var r := Visit(st, folders, f, c, fs, newRoot).value;
      var cfg := st.heap[c];
      if Matches(cfg.chartsPath, folders[f]) && cfg.name == name then
        var e := At(st, name);
        At(r, name) == Entry(e.counter + |cfg.timestamps|, e.snapshots + cfg.snapshotUrls, e.fullLinks + cfg.fullLinks,
                             e.stamps + Refs(c, |cfg.timestamps|),
                             if f == 0 then e.panels + Refs(c, |cfg.panels|) else e.panels)
      else At(r, name) == At(st, name)
  {
    var cfg := st.heap[c];
    if Matches(cfg.chartsPath, folders[f]) {
      var st3 := Absorb(st, f, c);
      var e := At(st3, cfg.name);
      assert e == Absorbed(At(st, cfg.name), cfg, f, c);
      if cfg.name != name {
        assert At(st3, name) == At(st, name);
      }
    }
  }

  lemma VisitLinks(st: MergeState, folders: seq<string>, f: nat, c: nat, fs: Fs, newRoot: string, name: string)
    requires Valid(st) && f < |folders| && c < |st.heap|
    requires Visit(st, folders, f, c, fs, newRoot).Success?
    ensures At(Visit(st, folders, f, c, fs, newRoot).value, name).fullLinks
            == At(st, name).fullLinks + (if Hit(st.heap, folders, (f, c), name) then st.heap[c].fullLinks else [])
  {
    VisitEffect(st, folders, f, c, fs, newRoot, name);
  }

  lemma VisitSnapshots(st: MergeState, folders: seq<string>, f: nat, c: nat, fs: Fs, newRoot: string, name: string)
    requires Valid(st) && f < |folders| && c < |st.heap|
    requires Visit(st, folders, f, c, fs, newRoot).Success?
    ensures At(Visit(st, folders, f, c, fs, newRoot).value, name).snapshots
            == At(st, name).snapshots + (if Hit(st.heap, folders, (f, c), name) then st.heap[c].snapshotUrls else [])
  {
    VisitEffect(st, folders, f, c, fs, newRoot, name);
  }

  lemma VisitStamps(st: MergeState, folders: seq<string>, f: nat, c: nat, fs: Fs, newRoot: string)
    requires Valid(st) && f < |folders| && c < |st.heap|
    requires Visit(st, folders, f, c, fs, newRoot).Success?
    requires Matches(st.heap[c].chartsPath, folders[f])
    ensures var e := At(st, st.heap[c].name);
      var r := At(Visit(st, folders, f, c, fs, newRoot).value, st.heap[c].name);
      r.stamps == e.stamps + Refs(c, |st.heap[c].timestamps|) && r.counter == e.counter + |st.heap[c].timestamps|
  {
    VisitEffect(st, folders, f, c, fs, newRoot, st.heap[c].name);
  }

  lemma VisitOther(st: MergeState, folders: seq<string>, f: nat, c: nat, fs: Fs, newRoot: string, n: string)
    requires Valid(st) && f < |folders| && c < |st.heap|
    requires Visit(st, folders, f, c, fs, newRoot).Success?
    requires n != st.heap[c].name
    ensures At(Visit(st, folders, f, c, fs, newRoot).value, n) == At(st, n)
  {
    VisitEffect(st, folders, f, c, fs, newRoot, n);
  }

  /** The names present after a visit: the visited manifest's name is added
      when it matches. */
  lemma VisitNames(st: MergeState, folders: seq<string>, f: nat, c: nat, fs: Fs, newRoot: string)
    requires Valid(st) && f < |folders| && c < |st.heap|
    requires Visit(st, folders, f, c, fs, newRoot).Success?
    ensures var r := Visit(st, folders, f, c, fs, newRoot).value;
      r.entries.Keys == st.entries.Keys + (if Matches(st.heap[c].chartsPath, folders[f]) then {st.heap[c].name} else {})
  {
  }

  /** What one matched visit does to the manifests themselves: the first
      folder leaves them alone; a later folder shifts the visited manifest's
      timestamp ids by the counter of its name and touches no other
      manifest's timestamps. */
  lemma VisitShiftsIds(st: MergeState, folders: seq<string>, f: nat, c: nat, fs: Fs, newRoot: string)
    requires Valid(st) && f < |folders| && c < |st.heap|
    requires Visit(st, folders, f, c, fs, newRoot).Success?
    requires Matches(st.heap[c].chartsPath, folders[f])
    ensures var r := Visit(st, folders, f, c, fs, newRoot).value;
      var ts := st.heap[c].timestamps;
      && (f == 0 ==> r.heap == st.heap)
      && (f > 0 ==> forall k | 0 <= k < |ts| ::
            r.heap[c].timestamps[k] == ts[k].(id := ts[k].id + At(st, st.heap[c].name).counter))
      && forall c' | 0 <= c' < |st.heap| && c' != c :: r.heap[c'].timestamps == st.heap[c'].timestamps
  {
  }

  // ---------------------------------------------------------------------------
  // The whole fold

  /** Every visit names an existing folder and manifest. */
  predicate VisitsOk(folders: seq<string>, n: nat, visits: seq<(nat, nat)>) {
    forall i | 0 <= i < |visits| :: visits[i].0 < |folders| && visits[i].1 < n
  }

  /** The nested loops, visit by visit; the first exception ends the merge. */
  function Run(st: MergeState, folders: seq<string>, visits: seq<(nat, nat)>, fs: Fs, newRoot: string): (r: Result<MergeState>)
    requires Valid(st) && VisitsOk(folders, |st.heap|, visits)
    ensures r.Success? ==> Valid(r.value) && SameShape(st.heap, r.value.heap)
    decreases |visits|
  {
    if |visits| == 0 then Success(st)
    else
      var st1 :- Visit(st, folders, visits[0].0, visits[0].1, fs, newRoot);
      Run(st1, folders, visits[1..], fs, newRoot)
  }

  /** Visit `v` matches a manifest called `name`. */
  predicate Hit(cfgs: seq<Uploader>, folders: seq<string>, v: (nat, nat), name: string)
    requires v.0 < |folders| && v.1 < |cfgs|
  {
    Matches(cfgs[v.1].chartsPath, folders[v.0]) && cfgs[v.1].name == name
  }

  /** The dashboard links of every matched manifest called `name`, in visit
      order. */
  function CollectedLinks(cfgs: seq<Uploader>, folders: seq<string>, visits: seq<(nat, nat)>, name: string): seq<string>
    requires VisitsOk(folders, |cfgs|, visits)
    decreases |visits|
  {
    if |visits| == 0 then []
    else (if Hit(cfgs, folders, visits[0], name) then cfgs[visits[0].1].fullLinks else [])
         + CollectedLinks(cfgs, folders, visits[1..], name)
  }

  function CollectedSnapshots(cfgs: seq<Uploader>, folders: seq<string>, visits: seq<(nat, nat)>, name: string): seq<string>
    requires VisitsOk(folders, |cfgs|, visits)
    decreases |visits|
  {
    if |visits| == 0 then []
    else (if Hit(cfgs, folders, visits[0], name) then cfgs[visits[0].1].snapshotUrls else [])
         + CollectedSnapshots(cfgs, folders, visits[1..], name)
  }

  /** The number of timestamps of every matched manifest called `name`. */
  function CollectedStamps(cfgs: seq<Uploader>, folders: seq<string>, visits: seq<(nat, nat)>, name: string): nat
    requires VisitsOk(folders, |cfgs|, visits)
    decreases |visits|
  {
    if |visits| == 0 then 0
    else (if Hit(cfgs, folders, visits[0], name) then |cfgs[visits[0].1].timestamps| else 0)
         + CollectedStamps(cfgs, folders, visits[1..], name)
  }

  /** The number of panels of the manifests called `name` matched by the
      first folder; later folders contribute none. */
  function CollectedPanels(cfgs: seq<Uploader>, folders: seq<string>, visits: seq<(nat, nat)>, name: string): nat
    requires VisitsOk(folders, |cfgs|, visits)
    decreases |visits|
  {
    if |visits| == 0 then 0
    else (if visits[0].0 == 0 && Hit(cfgs, folders, visits[0], name) then |cfgs[visits[0].1].panels| else 0)
         + CollectedPanels(cfgs, folders, visits[1..], name)
  }

  lemma {:induction false} CollectedKeepShape(a: seq<Uploader>, b: seq<Uploader>, folders: seq<string>,
                                              visits: seq<(nat, nat)>, name: string)
    requires SameShape(a, b) && VisitsOk(folders, |a|, visits)
    ensures CollectedLinks(a, folders, visits, name) == CollectedLinks(b, folders, visits, name)
    ensures CollectedSnapshots(a, folders, visits, name) == CollectedSnapshots(b, folders, visits, name)
    ensures CollectedStamps(a, folders, visits, name) == CollectedStamps(b, folders, visits, name)
    ensures CollectedPanels(a, folders, visits, name) == CollectedPanels(b, folders, visits, name)
    decreases |visits|
  {
    if |visits| > 0 {
      CollectedKeepShape(a, b, folders, visits[1..], name);
    }
  }

  /** A successful fold is a successful first visit followed by the fold
      of the remaining visits. */
  lemma RunStep(st: MergeState, folders: seq<string>, visits: seq<(nat, nat)>, fs: Fs, newRoot: string)
    requires Valid(st) && VisitsOk(folders, |st.heap|, visits) && |visits| > 0
    requires Run(st, folders, visits, fs, newRoot).Success?
    ensures Visit(st, folders, visits[0].0, visits[0].1, fs, newRoot).Success?
    ensures var st1 := Visit(st, folders, visits[0].0, visits[0].1, fs, newRoot).value;
      && VisitsOk(folders, |st1.heap|, visits[1..])
      && Run(st, folders, visits, fs, newRoot) == Run(st1, folders, visits[1..], fs, newRoot)
  {
  }

  lemma Assoc<T>(a: seq<T>, b: seq<T>, c: seq<T>)
    ensures (a + b) + c == a + (b + c)
  {
  }

  /** What the merge accumulates under a name: the dashboard links of every
      manifest of that name matched by any folder, in visit order. */
  lemma {:induction false} RunFullLinks(st: MergeState, folders: seq<string>, visits: seq<(nat, nat)>, fs: Fs,
                                        newRoot: string, name: string)
    requires Valid(st) && VisitsOk(folders, |st.heap|, visits)
    requires Run(st, folders, visits, fs, newRoot).Success?
    ensures At(Run(st, folders, visits, fs, newRoot).value, name).fullLinks
            == At(st, name).fullLinks + CollectedLinks(st.heap, folders, visits, name)
    decreases |visits|
  {
    if |visits| > 0 {
      var v := visits[0];
      var st1 := Visit(st, folders, v.0, v.1, fs, newRoot).value;
      RunStep(st, folders, visits, fs, newRoot);
      VisitLinks(st, folders, v.0, v.1, fs, newRoot, name);
      RunFullLinks(st1, folders, visits[1..], fs, newRoot, name);
      CollectedKeepShape(st.heap, st1.heap, folders, visits[1..], name);
      var links := if Hit(st.heap, folders, v, name) then st.heap[v.1].fullLinks else [];
      Assoc(At(st, name).fullLinks, links, CollectedLinks(st.heap, folders, visits[1..], name));
    }
  }

  /** Likewise the snapshot urls. */
  lemma {:induction false} RunSnapshots(st: MergeState, folders: seq<string>, visits: seq<(nat, nat)>, fs: Fs,
                                        newRoot: string, name: string)
    requires Valid(st) && VisitsOk(folders, |st.heap|, visits)
    requires Run(st, folders, visits, fs, newRoot).Success?
    ensures At(Run(st, folders, visits, fs, newRoot).value, name).snapshots
            == At(st, name).snapshots + CollectedSnapshots(st.heap, folders, visits, name)
    decreases |visits|
  {
    if |visits| > 0 {
      var v := visits[0];
      var st1 := Visit(st, folders, v.0, v.1, fs, newRoot).value;
      RunStep(st, folders, visits, fs, newRoot);
      VisitSnapshots(st, folders, v.0, v.1, fs, newRoot, name);
      RunSnapshots(st1, folders, visits[1..], fs, newRoot, name);
      CollectedKeepShape(st.heap, st1.heap, folders, visits[1..], name);
      var snaps := if Hit(st.heap, folders, v, name) then st.heap[v.1].snapshotUrls else [];
      Assoc(At(st, name).snapshots, snaps, CollectedSnapshots(st.heap, folders, visits[1..], name));
    }
  }

  /** The counter of a name advances by the timestamps of every matched
      manifest of that name and always equals the number of timestamps
      collected; panels come from the first folder only. */
  lemma {:induction false} RunCounts(st: MergeState, folders: seq<string>, visits: seq<(nat, nat)>, fs: Fs,
                                     newRoot: string, name: string)
    requires Valid(st) && VisitsOk(folders, |st.heap|, visits)
    requires Run(st, folders, visits, fs, newRoot).Success?
    ensures var r := At(Run(st, folders, visits, fs, newRoot).value, name);
      && r.counter == At(st, name).counter + CollectedStamps(st.heap, folders, visits, name)
      && |r.stamps| == |At(st, name).stamps| + CollectedStamps(st.heap, folders, visits, name)
      && |r.panels| == |At(st, name).panels| + CollectedPanels(st.heap, folders, visits, name)
    decreases |visits|
  {
    if |visits| > 0 {
      var v := visits[0];
      var st1 := Visit(st, folders, v.0, v.1, fs, newRoot).value;
      RunStep(st, folders, visits, fs, newRoot);
      VisitEffect(st, folders, v.0, v.1, fs, newRoot, name);
      RunCounts(st1, folders, visits[1..], fs, newRoot, name);
      CollectedKeepShape(st.heap, st1.heap, folders, visits[1..], name);
    }
  }

  // ---------------------------------------------------------------------------
  // Timestamp numbering

  /** The timestamp behind `refs[i]` has id `i`. */
  predicate Numbered(heap: seq<Uploader>, refs: seq<Ref>)
    requires StampRefsOk(heap, refs)
  {
    forall i | 0 <= i < |refs| :: heap[refs[i].cfg].timestamps[refs[i].idx].id == i
  }

  /** A manifest as acquisition writes it: timestamp ids 0, 1, 2, ... */
  predicate IdsFromZero(u: Uploader) {
    forall k | 0 <= k < |u.timestamps| :: u.timestamps[k].id == k
  }

  /** Every name's merged timestamps are numbered 0, 1, 2, ... and its
      counter is their number. */
  predicate AllNumbered(st: MergeState)
    requires Valid(st)
  {
    forall n | n in st.entries ::
      Numbered(st.heap, st.entries[n].stamps) && st.entries[n].counter == |st.entries[n].stamps|
  }

  /** The numbering invariant of the fold: all names numbered, references
      only into the manifests already visited (`seen`), and the unvisited
      manifests still numbered from zero. */
  predicate Sequential(st: MergeState, seen: set<nat>) {
    && Valid(st)
    && AllNumbered(st)
    && (forall n, i | n in st.entries && 0 <= i < |st.entries[n].stamps| :: st.entries[n].stamps[i].cfg in seen)
    && (forall c | 0 <= c < |st.heap| && c !in seen :: IdsFromZero(st.heap[c]))
  }

  /** A name other than the visited one keeps its numbering: its references
      avoid the only manifest whose ids changed. */
  lemma OtherStaysNumbered(st: MergeState, r: MergeState, seen: set<nat>, c: nat, n: string)
    requires Sequential(st, seen) && Valid(r) && c !in seen && c < |st.heap|
    requires |r.heap| == |st.heap|
    requires forall c' | 0 <= c' < |st.heap| && c' != c :: r.heap[c'].timestamps == st.heap[c'].timestamps
    requires n in st.entries && n in r.entries && r.entries[n] == st.entries[n]
    ensures Numbered(r.heap, r.entries[n].stamps) && r.entries[n].counter == |r.entries[n].stamps|
    ensures forall i | 0 <= i < |r.entries[n].stamps| :: r.entries[n].stamps[i].cfg in seen
  {
    var refs := st.entries[n].stamps;
    forall i | 0 <= i < |refs| ensures r.heap[refs[i].cfg].timestamps[refs[i].idx].id == i {
      assert refs[i].cfg in seen;
    }
  }

  /** Appending a manifest whose ids continue the count keeps a reference
      list numbered, when the manifest's ids are the only ones that changed. */
  lemma ContinueNumbering(h0: seq<Uploader>, h1: seq<Uploader>, olds: seq<Ref>, c: nat, seen: set<nat>)
    requires |h0| == |h1| && c < |h0| && c !in seen
    requires StampRefsOk(h0, olds) && Numbered(h0, olds)
    requires forall i | 0 <= i < |olds| :: olds[i].cfg in seen
    requires forall c' | 0 <= c' < |h0| && c' != c :: h1[c'].timestamps == h0[c'].timestamps
    requires forall k | 0 <= k < |h1[c].timestamps| :: h1[c].timestamps[k].id == |olds| + k
    ensures var refs := olds + Refs(c, |h1[c].timestamps|);
      && StampRefsOk(h1, refs) && Numbered(h1, refs)
      && forall i | 0 <= i < |refs| :: refs[i].cfg in seen + {c}
  {
    var refs := olds + Refs(c, |h1[c].timestamps|);
    forall i | 0 <= i < |refs|
      ensures refs[i].cfg < |h1| && refs[i].idx < |h1[refs[i].cfg].timestamps|
      ensures h1[refs[i].cfg].timestamps[refs[i].idx].id == i
    {
      if i < |olds| {
        assert refs[i] == olds[i];
        assert olds[i].cfg in seen;
      } else {
        assert refs[i] == Ref(c, i - |olds|);
      }
    }
  }

  /** The visited name after a matched visit: the old references keep their
      ids and the manifest's timestamps continue the numbering, because its
      ids were shifted by the counter (later folders) or the name is new
      (first folder). */
  lemma VisitedNumbered(st: MergeState, seen: set<nat>, folders: seq<string>, f: nat, c: nat, fs: Fs, newRoot: string)
    requires Sequential(st, seen) && f < |folders| && c < |st.heap|
    requires Visit(st, folders, f, c, fs, newRoot).Success?
    requires Matches(st.heap[c].chartsPath, folders[f])
    requires c !in seen && (f == 0 ==> st.heap[c].name !in st.entries)
    ensures var r := Visit(st, folders, f, c, fs, newRoot).value;
      var name := st.heap[c].name;
      && name in r.entries && Numbered(r.heap, r.entries[name].stamps)
      && r.entries[name].counter == |r.entries[name].stamps|
      && forall i | 0 <= i < |r.entries[name].stamps| :: r.entries[name].stamps[i].cfg in seen + {c}
  {
    var r := Visit(st, folders, f, c, fs, newRoot).value;
    var name := st.heap[c].name;
    var e := At(st, name);
    var ts := st.heap[c].timestamps;
    VisitStamps(st, folders, f, c, fs, newRoot);
    VisitShiftsIds(st, folders, f, c, fs, newRoot);
    VisitNames(st, folders, f, c, fs, newRoot);
    assert e.counter == |e.stamps| && StampRefsOk(st.heap, e.stamps) && Numbered(st.heap, e.stamps);
    assert forall i | 0 <= i < |e.stamps| :: e.stamps[i].cfg in seen;
    assert f == 0 ==> |e.stamps| == 0;
    assert IdsFromZero(st.heap[c]);
    ContinueNumbering(st.heap, r.heap, e.stamps, c, seen);
  }

  /** Any name after a matched visit: numbered, counted, and referring only
      to visited manifests. */
  lemma NameAfterVisit(st: MergeState, seen: set<nat>, folders: seq<string>, f: nat, c: nat, fs: Fs, newRoot: string,
                       n: string)
    requires Sequential(st, seen) && f < |folders| && c < |st.heap|
    requires Visit(st, folders, f, c, fs, newRoot).Success?
    requires Matches(st.heap[c].chartsPath, folders[f])
    requires c !in seen && (f == 0 ==> st.heap[c].name !in st.entries)
    requires n in Visit(st, folders, f, c, fs, newRoot).value.entries
    ensures var r := Visit(st, folders, f, c, fs, newRoot).value;
      && Numbered(r.heap, r.entries[n].stamps) && r.entries[n].counter == |r.entries[n].stamps|
      && forall i | 0 <= i < |r.entries[n].stamps| :: r.entries[n].stamps[i].cfg in seen + {c}
  {
    var r := Visit(st, folders, f, c, fs, newRoot).value;
    VisitNames(st, folders, f, c, fs, newRoot);
    if n != st.heap[c].name {
      VisitOther(st, folders, f, c, fs, newRoot, n);
      VisitShiftsIds(st, folders, f, c, fs, newRoot);
      OtherStaysNumbered(st, r, seen, c, n);
    } else {
      VisitedNumbered(st, seen, folders, f, c, fs, newRoot);
    }
  }

  /** One visit keeps the numbering invariant, provided the visited manifest
      was not visited before and, for the first folder, its name is new. */
  lemma VisitKeepsSequential(st: MergeState, seen: set<nat>, folders: seq<string>, f: nat, c: nat, fs: Fs, newRoot: string)
    requires Sequential(st, seen) && f < |folders| && c < |st.heap|
    requires Visit(st, folders, f, c, fs, newRoot).Success?
    requires Matches(st.heap[c].chartsPath, folders[f]) ==> c !in seen && (f == 0 ==> st.heap[c].name !in st.entries)
    ensures Sequential(Visit(st, folders, f, c, fs, newRoot).value,
                       if Matches(st.heap[c].chartsPath, folders[f]) then seen + {c} else seen)
  {
    if Matches(st.heap[c].chartsPath, folders[f]) {
      var r := Visit(st, folders, f, c, fs, newRoot).value;
      var name := st.heap[c].name;
      VisitShiftsIds(st, folders, f, c, fs, newRoot);
      VisitNames(st, folders, f, c, fs, newRoot);
      VisitedNumbered(st, seen, folders, f, c, fs, newRoot);
      forall n | n in r.entries
        ensures Numbered(r.heap, r.entries[n].stamps) && r.entries[n].counter == |r.entries[n].stamps|
        ensures forall i | 0 <= i < |r.entries[n].stamps| :: r.entries[n].stamps[i].cfg in seen + {c}
      {
        NameAfterVisit(st, seen, folders, f, c, fs, newRoot, n);
      }
      forall c' | 0 <= c' < |r.heap| && c' !in seen + {c} ensures IdsFromZero(r.heap[c']) {
        assert r.heap[c'].timestamps == st.heap[c'].timestamps;
        assert IdsFromZero(st.heap[c']);
      }
    }
  }

  /** Visit `v` matches its manifest. */
  predicate Matched(cfgs: seq<Uploader>, folders: seq<string>, v: (nat, nat))
    requires v.0 < |folders| && v.1 < |cfgs|
  {
    Matches(cfgs[v.1].chartsPath, folders[v.0])
  }

  /** No manifest is merged twice: every matched manifest is outside `seen`
      and matched by one visit only, and a match from the first folder
      brings a name not in `names` and not matched before. */
  predicate Unaliased(cfgs: seq<Uploader>, folders: seq<string>, visits: seq<(nat, nat)>, seen: set<nat>, names: set<string>)
    requires VisitsOk(folders, |cfgs|, visits)
  {
    && (forall i | 0 <= i < |visits| && Matched(cfgs, folders, visits[i]) :: visits[i].1 !in seen)
    && (forall i, j | 0 <= i < j < |visits| && Matched(cfgs, folders, visits[i]) && Matched(cfgs, folders, visits[j]) ::
          visits[i].1 != visits[j].1)
    && (forall i | 0 <= i < |visits| && visits[i].0 == 0 && Matched(cfgs, folders, visits[i]) ::
          && cfgs[visits[i].1].name !in names
          && forall j | 0 <= j < i && Matched(cfgs, folders, visits[j]) :: cfgs[visits[j].1].name != cfgs[visits[i].1].name)
  }

  /** After the first visit the remaining visits are still unaliased, with
      its manifest and name recorded. */
  lemma UnaliasedTail(cfgs: seq<Uploader>, folders: seq<string>, visits: seq<(nat, nat)>, seen: set<nat>, names: set<string>)
    requires VisitsOk(folders, |cfgs|, visits) && |visits| > 0
    requires Unaliased(cfgs, folders, visits, seen, names)
    ensures VisitsOk(folders, |cfgs|, visits[1..])
    ensures var v := visits[0];
      var hit := Matched(cfgs, folders, v);
      Unaliased(cfgs, folders, visits[1..], if hit then seen + {v.1} else seen,
                if hit then names + {cfgs[v.1].name} else names)
  {
    var v := visits[0];
    var tail := visits[1..];
    var hit := Matched(cfgs, folders, v);
    var seen' := if hit then seen + {v.1} else seen;
    var names' := if hit then names + {cfgs[v.1].name} else names;
    assert forall i | 0 <= i < |tail| :: tail[i] == visits[i + 1];
    forall i | 0 <= i < |tail| && Matched(cfgs, folders, tail[i]) ensures tail[i].1 !in seen' {
      assert Matched(cfgs, folders, visits[i + 1]);
    }
    forall i, j | 0 <= i < j < |tail| && Matched(cfgs, folders, tail[i]) && Matched(cfgs, folders, tail[j])
      ensures tail[i].1 != tail[j].1
    {
      assert Matched(cfgs, folders, visits[i + 1]) && Matched(cfgs, folders, visits[j + 1]);
    }
    forall i | 0 <= i < |tail| && tail[i].0 == 0 && Matched(cfgs, folders, tail[i])
      ensures cfgs[tail[i].1].name !in names'
      ensures forall j | 0 <= j < i && Matched(cfgs, folders, tail[j]) :: cfgs[tail[j].1].name != cfgs[tail[i].1].name
    {
      assert Matched(cfgs, folders, visits[i + 1]) && visits[i + 1].0 == 0;
      forall j | 0 <= j < i && Matched(cfgs, folders, tail[j]) ensures cfgs[tail[j].1].name != cfgs[tail[i].1].name {
        assert Matched(cfgs, folders, visits[j + 1]);
      }
    }
  }

  /** Without aliasing the fold keeps every name numbered 0, 1, 2, ... */
  lemma {:induction false} RunKeepsNumbering(cfgs: seq<Uploader>, st: MergeState, seen: set<nat>, folders: seq<string>,
                                             visits: seq<(nat, nat)>, fs: Fs, newRoot: string)
    requires SameShape(cfgs, st.heap) && Sequential(st, seen) && VisitsOk(folders, |st.heap|, visits)
    requires Run(st, folders, visits, fs, newRoot).Success?
    requires Unaliased(cfgs, folders, visits, seen, st.entries.Keys)
    ensures AllNumbered(Run(st, folders, visits, fs, newRoot).value)
    decreases |visits|
  {
    if |visits| > 0 {
      var v := visits[0];
      RunStep(st, folders, visits, fs, newRoot);
      var st1 := Visit(st, folders, v.0, v.1, fs, newRoot).value;
      var hit := Matched(cfgs, folders, v);
      assert hit == Matches(st.heap[v.1].chartsPath, folders[v.0]);
      VisitKeepsSequential(st, seen, folders, v.0, v.1, fs, newRoot);
      VisitNames(st, folders, v.0, v.1, fs, newRoot);
      UnaliasedTail(cfgs, folders, visits, seen, st.entries.Keys);
      var c: nat := v.1;
      var seen1: set<nat> := if hit then seen + {c} else seen;
      RunKeepsNumbering(cfgs, st1, seen1, folders, visits[1..], fs, newRoot);
    }
  }

  /** The state before the loops: no names, no copies. */
  function Start(cfgs: seq<Uploader>): (st: MergeState)
    ensures Valid(st) && st.heap == cfgs
  {
    MergeState(cfgs, map[], [])
  }

  /** The visits of `transform_grafana_configs` in loop order. */
  function Visits(folders: seq<string>, cfgs: seq<Uploader>): (r: seq<(nat, nat)>)
    ensures VisitsOk(folders, |cfgs|, r)
  {
    GridBounds(|folders|, |cfgs|);
    Grid(|folders|, |cfgs|)
  }

  /** Each manifest is matched by one folder at most. */
  predicate MatchedOnce(cfgs: seq<Uploader>, folders: seq<string>) {
    forall c, f1, f2 | 0 <= c < |cfgs| && 0 <= f1 < f2 < |folders| ::
      !(Matches(cfgs[c].chartsPath, folders[f1]) && Matches(cfgs[c].chartsPath, folders[f2]))
  }

  /** No two manifests of the same name are matched by the first folder. */
  predicate FirstFolderNamesDistinct(cfgs: seq<Uploader>, folders: seq<string>) {
    forall c1, c2 | 0 <= c1 < c2 < |cfgs| && |folders| > 0 &&
      Matches(cfgs[c1].chartsPath, folders[0]) && Matches(cfgs[c2].chartsPath, folders[0]) ::
      cfgs[c1].name != cfgs[c2].name
  }

  lemma GridVisitsDistinct(cfgs: seq<Uploader>, folders: seq<string>)
    requires MatchedOnce(cfgs, folders)
    ensures var g := Visits(folders, cfgs);
      forall i, j | 0 <= i < j < |g| && Matched(cfgs, folders, g[i]) && Matched(cfgs, folders, g[j]) :: g[i].1 != g[j].1
  {
    var g := Visits(folders, cfgs);
    forall i, j | 0 <= i < j < |g| && Matched(cfgs, folders, g[i]) && Matched(cfgs, folders, g[j])
      ensures g[i].1 != g[j].1
    {
      GridInjective(|folders|, |cfgs|, i, j);
    }
  }

  lemma GridFirstFolderNames(cfgs: seq<Uploader>, folders: seq<string>)
    requires FirstFolderNamesDistinct(cfgs, folders)
    ensures var g := Visits(folders, cfgs);
      forall i | 0 <= i < |g| && g[i].0 == 0 && Matched(cfgs, folders, g[i]) ::
        forall j | 0 <= j < i && Matched(cfgs, folders, g[j]) :: cfgs[g[j].1].name != cfgs[g[i].1].name
  {
    var g := Visits(folders, cfgs);
    forall i | 0 <= i < |g| && g[i].0 == 0 && Matched(cfgs, folders, g[i])
      ensures forall j | 0 <= j < i && Matched(cfgs, folders, g[j]) :: cfgs[g[j].1].name != cfgs[g[i].1].name
    {
      GridFirstRow(|folders|, |cfgs|, i);
      forall j | 0 <= j < i && Matched(cfgs, folders, g[j]) ensures cfgs[g[j].1].name != cfgs[g[i].1].name {
        GridFirstRow(|folders|, |cfgs|, j);
      }
    }
  }

  /** When each manifest is matched by one folder at most, and no two
      manifests of the same name are matched by the first folder, manifests
      numbered from zero merge into timestamps numbered 0, 1, 2, ... per
      name: two runs of ids [0, 1] give [0, 1, 2, 3]. */
  lemma MergedIdsSequential(cfgs: seq<Uploader>, folders: seq<string>, fs: Fs, newRoot: string)
    requires forall c | 0 <= c < |cfgs| :: IdsFromZero(cfgs[c])
    requires MatchedOnce(cfgs, folders) && FirstFolderNamesDistinct(cfgs, folders)
    requires Run(Start(cfgs), folders, Visits(folders, cfgs), fs, newRoot).Success?
    ensures AllNumbered(Run(Start(cfgs), folders, Visits(folders, cfgs), fs, newRoot).value)
  {
    GridVisitsDistinct(cfgs, folders);
    GridFirstFolderNames(cfgs, folders);
    assert Unaliased(cfgs, folders, Visits(folders, cfgs), {}, {});
    assert Sequential(Start(cfgs), {});
    RunKeepsNumbering(cfgs, Start(cfgs), {}, folders, Visits(folders, cfgs), fs, newRoot);
  }

  // ---------------------------------------------------------------------------
  // Building the merged manifests

  /** The timestamps the references point at, as they are after the loops. */
  function DerefStamps(heap: seq<Uploader>, refs: seq<Ref>): (r: seq<Timestamp>)
    requires StampRefsOk(heap, refs)
    ensures |r| == |refs| && forall i | 0 <= i < |refs| :: r[i] == heap[refs[i].cfg].timestamps[refs[i].idx]
  {
    seq(|refs|, i requires 0 <= i < |refs| => heap[refs[i].cfg].timestamps[refs[i].idx])
  }

  function DerefPanels(heap: seq<Uploader>, refs: seq<Ref>): (r: seq<Panel>)
    requires PanelRefsOk(heap, refs)
    ensures |r| == |refs| && forall i | 0 <= i < |refs| :: r[i] == heap[refs[i].cfg].panels[refs[i].idx]
  {
    seq(|refs|, i requires 0 <= i < |refs| => heap[refs[i].cfg].panels[refs[i].idx])
  }

  /** `GrafanaConfigUploader(config_name, config_dict)` on the merged lists:
      the objects are adopted as they are, after the same index checks as a
      loaded manifest (`config['panels'][0]`, `config['timestamps'][0]`). */
  function Adopt(st: MergeState, name: string, newRoot: string): (r: Result<Uploader>)
    requires Valid(st) && name in st.entries
    ensures var e := st.entries[name];
      && (r.Success? <==> |e.panels| > 0 && |e.stamps| > 0)
      && (r.Failure? ==> r.error.IndexError?)
      && (r.Success? ==> r.value == Uploader(name, Join(newRoot, name), e.fullLinks, e.snapshots,
                                             DerefPanels(st.heap, e.panels), DerefStamps(st.heap, e.stamps)))
  {
    var e := st.entries[name];
    if |e.panels| == 0 || |e.stamps| == 0 then Failure(IndexError("list index out of range"))
    else Success(Uploader(name, Join(newRoot, name), e.fullLinks, e.snapshots,
                          DerefPanels(st.heap, e.panels), DerefStamps(st.heap, e.stamps)))
  }

  /** The loop over `set_names`: one uploader per merged name. Set order is
      unspecified in Python, so the result is a map, and the exception (an
      IndexError) is raised if any name has no panels or no timestamps. */
  function Consolidate(st: MergeState, newRoot: string): (r: Result<map<string, Uploader>>)
    requires Valid(st)
    ensures r.Failure? <==> exists n | n in st.entries :: Adopt(st, n, newRoot).Failure?
    ensures r.Failure? ==> r.error.IndexError?
    ensures r.Success? ==> r.value.Keys == st.entries.Keys
    ensures r.Success? ==> forall n | n in r.value :: Success(r.value[n]) == Adopt(st, n, newRoot)
  {
    if exists n | n in st.entries :: Adopt(st, n, newRoot).Failure? then
      Failure(IndexError("list index out of range"))
    else
      Success(map n | n in st.entries :: Adopt(st, n, newRoot).value)
  }

  /** The YAML written for a merged name always carries `snapshot_urls`. */
  function MergedDoc(u: Uploader): (d: ManifestDoc)
    ensures d.snapshotUrls == Some(u.snapshotUrls)
    ensures d.name == u.name && d.chartsPath == u.chartsPath && d.fullLinks == u.fullLinks
    ensures d.timestamps == u.timestamps && d.panels == u.panels
  {
    ManifestDoc(u.name, u.chartsPath, u.fullLinks, u.timestamps, u.panels, Some(u.snapshotUrls))
  }

  /** A merged manifest can be loaded again: unlike a single run without
      snapshots, it always carries the key, and consolidation already
      demanded panels and timestamps. */
  lemma MergedReloads(st: MergeState, newRoot: string, name: string)
    requires Valid(st) && Consolidate(st, newRoot).Success?
    requires name in st.entries
    ensures var u := Consolidate(st, newRoot).value[name];
      var l := Load(MergedDoc(u));
      && l.Success?
      && l.value.name == name && l.value.chartsPath == Join(newRoot, name)
      && l.value.timestamps == u.timestamps && l.value.snapshotUrls == u.snapshotUrls
      && l.value.panels == Rebuild(u.panels, |u.timestamps|)
  {
    assert Success(Consolidate(st, newRoot).value[name]) == Adopt(st, name, newRoot);
  }

  /** The `.json` files directly in an upload folder, each copied to the
      merged root under its own name. */
  function JsonPairs(folder: string, entries: seq<string>, newRoot: string, files: set<string>): (r: seq<(string, string)>)
    decreases |entries|
    ensures forall pr :: pr in r <==>
              exists e | e in entries :: EndsWith(e, ".json") && Join(folder, e) in files && pr == (Join(folder, e), Join(newRoot, e))
  {
    if |entries| == 0 then []
    else
      var e := entries[0];
      var rest := JsonPairs(folder, entries[1..], newRoot, files);
      assert forall x :: x in entries <==> x == e || x in entries[1..] by {
        assert entries == [e] + entries[1..];
      }
      if EndsWith(e, ".json") && Join(folder, e) in files then [(Join(folder, e), Join(newRoot, e))] + rest else rest
  }

  /** The final loop over the upload folders; a missing folder raises
      FileNotFoundError. */
  function JsonCopies(fs: Fs, folders: seq<string>, newRoot: string): (r: Result<seq<(string, string)>>)
    decreases |folders|
    ensures r.Failure? <==> exists i | 0 <= i < |folders| :: folders[i] !in fs.dirs
    ensures r.Success? ==> forall pr :: pr in r.value <==>
              exists i | 0 <= i < |folders| :: pr in JsonPairs(folders[i], fs.dirs[folders[i]], newRoot, fs.files)
  {
    if |folders| == 0 then Success([])
    else
      var entries :- ListDir(fs, folders[0]);
      var rest :- JsonCopies(fs, folders[1..], newRoot);
      assert forall i | 1 <= i < |folders| :: folders[i] == folders[1..][i - 1];
      assert forall i | 0 <= i < |folders[1..]| :: folders[1..][i] == folders[i + 1];
      Success(JsonPairs(folders[0], entries, newRoot, fs.files) + rest)
  }

  /** The copies are made folder by folder, in the order the folders are
      given, so a later folder's same-named `.json` is copied last. */
  lemma {:induction false} JsonCopiesAppend(fs: Fs, a: seq<string>, b: seq<string>, newRoot: string)
    requires JsonCopies(fs, a + b, newRoot).Success?
    ensures JsonCopies(fs, a, newRoot).Success? && JsonCopies(fs, b, newRoot).Success?
    ensures JsonCopies(fs, a + b, newRoot).value == JsonCopies(fs, a, newRoot).value + JsonCopies(fs, b, newRoot).value
  {
    if |a| == 0 {
      assert a + b == b;
    } else {
      var ab := a + b;
      assert ab[0] == a[0] && ab[1..] == a[1..] + b;
      JsonCopiesAppend(fs, a[1..], b, newRoot);
    }
  }

  /** One existing folder contributes exactly its own `.json` copies. */
  lemma JsonCopiesSingle(fs: Fs, folder: string, newRoot: string)
    requires folder in fs.dirs
    ensures JsonCopies(fs, [folder], newRoot) == Success(JsonPairs(folder, fs.dirs[folder], newRoot, fs.files))
  {
    var own := JsonPairs(folder, fs.dirs[folder], newRoot, fs.files);
    assert [folder][1..] == [];
    assert JsonCopies(fs, [], newRoot) == Success([]);
    assert own + [] == own;
  }

  /** What the merge produces: the uploaders by name, every copy it makes,
      and the merged root folder. */
  datatype MergeOutput = MergeOutput(configs: map<string, Uploader>, copies: seq<(string, string)>, root: string)

  /** `os.path.join(test_root_folder, f'{test_id}__{current_time}')`; the
      time string is an input. */
  function NewRoot(testRoot: string, testId: string, now: string): (r: string)
    ensures EndsWith(r, testId + "__" + now)
  {
    Join(testRoot, testId + "__" + now)
  }

  /** `transform_grafana_configs`. */
  function Transform(cfgs: seq<Uploader>, folders: seq<string>, fs: Fs, newRoot: string): (r: Result<MergeOutput>)
    ensures r.Success? ==> Run(Start(cfgs), folders, Visits(folders, cfgs), fs, newRoot).Success?
    ensures r.Success? ==>
              var st := Run(Start(cfgs), folders, Visits(folders, cfgs), fs, newRoot).value;
              && Consolidate(st, newRoot) == Success(r.value.configs)
              && JsonCopies(fs, folders, newRoot).Success?
              && r.value.copies == st.copies + JsonCopies(fs, folders, newRoot).value
              && r.value.root == newRoot
  {
    var st :- Run(Start(cfgs), folders, Visits(folders, cfgs), fs, newRoot);
    var configs :- Consolidate(st, newRoot);
    var json :- JsonCopies(fs, folders, newRoot);
    Success(MergeOutput(configs, st.copies + json, newRoot))
  }

  /** The uploader of a merged name is built from that name's entry after
      the loops, and its charts live under the merged root. */
  lemma TransformEntry(cfgs: seq<Uploader>, folders: seq<string>, fs: Fs, newRoot: string, name: string)
    requires Transform(cfgs, folders, fs, newRoot).Success?
    requires name in Transform(cfgs, folders, fs, newRoot).value.configs
    ensures var st := Run(Start(cfgs), folders, Visits(folders, cfgs), fs, newRoot).value;
      var u := Transform(cfgs, folders, fs, newRoot).value.configs[name];
      && name in st.entries && Valid(st)
      && u.name == name && u.chartsPath == Join(newRoot, name)
      && u.fullLinks == st.entries[name].fullLinks
      && u.snapshotUrls == st.entries[name].snapshots
      && u.timestamps == DerefStamps(st.heap, st.entries[name].stamps)
      && u.panels == DerefPanels(st.heap, st.entries[name].panels)
  {
    var st := Run(Start(cfgs), folders, Visits(folders, cfgs), fs, newRoot).value;
    assert Success(Consolidate(st, newRoot).value[name]) == Adopt(st, name, newRoot);
  }

  /** The fold from the empty state collects, under each name, exactly the
      links of the manifests it matched. */
  lemma RunLinksFromStart(cfgs: seq<Uploader>, folders: seq<string>, fs: Fs, newRoot: string, name: string)
    requires Run(Start(cfgs), folders, Visits(folders, cfgs), fs, newRoot).Success?
    ensures At(Run(Start(cfgs), folders, Visits(folders, cfgs), fs, newRoot).value, name).fullLinks
            == CollectedLinks(cfgs, folders, Visits(folders, cfgs), name)
  {
    var visits := Visits(folders, cfgs);
    var st := Run(Start(cfgs), folders, visits, fs, newRoot).value;
    var links := CollectedLinks(cfgs, folders, visits, name);
    assert At(st, name).fullLinks == At(Start(cfgs), name).fullLinks + links by {
      RunFullLinks(Start(cfgs), folders, visits, fs, newRoot, name);
    }
    assert At(Start(cfgs), name).fullLinks == [];
    assert [] + links == links;
  }

  /** Likewise the snapshot links. */
  lemma RunSnapshotsFromStart(cfgs: seq<Uploader>, folders: seq<string>, fs: Fs, newRoot: string, name: string)
    requires Run(Start(cfgs), folders, Visits(folders, cfgs), fs, newRoot).Success?
    ensures At(Run(Start(cfgs), folders, Visits(folders, cfgs), fs, newRoot).value, name).snapshots
            == CollectedSnapshots(cfgs, folders, Visits(folders, cfgs), name)
  {
    var visits := Visits(folders, cfgs);
    var st := Run(Start(cfgs), folders, visits, fs, newRoot).value;
    var snaps := CollectedSnapshots(cfgs, folders, visits, name);
    assert At(st, name).snapshots == At(Start(cfgs), name).snapshots + snaps by {
      RunSnapshots(Start(cfgs), folders, visits, fs, newRoot, name);
    }
    assert At(Start(cfgs), name).snapshots == [];
    assert [] + snaps == snaps;
  }

  /** The merged uploader of a name holds the dashboard links of every
      manifest of that name, from every folder that matched it. */
  lemma TransformLinks(cfgs: seq<Uploader>, folders: seq<string>, fs: Fs, newRoot: string, name: string)
    requires Transform(cfgs, folders, fs, newRoot).Success?
    requires name in Transform(cfgs, folders, fs, newRoot).value.configs
    ensures Transform(cfgs, folders, fs, newRoot).value.configs[name].fullLinks
            == CollectedLinks(cfgs, folders, Visits(folders, cfgs), name)
  {
    var st := Run(Start(cfgs), folders, Visits(folders, cfgs), fs, newRoot).value;
    var u := Transform(cfgs, folders, fs, newRoot).value.configs[name];
    assert u.fullLinks == At(st, name).fullLinks by {
      TransformEntry(cfgs, folders, fs, newRoot, name);
    }
    RunLinksFromStart(cfgs, folders, fs, newRoot, name);
  }

  /** Likewise the snapshot links of every matched manifest of that name. */
  lemma TransformSnapshots(cfgs: seq<Uploader>, folders: seq<string>, fs: Fs, newRoot: string, name: string)
    requires Transform(cfgs, folders, fs, newRoot).Success?
    requires name in Transform(cfgs, folders, fs, newRoot).value.configs
    ensures Transform(cfgs, folders, fs, newRoot).value.configs[name].snapshotUrls
            == CollectedSnapshots(cfgs, folders, Visits(folders, cfgs), name)
  {
    var st := Run(Start(cfgs), folders, Visits(folders, cfgs), fs, newRoot).value;
    var u := Transform(cfgs, folders, fs, newRoot).value.configs[name];
    assert u.snapshotUrls == At(st, name).snapshots by {
      TransformEntry(cfgs, folders, fs, newRoot, name);
    }
    RunSnapshotsFromStart(cfgs, folders, fs, newRoot, name);
  }

  /** The merged uploader of a name has as many timestamps as all matched
      manifests of that name together, and as many panels as those matched
      by the first folder. */
  lemma TransformCounts(cfgs: seq<Uploader>, folders: seq<string>, fs: Fs, newRoot: string, name: string)
    requires Transform(cfgs, folders, fs, newRoot).Success?
    requires name in Transform(cfgs, folders, fs, newRoot).value.configs
    ensures var u := Transform(cfgs, folders, fs, newRoot).value.configs[name];
      && |u.timestamps| == CollectedStamps(cfgs, folders, Visits(folders, cfgs), name)
      && |u.panels| == CollectedPanels(cfgs, folders, Visits(folders, cfgs), name)
  {
    var visits := Visits(folders, cfgs);
    var st := Run(Start(cfgs), folders, visits, fs, newRoot).value;
    TransformEntry(cfgs, folders, fs, newRoot, name);
    RunCounts(Start(cfgs), folders, visits, fs, newRoot, name);
    assert At(st, name) == st.entries[name];
  }

  /** Without aliasing, each merged uploader's timestamp ids are 0, 1, 2, ... */
  lemma TransformIds(cfgs: seq<Uploader>, folders: seq<string>, fs: Fs, newRoot: string, name: string)
    requires forall c | 0 <= c < |cfgs| :: IdsFromZero(cfgs[c])
    requires MatchedOnce(cfgs, folders) && FirstFolderNamesDistinct(cfgs, folders)
    requires Transform(cfgs, folders, fs, newRoot).Success?
    requires name in Transform(cfgs, folders, fs, newRoot).value.configs
    ensures IdsFromZero(Transform(cfgs, folders, fs, newRoot).value.configs[name])
  {
    TransformEntry(cfgs, folders, fs, newRoot, name);
    MergedIdsSequential(cfgs, folders, fs, newRoot);
  }

  // ---------------------------------------------------------------------------
  // Renaming charts from later folders

  /** In `name + mid + ".png"`, where `name` has no ".png" and `mid` starts
      with '_' and has no '.', ".png" occurs only at the end. */
  lemma PngOnlyAtEnd(name: string, mid: string)
    requires !Contains(name, ".png")
    requires |mid| > 0 && mid[0] == '_' && forall k | 0 <= k < |mid| :: mid[k] != '.'
    ensures forall q: nat | OccursAt(name + mid + ".png", ".png", q) :: q == |name| + |mid|
  {
    var s := name + mid + ".png";
    forall q: nat | q < |name| + |mid| ensures !OccursAt(s, ".png", q) {
      if q + 4 <= |name| {
        assert name[q..q + 4] == s[q..q + 4];
        ContainsIff(name, ".png");
        assert !OccursAt(name, ".png", q);
      } else if q < |name| {
        assert s[|name|] == '_';
        assert s[q..q + 4][|name| - q] == s[|name|];
      } else {
        assert s[q] == mid[q - |name|];
        assert s[q..q + 4][0] == s[q];
      }
    }
  }

  /** Replacing the suffix `pat` of `head + pat` rewrites only the suffix
      when ".png", which ends `pat`, occurs nowhere else. */
  lemma ReplaceSuffix(head: string, pat: string, rep: string)
    requires |pat| >= 4 && EndsWith(pat, ".png")
    requires forall q: nat | OccursAt(head + pat, ".png", q) :: q == |head| + |pat| - 4
    ensures ReplaceAll(head + pat, pat, rep) == head + rep
  {
    var s := head + pat;
    var i := |head|;
    assert s[i..i + |pat|] == pat;
    forall j | 0 <= j < i ensures !OccursAt(s, pat, j) {
      if OccursAt(s, pat, j) {
        var q := j + |pat| - 4;
        assert s[q..q + 4] == s[j..j + |pat|][|pat| - 4..];
        assert OccursAt(s, ".png", q);
      }
    }
    ReplaceUnique(s, pat, rep, i);
    assert s[..i] == head;
    assert s[i + |pat|..] == [];
  }

  lemma IntToStringChars(i: int)
    ensures forall k | 0 <= k < |IntToString(i)| :: IsDigit(IntToString(i)[k]) || IntToString(i)[k] == '-'
  {
  }

  /** The digit run ending at `j` starts at `d` when `s[d..j]` is all digits
      and `s[d - 1]` is not a digit. */
  lemma {:induction false} DigitsBeforeStops(s: string, d: nat, j: nat)
    requires d <= j <= |s| && AllDigits(s[d..j])
    requires d > 0 && !IsDigit(s[d - 1])
    ensures DigitsBefore(s, j) == d
    decreases j
  {
    if j > d {
      assert IsDigit(s[d..j][j - 1 - d]);
      assert s[d..j - 1] == s[d..j][..j - 1 - d];
      DigitsBeforeStops(s, d, j - 1);
    }
  }

  /** Without a final newline, a name ending in ".png" is matched by the
      digits before that suffix. */
  lemma TrailingIdOfPng(s: string)
    requires |s| >= 4 && s[|s| - 1] != '\n' && s[|s| - 4..|s|] == ".png"
    ensures TrailingId(s) == IdBefore(s, |s| - 4)
  {
  }

  /** The digit run before `j` starts at `d`, is non-empty, and follows
      "__". */
  lemma IdBeforeAt(s: string, j: nat, d: nat)
    requires 2 <= d < j <= |s| && DigitsBefore(s, j) == d && s[d - 2..d] == "__"
    ensures IdBefore(s, j) == Some(DigitsValue(s[d..j]))
  {
  }

  /** The pattern finds a digit run between a "__"-terminated prefix and
      ".png". */
  lemma TrailingIdDigits(pre: string, ds: string)
    requires |pre| >= 2 && pre[|pre| - 2..] == "__"
    requires |ds| > 0 && AllDigits(ds)
    ensures TrailingId(pre + ds + ".png") == Some(DigitsValue(ds))
  {
    var s := pre + ds + ".png";
    var d := |pre|;
    var j := |s| - 4;
    assert s[|s| - 1] == 'g' && s[j..|s|] == ".png";
    assert s[d..j] == ds;
    assert s[d - 2..d] == "__" by {
      assert s[..d] == pre;
    }
    assert DigitsBefore(s, j) == d by {
      assert s[d - 1] == '_' by {
        assert s[..d] == pre;
        assert pre[d - 2..][1] == pre[d - 1];
      }
      DigitsBeforeStops(s, d, j);
    }
    TrailingIdOfPng(s);
    IdBeforeAt(s, j, d);
  }

  /** The pattern finds the decimal `t` between a "__"-terminated prefix
      and ".png". */
  lemma TrailingIdAfter(pre: string, t: nat)
    requires |pre| >= 2 && pre[|pre| - 2..] == "__"
    ensures TrailingId(pre + NatToString(t) + ".png") == Some(t)
  {
    TrailingIdDigits(pre, NatToString(t));
    DigitsValueOfNatToString(t);
  }

  /** A chart written by this tool yields its timestamp id to the merge's
      pattern `__(\d+)\.png$`. */
  lemma TrailingIdOfChart(name: string, p: int, t: nat)
    ensures TrailingId(Urls.ChartFileName(name, p, t)) == Some(t)
  {
    var pre := name + "__" + IntToString(p) + "__";
    assert Urls.ChartFileName(name, p, t) == pre + NatToString(t) + ".png" by {
      assert IntToString(t) == NatToString(t);
    }
    TrailingIdAfter(pre, t);
  }

  /** The part of a chart file name between the dashboard name and ".png"
      holds only '_', '-' and digits. */
  lemma MiddleHasNoDot(p: int, t: nat)
    ensures var mid := "__" + IntToString(p) + "__" + NatToString(t);
      |mid| > 0 && mid[0] == '_' && forall k | 0 <= k < |mid| :: mid[k] != '.'
  {
    var ps := IntToString(p);
    var ds := NatToString(t);
    var mid := "__" + ps + "__" + ds;
    IntToStringChars(p);
    forall k | 0 <= k < |mid| ensures mid[k] != '.' {
      if 2 <= k < 2 + |ps| {
        assert mid[k] == ps[k - 2];
      } else if 4 + |ps| <= k {
        assert mid[k] == ds[k - 4 - |ps|];
      }
    }
  }

  lemma ChartFileNameSplit(name: string, p: int, t: nat)
    ensures var ps := IntToString(p);
      var ds := NatToString(t);
      && Urls.ChartFileName(name, p, t) == (name + "__" + ps) + ("__" + ds + ".png")
      && Urls.ChartFileName(name, p, t) == name + ("__" + ps + "__" + ds) + ".png"
  {
    var ps := IntToString(p);
    var ds := NatToString(t);
    assert IntToString(t) == ds;
    assert Urls.ChartFileName(name, p, t) == name + "__" + ps + "__" + ds + ".png";
    Regroup(name, "__", ps, "__", ds, ".png");
  }

  /** In a chart file name, replacing "__<t>.png" rewrites only the
      suffix. */
  lemma RenumberSuffix(name: string, p: int, t: nat, offset: int)
    requires !Contains(name, ".png")
    ensures ReplaceAll(Urls.ChartFileName(name, p, t), "__" + NatToString(t) + ".png", "__" + IntToString(t + offset) + ".png")
            == Urls.ChartFileName(name, p, t + offset)
  {
    var s := Urls.ChartFileName(name, p, t);
    var ps := IntToString(p);
    var ds := NatToString(t);
    var head := name + "__" + ps;
    var pat := "__" + ds + ".png";
    var rep := "__" + IntToString(t + offset) + ".png";
    ChartFileNameSplit(name, p, t);
    assert forall q: nat | OccursAt(s, ".png", q) :: q == |head| + |pat| - 4 by {
      MiddleHasNoDot(p, t);
      PngOnlyAtEnd(name, "__" + ps + "__" + ds);
    }
    assert EndsWith(pat, ".png") by {
      EndsWithConcat("__" + ds, ".png");
    }
    ReplaceSuffix(head, pat, rep);
    Regroup(name, "__", ps, "__", IntToString(t + offset), ".png");
  }

  /** Charts from a later run are renumbered by shifting their timestamp id:
      `<name>__<panel>__<t>.png` becomes `<name>__<panel>__<t + offset>.png`,
      provided the dashboard name does not itself contain ".png". */
  lemma RenameChart(name: string, p: int, t: nat, offset: int)
    requires !Contains(name, ".png")
    ensures Renamed(Urls.ChartFileName(name, p, t), offset) == Success(Urls.ChartFileName(name, p, t + offset))
  {
    TrailingIdOfChart(name, p, t);
    RenamedFound(Urls.ChartFileName(name, p, t), offset, t);
    RenumberSuffix(name, p, t, offset);
  }

  lemma RenamedFound(entry: string, offset: int, n: nat)
    requires TrailingId(entry) == Some(n)
    ensures Renamed(entry, offset) == Success(ReplaceAll(entry, "__" + NatToString(n) + ".png", "__" + IntToString(n + offset) + ".png"))
  {
  }
}

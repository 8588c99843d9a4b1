/** The per-dashboard manifest written after acquisition and read back for a
    later upload (services/grafana.py:46-66, 301-314;
    services/args_parser.py:21-29). YAML text is not modelled: a manifest is
    the record the YAML dump and load carry. Also the file-system view used
    by the upload path (main.py:204-213). */
module Manifest {
  import opened Wrappers
  import opened Text
  import opened TimeArgs
  import opened Dashboard

  /** A manifest as written to and read from `<name>.yaml`. The
      `snapshot_urls` key may be absent. */
  datatype ManifestDoc = ManifestDoc(
    name: string,
    chartsPath: string,
    fullLinks: seq<string>,
    timestamps: seq<Timestamp>,
    panels: seq<Panel>,
    snapshotUrls: Option<seq<string>>)

  /** `GrafanaConfigUploader`: a dashboard's data ready for upload. */
  datatype Uploader = Uploader(
    name: string,
    chartsPath: string,
    fullLinks: seq<string>,
    snapshotUrls: seq<string>,
    panels: seq<Panel>,
    timestamps: seq<Timestamp>)

  /** `__save_params_to_file`: the snapshot list is written only when it is
      non-empty. */
  function Save(name: string, chartsPath: string, fullLinks: seq<string>, timestamps: seq<Timestamp>,
                panels: seq<Panel>, snapshots: Option<seq<string>>): (d: ManifestDoc)
    ensures d.snapshotUrls.Some? <==> snapshots.Some? && |snapshots.value| > 0
    ensures d.snapshotUrls.Some? ==> d.snapshotUrls == snapshots
    ensures d.name == name && d.chartsPath == chartsPath && d.fullLinks == fullLinks
    ensures d.timestamps == timestamps && d.panels == panels
  {
    var kept := if snapshots.Some? && |snapshots.value| > 0 then snapshots else None;
    ManifestDoc(name, chartsPath, fullLinks, timestamps, panels, kept)
  }

  /** Panels rebuilt from manifest dicts: id, type and title kept, links
      replaced by `count` empty slots. */
  function Rebuild(panels: seq<Panel>, count: nat): (r: seq<Panel>)
    ensures |r| == |panels|
    ensures forall i | 0 <= i < |r| ::
              && r[i].id == panels[i].id && r[i].kind == panels[i].kind && r[i].title == panels[i].title
              && |r[i].links| == count
              && forall t | 0 <= t < count :: r[i].links[t].None?
  {
    seq(|panels|, i requires 0 <= i < |panels| => NewPanel(panels[i].id, panels[i].kind, panels[i].title, count))
  }

  /** `GrafanaConfigUploader(config['name'], config)` on a loaded manifest,
      with its checks in the code's order: `config['panels'][0]`, then
      `config['snapshot_urls']`, then `config['timestamps'][0]`. */
  function Load(d: ManifestDoc): (r: Result<Uploader>)
    ensures |d.panels| == 0 ==> r == Failure(IndexError("panels"))
    ensures |d.panels| > 0 && d.snapshotUrls.None? ==> r == Failure(KeyError("snapshot_urls"))
    ensures |d.panels| > 0 && d.snapshotUrls.Some? && |d.timestamps| == 0 ==> r == Failure(IndexError("timestamps"))
    ensures r.Success? <==> |d.panels| > 0 && d.snapshotUrls.Some? && |d.timestamps| > 0
    ensures r.Success? ==>
              && r.value.name == d.name && r.value.chartsPath == d.chartsPath
              && r.value.fullLinks == d.fullLinks && r.value.snapshotUrls == d.snapshotUrls.value
              && r.value.timestamps == d.timestamps
              && r.value.panels == Rebuild(d.panels, |d.timestamps|)
  {
    if |d.panels| == 0 then Failure(IndexError("panels"))
    else
      var panels := Rebuild(d.panels, |d.timestamps|);
      if d.snapshotUrls.None? then Failure(KeyError("snapshot_urls"))
      else if |d.timestamps| == 0 then Failure(IndexError("timestamps"))
      else Success(Uploader(d.name, d.chartsPath, d.fullLinks, d.snapshotUrls.value, panels, d.timestamps))
  }

  /** Reading back what acquisition wrote: it loads exactly when there were
      panels, timestamps and at least one snapshot; every field survives
      except the panels' links, which come back empty. */
  lemma LoadAfterSave(name: string, chartsPath: string, fullLinks: seq<string>, timestamps: seq<Timestamp>,
                      panels: seq<Panel>, snapshots: Option<seq<string>>)
    ensures var r := Load(Save(name, chartsPath, fullLinks, timestamps, panels, snapshots));
      && (r.Success? <==> |panels| > 0 && |timestamps| > 0 && snapshots.Some? && |snapshots.value| > 0)
      && (r.Success? ==>
            && r.value == Uploader(name, chartsPath, fullLinks, snapshots.value, r.value.panels, timestamps)
            && |r.value.panels| == |panels|
            && forall i | 0 <= i < |panels| ::
                 && r.value.panels[i].id == panels[i].id
                 && r.value.panels[i].kind == panels[i].kind
                 && r.value.panels[i].title == panels[i].title
                 && |r.value.panels[i].links| == |timestamps|
                 && forall t | 0 <= t < |timestamps| :: r.value.panels[i].links[t].None?)
  {
  }

  /** A run without snapshots writes a manifest that cannot be loaded for
      upload: the constructor reads `snapshot_urls` unconditionally. */
  lemma NoSnapshotsNoReload(name: string, chartsPath: string, fullLinks: seq<string>, timestamps: seq<Timestamp>,
                            panels: seq<Panel>, snapshots: Option<seq<string>>)
    requires |panels| > 0
    requires snapshots.None? || |snapshots.value| == 0
    ensures Load(Save(name, chartsPath, fullLinks, timestamps, panels, snapshots)) == Failure(KeyError("snapshot_urls"))
  {
  }

  /** Links captured before saving are not carried into the upload: two
      runs that differ only in their links load identically. */
  lemma StoredLinksIgnored(d: ManifestDoc, links: seq<seq<Option<string>>>)
    requires |links| == |d.panels|
    ensures var e := d.(panels := seq(|d.panels|, i requires 0 <= i < |d.panels| => d.panels[i].(links := links[i])));
      Load(e) == Load(d)
  {
    var e := d.(panels := seq(|d.panels|, i requires 0 <= i < |d.panels| => d.panels[i].(links := links[i])));
    assert Rebuild(e.panels, |e.timestamps|) == Rebuild(d.panels, |d.timestamps|);
  }

  // ---------------------------------------------------------------------------
  // The file system as seen by the upload path

  /** Directory listings by path, and the set of paths that are regular
      files. */
  datatype Fs = Fs(dirs: map<string, seq<string>>, files: set<string>)

  /** `os.listdir`: FileNotFoundError for a directory that does not exist. */
  function ListDir(fs: Fs, dir: string): (r: Result<seq<string>>)
    ensures r.Success? <==> dir in fs.dirs
    ensures r.Success? ==> r.value == fs.dirs[dir]
    ensures r.Failure? ==> r.error == FileNotFoundError(dir)
  {
    if dir in fs.dirs then Success(fs.dirs[dir]) else Failure(FileNotFoundError(dir))
  }

  /** `get_yaml_files`: the joined paths of the entries that are regular
      files and end in `.yaml`, in listing order. */
  function YamlPaths(dir: string, entries: seq<string>, files: set<string>): (r: seq<string>)
    decreases |entries|
    ensures |r| <= |entries|
    ensures forall p :: p in r <==>
              exists e | e in entries :: p == Join(dir, e) && Join(dir, e) in files && EndsWith(e, ".yaml")
  {
    if |entries| == 0 then []
    else
      var e := entries[0];
      var rest := YamlPaths(dir, entries[1..], files);
      assert forall x :: x in entries <==> x == e || x in entries[1..] by {
        assert entries == [e] + entries[1..];
      }
      if Join(dir, e) in files && EndsWith(e, ".yaml") then [Join(dir, e)] + rest else rest
  }

  /** Listing order is kept: the paths of a concatenated listing are the
      paths of each part, in order. */
  lemma {:induction false} YamlPathsAppend(dir: string, a: seq<string>, b: seq<string>, files: set<string>)
    ensures YamlPaths(dir, a + b, files) == YamlPaths(dir, a, files) + YamlPaths(dir, b, files)
  {
    if |a| == 0 {
      assert a + b == b;
    } else {
      var ab := a + b;
      assert ab[0] == a[0] && ab[1..] == a[1..] + b;
      YamlPathsAppend(dir, a[1..], b, files);
    }
  }

  /** One entry yields its joined path exactly when it is a regular `.yaml`
      file. */
  lemma YamlPathsSingle(dir: string, e: string, files: set<string>)
    ensures YamlPaths(dir, [e], files) == if Join(dir, e) in files && EndsWith(e, ".yaml") then [Join(dir, e)] else []
  {
    assert [e][1..] == [];
  }

  function GetYamlFiles(fs: Fs, dir: string): (r: Result<seq<string>>)
    ensures r.Failure? <==> dir !in fs.dirs
    ensures r.Success? ==> r.value == YamlPaths(dir, fs.dirs[dir], fs.files)
  {
    var entries :- ListDir(fs, dir);
    Success(YamlPaths(dir, entries, fs.files))
  }
}

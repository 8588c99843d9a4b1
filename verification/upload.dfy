/** The upload path for charts captured earlier (main.py:67-96, 204-213):
    every `.yaml` manifest of every upload folder is loaded, and the loaded
    dashboards are merged only when more than one folder is given. YAML
    parsing is an input `docs` (the manifest a path holds); the clock that
    names the merged folder is an input `now`. */
module Upload {
  import opened Wrappers
  import opened Text
  import opened TimeArgs
  import opened Manifest
  import opened Merge

  /** The manifest paths `get_yaml_files` finds in an existing folder. */
  function Manifests(fs: Fs, folder: string): seq<string>
    requires folder in fs.dirs
  {
    YamlPaths(folder, fs.dirs[folder], fs.files)
  }

  /** The inner loop: every manifest of one folder, in listing order. */
  function LoadFolder(fs: Fs, docs: string -> ManifestDoc, folder: string): (r: Result<seq<Uploader>>)
    ensures r.Success? <==>
              folder in fs.dirs && forall i | 0 <= i < |Manifests(fs, folder)| :: Load(docs(Manifests(fs, folder)[i])).Success?
    ensures folder !in fs.dirs ==> r == Failure(FileNotFoundError(folder))
    ensures r.Success? ==> |r.value| == |Manifests(fs, folder)|
    ensures r.Success? ==> forall i | 0 <= i < |r.value| :: Load(docs(Manifests(fs, folder)[i])) == Success(r.value[i])
  {
    var paths :- GetYamlFiles(fs, folder);
    assert paths == Manifests(fs, folder);
    var load := p => Load(docs(p));
    assert forall i | 0 <= i < |paths| :: load(paths[i]) == Load(docs(paths[i]));
    var r := MapResult(paths, load);
    assert r.Success? <==> forall i | 0 <= i < |paths| :: Load(docs(paths[i])).Success?;
    r
  }

  /** The outer loop over the upload folders. */
  function LoadAll(fs: Fs, docs: string -> ManifestDoc, folders: seq<string>): (r: Result<seq<Uploader>>)
    decreases |folders|
    ensures r.Success? <==> forall i | 0 <= i < |folders| :: LoadFolder(fs, docs, folders[i]).Success?
    ensures r.Success? ==> forall u :: u in r.value <==>
              exists i | 0 <= i < |folders| :: u in LoadFolder(fs, docs, folders[i]).value
  {
    var load := folder => LoadFolder(fs, docs, folder);
    assert forall i | 0 <= i < |folders| :: load(folders[i]) == LoadFolder(fs, docs, folders[i]);
    FlatMapResult(folders, load)
  }

  /** Folder order is kept: loading a concatenation of folder lists loads
      each list and concatenates the results. */
  lemma LoadAllAppend(fs: Fs, docs: string -> ManifestDoc, a: seq<string>, b: seq<string>)
    requires LoadAll(fs, docs, a + b).Success?
    ensures LoadAll(fs, docs, a).Success? && LoadAll(fs, docs, b).Success?
    ensures LoadAll(fs, docs, a + b).value == LoadAll(fs, docs, a).value + LoadAll(fs, docs, b).value
  {
    FlatMapResultAppend(a, b, folder => LoadFolder(fs, docs, folder));
  }

  /** A single folder loads as that folder. */
  lemma LoadAllSingle(fs: Fs, docs: string -> ManifestDoc, folder: string)
    ensures LoadAll(fs, docs, [folder]) == LoadFolder(fs, docs, folder)
  {
    FlatMapResultSingle(folder, f => LoadFolder(fs, docs, f));
  }

  /** What is uploaded: the loaded dashboards as they are, or the merged ones. */
  datatype Plan =
    | Unmerged(configs: seq<Uploader>)
    | Merged(out: MergeOutput)

  /** `upload_already_downloaded_graphs` up to the uploads: load, then merge
      only when `len(test_upload_folders) > 1`. */
  function PrepareUpload(fs: Fs, docs: string -> ManifestDoc, folders: seq<string>,
                         testRoot: string, testId: string, now: string): (r: Result<Plan>)
    ensures LoadAll(fs, docs, folders).Failure? ==> r == Failure(LoadAll(fs, docs, folders).error)
    ensures |folders| <= 1 ==>
              && (r.Success? <==> LoadAll(fs, docs, folders).Success?)
              && (r.Success? ==> r.value == Unmerged(LoadAll(fs, docs, folders).value))
    ensures |folders| > 1 && r.Success? ==>
              && r.value.Merged?
              && Transform(LoadAll(fs, docs, folders).value, folders, fs, NewRoot(testRoot, testId, now))
                 == Success(r.value.out)
  {
    var cfgs :- LoadAll(fs, docs, folders);
    if |folders| > 1 then
      var out :- Transform(cfgs, folders, fs, NewRoot(testRoot, testId, now));
      Success(Merged(out))
    else Success(Unmerged(cfgs))
  }

  /** The directories whose files are attached: `charts_path` of every
      dashboard to upload. */
  function ChartDirs(p: Plan): set<string> {
    match p
    case Unmerged(cs) => set u | u in cs :: u.chartsPath
    case Merged(out) => set n | n in out.configs :: out.configs[n].chartsPath
  }

  /** Several folders: every attachment comes from a per-name folder under
      the new merged root, one for each merged name. */
  lemma MergedChartsUnderRoot(fs: Fs, docs: string -> ManifestDoc, folders: seq<string>,
                              testRoot: string, testId: string, now: string)
    requires PrepareUpload(fs, docs, folders, testRoot, testId, now).Success?
    requires |folders| > 1
    ensures var p := PrepareUpload(fs, docs, folders, testRoot, testId, now).value;
      ChartDirs(p) == set n | n in p.out.configs :: Join(NewRoot(testRoot, testId, now), n)
  {
    var cfgs := LoadAll(fs, docs, folders).value;
    var root := NewRoot(testRoot, testId, now);
    var p := PrepareUpload(fs, docs, folders, testRoot, testId, now).value;
    forall n | n in p.out.configs
      ensures p.out.configs[n].chartsPath == Join(root, n)
    {
      TransformEntry(cfgs, folders, fs, root, n);
    }
  }

  /** One folder: nothing is copied, and every attachment directory is the
      `charts_path` recorded in one of the folder's manifests. */
  lemma SingleFolderInPlace(fs: Fs, docs: string -> ManifestDoc, folder: string,
                            testRoot: string, testId: string, now: string)
    requires PrepareUpload(fs, docs, [folder], testRoot, testId, now).Success?
    ensures folder in fs.dirs
    ensures var p := PrepareUpload(fs, docs, [folder], testRoot, testId, now).value;
      && p.Unmerged?
      && forall d | d in ChartDirs(p) ::
           exists i | 0 <= i < |Manifests(fs, folder)| :: docs(Manifests(fs, folder)[i]).chartsPath == d
  {
    var p := PrepareUpload(fs, docs, [folder], testRoot, testId, now).value;
    var loaded := LoadFolder(fs, docs, folder).value;
    assert LoadFolder(fs, docs, [folder][0]).Success?;
    forall d | d in ChartDirs(p)
      ensures exists i | 0 <= i < |Manifests(fs, folder)| :: docs(Manifests(fs, folder)[i]).chartsPath == d
    {
      var u :| u in p.configs && u.chartsPath == d;
      assert u in loaded;
      var i :| 0 <= i < |loaded| && loaded[i] == u;
      assert Load(docs(Manifests(fs, folder)[i])) == Success(u);
    }
  }

  /** The page's windows are those of the first dashboard uploaded
      (`grafana_configs[0].timestamps`); with nothing loaded this raises. */
  function FirstWindows(configs: seq<Uploader>): (r: Result<seq<Timestamp>>)
    ensures r.Failure? <==> |configs| == 0
    ensures r.Failure? ==> r.error.IndexError?
    ensures r.Success? ==> r.value == configs[0].timestamps
  {
    if |configs| == 0 then Failure(IndexError("list index out of range")) else Success(configs[0].timestamps)
  }

  /** The first loaded dashboard comes from the first manifest listed in the
      first upload folder, whatever the other folders hold. It is the page's
      dashboard only when nothing is merged (`SingleFolderPageWindows`). */
  lemma FirstWindowsOfFirstFolder(fs: Fs, docs: string -> ManifestDoc, folders: seq<string>)
    requires LoadAll(fs, docs, folders).Success?
    requires |folders| > 0 && folders[0] in fs.dirs && |Manifests(fs, folders[0])| > 0
    ensures FirstWindows(LoadAll(fs, docs, folders).value) == Success(docs(Manifests(fs, folders[0])[0]).timestamps)
  {
    assert folders == [folders[0]] + folders[1..];
    LoadAllAppend(fs, docs, [folders[0]], folders[1..]);
    LoadAllSingle(fs, docs, folders[0]);
    var first := LoadFolder(fs, docs, folders[0]).value;
    assert |first| > 0;
    assert Load(docs(Manifests(fs, folders[0])[0])) == Success(first[0]);
  }

  /** With a single upload folder nothing is merged, so the page's windows
      (`grafana_configs[0].timestamps`) are those of the folder's first
      manifest. */
  lemma SingleFolderPageWindows(fs: Fs, docs: string -> ManifestDoc, folder: string,
                                testRoot: string, testId: string, now: string)
    requires PrepareUpload(fs, docs, [folder], testRoot, testId, now).Success?
    requires folder in fs.dirs && |Manifests(fs, folder)| > 0
    ensures var p := PrepareUpload(fs, docs, [folder], testRoot, testId, now).value;
      && p.Unmerged?
      && FirstWindows(p.configs) == Success(docs(Manifests(fs, folder)[0]).timestamps)
  {
    FirstWindowsOfFirstFolder(fs, docs, [folder]);
  }

  /** A single upload folder without manifests reaches no upload: the page
      step raises IndexError. */
  lemma EmptyFolderHasNoWindows(fs: Fs, docs: string -> ManifestDoc, folder: string,
                                testRoot: string, testId: string, now: string)
    requires folder in fs.dirs && |Manifests(fs, folder)| == 0
    ensures PrepareUpload(fs, docs, [folder], testRoot, testId, now) == Success(Unmerged([]))
    ensures FirstWindows(PrepareUpload(fs, docs, [folder], testRoot, testId, now).value.configs).Failure?
  {
    var paths := Manifests(fs, folder);
    assert paths == [];
    assert GetYamlFiles(fs, folder) == Success([]);
    assert LoadFolder(fs, docs, folder) == Success([]);
    var xs := [folder];
    assert xs[0] == folder && xs[1..] == [];
    var rest := LoadAll(fs, docs, xs[1..]);
    assert rest == Success([]);
    assert !LoadFolder(fs, docs, xs[0]).IsFailure() && LoadFolder(fs, docs, xs[0]).Extract() == [];
    var all := LoadAll(fs, docs, xs);
    assert all == Success([] + []);
    assert all.value == [];
    assert PrepareUpload(fs, docs, xs, testRoot, testId, now) == Success(Unmerged(all.value));
  }
}

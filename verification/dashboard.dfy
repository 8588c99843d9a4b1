/** Dashboard resolution and panel-tree flattening (services/grafana.py:27-35,
    335-381). The search endpoint's and the dashboard endpoint's responses are
    inputs: a status code and the decoded JSON, modelled as datatypes. */
module Dashboard {
  import opened Wrappers

  /** `Panel`: a captured panel with one link slot per timestamp. */
  datatype Panel = Panel(id: int, kind: string, title: string, links: seq<Option<string>>)

  /** `Panel(panel_id, graph_type, title, timestamps_count)`: every slot empty. */
  function NewPanel(id: int, kind: string, title: string, count: nat): (p: Panel)
    ensures p.id == id && p.kind == kind && p.title == title
    ensures |p.links| == count
    ensures forall i | 0 <= i < count :: p.links[i].None?
  {
    Panel(id, kind, title, seq(count, _ => None))
  }

  /** An element of a dashboard's `panels` array: a dict with a `panels` key
      (a row holding nested panels), or a plain panel whose `title` key may
      be absent. */
  datatype RawPanel =
    | Leaf(id: int, kind: string, title: Option<string>)
    | Group(children: seq<RawPanel>)

  /** `extract_panels`: the leaves in depth-first document order; an element
      with nested panels is replaced by their flattening. */
  function Flatten(ps: seq<RawPanel>): (r: seq<RawPanel>)
    decreases ps
    ensures forall i | 0 <= i < |r| :: r[i].Leaf?
  {
    if |ps| == 0 then []
    else
      var head := match ps[0]
        case Leaf(_, _, _) => [ps[0]]
        case Group(cs) => Flatten(cs);
      head + Flatten(ps[1..])
  }

  /** Number of leaves in a forest. */
  function LeafCount(ps: seq<RawPanel>): nat
    decreases ps
  {
    if |ps| == 0 then 0
    else
      (match ps[0]
       case Leaf(_, _, _) => 1
       case Group(cs) => LeafCount(cs))
      + LeafCount(ps[1..])
  }

  lemma {:induction false} FlattenAppend(a: seq<RawPanel>, b: seq<RawPanel>)
    ensures Flatten(a + b) == Flatten(a) + Flatten(b)
    decreases a
  {
    if |a| == 0 {
      assert a + b == b;
    } else {
      assert (a + b)[0] == a[0];
      assert (a + b)[1..] == a[1..] + b;
      FlattenAppend(a[1..], b);
      var head := match a[0]
        case Leaf(_, _, _) => [a[0]]
        case Group(cs) => Flatten(cs);
      calc {
        Flatten(a + b);
        head + Flatten(a[1..] + b);
        head + (Flatten(a[1..]) + Flatten(b));
        (head + Flatten(a[1..])) + Flatten(b);
      }
    }
  }

  /** Flattening keeps exactly the leaves: one output element per leaf. */
  lemma {:induction false} FlattenLength(ps: seq<RawPanel>)
    ensures |Flatten(ps)| == LeafCount(ps)
    decreases ps
  {
    if |ps| > 0 {
      match ps[0] {
        case Leaf(_, _, _) =>
        case Group(cs) => FlattenLength(cs);
      }
      FlattenLength(ps[1..]);
    }
  }

  /** A forest without groups is its own flattening, so flattening twice is
      flattening once. */
  lemma {:induction false} FlattenIdempotent(ps: seq<RawPanel>)
    ensures Flatten(Flatten(ps)) == Flatten(ps)
  {
    FlattenFlat(Flatten(ps));
  }

  lemma {:induction false} FlattenFlat(ps: seq<RawPanel>)
    requires forall i | 0 <= i < |ps| :: ps[i].Leaf?
    ensures Flatten(ps) == ps
    decreases ps
  {
    if |ps| > 0 {
      FlattenFlat(ps[1..]);
    }
  }

  /** Weight for the iterative traversal: every node counts one. */
  function Weight(ps: seq<RawPanel>): nat
    decreases ps
  {
    if |ps| == 0 then 0
    else
      (match ps[0]
       case Leaf(_, _, _) => 1
       case Group(cs) => 1 + Weight(cs))
      + Weight(ps[1..])
  }

  lemma {:induction false} WeightAppend(a: seq<RawPanel>, b: seq<RawPanel>)
    ensures Weight(a + b) == Weight(a) + Weight(b)
    decreases a
  {
    if |a| == 0 {
      assert a + b == b;
    } else {
      assert (a + b)[0] == a[0];
      assert (a + b)[1..] == a[1..] + b;
      WeightAppend(a[1..], b);
      assert Weight(a + b) == Weight([a[0]]) + Weight(a[1..] + b);
    }
  }

  /** The flattening done with an explicit work list instead of recursion,
      so that deeply nested dashboards do not exhaust the call stack; it
      returns the same panels in the same order. */
  method FlattenIterative(ps: seq<RawPanel>) returns (out: seq<RawPanel>)
    ensures out == Flatten(ps)
  {
    out := [];
    var work := ps;
    while |work| > 0
      invariant out + Flatten(work) == Flatten(ps)
      decreases Weight(work)
    {
      var x := work[0];
      assert work == [x] + work[1..];
      match x {
        case Leaf(_, _, _) =>
          FlattenAppend([x], work[1..]);
          WeightAppend([x], work[1..]);
          out := out + [x];
          work := work[1..];
        case Group(cs) =>
          FlattenAppend([x], work[1..]);
          FlattenAppend(cs, work[1..]);
          WeightAppend([x], work[1..]);
          WeightAppend(cs, work[1..]);
          work := cs + work[1..];
      }
    }
  }

  /** `get_panels` after a successful fetch: one Panel per leaf, titled 'Row'
      when the title key is absent, with `count` empty link slots. */
  function PanelsOf(raw: seq<RawPanel>, count: nat): (r: seq<Panel>)
    ensures |r| == |Flatten(raw)|
    ensures forall i | 0 <= i < |r| ::
              var leaf := Flatten(raw)[i];
              && r[i].id == leaf.id && r[i].kind == leaf.kind
              && r[i].title == leaf.title.GetOr("Row")
              && |r[i].links| == count
              && forall t | 0 <= t < count :: r[i].links[t].None?
  {
    var leaves := Flatten(raw);
    seq(|leaves|, i requires 0 <= i < |leaves| =>
      NewPanel(leaves[i].id, leaves[i].kind, leaves[i].title.GetOr("Row"), count))
  }

  /** `get_panels`: a non-200 dashboard fetch raises ConnectionError. */
  function GetPanels(status: int, raw: seq<RawPanel>, count: nat): (r: Result<seq<Panel>>)
    ensures r.Failure? <==> status != 200
    ensures r.Failure? ==> r.error.ConnectionError?
    ensures r.Success? ==> r.value == PanelsOf(raw, count) && |r.value| == LeafCount(raw)
  {
    FlattenLength(raw);
    if status != 200 then Failure(ConnectionError("dashboard details"))
    else Success(PanelsOf(raw, count))
  }

  /** One hit of `/api/search`. */
  datatype SearchHit = SearchHit(title: string, uid: string, url: string)

  /** `get_dashboard_uid`: `(uid, url)` of the first hit whose title equals
      the configured title exactly. */
  function ResolveDashboard(status: int, hits: seq<SearchHit>, title: string): (r: Result<(string, string)>)
    ensures status != 200 ==> r.Failure? && r.error.ConnectionError?
    ensures status == 200 ==>
              (r.Success? <==> exists i | 0 <= i < |hits| :: hits[i].title == title)
    ensures status == 200 && r.Failure? ==> r.error.ValueError?
    ensures r.Success? ==> exists i | 0 <= i < |hits| ::
              && hits[i].title == title
              && r.value == (hits[i].uid, hits[i].url)
              && forall j | 0 <= j < i :: hits[j].title != title
  {
    if status != 200 then Failure(ConnectionError("dashboard list"))
    else FirstTitleMatch(hits, title, 0)
  }

  function FirstTitleMatch(hits: seq<SearchHit>, title: string, from: nat): (r: Result<(string, string)>)
    requires from <= |hits|
    requires forall j | 0 <= j < from :: hits[j].title != title
    decreases |hits| - from
    ensures r.Success? <==> exists i | 0 <= i < |hits| :: hits[i].title == title
    ensures r.Failure? ==> r.error.ValueError?
    ensures r.Success? ==> exists i | from <= i < |hits| ::
              && hits[i].title == title
              && r.value == (hits[i].uid, hits[i].url)
              && forall j | 0 <= j < i :: hits[j].title != title
  {
    if from == |hits| then Failure(ValueError("dashboard not found"))
    else if hits[from].title == title then Success((hits[from].uid, hits[from].url))
    else FirstTitleMatch(hits, title, from + 1)
  }
}

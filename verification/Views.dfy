/** Views of a topology and their validation (`topology/view.go`,
    `topology/validate.go`). */
module Views {

  /** A 64-bit float as far as views look at it. */
  datatype Coordinate = Finite(value: real) | NaN | Infinite(negative: bool)

  datatype Position = Position(x: Coordinate, y: Coordinate)

  datatype NodeView = NodeView(node: string, position: Position)

  datatype LinkView = LinkView(link: string, points: seq<Position>)

  datatype View = View(id: string, nodes: seq<NodeView>, links: seq<LinkView>)

  ghost predicate IsFinite(p: Position) {
    p.x.Finite? && p.y.Finite?
  }

  ghost predicate PointsFinite(points: seq<Position>) {
    forall i :: 0 <= i < |points| ==> IsFinite(points[i])
  }

  /** `validPosition`. */
  predicate ValidPosition(p: Position) {
    !p.x.NaN? && !p.x.Infinite? && !p.y.NaN? && !p.y.Infinite?
  }

  method CheckPoints(points: seq<Position>) returns (ok: bool)
    ensures ok <==> PointsFinite(points)
  {
    for i := 0 to |points|
      invariant forall j :: 0 <= j < i ==> IsFinite(points[j])
    {
      if !ValidPosition(points[i]) {
        return false;
      }
    }
    ok := true;
  }

  /** A view places some of the nodes, each once, at finite positions. */
  ghost predicate NodesPlaced(placed: seq<NodeView>, nodes: set<string>) {
    && (forall i :: 0 <= i < |placed| ==> placed[i].node in nodes && IsFinite(placed[i].position))
    && (forall i, j :: 0 <= i < j < |placed| ==> placed[i].node != placed[j].node)
  }

  ghost predicate LinksPlaced(placed: seq<LinkView>, links: set<string>) {
    && (forall i :: 0 <= i < |placed| ==> placed[i].link in links && PointsFinite(placed[i].points))
    && (forall i, j :: 0 <= i < j < |placed| ==> placed[i].link != placed[j].link)
  }

  ghost predicate ViewValid(view: View, nodes: set<string>, links: set<string>) {
    view.id != "" && NodesPlaced(view.nodes, nodes) && LinksPlaced(view.links, links)
  }

  ghost predicate ViewsValid(views: seq<View>, nodes: set<string>, links: set<string>) {
    && (forall i :: 0 <= i < |views| ==> ViewValid(views[i], nodes, links))
    && (forall i, j :: 0 <= i < j < |views| ==> views[i].id != views[j].id)
  }

  method CheckNodes(placed: seq<NodeView>, nodes: set<string>) returns (ok: bool)
    ensures ok <==> NodesPlaced(placed, nodes)
  {
    var seen: set<string> := {};
    for i := 0 to |placed|
      invariant forall n :: n in seen <==> exists j :: 0 <= j < i && placed[j].node == n
      invariant forall j :: 0 <= j < i ==> placed[j].node in nodes && IsFinite(placed[j].position)
      invariant forall j, k :: 0 <= j < k < i ==> placed[j].node != placed[k].node
    {
      if placed[i].node !in nodes || placed[i].node in seen || !ValidPosition(placed[i].position) {
        return false;
      }
      seen := seen + {placed[i].node};
    }
    ok := true;
  }

  method CheckLinks(placed: seq<LinkView>, links: set<string>) returns (ok: bool)
    ensures ok <==> LinksPlaced(placed, links)
  {
    var seen: set<string> := {};
    for i := 0 to |placed|
      invariant forall n :: n in seen <==> exists j :: 0 <= j < i && placed[j].link == n
      invariant forall j :: 0 <= j < i ==> placed[j].link in links && PointsFinite(placed[j].points)
      invariant forall j, k :: 0 <= j < k < i ==> placed[j].link != placed[k].link
    {
      if placed[i].link !in links || placed[i].link in seen {
        return false;
      }
      ok := CheckPoints(placed[i].points);
      if !ok {
        return;
      }
      seen := seen + {placed[i].link};
    }
    ok := true;
  }

  /** The checks on one view besides the uniqueness of its ID. */
  method CheckView(view: View, nodes: set<string>, links: set<string>) returns (ok: bool)
    ensures ok <==> NodesPlaced(view.nodes, nodes) && LinksPlaced(view.links, links)
  {
    ok := CheckNodes(view.nodes, nodes);
    if ok {
      ok := CheckLinks(view.links, links);
    }
  }

  /** `validateViews`, given the IDs of the nodes and links. */
  method ValidateViews(views: seq<View>, nodes: set<string>, links: set<string>) returns (ok: bool)
    ensures ok <==> ViewsValid(views, nodes, links)
  {
    var ids: set<string> := {};
    for i := 0 to |views|
      invariant forall id :: id in ids <==> exists j :: 0 <= j < i && views[j].id == id
      invariant forall j :: 0 <= j < i ==> ViewValid(views[j], nodes, links)
      invariant forall j, k :: 0 <= j < k < i ==> views[j].id != views[k].id
    {
      if views[i].id == "" || views[i].id in ids {
        assert !ViewsValid(views, nodes, links);
        return false;
      }
      ok := CheckView(views[i], nodes, links);
      if !ok {
        assert !ViewValid(views[i], nodes, links);
        return;
      }
      ids := ids + {views[i].id};
    }
    ok := true;
  }
}

/** Focus navigation shared by every menu screen (src/ui/ui_manager.rs):
    each focusable element carries a navigation record naming its neighbours,
    and a directional input moves the single focus flag along an edge. */
module UiManager {

  import opened Wrappers
  import opened UiElements
  import Rings

  /** `UiNavigation`: an element and its four neighbours (`None` for no edge). */
  datatype UiNavigation = UiNavigation(selfId: UiElement, up: UiElement, down: UiElement,
                                       left: UiElement, right: UiElement)

  /** One focusable entity: its navigation record and its `UiFocusable` flag. */
  datatype Node = Node(nav: UiNavigation, focused: bool)

  /** The direction read off the clamped Move axis pair; `Neutral` when no
      component passes the threshold. */
  datatype Direction = Up | Down | Left | Right | Neutral

  const Threshold: real := 0.85

  /** The direction chosen from the axis pair `(x, y)`, vertical first. */
  function DirectionOf(x: real, y: real): (d: Direction)
    ensures d == Up ==> y > Threshold
    ensures d == Down ==> y < -Threshold
    ensures d == Left ==> x < -Threshold
    ensures d == Right ==> x > Threshold
    ensures d == Neutral <==> (-Threshold <= x <= Threshold && -Threshold <= y <= Threshold)
    ensures (y > Threshold || y < -Threshold) ==> (d == Up || d == Down)
  {
    if y > Threshold then Up
    else if y < -Threshold then Down
    else if x < -Threshold then Left
    else if x > Threshold then Right
    else Neutral
  }

  function Neighbour(nav: UiNavigation, d: Direction): UiElement
  {
    match d
    case Up => nav.up
    case Down => nav.down
    case Left => nav.left
    case Right => nav.right
    case Neutral => UiElement.None
  }

  /** The index of the first focused node, in query order. */
  function FirstFocused(nodes: seq<Node>): (r: Option<nat>)
    ensures r.Some? ==> r.value < |nodes| && nodes[r.value].focused &&
                        forall j :: 0 <= j < r.value ==> !nodes[j].focused
    ensures r.None? ==> forall j :: 0 <= j < |nodes| ==> !nodes[j].focused
  {
    if |nodes| == 0 then Option.None
    else if nodes[0].focused then Some(0)
    else
      match FirstFocused(nodes[1..])
      case None => Option.None
      case Some(i) => Some(i + 1)
  }

  ghost predicate HasId(nodes: seq<Node>, id: UiElement)
  {
    exists m :: 0 <= m < |nodes| && nodes[m].nav.selfId == id
  }

  /** The index of the first node whose `selfId` is `id`, in query order. */
  function FirstWithId(nodes: seq<Node>, id: UiElement): (r: Option<nat>)
    ensures r.Some? <==> HasId(nodes, id)
    ensures r.Some? ==> r.value < |nodes| && nodes[r.value].nav.selfId == id &&
                        forall j :: 0 <= j < r.value ==> nodes[j].nav.selfId != id
  {
    if |nodes| == 0 then Option.None
    else if nodes[0].nav.selfId == id then Some(0)
    else
      match FirstWithId(nodes[1..], id)
      case None =>
        assert forall m :: 1 <= m < |nodes| ==> nodes[m] == nodes[1..][m - 1];
        Option.None
      case Some(i) => Some(i + 1)
  }

  /** The element that holds focus, if any (the first focused one). */
  function FocusedElement(nodes: seq<Node>): Option<UiElement>
  {
    match FirstFocused(nodes)
    case None => Option.None
    case Some(i) => Some(nodes[i].nav.selfId)
  }

  /** Where a press in direction `d` leads from the first focused node, or
      `None` when nothing is focused or there is no edge that way. */
  function Target(nodes: seq<Node>, d: Direction): UiElement
  {
    match FirstFocused(nodes)
    case None => UiElement.None
    case Some(i) => Neighbour(nodes[i].nav, d)
  }

  /** `handle_ui_navigation`: on a just-pressed Move in direction `d`, clear
      the first focused node and focus the first node named by its neighbour
      in that direction; nothing changes when there is no such neighbour. */
  function Navigate(movePressed: bool, d: Direction, nodes: seq<Node>): (r: seq<Node>)
    ensures |r| == |nodes| && forall k :: 0 <= k < |nodes| ==> r[k].nav == nodes[k].nav
    ensures !movePressed || Target(nodes, d) == UiElement.None ==> r == nodes
    ensures movePressed && Target(nodes, d) != UiElement.None ==>
              var i := FirstFocused(nodes).value;
              var t := FirstWithId(nodes, Target(nodes, d));
              && (forall k :: 0 <= k < |nodes| && k != i && t != Some(k) ==> r[k] == nodes[k])
              && (t.Some? ==> r[t.value].focused)
              && (t != Some(i) ==> !r[i].focused)
  {
    if !movePressed then nodes
    else
      match FirstFocused(nodes)
      case None => nodes
      case Some(i) =>
        var next := Neighbour(nodes[i].nav, d);
        if next == UiElement.None then nodes
        else
          var cleared := nodes[i := nodes[i].(focused := false)];
          assert forall k :: 0 <= k < |nodes| ==> cleared[k].nav == nodes[k].nav;
          assert FirstWithId(cleared, next) == FirstWithId(nodes, next) by {
            FirstWithIdOnlyReadsIds(cleared, nodes, next);
          }
          match FirstWithId(cleared, next)
          case None => cleared
          case Some(j) => cleared[j := cleared[j].(focused := true)]
  }

  /** `FirstWithId` looks at navigation records only. */
  lemma {:induction false} FirstWithIdOnlyReadsIds(a: seq<Node>, b: seq<Node>, id: UiElement)
    requires |a| == |b| && forall k :: 0 <= k < |a| ==> a[k].nav == b[k].nav
    ensures FirstWithId(a, id) == FirstWithId(b, id)
    decreases |a|
  {
    if |a| > 0 && a[0].nav.selfId != id {
      FirstWithIdOnlyReadsIds(a[1..], b[1..], id);
    }
  }

  /** Exactly one node is focused. */
  ghost predicate UniqueFocus(nodes: seq<Node>)
  {
    exists i :: 0 <= i < |nodes| && nodes[i].focused &&
      forall j :: 0 <= j < |nodes| && nodes[j].focused ==> j == i
  }

  /** Every edge of the screen leads to `None` or to an element on the screen. */
  ghost predicate Closed(nodes: seq<Node>)
  {
    forall k, d :: 0 <= k < |nodes| && Neighbour(nodes[k].nav, d) != UiElement.None ==>
      HasId(nodes, Neighbour(nodes[k].nav, d))
  }

  /** On a screen whose edges stay on the screen, navigation keeps exactly one
      element focused, and that element is the neighbour in the chosen
      direction, or the previously focused one when there is no edge. */
  lemma NavigateKeepsUniqueFocus(movePressed: bool, d: Direction, nodes: seq<Node>)
    requires UniqueFocus(nodes) && Closed(nodes)
    ensures UniqueFocus(Navigate(movePressed, d, nodes))
    ensures FocusedElement(Navigate(movePressed, d, nodes)) ==
            if movePressed && Target(nodes, d) != UiElement.None then Some(Target(nodes, d))
            else FocusedElement(nodes)
  {
    var r := Navigate(movePressed, d, nodes);
    if movePressed && Target(nodes, d) != UiElement.None {
      var i := FirstFocused(nodes).value;
      var t := Target(nodes, d);
      assert HasId(nodes, t);
      var j := FirstWithId(nodes, t).value;
      assert r[j].focused;
      assert forall k :: 0 <= k < |r| && r[k].focused ==> k == j;
      assert UniqueFocus(r);
      var f := FirstFocused(r).value;
      assert f == j;
    }
  }

  // Screens, as spawned: a layout of navigation records in spawn order.

  /** No two records of the layout share an id. */
  predicate DistinctIds(layout: seq<UiNavigation>)
  {
    forall a, b :: 0 <= a < b < |layout| ==> layout[a].selfId != layout[b].selfId
  }

  /** The records form one vertical ring in spawn order: down leads to the
      next record, wrapping at the end; up is the inverse of down; there are
      no horizontal edges. */
  predicate VerticalRing(layout: seq<UiNavigation>)
  {
    |layout| > 0 &&
    forall k :: 0 <= k < |layout| ==>
      && layout[k].down == layout[Rings.Next(k, |layout|)].selfId
      && layout[Rings.Next(k, |layout|)].up == layout[k].selfId
      && layout[k].left == UiElement.None
      && layout[k].right == UiElement.None
  }

  /** A single element with no edges at all. */
  predicate Isolated(layout: seq<UiNavigation>)
  {
    |layout| == 1 &&
    var n := layout[0];
    n.up == UiElement.None && n.down == UiElement.None &&
    n.left == UiElement.None && n.right == UiElement.None
  }

  /** A spawned screen: exactly the records whose id is `focus` are focused. */
  function Spawn(layout: seq<UiNavigation>, focus: UiElement): (nodes: seq<Node>)
    ensures |nodes| == |layout|
    ensures forall k :: 0 <= k < |layout| ==> nodes[k].nav == layout[k] &&
                                              (nodes[k].focused <==> layout[k].selfId == focus)
  {
    seq(|layout|, k requires 0 <= k < |layout| => Node(layout[k], layout[k].selfId == focus))
  }

  ghost predicate InLayout(layout: seq<UiNavigation>, id: UiElement)
  {
    exists k :: 0 <= k < |layout| && layout[k].selfId == id
  }

  /** Spawning a layout with distinct ids on one of its own elements focuses
      exactly that element. */
  lemma SpawnFocusesOne(layout: seq<UiNavigation>, focus: UiElement)
    requires DistinctIds(layout) && InLayout(layout, focus)
    ensures UniqueFocus(Spawn(layout, focus))
    ensures FocusedElement(Spawn(layout, focus)) == Some(focus)
  {
    var nodes := Spawn(layout, focus);
    var k :| 0 <= k < |layout| && layout[k].selfId == focus;
    forall j | 0 <= j < |nodes| ensures nodes[j].focused <==> j == k {
      if nodes[j].focused {
        DistinctAt(layout, j, k);
      }
    }
    FocusOnlyAt(nodes, k);
  }

  /** Nodes focused at exactly one position have a unique focus there. */
  lemma FocusOnlyAt(nodes: seq<Node>, k: nat)
    requires k < |nodes| && forall j :: 0 <= j < |nodes| ==> (nodes[j].focused <==> j == k)
    ensures UniqueFocus(nodes) && FirstFocused(nodes) == Some(k)
    ensures FocusedElement(nodes) == Some(nodes[k].nav.selfId)
  {
    var f := FirstFocused(nodes);
    assert nodes[k].focused;
    assert f.Some?;
  }

  /** In a layout with distinct ids, an id names one position. */
  lemma DistinctAt(layout: seq<UiNavigation>, a: nat, b: nat)
    requires DistinctIds(layout) && a < |layout| && b < |layout|
    requires layout[a].selfId == layout[b].selfId
    ensures a == b
  {
  }

  /** A ring or an isolated element has every edge on the screen. */
  lemma SpawnClosed(layout: seq<UiNavigation>, focus: UiElement)
    requires VerticalRing(layout) || Isolated(layout)
    ensures Closed(Spawn(layout, focus))
  {
    var nodes := Spawn(layout, focus);
    forall k, d | 0 <= k < |nodes| && Neighbour(nodes[k].nav, d) != UiElement.None
      ensures HasId(nodes, Neighbour(nodes[k].nav, d))
    {
      EdgeOnScreen(layout, nodes, k, d);
    }
  }

  lemma EdgeOnScreen(layout: seq<UiNavigation>, nodes: seq<Node>, k: nat, d: Direction)
    requires VerticalRing(layout) || Isolated(layout)
    requires |nodes| == |layout| && forall m :: 0 <= m < |layout| ==> nodes[m].nav == layout[m]
    requires k < |nodes| && Neighbour(nodes[k].nav, d) != UiElement.None
    ensures HasId(nodes, Neighbour(nodes[k].nav, d))
  {
    var n := |layout|;
    assert VerticalRing(layout);
    if d == Down {
      assert nodes[Rings.Next(k, n)].nav.selfId == layout[k].down;
    } else {
      assert d == Up;
      var p := if k == 0 then n - 1 else k - 1;
      assert Rings.Next(p, n) == k;
      assert nodes[p].nav.selfId == layout[k].up;
    }
  }

  /** Navigating a spawned screen gives the screen spawned on the target:
      focus moves along exactly one edge. */
  lemma NavigateSpawned(layout: seq<UiNavigation>, focus: UiElement, d: Direction)
    requires DistinctIds(layout) && InLayout(layout, focus)
    requires VerticalRing(layout) || Isolated(layout)
    ensures var nodes := Spawn(layout, focus);
            var t := Target(nodes, d);
            Navigate(true, d, nodes) == Spawn(layout, if t == UiElement.None then focus else t)
  {
    var nodes := Spawn(layout, focus);
    var t := Target(nodes, d);
    SpawnFocusesOne(layout, focus);
    SpawnClosed(layout, focus);
    NavigateKeepsUniqueFocus(true, d, nodes);
    FocusedIsSpawn(Navigate(true, d, nodes), layout, if t == UiElement.None then focus else t);
  }

  /** Records of a layout with distinct ids and a single focus on `e` are
      exactly the layout spawned on `e`. */
  lemma FocusedIsSpawn(r: seq<Node>, layout: seq<UiNavigation>, e: UiElement)
    requires DistinctIds(layout) && |r| == |layout| && forall k :: 0 <= k < |r| ==> r[k].nav == layout[k]
    requires UniqueFocus(r) && FocusedElement(r) == Some(e)
    ensures r == Spawn(layout, e)
  {
    var i := FirstFocused(r).value;
    assert layout[i].selfId == e;
    var u :| 0 <= u < |r| && r[u].focused && forall j :: 0 <= j < |r| && r[j].focused ==> j == u;
    var sp := Spawn(layout, e);
    forall k | 0 <= k < |r| ensures r[k] == sp[k] {
      if layout[k].selfId == e {
        DistinctAt(layout, k, i);
      }
    }
  }

  /** No record of the layout is the null element. */
  predicate NamedIds(layout: seq<UiNavigation>)
  {
    forall k :: 0 <= k < |layout| ==> layout[k].selfId != UiElement.None
  }

  /** On a spawned screen with distinct ids, a press leads along the edge of
      the record that was spawned focused. */
  lemma TargetOfSpawned(layout: seq<UiNavigation>, k: nat, d: Direction)
    requires DistinctIds(layout) && k < |layout|
    ensures Target(Spawn(layout, layout[k].selfId), d) == Neighbour(layout[k], d)
  {
    var nodes := Spawn(layout, layout[k].selfId);
    SpawnFocusesOne(layout, layout[k].selfId);
    var i := FirstFocused(nodes).value;
    DistinctAt(layout, i, k);
  }

  /** On a ring, down moves focus to the next record in spawn order,
      wrapping from the last to the first. */
  lemma RingDownMovesToNext(layout: seq<UiNavigation>, k: nat)
    requires DistinctIds(layout) && NamedIds(layout) && VerticalRing(layout) && k < |layout|
    ensures Navigate(true, Down, Spawn(layout, layout[k].selfId)) == Spawn(layout, layout[Rings.Next(k, |layout|)].selfId)
  {
    TargetOfSpawned(layout, k, Down);
    NavigateSpawned(layout, layout[k].selfId, Down);
  }

  /** On a ring, up moves focus to the previous record in spawn order,
      wrapping from the first to the last. */
  lemma RingUpMovesToPrevious(layout: seq<UiNavigation>, k: nat)
    requires DistinctIds(layout) && NamedIds(layout) && VerticalRing(layout) && k < |layout|
    ensures var p := if k == 0 then |layout| - 1 else k - 1;
            Navigate(true, Up, Spawn(layout, layout[k].selfId)) == Spawn(layout, layout[p].selfId)
  {
    var p := if k == 0 then |layout| - 1 else k - 1;
    assert Rings.Next(p, |layout|) == k;
    TargetOfSpawned(layout, k, Up);
    NavigateSpawned(layout, layout[k].selfId, Up);
  }

  /** On a ring, up undoes down. */
  lemma RingUpUndoesDown(layout: seq<UiNavigation>, k: nat)
    requires DistinctIds(layout) && NamedIds(layout) && VerticalRing(layout) && k < |layout|
    ensures Navigate(true, Up, Navigate(true, Down, Spawn(layout, layout[k].selfId))) == Spawn(layout, layout[k].selfId)
  {
    RingDownMovesToNext(layout, k);
    var n := Rings.Next(k, |layout|);
    RingUpMovesToPrevious(layout, n);
    assert (if n == 0 then |layout| - 1 else n - 1) == k;
  }

  /** A single isolated button keeps the focus whatever is pressed. */
  lemma IsolatedNeverMoves(layout: seq<UiNavigation>, movePressed: bool, d: Direction)
    requires Isolated(layout)
    ensures Navigate(movePressed, d, Spawn(layout, layout[0].selfId)) == Spawn(layout, layout[0].selfId)
  {
    TargetOfSpawned(layout, 0, d);
  }
}

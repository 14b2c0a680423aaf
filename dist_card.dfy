/** The later revision of the card as an object: configuration check, the
    grid of stored cell node records built once per configuration and
    patched in place on every render, the render-coalescing flag of the
    `hass` setter, and gesture dispatch. */
module DistCard {
  import opened Js
  import opened Config
  import opened View
  import opened Actions
  import opened DistCell

  const ConfigErrorMessage := "Please define rows, columns, and cells in the configuration."

  /** Card background when `card_background_color` is unset. */
  const DefaultCardBackground := "var(--card-background-color, white)"

  datatype Gesture = Tap | Hold | DoubleTap

  /** The handlers attached to a cell: `click`, `contextmenu` (default
      suppressed) and `dblclick`, each with the action it dispatches. */
  datatype Listeners = Listeners(click: Option<ActionConfig>, contextMenu: Option<ActionConfig>, dblClick: Option<ActionConfig>)

  /** The DOM handles of one cell (`cell`, `titleEl`, `climateEl`,
      `sensorEl`, `imageOverlay`) reduced to the properties render writes.
      `background` is unset until the first render; the overlay's image
      is only written while it is displayed, so it keeps its last URL
      while hidden. */
  datatype CellNodes = CellNodes(
    background: Option<Background>,
    overlayShown: bool,
    overlayImage: Option<string>,
    title: TextLine,
    climate: TextLine,
    sensor: TextLine,
    listeners: Listeners)

  /** The action a gesture is bound to in a cell's configuration. */
  function ActionFor(c: CellConfig, g: Gesture): Option<ActionConfig> {
    match g
    case Tap => c.tapAction
    case Hold => c.holdAction
    case DoubleTap => c.doubleTapAction
  }

  function ListenerFor(n: CellNodes, g: Gesture): Option<ActionConfig> {
    match g
    case Tap => n.listeners.click
    case Hold => n.listeners.contextMenu
    case DoubleTap => n.listeners.dblClick
  }

  /** Freshly built nodes for a cell: nothing rendered yet, overlay hidden,
      and a listener exactly for each configured action. */
  function NewNodes(c: CellConfig): (n: CellNodes)
    ensures forall g :: ListenerFor(n, g) == ActionFor(c, g)
    ensures n.background.None? && !n.overlayShown && n.overlayImage.None?
  {
    CellNodes(None, false, None, TextLine("", true), TextLine("", true), TextLine("", true),
              Listeners(c.tapAction, c.holdAction, c.doubleTapAction))
  }

  /** Writes a presentation into a cell's nodes, in place. */
  function Apply(n: CellNodes, p: Presentation): CellNodes {
    n.(background := Some(p.background),
       overlayShown := p.overlay.Shown?,
       overlayImage := if p.overlay.Shown? then Some(p.overlay.url) else n.overlayImage,
       title := p.title, climate := p.climate, sensor := p.sensor)
  }

  /** What a cell's nodes display, read back from them. */
  function Displayed(n: CellNodes): Presentation
    requires n.background.Some?
    requires n.overlayShown ==> n.overlayImage.Some?
  {
    Presentation(n.background.value, if n.overlayShown then Shown(n.overlayImage.value) else Hidden,
                 n.title, n.climate, n.sensor)
  }

  /** After a render the nodes display exactly the presentation, and keep their listeners. */
  lemma ApplyDisplays(n: CellNodes, p: Presentation)
    ensures Apply(n, p).background.Some?
    ensures Apply(n, p).overlayShown ==> Apply(n, p).overlayImage.Some?
    ensures Displayed(Apply(n, p)) == p
    ensures Apply(n, p).listeners == n.listeners
  {
  }

  /** Rendering the same presentation twice leaves the nodes as once. */
  lemma ApplyIdempotent(n: CellNodes, p: Presentation)
    ensures Apply(Apply(n, p), p) == Apply(n, p)
  {
  }

  /** What a gesture on a cell does: the handler's action, or nothing when no handler is attached. */
  function OnGesture(n: CellNodes, g: Gesture): (e: Effect)
    requires Dispatchable(ListenerFor(n, g))
    ensures ListenerFor(n, g).None? ==> e == NoEffect
  {
    match ListenerFor(n, g)
    case None => NoEffect
    case Some(a) => DistHandleAction(Some(a))
  }

  /** A gesture on a built (and possibly rendered) cell dispatches exactly
      the action configured for it. */
  lemma GestureDispatchesConfiguredAction(c: CellConfig, ps: seq<Presentation>, g: Gesture)
    requires Dispatchable(ActionFor(c, g))
    ensures var n := RenderAll(NewNodes(c), ps);
            Dispatchable(ListenerFor(n, g)) && OnGesture(n, g) == DistHandleAction(ActionFor(c, g))
  {
    RenderAllKeepsListeners(NewNodes(c), ps);
  }

  /** A cell's nodes after a sequence of renders. */
  function RenderAll(n: CellNodes, ps: seq<Presentation>): CellNodes
    decreases |ps|
  {
    if ps == [] then n else RenderAll(Apply(n, ps[0]), ps[1..])
  }

  lemma {:induction false} RenderAllKeepsListeners(n: CellNodes, ps: seq<Presentation>)
    ensures RenderAll(n, ps).listeners == n.listeners
    decreases |ps|
  {
    if ps != [] {
      RenderAllKeepsListeners(Apply(n, ps[0]), ps[1..]);
    }
  }

  /** `config.title`, shown only when it is set. */
  function HeaderFor(c: CardConfig): TextLine {
    if Truthy(c.title) then TextLine(c.title.s, true) else TextLine("", false)
  }

  /** `card_background_color`, or the theme's card background. */
  function CardBackgroundFor(c: CardConfig): string {
    if Truthy(c.cardBackgroundColor) then c.cardBackgroundColor.s else DefaultCardBackground
  }

  /** Every cell of a table of nodes with its configuration's presentation written into it. */
  ghost function RenderedGrid(before: seq<seq<CellNodes>>, configs: seq<seq<CellConfig>>, h: Snapshot): (g: seq<seq<CellNodes>>)
    requires |configs| == |before|
    requires forall i :: 0 <= i < |before| ==> |configs[i]| == |before[i]|
    ensures |g| == |before|
    ensures forall i, j :: 0 <= i < |before| && 0 <= j < |before[i]| ==> |g[i]| == |before[i]| && g[i][j] == Apply(before[i][j], Present(configs[i][j], h))
  {
    seq(|before|, i requires 0 <= i < |before| =>
      seq(|before[i]|, j requires 0 <= j < |before[i]| => Apply(before[i][j], Present(configs[i][j], h))))
  }

  class HomeOverview {
    var config: Option<CardConfig>
    var hass: Option<Snapshot>
    var renderScheduled: bool
    var header: TextLine
    var cardBackground: Option<string>
    var cellConfigs: seq<seq<CellConfig>>
    var cells: array2<CellNodes>

    /** Animation-frame callbacks requested by the `hass` setter, and those that have run. */
    ghost var requestedFrames: nat
    ghost var firedFrames: nat

    /** The configuration and cell table agree, and at most one frame callback is outstanding. */
    ghost predicate Shaped()
      reads this
    {
      && requestedFrames == firedFrames + (if renderScheduled then 1 else 0)
      && (renderScheduled ==> hass.Some?)
      && (config.None? ==> cellConfigs == [] && cells.Length0 == 0 && cells.Length1 == 0)
      && (config.Some? ==>
            && DistAccepts(config.value)
            && cellConfigs == ConfigTable(config.value)
            && cells.Length0 == Extent(config.value.rows)
            && cells.Length1 == Extent(config.value.columns))
    }

    ghost predicate Valid()
      reads this, cells
    {
      && Shaped()
      && (forall i, j :: 0 <= i < cells.Length0 && 0 <= j < cells.Length1 ==>
            cells[i, j].listeners == NewNodes(cellConfigs[i][j]).listeners)
    }

    /** The state after a render with snapshot `h`: each stored cell has the
        presentation for its configuration written into it. */
    ghost predicate RenderedFrom(h: Snapshot, before: seq<seq<CellNodes>>)
      reads this, cells
      requires Shaped()
    {
      && |before| == cells.Length0
      && (forall i :: 0 <= i < |before| ==> |before[i]| == cells.Length1)
      && forall i, j :: 0 <= i < cells.Length0 && 0 <= j < cells.Length1 ==>
           cells[i, j] == Apply(before[i][j], Present(cellConfigs[i][j], h))
    }

    /** The stored cells as a table of rows. */
    ghost function Grid(): (g: seq<seq<CellNodes>>)
      reads this, cells
      ensures |g| == cells.Length0
      ensures forall i :: 0 <= i < |g| ==> |g[i]| == cells.Length1
    {
      var a := cells;
      seq(a.Length0, i requires 0 <= i < a.Length0 reads a =>
        seq(a.Length1, j requires 0 <= j < a.Length1 reads a => a[i, j]))
    }

    constructor ()
      ensures Valid()
      ensures config.None? && hass.None? && !renderScheduled && requestedFrames == 0
      ensures cellConfigs == [] && cells.Length0 == 0
    {
      config := None;
      hass := None;
      renderScheduled := false;
      header := TextLine("", true);
      cardBackground := None;
      cellConfigs := [];
      cells := new CellNodes[0, 0];
      requestedFrames, firedFrames := 0, 0;
    }

    /** `setConfig`: rejects a configuration without rows, columns or cells
        and changes nothing; otherwise stores it, sets the header and card
        background, rebuilds the grid and renders it. */
    method SetConfig(c: CardConfig) returns (r: ConfigOutcome)
      requires Valid()
      modifies this
      ensures Valid()
      ensures r == Accepted <==> DistAccepts(c)
      ensures r != Accepted ==> r == ConfigError(ConfigErrorMessage)
      ensures !DistAccepts(c) ==> config == old(config) && cells == old(cells) && cellConfigs == old(cellConfigs)
      ensures !DistAccepts(c) ==> header == old(header) && cardBackground == old(cardBackground)
      ensures DistAccepts(c) ==> config == Some(c) && fresh(cells) && cellConfigs == ConfigTable(c)
      ensures DistAccepts(c) ==> (header.visible <==> Truthy(c.title))
      ensures DistAccepts(c) ==> header.text == (if Truthy(c.title) then c.title.s else "")
      ensures DistAccepts(c) && Truthy(c.cardBackgroundColor) ==> cardBackground == Some(c.cardBackgroundColor.s)
      ensures DistAccepts(c) && !Truthy(c.cardBackgroundColor) ==> cardBackground == Some(DefaultCardBackground)
      ensures DistAccepts(c) && hass.Some? ==>
                forall i, j :: 0 <= i < cells.Length0 && 0 <= j < cells.Length1 ==>
                  cells[i, j] == Apply(NewNodes(cellConfigs[i][j]), Present(cellConfigs[i][j], hass.value))
      ensures DistAccepts(c) && hass.None? ==>
                forall i, j :: 0 <= i < cells.Length0 && 0 <= j < cells.Length1 ==>
                  cells[i, j] == NewNodes(cellConfigs[i][j])
      ensures hass == old(hass) && renderScheduled == old(renderScheduled)
      ensures requestedFrames == old(requestedFrames) && firedFrames == old(firedFrames)
    {
      if !DistAccepts(c) {
        return ConfigError(ConfigErrorMessage);
      }
      config := Some(c);
      header := HeaderFor(c);
      cardBackground := Some(CardBackgroundFor(c));
      BuildGrid();
      Render();
      r := Accepted;
    }

    /** `_buildGrid`: a fresh rows × columns table of cell nodes and the
        matching table of cell configurations, in row-major order, with
        `{}` for every position `cells` does not fill. */
    method BuildGrid()
      requires config.Some? && DistAccepts(config.value)
      requires requestedFrames == firedFrames + (if renderScheduled then 1 else 0)
      requires renderScheduled ==> hass.Some?
      modifies this
      ensures config == old(config) && hass == old(hass) && renderScheduled == old(renderScheduled)
      ensures Valid()
      ensures fresh(cells)
      ensures cellConfigs == ConfigTable(config.value)
      ensures forall i, j :: 0 <= i < cells.Length0 && 0 <= j < cells.Length1 ==> cells[i, j] == NewNodes(cellConfigs[i][j])
      ensures header == old(header) && cardBackground == old(cardBackground)
      ensures requestedFrames == old(requestedFrames) && firedFrames == old(firedFrames)
    {
      var c := config.value;
      var table := c.cells.value;
      var rows, columns := Extent(c.rows), Extent(c.columns);
      var nodes := new CellNodes[rows, columns];
      var configs: seq<seq<CellConfig>> := [];
      for i := 0 to rows
        modifies nodes
        invariant |configs| == i
        invariant forall r :: 0 <= r < i ==> configs[r] == ConfigRow(table, r, columns)
        invariant forall r, k :: 0 <= r < i && 0 <= k < columns ==> nodes[r, k] == NewNodes(CellAt(table, r, k))
      {
        var row: seq<CellConfig> := [];
        for j := 0 to columns
          modifies nodes
          invariant |row| == j
          invariant forall k :: 0 <= k < j ==> row[k] == CellAt(table, i, k)
          invariant forall r, k :: 0 <= r < i && 0 <= k < columns ==> nodes[r, k] == NewNodes(CellAt(table, r, k))
          invariant forall k :: 0 <= k < j ==> nodes[i, k] == NewNodes(CellAt(table, i, k))
        {
          var cellConfig := CellAt(table, i, j);
          row := row + [cellConfig];
          nodes[i, j] := NewNodes(cellConfig);
        }
        configs := configs + [row];
      }
      assert configs == ConfigTable(c);
      cellConfigs := configs;
      cells := nodes;
    }

    /** `render`: with a configuration and a snapshot, writes every cell's
        presentation into its stored nodes; otherwise does nothing. */
    method Render()
      requires Valid()
      modifies cells
      ensures Valid()
      ensures config.Some? && hass.Some? ==> RenderedFrom(hass.value, old(Grid()))
      ensures !(config.Some? && hass.Some?) ==> unchanged(cells)
    {
      if config.None? || hass.None? {
        return;
      }
      var h := hass.value;
      ghost var before := Grid();
      ghost var target := RenderedGrid(before, cellConfigs, h);
      for i := 0 to cells.Length0
        invariant forall r, k :: 0 <= r < i && 0 <= k < cells.Length1 ==> cells[r, k] == target[r][k]
        invariant forall r, k :: i <= r < cells.Length0 && 0 <= k < cells.Length1 ==> cells[r, k] == before[r][k]
      {
        RenderRow(i, h);
      }
    }

    /** One iteration of render's outer loop: the cells of row `i`. */
    method RenderRow(i: nat, h: Snapshot)
      requires i < cells.Length0 && i < |cellConfigs| && |cellConfigs[i]| == cells.Length1
      modifies cells
      ensures forall k :: 0 <= k < cells.Length1 ==> cells[i, k] == Apply(old(cells[i, k]), Present(cellConfigs[i][k], h))
      ensures forall r, k :: 0 <= r < cells.Length0 && r != i && 0 <= k < cells.Length1 ==> cells[r, k] == old(cells[r, k])
    {
      for j := 0 to cells.Length1
        invariant forall k :: 0 <= k < j ==> cells[i, k] == Apply(old(cells[i, k]), Present(cellConfigs[i][k], h))
        invariant forall k :: j <= k < cells.Length1 ==> cells[i, k] == old(cells[i, k])
        invariant forall r, k :: 0 <= r < cells.Length0 && r != i && 0 <= k < cells.Length1 ==> cells[r, k] == old(cells[r, k])
      {
        cells[i, j] := Apply(cells[i, j], Present(cellConfigs[i][j], h));
      }
    }

    /** The `hass` setter: stores the snapshot and, unless a render is
        already pending, requests one animation frame. A second snapshot
        before that frame only replaces the stored one. */
    method SetHass(h: Snapshot)
      requires Valid()
      modifies this
      ensures Valid()
      ensures hass == Some(h) && renderScheduled
      ensures requestedFrames == old(requestedFrames) + (if old(renderScheduled) then 0 else 1)
      ensures firedFrames == old(firedFrames)
      ensures config == old(config) && cells == old(cells) && cellConfigs == old(cellConfigs)
      ensures header == old(header) && cardBackground == old(cardBackground)
    {
      hass := Some(h);
      if renderScheduled {
        return;
      }
      renderScheduled := true;
      requestedFrames := requestedFrames + 1;
    }

    /** The requested animation frame: clears the flag and renders with the
        snapshot stored last. */
    method FireFrame()
      requires Valid()
      requires requestedFrames > firedFrames
      modifies this, cells
      ensures Valid()
      ensures !renderScheduled && firedFrames == old(firedFrames) + 1 && requestedFrames == old(requestedFrames)
      ensures hass == old(hass) && hass.Some?
      ensures config == old(config) && cells == old(cells) && cellConfigs == old(cellConfigs)
      ensures header == old(header) && cardBackground == old(cardBackground)
      ensures config.Some? ==> RenderedFrom(hass.value, old(Grid()))
      ensures config.None? ==> unchanged(cells)
    {
      renderScheduled := false;
      firedFrames := firedFrames + 1;
      Render();
    }
  }

  /** Two snapshots pushed before the frame fires cause a single render, and
      that render uses the second snapshot. */
  method CoalescedBurst(card: HomeOverview, h1: Snapshot, h2: Snapshot)
    requires card.Valid() && !card.renderScheduled
    modifies card, card.cells
    ensures card.Valid() && !card.renderScheduled
    ensures card.requestedFrames == old(card.requestedFrames) + 1 && card.firedFrames == old(card.firedFrames) + 1
    ensures card.hass == Some(h2) && card.cells == old(card.cells)
    ensures card.config.Some? ==> card.RenderedFrom(h2, old(card.Grid()))
  {
    card.SetHass(h1);
    card.SetHass(h2);
    card.FireFrame();
  }
}

/** The earlier revision of the card as an object: configuration check, a
    `hass` setter that renders at once, and a render that empties the
    shadow root and rebuilds the whole card from the configuration and
    the snapshot. */
module SrcCard {
  import opened Js
  import opened Config
  import opened View
  import opened SrcCell

  const ConfigErrorMessage := "Please define rows and columns"

  /** The rebuilt card: the header text when the configuration has a title,
      and the grid's cells in row-major order. */
  datatype Card = Card(header: Option<string>, cells: seq<CellView>)

  /** What render needs to build every cell without throwing: every
      position inside rows × columns has an entry, and that entry a title.
      `cells` is read only inside the inner loop, so a grid with no
      position needs no `cells` at all. */
  ghost predicate Drawable(c: CardConfig) {
    forall i, j :: InGrid(c, i, j) ==>
      && c.cells.Some?
      && i < |c.cells.value| && j < |c.cells.value[i]|
      && c.cells.value[i][j].Some? && c.cells.value[i][j].value.title.Str?
  }

  predicate InGrid(c: CardConfig, i: int, j: int) {
    0 <= i < Extent(c.rows) && 0 <= j < Extent(c.columns)
  }

  /** `config.cells[i][j]`. */
  function CellConfigAt(c: CardConfig, i: int, j: int): (r: CellConfig)
    requires Drawable(c) && InGrid(c, i, j)
    ensures r.title.Str?
  {
    c.cells.value[i][j].value
  }

  /** `config.title`, when it is set. */
  function HeaderFor(c: CardConfig): Option<string> {
    if Truthy(c.title) then Some(c.title.s) else None
  }

  /** The cells of each row, as render builds them. */
  function GridRows(c: CardConfig, h: Snapshot): (g: seq<seq<CellView>>)
    requires Drawable(c)
    ensures |g| == Extent(c.rows)
    ensures forall i :: 0 <= i < |g| ==> |g[i]| == Extent(c.columns)
    ensures forall i, j :: InGrid(c, i, j) ==> g[i][j] == Present(CellConfigAt(c, i, j), h, Transparency(c))
  {
    var rows, columns, t := Extent(c.rows), Extent(c.columns), Transparency(c);
    seq(rows, i requires 0 <= i < rows =>
      seq(columns, j requires 0 <= j < columns => Present(CellConfigAt(c, i, j), h, t)))
  }

  /** Concatenation of rows into the grid's child list. */
  function Flatten<T>(rows: seq<seq<T>>): seq<T>
    decreases |rows|
  {
    if rows == [] then [] else Flatten(rows[..|rows| - 1]) + rows[|rows| - 1]
  }

  lemma FlattenSnoc<T>(rows: seq<seq<T>>, i: nat)
    requires i < |rows|
    ensures Flatten(rows[..i + 1]) == Flatten(rows[..i]) + rows[i]
  {
    assert rows[..i + 1][..i] == rows[..i];
  }

  /** Rows of `columns` cells each flatten to rows × columns cells. */
  lemma {:induction false} FlattenLength<T>(rows: seq<seq<T>>, columns: nat)
    requires forall r :: 0 <= r < |rows| ==> |rows[r]| == columns
    ensures |Flatten(rows)| == |rows| * columns
    decreases |rows|
  {
    if rows != [] {
      var n := |rows| - 1;
      FlattenLength(rows[..n], columns);
      assert (n + 1) * columns == n * columns + columns;
    }
  }

  /** Row i, column j of a grid of n rows lies before row n. */
  lemma RowMajorBound(i: nat, j: nat, n: nat, columns: nat)
    requires i < n && j < columns
    ensures i * columns + j < n * columns
  {
    assert (i + 1) * columns == i * columns + columns;
    assert (i + 1) * columns <= n * columns;
  }

  /** Rows of `columns` cells each flatten to a list of rows × columns
      cells in which row i, column j sits at position i * columns + j. */
  lemma {:induction false} FlattenIndex<T>(rows: seq<seq<T>>, columns: nat, i: nat, j: nat)
    requires forall r :: 0 <= r < |rows| ==> |rows[r]| == columns
    ensures |Flatten(rows)| == |rows| * columns
    ensures i < |rows| && j < columns ==> i * columns + j < |Flatten(rows)| && Flatten(rows)[i * columns + j] == rows[i][j]
    decreases |rows|
  {
    FlattenLength(rows, columns);
    if i < |rows| && j < columns {
      var n := |rows| - 1;
      var init := rows[..n];
      FlattenLength(init, columns);
      assert Flatten(rows) == Flatten(init) + rows[n];
      if i < n {
        RowMajorBound(i, j, n, columns);
        FlattenIndex(init, columns, i, j);
      } else {
        RowMajorBound(i, j, |rows|, columns);
      }
    }
  }

  /** The grid of a rebuilt card: exactly rows × columns cells, cell (i, j)
      at position i * columns + j showing what its configuration and the
      snapshot call for. */
  function Grid(c: CardConfig, h: Snapshot): (g: seq<CellView>)
    requires Drawable(c)
    ensures |g| == Extent(c.rows) * Extent(c.columns)
  {
    FlattenIndex(GridRows(c, h), Extent(c.columns), 0, 0);
    Flatten(GridRows(c, h))
  }

  lemma GridCell(c: CardConfig, h: Snapshot, i: nat, j: nat)
    requires Drawable(c) && InGrid(c, i, j)
    ensures i * Extent(c.columns) + j < |Grid(c, h)|
    ensures Grid(c, h)[i * Extent(c.columns) + j] == Present(CellConfigAt(c, i, j), h, Transparency(c))
  {
    FlattenIndex(GridRows(c, h), Extent(c.columns), i, j);
  }

  /** A grid with no position (a count that is missing, zero or negative)
      reads no entry of `cells`, so it renders as an empty grid whether or
      not `cells` is given. */
  lemma EmptyGridNeedsNoCells(c: CardConfig, h: Snapshot)
    requires Extent(c.rows) == 0 || Extent(c.columns) == 0
    ensures Drawable(c)
    ensures Grid(c, h) == []
  {
  }

  class HomeOverview {
    var config: Option<CardConfig>
    var hass: Option<Snapshot>
    /** The children of the shadow root. */
    var root: seq<Card>

    ghost predicate Valid()
      reads this
    {
      config.Some? ==> SrcAccepts(config.value)
    }

    /** Render would throw a TypeError part-way; callers must not get here. */
    ghost predicate CanRender()
      reads this
    {
      config.Some? && hass.Some? ==> Drawable(config.value)
    }

    constructor ()
      ensures Valid() && config.None? && hass.None? && root == []
    {
      config := None;
      hass := None;
      root := [];
    }

    /** `setConfig`: rejects a configuration without rows or columns (cells
        are not checked) and changes nothing; otherwise stores it and renders. */
    method SetConfig(c: CardConfig) returns (r: ConfigOutcome)
      requires Valid()
      requires SrcAccepts(c) && hass.Some? ==> Drawable(c)
      modifies this
      ensures Valid() && hass == old(hass)
      ensures r == Accepted <==> SrcAccepts(c)
      ensures r != Accepted ==> r == ConfigError(ConfigErrorMessage) && config == old(config) && root == old(root)
      ensures r == Accepted ==> config == Some(c)
      ensures r == Accepted && hass.Some? ==> root == [Card(HeaderFor(c), Grid(c, hass.value))]
      ensures r == Accepted && hass.None? ==> root == old(root)
    {
      if !SrcAccepts(c) {
        return ConfigError(ConfigErrorMessage);
      }
      config := Some(c);
      Render();
      r := Accepted;
    }

    /** The `hass` setter: stores the snapshot and renders straight away. */
    method SetHass(h: Snapshot)
      requires Valid()
      requires config.Some? ==> Drawable(config.value)
      modifies this
      ensures Valid() && hass == Some(h) && config == old(config)
      ensures config.Some? ==> root == [Card(HeaderFor(config.value), Grid(config.value, h))]
      ensures config.None? ==> root == old(root)
    {
      hass := Some(h);
      Render();
    }

    /** `render`: without a configuration or a snapshot nothing happens;
        otherwise every child of the root is removed and one card, built
        from the configuration and snapshot alone, takes their place. */
    method Render()
      requires CanRender()
      modifies this
      ensures config == old(config) && hass == old(hass)
      ensures config.Some? && hass.Some? ==> root == [Card(HeaderFor(config.value), Grid(config.value, hass.value))]
      ensures config.Some? && hass.Some? ==> (root[0].header.Some? <==> Truthy(config.value.title))
      ensures config.Some? && hass.Some? && root[0].header.Some? ==> root[0].header.value == config.value.title.s
      ensures !(config.Some? && hass.Some?) ==> root == old(root)
    {
      if config.None? || hass.None? {
        return;
      }
      while |root| > 0
        invariant config == old(config) && hass == old(hass)
        invariant root == old(root)[..|root|]
        decreases |root|
      {
        root := root[..|root| - 1];
      }
      var cells := BuildCells(config.value, hass.value);
      root := root + [Card(HeaderFor(config.value), cells)];
    }
  }

  /** The nested loops of render: each cell built in turn and appended to
      the grid, row by row. */
  method BuildCells(c: CardConfig, h: Snapshot) returns (grid: seq<CellView>)
    requires Drawable(c)
    ensures grid == Grid(c, h)
  {
    var rows, columns, t := Extent(c.rows), Extent(c.columns), Transparency(c);
    ghost var spec := GridRows(c, h);
    grid := [];
    for i := 0 to rows
      invariant grid == Flatten(spec[..i])
    {
      for j := 0 to columns
        invariant grid == Flatten(spec[..i]) + spec[i][..j]
      {
        var cellConfig := CellConfigAt(c, i, j);
        grid := grid + [Present(cellConfig, h, t)];
      }
      assert spec[i][..columns] == spec[i];
      FlattenSnoc(spec, i);
    }
    assert spec[..rows] == spec;
  }

  /** Pushing the same snapshot twice leaves the same card as pushing it once. */
  method RerenderIsIdempotent(card: HomeOverview, h: Snapshot)
    requires card.Valid() && card.config.Some? && Drawable(card.config.value)
    modifies card
    ensures card.config == old(card.config)
    ensures card.root == [Card(HeaderFor(card.config.value), Grid(card.config.value, h))]
  {
    card.SetHass(h);
    var first := card.root;
    card.SetHass(h);
    assert card.root == first;
  }
}

/** The card's configuration objects and the host's entity snapshot, with
    the configuration checks of both revisions and the per-position cell
    table that the built grid is derived from. */
module Config {
  import opened Js

  /** `service_data` is handed to the host untouched; its shape does not matter here. */
  type Payload = map<string, JsValue>

  /** A `tap_action`, `hold_action` or `double_tap_action` object. */
  datatype ActionConfig = ActionConfig(
    action: JsValue,
    service: JsValue,
    serviceData: Option<Payload>,
    entity: JsValue,
    navigationPath: JsValue)

  /** One entry of `cells[row][column]`. */
  datatype CellConfig = CellConfig(
    title: JsValue,
    lightEntity: JsValue,
    climateEntity: JsValue,
    mediaEntity: JsValue,
    sensorEntity: JsValue,
    cellBackgroundColor: JsValue,
    tapAction: Option<ActionConfig>,
    holdAction: Option<ActionConfig>,
    doubleTapAction: Option<ActionConfig>)

  /** The `{}` a grid position gets when the configuration has no entry for it. */
  const EmptyCell := CellConfig(Undefined, Undefined, Undefined, Undefined, Undefined, Undefined, None, None, None)

  /** The card configuration. A row of `cells` that is null behaves like an
      empty row, and an entry that is null or undefined is `None`. */
  datatype CardConfig = CardConfig(
    rows: Option<int>,
    columns: Option<int>,
    cells: Option<seq<seq<Option<CellConfig>>>>,
    title: JsValue,
    cardBackgroundColor: JsValue,
    transparency: JsValue)

  /** An entity of the host's state store: `{state, attributes}`. */
  datatype Entity = Entity(state: JsValue, attributes: map<string, JsValue>)

  /** `hass.states`: entity id to entity. */
  type Snapshot = map<string, Entity>

  /** `entity.attributes[name]`; a missing attribute reads as undefined. */
  function Attribute(e: Entity, name: string): JsValue {
    if name in e.attributes then e.attributes[name] else Undefined
  }

  /** What `setConfig` does with a configuration: keeps it, or throws an error with a message. */
  datatype ConfigOutcome = Accepted | ConfigError(message: string)

  /** The check of the later revision: rows, columns and cells must all be present. */
  predicate DistAccepts(c: CardConfig) {
    TruthyInt(c.rows) && TruthyInt(c.columns) && c.cells.Some?
  }

  /** The check of the earlier revision: only rows and columns are required. */
  predicate SrcAccepts(c: CardConfig) {
    TruthyInt(c.rows) && TruthyInt(c.columns)
  }

  /** The later check admits only configurations the earlier one admits,
      and differs from it exactly on a missing `cells`. */
  lemma AcceptanceRelation(c: CardConfig)
    ensures DistAccepts(c) ==> SrcAccepts(c)
    ensures SrcAccepts(c) && !DistAccepts(c) <==> SrcAccepts(c) && c.cells.None?
  {
  }

  /** `(cells[i] && cells[i][j]) || {}`. */
  function CellAt(cells: seq<seq<Option<CellConfig>>>, i: nat, j: nat): CellConfig {
    if i < |cells| && j < |cells[i]| && cells[i][j].Some? then cells[i][j].value else EmptyCell
  }

  function ConfigRow(cells: seq<seq<Option<CellConfig>>>, i: nat, columns: nat): seq<CellConfig> {
    seq(columns, j requires 0 <= j < columns => CellAt(cells, i, j))
  }

  /** The row-major table of per-cell configurations the grid is built from. */
  function ConfigTable(c: CardConfig): (t: seq<seq<CellConfig>>)
    requires c.cells.Some?
    ensures |t| == Extent(c.rows)
    ensures forall i :: 0 <= i < |t| ==> |t[i]| == Extent(c.columns)
  {
    seq(Extent(c.rows), i requires 0 <= i < Extent(c.rows) => ConfigRow(c.cells.value, i, Extent(c.columns)))
  }

  /** Each position of the table holds the configured cell, or `{}` when there is none. */
  lemma ConfigTableEntries(c: CardConfig, i: nat, j: nat)
    requires c.cells.Some? && i < Extent(c.rows) && j < Extent(c.columns)
    ensures var cells := c.cells.value;
            ConfigTable(c)[i][j] == if i < |cells| && j < |cells[i]| && cells[i][j].Some? then cells[i][j].value else EmptyCell
  {
  }
}

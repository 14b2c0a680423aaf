/** The later revision's per-cell decisions: what one cell shows for its
    configuration and the current snapshot. Every value here is a pure
    function of the two; the card's render loop applies `Present` to each
    stored cell. */
module DistCell {
  import opened Js
  import opened Config
  import opened View
  import opened Entities

  /** Background of a cell whose `cell_background_color` is unset. */
  const DefaultCellBackground := "rgba(200,200,200,0.2)"

  /** What an unbound or missing light reads as. */
  const Unavailable := "Unavailable"

  /** `cellConfig.title || "none"`. */
  function Title(c: CellConfig): string {
    if Truthy(c.title) then c.title.s else "none"
  }

  /** `cell_background_color || "rgba(200,200,200,0.2)"`. */
  function CellColor(c: CellConfig): string {
    if Truthy(c.cellBackgroundColor) then c.cellBackgroundColor.s else DefaultCellBackground
  }

  /** The title slot is unused: no title, an empty one, or "none" in any case. */
  predicate TitleIsNone(c: CellConfig) {
    !Truthy(c.title) || IsNone(c.title.s)
  }

  lemma TitleNoneMeansNone(c: CellConfig)
    ensures IsNone(Title(c)) <==> TitleIsNone(c)
  {
    if !Truthy(c.title) {
      IsNoneLetters("none");
    }
  }

  /** The light entity is bound, present, and its state is exactly "on". */
  predicate LightOn(c: CellConfig, hass: Snapshot) {
    Truthy(c.lightEntity) && c.lightEntity.s in hass && hass[c.lightEntity.s].state == Str("on")
  }

  function LightState(c: CellConfig, hass: Snapshot): JsValue {
    match Bound(c.lightEntity, hass)
    case Some(e) => e.state
    case None => Str(Unavailable)
  }

  /** The background rule: transparent for an unused title with no light
      bound, the theme colour exactly when the light is on, otherwise the
      cell's colour or the default. */
  function CellBackground(c: CellConfig, hass: Snapshot): (r: Background)
    ensures r == Transparent <==> TitleIsNone(c) && !Truthy(c.lightEntity)
    ensures r == Primary <==> LightOn(c, hass)
    ensures r != Transparent && r != Primary && Truthy(c.cellBackgroundColor) ==> r == Color(c.cellBackgroundColor.s)
    ensures r != Transparent && r != Primary && !Truthy(c.cellBackgroundColor) ==> r == Color(DefaultCellBackground)
  {
    TitleNoneMeansNone(c);
    if IsNone(Title(c)) then
      if Truthy(c.lightEntity) then
        if LightState(c, hass) == Str("on") then Primary else Color(CellColor(c))
      else Transparent
    else if LightState(c, hass) == Str("on") then Primary
    else Color(CellColor(c))
  }

  /** The title line shows the configured title unless it is unused. */
  function TitleLine(c: CellConfig): (r: TextLine)
    ensures r.visible <==> !TitleIsNone(c)
    ensures r.visible ==> r.text == c.title.s
    ensures !r.visible ==> r.text == ""
  {
    TitleNoneMeansNone(c);
    if !IsNone(Title(c)) then TextLine(Title(c), true) else TextLine("", false)
  }

  /** The climate line shows the current temperature, with a degree sign,
      exactly when a climate entity other than "none" is bound and present
      and its `current_temperature` is neither null nor undefined. */
  function ClimateLine(c: CellConfig, hass: Snapshot): (r: TextLine)
    ensures r.visible <==> (Truthy(c.climateEntity) && !IsNone(c.climateEntity.s) && c.climateEntity.s in hass
                            && Attribute(hass[c.climateEntity.s], "current_temperature").Str?)
    ensures r.visible ==> r.text == Attribute(hass[c.climateEntity.s], "current_temperature").s + Degree
    ensures !r.visible ==> r.text == ""
  {
    var value := ClimateValue(c, hass);
    if Truthy(c.climateEntity) && !IsNone(c.climateEntity.s) && value.Str? then TextLine(value.s + Degree, true)
    else TextLine("", false)
  }

  /** The sensor line shows the raw state exactly when a sensor is bound,
      present, and its state is neither null nor undefined. */
  function SensorLine(c: CellConfig, hass: Snapshot): (r: TextLine)
    ensures r.visible <==> Truthy(c.sensorEntity) && c.sensorEntity.s in hass && hass[c.sensorEntity.s].state.Str?
    ensures r.visible ==> r.text == hass[c.sensorEntity.s].state.s
    ensures !r.visible ==> r.text == ""
  {
    var state := SensorState(c, hass);
    if Truthy(c.sensorEntity) && state.Str? then TextLine(state.s, true) else TextLine("", false)
  }

  /** Everything one cell shows. */
  datatype Presentation = Presentation(
    background: Background,
    overlay: Overlay,
    title: TextLine,
    climate: TextLine,
    sensor: TextLine)

  function Present(c: CellConfig, hass: Snapshot): Presentation {
    Presentation(CellBackground(c, hass), MediaOverlay(c, hass), TitleLine(c), ClimateLine(c, hass), SensorLine(c, hass))
  }

  /** Each of the three lines is always present: a hidden line keeps its
      slot and carries no text. */
  lemma HiddenLinesAreBlank(c: CellConfig, hass: Snapshot)
    ensures var p := Present(c, hass);
            (!p.title.visible ==> p.title.text == "") &&
            (!p.climate.visible ==> p.climate.text == "") &&
            (!p.sensor.visible ==> p.sensor.text == "")
  {
  }

  /** Entity data missing from the snapshot degrades to fallbacks: the light
      is "Unavailable" and never highlights, the readouts are hidden and
      the overlay is absent. */
  lemma MissingEntitiesDegrade(c: CellConfig, hass: Snapshot)
    requires Truthy(c.lightEntity) ==> c.lightEntity.s !in hass
    requires Truthy(c.climateEntity) ==> c.climateEntity.s !in hass
    requires Truthy(c.mediaEntity) ==> c.mediaEntity.s !in hass
    requires Truthy(c.sensorEntity) ==> c.sensorEntity.s !in hass
    ensures LightState(c, hass) == Str(Unavailable)
    ensures var p := Present(c, hass);
            p.background != Primary && p.overlay == Hidden && !p.climate.visible && !p.sensor.visible
  {
  }

  /** A `{}` cell shows nothing, whatever the snapshot. */
  lemma EmptyCellIsBlank(hass: Snapshot)
    ensures Present(EmptyCell, hass) == Presentation(Transparent, Hidden, TextLine("", false), TextLine("", false), TextLine("", false))
  {
  }

  /** A "none" title with a light that is on still highlights. */
  lemma NoneTitleLitLight(c: CellConfig, hass: Snapshot)
    requires c.title == Str("none") && Truthy(c.lightEntity)
    requires c.lightEntity.s in hass && hass[c.lightEntity.s].state == Str("on")
    ensures Present(c, hass).background == Primary
  {
  }

  /** A media player that is paused shows no artwork. */
  lemma PausedMediaHasNoOverlay(c: CellConfig, hass: Snapshot)
    requires Truthy(c.mediaEntity) && c.mediaEntity.s in hass
    requires hass[c.mediaEntity.s].state == Str("paused")
    ensures Present(c, hass).overlay == Hidden
  {
  }
}

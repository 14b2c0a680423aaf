/** The earlier revision's per-cell decisions. They differ from the later
    revision's in the background rule, the fallback colour, a title line
    that is left out rather than hidden, and null tests that are strict. */
module SrcCell {
  import opened Js
  import opened Config
  import opened View
  import opened Entities

  /** `transparency` when the configuration does not set it. */
  const DefaultTransparency := "0.2"

  /** The hidden `&nbsp;` line that holds a readout's place. */
  const Placeholder := TextLine("\U{00A0}", false)

  /** `config.transparency || 0.2`. */
  function Transparency(c: CardConfig): string {
    if Truthy(c.transparency) then c.transparency.s else DefaultTransparency
  }

  /** `rgba(20,20,20,${transparency})`. */
  function DimColor(transparency: string): string {
    "rgba(20,20,20," + transparency + ")"
  }

  /** `hass.states[lightEntityId]`: the id is used as a property key without
      a truthiness test, so an unbound light looks up the key "undefined". */
  function LightState(c: CellConfig, hass: Snapshot): JsValue {
    var key := ToString(c.lightEntity);
    if key in hass then hass[key].state else Str("Unavailable")
  }

  /** The entity stored under the light's key exists and is exactly "on". */
  predicate KeyedLightOn(c: CellConfig, hass: Snapshot) {
    ToString(c.lightEntity) in hass && hass[ToString(c.lightEntity)].state == Str("on")
  }

  /** The background rule. With a "none" title: the theme colour when a
      light is bound and on, else transparent. Otherwise: the theme colour
      when the light is on, else the dim colour, whatever the media picture. */
  function CellBackground(c: CellConfig, hass: Snapshot, transparency: string): (r: Background)
    requires c.title.Str?
    ensures IsNone(c.title.s) ==> (r == Primary <==> Truthy(c.lightEntity) && KeyedLightOn(c, hass))
    ensures IsNone(c.title.s) && r != Primary ==> r == Transparent
    ensures !IsNone(c.title.s) ==> (r == Primary <==> KeyedLightOn(c, hass))
    ensures !IsNone(c.title.s) && r != Primary ==> r == Color(DimColor(transparency))
  {
    var lightState := LightState(c, hass);
    if IsNone(c.title.s) then
      if Truthy(c.lightEntity) && lightState == Str("on") then Primary else Transparent
    else if lightState == Str("on") then Primary
    else if !Truthy(MediaPicture(c, hass)) && lightState == Str("off") then Color(DimColor(transparency))
    else Color(DimColor(transparency))
  }

  /** The climate slot: a readout when a climate entity other than "none" is
      bound and present and `current_temperature` is not null (an undefined
      one still passes), else the placeholder. */
  function ClimateLine(c: CellConfig, hass: Snapshot): (r: TextLine)
    ensures r.visible <==> (Truthy(c.climateEntity) && !IsNone(c.climateEntity.s) && c.climateEntity.s in hass
                            && Attribute(hass[c.climateEntity.s], "current_temperature") != Null)
    ensures r.visible ==> r.text == ToString(Attribute(hass[c.climateEntity.s], "current_temperature")) + Degree
    ensures !r.visible ==> r == Placeholder
  {
    var value := ClimateValue(c, hass);
    if Truthy(c.climateEntity) && !IsNone(c.climateEntity.s) && value != Null then TextLine(ToString(value) + Degree, true)
    else Placeholder
  }

  /** The sensor slot: the state when a sensor is bound and present and its
      state is not null, else the placeholder. */
  function SensorLine(c: CellConfig, hass: Snapshot): (r: TextLine)
    ensures r.visible <==> Truthy(c.sensorEntity) && c.sensorEntity.s in hass && hass[c.sensorEntity.s].state != Null
    ensures r.visible ==> r.text == ToString(hass[c.sensorEntity.s].state)
    ensures !r.visible ==> r == Placeholder
  {
    var state := SensorState(c, hass);
    if Truthy(c.sensorEntity) && state != Null then TextLine(ToString(state), true) else Placeholder
  }

  /** The lines of a cell: the title only when it is not "none", then the
      climate and sensor slots, which are always there. */
  function Lines(c: CellConfig, hass: Snapshot): (r: seq<TextLine>)
    requires c.title.Str?
    ensures |r| == if IsNone(c.title.s) then 2 else 3
    ensures !IsNone(c.title.s) ==> r[0] == TextLine(c.title.s, true)
    ensures r[|r| - 2] == ClimateLine(c, hass) && r[|r| - 1] == SensorLine(c, hass)
  {
    (if IsNone(c.title.s) then [] else [TextLine(c.title.s, true)]) + [ClimateLine(c, hass), SensorLine(c, hass)]
  }

  /** What one cell shows: background, the overlay child if any, and its lines. */
  datatype CellView = CellView(background: Background, overlay: Overlay, lines: seq<TextLine>)

  function Present(c: CellConfig, hass: Snapshot, transparency: string): CellView
    requires c.title.Str?
  {
    CellView(CellBackground(c, hass, transparency), MediaOverlay(c, hass), Lines(c, hass))
  }

  /** The climate and sensor slots each take up a line even when empty, so
      a cell has two lines plus one for a title. */
  lemma SlotsAreKept(c: CellConfig, hass: Snapshot, transparency: string)
    requires c.title.Str?
    ensures var v := Present(c, hass, transparency);
            |v.lines| >= 2 && forall k :: 0 <= k < |v.lines| && !v.lines[k].visible ==> v.lines[k] == Placeholder
  {
  }

  /** An entity whose `current_temperature` is absent still gets a visible
      readout, reading "undefined°". */
  lemma UndefinedTemperatureIsShown(c: CellConfig, hass: Snapshot)
    requires Truthy(c.climateEntity) && !IsNone(c.climateEntity.s) && c.climateEntity.s in hass
    requires "current_temperature" !in hass[c.climateEntity.s].attributes
    ensures ClimateLine(c, hass) == TextLine("undefined" + Degree, true)
  {
  }
}

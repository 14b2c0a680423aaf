/** Reading a cell's bound entities out of the snapshot, the same in both
    revisions: `id && hass.states[id] ? ... : null`. */
module Entities {
  import opened Js
  import opened Config
  import opened View

  /** `id && hass.states[id]`: the entity an id refers to, if it is bound and present. */
  function Bound(id: JsValue, hass: Snapshot): Option<Entity> {
    if Truthy(id) && id.s in hass then Some(hass[id.s]) else None
  }

  function ClimateValue(c: CellConfig, hass: Snapshot): JsValue {
    match Bound(c.climateEntity, hass)
    case Some(e) => Attribute(e, "current_temperature")
    case None => Null
  }

  function MediaState(c: CellConfig, hass: Snapshot): JsValue {
    match Bound(c.mediaEntity, hass)
    case Some(e) => e.state
    case None => Null
  }

  function MediaPicture(c: CellConfig, hass: Snapshot): JsValue {
    match Bound(c.mediaEntity, hass)
    case Some(e) => Attribute(e, "entity_picture")
    case None => Null
  }

  function SensorState(c: CellConfig, hass: Snapshot): JsValue {
    match Bound(c.sensorEntity, hass)
    case Some(e) => e.state
    case None => Null
  }

  /** The artwork overlay is shown exactly while the bound media player is
      playing and has a non-empty picture, and then shows that picture. */
  function MediaOverlay(c: CellConfig, hass: Snapshot): (r: Overlay)
    ensures r.Shown? <==> (Truthy(c.mediaEntity) && c.mediaEntity.s in hass
                           && hass[c.mediaEntity.s].state == Str("playing")
                           && Truthy(Attribute(hass[c.mediaEntity.s], "entity_picture")))
    ensures r.Shown? ==> r.url == Attribute(hass[c.mediaEntity.s], "entity_picture").s
  {
    var picture := MediaPicture(c, hass);
    if MediaState(c, hass) == Str("playing") && Truthy(picture) then Shown(picture.s) else Hidden
  }
}

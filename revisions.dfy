/** Where the two revisions of the card decide a cell differently, and
    where they agree. */
module Revisions {
  import opened Js
  import opened Config
  import opened View
  import opened Entities
  import DistCell
  import SrcCell

  /** A "none" title with a bound light that is not on: the later revision
      shows the cell's colour (or the default), the earlier one is transparent. */
  lemma NoneTitleUnlitLight(c: CellConfig, hass: Snapshot, transparency: string)
    requires c.title.Str? && IsNone(c.title.s) && Truthy(c.lightEntity)
    requires c.lightEntity.s in hass ==> hass[c.lightEntity.s].state != Str("on")
    ensures DistCell.CellBackground(c, hass) == Color(DistCell.CellColor(c))
    ensures SrcCell.CellBackground(c, hass, transparency) == Transparent
  {
    IsNoneLetters(c.title.s);
  }

  /** A set title with a light that is not on: the later revision shows the
      cell's colour (or the default), the earlier one the dim colour, whatever
      `cell_background_color` and the media picture are. */
  lemma TitledUnlitFallback(c: CellConfig, hass: Snapshot, transparency: string)
    requires Truthy(c.title) && !IsNone(c.title.s)
    requires !DistCell.LightOn(c, hass) && !SrcCell.KeyedLightOn(c, hass)
    ensures DistCell.CellBackground(c, hass) == Color(DistCell.CellColor(c))
    ensures SrcCell.CellBackground(c, hass, transparency) == Color(SrcCell.DimColor(transparency))
  {
  }

  /** With a light bound, both revisions highlight the cell in exactly the same cases. */
  lemma SameHighlightWhenBound(c: CellConfig, hass: Snapshot, transparency: string)
    requires Truthy(c.title) && Truthy(c.lightEntity)
    ensures DistCell.CellBackground(c, hass) == Primary <==> SrcCell.CellBackground(c, hass, transparency) == Primary
  {
  }

  /** The earlier revision looks an unbound light up under the key
      "undefined", so an entity of that id highlights every titled cell
      without a light; the later revision never highlights such a cell. */
  lemma UnboundLightKey(c: CellConfig, hass: Snapshot, transparency: string)
    requires Truthy(c.title) && !IsNone(c.title.s) && c.lightEntity == Undefined
    requires "undefined" in hass && hass["undefined"].state == Str("on")
    ensures SrcCell.CellBackground(c, hass, transparency) == Primary
    ensures DistCell.CellBackground(c, hass) != Primary
  {
  }

  /** An unused title is a hidden, empty line in the later revision and no
      line at all in the earlier one. */
  lemma UnusedTitleLine(c: CellConfig, hass: Snapshot)
    requires c.title.Str? && IsNone(c.title.s)
    ensures DistCell.TitleLine(c) == TextLine("", false)
    ensures |SrcCell.Lines(c, hass)| == 2
  {
  }

  /** A climate entity without `current_temperature`: the later revision
      hides the readout, the earlier one shows "undefined°". */
  lemma UndefinedTemperatureDiffers(c: CellConfig, hass: Snapshot)
    requires Truthy(c.climateEntity) && !IsNone(c.climateEntity.s) && c.climateEntity.s in hass
    requires "current_temperature" !in hass[c.climateEntity.s].attributes
    ensures !DistCell.ClimateLine(c, hass).visible
    ensures SrcCell.ClimateLine(c, hass) == TextLine("undefined" + Degree, true)
  {
    SrcCell.UndefinedTemperatureIsShown(c, hass);
  }

  /** On a temperature that is a value or null the two revisions show the
      same readout. */
  lemma TemperatureAgrees(c: CellConfig, hass: Snapshot)
    requires Truthy(c.climateEntity) && c.climateEntity.s in hass
    requires Attribute(hass[c.climateEntity.s], "current_temperature") != Undefined
    ensures DistCell.ClimateLine(c, hass).visible == SrcCell.ClimateLine(c, hass).visible
    ensures DistCell.ClimateLine(c, hass).visible ==> DistCell.ClimateLine(c, hass).text == SrcCell.ClimateLine(c, hass).text
  {
  }

  /** Both revisions make the same overlay decision. This holds by
      construction: both cell views take their overlay from
      `Entities.MediaOverlay`, since the two revisions test the media
      player identically (src/home_overview.js:117 and
      dist/home_overview.js:286). */
  lemma SameOverlay(c: CellConfig, hass: Snapshot, transparency: string)
    requires c.title.Str?
    ensures DistCell.Present(c, hass).overlay == SrcCell.Present(c, hass, transparency).overlay
  {
  }
}

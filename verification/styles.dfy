/**
 The style registry: a fixed table of named palettes, one of which is chosen
 at start-up. Colours are kept as the opaque names the palettes use; turning a
 name into RGBA is a foreign call and is passed around as a function value.
 */
module Styles {

  /** A colour as written in a palette ("#FFD700", "white", ...). */
  type Colour = string

  /** Normalised RGBA as returned by the colour-name parser. */
  datatype Rgba = Rgba(r: real, g: real, b: real, a: real)

  /** One palette bundle. Only `hasRibbon` influences the geometry of the scene. */
  datatype Style = Style(
    background: Colour,
    treeColours: seq<Colour>,
    trunkColour: Colour,
    ornamentColours: seq<Colour>,
    starColour: Colour,
    textColour: Colour,
    ribbonColour: Colour,
    snowColour: Colour,
    hasRibbon: bool,
    ribbonWidth: real)

  /** The id of the palette the scene is rendered with. */
  const ActiveId: string := "6"

  /** The id every unknown id falls back to. */
  const DefaultId: string := "1"

  const Registry: map<string, Style> := map[
    "1" := Style("#050505", ["#0f3d0f", "#144514", "#006400", "#2E8B57", "#228B22"], "#3e2723",
                 ["#FFD700", "#FF0000", "#FFFFFF", "#FFA500"], "#FFD700", "#FFD700", "#D4AF37",
                 "white", true, 2.2),
    "2" := Style("#0a1014", ["#2F4F4F", "#5F9EA0", "#708090"], "#404040",
                 ["#E0FFFF", "#FFFFFF", "#B0C4DE"], "#E0FFFF", "#B0C4DE", "#F0FFFF",
                 "#F0FFFF", true, 1.5),
    "3" := Style("#1a1a1a", ["#556B2F", "#6B8E23", "#808000"], "#5D4037",
                 ["#CD853F", "#FFCC00"], "#FFCC00", "#DEB887", "#000000",
                 "white", false, 0.0),
    "4" := Style("#000000", ["#006400", "#228B22"], "#4E342E",
                 ["#FF0000", "#00FF00", "#0000FF", "#FFFF00"], "#FFD700", "#FF6347", "#C0C0C0",
                 "white", true, 1.5),
    "5" := Style("#000000", ["#1a1a1a", "#222222", "#333333"], "#111111",
                 ["#FFFFFF", "#DDDDDD"], "#FFFFFF", "#FFFFFF", "#FFFFFF",
                 "#808080", true, 1.2),
    "6" := Style("#120508", ["#D87093", "#FF69B4", "#C71585"], "#5D4037",
                 ["#FFFFFF", "#FFD700", "#FF1493"], "#FFD700", "#FFC0CB", "#FFB6C1",
                 "#FFF0F5", true, 1.5)
  ]

  /** A style the scene builder can draw from: both colour lists are
      non-empty, since picking from an empty list raises. */
  predicate WellFormed(s: Style) {
    |s.treeColours| > 0 && |s.ornamentColours| > 0
  }

  /** Registry lookup with fallback to the default palette. */
  function Lookup(id: string): (s: Style)
    ensures id in Registry ==> s == Registry[id]
    ensures id !in Registry ==> s == Registry[DefaultId]
    ensures s in Registry.Values
  {
    if id in Registry then Registry[id] else Registry[DefaultId]
  }

  /** The palette of the run. */
  function Active(): (s: Style)
    ensures s == Registry[ActiveId] && s.hasRibbon && WellFormed(s)
  {
    Lookup(ActiveId)
  }

  /** The registry holds exactly the ids "1" to "6". */
  lemma RegistryIds()
    ensures Registry.Keys == {"1", "2", "3", "4", "5", "6"}
  {
  }

  /** Whatever id is asked for, the style obtained is well formed, and it
      draws no ribbon exactly when the id is "3". */
  lemma LookupRibbon(id: string)
    ensures WellFormed(Lookup(id))
    ensures !Lookup(id).hasRibbon <==> id == "3"
  {
    if id in Registry {
      assert id in {"1", "2", "3", "4", "5", "6"} by { RegistryIds(); }
    }
  }
}

/**
 * The five ways swaybg can lay an image over an output, and how the mode
 * argument names them.
 */
module Scaling {
  import opened Wrappers

  datatype ScalingMode = Stretch | Fill | Fit | Center | Tile

  /** The argument spelling of each mode: the inverse of the parse. */
  function ModeName(m: ScalingMode): (s: string)
  {
    match m
    case Stretch => "stretch"
    case Fill => "fill"
    case Fit => "fit"
    case Center => "center"
    case Tile => "tile"
  }

  /**
   * The `strcmp` chain over the mode argument. `None` is the abort
   * "Unsupported scaling mode"; `solid_color` is not a scaling mode and
   * lands there too.
   */
  function ParseScalingMode(s: string): (r: Option<ScalingMode>)
    ensures r.Some? <==> s in {"stretch", "fill", "fit", "center", "tile"}
    ensures r.Some? ==> ModeName(r.value) == s
  {
    if s == "stretch" then Some(Stretch)
    else if s == "fill" then Some(Fill)
    else if s == "fit" then Some(Fit)
    else if s == "center" then Some(Center)
    else if s == "tile" then Some(Tile)
    else None
  }

  /** Every mode is reached by its own name, so the five modes are distinct. */
  lemma ParseModeName(m: ScalingMode)
    ensures ParseScalingMode(ModeName(m)) == Some(m)
  {
  }

  /** Two arguments that parse to the same mode are the same string. */
  lemma ParseInjective(s: string, t: string)
    requires ParseScalingMode(s).Some? && ParseScalingMode(s) == ParseScalingMode(t)
    ensures s == t
  {
  }

  lemma SolidColorIsNotAScalingMode()
    ensures ParseScalingMode("solid_color") == None
    ensures ParseScalingMode("zoom") == None
  {
  }
}

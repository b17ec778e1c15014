/**
 * The values the plugin moves between the host document, its parameters and
 * client storage: colours, paints, and named palette entries.
 */
module Fills {
  import opened Wrappers

  /** A colour with channels the host keeps in [0, 1]. */
  datatype Rgb = Rgb(r: real, g: real, b: real)

  /** The `type` tag of a host paint. */
  datatype PaintKind =
    | Solid
    | GradientLinear
    | GradientRadial
    | GradientAngular
    | GradientDiamond
    | Image
    | Video
    | Pattern

  /**
   * A host paint. `color` is meaningful for a solid paint only; `details`
   * stands for every other property (gradient stops and transform, image
   * hash, blend mode), kept so that two different gradients never compare equal.
   */
  datatype Paint = Paint(kind: PaintKind, visible: bool, color: Rgb, opacity: Option<real>, details: string)

  /**
   * What a palette entry or the colour parameter carries:
   * a style reference (`{ key, remote }`), a paint copied from a layer
   * (anything with a `type`), or one of the preset colours (`{ r, g, b }`).
   */
  datatype ColorData =
    | StyleRef(key: string, remote: bool)
    | Literal(paint: Paint)
    | Preset(rgb: Rgb)

  /** A suggestion or palette record: `{ name, data }`. */
  datatype Named<T> = Named(name: string, data: T)

  /** A saved palette entry. */
  type Entry = Named<ColorData>
}

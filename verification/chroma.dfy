/**
  The part of chroma-js the pattern generator touches, as a free term
  algebra: a colour is the record of how it was made (sampled from a scale,
  mixed, darkened or parsed), not a computed RGB value. Colour arithmetic is
  not modelled; what the model can check is which operations are applied, in
  which order, and with which arguments.
*/
module Chroma {

  import opened Wrappers

  /** The interpolation modes `colorSpace` may name. */
  datatype ColorSpace = Rgb | Hsl | Hsv | Hsi | Lab | Oklab | Lch | Oklch | Hcl | Lrgb

  /** `chroma.scale(colors).mode(mode)`. `colors` is `None` when the colour
      list resolved to `undefined` (a random pick from an empty palette), in
      which case chroma uses its own default ramp. */
  datatype Scale = Scale(colors: Option<seq<string>>, mode: ColorSpace)

  datatype Color =
    | Sample(scale: Scale, t: real)                                  // scale(t)
    | Mix(left: Color, right: Color, weight: real, mode: ColorSpace)  // chroma.mix
    | Darken(base: Color, amount: real)                              // color.darken
    | Parse(css: string)                                             // chroma(css)
}

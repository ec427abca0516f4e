/**
  The option values of a pattern once the user's options have been merged
  over the defaults (everything but the colour function, which lives with
  the colour functions), the palette shapes, and the errors the generator
  and the serialiser throw.
*/
module Settings {

  import opened Wrappers
  import opened Mulberry32
  import opened Geom
  import opened Chroma

  /** A palette is either an array of colour lists or an object from names to
      colour lists; `entries` keeps the object's own keys in `Object.keys`
      order. */
  datatype Palette =
    | ArrayPalette(lists: seq<seq<string>>)
    | ObjectPalette(entries: seq<(string, seq<string>)>)

  /** `xColors`/`yColors`: an explicit list of colours, or a string naming a
      palette entry, `'random'` or (for `yColors`) `'match'`. */
  datatype ColorOpt = Colors(list: seq<string>) | Keyword(name: string)

  /** Every option of `RequiredOptions` except `colorFunction`. A seed of
      `null` or `undefined` is `None`; so are `points` of `null`. */
  datatype Settings = Settings(
    width: real,
    height: real,
    cellSize: real,
    variance: real,
    seed: Option<CodeUnits>,
    xColors: ColorOpt,
    yColors: ColorOpt,
    palette: Palette,
    colorSpace: ColorSpace,
    fill: bool,
    strokeWidth: real,
    points: Option<seq<Point>>)

  /** What trianglify throws. */
  datatype Error =
    | UnrecognizedOption(key: string)        // TypeError "Unrecognized option"
    | InvalidHeight(height: real)            // TypeError "invalid height"
    | InvalidWidth(width: real)              // TypeError "invalid width"
    | UnrecognizedColorOption(name: string)  // TypeError "Unrecognized color option"
    | InvalidArrayLength                     // RangeError from Array(pointCount)
    | MalformedTriangle(offset: nat)         // TypeError reading a vertex that is not there
    | DecimalsOutOfRange                     // RangeError from toFixed
    | MissingVertex(index: nat)              // TypeError: a polygon names a point that is not there
}

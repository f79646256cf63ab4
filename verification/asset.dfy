/** The colour-set asset document (`Contents.json`) as an algebraic value:
    the shape both generator scripts build, without its JSON text. */
module Asset {
  import opened Hex

  /** A JSON field that may be absent. */
  datatype Option<T> = None | Some(value: T)

  /** The `components` object; each channel is a string such as `0x34`. */
  datatype Components = Components(alpha: string, red: string, green: string, blue: string)

  /** The `color` object. */
  datatype Color = Color(colorSpace: string, components: Components)

  /** One `appearances` selector, such as luminosity = dark. */
  datatype Appearance = Appearance(appearance: string, value: string)

  /** One element of `colors`; `appearances` is absent on the default (light) entry. */
  datatype ColorEntry = ColorEntry(appearances: Option<seq<Appearance>>, color: Color, idiom: string)

  /** The `info` object. */
  datatype Info = Info(author: string, version: int)

  /** A whole `Contents.json` document. */
  datatype Document = Document(colors: seq<ColorEntry>, info: Info)

  /** One file the generator writes: its path and its document. */
  datatype ContentsFile = ContentsFile(path: string, document: Document)

  const Alpha: string := "1.000"
  const ColorSpace: string := "srgb"
  const Idiom: string := "universal"
  const XcodeInfo: Info := Info("xcode", 1)
  const DarkAppearance: Appearance := Appearance("luminosity", "dark")

  /** `c` shows `hex`: sRGB, alpha `1.000`, and each channel is `0x` followed by
      that channel's digit pair of `hex` (after its `#`s), upper-cased. */
  ghost predicate Shows(c: Color, hex: string)
    requires IsColorHex(hex)
  {
    var t := StripHashes(hex);
    && c.colorSpace == "srgb"
    && c.components.alpha == "1.000"
    && c.components.red == "0x" + Upper(t[0..2])
    && c.components.green == "0x" + Upper(t[2..4])
    && c.components.blue == "0x" + Upper(t[4..6])
  }

  /** `e` is a universal-idiom entry showing `hex`. */
  ghost predicate Depicts(e: ColorEntry, hex: string)
    requires IsColorHex(hex)
  {
    e.idiom == "universal" && Shows(e.color, hex)
  }

  /** The `color` object built from a decoded hex value. */
  function ColorOf(hex: string): (c: Color)
    requires IsColorHex(hex)
    ensures Shows(c, hex)
  {
    var rgb := HexToRgb(hex);
    FormatDecoded(hex);
    Color(ColorSpace, Components(Alpha, FormatComponent(rgb.red), FormatComponent(rgb.green), FormatComponent(rgb.blue)))
  }

  /** Equal colours show the same channels, so the `color` object depends
      only on the decoded value, not on how the hex was spelled. */
  lemma ColorOfDecoded(hex: string, hex': string)
    requires IsColorHex(hex) && IsColorHex(hex')
    ensures ColorOf(hex) == ColorOf(hex') <==> HexToRgb(hex) == HexToRgb(hex')
  {
    var rgb, rgb' := HexToRgb(hex), HexToRgb(hex');
    if ColorOf(hex) == ColorOf(hex') {
      assert ParseByte(FormatComponent(rgb.red)[2..]) == rgb.red;
      assert ParseByte(FormatComponent(rgb.green)[2..]) == rgb.green;
      assert ParseByte(FormatComponent(rgb.blue)[2..]) == rgb.blue;
    }
  }

  /** The entry with no appearance selector: the light (default) appearance. */
  function DefaultEntry(hex: string): (e: ColorEntry)
    requires IsColorHex(hex)
    ensures e.appearances == None && Depicts(e, hex)
  {
    ColorEntry(None, ColorOf(hex), Idiom)
  }

  /** The entry selected by luminosity = dark. */
  function DarkEntry(hex: string): (e: ColorEntry)
    requires IsColorHex(hex)
    ensures e.appearances == Some([Appearance("luminosity", "dark")]) && Depicts(e, hex)
  {
    ColorEntry(Some([DarkAppearance]), ColorOf(hex), Idiom)
  }
}

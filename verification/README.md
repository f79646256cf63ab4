# Colour-set generators

A Dafny model of the two asset-catalog generator scripts of the Habitto
application. Each script holds an embedded table of colour families
(Yellow, Green, Red, Navy, PastelBlue, Grey) mapping variant names such as
`green500` to hex colours, and writes one `<name>.colorset/Contents.json`
per variant under `Assets/Colors.xcassets`:

- `create_color_sets.py` maps each variant to one hex value and writes a
  document with a single colour entry;
- `create_dark_mode_colors.py` maps each variant to a light and a dark hex
  value and writes a document with a light entry followed by a
  luminosity = dark entry.

The model is functional. The files are:

- `hex.dfy` (module `Hex`): the `hex_to_rgb` decoder (`lstrip('#')`, then
  three two-digit base-16 slices), the `0x%02X` channel formatter, and an
  encoder partner `RgbToHex`, with both round trips proved;
- `hex_examples.dfy` (module `HexExamples`): worked examples, including
  `#34C759`, the `#000000`/`#FFFFFF` boundaries, zero padding and repeated `#`s;
- `asset.dfy` (module `Asset`): the `Contents.json` document as datatypes
  (colour entry, components, appearance selector, `info`), and the two kinds
  of entry;
- `catalog.dfy` (module `Catalog`): the table shape (families of named
  variants, in insertion order), the visiting order of the nested loops, the
  `<base>/<name>.colorset` directory rule, and the argument that stem-prefixed,
  per-family-unique names are unique across the table;
- `color_sets.dfy` (module `ColorSets`) and `dark_mode_colors.dfy` (module
  `DarkModeColors`): each script's table as a constant, its
  `create_color_set_json`, its main loop as `Generate` (the list of files it
  writes), and the facts about its table.

The dark-mode table is proved equal, family by family, to the light-only
table with each value used for both light and dark. Its well-formedness,
name uniqueness and light = dark property follow from that.

The code does not validate its input. For example, `int(s, 16)` would
accept a five-digit value and silently give a one-digit blue channel. An
input that is not six hex digits after its leading `#`s is outside the
model: the decoder is defined for exactly that form, and every table value
is proved to have it.

## Model

| member | source | states |
|---|---|---|
| Hex.DigitValue | create_color_sets.py:85-87 | a hex digit of either case has the value `int(_, 16)` gives it, below 16, and below 10 exactly for decimal digits |
| Hex.UpperDigit | create_color_sets.py:101-103 | the digit `%X` prints for a value below 16 is an upper-case hex digit whose value is that number |
| Hex.ToUpper | create_dark_mode_colors.py:102-104 | upper-casing a hex digit keeps its value and leaves digits that are already upper case alone |
| Hex.UpperDigitOfValue | create_dark_mode_colors.py:102-104 | printing the value of any hex digit with `%X` gives that digit upper-cased |
| Hex.ParseByte | create_color_sets.py:85-87 | `int` of a two-digit slice is the byte whose high and low base-16 digits are the slice's first and second digits |
| Hex.HexByte | create_color_sets.py:101-103 | `{v:02X}` is exactly two upper-case digits, zero-padded, that parse back to `v` |
| Hex.HexByteOfParse | create_color_sets.py:85-103 | printing a parsed channel gives back the input's two digits, upper-cased |
| Hex.FormatComponent | create_dark_mode_colors.py:120-122 | a rendered channel is 4 characters: `0x` then two upper-case digits that parse back to the channel value |
| Hex.StripHashes | create_color_sets.py:84 | `lstrip('#')` never lengthens its input; `Hex.StripHashesCutsLeadingHashes` characterises it fully |
| Hex.StripHashesCutsLeadingHashes | create_color_sets.py:84 | `lstrip('#')` removes exactly the leading run of `#`s: the result is a suffix, everything cut is `#`, and it does not start with `#` |
| Hex.StripHashesAfterHashes | create_dark_mode_colors.py:84 | any number of extra leading `#`s strips to the same remainder |
| Hex.DecodeIgnoresHashes | create_color_sets.py:84-88 | prefixing `#`s changes neither whether the decoder accepts a value nor the colour it decodes to |
| Hex.TableHexIsColorHex | create_dark_mode_colors.py:82-88 | a table spelling (`#` plus six hex digits) is accepted by the decoder, which sees exactly the six digits |
| Hex.HexToRgb | create_dark_mode_colors.py:82-88 | for `#`s followed by six hex digits, each channel's base-16 digits are digit pairs 0-1, 2-3 and 4-5 of the input; channels lie in [0, 255] by type |
| Hex.RgbToHex | create_color_sets.py:82-88 | the encoder partner of the decoder: `#` and six upper-case digits, which the decoder accepts and strips to the digits |
| Hex.DecodeEncode | create_color_sets.py:82-88 | decoding the encoded form of any colour gives that colour back |
| Hex.EncodeDecode | create_dark_mode_colors.py:82-88 | encoding a decoded value gives its six digits upper-cased behind a single `#` |
| Hex.FormatDecoded | create_dark_mode_colors.py:85-104 | each rendered channel of a decoded value is `0x` followed by the corresponding input digit pair, upper-cased |
| HexExamples.ExampleGreen500 | create_dark_mode_colors.py:25 | `#34C759` (green500) decodes to 0x34, 0xC7, 0x59 |
| HexExamples.ExampleGreen500Rendered | create_dark_mode_colors.py:102-104 | those channels render as `0x34`, `0xC7`, `0x59` |
| HexExamples.ExampleBlack | create_color_sets.py:85-103 | `#000000` decodes to all zeros, rendered `0x00` |
| HexExamples.ExampleWhite | create_color_sets.py:78 | `#FFFFFF` (greyWhite) decodes to all 255, rendered `0xFF` |
| HexExamples.ExamplePadding | create_color_sets.py:101-103 | 10 renders zero-padded as `0x0A` |
| HexExamples.ExampleHashes | create_color_sets.py:84 | `##112233`, `#112233` and `112233` are all accepted and decode to the same colour |
| Asset.ColorOf | create_color_sets.py:97-105 | the `color` object is sRGB with alpha `1.000` and channels `0x` plus the input digit pairs upper-cased |
| Asset.ColorOfDecoded | create_color_sets.py:92-105 | two hex values give the same `color` object exactly when they decode to the same colour |
| Asset.DefaultEntry | create_dark_mode_colors.py:97-108 | the light entry has no `appearances` field, idiom `universal`, and shows its hex value |
| Asset.DarkEntry | create_dark_mode_colors.py:109-126 | the dark entry has `appearances = [luminosity: dark]`, idiom `universal`, and shows its hex value |
| Catalog.Variants | create_color_sets.py:118-119 | the loop visits exactly the variants of the table's families, family by family |
| Catalog.ColorSetDir | create_color_sets.py:121 | the directory is `base/` then the name then `.colorset`, so the name can be read back |
| Catalog.ColorSetDirInjective | create_dark_mode_colors.py:140 | under one base path, two directories are equal exactly when the names are |
| Catalog.ContentsPath | create_color_sets.py:126 | the file is `Contents.json` inside the colour-set directory |
| Catalog.ContentsPathInjective | create_dark_mode_colors.py:149 | two `Contents.json` paths are equal exactly when their directories are |
| Catalog.InShadeOrderUnique | create_color_sets.py:6-80 | a family whose variants are listed in strictly ascending shade order (`50`, `100`, ..., `900`, then `Black`, `White`) has no repeated name |
| Catalog.UniqueAcrossFamilies | create_color_sets.py:6-80 | names unique within each family and prefixed by family stems that pairwise differ at some position are unique across the whole table |
| Catalog.VariantsOfMapped | create_dark_mode_colors.py:137-138 | mapping the values of every family maps the values of the flattened variants, keeping names and order |
| Catalog.Walk | create_dark_mode_colors.py:137-141 | the nested loops produce one job per variant, in table order, each aimed at that variant's `<name>.colorset` directory; two jobs share a directory exactly when their variants share a name |
| ColorSets.CreateColorSetJson | create_color_sets.py:90-113 | exactly one entry, without `appearances`, universal sRGB alpha `1.000` showing the hex digits; `info` is author `xcode`, version 1 |
| ColorSets.NameDoesNotMatter | create_color_sets.py:90-113 | two calls with the same hex value and different names give equal documents |
| ColorSets.SameDocumentIffSameColour | create_color_sets.py:92-103 | two hex values give equal documents exactly when they decode to the same colour |
| ColorSets.YellowNamesUnique | create_color_sets.py:7-18 | the Yellow variants are listed in ascending shade order, so no two share a name |
| ColorSets.YellowSpelled | create_color_sets.py:7-18 | every Yellow value is `#` plus six hex digits |
| ColorSets.YellowStemmed | create_color_sets.py:7-18 | the Yellow stem is the family name with a lower-case initial, and every Yellow variant name starts with it |
| ColorSets.GreenNamesUnique | create_color_sets.py:19-30 | the Green variants are listed in ascending shade order, so no two share a name |
| ColorSets.GreenSpelled | create_color_sets.py:19-30 | every Green value is `#` plus six hex digits |
| ColorSets.GreenStemmed | create_color_sets.py:19-30 | the Green stem is the family name with a lower-case initial, and every Green variant name starts with it |
| ColorSets.RedNamesUnique | create_color_sets.py:31-42 | the Red variants are listed in ascending shade order, so no two share a name |
| ColorSets.RedSpelled | create_color_sets.py:31-42 | every Red value is `#` plus six hex digits |
| ColorSets.RedStemmed | create_color_sets.py:31-42 | the Red stem is the family name with a lower-case initial, and every Red variant name starts with it |
| ColorSets.NavyNamesUnique | create_color_sets.py:43-54 | the Navy variants are listed in ascending shade order, so no two share a name |
| ColorSets.NavySpelled | create_color_sets.py:43-54 | every Navy value is `#` plus six hex digits |
| ColorSets.NavyStemmed | create_color_sets.py:43-54 | the Navy stem is the family name with a lower-case initial, and every Navy variant name starts with it |
| ColorSets.PastelBlueNamesUnique | create_color_sets.py:55-65 | the PastelBlue variants are listed in ascending shade order, so no two share a name |
| ColorSets.PastelBlueSpelled | create_color_sets.py:55-65 | every PastelBlue value is `#` plus six hex digits |
| ColorSets.PastelBlueStemmed | create_color_sets.py:55-65 | the PastelBlue stem is the family name with a lower-case initial, and every PastelBlue variant name starts with it |
| ColorSets.GreyNamesUnique | create_color_sets.py:66-79 | the Grey variants are listed in ascending shade order, so no two share a name |
| ColorSets.GreySpelled | create_color_sets.py:66-79 | every Grey value is `#` plus six hex digits |
| ColorSets.GreyStemmed | create_color_sets.py:66-79 | the Grey stem is the family name with a lower-case initial, and every Grey variant name starts with it |
| ColorSets.StemsApart | create_color_sets.py:6-80 | any two family stems (`yellow`, `green`, `red`, `navy`, `pastelBlue`, `grey`) differ at a position both have, so neither is a prefix of the other |
| ColorSets.NamesUniqueWithinFamilies | create_color_sets.py:6-80 | within every family, names are distinct |
| ColorSets.FamiliesSpelled | create_color_sets.py:6-80 | in every family, every value is `#` plus six hex digits |
| ColorSets.FamiliesStemmedByStems | create_color_sets.py:6-80 | each family's stem is its entry in the list of stems, and all its variant names start with it |
| ColorSets.FamiliesStemmed | create_color_sets.py:6-80 | variant names are prefixed by their family's stem and any two stems differ at a shared position |
| ColorSets.TableValuesWellFormed | create_color_sets.py:6-80 | every value of the table is `#` plus six hex digits and is accepted by the decoder |
| ColorSets.TableNamesUnique | create_color_sets.py:6-80 | variant names are unique across all families |
| ColorSets.GenerateFrom | create_color_sets.py:118-127 | for any table whose values decode, the loop writes one `Contents.json` per variant in table order, at that variant's directory, holding its document; two files share a path exactly when their variants share a name (the later overwrites the earlier) |
| ColorSets.Generate | create_color_sets.py:116-127 | one `Contents.json` per variant in table order, at `Assets/Colors.xcassets/<name>.colorset/Contents.json`, holding that variant's document; no path is written twice |
| DarkModeColors.CreateColorSetJson | create_dark_mode_colors.py:90-132 | exactly two entries: light first without `appearances`, dark second with luminosity = dark, both universal sRGB alpha `1.000` showing their own hex digits; `info` is author `xcode`, version 1 |
| DarkModeColors.EntriesIndependent | create_dark_mode_colors.py:92-123 | the first entry changes only with the light colour and the second only with the dark colour; the name affects neither |
| DarkModeColors.LightEntryAsInLightOnlyScript | create_dark_mode_colors.py:95-108 | the light entry and `info` equal those of the light-only script's document for the same value |
| DarkModeColors.YellowDoubled | create_dark_mode_colors.py:7-18 | the dark-mode Yellow family is the light-only Yellow family with each value used as both light and dark |
| DarkModeColors.GreenDoubled | create_dark_mode_colors.py:19-30 | the dark-mode Green family is the light-only Green family with each value used as both light and dark |
| DarkModeColors.RedDoubled | create_dark_mode_colors.py:31-42 | the dark-mode Red family is the light-only Red family with each value used as both light and dark |
| DarkModeColors.NavyDoubled | create_dark_mode_colors.py:43-54 | the dark-mode Navy family is the light-only Navy family with each value used as both light and dark |
| DarkModeColors.PastelBlueDoubled | create_dark_mode_colors.py:55-65 | the dark-mode PastelBlue family is the light-only PastelBlue family with each value used as both light and dark |
| DarkModeColors.GreyDoubled | create_dark_mode_colors.py:66-79 | the dark-mode Grey family is the light-only Grey family with each value used as both light and dark |
| DarkModeColors.TableIsLightTableDoubled | create_dark_mode_colors.py:6-80 | the dark-mode table has the light-only table's families, names and order, with light = dark = the light-only value |
| DarkModeColors.VariantsAreLightVariantsDoubled | create_dark_mode_colors.py:6-80 | flattened, each dark-mode variant is the light-only variant at the same position with its value doubled |
| DarkModeColors.TableValuesWellFormed | create_dark_mode_colors.py:6-80 | every light and dark value is `#` plus six hex digits, and light equals dark in every entry |
| DarkModeColors.TableNamesUnique | create_dark_mode_colors.py:6-80 | variant names are unique across all families |
| DarkModeColors.GenerateFrom | create_dark_mode_colors.py:137-150 | for any table whose light and dark values decode, one `Contents.json` per variant in table order, at that variant's directory, with its light-and-dark document; two files share a path exactly when their variants share a name |
| DarkModeColors.Generate | create_dark_mode_colors.py:135-150 | one `Contents.json` per variant in table order at `Assets/Colors.xcassets/<name>.colorset/Contents.json` with its light-and-dark document; no path written twice; both entries of each document show the same colour |

## Left out

- Directory creation (`os.makedirs(..., exist_ok=True)`), opening and overwriting `Contents.json`, and rerun behaviour are filesystem I/O. `Generate` returns the list of (path, document) pairs the loop would write instead.
- The JSON text (`json.dump` with `indent=2`, key order on disk) belongs to the `json` library. The document is modelled as a datatype, and the fixed strings (`srgb`, `1.000`, `universal`, `luminosity`, `dark`, `xcode`, version 1) are its field values.
- The `print` progress and completion messages are console output.
- Hex.HexToRgb: requires `#`s followed by exactly six hex digits, so three behaviours of `hex_to_rgb` lie outside the model. Python's `int(_, 16)` also accepts surrounding whitespace, a sign and underscores. A slice holding a non-hex character, or an empty slice (four or fewer digits after the `#`s, which reaches `int('', 16)`), raises `ValueError`. Characters after the sixth digit are silently ignored, so `#1122334` decodes. Every table value is proved to satisfy the requirement.
- Python dict semantics: the tables are modelled as ordered sequences of families and variants, matching dict insertion order. A repeated key in a dict literal would silently keep only the last value; no such repeat exists, since names are proved unique.

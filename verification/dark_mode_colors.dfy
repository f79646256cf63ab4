/** `create_dark_mode_colors.py`: the light-and-dark generator. Its table
    maps each variant to a light and a dark hex value, and each document has
    a default (light) entry followed by a luminosity = dark entry. */
module DarkModeColors {
  import opened Hex
  import opened Asset
  import opened Catalog
  import ColorSets

  /** The `{"light": ..., "dark": ...}` pair of one variant. */
  datatype Modes = Modes(light: string, dark: string)

  const Yellow: Family<Modes> := Family("Yellow", [
      Variant("yellow50", Modes("#FEF6E6", "#FEF6E6")),
      Variant("yellow100", Modes("#FCE2B0", "#FCE2B0")),
      Variant("yellow200", Modes("#FAD58A", "#FAD58A")),
      Variant("yellow300", Modes("#F8C154", "#F8C154")),
      Variant("yellow400", Modes("#F7B533", "#F7B533")),
      Variant("yellow500", Modes("#F5A300", "#F5A300")),
      Variant("yellow600", Modes("#DF9400", "#DF9400")),
      Variant("yellow700", Modes("#AE7400", "#AE7400")),
      Variant("yellow800", Modes("#875A00", "#875A00")),
      Variant("yellow900", Modes("#674400", "#674400"))
    ])

  const Green: Family<Modes> := Family("Green", [
      Variant("green50", Modes("#EBF9EE", "#EBF9EE")),
      Variant("green100", Modes("#C0EECC", "#C0EECC")),
      Variant("green200", Modes("#A2E5B3", "#A2E5B3")),
      Variant("green300", Modes("#77D990", "#77D990")),
      Variant("green400", Modes("#5DD27A", "#5DD27A")),
      Variant("green500", Modes("#34C759", "#34C759")),
      Variant("green600", Modes("#2FB551", "#2FB551")),
      Variant("green700", Modes("#258D3F", "#258D3F")),
      Variant("green800", Modes("#1D6D31", "#1D6D31")),
      Variant("green900", Modes("#165425", "#165425"))
    ])

  const Red: Family<Modes> := Family("Red", [
      Variant("red50", Modes("#FCEBEE", "#FCEBEE")),
      Variant("red100", Modes("#F7C0C9", "#F7C0C9")),
      Variant("red200", Modes("#F3A2AF", "#F3A2AF")),
      Variant("red300", Modes("#EE778A", "#EE778A")),
      Variant("red400", Modes("#EA5D74", "#EA5D74")),
      Variant("red500", Modes("#E53451", "#E53451")),
      Variant("red600", Modes("#D02F4A", "#D02F4A")),
      Variant("red700", Modes("#A3253A", "#A3253A")),
      Variant("red800", Modes("#7E1D2D", "#7E1D2D")),
      Variant("red900", Modes("#601622", "#601622"))
    ])

  const Navy: Family<Modes> := Family("Navy", [
      Variant("navy50", Modes("#E8E9ED", "#E8E9ED")),
      Variant("navy100", Modes("#B9BCC8", "#B9BCC8")),
      Variant("navy200", Modes("#979CAD", "#979CAD")),
      Variant("navy300", Modes("#676E87", "#676E87")),
      Variant("navy400", Modes("#495270", "#495270")),
      Variant("navy500", Modes("#1C274C", "#1C274C")),
      Variant("navy600", Modes("#192345", "#192345")),
      Variant("navy700", Modes("#141C36", "#141C36")),
      Variant("navy800", Modes("#0F152A", "#0F152A")),
      Variant("navy900", Modes("#0C1020", "#0C1020"))
    ])

  const PastelBlue: Family<Modes> := Family("PastelBlue", [
      Variant("pastelBlue50", Modes("#F4F6FF", "#F4F6FF")),
      Variant("pastelBlue100", Modes("#EDF1FF", "#EDF1FF")),
      Variant("pastelBlue300", Modes("#B3C4FF", "#B3C4FF")),
      Variant("pastelBlue400", Modes("#A4B9FF", "#A4B9FF")),
      Variant("pastelBlue500", Modes("#8DA7FF", "#8DA7FF")),
      Variant("pastelBlue600", Modes("#8098E8", "#8098E8")),
      Variant("pastelBlue700", Modes("#6477B5", "#6477B5")),
      Variant("pastelBlue800", Modes("#4E5C8C", "#4E5C8C")),
      Variant("pastelBlue900", Modes("#3B466B", "#3B466B"))
    ])

  const Grey: Family<Modes> := Family("Grey", [
      Variant("grey50", Modes("#F9F9F9", "#F9F9F9")),
      Variant("grey100", Modes("#ECECEF", "#ECECEF")),
      Variant("grey200", Modes("#E3E3E7", "#E3E3E7")),
      Variant("grey300", Modes("#D7D7DC", "#D7D7DC")),
      Variant("grey400", Modes("#CFCFD5", "#CFCFD5")),
      Variant("grey500", Modes("#C3C3CB", "#C3C3CB")),
      Variant("grey600", Modes("#B1B1B9", "#B1B1B9")),
      Variant("grey700", Modes("#8A8A90", "#8A8A90")),
      Variant("grey800", Modes("#6B6B70", "#6B6B70")),
      Variant("grey900", Modes("#525255", "#525255")),
      Variant("greyBlack", Modes("#191919", "#191919")),
      Variant("greyWhite", Modes("#FFFFFF", "#FFFFFF"))
    ])

  /** The embedded `colors` table, families in insertion order. */
  const Colors: seq<Family<Modes>> := [Yellow, Green, Red, Navy, PastelBlue, Grey]

  /** The fixed output root. */
  const BasePath: string := "Assets/Colors.xcassets"

  /** `create_color_set_json(color_name, light_hex, dark_hex)`: exactly two
      universal sRGB entries, light first with no selector, dark second with
      the luminosity = dark selector, and the fixed `info` block. */
  function CreateColorSetJson(colorName: string, lightHex: string, darkHex: string): (doc: Document)
    requires IsColorHex(lightHex) && IsColorHex(darkHex)
    ensures |doc.colors| == 2
    ensures doc.colors[0].appearances == None && Depicts(doc.colors[0], lightHex)
    ensures doc.colors[1].appearances == Some([Appearance("luminosity", "dark")]) && Depicts(doc.colors[1], darkHex)
    ensures doc.info == Info("xcode", 1)
  {
    Document([DefaultEntry(lightHex), DarkEntry(darkHex)], XcodeInfo)
  }

  /** The first entry depends only on the light value, the second only on the
      dark value, and the variant name on neither. */
  lemma EntriesIndependent(colorName: string, colorName': string, lightHex: string, lightHex': string, darkHex: string, darkHex': string)
    requires IsColorHex(lightHex) && IsColorHex(lightHex') && IsColorHex(darkHex) && IsColorHex(darkHex')
    ensures var doc, doc' := CreateColorSetJson(colorName, lightHex, darkHex), CreateColorSetJson(colorName', lightHex', darkHex');
      && (doc.colors[0] == doc'.colors[0] <==> HexToRgb(lightHex) == HexToRgb(lightHex'))
      && (doc.colors[1] == doc'.colors[1] <==> HexToRgb(darkHex) == HexToRgb(darkHex'))
  {
    ColorOfDecoded(lightHex, lightHex');
    ColorOfDecoded(darkHex, darkHex');
  }

  /** The light entry is the single entry the light-only script writes for the
      same value, under the same `info` block. */
  lemma LightEntryAsInLightOnlyScript(colorName: string, lightHex: string, darkHex: string)
    requires IsColorHex(lightHex) && IsColorHex(darkHex)
    ensures var doc, single := CreateColorSetJson(colorName, lightHex, darkHex), ColorSets.CreateColorSetJson(colorName, lightHex);
      && doc.colors[0] == single.colors[0]
      && doc.info == single.info
  {
  }

  /** The pair using one value for both appearances. */
  function Both(hex: string): (m: Modes)
    ensures m.light == hex && m.dark == hex
  {
    Modes(hex, hex)
  }

  lemma YellowDoubled()
    ensures Yellow == MapFamily(ColorSets.Yellow, Both)
  {
    var doubled := MapFamily(ColorSets.Yellow, Both);
    assert forall k :: 0 <= k < |Yellow.variants| ==> Yellow.variants[k] == doubled.variants[k];
  }

  lemma GreenDoubled()
    ensures Green == MapFamily(ColorSets.Green, Both)
  {
    var doubled := MapFamily(ColorSets.Green, Both);
    assert forall k :: 0 <= k < |Green.variants| ==> Green.variants[k] == doubled.variants[k];
  }

  lemma RedDoubled()
    ensures Red == MapFamily(ColorSets.Red, Both)
  {
    var doubled := MapFamily(ColorSets.Red, Both);
    assert forall k :: 0 <= k < |Red.variants| ==> Red.variants[k] == doubled.variants[k];
  }

  lemma NavyDoubled()
    ensures Navy == MapFamily(ColorSets.Navy, Both)
  {
    var doubled := MapFamily(ColorSets.Navy, Both);
    assert forall k :: 0 <= k < |Navy.variants| ==> Navy.variants[k] == doubled.variants[k];
  }

  lemma PastelBlueDoubled()
    ensures PastelBlue == MapFamily(ColorSets.PastelBlue, Both)
  {
    var doubled := MapFamily(ColorSets.PastelBlue, Both);
    assert forall k :: 0 <= k < |PastelBlue.variants| ==> PastelBlue.variants[k] == doubled.variants[k];
  }

  lemma GreyDoubled()
    ensures Grey == MapFamily(ColorSets.Grey, Both)
  {
    var doubled := MapFamily(ColorSets.Grey, Both);
    assert forall k :: 0 <= k < |Grey.variants| ==> Grey.variants[k] == doubled.variants[k];
  }

  /** This table is the light-only table with each value used for both
      light and dark: same families, same names, same order. */
  lemma TableIsLightTableDoubled()
    ensures |Colors| == |ColorSets.Colors|
    ensures forall a :: 0 <= a < |Colors| ==> Colors[a] == MapFamily(ColorSets.Colors[a], Both)
  {
    forall a | 0 <= a < |Colors|
      ensures Colors[a] == MapFamily(ColorSets.Colors[a], Both)
    {
      if a == 0 {
        assert Colors[a] == Yellow && ColorSets.Colors[a] == ColorSets.Yellow;
        YellowDoubled();
      } else if a == 1 {
        assert Colors[a] == Green && ColorSets.Colors[a] == ColorSets.Green;
        GreenDoubled();
      } else if a == 2 {
        assert Colors[a] == Red && ColorSets.Colors[a] == ColorSets.Red;
        RedDoubled();
      } else if a == 3 {
        assert Colors[a] == Navy && ColorSets.Colors[a] == ColorSets.Navy;
        NavyDoubled();
      } else if a == 4 {
        assert Colors[a] == PastelBlue && ColorSets.Colors[a] == ColorSets.PastelBlue;
        PastelBlueDoubled();
      } else {
        assert Colors[a] == Grey && ColorSets.Colors[a] == ColorSets.Grey;
        GreyDoubled();
      }
    }
  }

  /** Flattened, this table is the light-only table's variants with doubled values. */
  lemma VariantsAreLightVariantsDoubled()
    ensures |Variants(Colors)| == |Variants(ColorSets.Colors)|
    ensures forall i :: 0 <= i < |Variants(Colors)| ==>
      Variants(Colors)[i] == Variant(Variants(ColorSets.Colors)[i].name, Both(Variants(ColorSets.Colors)[i].value))
  {
    TableIsLightTableDoubled();
    VariantsOfMapped(ColorSets.Colors, Colors, Both);
  }

  /** Every light and dark value is `#` plus six hex digits, and in every entry
      the light value equals the dark one. */
  lemma TableValuesWellFormed()
    ensures forall v :: v in Variants(Colors) ==>
      && IsTableHex(v.value.light) && IsColorHex(v.value.light)
      && IsTableHex(v.value.dark) && IsColorHex(v.value.dark)
      && v.value.light == v.value.dark
  {
    VariantsAreLightVariantsDoubled();
    ColorSets.TableValuesWellFormed();
    forall v | v in Variants(Colors)
      ensures IsTableHex(v.value.light) && IsColorHex(v.value.light)
      ensures IsTableHex(v.value.dark) && IsColorHex(v.value.dark)
      ensures v.value.light == v.value.dark
    {
      var i :| 0 <= i < |Variants(Colors)| && Variants(Colors)[i] == v;
      assert Variants(ColorSets.Colors)[i] in Variants(ColorSets.Colors);
    }
  }

  /** Variant names are unique across families. */
  lemma TableNamesUnique()
    ensures UniqueNames(Variants(Colors))
  {
    VariantsAreLightVariantsDoubled();
    ColorSets.TableNamesUnique();
  }

  /** The script's main loop with the I/O taken out, over any table whose
      values all decode: the `Contents.json` files it writes under `basePath`,
      in order, each in its variant's own directory holding that variant's light-and-dark document.
      Two files share a path exactly when their variants share a name, in
      which case the later one overwrites the earlier. */
  method GenerateFrom(basePath: string, table: seq<Family<Modes>>) returns (files: seq<ContentsFile>)
    requires forall v :: v in Variants(table) ==> IsColorHex(v.value.light) && IsColorHex(v.value.dark)
    ensures |files| == |Variants(table)|
    ensures forall i :: 0 <= i < |files| ==>
      var v := Variants(table)[i];
      && IsColorHex(v.value.light) && IsColorHex(v.value.dark)
      && files[i].path == ContentsPath(ColorSetDir(basePath, v.name))
      && files[i].document == CreateColorSetJson(v.name, v.value.light, v.value.dark)
    ensures forall i, j :: 0 <= i < |files| && 0 <= j < |files| ==>
      (files[i].path == files[j].path <==> Variants(table)[i].name == Variants(table)[j].name)
  {
    var jobs := Walk(basePath, table);
    assert forall i :: 0 <= i < |jobs| ==> jobs[i].variant in Variants(table);
    files := seq(|jobs|, i requires 0 <= i < |jobs| && IsColorHex(jobs[i].variant.value.light) && IsColorHex(jobs[i].variant.value.dark) =>
      ContentsFile(ContentsPath(jobs[i].dir), CreateColorSetJson(jobs[i].variant.name, jobs[i].variant.value.light, jobs[i].variant.value.dark)));
    forall i, j | 0 <= i < |files| && 0 <= j < |files|
      ensures files[i].path == files[j].path <==> Variants(table)[i].name == Variants(table)[j].name
    {
      ContentsPathInjective(jobs[i].dir, jobs[j].dir);
    }
  }

  /** The script as run: the files written under the fixed output root for
      the embedded table, whose names are unique, so no path is written twice. Since the
      table repeats each light value as the dark one, both entries of every
      document show the same colour. */
  method Generate() returns (files: seq<ContentsFile>)
    ensures |files| == |Variants(Colors)|
    ensures forall i :: 0 <= i < |files| ==>
      var v := Variants(Colors)[i];
      && IsColorHex(v.value.light) && IsColorHex(v.value.dark)
      && files[i].path == ContentsPath(ColorSetDir(BasePath, v.name))
      && files[i].document == CreateColorSetJson(v.name, v.value.light, v.value.dark)
    ensures forall i :: 0 <= i < |files| ==>
      |files[i].document.colors| == 2 && files[i].document.colors[0].color == files[i].document.colors[1].color
    ensures forall i, j :: 0 <= i < j < |files| ==> files[i].path != files[j].path
  {
    TableValuesWellFormed();
    TableNamesUnique();
    files := GenerateFrom(BasePath, Colors);
    forall i | 0 <= i < |files|
      ensures files[i].document.colors[0].color == files[i].document.colors[1].color
    {
      var v := Variants(Colors)[i];
      assert v in Variants(Colors);
    }
  }
}

/** `create_color_sets.py`: the light-only generator. Its table maps each
    variant to one hex value, and each document has a single appearance. */
module ColorSets {
  import opened Hex
  import opened Asset
  import opened Catalog

  const Yellow: Family<string> := Family("Yellow", [
      Variant("yellow50", "#FEF6E6"),
      Variant("yellow100", "#FCE2B0"),
      Variant("yellow200", "#FAD58A"),
      Variant("yellow300", "#F8C154"),
      Variant("yellow400", "#F7B533"),
      Variant("yellow500", "#F5A300"),
      Variant("yellow600", "#DF9400"),
      Variant("yellow700", "#AE7400"),
      Variant("yellow800", "#875A00"),
      Variant("yellow900", "#674400")
    ])

  const Green: Family<string> := Family("Green", [
      Variant("green50", "#EBF9EE"),
      Variant("green100", "#C0EECC"),
      Variant("green200", "#A2E5B3"),
      Variant("green300", "#77D990"),
      Variant("green400", "#5DD27A"),
      Variant("green500", "#34C759"),
      Variant("green600", "#2FB551"),
      Variant("green700", "#258D3F"),
      Variant("green800", "#1D6D31"),
      Variant("green900", "#165425")
    ])

  const Red: Family<string> := Family("Red", [
      Variant("red50", "#FCEBEE"),
      Variant("red100", "#F7C0C9"),
      Variant("red200", "#F3A2AF"),
      Variant("red300", "#EE778A"),
      Variant("red400", "#EA5D74"),
      Variant("red500", "#E53451"),
      Variant("red600", "#D02F4A"),
      Variant("red700", "#A3253A"),
      Variant("red800", "#7E1D2D"),
      Variant("red900", "#601622")
    ])

  const Navy: Family<string> := Family("Navy", [
      Variant("navy50", "#E8E9ED"),
      Variant("navy100", "#B9BCC8"),
      Variant("navy200", "#979CAD"),
      Variant("navy300", "#676E87"),
      Variant("navy400", "#495270"),
      Variant("navy500", "#1C274C"),
      Variant("navy600", "#192345"),
      Variant("navy700", "#141C36"),
      Variant("navy800", "#0F152A"),
      Variant("navy900", "#0C1020")
    ])

  const PastelBlue: Family<string> := Family("PastelBlue", [
      Variant("pastelBlue50", "#F4F6FF"),
      Variant("pastelBlue100", "#EDF1FF"),
      Variant("pastelBlue300", "#B3C4FF"),
      Variant("pastelBlue400", "#A4B9FF"),
      Variant("pastelBlue500", "#8DA7FF"),
      Variant("pastelBlue600", "#8098E8"),
      Variant("pastelBlue700", "#6477B5"),
      Variant("pastelBlue800", "#4E5C8C"),
      Variant("pastelBlue900", "#3B466B")
    ])

  const Grey: Family<string> := Family("Grey", [
      Variant("grey50", "#F9F9F9"),
      Variant("grey100", "#ECECEF"),
      Variant("grey200", "#E3E3E7"),
      Variant("grey300", "#D7D7DC"),
      Variant("grey400", "#CFCFD5"),
      Variant("grey500", "#C3C3CB"),
      Variant("grey600", "#B1B1B9"),
      Variant("grey700", "#8A8A90"),
      Variant("grey800", "#6B6B70"),
      Variant("grey900", "#525255"),
      Variant("greyBlack", "#191919"),
      Variant("greyWhite", "#FFFFFF")
    ])

  /** The embedded `colors` table, families in insertion order. */
  const Colors: seq<Family<string>> := [Yellow, Green, Red, Navy, PastelBlue, Grey]

  /** The fixed output root. */
  const BasePath: string := "Assets/Colors.xcassets"

  /** `create_color_set_json(color_name, hex_value)`: one universal sRGB entry
      with no appearance selector, and the fixed `info` block. */
  function CreateColorSetJson(colorName: string, hexValue: string): (doc: Document)
    requires IsColorHex(hexValue)
    ensures |doc.colors| == 1
    ensures doc.colors[0].appearances == None && Depicts(doc.colors[0], hexValue)
    ensures doc.info == Info("xcode", 1)
  {
    Document([DefaultEntry(hexValue)], XcodeInfo)
  }

  /** The variant name does not reach the document. */
  lemma NameDoesNotMatter(colorName: string, colorName': string, hexValue: string)
    requires IsColorHex(hexValue)
    ensures CreateColorSetJson(colorName, hexValue) == CreateColorSetJson(colorName', hexValue)
  {
  }

  /** Two hex values give the same document exactly when they decode to the same colour. */
  lemma SameDocumentIffSameColour(colorName: string, hexValue: string, hexValue': string)
    requires IsColorHex(hexValue) && IsColorHex(hexValue')
    ensures CreateColorSetJson(colorName, hexValue) == CreateColorSetJson(colorName, hexValue')
      <==> HexToRgb(hexValue) == HexToRgb(hexValue')
  {
    ColorOfDecoded(hexValue, hexValue');
  }

  /** Every value of family `f` is spelled `#` plus six hex digits. */
  ghost predicate SpelledAsTableHex(f: Family<string>) {
    forall k :: 0 <= k < |f.variants| ==> IsTableHex(f.variants[k].value)
  }

  /** Every variant name of family `f` starts with the family's stem. */
  ghost predicate StemmedNames<V>(f: Family<V>) {
    forall k :: 0 <= k < |f.variants| ==> HasStem(f.variants[k].name, Stem(f.name))
  }

  /** Each family's stem: its name with a lower-case initial. */
  const Stems: seq<string> := ["yellow", "green", "red", "navy", "pastelBlue", "grey"]

  lemma YellowNamesUnique()
    ensures UniqueNames(Yellow.variants)
  {
    assert InShadeOrder(Yellow);
    InShadeOrderUnique(Yellow);
  }

  lemma YellowSpelled()
    ensures SpelledAsTableHex(Yellow)
  {
  }

  lemma YellowStemmed()
    ensures Stem(Yellow.name) == Stems[0] && StemmedNames(Yellow)
  {
    assert Stem(Yellow.name) == "yellow";
  }

  lemma GreenNamesUnique()
    ensures UniqueNames(Green.variants)
  {
    assert InShadeOrder(Green);
    InShadeOrderUnique(Green);
  }

  lemma GreenSpelled()
    ensures SpelledAsTableHex(Green)
  {
  }

  lemma GreenStemmed()
    ensures Stem(Green.name) == Stems[1] && StemmedNames(Green)
  {
    assert Stem(Green.name) == "green";
  }

  lemma RedNamesUnique()
    ensures UniqueNames(Red.variants)
  {
    assert InShadeOrder(Red);
    InShadeOrderUnique(Red);
  }

  lemma RedSpelled()
    ensures SpelledAsTableHex(Red)
  {
  }

  lemma RedStemmed()
    ensures Stem(Red.name) == Stems[2] && StemmedNames(Red)
  {
    assert Stem(Red.name) == "red";
  }

  lemma NavyNamesUnique()
    ensures UniqueNames(Navy.variants)
  {
    assert InShadeOrder(Navy);
    InShadeOrderUnique(Navy);
  }

  lemma NavySpelled()
    ensures SpelledAsTableHex(Navy)
  {
  }

  lemma NavyStemmed()
    ensures Stem(Navy.name) == Stems[3] && StemmedNames(Navy)
  {
    assert Stem(Navy.name) == "navy";
  }

  lemma PastelBlueNamesUnique()
    ensures UniqueNames(PastelBlue.variants)
  {
    assert InShadeOrder(PastelBlue);
    InShadeOrderUnique(PastelBlue);
  }

  lemma PastelBlueSpelled()
    ensures SpelledAsTableHex(PastelBlue)
  {
  }

  lemma PastelBlueStemmed()
    ensures Stem(PastelBlue.name) == Stems[4] && StemmedNames(PastelBlue)
  {
    assert Stem(PastelBlue.name) == "pastelBlue";
  }

  lemma GreyNamesUnique()
    ensures UniqueNames(Grey.variants)
  {
    assert InShadeOrder(Grey);
    InShadeOrderUnique(Grey);
  }

  lemma GreySpelled()
    ensures SpelledAsTableHex(Grey)
  {
  }

  lemma GreyStemmed()
    ensures Stem(Grey.name) == Stems[5] && StemmedNames(Grey)
  {
    assert Stem(Grey.name) == "grey";
  }

  /** The stems are pairwise apart: all differ in their first letter except
      `green` and `grey`, which differ in their fourth. */
  lemma StemsApart()
    ensures forall a, b :: 0 <= a < |Stems| && 0 <= b < |Stems| && a != b ==> Apart(Stems[a], Stems[b])
  {
    forall a, b | 0 <= a < |Stems| && 0 <= b < |Stems| && a != b
      ensures Apart(Stems[a], Stems[b])
    {
      if (a == 1 && b == 5) || (a == 5 && b == 1) {
        assert Stems[a][3] != Stems[b][3];
      } else {
        assert Stems[a][0] != Stems[b][0];
      }
    }
  }

  /** Within every family, names are distinct. */
  lemma NamesUniqueWithinFamilies()
    ensures forall a :: 0 <= a < |Colors| ==> UniqueNames(Colors[a].variants)
  {
    forall a | 0 <= a < |Colors|
      ensures UniqueNames(Colors[a].variants)
    {
      if a == 0 {
        assert Colors[a] == Yellow;
        YellowNamesUnique();
      } else if a == 1 {
        assert Colors[a] == Green;
        GreenNamesUnique();
      } else if a == 2 {
        assert Colors[a] == Red;
        RedNamesUnique();
      } else if a == 3 {
        assert Colors[a] == Navy;
        NavyNamesUnique();
      } else if a == 4 {
        assert Colors[a] == PastelBlue;
        PastelBlueNamesUnique();
      } else {
        assert Colors[a] == Grey;
        GreyNamesUnique();
      }
    }
  }

  /** In every family, values are spelled `#` plus six hex digits. */
  lemma FamiliesSpelled()
    ensures forall a :: 0 <= a < |Colors| ==> SpelledAsTableHex(Colors[a])
  {
    forall a | 0 <= a < |Colors|
      ensures SpelledAsTableHex(Colors[a])
    {
      if a == 0 {
        assert Colors[a] == Yellow;
        YellowSpelled();
      } else if a == 1 {
        assert Colors[a] == Green;
        GreenSpelled();
      } else if a == 2 {
        assert Colors[a] == Red;
        RedSpelled();
      } else if a == 3 {
        assert Colors[a] == Navy;
        NavySpelled();
      } else if a == 4 {
        assert Colors[a] == PastelBlue;
        PastelBlueSpelled();
      } else {
        assert Colors[a] == Grey;
        GreySpelled();
      }
    }
  }

  /** Every family's names carry its stem, which is the family's entry in `Stems`. */
  lemma FamiliesStemmedByStems()
    ensures |Stems| == |Colors|
    ensures forall a :: 0 <= a < |Colors| ==> Stem(Colors[a].name) == Stems[a] && StemmedNames(Colors[a])
  {
    forall a | 0 <= a < |Colors|
      ensures Stem(Colors[a].name) == Stems[a] && StemmedNames(Colors[a])
    {
      if a == 0 {
        assert Colors[a] == Yellow;
        YellowStemmed();
      } else if a == 1 {
        assert Colors[a] == Green;
        GreenStemmed();
      } else if a == 2 {
        assert Colors[a] == Red;
        RedStemmed();
      } else if a == 3 {
        assert Colors[a] == Navy;
        NavyStemmed();
      } else if a == 4 {
        assert Colors[a] == PastelBlue;
        PastelBlueStemmed();
      } else {
        assert Colors[a] == Grey;
        GreyStemmed();
      }
    }
  }

  /** Names tell families apart. */
  lemma FamiliesStemmed()
    ensures Stemmed(Colors)
  {
    FamiliesStemmedByStems();
    StemsApart();
    forall a, v | 0 <= a < |Colors| && v in Colors[a].variants
      ensures HasStem(v.name, Stem(Colors[a].name))
    {
      var k :| 0 <= k < |Colors[a].variants| && Colors[a].variants[k] == v;
    }
  }

  /** Every value in the table is `#` plus six hex digits, so the decoder accepts it. */
  lemma TableValuesWellFormed()
    ensures forall v :: v in Variants(Colors) ==> IsTableHex(v.value) && IsColorHex(v.value)
  {
    FamiliesSpelled();
    forall v | v in Variants(Colors)
      ensures IsTableHex(v.value) && IsColorHex(v.value)
    {
      var a :| 0 <= a < |Colors| && v in Colors[a].variants;
      var k :| 0 <= k < |Colors[a].variants| && Colors[a].variants[k] == v;
      TableHexIsColorHex(v.value);
    }
  }

  /** Variant names are unique across families. */
  lemma TableNamesUnique()
    ensures UniqueNames(Variants(Colors))
  {
    NamesUniqueWithinFamilies();
    FamiliesStemmed();
    UniqueAcrossFamilies(Colors);
  }

  /** The script's main loop with the I/O taken out, over any table whose
      values all decode: the `Contents.json` files it writes under `basePath`,
      in order, each in its variant's own directory holding that variant's document.
      Two files share a path exactly when their variants share a name, in
      which case the later one overwrites the earlier. */
  method GenerateFrom(basePath: string, table: seq<Family<string>>) returns (files: seq<ContentsFile>)
    requires forall v :: v in Variants(table) ==> IsColorHex(v.value)
    ensures |files| == |Variants(table)|
    ensures forall i :: 0 <= i < |files| ==>
      var v := Variants(table)[i];
      && IsColorHex(v.value)
      && files[i].path == ContentsPath(ColorSetDir(basePath, v.name))
      && files[i].document == CreateColorSetJson(v.name, v.value)
    ensures forall i, j :: 0 <= i < |files| && 0 <= j < |files| ==>
      (files[i].path == files[j].path <==> Variants(table)[i].name == Variants(table)[j].name)
  {
    var jobs := Walk(basePath, table);
    assert forall i :: 0 <= i < |jobs| ==> jobs[i].variant in Variants(table);
    files := seq(|jobs|, i requires 0 <= i < |jobs| && IsColorHex(jobs[i].variant.value) =>
      ContentsFile(ContentsPath(jobs[i].dir), CreateColorSetJson(jobs[i].variant.name, jobs[i].variant.value)));
    forall i, j | 0 <= i < |files| && 0 <= j < |files|
      ensures files[i].path == files[j].path <==> Variants(table)[i].name == Variants(table)[j].name
    {
      ContentsPathInjective(jobs[i].dir, jobs[j].dir);
    }
  }

  /** The script as run: the files written under the fixed output root for
      the embedded table, whose names are unique, so no path is written twice. */
  method Generate() returns (files: seq<ContentsFile>)
    ensures |files| == |Variants(Colors)|
    ensures forall i :: 0 <= i < |files| ==>
      var v := Variants(Colors)[i];
      && IsColorHex(v.value)
      && files[i].path == ContentsPath(ColorSetDir(BasePath, v.name))
      && files[i].document == CreateColorSetJson(v.name, v.value)
    ensures forall i, j :: 0 <= i < j < |files| ==> files[i].path != files[j].path
  {
    TableValuesWellFormed();
    TableNamesUnique();
    files := GenerateFrom(BasePath, Colors);
  }
}

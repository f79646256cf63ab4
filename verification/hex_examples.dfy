/** Worked examples of the decoder and the channel formatter: a table
    colour, the two boundaries, zero padding and repeated `#`s. Each is
    reached through the round-trip lemmas rather than by unfolding the
    decoder on a literal. */
module HexExamples {
  import opened Hex

  /** Worked example from the table: `#34C759` decodes to 0x34, 0xC7, 0x59. */
  lemma ExampleGreen500()
    ensures HexToRgb("#34C759") == Rgb(0x34, 0xC7, 0x59)
  {
    var rgb := Rgb(0x34, 0xC7, 0x59);
    assert HexByte(0x34) == "34" && HexByte(0xC7) == "C7" && HexByte(0x59) == "59";
    assert RgbToHex(rgb) == "#34C759";
    DecodeEncode(rgb);
  }

  /** ... and renders as `0x34`, `0xC7`, `0x59`. */
  lemma ExampleGreen500Rendered()
    ensures FormatComponent(0x34) == "0x34"
    ensures FormatComponent(0xC7) == "0xC7"
    ensures FormatComponent(0x59) == "0x59"
  {
    assert HexByte(0x34) == "34";
    assert HexByte(0xC7) == "C7";
    assert HexByte(0x59) == "59";
  }

  /** Lower boundary: `#000000` gives every channel 0, rendered `0x00`. */
  lemma ExampleBlack()
    ensures HexToRgb("#000000") == Rgb(0, 0, 0)
    ensures FormatComponent(0) == "0x00"
  {
    var rgb := Rgb(0, 0, 0);
    assert HexByte(0) == "00";
    assert RgbToHex(rgb) == "#000000";
    DecodeEncode(rgb);
  }

  /** Upper boundary: `#FFFFFF` gives every channel 255, rendered `0xFF`. */
  lemma ExampleWhite()
    ensures HexToRgb("#FFFFFF") == Rgb(255, 255, 255)
    ensures FormatComponent(255) == "0xFF"
  {
    var rgb := Rgb(255, 255, 255);
    assert HexByte(255) == "FF";
    assert RgbToHex(rgb) == "#FFFFFF";
    DecodeEncode(rgb);
  }

  /** Zero padding: 10 renders as `0x0A`. */
  lemma ExamplePadding()
    ensures FormatComponent(10) == "0x0A"
  {
    assert HexByte(10) == "0A";
  }

  /** `##112233`, `#112233` and `112233` are all accepted and decode alike. */
  lemma ExampleHashes()
    ensures IsColorHex("112233") && IsColorHex("#112233") && IsColorHex("##112233")
    ensures HexToRgb("##112233") == HexToRgb("#112233") == HexToRgb("112233") == Rgb(0x11, 0x22, 0x33)
  {
    var rgb := Rgb(0x11, 0x22, 0x33);
    assert HexByte(0x11) == "11" && HexByte(0x22) == "22" && HexByte(0x33) == "33";
    assert RgbToHex(rgb) == "#112233";
    DecodeEncode(rgb);
    assert "#112233" == Hashes(1) + "112233";
    DecodeIgnoresHashes(1, "112233");
    assert "##112233" == Hashes(1) + "#112233";
    DecodeIgnoresHashes(1, "#112233");
  }
}

/**
 * The display rules of the forecast list: how a rounded temperature is
 * written and coloured, and how the "min/max" temperature text of a
 * `Weather` is split back into its two parts.
 */
module WeatherAdapter {
  import opened Optional
  import opened JavaText
  import QueryUtils

  /** Separates the minimum from the maximum in the temperature text. */
  const TEMPERATURE_SEPARATOR: char := '/'

  /** The colour resources a temperature can be shown in. */
  datatype Color = ColorAccent | DarkGrey | DeepOrange

  /** `getTextColor`: accent below zero, grey at zero, orange above. */
  function TextColor(temperature: int): (c: Color)
    ensures c == ColorAccent <==> temperature < 0
    ensures c == DarkGrey <==> temperature == 0
    ensures c == DeepOrange <==> temperature > 0
  {
    if temperature < 0 then ColorAccent
    else if temperature == 0 then DarkGrey
    else DeepOrange
  }

  /**
   * `formatMinTemp`: the decimal text of the value, with a '+' in front
   * when it is positive. The text starts with '+' exactly for positive
   * values, with '-' exactly for negative ones, and is "0" exactly for zero.
   */
  function FormatMinTemp(temperature: int): (s: string)
    ensures |s| >= 1
    ensures s[0] == '+' <==> temperature > 0
    ensures s[0] == '-' <==> temperature < 0
    ensures s == "0" <==> temperature == 0
    ensures temperature <= 0 ==> s == IntToString(temperature)
    ensures temperature > 0 ==> s[1..] == IntToString(temperature)
  {
    if temperature <= 0 then IntToString(temperature)
    else "+" + IntToString(temperature)
  }

  /** `formatMaxTemp`: written separately in the app, and the same text as `formatMinTemp`. */
  function FormatMaxTemp(temperature: int): (s: string)
    ensures s == FormatMinTemp(temperature)
  {
    if temperature <= 0 then IntToString(temperature)
    else "+" + IntToString(temperature)
  }

  /** Reading the formatted text back as an integer ('+' allowed) gives the value again. */
  lemma FormatRoundTrip(temperature: int)
    ensures ParseInt(FormatMinTemp(temperature)) == Some(temperature)
    ensures ParseInt(FormatMaxTemp(temperature)) == Some(temperature)
  {
    IntToStringRoundTrip(temperature);
    if temperature > 0 {
      var s := FormatMinTemp(temperature);
      assert s[1..] == IntToString(temperature);
      NatToStringRoundTrip(temperature);
    }
  }

  /**
   * Text and colour of a temperature view come from the same rounded value,
   * so the colour can be told from the first character of the text.
   */
  lemma ColorMatchesText(temperature: int)
    ensures TextColor(temperature) == ColorAccent <==> FormatMinTemp(temperature)[0] == '-'
    ensures TextColor(temperature) == DeepOrange <==> FormatMinTemp(temperature)[0] == '+'
    ensures TextColor(temperature) == DarkGrey <==> FormatMinTemp(temperature) == "0"
  {
  }

  /**
   * `parts = temperature.split("/")` followed by `parts[0]` and `parts[1]`;
   * `None` when there is no second part (the array index is out of bounds).
   */
  function TemperatureParts(temperature: string): (r: Option<(string, string)>)
    ensures r.Some? ==> TEMPERATURE_SEPARATOR in temperature
    ensures r.Some? ==> TEMPERATURE_SEPARATOR !in r.value.0 && TEMPERATURE_SEPARATOR !in r.value.1
  {
    var parts := Split(temperature, TEMPERATURE_SEPARATOR);
    if |parts| >= 2 then Some((parts[0], parts[1])) else None
  }

  /** Splitting `min + "/" + max` gives back both parts when neither holds '/' and `max` is not empty. */
  lemma SplitRecoversParts(minText: string, maxText: string)
    requires TEMPERATURE_SEPARATOR !in minText && TEMPERATURE_SEPARATOR !in maxText
    requires maxText != ""
    ensures TemperatureParts(minText + "/" + maxText) == Some((minText, maxText))
  {
    SplitOfTwo(minText, maxText, TEMPERATURE_SEPARATOR);
    assert minText + "/" + maxText == minText + [TEMPERATURE_SEPARATOR] + maxText;
  }

  /**
   * The list view undoes the temperature text built by the extraction:
   * when the number-to-text conversion never writes '/' and never
   * writes nothing, the split gives the two texts back.
   */
  lemma TemperatureTextRoundTrip(minTemp: real, maxTemp: real, show: real -> string)
    requires TEMPERATURE_SEPARATOR !in show(minTemp) && TEMPERATURE_SEPARATOR !in show(maxTemp)
    requires show(maxTemp) != ""
    ensures TemperatureParts(QueryUtils.TemperatureString(minTemp, maxTemp, show))
            == Some((show(minTemp), show(maxTemp)))
  {
    SplitRecoversParts(show(minTemp), show(maxTemp));
  }

  /** A text without a second part makes the view fail: "a/" and "a" both split into one part. */
  lemma MissingMaximumFails(minText: string)
    requires TEMPERATURE_SEPARATOR !in minText
    ensures TemperatureParts(minText) == None
    ensures TemperatureParts(minText + "/") == None
  {
    var s := minText + "/";
    assert s[|minText|] == TEMPERATURE_SEPARATOR;
    PiecesOfTwo(minText, "", TEMPERATURE_SEPARATOR);
    assert s == minText + [TEMPERATURE_SEPARATOR] + "";
  }
}

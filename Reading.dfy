/**
  One sensor reading: `read_temp_raw` cuts the text of the sensor's
  `w1_slave` pseudo-file into lines, and `save_result` finds the `t=`
  marker in the second line, reads the milli-degree payload after it,
  converts it to Celsius and Fahrenheit and logs one value to the
  streamer under the sensor's label.

  `save_result` is modelled as a pure function from its inputs to what it
  does: the streamer call it makes (at most one), the line it prints, or
  the Python exception it raises.
 */
module Reading {
  import opened Wrappers
  import opened Text
  import opened Decimal

  /** The token that precedes the temperature payload in the data line. */
  const Marker: string := "t="

  /** The value of the script's `units` global: "F" unless `--celsius`. */
  datatype Units = Fahrenheit | Celsius
  {
    /** The string the script keeps in `units` and prints after the value. */
    function Symbol(): string
    {
      if Fahrenheit? then "F" else "C"
    }
  }

  /** One `streamer.log(key, value)` call: the key is the sensor id. */
  datatype Event = Event(key: string, value: real)

  /** What `save_result` prints: the temperature shown, or the parse error with the lines. */
  datatype Diagnostic = Temperature(value: real, units: string) | ParseError(lines: seq<string>)

  /** The observable effect of one `save_result` call that returns normally. */
  datatype Cycle = Cycle(logged: Option<Event>, printed: Diagnostic)

  /** The Python exceptions that end a cycle: those of `save_result`, and the sleep's `ValueError`. */
  datatype Exception = IndexError | ValueError

  /** `read_temp_raw` after the `cat`: the decoded output split on newlines. */
  function ReadTempRaw(output: string): (lines: seq<string>)
    ensures |lines| >= 1
  {
    Split(output, '\n')
  }

  /** The lines are the output cut at every newline, and nothing is lost. */
  lemma ReadTempRawLines(output: string)
    ensures Join(ReadTempRaw(output), '\n') == output
    ensures |ReadTempRaw(output)| == multiset(output)['\n'] + 1
    ensures forall k :: 0 <= k < |ReadTempRaw(output)| ==> '\n' !in ReadTempRaw(output)[k]
  {
    JoinSplit(output, '\n');
  }

  /** Milli-degrees Celsius to degrees Celsius. */
  function ToCelsius(milli: int): (c: real)
    ensures c * 1000.0 == milli as real
  {
    milli as real / 1000.0
  }

  /** Degrees Celsius to degrees Fahrenheit. */
  function ToFahrenheit(c: real): (f: real)
    ensures (f - 32.0) * 5.0 / 9.0 == c
  {
    c * 9.0 / 5.0 + 32.0
  }

  /** `save_result(sensor, lines, streamer)` with the script's `units`. */
  function SaveResult(sensor: string, lines: seq<string>, units: Units): (r: Result<Cycle, Exception>)
    ensures r == Failure(IndexError) <==> |lines| < 2
    ensures |lines| >= 2 && !Contains(lines[1], Marker) ==> r == Success(Cycle(None, ParseError(lines)))
    ensures r == Failure(ValueError) ==> Contains(lines[1], Marker)
    ensures r.Success? ==> (r.value.logged.None? <==> !Contains(lines[1], Marker))
    ensures r.Success? && r.value.logged.None? ==> r.value.printed == ParseError(lines)
    ensures r.Success? && r.value.logged.Some? ==>
              r.value.logged.value.key == sensor &&
              r.value.printed == Temperature(r.value.logged.value.value, units.Symbol())
  {
    if |lines| < 2 then Failure(IndexError)
    else
      var equalsPos := Find(lines[1], Marker);
      if equalsPos != -1 then
        var tempString := lines[1][equalsPos + 2..];
        match ParseInteger(tempString)
        case None => Failure(ValueError)
        case Some(milli) =>
          var tempC := ToCelsius(milli);
          var tempF := ToFahrenheit(tempC);
          var value := if units == Fahrenheit then tempF else tempC;
          Success(Cycle(Some(Event(sensor, value)), Temperature(value, units.Symbol())))
      else
        Success(Cycle(None, ParseError(lines)))
  }

  /** The value logged for a payload of `milli` milli-degrees. */
  function Converted(milli: int, units: Units): (v: real)
    ensures units == Celsius ==> v * 1000.0 == milli as real
    ensures units == Fahrenheit ==> (v - 32.0) * 5.0 / 9.0 * 1000.0 == milli as real
  {
    if units == Celsius then ToCelsius(milli) else ToFahrenheit(ToCelsius(milli))
  }

  /**
    When the data line is `pre + "t=" + payload` and `pre` holds no marker,
    the payload read is exactly `payload`: the text after the FIRST marker.
    A payload that is not a signed integer raises; otherwise the value
    logged and printed is its conversion.
   */
  lemma SaveResultReadsAfterFirstMarker(sensor: string, lines: seq<string>, units: Units, pre: string, payload: string)
    requires |lines| >= 2
    requires lines[1] == pre + Marker + payload
    requires !Contains(pre, Marker)
    ensures ParseInteger(payload).None? ==> SaveResult(sensor, lines, units) == Failure(ValueError)
    ensures ParseInteger(payload).Some? ==>
              var v := Converted(ParseInteger(payload).value, units);
              SaveResult(sensor, lines, units) == Success(Cycle(Some(Event(sensor, v)), Temperature(v, units.Symbol())))
  {
    var line := lines[1];
    assert line[|pre|..|pre| + 2] == Marker;
    forall j | 0 <= j < |pre|
      ensures !Occurs(line, Marker, j)
    {
      if j + 2 <= |pre| {
        assert line[j..j + 2] == pre[j..j + 2];
        assert !Occurs(pre, Marker, j);
      } else {
        assert line[j + 1] == 't';
      }
    }
    var pos := Find(line, Marker);
    assert Occurs(line, Marker, |pre|);
    assert pos == |pre|;
    assert line[pos + 2..] == payload;
  }

  /** Only the data line matters: the CRC/status line is never checked. */
  lemma StatusLineIgnored(sensor: string, a: seq<string>, b: seq<string>, units: Units)
    requires |a| >= 2 && |b| >= 2 && a[1] == b[1]
    ensures SaveResult(sensor, a, units).Success? == SaveResult(sensor, b, units).Success?
    ensures SaveResult(sensor, a, units).Success? ==>
              SaveResult(sensor, a, units).value.logged == SaveResult(sensor, b, units).value.logged
  {
  }

  /** Empty `cat` output (no such file) splits to one empty line and raises. */
  lemma EmptyOutputRaises(sensor: string, units: Units)
    ensures SaveResult(sensor, ReadTempRaw(""), units) == Failure(IndexError)
  {
  }

  /** A data line that ends with the marker has an empty payload and raises. */
  lemma EmptyPayloadRaises(sensor: string, lines: seq<string>, units: Units, pre: string)
    requires |lines| >= 2 && lines[1] == pre + Marker && !Contains(pre, Marker)
    ensures SaveResult(sensor, lines, units) == Failure(ValueError)
  {
    assert lines[1] == pre + Marker + "";
    SaveResultReadsAfterFirstMarker(sensor, lines, units, pre, "");
  }

  /** 23312 milli-degrees are 23.312 degrees Celsius and 73.9616 degrees Fahrenheit. */
  lemma ConversionExample()
    ensures ToCelsius(23312) == 23.312
    ensures ToFahrenheit(ToCelsius(23312)) == 73.9616
  {
  }

  /** A text without the letter `t` holds no marker. */
  lemma NoMarkerWithoutT(s: string)
    requires 't' !in s
    ensures !Contains(s, Marker)
  {
    forall i | 0 <= i && i + 2 <= |s|
      ensures !Occurs(s, Marker, i)
    {
      assert s[i..i + 2][0] == s[i] && s[i] in s;
    }
  }

  /** The status and data lines of the driver's output for 23.312 degrees. */
  const SamplePrefix: string := "a3 01 4b 46 7f ff 0c 10 d8 "
  const SampleData: string := SamplePrefix + "t=23312"

  lemma SamplePayload()
    ensures ParseInteger("23312") == Some(23312)
  {
    assert IntToString(23312) == "23312";
    ParseRoundTrip(23312);
  }

  /**
    The sample reading logs 73.9616 in Fahrenheit and 23.312 in Celsius,
    whatever the status line says (here a failed CRC).
   */
  lemma SampleReading(sensor: string, status: string)
    ensures SaveResult(sensor, [status, SampleData], Fahrenheit)
            == Success(Cycle(Some(Event(sensor, 73.9616)), Temperature(73.9616, "F")))
    ensures SaveResult(sensor, [status, SampleData], Celsius)
            == Success(Cycle(Some(Event(sensor, 23.312)), Temperature(23.312, "C")))
  {
    NoMarkerWithoutT(SamplePrefix);
    SamplePayload();
    var lines := [status, SampleData];
    SaveResultReadsAfterFirstMarker(sensor, lines, Fahrenheit, SamplePrefix, "23312");
    SaveResultReadsAfterFirstMarker(sensor, lines, Celsius, SamplePrefix, "23312");
  }
}

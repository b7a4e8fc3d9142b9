/**
  Start-up checks made before the polling loop: the API key must be given
  and must start with 32 ASCII letters or digits, and the sensor's
  `w1_slave` pseudo-file must exist. The script keeps the outcome in the
  globals `apiKey` and `units`; here it is a `Config` value, and `quit()`
  is a `StartupFault`.
 */
module Startup {
  import opened Wrappers
  import opened Reading

  const BaseDir: string := "/sys/bus/w1/devices/"
  const DeviceFile: string := "/w1_slave"

  /** Length of the alphanumeric run `re.match(r'[a-zA-Z0-9]{32}', key)` asks for. */
  const KeyLength: nat := 32

  /** The parsed command line; `delay` defaults to 120 seconds. */
  datatype Args = Args(
    apiKey: string, sensor: string, bucket: string, bucketKey: Option<string>,
    delay: int, celsius: bool, verbose: bool)

  /** What the loop reads: the key, the sensor, the bucket and the units. */
  datatype Config = Config(
    apiKey: string, sensor: string, bucket: string, bucketKey: Option<string>,
    delay: int, units: Units)

  datatype StartupFault = KeyRequired | InvalidKeyFormat | InvalidSensor(path: string)

  /** The character class `[a-zA-Z0-9]`. */
  predicate IsAsciiAlnum(c: char)
  {
    'a' <= c <= 'z' || 'A' <= c <= 'Z' || '0' <= c <= '9'
  }

  /**
    `re.match(r'[a-zA-Z0-9]{n}', s)` succeeds: the pattern is anchored at
    the start only, so whatever follows the first `n` characters is ignored.
   */
  function MatchAlnumRun(s: string, n: nat): (r: bool)
    ensures r ==> |s| >= n
  {
    if n == 0 then true
    else |s| > 0 && IsAsciiAlnum(s[0]) && MatchAlnumRun(s[1..], n - 1)
  }

  lemma {:induction false} MatchAlnumRunMeaning(s: string, n: nat)
    ensures MatchAlnumRun(s, n) <==> |s| >= n && forall i :: 0 <= i < n ==> IsAsciiAlnum(s[i])
  {
    if n > 0 && |s| > 0 {
      MatchAlnumRunMeaning(s[1..], n - 1);
      assert forall i :: 1 <= i < n && i < |s| ==> s[i] == s[1..][i - 1];
    }
  }

  /** A key of the required format: its first 32 characters are ASCII letters or digits. */
  predicate WellFormedKey(key: string)
  {
    |key| >= KeyLength && forall i :: 0 <= i < KeyLength ==> IsAsciiAlnum(key[i])
  }

  /** The key format check at start-up is the 32-character prefix test. */
  lemma KeyFormatMeaning(key: string)
    ensures MatchAlnumRun(key, KeyLength) <==> WellFormedKey(key)
  {
    MatchAlnumRunMeaning(key, KeyLength);
  }

  /** A key that passes still passes with any characters appended. */
  lemma TrailingCharactersIgnored(key: string, tail: string)
    requires MatchAlnumRun(key, KeyLength)
    ensures MatchAlnumRun(key + tail, KeyLength)
  {
    MatchAlnumRunMeaning(key, KeyLength);
    MatchAlnumRunMeaning(key + tail, KeyLength);
    assert forall i :: 0 <= i < KeyLength ==> (key + tail)[i] == key[i];
  }

  /** The pseudo-file checked at start-up and read every cycle. */
  function SensorPath(sensor: string): (path: string)
    ensures |path| == |BaseDir| + |sensor| + |DeviceFile|
    ensures path[..|BaseDir|] == BaseDir && path[|path| - |DeviceFile|..] == DeviceFile
    ensures path[|BaseDir|..|BaseDir| + |sensor|] == sensor
  {
    BaseDir + sensor + DeviceFile
  }

  /** The sensor named by a pseudo-file path, if it has the driver's shape. */
  function SensorOfPath(path: string): (r: Option<string>)
    ensures r.Some? ==> SensorPath(r.value) == path
  {
    if |path| >= |BaseDir| + |DeviceFile| && path[..|BaseDir|] == BaseDir
       && path[|path| - |DeviceFile|..] == DeviceFile
    then
      var sensor := path[|BaseDir|..|path| - |DeviceFile|];
      assert path == path[..|BaseDir|] + sensor + path[|path| - |DeviceFile|..];
      Some(sensor)
    else None
  }

  /** Distinct sensors have distinct pseudo-files: the path names the sensor. */
  lemma SensorPathRoundTrip(sensor: string)
    ensures SensorOfPath(SensorPath(sensor)) == Some(sensor)
  {
    var path := SensorPath(sensor);
    assert path[..|BaseDir|] == BaseDir;
    assert path[|path| - |DeviceFile|..] == DeviceFile;
    assert path[|BaseDir|..|path| - |DeviceFile|] == sensor;
  }

  /** The key the script ends up with: a non-empty global wins over the argument. */
  function ChosenKey(globalKey: string, args: Args): (key: string)
    ensures globalKey != "" ==> key == globalKey
    ensures globalKey == "" ==> key == args.apiKey
  {
    if args.apiKey != "" && globalKey == "" then args.apiKey else globalKey
  }

  /**
    The start-up sequence: the key checks, the sensor-file check against
    the set of files that exist, and the choice of units.
   */
  function Configure(globalKey: string, args: Args, existing: set<string>): (r: Result<Config, StartupFault>)
    ensures r == Failure(KeyRequired) <==> globalKey == "" && args.apiKey == ""
    ensures r == Failure(InvalidKeyFormat) <==>
              (globalKey != "" || args.apiKey != "") &&
              !WellFormedKey(if globalKey != "" then globalKey else args.apiKey)
    ensures r.Failure? && r.error.InvalidSensor? <==>
              WellFormedKey(if globalKey != "" then globalKey else args.apiKey) &&
              BaseDir + args.sensor + DeviceFile !in existing
    ensures r.Success? <==>
              WellFormedKey(if globalKey != "" then globalKey else args.apiKey) &&
              BaseDir + args.sensor + DeviceFile in existing
    ensures r.Success? ==>
              r.value.apiKey == (if globalKey != "" then globalKey else args.apiKey) &&
              r.value.units == (if args.celsius then Celsius else Fahrenheit) &&
              r.value.sensor == args.sensor && r.value.bucket == args.bucket &&
              r.value.bucketKey == args.bucketKey && r.value.delay == args.delay
    ensures r.Failure? && r.error.InvalidSensor? ==>
              SensorOfPath(r.error.path) == Some(args.sensor) && r.error.path !in existing
  {
    if !(globalKey != "" || args.apiKey != "") then Failure(KeyRequired)
    else
      var apiKey := ChosenKey(globalKey, args);
      KeyFormatMeaning(apiKey);
      SensorPathRoundTrip(args.sensor);
      if !MatchAlnumRun(apiKey, KeyLength) then Failure(InvalidKeyFormat)
      else if SensorPath(args.sensor) !in existing then Failure(InvalidSensor(SensorPath(args.sensor)))
      else
        var units := if args.celsius then Celsius else Fahrenheit;
        Success(Config(apiKey, args.sensor, args.bucket, args.bucketKey, args.delay, units))
  }
}

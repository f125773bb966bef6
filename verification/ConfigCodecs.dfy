/** The two configuration files: what is written is read back as the same configuration. */
module ConfigCodecs {
  import opened Common
  import opened JsonText
  import opened FlatJson
  import Store = ConfigStore
  import Wifi
  import Utf8

  /** The parser's view of a document within the size limit. */
  function Document(json: seq<byte>): Option<seq<Field>> {
    if |json| > Store.MAX_CONFIG_BYTES then None else ParseObject(json)
  }

  lemma DocumentBack(fields: seq<Field>)
    requires fields != [] && |ObjectText(fields)| <= Store.MAX_CONFIG_BYTES
    ensures Document(ObjectText(fields)) == Some(fields)
  {
    ObjectBack(fields);
  }

  predicate Plain(key: seq<byte>) { forall i :: 0 <= i < |key| ==> key[i] >= 0x20 && key[i] != QUOTE && key[i] != BACKSLASH }

  lemma {:induction false} PlainEscaped(key: seq<byte>)
    requires Plain(key)
    ensures Escaped(key) == key
  {
    if key != [] {
      PlainEscaped(key[1..]);
      assert key == [key[0]] + key[1..];
    }
  }

  // ---------------------------------------------------------------- display

  datatype DisplayConfig = DisplayConfig(brightnessLevel: nat, autoScreenOffSeconds: nat)

  const LEVEL_KEY: seq<byte> := Literal("brightnessLevel")
  const SECONDS_KEY: seq<byte> := Literal("autoScreenOffSeconds")

  predicate ValidDisplay(c: DisplayConfig) {
    1 <= c.brightnessLevel <= 5 && c.autoScreenOffSeconds in {0, 60, 300, 600, 1800}
  }

  /** A number field of at most this size; absent fields take the default, where there is one. */
  function NumberField(v: Option<Scalar>, limit: nat, default: Option<nat>): Option<nat> {
    match v
    case None => default
    case Some(Number(n)) => if n < limit then Some(n) else None
    case Some(Text(_)) => None
  }

  /** Files from before the timeout existed hold a brightness only and mean ten minutes. */
  function DisplayOf(fields: seq<Field>): Option<DisplayConfig> {
    if !OnlyKeys(fields, {LEVEL_KEY, SECONDS_KEY}) then None
    else
      var seconds := NumberField(Lookup(fields, SECONDS_KEY), 0x1_0000_0000, Some(600));
      var level := NumberField(Lookup(fields, LEVEL_KEY), 0x100, None);
      if seconds.None? || level.None? || !ValidDisplay(DisplayConfig(level.value, seconds.value)) then None
      else Some(DisplayConfig(level.value, seconds.value))
  }

  /** Which objects are display configurations: a level of one to five, one of five timeouts or none given, and nothing else. */
  lemma DisplayExactly(fields: seq<Field>, c: DisplayConfig)
    ensures DisplayOf(fields) == Some(c) <==>
              && OnlyKeys(fields, {LEVEL_KEY, SECONDS_KEY})
              && Lookup(fields, LEVEL_KEY) == Some(Number(c.brightnessLevel)) && 1 <= c.brightnessLevel <= 5
              && (if Lookup(fields, SECONDS_KEY) == None then c.autoScreenOffSeconds == 600
                  else Lookup(fields, SECONDS_KEY) == Some(Number(c.autoScreenOffSeconds)))
              && (c.autoScreenOffSeconds == 0 || c.autoScreenOffSeconds == 60 || c.autoScreenOffSeconds == 300
                  || c.autoScreenOffSeconds == 600 || c.autoScreenOffSeconds == 1800)
  {}

  function ParseDisplay(json: seq<byte>): Option<DisplayConfig> {
    if Document(json).None? then None else DisplayOf(Document(json).value)
  }

  function DisplayFields(c: DisplayConfig): seq<Field> {
    [Field(LEVEL_KEY, Number(c.brightnessLevel)), Field(SECONDS_KEY, Number(c.autoScreenOffSeconds))]
  }

  function EncodeDisplay(c: DisplayConfig): seq<byte> { ObjectText(DisplayFields(c)) }

  const DISPLAY := Store.Codec(ParseDisplay, EncodeDisplay)

  lemma KeysDiffer()
    ensures |LEVEL_KEY| == 15 && |SECONDS_KEY| == 20 && LEVEL_KEY != SECONDS_KEY
  {}

  lemma KeyLength(key: seq<byte>)
    ensures |Escaped(key)| <= 6 * |key|
  {
    EscapedUnbroken(key);
  }

  lemma FieldLength(f: Field, n: nat)
    requires |Escaped(f.key)| + |ScalarText(f.value)| <= n
    ensures |FieldText(f)| <= n + 3
  {}

  lemma OneFieldLength(a: Field)
    ensures |FieldsText([a])| == |FieldText(a)| + 1
  {
    assert FieldsText([a]) == FieldText(a) + [CLOSE];
  }

  lemma TwoFieldsLength(a: Field, b: Field)
    ensures |ObjectText([a, b])| == |FieldText(a)| + |FieldText(b)| + 3
  {
    OneFieldLength(b);
    assert [a, b][1..] == [b];
    assert FieldsText([a, b]) == FieldText(a) + [COMMA] + FieldsText([b]);
  }

  lemma DisplayLength(c: DisplayConfig)
    requires ValidDisplay(c)
    ensures 0 < |EncodeDisplay(c)| <= Store.MAX_CONFIG_BYTES
  {
    KeysDiffer();
    KeyLength(LEVEL_KEY);
    KeyLength(SECONDS_KEY);
    assert Pow10(4) == 10 * Pow10(3) && Pow10(3) == 10 * Pow10(2) && Pow10(2) == 100;
    DecimalLength(c.brightnessLevel, 4);
    DecimalLength(c.autoScreenOffSeconds, 4);
    TwoFieldsLength(DisplayFields(c)[0], DisplayFields(c)[1]);
    FieldLength(DisplayFields(c)[0], 94);
    FieldLength(DisplayFields(c)[1], 124);
  }

  lemma DisplayFieldsBack(c: DisplayConfig)
    requires ValidDisplay(c)
    ensures DisplayOf(DisplayFields(c)) == Some(c)
  {
    KeysDiffer();
    Lookup2(DisplayFields(c)[0], DisplayFields(c)[1]);
  }

  /** Every valid display configuration is written in a form that fits and reads back as itself. */
  lemma DisplayRoundTrip(c: DisplayConfig)
    requires ValidDisplay(c)
    ensures 0 < |EncodeDisplay(c)| <= Store.MAX_CONFIG_BYTES && ParseDisplay(EncodeDisplay(c)) == Some(c)
  {
    DisplayLength(c);
    DocumentBack(DisplayFields(c));
    DisplayFieldsBack(c);
  }

  lemma DisplayIsGood()
    ensures Store.GoodCodec(DISPLAY)
  {
    forall b | ParseDisplay(b).Some?
      ensures var e := EncodeDisplay(ParseDisplay(b).value); ParseDisplay(e) == ParseDisplay(b) && 0 < |e| <= Store.MAX_CONFIG_BYTES
    {
      DisplayRoundTrip(ParseDisplay(b).value);
    }
  }

  lemma LegacyFields(level: nat)
    requires 1 <= level <= 5
    ensures DisplayOf([Field(LEVEL_KEY, Number(level))]) == Some(DisplayConfig(level, 600))
  {
    var fields := [Field(LEVEL_KEY, Number(level))];
    KeysDiffer();
    assert fields[..0] == [];
    assert Lookup(fields, LEVEL_KEY) == Some(Number(level));
    assert Lookup(fields, SECONDS_KEY) == None;
  }

  lemma LegacyLength(level: nat)
    requires level < 10
    ensures |ObjectText([Field(LEVEL_KEY, Number(level))])| <= 100
  {
    var f := Field(LEVEL_KEY, Number(level));
    KeysDiffer();
    KeyLength(LEVEL_KEY);
    assert Pow10(1) == 10;
    DecimalLength(level, 1);
    FieldLength(f, 91);
    OneFieldLength(f);
  }

  /** A brightness-only file means the default timeout. */
  lemma LegacyDisplay(level: nat)
    requires 1 <= level <= 5
    ensures ParseDisplay(ObjectText([Field(LEVEL_KEY, Number(level))])) == Some(DisplayConfig(level, 600))
  {
    LegacyLength(level);
    DocumentBack([Field(LEVEL_KEY, Number(level))]);
    LegacyFields(level);
  }

  // ---------------------------------------------------------------- Wi-Fi

  type WifiConfig = Wifi.WifiConfig

  const SSID_KEY: seq<byte> := Literal("ssid")
  const USERNAME_KEY: seq<byte> := Literal("username")
  const PASSWORD_KEY: seq<byte> := Literal("password")

  /** The check of Wifi.ValidConfig in a form that runs. */
  predicate ValidWifi(c: WifiConfig) {
    && c.ssid != [] && PlainText(c.ssid, 32) && PlainText(c.username, 64) && PlainText(c.password, 64)
    && if c.username != [] then c.password != []
       else c.password == []
            || (|c.password| == 64 && forall i :: 0 <= i < 64 ==> Wifi.HexDigit(c.password[i]))
            || (8 <= |c.password| < 64 && forall i :: 0 <= i < |c.password| ==> 32 <= c.password[i] <= 126)
  }

  predicate PlainText(t: seq<byte>, maximum: nat) { |t| <= maximum && Utf8.PlainFrom(t) }

  lemma ValidWifiIsValid(c: WifiConfig)
    ensures ValidWifi(c) <==> Wifi.ValidConfig(c)
  {
    Utf8.TextIsDecodable(c.ssid);
    Utf8.TextIsDecodable(c.username);
    Utf8.TextIsDecodable(c.password);
  }

  /** Exactly the three text fields, under their names. */
  function WifiOf(fields: seq<Field>): Option<WifiConfig> {
    var ssid, username, password := Lookup(fields, SSID_KEY), Lookup(fields, USERNAME_KEY), Lookup(fields, PASSWORD_KEY);
    if !OnlyKeys(fields, {SSID_KEY, USERNAME_KEY, PASSWORD_KEY})
       || ssid.None? || !ssid.value.Text? || username.None? || !username.value.Text? || password.None? || !password.value.Text? then None
    else
      var c := Wifi.WifiConfig(ssid.value.s, username.value.s, password.value.s);
      if ValidWifi(c) then Some(c) else None
  }

  /** Which objects are Wi-Fi configurations: the three texts, acceptable together, and nothing else. */
  lemma WifiExactly(fields: seq<Field>, c: WifiConfig)
    ensures WifiOf(fields) == Some(c) <==>
              && OnlyKeys(fields, {SSID_KEY, USERNAME_KEY, PASSWORD_KEY}) && Wifi.ValidConfig(c)
              && Lookup(fields, SSID_KEY) == Some(Text(c.ssid)) && Lookup(fields, USERNAME_KEY) == Some(Text(c.username))
              && Lookup(fields, PASSWORD_KEY) == Some(Text(c.password))
  {
    ValidWifiIsValid(c);
  }

  function ParseWifi(json: seq<byte>): Option<WifiConfig> {
    if Document(json).None? then None else WifiOf(Document(json).value)
  }

  function WifiFields(c: WifiConfig): seq<Field> {
    [Field(SSID_KEY, Text(c.ssid)), Field(USERNAME_KEY, Text(c.username)), Field(PASSWORD_KEY, Text(c.password))]
  }

  function EncodeWifi(c: WifiConfig): seq<byte> { ObjectText(WifiFields(c)) }

  const WIFI := Store.Codec(ParseWifi, EncodeWifi)

  lemma WifiKeysDiffer()
    ensures |SSID_KEY| == 4 && |USERNAME_KEY| == 8 && |PASSWORD_KEY| == 8
    ensures SSID_KEY != USERNAME_KEY && SSID_KEY != PASSWORD_KEY && USERNAME_KEY != PASSWORD_KEY
  {
    assert USERNAME_KEY[0] == 'u' as int && PASSWORD_KEY[0] == 'p' as int;
  }

  lemma {:induction false} ScalarsUnbroken(s: seq<nat>)
    requires Utf8.Scalars(s) && forall i :: 0 <= i < |s| ==> !Utf8.Control(s[i])
    ensures Unbroken(Utf8.EncodeAll(s))
  {
    if s != [] {
      ScalarsUnbroken(s[1..]);
      UnbrokenIsEvery(Utf8.Encode(s[0]));
      JoinUnbroken(Utf8.Encode(s[0]), Utf8.EncodeAll(s[1..]));
    }
  }

  /** Accepted text has no control bytes, so quoting it at most doubles it. */
  lemma QuotedLength(t: seq<byte>, maximum: nat)
    requires PlainText(t, maximum)
    ensures |ScalarText(Text(t))| <= 2 * maximum + 2
  {
    Utf8.EncodeDecode(t);
    ScalarsUnbroken(Utf8.Decode(t).value);
    EscapedDoubles(t);
  }

  lemma ThreeFieldsLength(a: Field, b: Field, c: Field)
    ensures |ObjectText([a, b, c])| == |FieldText(a)| + |FieldText(b)| + |FieldText(c)| + 4
  {
    TwoFieldsLength(b, c);
    assert [a, b, c][1..] == [b, c];
    assert FieldsText([a, b, c]) == FieldText(a) + [COMMA] + FieldsText([b, c]);
  }

  lemma LiteralPlain(s: string, key: seq<byte>)
    requires key == Literal(s) && forall i :: 0 <= i < |s| ==> 'a' <= s[i] <= 'z'
    ensures Plain(key)
  {}

  lemma PlainKeys()
    ensures Plain(SSID_KEY) && Plain(USERNAME_KEY) && Plain(PASSWORD_KEY)
  {
    LiteralPlain("ssid", SSID_KEY);
    LiteralPlain("username", USERNAME_KEY);
    LiteralPlain("password", PASSWORD_KEY);
  }

  lemma WifiLength(c: WifiConfig)
    requires ValidWifi(c)
    ensures 0 < |EncodeWifi(c)| <= Store.MAX_CONFIG_BYTES
  {
    WifiKeysDiffer();
    PlainKeys();
    PlainEscaped(SSID_KEY);
    PlainEscaped(USERNAME_KEY);
    PlainEscaped(PASSWORD_KEY);
    QuotedLength(c.ssid, 32);
    QuotedLength(c.username, 64);
    QuotedLength(c.password, 64);
    FieldLength(WifiFields(c)[0], 70);
    FieldLength(WifiFields(c)[1], 138);
    FieldLength(WifiFields(c)[2], 138);
    ThreeFieldsLength(WifiFields(c)[0], WifiFields(c)[1], WifiFields(c)[2]);
  }

  lemma WifiFieldsBack(c: WifiConfig)
    requires ValidWifi(c)
    ensures WifiOf(WifiFields(c)) == Some(c)
  {
    WifiKeysDiffer();
    Lookup3(WifiFields(c)[0], WifiFields(c)[1], WifiFields(c)[2]);
  }

  /** Every valid Wi-Fi configuration, quotes, backslashes and non-ASCII text included, fits and reads back as itself. */
  lemma WifiRoundTrip(c: WifiConfig)
    requires Wifi.ValidConfig(c)
    ensures 0 < |EncodeWifi(c)| <= Store.MAX_CONFIG_BYTES && ParseWifi(EncodeWifi(c)) == Some(c)
  {
    ValidWifiIsValid(c);
    WifiLength(c);
    DocumentBack(WifiFields(c));
    WifiFieldsBack(c);
  }

  lemma WifiIsGood()
    ensures Store.GoodCodec(WIFI)
  {
    forall b | ParseWifi(b).Some?
      ensures var e := EncodeWifi(ParseWifi(b).value); ParseWifi(e) == ParseWifi(b) && 0 < |e| <= Store.MAX_CONFIG_BYTES
    {
      ValidWifiIsValid(ParseWifi(b).value);
      WifiRoundTrip(ParseWifi(b).value);
    }
  }

  // ---------------------------------------------------------------- both services on one file system

  const DISPLAY_PATH := "/config/display.json"
  const WIFI_PATH := "/config/wifi.json"

  lemma PathsDiffer()
    ensures DISPLAY_PATH != WIFI_PATH && DISPLAY_PATH != Store.Temporary(WIFI_PATH) && WIFI_PATH != Store.Temporary(DISPLAY_PATH)
  {
    assert |DISPLAY_PATH| == 20 && |WIFI_PATH| == 17;
    assert |Store.Temporary(WIFI_PATH)| == 21 && |Store.Temporary(DISPLAY_PATH)| == 24;
  }

  datatype Device = Device(mounted: bool, files: Store.Files, display: Store.Service<DisplayConfig>, displayStored: seq<DisplayConfig>,
                           wifi: Store.Service<WifiConfig>, wifiStored: seq<WifiConfig>)

  /** Whose call it is; a remount or a restart, by whichever name, is the whole device's. */
  datatype Turn = OfDisplay(op: Store.Op) | OfWifi(op: Store.Op)

  /** The configurations before anything was read. */
  datatype Defaults = Defaults(display: DisplayConfig, wifi: WifiConfig)

  function DisplayView(d: Device): Store.World<DisplayConfig> { Store.World(d.mounted, d.files, d.display, d.displayStored) }

  function WifiView(d: Device): Store.World<WifiConfig> { Store.World(d.mounted, d.files, d.wifi, d.wifiStored) }

  function Step(defaults: Defaults, d: Device, turn: Turn): Device {
    match turn
    case OfDisplay(op) =>
      var w := Store.Step(DISPLAY, defaults.display, DISPLAY_PATH, DisplayView(d), op);
      Device(w.mounted, w.files, w.service, w.stored,
             if op.Restart? then Store.Service(defaults.wifi, Store.NotFound) else d.wifi, d.wifiStored)
    case OfWifi(op) =>
      var w := Store.Step(WIFI, defaults.wifi, WIFI_PATH, WifiView(d), op);
      Device(w.mounted, w.files, if op.Restart? then Store.Service(defaults.display, Store.NotFound) else d.display, d.displayStored,
             w.service, w.stored)
  }

  function Run(defaults: Defaults, files: Store.Files, turns: seq<Turn>): Device {
    if turns == [] then
      Device(false, files, Store.Service(defaults.display, Store.NotFound), [], Store.Service(defaults.wifi, Store.NotFound), [])
    else Step(defaults, Run(defaults, files, turns[..|turns| - 1]), turns[|turns| - 1])
  }

  ghost predicate FilesInv(files: Store.Files, d: Device) {
    Store.FileInv(DISPLAY, DISPLAY_PATH, files, DisplayView(d)) && Store.FileInv(WIFI, WIFI_PATH, files, WifiView(d))
  }

  lemma OtherKeepsFile<C>(codec: Store.Codec<C>, path: string, files: Store.Files, w: Store.World<C>, w': Store.World<C>)
    requires Store.FileInv(codec, path, files, w) && Store.SameFile(w.files, w'.files, path) && w'.stored == w.stored
    ensures Store.FileInv(codec, path, files, w')
  {}

  lemma DisplayTurn(defaults: Defaults, files: Store.Files, d: Device, op: Store.Op)
    requires FilesInv(files, d)
    ensures FilesInv(files, Step(defaults, d, OfDisplay(op)))
  {
    var d' := Step(defaults, d, OfDisplay(op));
    DisplayIsGood();
    PathsDiffer();
    Store.StepKeepsFile(DISPLAY, defaults.display, DISPLAY_PATH, files, DisplayView(d), op);
    Store.StepLeavesOthers(DISPLAY, defaults.display, DISPLAY_PATH, DisplayView(d), op, WIFI_PATH);
    OtherKeepsFile(WIFI, WIFI_PATH, files, WifiView(d), WifiView(d'));
  }

  lemma WifiTurn(defaults: Defaults, files: Store.Files, d: Device, op: Store.Op)
    requires FilesInv(files, d)
    ensures FilesInv(files, Step(defaults, d, OfWifi(op)))
  {
    var d' := Step(defaults, d, OfWifi(op));
    WifiIsGood();
    PathsDiffer();
    Store.StepKeepsFile(WIFI, defaults.wifi, WIFI_PATH, files, WifiView(d), op);
    Store.StepLeavesOthers(WIFI, defaults.wifi, WIFI_PATH, WifiView(d), op, DISPLAY_PATH);
    OtherKeepsFile(DISPLAY, DISPLAY_PATH, files, DisplayView(d), DisplayView(d'));
  }

  /** However the two services' calls are interleaved on one file system, each file holds the whole of the last value stored in it. */
  lemma {:induction false} BothFilesAlwaysWhole(defaults: Defaults, files: Store.Files, turns: seq<Turn>)
    ensures FilesInv(files, Run(defaults, files, turns))
  {
    if turns != [] {
      var before := Run(defaults, files, turns[..|turns| - 1]);
      BothFilesAlwaysWhole(defaults, files, turns[..|turns| - 1]);
      match turns[|turns| - 1]
      case OfDisplay(op) => DisplayTurn(defaults, files, before, op);
      case OfWifi(op) => WifiTurn(defaults, files, before, op);
    }
  }
}

/**
 * The attribute schema of the configuration-file reader: the sixteen
 * case-sensitive attribute names in index order, the token and parser-state
 * enums, the record kept per attribute, and the compiled default values.
 */
module Schema {

  /** An unsigned 8-bit value (uint8_t), the type of the per-slot flags. */
  newtype uint8 = x: int | 0 <= x < 0x100

  /** The two values a slot's `defined` flag takes (CFG_TRUE / CFG_FALSE). */
  const CfgTrue: uint8 := 1
  const CfgFalse: uint8 := 0

  /** Number of attributes in the schema (ATT_IDX_SIZE). */
  const AttCount: nat := 16

  /** Size of the token buffer (CFG_MAX_LINE_SIZE); one byte is kept for the NUL. */
  const MaxLineSize: nat := 65
  const MaxTokenLen: nat := MaxLineSize - 1

  /** Size of one attribute value slot; one byte is kept for the NUL. */
  const SlotSize: nat := 50
  const MaxValueLen: nat := SlotSize - 1

  /** The attribute names A1Name .. A16Name, in index order. */
  const Names: seq<string> := [
    "WIFISSID", "WIFIPASSWORD", "MQTTBROKERNAME", "MQTTBROKERPORT",
    "MQTTSECURE", "MQTTUSER", "MQTTPASSWORD", "MQTTANONYMOUS",
    "STREAMRATE", "ACCELENABLED", "GYROENABLED", "MAGENABLED",
    "ENVENABLED", "LIGHTENABLED", "SNTPNAME", "SNTPPORT"
  ]

  /** The members of AttributesIndex_E. */
  const AttWifiSsid: nat := 0
  const AttWifiPassword: nat := 1
  const AttMqttBrokerName: nat := 2
  const AttMqttBrokerPort: nat := 3
  const AttMqttSecure: nat := 4
  const AttMqttUser: nat := 5
  const AttMqttPassword: nat := 6
  const AttMqttAnonymous: nat := 7
  const AttStreamRate: nat := 8
  const AttAccelEnabled: nat := 9
  const AttGyroEnabled: nat := 10
  const AttMagEnabled: nat := 11
  const AttEnvEnabled: nat := 12
  const AttLightEnabled: nat := 13
  const AttSntpName: nat := 14
  const AttSntpPort: nat := 15

  /** TokensType_E: what the tokenizer found. */
  datatype TokenType = TokenUnknown | TokenEof | TokenAttName | TokenEqual | TokenValue

  /** States_E: what the parser expects next; also selects the tokenizer's scanning role. */
  datatype State = ExpNone | ExpName | ExpEqual | ExpValue

  /** BOOL_TO_STR: C truthiness of a compiled flag rendered as text. */
  function BoolToStr(x: int): (s: string)
    ensures s == "TRUE" || s == "FALSE"
    ensures s == "TRUE" <==> x != 0
  {
    if x != 0 then "TRUE" else "FALSE"
  }

  /** ConfigLine_S: one row of the configuration table. */
  datatype ConfigLine = ConfigLine(
    attName: string,
    defaultValue: string,
    ignore: uint8,
    defined: uint8,
    attValue: string)

  /**
   * The build-time macros the table's defaults come from. Their values are
   * fixed when the firmware is compiled; boolean ones keep C's int truthiness.
   */
  datatype BuildDefaults = BuildDefaults(
    wlanSsid: string,
    wlanPsk: string,
    mqttBrokerHostName: string,
    strMqttBrokerHostPort: string,
    mqttSecure: int,
    mqttUsername: string,
    mqttPassword: string,
    mqttAnonymous: int,
    strStreamRate: string,
    accelEn: int,
    gyroEn: int,
    magEn: int,
    envEn: int,
    lightEn: int,
    sntpServerUrl: string,
    strSntpServerPort: string)

  /** The statically initialised ConfigStructure: nothing defined, nothing ignored, values empty. */
  function InitialTable(d: BuildDefaults): (t: seq<ConfigLine>)
    ensures |t| == AttCount
    ensures forall i | 0 <= i < AttCount ::
      t[i].attName == Names[i] && t[i].ignore == CfgFalse &&
      t[i].defined == CfgFalse && t[i].attValue == ""
  {
    [ ConfigLine(Names[0], d.wlanSsid, CfgFalse, CfgFalse, ""),
      ConfigLine(Names[1], d.wlanPsk, CfgFalse, CfgFalse, ""),
      ConfigLine(Names[2], d.mqttBrokerHostName, CfgFalse, CfgFalse, ""),
      ConfigLine(Names[3], d.strMqttBrokerHostPort, CfgFalse, CfgFalse, ""),
      ConfigLine(Names[4], BoolToStr(d.mqttSecure), CfgFalse, CfgFalse, ""),
      ConfigLine(Names[5], d.mqttUsername, CfgFalse, CfgFalse, ""),
      ConfigLine(Names[6], d.mqttPassword, CfgFalse, CfgFalse, ""),
      ConfigLine(Names[7], BoolToStr(d.mqttAnonymous), CfgFalse, CfgFalse, ""),
      ConfigLine(Names[8], d.strStreamRate, CfgFalse, CfgFalse, ""),
      ConfigLine(Names[9], BoolToStr(d.accelEn), CfgFalse, CfgFalse, ""),
      ConfigLine(Names[10], BoolToStr(d.gyroEn), CfgFalse, CfgFalse, ""),
      ConfigLine(Names[11], BoolToStr(d.magEn), CfgFalse, CfgFalse, ""),
      ConfigLine(Names[12], BoolToStr(d.envEn), CfgFalse, CfgFalse, ""),
      ConfigLine(Names[13], BoolToStr(d.lightEn), CfgFalse, CfgFalse, ""),
      ConfigLine(Names[14], d.sntpServerUrl, CfgFalse, CfgFalse, ""),
      ConfigLine(Names[15], d.strSntpServerPort, CfgFalse, CfgFalse, "") ]
  }

  /**
   * What every reachable table satisfies: the names and defaults of the
   * static table, no ignored row, flags that are CFG_TRUE or CFG_FALSE, and
   * values that fit a slot.
   */
  ghost predicate WellShaped(lines: seq<ConfigLine>, d: BuildDefaults)
  {
    |lines| == AttCount &&
    forall i | 0 <= i < AttCount ::
      lines[i].attName == Names[i] &&
      lines[i].defaultValue == InitialTable(d)[i].defaultValue &&
      lines[i].ignore == CfgFalse &&
      (lines[i].defined == CfgFalse || lines[i].defined == CfgTrue) &&
      |lines[i].attValue| <= MaxValueLen
  }

  /** Upper-case ASCII letters only. */
  predicate UpperWord(s: string)
  {
    forall k | 0 <= k < |s| :: 'A' <= s[k] <= 'Z'
  }

  /** The schema has ATT_IDX_SIZE names, pairwise distinct, so first-match lookups are unambiguous. */
  lemma NamesDistinct()
    ensures |Names| == AttCount
    ensures forall i, j | 0 <= i < j < AttCount :: Names[i] != Names[j]
  {
  }

  /** Every name is a non-empty word of upper-case letters that fits the token buffer. */
  lemma NamesAreWords()
    ensures forall i | 0 <= i < AttCount ::
      0 < |Names[i]| <= MaxTokenLen && UpperWord(Names[i])
  {
  }

  /**
   * The lookup loop over the table: the first row, from `from` on, whose name
   * is `name`, or AttCount when no row has it.
   */
  function Lookup(name: string, from: nat): (i: nat)
    requires from <= AttCount
    ensures from <= i <= AttCount
    ensures i < AttCount ==> Names[i] == name
    ensures forall j | from <= j < i :: Names[j] != name
    decreases AttCount - from
  {
    if from == AttCount then AttCount
    else if Names[from] == name then from
    else Lookup(name, from + 1)
  }

  /** Whether a text is one of the schema's names (case-sensitive, whole text). */
  predicate IsName(s: string)
  {
    Lookup(s, 0) < AttCount
  }

  /** The lookup decides membership in the name list. */
  lemma IsNameIsMembership(s: string)
    ensures IsName(s) <==> s in Names
  {
    if s in Names {
      var i :| 0 <= i < AttCount && Names[i] == s;
      assert Lookup(s, 0) <= i;
    }
  }

  /** A text equal to row `i`'s name is a name, found no later than row `i`. */
  lemma MatchIsName(s: string, i: nat)
    requires i < AttCount && Names[i] == s
    ensures Lookup(s, 0) <= i && IsName(s)
  {
  }

  /** A text with a character outside 'A'..'Z' is not a name. */
  lemma NonWordIsNotName(s: string, k: nat)
    requires k < |s| && !('A' <= s[k] <= 'Z')
    ensures !IsName(s)
  {
    NamesAreWords();
    forall i | 0 <= i < AttCount
      ensures Names[i] != s
    {
      assert !UpperWord(s);
    }
  }

  /** WIFISSID is the first row. */
  lemma WifiSsidIsFirst()
    ensures IsName("WIFISSID") && Lookup("WIFISSID", 0) == AttWifiSsid
  {
    assert Names[0] == "WIFISSID";
  }

  /** Each name is found at its own index. */
  lemma LookupFindsIndex(a: nat)
    requires a < AttCount
    ensures Lookup(Names[a], 0) == a
  {
    NamesDistinct();
  }

  /** A name, given by value, is a non-empty upper-case word that fits the token buffer. */
  lemma NameIsWord(n: string)
    requires IsName(n)
    ensures 0 < |n| <= MaxTokenLen && UpperWord(n)
  {
    NamesAreWords();
    assert n == Names[Lookup(n, 0)];
  }

  /** Each AttributesIndex_E member indexes the table row of the matching name. */
  lemma IndexOrder()
    ensures Names[AttWifiSsid] == "WIFISSID" && Names[AttWifiPassword] == "WIFIPASSWORD"
    ensures Names[AttMqttBrokerName] == "MQTTBROKERNAME" && Names[AttMqttBrokerPort] == "MQTTBROKERPORT"
    ensures Names[AttMqttSecure] == "MQTTSECURE" && Names[AttMqttUser] == "MQTTUSER"
    ensures Names[AttMqttPassword] == "MQTTPASSWORD" && Names[AttMqttAnonymous] == "MQTTANONYMOUS"
    ensures Names[AttStreamRate] == "STREAMRATE" && Names[AttAccelEnabled] == "ACCELENABLED"
    ensures Names[AttGyroEnabled] == "GYROENABLED" && Names[AttMagEnabled] == "MAGENABLED"
    ensures Names[AttEnvEnabled] == "ENVENABLED" && Names[AttLightEnabled] == "LIGHTENABLED"
    ensures Names[AttSntpName] == "SNTPNAME" && Names[AttSntpPort] == "SNTPPORT"
  {
  }

  /** The static table is well shaped. */
  lemma InitialTableWellShaped(d: BuildDefaults)
    ensures WellShaped(InitialTable(d), d)
  {
  }
}

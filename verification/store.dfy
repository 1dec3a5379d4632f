/**
 * The configuration store: the table of sixteen attribute rows that
 * MQTTCfgParser_Init resets and fills from the configuration file, the
 * resolution of a row to its parsed value or its default, and the typed
 * accessors the rest of the firmware reads the configuration through.
 */
module MqttCfgParser {
  import opened Schema
  import opened Cursor
  import opened Tokenizer
  import opened Parser
  import opened Numeric

  /** The APP_RESULT values this file produces or passes on. */
  datatype AppResult =
    | AppOperationOk
    | AppError
    | AppSdcardNoError
    | AppRegistrationMode
    | AppOperationMode
    | AppSdcardReadError  // any other status the SD-card read reports

  /**
   * What MQTTFlash_SDCardRead delivers: its status and the bytes it read
   * into the zero-filled file buffer.
   */
  datatype SdCardRead = SdCardRead(status: AppResult, data: seq<char>)

  /** getAttValue: a defined row's parsed value, an undefined row's default, "" outside the table. */
  function GetAttValue(table: seq<ConfigLine>, index: int): (r: string)
    requires |table| == AttCount
    ensures 0 <= index < AttCount ==> r == table[index].attValue || r == table[index].defaultValue
    ensures !(0 <= index < AttCount) ==> r == ""
  {
    if 0 <= index < AttCount then
      if table[index].defined == CfgTrue then table[index].attValue else table[index].defaultValue
    else ""
  }

  /** The test of every boolean accessor: the text is exactly "TRUE" or "1". */
  predicate IsCfgTrue(value: string): (b: bool)
    ensures b ==> value == BoolToStr(1) || value == "1"
    ensures value == BoolToStr(0) ==> !b
  {
    value == "TRUE" || value == "1"
  }

  /** A compiled boolean flag, rendered by BOOL_TO_STR, reads back as the flag. */
  lemma BoolDefaultRoundTrip(x: int)
    ensures IsCfgTrue(BoolToStr(x)) <==> x != 0
  {
    if x == 0 {
      assert BoolToStr(x) == "FALSE";
      assert |"FALSE"| != |"TRUE"| && |"FALSE"| != |"1"|;
    }
  }

  /** The boolean test is case-sensitive and whole-text. */
  lemma IsCfgTrueIsExact()
    ensures IsCfgTrue("TRUE") && IsCfgTrue("1")
    ensures !IsCfgTrue("") && !IsCfgTrue("true") && !IsCfgTrue("TRUE ") && !IsCfgTrue("FALSE")
  {
  }

  /** Each row of the static table holds the default of its own macro. */
  lemma DefaultsInOrder(d: BuildDefaults)
    ensures InitialTable(d)[AttWifiSsid].defaultValue == d.wlanSsid
    ensures InitialTable(d)[AttWifiPassword].defaultValue == d.wlanPsk
    ensures InitialTable(d)[AttMqttBrokerName].defaultValue == d.mqttBrokerHostName
    ensures InitialTable(d)[AttMqttBrokerPort].defaultValue == d.strMqttBrokerHostPort
    ensures InitialTable(d)[AttMqttSecure].defaultValue == BoolToStr(d.mqttSecure)
    ensures InitialTable(d)[AttMqttUser].defaultValue == d.mqttUsername
    ensures InitialTable(d)[AttMqttPassword].defaultValue == d.mqttPassword
    ensures InitialTable(d)[AttMqttAnonymous].defaultValue == BoolToStr(d.mqttAnonymous)
    ensures InitialTable(d)[AttStreamRate].defaultValue == d.strStreamRate
    ensures InitialTable(d)[AttAccelEnabled].defaultValue == BoolToStr(d.accelEn)
    ensures InitialTable(d)[AttGyroEnabled].defaultValue == BoolToStr(d.gyroEn)
    ensures InitialTable(d)[AttMagEnabled].defaultValue == BoolToStr(d.magEn)
    ensures InitialTable(d)[AttEnvEnabled].defaultValue == BoolToStr(d.envEn)
    ensures InitialTable(d)[AttLightEnabled].defaultValue == BoolToStr(d.lightEn)
    ensures InitialTable(d)[AttSntpName].defaultValue == d.sntpServerUrl
    ensures InitialTable(d)[AttSntpPort].defaultValue == d.strSntpServerPort
  {
  }

  /** On the freshly reset table every index resolves to its row's default, or to "" outside the table. */
  lemma ResetResolvesToDefaults(d: BuildDefaults, index: int)
    ensures GetAttValue(InitialTable(d), index) ==
      if 0 <= index < AttCount then InitialTable(d)[index].defaultValue else ""
  {
  }

  /**
   * A file of distinct assignments to attributes, read after the reset: the
   * parse succeeds, every assigned attribute resolves to its value and every
   * other one to its default.
   */
  lemma AssignedFileResolves(d: BuildDefaults, ls: seq<Line>)
    requires WellFormed(ls) && DistinctAssignments(ls)
    ensures Parse(Render(ls), InitialTable(d)).Finished? && Parse(Render(ls), InitialTable(d)).ok
    ensures forall k | 0 <= k < |ls| && ls[k].Assign? ::
      GetAttValue(Parse(Render(ls), InitialTable(d)).slots, Lookup(ls[k].name, 0)) == ls[k].value
    ensures forall i | 0 <= i < AttCount && !Assigns(ls, Names[i]) ::
      GetAttValue(Parse(Render(ls), InitialTable(d)).slots, i) == InitialTable(d)[i].defaultValue
  {
    AssignedFileResolvesFrom(InitialTable(d), ls);
  }

  /** The same, from any table in which no row is defined yet. */
  lemma AssignedFileResolvesFrom(t: seq<ConfigLine>, ls: seq<Line>)
    requires |t| == AttCount && forall i | 0 <= i < AttCount :: t[i].defined == CfgFalse
    requires WellFormed(ls) && DistinctAssignments(ls)
    ensures Parse(Render(ls), t).Finished? && Parse(Render(ls), t).ok
    ensures forall k | 0 <= k < |ls| && ls[k].Assign? ::
      GetAttValue(Parse(Render(ls), t).slots, Lookup(ls[k].name, 0)) == ls[k].value
    ensures forall i | 0 <= i < AttCount && !Assigns(ls, Names[i]) ::
      GetAttValue(Parse(Render(ls), t).slots, i) == t[i].defaultValue
  {
    var r := Parse(Render(ls), t);
    RenderedParse(t, ls);
    DistinctAssignmentsResolve(t, ls);
    assert r == Expected(t, ls);
    SlotsResolve(t, r.slots, ls);
  }

  /**
   * getAttValue over a table that holds the file's values in the assigned
   * rows, flagged defined, and the untouched rows of a table with nothing
   * defined: assigned attributes answer their values, the others their defaults.
   */
  lemma SlotsResolve(t: seq<ConfigLine>, s: seq<ConfigLine>, ls: seq<Line>)
    requires |t| == AttCount && |s| == AttCount && WellFormed(ls)
    requires forall i | 0 <= i < AttCount :: t[i].defined == CfgFalse
    requires forall k | 0 <= k < |ls| && ls[k].Assign? ::
      s[Lookup(ls[k].name, 0)] == t[Lookup(ls[k].name, 0)].(attValue := ls[k].value, defined := CfgTrue)
    requires forall i | 0 <= i < AttCount && !Assigns(ls, Names[i]) :: s[i] == t[i]
    ensures forall k | 0 <= k < |ls| && ls[k].Assign? :: GetAttValue(s, Lookup(ls[k].name, 0)) == ls[k].value
    ensures forall i | 0 <= i < AttCount && !Assigns(ls, Names[i]) :: GetAttValue(s, i) == t[i].defaultValue
  {
    forall k | 0 <= k < |ls| && ls[k].Assign?
      ensures GetAttValue(s, Lookup(ls[k].name, 0)) == ls[k].value
    {
      var a := Lookup(ls[k].name, 0);
      assert s[a] == t[a].(attValue := ls[k].value, defined := CfgTrue);
    }
  }

  /**
   * A successful file that never assigns MQTTUSER leaves it at the compiled
   * MQTT_USERNAME, which is what sends Init into registration mode.
   */
  lemma NoUserMeansRegistration(d: BuildDefaults, ls: seq<Line>)
    requires WellFormed(ls) && !Assigns(ls, "MQTTUSER") && Expected(InitialTable(d), ls).ok
    ensures Parse(Render(ls), InitialTable(d)).Finished? && Parse(Render(ls), InitialTable(d)).ok
    ensures GetAttValue(Parse(Render(ls), InitialTable(d)).slots, AttMqttUser) == d.mqttUsername
  {
    var buf := Render(ls);
    var t := InitialTable(d);
    assert buf[0..] == buf;
    RenderedFileParses(buf, 0, ls, 0, t);
    IndexOrder();
    ExpectedKeepsUnassigned(t, ls, AttMqttUser);
    DefaultsInOrder(d);
  }

  /**
   * A successful file that assigns MQTTUSER a value other than the compiled
   * MQTT_USERNAME (and assigns nothing twice) sends Init into operation mode.
   */
  lemma OtherUserMeansOperation(d: BuildDefaults, ls: seq<Line>, k: nat)
    requires WellFormed(ls) && DistinctAssignments(ls)
    requires k < |ls| && ls[k].Assign? && ls[k].name == "MQTTUSER" && ls[k].value != d.mqttUsername
    ensures Parse(Render(ls), InitialTable(d)).Finished? && Parse(Render(ls), InitialTable(d)).ok
    ensures GetAttValue(Parse(Render(ls), InitialTable(d)).slots, AttMqttUser) != d.mqttUsername
  {
    AssignedFileResolves(d, ls);
    assert Lookup(ls[k].name, 0) == AttMqttUser by {
      IndexOrder();
      LookupFindsIndex(AttMqttUser);
    }
  }

  /** A row whose name differs from the text is passed over by the lookup. */
  lemma LookupPassesOver(name: string, i: nat)
    requires i <= Lookup(name, 0) && i < AttCount && Names[i] != name
    ensures i + 1 <= Lookup(name, 0)
  {
  }

  /** Clearing every row of a well-shaped table gives back the static table. */
  lemma ClearedIsInitial(before: seq<ConfigLine>, after: seq<ConfigLine>, d: BuildDefaults)
    requires WellShaped(before, d) && |after| == AttCount
    requires forall j | 0 <= j < AttCount :: after[j] == before[j].(defined := CfgFalse, attValue := "")
    ensures after == InitialTable(d)
  {
    var t := InitialTable(d);
    forall j | 0 <= j < AttCount
      ensures after[j] == t[j]
    {
    }
  }

  /** Each row carries the name of its index. */
  predicate NamesInPlace(lines: seq<ConfigLine>)
  {
    |lines| == AttCount && forall j | 0 <= j < AttCount :: lines[j].attName == Names[j]
  }

  /** Replacing a row by one with the same name keeps every row's name in place. */
  lemma RenameKeepsNames(lines: seq<ConfigLine>, i: nat, line: ConfigLine)
    requires NamesInPlace(lines) && i < AttCount && line.attName == lines[i].attName
    ensures NamesInPlace(lines[i := line])
  {
  }

  /**
   * ConfigStructure together with the build defaults it was compiled with.
   * The rows are updated in place by the reset and by the parser.
   */
  class ConfigStore {
    const defaults: BuildDefaults
    const configStructure: array<ConfigLine>

    /** The table has its sixteen rows with their names and defaults, and well-formed flags and values. */
    ghost predicate Valid()
      reads this, configStructure
    {
      configStructure.Length == AttCount && WellShaped(configStructure[..], defaults)
    }

    /** The statically initialised table. */
    constructor (d: BuildDefaults)
      ensures Valid() && defaults == d && configStructure[..] == InitialTable(d)
      ensures fresh(configStructure)
    {
      defaults := d;
      var t := InitialTable(d);
      configStructure := new ConfigLine[AttCount](i requires 0 <= i < AttCount => t[i]);
      new;
      assert configStructure[..] == t;
      InitialTableWellShaped(d);
    }

    /** The reset of MQTTCfgParser_Init: the static table comes back. */
    method Reset()
      requires Valid()
      modifies configStructure
      ensures Valid() && configStructure[..] == InitialTable(defaults)
    {
      ghost var before := configStructure[..];
      ClearRows();
      ClearedIsInitial(before, configStructure[..], defaults);
      InitialTableWellShaped(defaults);
    }

    /** The reset loop of MQTTCfgParser_Init: every row undefined, its value cleared. */
    method ClearRows()
      modifies configStructure
      ensures forall j | 0 <= j < configStructure.Length ::
        configStructure[j] == old(configStructure[j]).(defined := CfgFalse, attValue := "")
    {
      for i := 0 to configStructure.Length
        invariant forall j | 0 <= j < i :: configStructure[j] == old(configStructure[j]).(defined := CfgFalse, attValue := "")
        invariant forall j | i <= j < configStructure.Length :: configStructure[j] == old(configStructure[j])
      {
        configStructure[i] := configStructure[i].(defined := CfgFalse, attValue := "");
      }
    }

    /** The search of MQTTCfgParser_Config for the first row whose name is the token. */
    method FindRow(token: string) returns (i: nat)
      requires configStructure.Length == AttCount && NamesInPlace(configStructure[..])
      ensures i == Lookup(token, 0)
    {
      i := 0;
      while i < AttCount && configStructure[i].attName != token
        invariant 0 <= i <= Lookup(token, 0)
      {
        assert configStructure[..][i] == configStructure[i];
        LookupPassesOver(token, i);
        i := i + 1;
      }
      if i < AttCount {
        assert configStructure[..][i] == configStructure[i];
      }
    }

    /**
     * The VALUE case of MQTTCfgParser_Config: the token is copied into the
     * row first; the row becomes defined if it was not, and the answer says
     * whether it was not.
     */
    method StoreValue(cur: nat, token: string) returns (firstValue: bool)
      requires configStructure.Length == AttCount && cur < AttCount && NamesInPlace(configStructure[..])
      modifies configStructure
      ensures firstValue <==> old(configStructure[cur]).defined == CfgFalse
      ensures configStructure[..] == old(configStructure[..])[cur :=
        if firstValue then old(configStructure[cur]).(attValue := token, defined := CfgTrue)
        else old(configStructure[cur]).(attValue := token)]
      ensures NamesInPlace(configStructure[..])
    {
      var line := configStructure[cur];
      var updated := line.(attValue := token);
      firstValue := line.defined == CfgFalse;
      if firstValue {
        updated := updated.(defined := CfgTrue);
      }
      configStructure[cur] := updated;
      RenameKeepsNames(old(configStructure[..]), cur, updated);
    }

    /**
     * MQTTCfgParser_Config: reads the buffer token by token through the
     * three-state machine, storing each value in the row its name selects.
     * The table ends as the parse leaves it, and the result says whether the
     * parse succeeded.
     */
    method Config(buf: seq<char>) returns (result: uint8)
      requires Valid() && NoNul(buf)
      requires Parse(buf, configStructure[..]).Finished?
      modifies configStructure
      ensures Valid()
      ensures configStructure[..] == old(Parse(buf, configStructure[..])).slots
      ensures result == if old(Parse(buf, configStructure[..])).ok then CfgTrue else CfgFalse
    {
      RunKeepsShape(buf, 0, ExpName, 0, configStructure[..], defaults);
      result := ReadTokens(buf);
    }

    /** The token loop of MQTTCfgParser_Config, which needs only the rows' names. */
    method ReadTokens(buf: seq<char>) returns (result: uint8)
      requires configStructure.Length == AttCount && NamesInPlace(configStructure[..]) && NoNul(buf)
      requires Parse(buf, configStructure[..]).Finished?
      modifies configStructure
      ensures configStructure[..] == old(Parse(buf, configStructure[..])).slots
      ensures result == if old(Parse(buf, configStructure[..])).ok then CfgTrue else CfgFalse
    {
      ghost var outcome := Parse(buf, configStructure[..]);
      var indexAtBuffer: nat := 0;
      result := CfgTrue;
      var state := ExpName;
      var currentConfigToSet: nat := 0;
      while result == CfgTrue
        invariant indexAtBuffer <= |buf| && currentConfigToSet < AttCount
        invariant configStructure.Length == AttCount
        invariant NamesInPlace(configStructure[..])
        invariant result == CfgTrue ==>
          Run(buf, indexAtBuffer, state, currentConfigToSet, configStructure[..]) == outcome
        invariant result != CfgTrue ==> result == CfgFalse && outcome == Finished(false, configStructure[..])
        decreases |buf| - indexAtBuffer
      {
        ghost var pos := indexAtBuffer;
        ghost var slots := configStructure[..];
        var tokenType, token, next := GetToken(buf, indexAtBuffer, state);
        indexAtBuffer := next;
        if tokenType == TokenEof {
          break;
        }
        RunStep(buf, pos, state, currentConfigToSet, slots, tokenType, token, next);
        match state {
          case ExpName =>
            if tokenType != TokenAttName {
              result := CfgFalse;
            } else {
              var i := FindRow(token);
              if i < AttCount {
                currentConfigToSet := i;
                state := ExpEqual;
              }
            }
          case ExpEqual =>
            if tokenType != TokenEqual {
              result := CfgFalse;
            } else {
              state := ExpValue;
            }
          case ExpValue =>
            if tokenType != TokenValue {
              result := CfgFalse;
            } else {
              var firstValue := StoreValue(currentConfigToSet, token);
              if firstValue {
                state := ExpName;
              } else {
                result := CfgFalse;
              }
            }
          case ExpNone =>
            // the default branch only reports the state
        }
      }
    }

    /**
     * MQTTCfgParser_ParseConfigFile: a failed read is passed on; a good read
     * is parsed, and only a successful parse turns the status into
     * APP_OPERATION_OK (a failed one keeps APP_SDCARD_NO_ERROR).
     */
    method ParseConfigFile(read: SdCardRead) returns (retVal: AppResult)
      requires Valid()
      requires read.status == AppSdcardNoError ==>
        NoNul(read.data) && Parse(read.data, configStructure[..]).Finished?
      modifies configStructure
      ensures Valid()
      ensures read.status != AppSdcardNoError ==>
        retVal == read.status && configStructure[..] == old(configStructure[..])
      ensures read.status == AppSdcardNoError ==>
        configStructure[..] == old(Parse(read.data, configStructure[..])).slots &&
        retVal == if old(Parse(read.data, configStructure[..])).ok then AppOperationOk else AppSdcardNoError
    {
      retVal := read.status;
      if retVal == AppSdcardNoError {
        var parsed := Config(read.data);
        if parsed == CfgTrue {
          retVal := AppOperationOk;
        }
      }
    }

    /**
     * MQTTCfgParser_Init: resets the table, reads the file into it, and
     * decides the mode: an error unless the read and the parse succeed,
     * otherwise registration mode exactly when the resolved MQTTUSER is the
     * compiled MQTT_USERNAME.
     */
    method Init(read: SdCardRead) returns (r: AppResult)
      requires Valid()
      requires read.status == AppSdcardNoError ==>
        NoNul(read.data) && Parse(read.data, InitialTable(defaults)).Finished?
      modifies configStructure
      ensures Valid()
      ensures read.status != AppSdcardNoError ==> configStructure[..] == InitialTable(defaults)
      ensures read.status == AppSdcardNoError ==>
        configStructure[..] == Parse(read.data, InitialTable(defaults)).slots
      ensures r == AppError <==>
        if read.status == AppSdcardNoError then !Parse(read.data, InitialTable(defaults)).ok
        else read.status != AppOperationOk
      ensures r != AppError ==> (r == AppRegistrationMode || r == AppOperationMode)
      ensures r != AppError ==> (r == AppRegistrationMode <==> GetMqttUser() == defaults.mqttUsername)
    {
      Reset();
      var parsed := ParseConfigFile(read);
      if parsed != AppOperationOk {
        r := AppError;
        return;
      }
      if GetMqttUser() == defaults.mqttUsername {
        r := AppRegistrationMode;
      } else {
        r := AppOperationMode;
      }
    }

    // -------------------------------------------------------------------------
    // Accessors: each resolves its row; an undefined row gives the compiled default
    // -------------------------------------------------------------------------

    function GetWlanSsid(): (r: string)
      reads this, configStructure
      requires Valid()
      ensures r == if configStructure[AttWifiSsid].defined == CfgTrue
        then configStructure[AttWifiSsid].attValue else defaults.wlanSsid
    {
      DefaultsInOrder(defaults);
      GetAttValue(configStructure[..], AttWifiSsid)
    }

    function GetWlanPassword(): (r: string)
      reads this, configStructure
      requires Valid()
      ensures r == if configStructure[AttWifiPassword].defined == CfgTrue
        then configStructure[AttWifiPassword].attValue else defaults.wlanPsk
    {
      DefaultsInOrder(defaults);
      GetAttValue(configStructure[..], AttWifiPassword)
    }

    function GetMqttBrokerName(): (r: string)
      reads this, configStructure
      requires Valid()
      ensures r == if configStructure[AttMqttBrokerName].defined == CfgTrue
        then configStructure[AttMqttBrokerName].attValue else defaults.mqttBrokerHostName
    {
      DefaultsInOrder(defaults);
      GetAttValue(configStructure[..], AttMqttBrokerName)
    }

    function GetMqttBrokerPort(): (r: int)
      reads this, configStructure
      requires Valid()
      ensures r == Atol(if configStructure[AttMqttBrokerPort].defined == CfgTrue
        then configStructure[AttMqttBrokerPort].attValue else defaults.strMqttBrokerHostPort)
    {
      DefaultsInOrder(defaults);
      Atol(GetAttValue(configStructure[..], AttMqttBrokerPort))
    }

    function IsMqttSecureEnabled(): (r: bool)
      reads this, configStructure
      requires Valid()
      ensures r == if configStructure[AttMqttSecure].defined == CfgTrue
        then IsCfgTrue(configStructure[AttMqttSecure].attValue) else defaults.mqttSecure != 0
    {
      DefaultsInOrder(defaults);
      BoolDefaultRoundTrip(defaults.mqttSecure);
      IsCfgTrue(GetAttValue(configStructure[..], AttMqttSecure))
    }

    function IsMqttAnonymous(): (r: bool)
      reads this, configStructure
      requires Valid()
      ensures r == if configStructure[AttMqttAnonymous].defined == CfgTrue
        then IsCfgTrue(configStructure[AttMqttAnonymous].attValue) else defaults.mqttAnonymous != 0
    {
      DefaultsInOrder(defaults);
      BoolDefaultRoundTrip(defaults.mqttAnonymous);
      IsCfgTrue(GetAttValue(configStructure[..], AttMqttAnonymous))
    }

    function GetMqttUser(): (r: string)
      reads this, configStructure
      requires Valid()
      ensures r == if configStructure[AttMqttUser].defined == CfgTrue
        then configStructure[AttMqttUser].attValue else defaults.mqttUsername
    {
      DefaultsInOrder(defaults);
      GetAttValue(configStructure[..], AttMqttUser)
    }

    function GetMqttPassword(): (r: string)
      reads this, configStructure
      requires Valid()
      ensures r == if configStructure[AttMqttPassword].defined == CfgTrue
        then configStructure[AttMqttPassword].attValue else defaults.mqttPassword
    {
      DefaultsInOrder(defaults);
      GetAttValue(configStructure[..], AttMqttPassword)
    }

    function GetStreamRate(): (r: int)
      reads this, configStructure
      requires Valid()
      ensures r == Atol(if configStructure[AttStreamRate].defined == CfgTrue
        then configStructure[AttStreamRate].attValue else defaults.strStreamRate)
    {
      DefaultsInOrder(defaults);
      Atol(GetAttValue(configStructure[..], AttStreamRate))
    }

    function IsAccelEnabled(): (r: bool)
      reads this, configStructure
      requires Valid()
      ensures r == if configStructure[AttAccelEnabled].defined == CfgTrue
        then IsCfgTrue(configStructure[AttAccelEnabled].attValue) else defaults.accelEn != 0
    {
      DefaultsInOrder(defaults);
      BoolDefaultRoundTrip(defaults.accelEn);
      IsCfgTrue(GetAttValue(configStructure[..], AttAccelEnabled))
    }

    function IsGyroEnabled(): (r: bool)
      reads this, configStructure
      requires Valid()
      ensures r == if configStructure[AttGyroEnabled].defined == CfgTrue
        then IsCfgTrue(configStructure[AttGyroEnabled].attValue) else defaults.gyroEn != 0
    {
      DefaultsInOrder(defaults);
      BoolDefaultRoundTrip(defaults.gyroEn);
      IsCfgTrue(GetAttValue(configStructure[..], AttGyroEnabled))
    }

    function IsMagnetEnabled(): (r: bool)
      reads this, configStructure
      requires Valid()
      ensures r == if configStructure[AttMagEnabled].defined == CfgTrue
        then IsCfgTrue(configStructure[AttMagEnabled].attValue) else defaults.magEn != 0
    {
      DefaultsInOrder(defaults);
      BoolDefaultRoundTrip(defaults.magEn);
      IsCfgTrue(GetAttValue(configStructure[..], AttMagEnabled))
    }

    function IsEnvEnabled(): (r: bool)
      reads this, configStructure
      requires Valid()
      ensures r == if configStructure[AttEnvEnabled].defined == CfgTrue
        then IsCfgTrue(configStructure[AttEnvEnabled].attValue) else defaults.envEn != 0
    {
      DefaultsInOrder(defaults);
      BoolDefaultRoundTrip(defaults.envEn);
      IsCfgTrue(GetAttValue(configStructure[..], AttEnvEnabled))
    }

    function IsLightEnabled(): (r: bool)
      reads this, configStructure
      requires Valid()
      ensures r == if configStructure[AttLightEnabled].defined == CfgTrue
        then IsCfgTrue(configStructure[AttLightEnabled].attValue) else defaults.lightEn != 0
    {
      DefaultsInOrder(defaults);
      BoolDefaultRoundTrip(defaults.lightEn);
      IsCfgTrue(GetAttValue(configStructure[..], AttLightEnabled))
    }

    function GetSntpName(): (r: string)
      reads this, configStructure
      requires Valid()
      ensures r == if configStructure[AttSntpName].defined == CfgTrue
        then configStructure[AttSntpName].attValue else defaults.sntpServerUrl
    {
      DefaultsInOrder(defaults);
      GetAttValue(configStructure[..], AttSntpName)
    }

    function GetSntpPort(): (r: int)
      reads this, configStructure
      requires Valid()
      ensures r == Atol(if configStructure[AttSntpPort].defined == CfgTrue
        then configStructure[AttSntpPort].attValue else defaults.strSntpServerPort)
    {
      DefaultsInOrder(defaults);
      Atol(GetAttValue(configStructure[..], AttSntpPort))
    }
  }
}
